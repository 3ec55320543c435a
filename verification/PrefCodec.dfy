/** Preference values: the text a `.pref` entry carries, and the JSON a schema-drawn input edits. */
module PrefCodecs {
  import opened Wrappers
  import opened Decimals
  import opened CotTimes

  const I32_MIN := -0x8000_0000
  const I32_MAX := 0x7fff_ffff
  const U64_MAX := 0xffff_ffff_ffff_ffff

  /** The classes ATAK reads a preference as; the floating-point one is not part of this model. */
  datatype PrefClass = String | Boolean | Integer | Long

  /** A JSON number as its parser holds it: an integer that fits one of two machine words, or anything else. */
  datatype Number = Whole(n: int) | Fractional(x: real)

  predicate IsNumber(number: Number) {
    number.Whole? ==> I64_MIN <= number.n <= U64_MAX
  }

  datatype Json = Null | Bool(on: bool) | Num(number: Number) | Str(text: string) | Compound

  predicate IsJson(value: Json) {
    value.Num? ==> IsNumber(value.number)
  }

  function ParseI32(text: string): Option<int> { ParseInt(text, I32_MIN, I32_MAX) }

  function ParseI64(text: string): Option<int> { ParseInt(text, I64_MIN, I64_MAX) }

  /** Whether `text` is one the class could hold. */
  predicate Accepts(kind: PrefClass, text: string) {
    match kind
    case String => true
    case Boolean => text == "true" || text == "false"
    case Integer => ParseI32(text).Some?
    case Long => ParseI64(text).Some?
  }

  /** The bounds a form draws for a class that is a number. */
  function Minimum(kind: PrefClass): int { if kind.Integer? then I32_MIN else I64_MIN }

  function Maximum(kind: PrefClass): int { if kind.Integer? then I32_MAX else I64_MAX }

  predicate IsWholeClass(kind: PrefClass) { kind.Integer? || kind.Long? }

  function BoolText(on: bool): string { if on then "true" else "false" }

  function ToJson(kind: PrefClass, text: string): (value: Option<Json>)
    ensures value.Some? <==> Accepts(kind, text)
    ensures value.Some? ==> IsJson(value.value)
    ensures value.Some? ==>
              match value.value
              case Str(same) => kind.String? && same == text
              case Bool(on) => kind.Boolean? && text == BoolText(on)
              case Num(number) => IsWholeClass(kind) && number.Whole?
                                  && ParseInt(text, Minimum(kind), Maximum(kind)) == Some(number.n)
              case _ => false
  {
    if !Accepts(kind, text) then None
    else match kind
      case String => Some(Str(text))
      case Boolean => Some(Bool(text == "true"))
      case Integer => Some(Num(Whole(ParseI64(text).value)))
      case Long => Some(Num(Whole(ParseI64(text).value)))
  }

  function AsI64(number: Number): Option<int> {
    if number.Whole? && I64_MIN <= number.n <= I64_MAX then Some(number.n) else None
  }

  /** The text for an edited value, before the class has the last word. */
  function Rendered(kind: PrefClass, value: Json): Option<string> {
    match (kind, value)
    case (String, Str(text)) => Some(text)
    case (Boolean, Bool(on)) => Some(BoolText(on))
    case (Integer, Num(number)) => if AsI64(number).Some? then Some(SignedDecimal(number.n)) else None
    case (Long, Num(number)) => if AsI64(number).Some? then Some(SignedDecimal(number.n)) else None
    case _ => None
  }

  function FromJson(kind: PrefClass, value: Json): Option<string> {
    var text := Rendered(kind, value);
    if text.Some? && Accepts(kind, text.value) then text else None
  }

  // ---- the two undo each other ----

  /** An i32's text is an i64's, with the same value. */
  lemma NarrowIsWide(kind: PrefClass, text: string)
    requires IsWholeClass(kind)
    ensures Accepts(kind, text) <==> ParseInt(text, Minimum(kind), Maximum(kind)).Some?
    ensures Accepts(kind, text) ==> ParseI64(text) == ParseInt(text, Minimum(kind), Maximum(kind))
  {
  }

  /** Which JSON values have a text: those of the class's own kind, and of numbers exactly those within the bounds drawn. */
  lemma BoundsAreExact(kind: PrefClass, value: Json)
    ensures FromJson(kind, value).Some? <==>
            match kind
            case String => value.Str?
            case Boolean => value.Bool?
            case Integer => value.Num? && value.number.Whole? && Minimum(kind) <= value.number.n <= Maximum(kind)
            case Long => value.Num? && value.number.Whole? && Minimum(kind) <= value.number.n <= Maximum(kind)
  {
    if IsWholeClass(kind) && value.Num? && value.number.Whole? {
      SignedDecimalReadsBack(value.number.n, Minimum(kind), Maximum(kind));
    }
  }

  /** In numbers: what each class takes as text and as JSON is what 32 and 64 bits hold. */
  lemma WordsHoldTheirBits(n: int, x: real)
    ensures Accepts(Integer, SignedDecimal(n)) <==> -2_147_483_648 <= n <= 2_147_483_647
    ensures Accepts(Long, SignedDecimal(n)) <==> -9_223_372_036_854_775_808 <= n <= 9_223_372_036_854_775_807
    ensures FromJson(Integer, Num(Whole(n))).Some? <==> -2_147_483_648 <= n <= 2_147_483_647
    ensures FromJson(Long, Num(Whole(n))).Some? <==> -9_223_372_036_854_775_808 <= n <= 9_223_372_036_854_775_807
    ensures IsJson(Num(Fractional(x))) && FromJson(Integer, Num(Fractional(x))).None?
            && FromJson(Long, Num(Fractional(x))).None?
    ensures IsJson(Num(Whole(n))) <==> -9_223_372_036_854_775_808 <= n <= 18_446_744_073_709_551_615
  {
    SignedDecimalReadsBack(n, I32_MIN, I32_MAX);
    SignedDecimalReadsBack(n, I64_MIN, I64_MAX);
    BoundsAreExact(Integer, Num(Whole(n)));
    BoundsAreExact(Long, Num(Whole(n)));
  }

  /** Every text that is written is accepted, and reads back as the value it was written for. */
  lemma WrittenReadsBack(kind: PrefClass, value: Json)
    requires FromJson(kind, value).Some?
    ensures Accepts(kind, FromJson(kind, value).value)
    ensures ToJson(kind, FromJson(kind, value).value) == Some(value)
  {
    if IsWholeClass(kind) {
      var n := value.number.n;
      SignedDecimalReadsBack(n, Minimum(kind), Maximum(kind));
      SignedDecimalReadsBack(n, I64_MIN, I64_MAX);
    }
  }

  /** Every accepted text is written back as one with the same value, and writing that one again changes nothing. */
  lemma AcceptedIsMadeCanonical(kind: PrefClass, text: string)
    requires Accepts(kind, text)
    ensures
      var value := ToJson(kind, text).value;
      var written := FromJson(kind, value);
      && written.Some? && ToJson(kind, written.value) == Some(value)
      && FromJson(kind, ToJson(kind, written.value).value) == written
  {
    var value := ToJson(kind, text).value;
    if IsWholeClass(kind) {
      NarrowIsWide(kind, text);
    }
    BoundsAreExact(kind, value);
    WrittenReadsBack(kind, value);
  }

  /** The text itself comes back exactly when it has no plus sign, no leading zero and no minus zero. */
  lemma TextComesBackWhenCanonical(kind: PrefClass, text: string)
    requires Accepts(kind, text)
    ensures FromJson(kind, ToJson(kind, text).value) == Some(text) <==> !IsWholeClass(kind) || IsCanonical(text)
  {
    AcceptedIsMadeCanonical(kind, text);
    if IsWholeClass(kind) {
      CanonicalIsWritten(text, I64_MIN, I64_MAX);
    }
  }

  /** Three texts a device may hold and an editor that changed nothing would rewrite. */
  lemma SomeTextsAreRewritten()
    ensures FromJson(Integer, ToJson(Integer, "+5").GetOr(Null)) == Some("5")
    ensures FromJson(Integer, ToJson(Integer, "007").GetOr(Null)) == Some("7")
    ensures FromJson(Long, ToJson(Long, "-0").GetOr(Null)) == Some("0")
  {
    assert "+5"[1..] == "5" && "-0"[1..] == "0";
    assert "5"[..0] == "" && "0"[..0] == "" && "007"[..2] == "00" && "00"[..1] == "0";
    assert Value("5") == 5 && Value("0") == 0 && Value("007") == 7;
    assert Decimal(5) == "5" && Decimal(7) == "7" && Decimal(0) == "0";
  }

  // ---- the text as a JSON number ----

  /** An integer as RFC 8259, section 6, spells one: an optional minus, then no redundant leading zero. */
  predicate IsJsonInt(text: string) {
    var digits := if text != "" && text[0] == '-' then text[1..] else text;
    AllDigits(digits) && IsShortest(digits)
  }

  /** Every number that is written is spelled as JSON spells it. */
  lemma WrittenIsJson(kind: PrefClass, value: Json)
    requires IsWholeClass(kind) && FromJson(kind, value).Some?
    ensures IsJsonInt(FromJson(kind, value).value)
  {
    var text := FromJson(kind, value).value;
    BoundsAreExact(kind, value);
    SignedDecimalReadsBack(value.number.n, I64_MIN, I64_MAX);
    CanonicalIsWritten(text, I64_MIN, I64_MAX);
  }
}
