/** Decimal text of natural numbers, both ways. */
module Decimals {
  import opened Wrappers

  predicate IsDigit(c: char) {
    '0' <= c <= '9'
  }

  predicate AllDigits(text: string) {
    forall i :: 0 <= i < |text| ==> IsDigit(text[i])
  }

  function Digit(d: nat): (c: char)
    requires d < 10
    ensures IsDigit(c) && DigitValue(c) == d
  {
    ('0' as int + d) as char
  }

  function DigitValue(c: char): (d: nat)
    requires IsDigit(c)
    ensures d < 10
  {
    c as int - '0' as int
  }

  /** The shortest spelling. */
  function Decimal(n: nat): string {
    if n < 10 then [Digit(n)] else Decimal(n / 10) + [Digit(n % 10)]
  }

  /** What a run of digits means; leading zeros count for nothing. */
  function Value(text: string): nat
    requires AllDigits(text)
  {
    if text == "" then 0 else 10 * Value(text[..|text| - 1]) + DigitValue(text[|text| - 1])
  }

  lemma {:induction false} DecimalReadsBack(n: nat)
    ensures AllDigits(Decimal(n)) && Decimal(n) != "" && Value(Decimal(n)) == n
    ensures Decimal(n)[0] == '0' <==> n == 0
  {
    if n < 10 {
      assert Decimal(n)[..0] == "";
    } else {
      DecimalReadsBack(n / 10);
      assert Decimal(n)[..|Decimal(n)| - 1] == Decimal(n / 10);
    }
  }

  /** A spelling is the shortest one exactly when it has no leading zero. */
  predicate IsShortest(text: string) {
    text != "" && (text[0] == '0' ==> |text| == 1)
  }

  lemma {:induction false} ShortestIsDecimal(text: string)
    requires AllDigits(text) && text != ""
    ensures Decimal(Value(text)) == text <==> IsShortest(text)
    ensures IsShortest(text) && text != "0" ==> Value(text) > 0
  {
    DecimalReadsBack(Value(text));
    if IsShortest(text) {
      var front := text[..|text| - 1];
      var last := text[|text| - 1];
      assert text == front + [last];
      if front == "" {
        assert Value(text) == DigitValue(last);
        assert [Digit(DigitValue(last))] == [last];
      } else {
        ShortestIsDecimal(front);
        assert IsShortest(front) && front != "0";
        assert Value(text) / 10 == Value(front) && Value(text) % 10 == DigitValue(last);
      }
    }
  }

  lemma DecimalIsInjective(m: nat, n: nat)
    requires Decimal(m) == Decimal(n)
    ensures m == n
  {
    DecimalReadsBack(m);
    DecimalReadsBack(n);
  }

  // ---- with a sign ----

  function SignedDecimal(n: int): string {
    if n < 0 then "-" + Decimal(-n) else Decimal(n)
  }

  /** A signed integer between `low` and `high`: an optional sign of either kind, then at least one digit. */
  function ParseInt(text: string, low: int, high: int): Option<int> {
    if text == "" then None
    else
      var signed := text[0] == '+' || text[0] == '-';
      var digits := if signed then text[1..] else text;
      if digits == "" || !AllDigits(digits) then None
      else
        var n := if text[0] == '-' then -(Value(digits) as int) else Value(digits);
        if low <= n <= high then Some(n) else None
  }

  lemma SignedDecimalReadsBack(n: int, low: int, high: int)
    ensures ParseInt(SignedDecimal(n), low, high) == if low <= n <= high then Some(n) else None
  {
    var text := SignedDecimal(n);
    if n < 0 {
      DecimalReadsBack(-n);
      assert text[0] == '-' && text[1..] == Decimal(-n);
    } else {
      DecimalReadsBack(n);
      assert IsDigit(text[0]);
    }
  }

  /** What is read at all: digits, at least one, after one sign of either kind or none, that mean something in range. */
  lemma IntegersAreSignedDigits(text: string, low: int, high: int)
    ensures ParseInt(text, low, high).Some? <==>
            && |text| > 0 && IsDigit(text[|text| - 1]) && (IsDigit(text[0]) || text[0] == '+' || text[0] == '-')
            && (forall i :: 0 < i < |text| ==> IsDigit(text[i]))
            && (if IsDigit(text[0]) then low <= Value(text) <= high
                else if text[0] == '-' then low <= -(Value(text[1..]) as int) <= high
                else low <= Value(text[1..]) <= high)
  {
    if text != "" {
      var digits := text[1..];
      assert forall i :: 0 < i < |text| ==> text[i] == digits[i - 1];
      assert AllDigits(digits) <==> forall i :: 0 < i < |text| ==> IsDigit(text[i]);
    }
  }

  /** No plus sign, no leading zero, no minus zero. */
  predicate IsCanonical(text: string) {
    if text != "" && text[0] == '-' then AllDigits(text[1..]) && IsShortest(text[1..]) && text[1] != '0'
    else AllDigits(text) && IsShortest(text)
  }

  lemma AfterAMinus(a: string, b: string)
    ensures "-" + a == "-" + b <==> a == b
  {
    assert ("-" + a)[1..] == a && ("-" + b)[1..] == b;
  }

  lemma NegativeIsWritten(digits: string, n: nat)
    requires digits != "" && AllDigits(digits) && n == Value(digits) && n > 0
    ensures "-" + Decimal(n) == "-" + digits <==> IsCanonical("-" + digits)
  {
    AfterAMinus(Decimal(n), digits);
    ShortestIsDecimal(digits);
    assert ("-" + digits)[1..] == digits && ("-" + digits)[1] == digits[0];
  }

  lemma NaturalIsWritten(text: string, n: nat)
    requires text != "" && AllDigits(text) && n == Value(text)
    ensures SignedDecimal(n) == text <==> IsCanonical(text)
  {
    assert IsDigit(text[0]);
    ShortestIsDecimal(text);
  }

  lemma SignedIsRewritten(text: string, n: nat)
    requires |text| > 1 && (text[0] == '+' || text[0] == '-') && AllDigits(text[1..]) && n == Value(text[1..])
    requires text[0] == '-' ==> n == 0
    ensures SignedDecimal(n) != text && !IsCanonical(text)
  {
    DecimalReadsBack(n);
    assert IsDigit(Decimal(n)[0]);
    if text[0] == '-' {
      ShortestIsDecimal(text[1..]);
    }
  }

  /** Of all the spellings of an integer exactly one is the one that is written. */
  lemma CanonicalIsWritten(text: string, low: int, high: int)
    requires ParseInt(text, low, high).Some?
    ensures SignedDecimal(ParseInt(text, low, high).value) == text <==> IsCanonical(text)
  {
    var n := ParseInt(text, low, high).value;
    if n < 0 {
      NegativeIsWritten(text[1..], -n);
      assert text == "-" + text[1..];
    } else if text[0] == '+' || text[0] == '-' {
      SignedIsRewritten(text, n);
    } else {
      NaturalIsWritten(text, n);
    }
  }

  // ---- fixed width ----

  function PowerOfTen(width: nat): (p: nat)
    ensures p > 0
  {
    if width == 0 then 1 else 10 * PowerOfTen(width - 1)
  }

  /** The last `width` digits of `n`, zeros included. */
  function Padded(n: nat, width: nat): (text: string)
    ensures |text| == width && AllDigits(text)
  {
    if width == 0 then "" else Padded(n / 10, width - 1) + [Digit(n % 10)]
  }

  lemma {:induction false} PaddedReadsBack(n: nat, width: nat)
    requires n < PowerOfTen(width)
    ensures Value(Padded(n, width)) == n
  {
    if width > 0 {
      assert n == 10 * (n / 10) + n % 10 && n / 10 < PowerOfTen(width - 1);
      PaddedReadsBack(n / 10, width - 1);
      assert Padded(n, width)[..width - 1] == Padded(n / 10, width - 1);
    }
  }
}
