/** What the two readers take is exactly what is spelled, piece by piece and as a whole. */
module TimeReading {
  import opened Wrappers
  import opened Decimals
  import opened TimeGrammar

  // ---- the pieces read back ----

  lemma {:induction false} DigitRunStops(digits: string, rest: string)
    requires AllDigits(digits) && (rest != "" ==> !IsDigit(rest[0]))
    ensures DigitRun(digits + rest) == |digits|
  {
    if digits == "" {
      assert digits + rest == rest;
    } else {
      DigitRunStops(digits[1..], rest);
      assert (digits + rest)[1..] == digits[1..] + rest;
    }
  }

  lemma {:induction false} SpaceRunStops(spaces: string, rest: string)
    requires AllSpaces(spaces) && (rest != "" ==> !IsSpace(rest[0]))
    ensures SpaceRun(spaces + rest) == |spaces|
  {
    if spaces == "" {
      assert spaces + rest == rest;
    } else {
      SpaceRunStops(spaces[1..], rest);
      assert (spaces + rest)[1..] == spaces[1..] + rest;
    }
  }

  lemma FractionReadsBack(fraction: string, rest: string)
    requires AllDigits(fraction) && (rest != "" ==> !IsDigit(rest[0]) && rest[0] != '.')
    ensures ReadFraction(FractionText(fraction) + rest) == Some((fraction, rest))
  {
    var text := FractionText(fraction) + rest;
    if fraction == "" {
      assert text == rest;
    } else {
      assert text[1..] == fraction + rest;
      DigitRunStops(fraction, rest);
      assert text[1..|fraction| + 1] == fraction && text[|fraction| + 1..] == rest;
    }
  }

  lemma ReadFractionRenders(text: string)
    requires ReadFraction(text).Some?
    ensures AllDigits(ReadFraction(text).value.0)
    ensures FractionText(ReadFraction(text).value.0) + ReadFraction(text).value.1 == text
  {
    if text != "" && text[0] == '.' {
      var run := DigitRun(text[1..]);
      assert text[1..run + 1] == text[1..][..run];
      assert text == "." + text[1..run + 1] + text[run + 1..];
    }
  }

  lemma NumberReadsBack(digits: string, rest: string, width: nat)
    requires AllDigits(digits) && 1 <= |digits| <= width && (rest != "" ==> !IsDigit(rest[0]))
    ensures ReadNumber(digits + rest, width) == Some((digits, rest))
  {
    DigitRunStops(digits, rest);
    assert (digits + rest)[..|digits|] == digits && (digits + rest)[|digits|..] == rest;
  }

  lemma ReadNumberRenders(text: string, width: nat)
    requires ReadNumber(text, width).Some?
    ensures
      var (digits, rest) := ReadNumber(text, width).value;
      AllDigits(digits) && 1 <= |digits| <= width && digits + rest == text
  {
    var run := DigitRun(text);
    var taken := if run < width then run else width;
    assert text[..taken] == text[..run][..taken];
    assert text == text[..taken] + text[taken..];
  }

  lemma Associate(a: string, b: string, c: string)
    ensures a + b + c == a + (b + c)
  {
  }

  lemma FieldReadsBack(f: Field, rest: string)
    requires IsField(f) && (rest != "" ==> !IsDigit(rest[0]))
    ensures ReadField(FieldText(f) + rest) == Some((f, rest))
  {
    var text := FieldText(f) + rest;
    assert text == f.spaces + (f.digits + rest);
    assert IsDigit(f.digits[0]) && !IsSpace(f.digits[0]);
    SpaceRunStops(f.spaces, f.digits + rest);
    assert text[..|f.spaces|] == f.spaces && text[|f.spaces|..] == f.digits + rest;
    NumberReadsBack(f.digits, rest, 2);
  }

  lemma ReadFieldRenders(text: string)
    requires ReadField(text).Some?
    ensures
      var (f, rest) := ReadField(text).value;
      IsField(f) && FieldText(f) + rest == text
  {
    var spaces := text[..SpaceRun(text)];
    var number := text[SpaceRun(text)..];
    ReadNumberRenders(number, 2);
    var (digits, rest) := ReadNumber(number, 2).value;
    assert text == spaces + number;
    Associate(spaces, digits, rest);
  }

  /** A field is read up to the mark that follows it, and no further; before any other mark it is not read. */
  lemma FieldBeforeReadsBack(f: Field, follows: char, rest: string, mark: char)
    requires IsField(f) && !IsDigit(follows)
    ensures ReadFieldBefore(FieldText(f) + ([follows] + rest), mark) == if follows == mark then Some((f, rest)) else None
  {
    FieldReadsBack(f, [follows] + rest);
    assert ([follows] + rest)[1..] == rest;
  }

  lemma ReadFieldBeforeRenders(text: string, mark: char)
    requires ReadFieldBefore(text, mark).Some?
    ensures
      var (f, rest) := ReadFieldBefore(text, mark).value;
      IsField(f) && FieldText(f) + ([mark] + rest) == text
  {
    ReadFieldRenders(text);
    var (f, after) := ReadField(text).value;
    HeadAndTail(after);
  }

  lemma YearReadsBack(sign: string, year: string, rest: string)
    requires sign == "" || sign == "+" || sign == "-"
    requires year != "" && AllDigits(year) && (sign == "" ==> |year| <= 4)
    ensures ReadYear(sign + year + ("-" + rest)) == Some((sign, year, rest))
  {
    var text := sign + year + ("-" + rest);
    Associate(sign, year, "-" + rest);
    assert text[..|sign|] == sign && text[|sign|..] == year + ("-" + rest);
    assert IsDigit(year[0]);
    assert sign == "" ==> text[0] == year[0];
    assert SignOf(text) == sign;
    NumberReadsBack(year, "-" + rest, if sign == "" then 4 else |text|);
    assert ("-" + rest)[1..] == rest;
  }

  lemma ReadYearRenders(text: string)
    requires ReadYear(text).Some?
    ensures
      var (sign, year, rest) := ReadYear(text).value;
      && (sign == "" || sign == "+" || sign == "-") && year != "" && AllDigits(year) && (sign == "" ==> |year| <= 4)
      && sign + year + ("-" + rest) == text
  {
    var sign := SignOf(text);
    var number := text[|sign|..];
    var width := if sign == "" then 4 else |text|;
    ReadNumberRenders(number, width);
    var (year, after) := ReadNumber(number, width).value;
    HeadAndTail(after);
    Associate(sign, year, after);
  }

  lemma HeadAndTail(text: string)
    requires text != ""
    ensures text == [text[0]] + text[1..]
  {
  }

  // ---- dates and clocks read back ----

  lemma DateReadsBack(d: LocalDate, rest: string)
    requires IsLocalDate(d)
    ensures ReadDate(DateThen(d, rest)) == Some((d, rest))
  {
    var fromDay := FieldText(d.day) + (['T'] + rest);
    var fromMonth := FieldText(d.month) + (['-'] + fromDay);
    YearReadsBack(d.sign, d.year, fromMonth);
    FieldBeforeReadsBack(d.month, '-', fromDay, '-');
    FieldBeforeReadsBack(d.day, 'T', rest, 'T');
  }

  lemma ReadDateRenders(text: string)
    requires ReadDate(text).Some?
    ensures IsLocalDate(ReadDate(text).value.0) && DateThen(ReadDate(text).value.0, ReadDate(text).value.1) == text
  {
    ReadYearRenders(text);
    var afterYear := ReadYear(text).value.2;
    ReadFieldBeforeRenders(afterYear, '-');
    ReadFieldBeforeRenders(ReadFieldBefore(afterYear, '-').value.1, 'T');
  }

  lemma FractionStartsWithoutADigit(fraction: string, rest: string)
    requires rest != "" ==> !IsDigit(rest[0])
    ensures
      var text := FractionText(fraction) + rest;
      text != "" ==> !IsDigit(text[0])
  {
  }

  lemma SecondReadsBack(second: Field, fraction: string, rest: string)
    requires IsField(second) && AllDigits(fraction) && (rest != "" ==> !IsDigit(rest[0]) && rest[0] != '.')
    ensures
      ReadField(FieldText(second) + (FractionText(fraction) + rest)) == Some((second, FractionText(fraction) + rest))
    ensures ReadFraction(FractionText(fraction) + rest) == Some((fraction, rest))
  {
    FractionStartsWithoutADigit(fraction, rest);
    FieldReadsBack(second, FractionText(fraction) + rest);
    FractionReadsBack(fraction, rest);
  }

  lemma ClockReadsBack(c: LocalClock, rest: string)
    requires IsLocalClock(c) && (rest != "" ==> !IsDigit(rest[0]) && rest[0] != '.')
    ensures ReadClock(ClockThen(c, rest)) == Some((c, rest))
  {
    var fromFraction := FractionText(c.fraction) + rest;
    var fromSecond := FieldText(c.second) + fromFraction;
    var fromMinute := FieldText(c.minute) + ([':'] + fromSecond);
    FieldBeforeReadsBack(c.hour, ':', fromMinute, ':');
    FieldBeforeReadsBack(c.minute, ':', fromSecond, ':');
    SecondReadsBack(c.second, c.fraction, rest);
  }

  lemma ReadClockRenders(text: string)
    requires ReadClock(text).Some?
    ensures IsLocalClock(ReadClock(text).value.0) && ClockThen(ReadClock(text).value.0, ReadClock(text).value.1) == text
  {
    ReadFieldBeforeRenders(text, ':');
    var afterHour := ReadFieldBefore(text, ':').value.1;
    ReadFieldBeforeRenders(afterHour, ':');
    var afterMinute := ReadFieldBefore(afterHour, ':').value.1;
    ReadFieldRenders(afterMinute);
    ReadFractionRenders(ReadField(afterMinute).value.1);
  }

  lemma ReadLocalRenders(text: string)
    ensures ReadLocal(text).Some? ==> IsWellFormed(ReadLocal(text).value) && Render(ReadLocal(text).value) == text
  {
    if ReadLocal(text).Some? {
      ReadDateRenders(text);
      ReadClockRenders(ReadDate(text).value.1);
    }
  }

  /** A date and clock are read as themselves when nothing follows them, and not at all when anything else does. */
  lemma LocalReadsBack(d: LocalDate, c: LocalClock, rest: string)
    requires IsLocalDate(d) && IsLocalClock(c) && (rest != "" ==> !IsDigit(rest[0]) && rest[0] != '.')
    ensures ReadLocal(DateThen(d, ClockThen(c, rest))) == if rest == "" then Some(Local(d, c)) else None
  {
    DateReadsBack(d, ClockThen(c, rest));
    ClockReadsBack(c, rest);
  }

  // ---- RFC 3339 texts read back ----

  lemma ZoneReadsBack(zone: Zone)
    requires IsZoneText(zone)
    ensures ReadZone(ZoneText(zone)) == Some(zone)
    ensures ZoneText(zone) != "" && !IsDigit(ZoneText(zone)[0]) && ZoneText(zone)[0] != '.'
    ensures EndsTight(ZoneText(zone))
  {
    var text := ZoneText(zone);
    if zone.Shifted? {
      assert text[1..3] == zone.hours && text[4..6] == zone.minutes;
      assert IsDigit(zone.minutes[1]) && text[5] == zone.minutes[1];
    }
  }

  lemma ReadZoneRenders(text: string)
    requires ReadZone(text).Some?
    ensures IsZoneText(ReadZone(text).value) && ZoneText(ReadZone(text).value) == text
  {
    if text != "Z" && text != "z" {
      assert text == [text[0]] + text[1..3] + ":" + text[4..6];
    }
  }

  lemma FixedBeforeReadsBack(digits: string, mark: char, rest: string)
    requires AllDigits(digits)
    ensures ReadFixedBefore(digits + ([mark] + rest), |digits|, mark) == Some((digits, rest))
  {
    var text := digits + ([mark] + rest);
    assert text[..|digits|] == digits && text[|digits|] == mark && text[|digits| + 1..] == rest;
  }

  lemma ReadFixedBeforeRenders(text: string, width: nat, mark: char)
    requires ReadFixedBefore(text, width, mark).Some?
    ensures
      var (digits, rest) := ReadFixedBefore(text, width, mark).value;
      |digits| == width && AllDigits(digits) && digits + ([mark] + rest) == text
  {
    assert text[width..] == [mark] + text[width + 1..];
    assert text == text[..width] + text[width..];
  }

  lemma ZonedDateReadsBack(d: ZonedDate, rest: string)
    requires IsZonedDate(d)
    ensures ReadZonedDate(ZonedDateThen(d, rest)) == Some((d, rest))
  {
    var fromDay := d.day + ([d.separator] + rest);
    FixedBeforeReadsBack(d.year, '-', d.month + (['-'] + fromDay));
    FixedBeforeReadsBack(d.month, '-', fromDay);
    FixedBeforeReadsBack(d.day, d.separator, rest);
  }

  lemma ReadZonedDateRenders(text: string)
    requires ReadZonedDate(text).Some?
    ensures IsZonedDate(ReadZonedDate(text).value.0)
    ensures ZonedDateThen(ReadZonedDate(text).value.0, ReadZonedDate(text).value.1) == text
  {
    ReadFixedBeforeRenders(text, 4, '-');
    var afterYear := ReadFixedBefore(text, 4, '-').value.1;
    ReadFixedBeforeRenders(afterYear, 2, '-');
    var afterMonth := ReadFixedBefore(afterYear, 2, '-').value.1;
    ReadFixedBeforeRenders(afterMonth, 2, afterMonth[2]);
  }

  lemma ZonedClockReadsBack(c: ZonedClock, rest: string)
    requires IsZonedClock(c) && (rest != "" ==> !IsDigit(rest[0]) && rest[0] != '.')
    ensures ReadZonedClock(ZonedClockThen(c, rest)) == Some((c, rest))
  {
    var fromFraction := FractionText(c.fraction) + rest;
    var fromSecond := c.second + fromFraction;
    FixedBeforeReadsBack(c.hour, ':', c.minute + ([':'] + fromSecond));
    FixedBeforeReadsBack(c.minute, ':', fromSecond);
    assert fromSecond[..2] == c.second && fromSecond[2..] == fromFraction;
    FractionReadsBack(c.fraction, rest);
  }

  lemma ReadZonedClockRenders(text: string)
    requires ReadZonedClock(text).Some?
    ensures IsZonedClock(ReadZonedClock(text).value.0)
    ensures ZonedClockThen(ReadZonedClock(text).value.0, ReadZonedClock(text).value.1) == text
  {
    ReadFixedBeforeRenders(text, 2, ':');
    var (hour, afterHour) := ReadFixedBefore(text, 2, ':').value;
    ReadFixedBeforeRenders(afterHour, 2, ':');
    var (minute, afterMinute) := ReadFixedBefore(afterHour, 2, ':').value;
    var second, afterSecond := afterMinute[..2], afterMinute[2..];
    ReadFractionRenders(afterSecond);
    SplitAt(afterMinute, 2);
    var (fraction, rest) := ReadFraction(afterSecond).value;
    assert ReadZonedClock(text).value == (ZonedClock(hour, minute, second, fraction), rest);
  }

  lemma SplitAt(text: string, n: nat)
    requires n <= |text|
    ensures text[..n] + text[n..] == text
  {
  }

  lemma ZonedReadsBack(s: Spelling)
    requires IsWellFormed(s) && s.Zoned?
    ensures ReadZoned(Render(s)) == Some(s)
  {
    ZoneReadsBack(s.zone);
    ZonedDateReadsBack(s.day, ZonedClockThen(s.time, ZoneText(s.zone)));
    ZonedClockReadsBack(s.time, ZoneText(s.zone));
  }

  lemma ReadZonedRenders(text: string)
    ensures ReadZoned(text).Some? ==>
              && ReadZoned(text).value.Zoned? && IsWellFormed(ReadZoned(text).value)
              && Render(ReadZoned(text).value) == text
  {
    if ReadZoned(text).Some? {
      ReadZonedDateRenders(text);
      var afterDay := ReadZonedDate(text).value.1;
      ReadZonedClockRenders(afterDay);
      ReadZoneRenders(ReadZonedClock(afterDay).value.1);
    }
  }

  // ---- no text is both ----

  function Plain(digits: string): Field { Field("", digits) }

  lemma PlainText(digits: string)
    ensures FieldText(Plain(digits)) == digits
  {
  }

  /** The zone-less reader takes an RFC 3339 date only with a capital `T` after it. */
  lemma ZonedDateReads(d: ZonedDate, rest: string)
    requires IsZonedDate(d)
    ensures
      ReadDate(ZonedDateThen(d, rest))
      == if d.separator == 'T' then Some((LocalDate("", d.year, Plain(d.month), Plain(d.day)), rest)) else None
  {
    PlainText(d.month);
    PlainText(d.day);
    assert "" + d.year == d.year;
    var fromDay := d.day + ([d.separator] + rest);
    var fromMonth := d.month + (['-'] + fromDay);
    YearReadsBack("", d.year, fromMonth);
    FieldBeforeReadsBack(Plain(d.month), '-', fromDay, '-');
    FieldBeforeReadsBack(Plain(d.day), d.separator, rest, 'T');
  }

  /** The zone-less reader takes an RFC 3339 clock field by field. */
  lemma ZonedClockReads(c: ZonedClock, rest: string)
    requires IsZonedClock(c) && (rest != "" ==> !IsDigit(rest[0]) && rest[0] != '.')
    ensures
      ReadClock(ZonedClockThen(c, rest))
      == Some((LocalClock(Plain(c.hour), Plain(c.minute), Plain(c.second), c.fraction), rest))
  {
    PlainText(c.hour);
    PlainText(c.minute);
    PlainText(c.second);
    ClockReadsBack(LocalClock(Plain(c.hour), Plain(c.minute), Plain(c.second), c.fraction), rest);
  }

  lemma ZonedIsNotLocal(s: Spelling)
    requires IsWellFormed(s) && s.Zoned?
    ensures ReadLocal(Render(s)) == None
  {
    ZoneReadsBack(s.zone);
    ZonedDateReads(s.day, ZonedClockThen(s.time, ZoneText(s.zone)));
    ZonedClockReads(s.time, ZoneText(s.zone));
  }

  lemma LocalIsNotZoned(s: Spelling)
    requires IsWellFormed(s) && s.Local?
    ensures ReadZoned(Render(s)) == None
  {
    LocalReadsBack(s.date, s.clock, "");
    ReadZonedRenders(Render(s));
    if ReadZoned(Render(s)).Some? {
      ZonedIsNotLocal(ReadZoned(Render(s)).value);
    }
  }

  // ---- white space around a text ----

  lemma {:induction false} TrimEndDrops(text: string, spaces: string)
    requires AllSpaces(spaces) && (text != "" ==> !IsSpace(text[|text| - 1]))
    ensures TrimEnd(text + spaces) == text
  {
    if spaces == "" {
      assert text + spaces == text;
    } else {
      var front := spaces[..|spaces| - 1];
      TrimEndDrops(text, front);
      assert (text + spaces)[..|text + spaces| - 1] == text + front;
    }
  }

  lemma {:induction false} TrimStartDrops(spaces: string, text: string)
    requires AllSpaces(spaces) && text != "" && !IsSpace(text[0])
    ensures TrimStart(spaces + text) == text
  {
    if spaces == "" {
      assert spaces + text == text;
    } else {
      TrimStartDrops(spaces[1..], text);
      assert (spaces + text)[1..] == spaces[1..] + text;
    }
  }

  /** A text that neither starts nor ends with white space. */
  predicate IsTight(text: string) {
    text != "" && !IsSpace(text[0]) && !IsSpace(text[|text| - 1])
  }

  lemma TrimDrops(before: string, text: string, after: string)
    requires AllSpaces(before) && AllSpaces(after) && IsTight(text)
    ensures Trim(before + text + after) == text
  {
    assert before + text + after == before + (text + after);
    TrimStartDrops(before, text + after);
    TrimEndDrops(text, after);
  }

  predicate EndsTight(text: string) {
    text != "" && !IsSpace(text[|text| - 1])
  }

  lemma ConcatEndsTight(a: string, b: string)
    requires EndsTight(b)
    ensures EndsTight(a + b)
  {
  }

  lemma DigitsEndTight(a: string, digits: string)
    requires digits != "" && AllDigits(digits)
    ensures EndsTight(a + digits)
  {
    assert IsDigit(digits[|digits| - 1]);
    ConcatEndsTight(a, digits);
  }

  /** A clock ends tight when what follows it does, or nothing follows. */
  lemma ClockEndsTight(c: LocalClock, rest: string)
    requires IsLocalClock(c) && (rest == "" || EndsTight(rest))
    ensures EndsTight(ClockThen(c, rest))
  {
    var tail := FractionText(c.fraction) + rest;
    var fromSecond := FieldText(c.second) + tail;
    if rest != "" {
      ConcatEndsTight(FractionText(c.fraction), rest);
      ConcatEndsTight(FieldText(c.second), tail);
    } else if c.fraction != "" {
      assert tail == "." + c.fraction;
      DigitsEndTight(".", c.fraction);
      ConcatEndsTight(FieldText(c.second), tail);
    } else {
      assert fromSecond == c.second.spaces + c.second.digits;
      DigitsEndTight(c.second.spaces, c.second.digits);
    }
    var fromMinute := FieldText(c.minute) + (":" + fromSecond);
    ConcatEndsTight(":", fromSecond);
    ConcatEndsTight(FieldText(c.minute), ":" + fromSecond);
    ConcatEndsTight(":", fromMinute);
    ConcatEndsTight(FieldText(c.hour), ":" + fromMinute);
  }

  lemma DateEndsTight(d: LocalDate, rest: string)
    requires EndsTight(rest)
    ensures EndsTight(DateThen(d, rest))
  {
    var fromDay := FieldText(d.day) + ("T" + rest);
    var fromMonth := FieldText(d.month) + ("-" + fromDay);
    ConcatEndsTight("T", rest);
    ConcatEndsTight(FieldText(d.day), "T" + rest);
    ConcatEndsTight("-", fromDay);
    ConcatEndsTight(FieldText(d.month), "-" + fromDay);
    ConcatEndsTight("-", fromMonth);
    ConcatEndsTight(d.sign + d.year, "-" + fromMonth);
  }

  lemma ZonedEndsTight(d: ZonedDate, c: ZonedClock, rest: string)
    requires EndsTight(rest)
    ensures EndsTight(ZonedDateThen(d, ZonedClockThen(c, rest)))
  {
    var tail := FractionText(c.fraction) + rest;
    var fromMinute := c.minute + (":" + (c.second + tail));
    ConcatEndsTight(FractionText(c.fraction), rest);
    ConcatEndsTight(c.second, tail);
    ConcatEndsTight(":", c.second + tail);
    ConcatEndsTight(c.minute, ":" + (c.second + tail));
    ConcatEndsTight(":", fromMinute);
    ConcatEndsTight(c.hour, ":" + fromMinute);
    var clock := ZonedClockThen(c, rest);
    var fromDay := d.day + ([d.separator] + clock);
    var fromMonth := d.month + ("-" + fromDay);
    ConcatEndsTight([d.separator], clock);
    ConcatEndsTight(d.day, [d.separator] + clock);
    ConcatEndsTight("-", fromDay);
    ConcatEndsTight(d.month, "-" + fromDay);
    ConcatEndsTight("-", fromMonth);
    ConcatEndsTight(d.year, "-" + fromMonth);
  }

  lemma LocalIsTight(s: Spelling)
    requires IsWellFormed(s) && s.Local?
    ensures IsTight(Render(s))
  {
    ClockEndsTight(s.clock, "");
    DateEndsTight(s.date, ClockThen(s.clock, ""));
    assert Render(s)[0] == (s.date.sign + s.date.year)[0];
  }

  lemma ZonedIsTight(s: Spelling)
    requires IsWellFormed(s) && s.Zoned?
    ensures IsTight(Render(s))
  {
    ZoneReadsBack(s.zone);
    ZonedEndsTight(s.day, s.time, ZoneText(s.zone));
    assert Render(s)[0] == s.day.year[0] && IsDigit(s.day.year[0]);
  }
}
