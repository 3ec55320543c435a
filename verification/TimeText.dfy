/** Reading and writing the text form of an instant. */
module TimeText {
  import opened Wrappers
  import opened Decimals
  import opened Calendar
  import opened CotTimes
  import opened TimeGrammar
  import opened TimeReading

  /** The instant a spelling names, if what was read is one that names any. */
  function Named(read: Option<Spelling>): Option<int>
    requires read.Some? ==> IsWellFormed(read.value)
  {
    if read.Some? && IsInRange(read.value) then Some(InstantOf(read.value)) else None
  }

  /** The zoned reader first, and where it fails the other. */
  function Parse(text: string): Option<int> {
    var trimmed := Trim(text);
    ReadZonedRenders(trimmed);
    ReadLocalRenders(trimmed);
    var zoned := Named(ReadZoned(trimmed));
    if zoned.Some? then zoned else Named(ReadLocal(trimmed))
  }

  // ---- everything that is a spelling is read, and nothing else is ----

  lemma SpellingIsReadOnce(s: Spelling)
    requires IsWellFormed(s)
    ensures IsTight(Render(s))
    ensures
      if s.Zoned? then ReadZoned(Render(s)) == Some(s) && ReadLocal(Render(s)) == None
      else ReadZoned(Render(s)) == None && ReadLocal(Render(s)) == Some(s)
  {
    if s.Zoned? {
      ZonedReadsBack(s);
      ZonedIsNotLocal(s);
      ZonedIsTight(s);
    } else {
      LocalIsNotZoned(s);
      LocalIsTight(s);
      LocalReadsBack(s.date, s.clock, "");
    }
  }

  /** Every spelling of an instant, in white space or not, is read as that instant; one that names none is refused. */
  lemma EverySpellingIsRead(s: Spelling, before: string, after: string)
    requires IsWellFormed(s) && AllSpaces(before) && AllSpaces(after)
    ensures Parse(before + Render(s) + after) == Named(Some(s))
  {
    SpellingIsReadOnce(s);
    TrimDrops(before, Render(s), after);
  }

  /** The fields of a date that a calendar has. */
  predicate IsOnTheCalendar(year: int, month: string, day: string)
    requires AllDigits(month) && AllDigits(day)
  {
    && -262_143 <= year && year <= 262_142 && 1 <= Value(month) && Value(month) <= 12
    && 1 <= Value(day) && Value(day) <= DaysInMonth(year, Value(month))
  }

  /** The fields of a clock, which may show second 60. */
  predicate IsOnTheClock(hour: string, minute: string, second: string)
    requires AllDigits(hour) && AllDigits(minute) && AllDigits(second)
  {
    Value(hour) <= 23 && Value(minute) <= 59 && Value(second) <= 60
  }

  /** No field is off the calendar or the clock, and no offset is a day or more. */
  predicate EveryFieldExists(s: Spelling)
    requires IsWellFormed(s)
  {
    match s
    case Zoned(d, t, zone) =>
      && IsOnTheCalendar(Value(d.year), d.month, d.day) && IsOnTheClock(t.hour, t.minute, t.second)
      && (zone.Shifted? ==> Value(zone.hours) <= 23 && Value(zone.minutes) <= 59)
    case Local(d, t) =>
      var size: int := Value(d.year);
      && IsOnTheCalendar(if d.sign == "-" then -size else size, d.month.digits, d.day.digits)
      && IsOnTheClock(t.hour.digits, t.minute.digits, t.second.digits)
  }

  lemma FieldsInRangeExist(s: Spelling)
    requires IsWellFormed(s)
    ensures IsInRange(s) <==> EveryFieldExists(s)
  {
    FractionMillisIsMillis(if s.Zoned? then s.time.fraction else s.clock.fraction);
  }

  /** What is refused: exactly the spellings with a field that is on no calendar and no clock, or an offset of a day. */
  lemma RefusedOutsideCalendarAndClock(s: Spelling, before: string, after: string)
    requires IsWellFormed(s) && AllSpaces(before) && AllSpaces(after)
    ensures Parse(before + Render(s) + after).Some? <==> EveryFieldExists(s)
  {
    EverySpellingIsRead(s, before, after);
    FieldsInRangeExist(s);
  }

  /** However short or long a fraction is, it names a millisecond of its second. */
  lemma FractionMillisIsMillis(fraction: string)
    requires AllDigits(fraction)
    ensures 0 <= FractionMillis(fraction) < 1000
  {
    PowersOfTen();
    if |fraction| >= 3 {
      ValueIsBelow(fraction[..3]);
    } else {
      ValueIsBelow(fraction);
      assert |fraction| == 0 || |fraction| == 1 || |fraction| == 2;
      assert PowerOfTen(1) == 10 && PowerOfTen(0) == 1;
    }
  }

  lemma {:induction false} ValueIsBelow(digits: string)
    requires AllDigits(digits)
    ensures Value(digits) < PowerOfTen(|digits|)
  {
    if digits != "" {
      ValueIsBelow(digits[..|digits| - 1]);
    }
  }

  /** Zeros at the end of a fraction say nothing: half a second is the same with one digit and with three. */
  lemma ZerosEndAFraction(fraction: string)
    requires AllDigits(fraction)
    ensures AllDigits(fraction + "0") && FractionMillis(fraction + "0") == FractionMillis(fraction)
  {
    var longer := fraction + "0";
    if |fraction| >= 3 {
      assert longer[..3] == fraction[..3];
    } else {
      assert longer[..|fraction|] == fraction;
      assert Value(longer) == 10 * Value(fraction);
      assert PowerOfTen(3 - |fraction|) == 10 * PowerOfTen(2 - |fraction|);
      if |fraction| == 2 {
        assert longer[..3] == longer;
      }
    }
  }

  lemma SpellingIsReadAs(s: Spelling, t: int, before: string, after: string)
    requires IsWellFormed(s) && IsInRange(s) && InstantOf(s) == t && AllSpaces(before) && AllSpaces(after)
    ensures Parse(before + Render(s) + after) == Some(t)
  {
    EverySpellingIsRead(s, before, after);
  }

  lemma Unspaced(text: string)
    ensures "" + text == text && "" + text + "" == text
  {
  }

  lemma SpelledTextIsRead(text: string, s: Spelling)
    requires IsWellFormed(s) && text == Render(s)
    ensures Parse(text) == Named(Some(s))
  {
    EverySpellingIsRead(s, "", "");
    Unspaced(text);
  }

  lemma LettersOfASpelling(s: Spelling)
    requires IsWellFormed(s) && s.Zoned?
    ensures s.day.separator in "Tt "
    ensures match s.zone
            case Zulu(letter) => letter in "Zz"
            case Shifted(sign, _, _) => sign in "+-\U{2212}"
  {
  }

  /** And nothing else is read: a text that is read is a spelling of the instant it is read as, but for white space. */
  lemma OnlySpellingsAreRead(text: string) returns (s: Spelling)
    requires Parse(text).Some?
    ensures IsWellFormed(s) && IsInRange(s) && Trim(text) == Render(s) && Parse(text) == Some(InstantOf(s))
    ensures s.Zoned? ==> s.day.separator in "Tt "
                         && match s.zone
                            case Zulu(letter) => letter in "Zz"
                            case Shifted(sign, _, _) => sign in "+-\U{2212}"
  {
    var trimmed := Trim(text);
    ReadZonedRenders(trimmed);
    ReadLocalRenders(trimmed);
    s := if Named(ReadZoned(trimmed)).Some? then ReadZoned(trimmed).value else ReadLocal(trimmed).value;
    if s.Zoned? {
      LettersOfASpelling(s);
    }
  }

  lemma DigitMeans(text: string)
    requires AllDigits(text) && |text| == 1
    ensures Value(text) == DigitValue(text[0])
  {
    assert text[..0] == "";
  }

  lemma TwoDigitsMean(text: string)
    requires IsPair(text)
    ensures Value(text) == 10 * DigitValue(text[0]) + DigitValue(text[1])
  {
    assert text[..|text| - 1] == text[..1];
    DigitMeans(text[..1]);
  }

  /** A leap second is read, at the end of any minute, as the second after :59. */
  lemma LeapSecondsAreRead(s: Spelling)
    requires IsWellFormed(s) && s.Zoned? && s.time.second == "60"
    requires IsInRange(s.(time := s.time.(second := "59")))
    ensures IsInRange(s) && InstantOf(s) == InstantOf(s.(time := s.time.(second := "59"))) + 1000
  {
    TwoDigitsMean("60");
    TwoDigitsMean("59");
  }

  lemma LettersNameNothing(plain: Spelling, other: Spelling)
    requires IsWellFormed(plain) && IsWellFormed(other) && plain.Zoned? && other.Zoned? && plain.time == other.time
    requires plain.day == other.day.(separator := plain.day.separator) && plain.zone.Zulu? && other.zone.Zulu?
    ensures Named(Some(plain)) == Named(Some(other))
  {
  }

  /** Either letter may be small, and a space may stand for the T. */
  lemma LettersDoNotMatter(day: ZonedDate, time: ZonedClock, separator: char, letter: char)
    requires IsZonedDate(day) && IsZonedClock(time) && separator in "Tt " && letter in "Zz"
    ensures Parse(Render(Zoned(day.(separator := separator), time, Zulu(letter))))
            == Parse(Render(Zoned(day, time, Zulu('Z'))))
  {
    var plain := Zoned(day, time, Zulu('Z'));
    var other := Zoned(day.(separator := separator), time, Zulu(letter));
    LettersNameNothing(plain, other);
    SpelledTextIsRead(Render(plain), plain);
    SpelledTextIsRead(Render(other), other);
  }

  /** How far an offset is from UTC. */
  function Ahead(hours: string, minutes: string): int
    requires AllDigits(hours) && AllDigits(minutes)
  {
    (Value(hours) * 60 + Value(minutes)) * 60_000
  }

  lemma OffsetInstant(day: ZonedDate, time: ZonedClock, sign: char, hours: string, minutes: string)
    requires IsWellFormed(Zoned(day, time, Zulu('Z'))) && IsInRange(Zoned(day, time, Zulu('Z')))
    requires IsPair(hours) && IsPair(minutes) && Value(hours) < 24 && Value(minutes) < 60 && sign in "+-\U{2212}"
    ensures
      var utc := InstantOf(Zoned(day, time, Zulu('Z')));
      var s := Zoned(day, time, Shifted(sign, hours, minutes));
      && IsWellFormed(s) && IsInRange(s)
      && InstantOf(s) == if sign == '+' then utc - Ahead(hours, minutes) else utc + Ahead(hours, minutes)
  {
  }

  /**
   * An offset says how far the clock is ahead of UTC: after a plus the same fields name an instant that much earlier than
   * with a Z, and after a minus of either kind one that much later.
   */
  lemma OffsetsAreAheadOfUtc(day: ZonedDate, time: ZonedClock, sign: char, hours: string, minutes: string)
    requires IsWellFormed(Zoned(day, time, Zulu('Z'))) && IsInRange(Zoned(day, time, Zulu('Z')))
    requires IsPair(hours) && IsPair(minutes) && Value(hours) < 24 && Value(minutes) < 60 && sign in "+-\U{2212}"
    ensures
      var utc := InstantOf(Zoned(day, time, Zulu('Z')));
      Parse(Render(Zoned(day, time, Shifted(sign, hours, minutes))))
      == Some(if sign == '+' then utc - Ahead(hours, minutes) else utc + Ahead(hours, minutes))
  {
    var s := Zoned(day, time, Shifted(sign, hours, minutes));
    OffsetInstant(day, time, sign, hours, minutes);
    SpelledTextIsRead(Render(s), s);
  }

  /** The fields of `2026-09-17T07:00:00`, by what they say. */
  predicate IsSevenInTheMorning(day: ZonedDate, time: ZonedClock)
    requires IsZonedDate(day) && IsZonedClock(time)
  {
    && Value(day.year) == 2026 && Value(day.month) == 9 && Value(day.day) == 17
    && Value(time.hour) == 7 && Value(time.minute) == 0 && Value(time.second) == 0 && time.fraction == ""
  }

  lemma EarlierTheSameDay(date: Date, noon: int)
    requires IsValid(date) && MillisFromCivil(Civil(date, 12, 0, 0, 250)) == noon + 250
    ensures MillisFromCivil(Civil(date, 7, 0, 0, 0)) == noon - 5 * 3_600_000
  {
  }

  lemma SevenInTheMorning(day: ZonedDate, time: ZonedClock)
    requires IsZonedDate(day) && IsZonedClock(time) && IsSevenInTheMorning(day, time)
    ensures
      var s := Zoned(day, time, Zulu('Z'));
      IsInRange(s) && InstantOf(s) == 1_789_646_400_000 - 5 * 3_600_000
  {
    assert FractionMillis("") == 0;
    KnownInstants();
    var date := CivilOf(Zoned(day, time, Zulu('Z'))).date;
    EarlierTheSameDay(date, 1_789_646_400_000);
  }

  /** Seven in the morning five hours behind UTC is noon. */
  lemma NoonInUtc(day: ZonedDate, time: ZonedClock, hours: string, minutes: string)
    requires IsZonedDate(day) && IsZonedClock(time) && IsSevenInTheMorning(day, time)
    requires IsPair(hours) && IsPair(minutes) && Value(hours) == 5 && Value(minutes) == 0
    ensures Parse(Render(Zoned(day, time, Shifted('-', hours, minutes)))) == Some(1_789_646_400_000)
  {
    SevenInTheMorning(day, time);
    OffsetsAreAheadOfUtc(day, time, '-', hours, minutes);
  }

  // ---- writing ----

  function Sign(year: int): string {
    if year < 0 then "-" else if year > 9999 then "+" else ""
  }

  function AtLeastFour(n: nat): string {
    if n <= 9999 then Padded(n, 4) else Decimal(n)
  }

  /** A year as the calendar library writes it: four digits, or a sign and at least four. */
  function YearDigits(year: int): string {
    AtLeastFour(if year < 0 then -year else year)
  }

  /** The spelling of a local time in a zone, with further fractional digits. */
  function ZonedSpelling(c: Civil, zone: Zone, more: string): Spelling
    requires IsClock(c) && 0 <= c.date.year <= 9999
  {
    Zoned(ZonedDate(Padded(c.date.year, 4), Padded(c.date.month, 2), Padded(c.date.day, 2), 'T'),
          ZonedClock(Padded(c.hour, 2), Padded(c.minute, 2), Padded(c.second, 2), Padded(c.milli, 3) + more), zone)
  }

  function DateSpelling(date: Date): LocalDate
    requires IsValid(date)
  {
    LocalDate(Sign(date.year), YearDigits(date.year), Plain(Padded(date.month, 2)), Plain(Padded(date.day, 2)))
  }

  function ClockSpelling(c: Civil, more: string): LocalClock
    requires IsClock(c)
  {
    LocalClock(Plain(Padded(c.hour, 2)), Plain(Padded(c.minute, 2)), Plain(Padded(c.second, 2)),
               Padded(c.milli, 3) + more)
  }

  /** A date and time as the calendar library writes them in UTC, to the millisecond. */
  function Written(c: Civil): string
    requires IsClock(c)
  {
    DateThen(DateSpelling(c.date), ClockThen(ClockSpelling(c, ""), "Z"))
  }

  function Display(t: CotTime): string {
    if MIN_UTC <= t <= MAX_UTC then Written(CivilFromMillis(t)) else SignedDecimal(t)
  }

  lemma PowersOfTen()
    ensures PowerOfTen(2) == 100 && PowerOfTen(3) == 1000 && PowerOfTen(4) == 10_000
  {
    assert PowerOfTen(1) == 10;
  }

  lemma PairMeans(n: nat)
    requires n < 100
    ensures IsPair(Padded(n, 2)) && Value(Padded(n, 2)) == n
  {
    PowersOfTen();
    PaddedReadsBack(n, 2);
  }

  lemma FractionMeans(milli: nat, more: string)
    requires milli < 1000 && AllDigits(more)
    ensures AllDigits(Padded(milli, 3) + more) && FractionMillis(Padded(milli, 3) + more) == milli
  {
    PowersOfTen();
    PaddedReadsBack(milli, 3);
    assert (Padded(milli, 3) + more)[..3] == Padded(milli, 3);
  }

  lemma AtLeastFourMeans(n: nat)
    ensures AllDigits(AtLeastFour(n)) && AtLeastFour(n) != "" && Value(AtLeastFour(n)) == n
    ensures n <= 9999 ==> |AtLeastFour(n)| == 4
  {
    if n <= 9999 {
      PowersOfTen();
      PaddedReadsBack(n, 4);
    } else {
      DecimalReadsBack(n);
    }
  }

  lemma ZonedSpellingMeans(c: Civil, zone: Zone, more: string)
    requires IsClock(c) && 0 <= c.date.year <= 9999 && IsZoneText(zone) && AllDigits(more)
    ensures IsWellFormed(ZonedSpelling(c, zone, more)) && CivilOf(ZonedSpelling(c, zone, more)) == c
  {
    AtLeastFourMeans(c.date.year);
    PairMeans(c.date.month);
    PairMeans(c.date.day);
    PairMeans(c.hour);
    PairMeans(c.minute);
    PairMeans(c.second);
    FractionMeans(c.milli, more);
  }

  lemma SignedYearMeans(year: int)
    ensures
      var digits := YearDigits(year);
      && digits != "" && AllDigits(digits) && (Sign(year) == "" ==> |digits| <= 4)
      && (if Sign(year) == "-" then -(Value(digits) as int) else Value(digits)) == year
  {
    AtLeastFourMeans(if year < 0 then -year else year);
  }

  lemma DateSpellingMeans(date: Date)
    requires IsValid(date)
    ensures
      var d := DateSpelling(date);
      && IsLocalDate(d) && Value(d.month.digits) == date.month && Value(d.day.digits) == date.day
      && (if d.sign == "-" then -(Value(d.year) as int) else Value(d.year)) == date.year
  {
    SignedYearMeans(date.year);
    PairMeans(date.month);
    PairMeans(date.day);
  }

  lemma ClockSpellingMeans(c: Civil, more: string)
    requires IsClock(c) && AllDigits(more)
    ensures
      var clock := ClockSpelling(c, more);
      && IsLocalClock(clock) && FractionMillis(clock.fraction) == c.milli
      && Value(clock.hour.digits) == c.hour && Value(clock.minute.digits) == c.minute
      && Value(clock.second.digits) == c.second
  {
    PairMeans(c.hour);
    PairMeans(c.minute);
    PairMeans(c.second);
    FractionMeans(c.milli, more);
  }

  lemma LocalSpellingMeans(c: Civil, more: string)
    requires IsClock(c) && AllDigits(more)
    ensures IsLocalDate(DateSpelling(c.date)) && IsLocalClock(ClockSpelling(c, more))
    ensures CivilOf(Local(DateSpelling(c.date), ClockSpelling(c, more))) == c
  {
    DateSpellingMeans(c.date);
    ClockSpellingMeans(c, more);
  }

  lemma SpelledIn(local: int, zone: Zone, more: string) returns (s: Spelling)
    requires IsZoneText(zone) && IsZoneInRange(zone) && AllDigits(more)
    requires 0 <= CivilFromMillis(local).date.year <= 9999
    ensures s == ZonedSpelling(CivilFromMillis(local), zone, more)
    ensures IsWellFormed(s) && IsInRange(s)
    ensures InstantOf(s) == local - ZoneMinutes(zone) * 60_000
  {
    var c := CivilFromMillis(local);
    s := ZonedSpelling(c, zone, more);
    ZonedSpellingMeans(c, zone, more);
    MillisReadBack(local);
  }

  /**
   * An instant is read back from its spelling in any zone, with any digits after the milliseconds and in any white space,
   * as long as the year of its local time there has four digits.
   */
  lemma ZonedSpellingsAgree(t: CotTime, local: int, zone: Zone, more: string, before: string, after: string)
    returns (s: Spelling)
    requires IsZoneText(zone) && IsZoneInRange(zone) && AllDigits(more) && AllSpaces(before) && AllSpaces(after)
    requires local == t + ZoneMinutes(zone) * 60_000 && 0 <= CivilFromMillis(local).date.year <= 9999
    ensures s == ZonedSpelling(CivilFromMillis(local), zone, more)
    ensures Parse(before + Render(s) + after) == Some(t)
  {
    s := SpelledIn(local, zone, more);
    SpellingIsReadAs(s, t, before, after);
  }

  lemma SpelledLocally(t: CotTime, more: string) returns (s: Spelling)
    requires AllDigits(more) && MIN_YEAR <= CivilFromMillis(t).date.year <= MAX_YEAR
    ensures IsWellFormed(s) && IsInRange(s) && s.Local? && InstantOf(s) == t
    ensures s.clock.fraction == Padded(CivilFromMillis(t).milli, 3) + more
  {
    var c := CivilFromMillis(t);
    s := Local(DateSpelling(c.date), ClockSpelling(c, more));
    LocalSpellingMeans(c, more);
    MillisReadBack(t);
  }

  /** Without a zone the same fields name the same instant, in every year the calendar library holds. */
  lemma LocalSpellingsAgree(t: CotTime, more: string, before: string, after: string) returns (s: Spelling)
    requires AllDigits(more) && AllSpaces(before) && AllSpaces(after)
    requires MIN_YEAR <= CivilFromMillis(t).date.year <= MAX_YEAR
    ensures IsWellFormed(s) && s.Local?
    ensures s.clock.fraction == Padded(CivilFromMillis(t).milli, 3) + more
    ensures Parse(before + Render(s) + after) == Some(t)
  {
    s := SpelledLocally(t, more);
    SpellingIsReadAs(s, t, before, after);
  }

  /** The signs a year may carry: a plus where none is needed, and one or the other where it is. */
  predicate MaySign(sign: string, year: int) {
    if year < 0 then sign == "-" else sign == "+" || (sign == "" && year <= 9999)
  }

  /** A local time with no leading zeros, every field but the year after the same white space. */
  function ShortSpelling(c: Civil, sign: string, spaces: string, fraction: string): Spelling
    requires IsClock(c)
  {
    Local(LocalDate(sign, Decimal(if c.date.year < 0 then -c.date.year else c.date.year),
                    Field(spaces, Decimal(c.date.month)), Field(spaces, Decimal(c.date.day))),
          LocalClock(Field(spaces, Decimal(c.hour)), Field(spaces, Decimal(c.minute)), Field(spaces, Decimal(c.second)),
                     fraction))
  }

  lemma ShortMeans(n: nat)
    requires n < 100
    ensures AllDigits(Decimal(n)) && 1 <= |Decimal(n)| <= 2 && Value(Decimal(n)) == n
  {
    DecimalReadsBack(n);
    assert n / 10 < 10 && |Decimal(n / 10)| == 1;
  }

  lemma ShortYearMeans(n: nat)
    ensures AllDigits(Decimal(n)) && Decimal(n) != "" && Value(Decimal(n)) == n && (n <= 9999 ==> |Decimal(n)| <= 4)
  {
    DecimalReadsBack(n);
    if n <= 9999 {
      ShortMeans(n / 100);
      assert |Decimal(n / 10)| <= 3;
    }
  }

  lemma ShortDateMeans(date: Date, sign: string, spaces: string)
    requires IsValid(date) && MaySign(sign, date.year) && AllSpaces(spaces)
    ensures
      var d := LocalDate(sign, Decimal(if date.year < 0 then -date.year else date.year),
                         Field(spaces, Decimal(date.month)), Field(spaces, Decimal(date.day)));
      && IsLocalDate(d) && Value(d.month.digits) == date.month && Value(d.day.digits) == date.day
      && (if d.sign == "-" then -(Value(d.year) as int) else Value(d.year)) == date.year
  {
    ShortYearMeans(if date.year < 0 then -date.year else date.year);
    ShortMeans(date.month);
    ShortMeans(date.day);
  }

  lemma ShortClockMeans(c: Civil, sign: string, spaces: string, fraction: string)
    requires IsClock(c) && AllSpaces(spaces) && AllDigits(fraction)
    ensures
      var clock := ShortSpelling(c, sign, spaces, fraction).clock;
      && IsLocalClock(clock) && clock.fraction == fraction
      && Value(clock.hour.digits) == c.hour && Value(clock.minute.digits) == c.minute
      && Value(clock.second.digits) == c.second
  {
    ShortMeans(c.hour);
    ShortMeans(c.minute);
    ShortMeans(c.second);
  }

  lemma ShortSpellingMeans(c: Civil, sign: string, spaces: string, fraction: string)
    requires IsClock(c) && MaySign(sign, c.date.year) && AllSpaces(spaces)
    requires AllDigits(fraction) && FractionMillis(fraction) == c.milli
    ensures IsWellFormed(ShortSpelling(c, sign, spaces, fraction)) && CivilOf(ShortSpelling(c, sign, spaces, fraction)) == c
  {
    ShortDateMeans(c.date, sign, spaces);
    ShortClockMeans(c, sign, spaces, fraction);
  }

  lemma SpelledShort(t: CotTime, sign: string, spaces: string, fraction: string) returns (s: Spelling)
    requires AllDigits(fraction) && FractionMillis(fraction) == CivilFromMillis(t).milli
    requires AllSpaces(spaces) && MIN_YEAR <= CivilFromMillis(t).date.year <= MAX_YEAR
    requires MaySign(sign, CivilFromMillis(t).date.year)
    ensures s == ShortSpelling(CivilFromMillis(t), sign, spaces, fraction)
    ensures IsWellFormed(s) && IsInRange(s) && InstantOf(s) == t
  {
    var c := CivilFromMillis(t);
    s := ShortSpelling(c, sign, spaces, fraction);
    ShortSpellingMeans(c, sign, spaces, fraction);
    MillisReadBack(t);
  }

  /** And without leading zeros, with white space before the fields, a plus before the year, any fraction. */
  lemma ShortSpellingsAgree(
    t: CotTime, sign: string, spaces: string, fraction: string, before: string, after: string) returns (s: Spelling)
    requires AllDigits(fraction) && FractionMillis(fraction) == CivilFromMillis(t).milli
    requires AllSpaces(spaces) && AllSpaces(before) && AllSpaces(after)
    requires MIN_YEAR <= CivilFromMillis(t).date.year <= MAX_YEAR && MaySign(sign, CivilFromMillis(t).date.year)
    ensures s == ShortSpelling(CivilFromMillis(t), sign, spaces, fraction)
    ensures Parse(before + Render(s) + after) == Some(t)
  {
    s := SpelledShort(t, sign, spaces, fraction);
    SpellingIsReadAs(s, t, before, after);
  }

  /** The calendar range is whole years, and the calendar agrees with an instant the original names. */
  lemma KnownInstants()
    ensures MIN_UTC == MillisFromCivil(Civil(Date(MIN_YEAR, 1, 1), 0, 0, 0, 0))
    ensures MAX_UTC == MillisFromCivil(Civil(Date(MAX_YEAR, 12, 31), 23, 59, 59, 999))
    ensures MillisFromCivil(Civil(Date(2026, 9, 17), 12, 0, 0, 250)) == 1_789_646_400_250
  {
    MonthsFillTheYear(MAX_YEAR);
    assert MonthStart(2026, 3) == 59;
    assert MonthStart(2026, 6) == MonthStart(2026, 3) + 92;
    assert MonthStart(2026, 9) == MonthStart(2026, 6) + 92;
  }

  lemma FourDigitYearsAreInRange(t: CotTime)
    requires 0 <= CivilFromMillis(t).date.year <= 9999
    ensures MIN_UTC <= t <= MAX_UTC
  {
    var days := t / DAY_MS;
    DateIsInItsYear(CivilFromMillis(t).date, days + EPOCH_OFFSET);
    YearsAreInOrder(0, CivilFromMillis(t).date.year);
    YearsAreInOrder(CivilFromMillis(t).date.year + 1, 10_000);
    assert YearStart(0) == 0 && YearStart(10_000) == 3_652_425;
    assert days * DAY_MS <= t < days * DAY_MS + DAY_MS;
  }

  lemma WrittenIsZoned(c: Civil)
    requires IsClock(c) && 0 <= c.date.year <= 9999
    ensures Written(c) == Render(ZonedSpelling(c, Zulu('Z'), ""))
  {
    PlainText(Padded(c.date.month, 2));
    PlainText(Padded(c.date.day, 2));
    PlainText(Padded(c.hour, 2));
    PlainText(Padded(c.minute, 2));
    PlainText(Padded(c.second, 2));
    assert "" + Padded(c.date.year, 4) == Padded(c.date.year, 4);
  }

  lemma WrittenReadsBack(c: Civil)
    requires IsClock(c) && 0 <= c.date.year <= 9999
    ensures Parse(Written(c)) == Some(MillisFromCivil(c))
  {
    var s := ZonedSpelling(c, Zulu('Z'), "");
    ZonedSpellingMeans(c, Zulu('Z'), "");
    assert IsInRange(s) && InstantOf(s) == MillisFromCivil(c);
    WrittenIsZoned(c);
    SpelledTextIsRead(Written(c), s);
  }

  lemma FourDigitYearsReadBack(t: CotTime)
    requires 0 <= CivilFromMillis(t).date.year <= 9999
    ensures Parse(Display(t)) == Some(t)
  {
    FourDigitYearsAreInRange(t);
    WrittenReadsBack(CivilFromMillis(t));
    MillisReadBack(t);
  }

  /** A text neither reader takes. */
  lemma Unreadable(text: string)
    requires IsTight(text) && ReadZoned(text).None? && ReadLocal(text).None?
    ensures Parse(text).None?
  {
    TrimDrops("", text, "");
    Unspaced(text);
  }

  lemma ZonedStartsWithFourDigits(text: string)
    requires text == "" || !IsDigit(text[0]) || (|text| > 4 && text[4] != '-')
    ensures ReadZoned(text).None?
  {
    if |text| > 4 && AllDigits(text[..4]) {
      assert text[..4][0] == text[0];
    }
  }

  lemma OtherYearsAreUnreadable(c: Civil)
    requires IsClock(c) && !(0 <= c.date.year <= 9999)
    ensures Parse(Written(c)).None?
  {
    LocalSpellingMeans(c, "");
    LocalReadsBack(DateSpelling(c.date), ClockSpelling(c, ""), "Z");
    ClockEndsTight(ClockSpelling(c, ""), "Z");
    DateEndsTight(DateSpelling(c.date), ClockThen(ClockSpelling(c, ""), "Z"));
    assert Written(c)[0] == Sign(c.date.year)[0];
    ZonedStartsWithFourDigits(Written(c));
    Unreadable(Written(c));
  }

  lemma DecimalIsLong(n: nat)
    requires n >= 10_000
    ensures |Decimal(n)| >= 5
  {
    assert |Decimal(n / 10)| >= 4 by {
      assert |Decimal(n / 100)| >= 3 by {
        assert |Decimal(n / 1000)| >= 2;
      }
    }
  }

  lemma DigitsAreNotDates(digits: string)
    requires AllDigits(digits) && |digits| > 4
    ensures ReadYear(digits).None?
  {
    assert IsDigit(digits[0]) && digits[4..][0] == digits[4];
    DigitRunStops(digits, "");
    assert digits + "" == digits;
  }

  /** A year must be followed by a hyphen, which a bare number has none of. */
  lemma NumbersAreNotDates(sign: string, digits: string)
    requires sign == "" || sign == "-"
    requires AllDigits(digits) && |digits| > 4
    ensures ReadYear(sign + digits).None?
  {
    if sign == "" {
      DigitsAreNotDates(digits);
      assert sign + digits == digits;
    } else {
      assert (sign + digits)[1..] == digits;
      DigitRunStops(digits, "");
      assert digits + "" == digits;
    }
  }

  lemma NumbersAreTight(sign: string, digits: string)
    requires sign == "" || sign == "-"
    requires AllDigits(digits) && |digits| > 4
    ensures
      var text := sign + digits;
      IsTight(text) && (!IsDigit(text[0]) || (|text| > 4 && text[4] != '-'))
  {
    var text := sign + digits;
    assert IsDigit(digits[0]) && IsDigit(digits[4]) && IsDigit(digits[|digits| - 1]);
    assert text[0] == (if sign == "" then digits[0] else '-') && text[|text| - 1] == digits[|digits| - 1];
    assert sign == "" ==> text[4] == digits[4];
  }

  lemma LongDigitsAreUnreadable(sign: string, digits: string)
    requires sign == "" || sign == "-"
    requires AllDigits(digits) && |digits| > 4
    ensures Parse(sign + digits).None?
  {
    NumbersAreNotDates(sign, digits);
    NumbersAreTight(sign, digits);
    ZonedStartsWithFourDigits(sign + digits);
    Unreadable(sign + digits);
  }

  lemma LongIntegersAreUnreadable(n: int)
    requires n <= -10_000 || n >= 10_000
    ensures Parse(SignedDecimal(n)).None?
  {
    var size := if n < 0 then -n else n;
    DecimalReadsBack(size);
    DecimalIsLong(size);
    LongDigitsAreUnreadable(if n < 0 then "-" else "", Decimal(size));
    Unspaced(Decimal(size));
  }

  /** What is written is read back exactly when the year has four digits; any other instant is written unreadably. */
  lemma DisplayReadsBack(t: CotTime)
    ensures Parse(Display(t)) == (if 0 <= CivilFromMillis(t).date.year <= 9999 then Some(t) else None)
  {
    if 0 <= CivilFromMillis(t).date.year <= 9999 {
      FourDigitYearsReadBack(t);
    } else if MIN_UTC <= t <= MAX_UTC {
      OtherYearsAreUnreadable(CivilFromMillis(t));
    } else {
      LongIntegersAreUnreadable(t);
    }
  }
}
