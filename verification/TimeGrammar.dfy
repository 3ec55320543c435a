/**
 * The text form of an instant, as the two readers of the calendar library take it: RFC 3339, section 5.6, and for a text
 * without a zone the pattern `%Y-%m-%dT%H:%M:%S%.f`, whose fields may be short, padded or signed.
 */
module TimeGrammar {
  import opened Wrappers
  import opened Decimals
  import opened Calendar

  // ---- what a text is made of ----

  datatype Zone = Zulu(letter: char) | Shifted(sign: char, hours: string, minutes: string)

  /** An RFC 3339 date and time, every field of fixed width. */
  datatype ZonedDate = ZonedDate(year: string, month: string, day: string, separator: char)

  datatype ZonedClock = ZonedClock(hour: string, minute: string, second: string, fraction: string)

  /** One or two digits, after any white space. */
  datatype Field = Field(spaces: string, digits: string)

  /** A year of up to four digits, or signed and of any length; then month and day. */
  datatype LocalDate = LocalDate(sign: string, year: string, month: Field, day: Field)

  datatype LocalClock = LocalClock(hour: Field, minute: Field, second: Field, fraction: string)

  datatype Spelling =
    | Zoned(day: ZonedDate, time: ZonedClock, zone: Zone)
    | Local(date: LocalDate, clock: LocalClock)

  const MINUS_SIGN := '\U{2212}'

  predicate IsPair(text: string) {
    |text| == 2 && AllDigits(text)
  }

  predicate IsSeparator(c: char) {
    c == 'T' || c == 't' || c == ' '
  }

  predicate IsSpace(c: char) {
    var n := c as int;
    || 0x9 <= n <= 0xd || n == 0x20 || n == 0x85 || n == 0xa0 || n == 0x1680 || 0x2000 <= n <= 0x200a
    || n == 0x2028 || n == 0x2029 || n == 0x202f || n == 0x205f || n == 0x3000
  }

  /** The 25 characters Unicode calls white space. */
  const WHITE_SPACE :=
    "\t\n\U{000b}\U{000c}\r \U{0085}\U{00a0}\U{1680}\U{2000}\U{2001}\U{2002}\U{2003}\U{2004}\U{2005}\U{2006}"
    + "\U{2007}\U{2008}\U{2009}\U{200a}\U{2028}\U{2029}\U{202f}\U{205f}\U{3000}"

  lemma SpacesAreTheWhiteOnes(c: char)
    ensures IsSpace(c) <==> c in WHITE_SPACE
  {
  }

  predicate AllSpaces(text: string) {
    forall i :: 0 <= i < |text| ==> IsSpace(text[i])
  }

  predicate IsZoneText(zone: Zone) {
    match zone
    case Zulu(letter) => letter == 'Z' || letter == 'z'
    case Shifted(sign, hours, minutes) =>
      (sign == '+' || sign == '-' || sign == MINUS_SIGN) && IsPair(hours) && IsPair(minutes)
  }

  predicate IsZonedDate(d: ZonedDate) {
    |d.year| == 4 && AllDigits(d.year) && IsPair(d.month) && IsPair(d.day) && IsSeparator(d.separator)
  }

  predicate IsZonedClock(c: ZonedClock) {
    IsPair(c.hour) && IsPair(c.minute) && IsPair(c.second) && AllDigits(c.fraction)
  }

  predicate IsField(f: Field) {
    AllSpaces(f.spaces) && 1 <= |f.digits| <= 2 && AllDigits(f.digits)
  }

  predicate IsLocalDate(d: LocalDate) {
    && (d.sign == "" || d.sign == "+" || d.sign == "-")
    && d.year != "" && AllDigits(d.year) && (d.sign == "" ==> |d.year| <= 4)
    && IsField(d.month) && IsField(d.day)
  }

  predicate IsLocalClock(c: LocalClock) {
    IsField(c.hour) && IsField(c.minute) && IsField(c.second) && AllDigits(c.fraction)
  }

  /** What the grammar asks of a spelling, before any field is in range. */
  predicate IsWellFormed(s: Spelling) {
    match s
    case Zoned(day, time, zone) => IsZonedDate(day) && IsZonedClock(time) && IsZoneText(zone)
    case Local(date, clock) => IsLocalDate(date) && IsLocalClock(clock)
  }

  function FractionText(fraction: string): string {
    if fraction == "" then "" else "." + fraction
  }

  function ZoneText(zone: Zone): string {
    match zone
    case Zulu(letter) => [letter]
    case Shifted(sign, hours, minutes) => [sign] + hours + ":" + minutes
  }

  function FieldText(f: Field): string { f.spaces + f.digits }

  /** A date up to and including its `T`, and then `rest`. */
  function DateThen(d: LocalDate, rest: string): string {
    d.sign + d.year + ("-" + (FieldText(d.month) + ("-" + (FieldText(d.day) + ("T" + rest)))))
  }

  function ClockThen(c: LocalClock, rest: string): string {
    FieldText(c.hour) + (":" + (FieldText(c.minute) + (":" + (FieldText(c.second) + (FractionText(c.fraction) + rest)))))
  }

  function ZonedDateThen(d: ZonedDate, rest: string): string {
    d.year + ("-" + (d.month + ("-" + (d.day + ([d.separator] + rest)))))
  }

  function ZonedClockThen(c: ZonedClock, rest: string): string {
    c.hour + (":" + (c.minute + (":" + (c.second + (FractionText(c.fraction) + rest)))))
  }

  function Render(s: Spelling): string {
    match s
    case Zoned(day, time, zone) => ZonedDateThen(day, ZonedClockThen(time, ZoneText(zone)))
    case Local(date, clock) => DateThen(date, ClockThen(clock, ""))
  }

  // ---- what a spelling means ----

  /** The first three fractional digits; whatever follows them is cut off. */
  function FractionMillis(fraction: string): (millis: int)
    requires AllDigits(fraction)
  {
    if |fraction| >= 3 then Value(fraction[..3]) else Value(fraction) * PowerOfTen(3 - |fraction|)
  }

  function CivilOf(s: Spelling): Civil
    requires IsWellFormed(s)
  {
    match s
    case Zoned(d, c, _) =>
      Civil(Date(Value(d.year), Value(d.month), Value(d.day)),
            Value(c.hour), Value(c.minute), Value(c.second), FractionMillis(c.fraction))
    case Local(d, c) =>
      Civil(Date(if d.sign == "-" then -(Value(d.year) as int) else Value(d.year),
                 Value(d.month.digits), Value(d.day.digits)),
            Value(c.hour.digits), Value(c.minute.digits), Value(c.second.digits), FractionMillis(c.fraction))
  }

  /** How far the zone is east of UTC, in minutes; a text without one is UTC. */
  function ZoneMinutes(zone: Zone): int
    requires IsZoneText(zone)
  {
    match zone
    case Zulu(_) => 0
    case Shifted(sign, hours, minutes) =>
      var span := Value(hours) * 60 + Value(minutes);
      if sign == '+' then span else -span
  }

  function Offset(s: Spelling): int
    requires IsWellFormed(s)
  {
    match s
    case Zoned(_, _, zone) => ZoneMinutes(zone)
    case Local(_, _) => 0
  }

  predicate IsZoneInRange(zone: Zone)
    requires IsZoneText(zone)
  {
    zone.Shifted? ==> Value(zone.hours) < 24 && Value(zone.minutes) < 60
  }

  /** The years the calendar library holds. */
  const MIN_YEAR := -262_143
  const MAX_YEAR := 262_142

  /** A real date, and a time of day that may name a leap second at the end of any minute. */
  predicate IsReal(civil: Civil) {
    && MIN_YEAR <= civil.date.year <= MAX_YEAR && IsValid(civil.date)
    && 0 <= civil.hour < 24 && 0 <= civil.minute < 60 && 0 <= civil.second <= 60 && 0 <= civil.milli < 1000
  }

  /** Whether a spelling names an instant. */
  predicate IsInRange(s: Spelling)
    requires IsWellFormed(s)
  {
    IsReal(CivilOf(s)) && (s.Zoned? ==> IsZoneInRange(s.zone))
  }

  /** The instant a spelling names; a leap second is the second after :59. */
  function InstantOf(s: Spelling): int
    requires IsWellFormed(s) && IsInRange(s)
  {
    DaysFromCivil(CivilOf(s).date) * DAY_MS + TimeOfDay(CivilOf(s)) - Offset(s) * 60_000
  }

  // ---- reading ----

  /** How many digits a text starts with. */
  function DigitRun(text: string): (run: nat)
    ensures run <= |text| && AllDigits(text[..run])
    ensures run < |text| ==> !IsDigit(text[run])
  {
    if text == "" || !IsDigit(text[0]) then 0 else 1 + DigitRun(text[1..])
  }

  /** How much white space a text starts with. */
  function SpaceRun(text: string): (run: nat)
    ensures run <= |text| && AllSpaces(text[..run])
    ensures run < |text| ==> !IsSpace(text[run])
  {
    if text == "" || !IsSpace(text[0]) then 0 else 1 + SpaceRun(text[1..])
  }

  /** The fractional digits a text starts with, and what follows them. */
  function ReadFraction(text: string): Option<(string, string)> {
    if text == "" || text[0] != '.' then Some(("", text))
    else
      var run := DigitRun(text[1..]);
      if run == 0 then None else Some((text[1..run + 1], text[run + 1..]))
  }

  function ReadZone(text: string): Option<Zone> {
    if text == "Z" || text == "z" then Some(Zulu(text[0]))
    else if |text| == 6 && (text[0] == '+' || text[0] == '-' || text[0] == MINUS_SIGN) && text[3] == ':'
            && IsPair(text[1..3]) && IsPair(text[4..6])
    then Some(Shifted(text[0], text[1..3], text[4..6]))
    else None
  }

  /** Exactly `width` digits, and then the character that must follow them. */
  function ReadFixedBefore(text: string, width: nat, mark: char): Option<(string, string)> {
    if |text| > width && AllDigits(text[..width]) && text[width] == mark then Some((text[..width], text[width + 1..]))
    else None
  }

  function ReadZonedDate(text: string): Option<(ZonedDate, string)> {
    match ReadFixedBefore(text, 4, '-')
    case None => None
    case Some((year, afterYear)) =>
      match ReadFixedBefore(afterYear, 2, '-')
      case None => None
      case Some((month, afterMonth)) =>
        if |afterMonth| <= 2 || !AllDigits(afterMonth[..2]) || !IsSeparator(afterMonth[2]) then None
        else Some((ZonedDate(year, month, afterMonth[..2], afterMonth[2]), afterMonth[3..]))
  }

  function ReadZonedClock(text: string): Option<(ZonedClock, string)> {
    match ReadFixedBefore(text, 2, ':')
    case None => None
    case Some((hour, afterHour)) =>
      match ReadFixedBefore(afterHour, 2, ':')
      case None => None
      case Some((minute, afterMinute)) =>
        if |afterMinute| < 2 || !AllDigits(afterMinute[..2]) then None
        else match ReadFraction(afterMinute[2..])
          case None => None
          case Some((fraction, rest)) => Some((ZonedClock(hour, minute, afterMinute[..2], fraction), rest))
  }

  /** A whole RFC 3339 text. */
  function ReadZoned(text: string): Option<Spelling> {
    match ReadZonedDate(text)
    case None => None
    case Some((day, afterDay)) =>
      match ReadZonedClock(afterDay)
      case None => None
      case Some((time, rest)) =>
        match ReadZone(rest)
        case None => None
        case Some(zone) => Some(Zoned(day, time, zone))
  }

  /** At least one digit and at most `width`, and what follows. */
  function ReadNumber(text: string, width: nat): Option<(string, string)> {
    var run := DigitRun(text);
    var taken := if run < width then run else width;
    if taken == 0 then None else Some((text[..taken], text[taken..]))
  }

  function ReadField(text: string): Option<(Field, string)> {
    var spaces := SpaceRun(text);
    match ReadNumber(text[spaces..], 2)
    case None => None
    case Some((digits, rest)) => Some((Field(text[..spaces], digits), rest))
  }

  /** A field, and then the character that must follow it. */
  function ReadFieldBefore(text: string, mark: char): Option<(Field, string)> {
    match ReadField(text)
    case None => None
    case Some((field, rest)) => if rest != "" && rest[0] == mark then Some((field, rest[1..])) else None
  }

  function SignOf(text: string): (sign: string)
    ensures |sign| <= |text| && sign + text[|sign|..] == text
    ensures sign == "" || sign == "+" || sign == "-"
  {
    if text != "" && (text[0] == '+' || text[0] == '-') then text[..1] else ""
  }

  /** A year with its sign, if it has one, before a hyphen. */
  function ReadYear(text: string): Option<(string, string, string)> {
    var sign := SignOf(text);
    match ReadNumber(text[|sign|..], if sign == "" then 4 else |text|)
    case None => None
    case Some((digits, rest)) => if rest != "" && rest[0] == '-' then Some((sign, digits, rest[1..])) else None
  }

  function ReadDate(text: string): Option<(LocalDate, string)> {
    match ReadYear(text)
    case None => None
    case Some((sign, year, afterYear)) =>
      match ReadFieldBefore(afterYear, '-')
      case None => None
      case Some((month, afterMonth)) =>
        match ReadFieldBefore(afterMonth, 'T')
        case None => None
        case Some((day, rest)) => Some((LocalDate(sign, year, month, day), rest))
  }

  function ReadClock(text: string): Option<(LocalClock, string)> {
    match ReadFieldBefore(text, ':')
    case None => None
    case Some((hour, afterHour)) =>
      match ReadFieldBefore(afterHour, ':')
      case None => None
      case Some((minute, afterMinute)) =>
        match ReadField(afterMinute)
        case None => None
        case Some((second, afterSecond)) =>
          match ReadFraction(afterSecond)
          case None => None
          case Some((fraction, rest)) => Some((LocalClock(hour, minute, second, fraction), rest))
  }

  /** A whole text without a zone. */
  function ReadLocal(text: string): Option<Spelling> {
    match ReadDate(text)
    case None => None
    case Some((date, afterDate)) =>
      match ReadClock(afterDate)
      case None => None
      case Some((clock, rest)) => if rest == "" then Some(Local(date, clock)) else None
  }

  function TrimStart(text: string): string {
    if text != "" && IsSpace(text[0]) then TrimStart(text[1..]) else text
  }

  function TrimEnd(text: string): string {
    if text != "" && IsSpace(text[|text| - 1]) then TrimEnd(text[..|text| - 1]) else text
  }

  function Trim(text: string): string {
    TrimEnd(TrimStart(text))
  }
}
