/** The proleptic Gregorian calendar, day by day, and the clock on top of it. */
module Calendar {

  datatype Date = Date(year: int, month: int, day: int)

  predicate IsLeap(year: int) {
    year % 4 == 0 && (year % 100 != 0 || year % 400 == 0)
  }

  function DaysInMonth(year: int, month: int): (days: nat)
    requires 1 <= month <= 12
    ensures 28 <= days <= 31
  {
    if month == 2 then (if IsLeap(year) then 29 else 28)
    else if month == 4 || month == 6 || month == 9 || month == 11 then 30
    else 31
  }

  predicate IsValid(date: Date) {
    1 <= date.month <= 12 && 1 <= date.day <= DaysInMonth(date.year, date.month)
  }

  /** The calendar's own rule: what each day is followed by. */
  function NextDay(date: Date): (next: Date)
    requires IsValid(date)
    ensures IsValid(next)
  {
    if date.day < DaysInMonth(date.year, date.month) then date.(day := date.day + 1)
    else if date.month < 12 then Date(date.year, date.month + 1, 1)
    else Date(date.year + 1, 1, 1)
  }

  const EPOCH := Date(1970, 1, 1)

  // ---- days since the epoch ----

  /** Days from the start of year 0 to the start of `year`. */
  function YearStart(year: int): int {
    365 * year + (year + 3) / 4 - (year + 99) / 100 + (year + 399) / 400
  }

  function DaysInYear(year: int): int {
    if IsLeap(year) then 366 else 365
  }

  lemma Every4(year: int)
    ensures (year + 4) / 4 == (year + 3) / 4 + if year % 4 == 0 then 1 else 0
  {
  }

  lemma HundredsAreFours(year: int)
    ensures year % 100 == 0 ==> year % 4 == 0
  {
  }

  lemma Every100(year: int)
    ensures (year + 100) / 100 == (year + 99) / 100 + if year % 100 == 0 then 1 else 0
    ensures year % 400 == 0 ==> year % 100 == 0
  {
  }

  lemma Every400(year: int)
    ensures (year + 400) / 400 == (year + 399) / 400 + if year % 400 == 0 then 1 else 0
  {
  }

  lemma YearsAreLaidEndToEnd(year: int)
    ensures YearStart(year + 1) == YearStart(year) + DaysInYear(year)
  {
    Every4(year);
    HundredsAreFours(year);
    Every100(year);
    Every400(year);
    assert YearStart(year + 1) == 365 * (year + 1) + (year + 4) / 4 - (year + 100) / 100 + (year + 400) / 400;
  }

  /** Days from the start of the year to the start of `month`; month 13 starts the next year. */
  function MonthStart(year: int, month: int): (days: nat)
    requires 1 <= month <= 13
    decreases month
  {
    if month == 1 then 0 else MonthStart(year, month - 1) + DaysInMonth(year, month - 1)
  }

  lemma MonthsFillTheYear(year: int)
    ensures MonthStart(year, 13) == DaysInYear(year)
  {
    assert MonthStart(year, 3) == 31 + DaysInMonth(year, 2);
    assert MonthStart(year, 5) == MonthStart(year, 3) + 61;
    assert MonthStart(year, 7) == MonthStart(year, 5) + 61;
    assert MonthStart(year, 9) == MonthStart(year, 7) + 62;
    assert MonthStart(year, 11) == MonthStart(year, 9) + 61;
    assert MonthStart(year, 13) == MonthStart(year, 11) + 61;
  }

  /** How many days of a common year have gone before each month. */
  const DAYS_BEFORE := [0, 31, 59, 90, 120, 151, 181, 212, 243, 273, 304, 334, 365]

  lemma {:induction false} MonthsStartWhereTheyDo(year: int, month: int)
    requires 1 <= month <= 13
    ensures MonthStart(year, month) == DAYS_BEFORE[month - 1] + if month > 2 && IsLeap(year) then 1 else 0
    decreases month
  {
    if month > 1 {
      MonthsStartWhereTheyDo(year, month - 1);
    }
  }

  lemma {:induction false} MonthsAreInOrder(year: int, a: int, b: int)
    requires 1 <= a <= b <= 13
    ensures MonthStart(year, a) <= MonthStart(year, b)
    ensures a < b ==> MonthStart(year, a) + DaysInMonth(year, a) <= MonthStart(year, b)
    decreases b - a
  {
    if a < b {
      MonthsAreInOrder(year, a + 1, b);
    }
  }

  /** 1 January 1970 is this many days after the start of year 0. */
  const EPOCH_OFFSET := 719_528

  function DaysFromCivil(date: Date): int
    requires IsValid(date)
  {
    YearStart(date.year) + MonthStart(date.year, date.month) + date.day - 1 - EPOCH_OFFSET
  }

  /** The epoch is day zero, and each day is one more than the day before it. */
  lemma DaysCountDays(date: Date)
    requires IsValid(date)
    ensures DaysFromCivil(EPOCH) == 0
    ensures DaysFromCivil(NextDay(date)) == DaysFromCivil(date) + 1
  {
    YearsAreLaidEndToEnd(date.year);
    MonthsFillTheYear(date.year);
    assert MonthStart(date.year + 1, 1) == 0;
  }

  // ---- and back ----

  /** The year a day of a 400-year era falls in, looking down from one that starts no earlier than the next. */
  function YearFrom(day: nat, guess: nat): (year: nat)
    requires day < YearStart(guess + 1)
    ensures YearStart(year) <= day < YearStart(year + 1)
    decreases guess
  {
    if YearStart(guess) <= day then guess else YearFrom(day, guess - 1)
  }

  /** The month a day of the year falls in, looking down from `guess`. */
  function MonthFrom(year: int, day: nat, guess: int): (month: int)
    requires 1 <= guess <= 12 && day < MonthStart(year, guess + 1)
    ensures 1 <= month <= 12 && MonthStart(year, month) <= day < MonthStart(year, month + 1)
    decreases guess
  {
    if MonthStart(year, guess) <= day then guess else MonthFrom(year, day, guess - 1)
  }

  lemma YearsAreAtLeast365Days(year: nat)
    ensures 365 * year <= YearStart(year)
  {
  }

  function YearOf(days: int): int {
    var day := days + EPOCH_OFFSET;
    var era := day / 146_097;
    YearsAreAtLeast365Days(day % 146_097 / 365 + 1);
    400 * era + YearFrom(day % 146_097, day % 146_097 / 365)
  }

  lemma {:induction false} Eras(year: int, era: int)
    ensures YearStart(400 * era + year) == YearStart(year) + 146_097 * era
  {
    var n := 400 * era + year;
    assert (n + 3) / 4 == (year + 3) / 4 + 100 * era;
    assert (n + 99) / 100 == (year + 99) / 100 + 4 * era;
    assert (n + 399) / 400 == (year + 399) / 400 + era;
  }

  lemma ErasShift(year: int, era: int, day: int)
    requires YearStart(year) <= day < YearStart(year + 1)
    ensures YearStart(400 * era + year) <= 146_097 * era + day < YearStart(400 * era + year + 1)
  {
    Eras(year, era);
    Eras(year + 1, era);
  }

  lemma YearOfHoldsTheDay(days: int)
    ensures YearStart(YearOf(days)) <= days + EPOCH_OFFSET < YearStart(YearOf(days) + 1)
  {
    var day := days + EPOCH_OFFSET;
    YearsAreAtLeast365Days(day % 146_097 / 365 + 1);
    ErasShift(YearFrom(day % 146_097, day % 146_097 / 365), day / 146_097, day % 146_097);
  }

  /** The date a day number stands for; counting it again gives the number back. */
  function CivilFromDays(days: int): (date: Date)
    ensures IsValid(date) && DaysFromCivil(date) == days
  {
    var year := YearOf(days);
    YearOfHoldsTheDay(days);
    YearsAreLaidEndToEnd(year);
    MonthsFillTheYear(year);
    var day := days + EPOCH_OFFSET - YearStart(year);
    var month := MonthFrom(year, day, 12);
    Date(year, month, day - MonthStart(year, month) + 1)
  }

  lemma {:induction false} YearsAreInOrder(a: int, b: int)
    requires a <= b
    ensures YearStart(a) <= YearStart(b)
    ensures a < b ==> YearStart(a) + DaysInYear(a) <= YearStart(b)
    decreases b - a
  {
    YearsAreLaidEndToEnd(a);
    if a < b {
      YearsAreInOrder(a + 1, b);
    }
  }

  lemma YearIsUnique(a: int, b: int, day: int)
    requires YearStart(a) <= day < YearStart(a + 1) && YearStart(b) <= day < YearStart(b + 1)
    ensures a == b
  {
    if a < b {
      YearsAreInOrder(a + 1, b);
    } else if b < a {
      YearsAreInOrder(b + 1, a);
    }
  }

  lemma MonthIsUnique(year: int, a: int, b: int, day: int)
    requires 1 <= a <= 12 && 1 <= b <= 12
    requires MonthStart(year, a) <= day < MonthStart(year, a + 1) && MonthStart(year, b) <= day < MonthStart(year, b + 1)
    ensures a == b
  {
    if a < b {
      MonthsAreInOrder(year, a + 1, b);
    } else if b < a {
      MonthsAreInOrder(year, b + 1, a);
    }
  }

  lemma DateIsInItsYear(date: Date, day: int)
    requires IsValid(date) && day == DaysFromCivil(date) + EPOCH_OFFSET
    ensures YearStart(date.year) <= day < YearStart(date.year + 1)
  {
    YearsAreLaidEndToEnd(date.year);
    MonthsFillTheYear(date.year);
    MonthsAreInOrder(date.year, date.month, 13);
  }

  lemma DayNumberTellsTheYear(a: Date, b: Date, day: int)
    requires IsValid(a) && IsValid(b)
    requires day == DaysFromCivil(a) + EPOCH_OFFSET && day == DaysFromCivil(b) + EPOCH_OFFSET
    ensures a.year == b.year
  {
    DateIsInItsYear(a, day);
    DateIsInItsYear(b, day);
    YearIsUnique(a.year, b.year, day);
  }

  /** No two dates share a day number, so reading a counted date off the calendar gives the date back. */
  lemma DaysFromCivilIsInjective(a: Date, b: Date)
    requires IsValid(a) && IsValid(b) && DaysFromCivil(a) == DaysFromCivil(b)
    ensures a == b
  {
    DayNumberTellsTheYear(a, b, DaysFromCivil(a) + EPOCH_OFFSET);
    MonthIsUnique(a.year, a.month, b.month, MonthStart(a.year, a.month) + a.day - 1);
  }

  lemma ReadingUndoesCounting(date: Date)
    requires IsValid(date)
    ensures CivilFromDays(DaysFromCivil(date)) == date
  {
    DaysFromCivilIsInjective(CivilFromDays(DaysFromCivil(date)), date);
  }

  // ---- the clock ----

  const DAY_MS := 86_400_000

  datatype Civil = Civil(date: Date, hour: int, minute: int, second: int, milli: int)

  predicate IsClock(civil: Civil) {
    && IsValid(civil.date) && 0 <= civil.hour < 24 && 0 <= civil.minute < 60
    && 0 <= civil.second < 60 && 0 <= civil.milli < 1000
  }

  function TimeOfDay(civil: Civil): int {
    ((civil.hour * 60 + civil.minute) * 60 + civil.second) * 1000 + civil.milli
  }

  function MillisFromCivil(civil: Civil): int
    requires IsClock(civil)
  {
    DaysFromCivil(civil.date) * DAY_MS + TimeOfDay(civil)
  }

  /** A day number and a time of day, read off calendar and clock. */
  function CivilFrom(days: int, time: int): (civil: Civil)
    requires 0 <= time < DAY_MS
    ensures IsClock(civil)
  {
    Civil(CivilFromDays(days), time / 3_600_000, time / 60_000 % 60, time / 1000 % 60, time % 1000)
  }

  function CivilFromMillis(millis: int): (civil: Civil)
    ensures IsClock(civil)
  {
    CivilFrom(millis / DAY_MS, millis % DAY_MS)
  }

  lemma ClockReadsBack(civil: Civil)
    requires 0 <= civil.hour < 24 && 0 <= civil.minute < 60 && 0 <= civil.second < 60 && 0 <= civil.milli < 1000
    ensures
      var time := TimeOfDay(civil);
      && 0 <= time < DAY_MS && time / 3_600_000 == civil.hour && time / 60_000 % 60 == civil.minute
      && time / 1000 % 60 == civil.second && time % 1000 == civil.milli
  {
    var time := TimeOfDay(civil);
    assert time / 1000 == (civil.hour * 60 + civil.minute) * 60 + civil.second;
    assert time / 60_000 == civil.hour * 60 + civil.minute;
  }

  lemma TimeReadsBack(time: int)
    ensures (((time / 3_600_000) * 60 + time / 60_000 % 60) * 60 + time / 1000 % 60) * 1000 + time % 1000 == time
  {
    assert time / 60_000 == (time / 1000) / 60 && time / 3_600_000 == (time / 60_000) / 60;
  }

  lemma SplitDays(millis: int, days: int, time: int)
    requires 0 <= time < DAY_MS && millis == days * DAY_MS + time
    ensures millis / DAY_MS == days && millis % DAY_MS == time
  {
  }

  /** Reading an instant off calendar and clock and counting it again gives it back, at every instant. */
  lemma MillisReadBack(millis: int)
    ensures MillisFromCivil(CivilFromMillis(millis)) == millis
  {
    TimeReadsBack(millis % DAY_MS);
  }

  lemma CivilFromReadsBack(civil: Civil)
    requires IsClock(civil)
    ensures 0 <= TimeOfDay(civil) < DAY_MS
    ensures CivilFrom(DaysFromCivil(civil.date), TimeOfDay(civil)) == civil
  {
    ClockReadsBack(civil);
    ReadingUndoesCounting(civil.date);
  }

  lemma CivilAt(millis: int, days: int, time: int)
    requires 0 <= time < DAY_MS && millis == days * DAY_MS + time
    ensures CivilFromMillis(millis) == CivilFrom(days, time)
  {
    SplitDays(millis, days, time);
  }

  /** And the other way, for every date and time of day. */
  lemma CivilReadsBack(civil: Civil)
    requires IsClock(civil)
    ensures CivilFromMillis(MillisFromCivil(civil)) == civil
  {
    CivilFromReadsBack(civil);
    CivilAt(MillisFromCivil(civil), DaysFromCivil(civil.date), TimeOfDay(civil));
  }
}
