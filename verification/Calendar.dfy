/**
  Civil dates on the proleptic Gregorian calendar, the day arithmetic of JavaScript dates
  (section 21.4.1 of ECMA-262), and the date helpers the services build on them.
  Africa/Accra is UTC+00:00 all year, so an instant's Accra day is its UTC day.
 */
module Calendar {

  // ----- Calendar dates ------------------------------------------------------------------

  datatype Civil = Civil(year: int, month: int, day: int)

  predicate IsLeap(year: int) {
    year % 4 == 0 && (year % 100 != 0 || year % 400 == 0)
  }

  function DaysInMonth(year: int, month: int): int {
    if month == 2 then (if IsLeap(year) then 29 else 28)
    else if month == 4 || month == 6 || month == 9 || month == 11 then 30 else 31
  }

  predicate Valid(d: Civil) {
    1 <= d.month <= 12 && 1 <= d.day <= DaysInMonth(d.year, d.month)
  }

  type Date = d: Civil | Valid(d) witness Civil(1970, 1, 1)

  /** The next date by the rules of the wall calendar, with no day numbers involved. */
  function NextDate(d: Date): Date {
    if d.day < DaysInMonth(d.year, d.month) then Civil(d.year, d.month, d.day + 1)
    else if d.month < 12 then Civil(d.year, d.month + 1, 1)
    else Civil(d.year + 1, 1, 1)
  }

  // ----- Day numbers, counted from 1970-01-01 -----------------------------------------------

  function YearLength(year: int): int { if IsLeap(year) then 366 else 365 }

  /** Number of the first day of a year: the days of all the years in between. */
  function DayFromYear(year: int): int
    decreases if year >= 1970 then year - 1970 else 1970 - year
  {
    if year == 1970 then 0
    else if year > 1970 then DayFromYear(year - 1) + YearLength(year - 1)
    else DayFromYear(year + 1) - YearLength(year)
  }

  /** Days of the year before its month m (0 is January, 12 is the whole year). */
  function DaysBeforeMonth(year: int, m: int): int
    requires 0 <= m <= 12
  {
    if m == 0 then 0 else DaysBeforeMonth(year, m - 1) + DaysInMonth(year, m)
  }

  /** MakeDay: month and date may lie outside their usual ranges and roll over. */
  function MakeDay(year: int, month0: int, date: int): int
    decreases if month0 < 0 then 12 - month0 else month0
  {
    if month0 < 0 then MakeDay(year - 1, month0 + 12, date)
    else if month0 >= 12 then MakeDay(year + 1, month0 - 12, date)
    else DayFromYear(year) + DaysBeforeMonth(year, month0) + date - 1
  }

  function DayNumber(d: Date): int {
    DayFromYear(d.year) + DaysBeforeMonth(d.year, d.month - 1) + d.day - 1
  }

  /** YearFromTime: the year whose days include the given day, searched from a candidate. */
  function YearFrom(day: int, candidate: int): (year: int)
    ensures DayFromYear(year) <= day < DayFromYear(year + 1)
    decreases if DayFromYear(candidate) > day then DayFromYear(candidate) - day + 400 else day - DayFromYear(candidate)
  {
    if day < DayFromYear(candidate) then YearFrom(day, candidate - 1)
    else if DayFromYear(candidate + 1) <= day then YearFrom(day, candidate + 1)
    else candidate
  }

  /** MonthFromTime: the month, counted from 0, whose days include the given day of the year. */
  function MonthFrom(year: int, dayInYear: int, candidate: int := 0): (m: int)
    requires 0 <= candidate <= 11 && DaysBeforeMonth(year, candidate) <= dayInYear < DaysBeforeMonth(year, 12)
    ensures 0 <= m <= 11
    ensures DaysBeforeMonth(year, m) <= dayInYear < DaysBeforeMonth(year, m + 1)
    decreases 12 - candidate
  {
    if dayInYear < DaysBeforeMonth(year, candidate + 1) then candidate else MonthFrom(year, dayInYear, candidate + 1)
  }

  function CivilFromDay(day: int): Date {
    var year := YearFrom(day, 1970 + day / 366);
    var inYear := day - DayFromYear(year);
    MonthsFillYear(year);
    var m := MonthFrom(year, inYear);
    Civil(year, m + 1, inYear - DaysBeforeMonth(year, m) + 1)
  }

  /** Weekday with 0 for Sunday; 1970-01-01 was a Thursday. */
  function WeekDay(day: int): int { (day + 4) % 7 }

  /** The first days of the months of a year, as in the table of ECMA-262 (Month Number, 21.4.1). */
  lemma {:induction false} MonthsStartAsTabulated(year: int, m: int)
    requires 1 <= m <= 12
    ensures var leap := if year % 4 == 0 && (year % 100 != 0 || year % 400 == 0) then 1 else 0;
            var start := [0, 31, 59, 90, 120, 151, 181, 212, 243, 273, 304, 334][m - 1];
            Valid(Civil(year, m, 1))
            && DayNumber(Civil(year, m, 1)) == DayFromYear(year) + start + if m > 2 then leap else 0
  {
    if m > 1 { MonthsStartAsTabulated(year, m - 1); }
  }

  // ----- The closed forms of ECMA-262, section 21.4.1, count the same days -------------------

  function EcmaDayFromYear(year: int): int {
    365 * (year - 1970) + (year - 1969) / 4 - (year - 1901) / 100 + (year - 1601) / 400
  }

  lemma {:induction false} ClosedFormCountsDays(year: int)
    ensures EcmaDayFromYear(year) == DayFromYear(year)
    decreases if year >= 1970 then year - 1970 else 1970 - year
  {
    if year > 1970 {
      EcmaYearStep(year - 1);
      ClosedFormCountsDays(year - 1);
    } else if year < 1970 {
      EcmaYearStep(year);
      ClosedFormCountsDays(year + 1);
    }
  }

  lemma EcmaYearStep(year: int)
    ensures EcmaDayFromYear(year + 1) == EcmaDayFromYear(year) + YearLength(year)
  {
    QuarterStep(year);
    CenturyStep(year);
    CycleStep(year);
  }

  lemma QuarterStep(year: int)
    ensures (year - 1968) / 4 - (year - 1969) / 4 == if year % 4 == 0 then 1 else 0
  {
  }

  lemma CenturyStep(year: int)
    ensures (year - 1900) / 100 - (year - 1901) / 100 == if year % 100 == 0 then 1 else 0
    ensures year % 100 == 0 ==> year % 4 == 0
  {
  }

  lemma CycleStep(year: int)
    ensures (year - 1600) / 400 - (year - 1601) / 400 == if year % 400 == 0 then 1 else 0
    ensures year % 400 == 0 ==> year % 100 == 0
  {
  }

  function EcmaMakeDay(year: int, month0: int, date: int): int {
    var ym := year + month0 / 12;
    EcmaDayFromYear(ym) + DaysBeforeMonth(ym, month0 % 12) + date - 1
  }

  lemma {:induction false} ClosedFormMakesDays(year: int, month0: int, date: int)
    ensures EcmaMakeDay(year, month0, date) == MakeDay(year, month0, date)
    decreases if month0 < 0 then 12 - month0 else month0
  {
    if month0 < 0 {
      EcmaCarries(year - 1, month0, date);
      ClosedFormMakesDays(year - 1, month0 + 12, date);
    } else if month0 >= 12 {
      EcmaCarries(year, month0 - 12, date);
      ClosedFormMakesDays(year + 1, month0 - 12, date);
    } else {
      ClosedFormCountsDays(year);
    }
  }

  lemma EcmaCarries(year: int, month0: int, date: int)
    ensures EcmaMakeDay(year, month0 + 12, date) == EcmaMakeDay(year + 1, month0, date)
  {
    TwelveMonthsOn(month0);
  }

  lemma TwelveMonthsOn(month0: int)
    ensures (month0 + 12) / 12 == month0 / 12 + 1 && (month0 + 12) % 12 == month0 % 12
  {
  }

  lemma MonthsFillYear(year: int)
    ensures DaysBeforeMonth(year, 12) == YearLength(year) == DayFromYear(year + 1) - DayFromYear(year)
  {
    var f := DaysInMonth(year, 2);
    assert DaysBeforeMonth(year, 1) == 31;
    assert DaysBeforeMonth(year, 2) == 31 + f;
    assert DaysBeforeMonth(year, 4) == 92 + f;
    assert DaysBeforeMonth(year, 6) == 153 + f;
    assert DaysBeforeMonth(year, 8) == 215 + f;
    assert DaysBeforeMonth(year, 10) == 276 + f;
    assert DaysBeforeMonth(year, 12) == 337 + f;
  }

  // ----- The two representations are inverse -------------------------------------------------

  lemma {:induction false} YearsIncrease(a: int, b: int)
    requires a <= b
    ensures DayFromYear(a) <= DayFromYear(b)
    decreases b - a
  {
    if a < b { YearsIncrease(a + 1, b); }
  }

  lemma {:induction false} MonthsIncrease(year: int, m: int, n: int)
    requires 0 <= m <= n <= 12
    ensures DaysBeforeMonth(year, m) <= DaysBeforeMonth(year, n)
    decreases n - m
  {
    if m < n { MonthsIncrease(year, m + 1, n); }
  }

  /** Every day number names a date, and that date's day number is the one we started from. */
  lemma DayRoundTrip(day: int)
    ensures DayNumber(CivilFromDay(day)) == day
  {
  }

  /** Every calendar date is recovered from its day number. */
  lemma DateRoundTrip(d: Date)
    ensures CivilFromDay(DayNumber(d)) == d
  {
    var c := CivilFromDay(DayNumber(d));
    DayRoundTrip(DayNumber(d));
    LaterDateHasLargerDay(c, d);
    LaterDateHasLargerDay(d, c);
  }

  predicate Before(a: Date, b: Date) {
    a.year < b.year || (a.year == b.year && (a.month < b.month || (a.month == b.month && a.day < b.day)))
  }

  lemma LaterDateHasLargerDay(a: Date, b: Date)
    ensures Before(a, b) ==> DayNumber(a) < DayNumber(b)
  {
    if a.year < b.year {
      DayLiesInItsYear(a);
      DayLiesInItsYear(b);
      YearsIncrease(a.year + 1, b.year);
    } else if a.year == b.year && a.month < b.month {
      DayLiesInItsYear(a);
      DayLiesInItsYear(b);
      MonthsIncrease(a.year, a.month, b.month - 1);
    }
  }

  lemma DayLiesInItsYear(d: Date)
    ensures DayFromYear(d.year) <= DayNumber(d) < DayFromYear(d.year + 1)
    ensures var n := DayNumber(d) - DayFromYear(d.year);
            DaysBeforeMonth(d.year, d.month - 1) <= n < DaysBeforeMonth(d.year, d.month)
  {
    MonthsFillYear(d.year);
    MonthsIncrease(d.year, 0, d.month - 1);
    MonthsIncrease(d.year, d.month, 12);
  }

  lemma NextDateIsNextDay(d: Date)
    ensures DayNumber(NextDate(d)) == DayNumber(d) + 1
  {
    if d.day == DaysInMonth(d.year, d.month) && d.month == 12 {
      MonthsFillYear(d.year);
      assert DaysBeforeMonth(d.year + 1, 0) == 0;
    }
  }

  /** With the month of a real date, MakeDay just moves within and beyond that month. */
  lemma MakeDayFromDate(d: Date, date: int)
    ensures MakeDay(d.year, d.month - 1, date) == DayNumber(d) - d.day + date
  {
  }

  // ----- accraDaysBetween ------------------------------------------------------------------

  /** Math.round of a number of days given in milliseconds: halves go up. */
  function RoundToDays(ms: int): int {
    (2 * ms + 86_400_000) / (2 * 86_400_000)
  }

  /** Date.parse of `<iso>T00:00:00Z`. */
  function MidnightMs(d: Date): int { DayNumber(d) * 86_400_000 }

  function AccraDaysBetween(later: Date, earlier: Date): (n: int)
    ensures n == DayNumber(later) - DayNumber(earlier)
  {
    RoundToDays(MidnightMs(later) - MidnightMs(earlier))
  }

  /** One day between two dates means one is the calendar successor of the other, and only then. */
  lemma OneDayBetweenIffSuccessor(later: Date, earlier: Date)
    ensures AccraDaysBetween(later, earlier) == 1 <==> later == NextDate(earlier)
    ensures AccraDaysBetween(later, earlier) == 0 <==> later == earlier
  {
    NextDateIsNextDay(earlier);
    DateRoundTrip(later);
    DateRoundTrip(earlier);
    DateRoundTrip(NextDate(earlier));
  }

  // ----- Weeks and months ------------------------------------------------------------------

  function DayOf(instantMs: int): int { instantMs / 86_400_000 }

  /** date_trunc('week'): the Monday on or before a day. */
  function MondayOf(day: int): (monday: int)
    ensures WeekDay(monday) == 1 && monday <= day <= monday + 6
  {
    day - (day + 3) % 7
  }

  /** date_trunc('month'). */
  function MonthStartOf(day: int): int {
    day - CivilFromDay(day).day + 1
  }

  lemma FirstOfMonth(d: Date)
    ensures Valid(d.(day := 1)) && DayNumber(d.(day := 1)) == DayNumber(d) - d.day + 1
  {
  }

  lemma MonthStartIsFirstOfMonth(day: int)
    ensures CivilFromDay(MonthStartOf(day)) == CivilFromDay(day).(day := 1)
  {
    var d := CivilFromDay(day);
    DayRoundTrip(day);
    FirstOfMonth(d);
    DateOfNumber(d.(day := 1), MonthStartOf(day));
  }

  lemma DateOfNumber(d: Date, day: int)
    requires DayNumber(d) == day
    ensures CivilFromDay(day) == d
  {
    DateRoundTrip(d);
  }

  /** The month start is not after the day, and two days share it exactly when they are in one month. */
  lemma MonthsPartitionDays(a: int, b: int)
    ensures MonthStartOf(a) <= a
    ensures MonthStartOf(a) == MonthStartOf(b) <==>
            CivilFromDay(a).year == CivilFromDay(b).year && CivilFromDay(a).month == CivilFromDay(b).month
  {
    DayRoundTrip(a);
    MonthStartIsFirstOfMonth(a);
    MonthStartIsFirstOfMonth(b);
    DayRoundTrip(MonthStartOf(a));
    DayRoundTrip(MonthStartOf(b));
  }

  /** Two days share their Monday exactly when they lie in the same Monday-first week. */
  lemma MondaysPartitionDays(a: int, b: int)
    ensures MondayOf(a) == MondayOf(b) <==> (a + 3) / 7 == (b + 3) / 7
    ensures MondayOf(MondayOf(a)) == MondayOf(a)
    ensures MondayOf(a) <= b <= MondayOf(a) + 6 <==> MondayOf(a) == MondayOf(b)
  {
  }

  function AccraDate(instantMs: int): Date { CivilFromDay(DayOf(instantMs)) }

  /** The instant lies on its date: at or after its midnight, and before that of the next date. */
  lemma InstantLiesOnItsDate(instantMs: int)
    ensures var d := AccraDate(instantMs);
            Valid(d) && MidnightMs(d) <= instantMs < MidnightMs(NextDate(d))
  {
    DayRoundTrip(DayOf(instantMs));
    NextDateIsNextDay(AccraDate(instantMs));
  }

  /** accraMondayIso: shift the day of the month and let Date.UTC roll months and years over. */
  function AccraMonday(instantMs: int): (d: Date)
    ensures d == CivilFromDay(MondayOf(DayOf(instantMs)))
  {
    var day := DayOf(instantMs);
    var ymd := CivilFromDay(day);
    var weekdayMondayFirst := (day + 3) % 7;
    DayRoundTrip(day);
    MakeDayFromDate(ymd, ymd.day - weekdayMondayFirst);
    CivilFromDay(MakeDay(ymd.year, ymd.month - 1, ymd.day - weekdayMondayFirst))
  }

  function AccraMonthStart(instantMs: int): (d: Date)
    ensures d == CivilFromDay(MonthStartOf(DayOf(instantMs)))
  {
    MonthStartIsFirstOfMonth(DayOf(instantMs));
    CivilFromDay(DayOf(instantMs)).(day := 1)
  }

  /** A JavaScript Date at UTC midnight, as the period helpers build and mutate it. */
  class UtcDate {
    var day: int

    constructor Utc(year: int, month0: int, date: int)
      ensures day == MakeDay(year, month0, date)
    {
      day := MakeDay(year, month0, date);
    }

    function GetUtcDay(): int reads this { WeekDay(day) }

    function GetUtcDate(): int reads this { CivilFromDay(day).day }

    function ToIsoDate(): Date reads this { CivilFromDay(day) }

    method SetUtcDate(date: int)
      modifies this
      ensures day == old(day) + date - old(GetUtcDate())
    {
      var d := CivilFromDay(day);
      DayRoundTrip(day);
      MakeDayFromDate(d, date);
      day := MakeDay(d.year, d.month - 1, date);
    }
  }

  /** weeklyPeriodStart of the gamification service. */
  method WeeklyPeriodStart(instantMs: int) returns (monday: Date)
    ensures monday == CivilFromDay(MondayOf(DayOf(instantMs)))
  {
    ghost var today := DayOf(instantMs);
    var now := CivilFromDay(DayOf(instantMs));
    var d := new UtcDate.Utc(now.year, now.month - 1, now.day);
    assert d.day == today by { UtcOfDate(today); }
    var day := d.GetUtcDay();
    var offset := if day == 0 then 6 else day - 1;
    assert today - offset == MondayOf(today) by { OffsetToMonday(today); }
    d.SetUtcDate(d.GetUtcDate() - offset);
    monday := d.ToIsoDate();
  }

  /** mondayOfWeekIso of the reject log. */
  method MondayOfWeekIso(instantMs: int) returns (monday: Date)
    ensures monday == CivilFromDay(MondayOf(DayOf(instantMs)))
  {
    ghost var today := DayOf(instantMs);
    var parts := CivilFromDay(DayOf(instantMs));
    var utc := new UtcDate.Utc(parts.year, parts.month - 1, parts.day);
    assert utc.day == today by { UtcOfDate(today); }
    var dayOfWeek := utc.GetUtcDay();
    var shift := if dayOfWeek == 0 then 6 else dayOfWeek - 1;
    assert today - shift == MondayOf(today) by { OffsetToMonday(today); }
    utc.SetUtcDate(utc.GetUtcDate() - shift);
    monday := utc.ToIsoDate();
  }

  /** monthlyPeriodStart of the gamification service. */
  method MonthlyPeriodStart(instantMs: int) returns (first: Date)
    ensures first == CivilFromDay(MonthStartOf(DayOf(instantMs)))
  {
    var now := CivilFromDay(DayOf(instantMs));
    UtcOfMonthStart(DayOf(instantMs));
    var d := new UtcDate.Utc(now.year, now.month - 1, 1);
    first := d.ToIsoDate();
  }

  lemma UtcOfDate(day: int)
    ensures var d := CivilFromDay(day); MakeDay(d.year, d.month - 1, d.day) == day
  {
    DayRoundTrip(day);
    MakeDayFromDate(CivilFromDay(day), CivilFromDay(day).day);
  }

  lemma UtcOfMonthStart(day: int)
    ensures var d := CivilFromDay(day); MakeDay(d.year, d.month - 1, 1) == MonthStartOf(day)
  {
    MakeDayFromDate(CivilFromDay(day), 1);
    DayRoundTrip(day);
  }

  lemma OffsetToMonday(day: int)
    ensures day - (if WeekDay(day) == 0 then 6 else WeekDay(day) - 1) == MondayOf(day)
  {
  }

  /**
    The Monday lies 0 to 6 days before its date, is its own Monday, and is shared by exactly
    the dates of its week.
   */
  lemma MondayIsStableOnItsWeek(a: int, b: int)
    ensures 0 <= AccraDaysBetween(AccraDate(a), AccraMonday(a)) <= 6
    ensures AccraMonday(MidnightMs(AccraMonday(a))) == AccraMonday(a)
    ensures AccraMonday(a) == AccraMonday(b) <==> 0 <= AccraDaysBetween(AccraDate(b), AccraMonday(a)) <= 6
  {
    var i, j := DayOf(a), DayOf(b);
    MondaysPartitionDays(i, j);
    DayRoundTrip(MondayOf(i));
    DayRoundTrip(MondayOf(j));
    DayRoundTrip(i);
    DayRoundTrip(j);
    assert DayOf(MidnightMs(AccraMonday(a))) == MondayOf(i);
  }
}
