/**
 * Calendar arithmetic behind the monthly budget: day numbers to civil dates and back, and the start of
 * the month. The reference is the proleptic Gregorian calendar itself: month lengths, the leap rule and
 * the day that follows a given day.
 */
module CivilCalendar {

  const DAY_SECS := 86_400

  datatype Date = Date(year: int, month: int, day: int)

  // ---------- The source's conversions ----------

  /** `civil_from_days`; Dafny's `/` and `%` are Euclidean, like `div_euclid` and `rem_euclid`. */
  function CivilFromDays(day: int): Date {
    var z := day + 719_468;
    var era := z / 146_097;
    var doe := z % 146_097;
    var yoe := YearOfEra(doe);
    var doy := doe - (365 * yoe + yoe / 4 - yoe / 100);
    var mp := (5 * doy + 2) / 153;
    var d := doy - (153 * mp + 2) / 5 + 1;
    var m := if mp < 10 then mp + 3 else mp - 9;
    Date(if m <= 2 then yoe + era * 400 + 1 else yoe + era * 400, m, d)
  }

  function YearOfEra(doe: int): int {
    (doe - doe / 1460 + doe / 36_524 - doe / 146_096) / 365
  }

  /** `days_from_civil` */
  function DaysFromCivil(date: Date): int {
    var y := if date.month <= 2 then date.year - 1 else date.year;
    var era := y / 400;
    var yoe := y % 400;
    var doy := (153 * (if date.month > 2 then date.month - 3 else date.month + 9) + 2) / 5 + date.day - 1;
    var doe := yoe * 365 + yoe / 4 - yoe / 100 + doy;
    era * 146_097 + doe - 719_468
  }

  /** `month_start_utc_ms` */
  function MonthStartMs(nowUnix: int): int {
    var today := CivilFromDays(nowUnix / DAY_SECS);
    DaysFromCivil(Date(today.year, today.month, 1)) * DAY_SECS * 1000
  }

  // ---------- The calendar ----------

  predicate IsLeap(year: int) {
    year % 4 == 0 && (year % 100 != 0 || year % 400 == 0)
  }

  function DaysInMonth(year: int, month: int): int {
    if month == 2 then (if IsLeap(year) then 29 else 28)
    else if month == 4 || month == 6 || month == 9 || month == 11 then 30
    else 31
  }

  predicate IsDate(date: Date) {
    1 <= date.month <= 12 && 1 <= date.day <= DaysInMonth(date.year, date.month)
  }

  function NextMonth(date: Date): Date {
    if date.month < 12 then Date(date.year, date.month + 1, 1) else Date(date.year + 1, 1, 1)
  }

  function NextDay(date: Date): Date {
    if date.day < DaysInMonth(date.year, date.month) then Date(date.year, date.month, date.day + 1)
    else NextMonth(date)
  }

  // ---------- Years that start in March ----------

  /** Days of the 400-year era before year `yoe` of it */
  function YearStart(yoe: int): int {
    365 * yoe + yoe / 4 - yoe / 100
  }

  /** Days of the year that starts in March before its month `mp` */
  function MarchMonthStart(mp: int): int {
    (153 * mp + 2) / 5
  }

  lemma DivIs(x: int, k: int, q: int, r: int)
    requires k > 0 && 0 <= r < k && x == k * q + r
    ensures x / k == q && x % k == r
  {
    var d := x / k - q;
    assert k * d == r - x % k;
  }

  /** A day of an era as whole centuries, whole four-year spans and days of the last span */
  lemma SplitEra(doe: int) returns (c: int, q: int, s: int)
    requires 0 <= doe < 146_097
    ensures doe == 36_524 * c + 1461 * q + s
    ensures 0 <= c <= 3 && 0 <= q <= 24 && 0 <= s <= 1460
    ensures q == 24 && s == 1460 ==> c == 3
  {
    c := if doe == 146_096 then 3 else doe / 36_524;
    var r := doe - 36_524 * c;
    q := r / 1461;
    s := r % 1461;
  }

  /** The source's formula finds the year: it subtracts exactly the leap days that came before. */
  lemma YearOfEraIs(doe: int) returns (c: int, q: int, y: int, t: int)
    requires 0 <= doe < 146_097
    ensures YearOfEra(doe) == 100 * c + 4 * q + y
    ensures doe == 36_524 * c + 1461 * q + 365 * y + t
    ensures 0 <= c <= 3 && 0 <= q <= 24 && 0 <= y <= 3 && 0 <= t <= 365
    ensures t == 365 ==> y == 3 && (q == 24 ==> c == 3)
  {
    var s;
    c, q, s := SplitEra(doe);
    y := if s == 1460 then 3 else s / 365;
    t := s - 365 * y;
    var e := if 24 * c + q + s >= 1460 then 1 else 0;
    DivIs(doe, 1460, 25 * c + q + e, 24 * c + q + s - 1460 * e);
    var last := if doe == 146_096 then 1 else 0;
    DivIs(doe, 146_096, last, doe - 146_096 * last);
    DivIs(doe, 36_524, c + last, doe - 36_524 * (c + last));
    DivIs(36_500 * c + 1460 * q + s - e, 365, 100 * c + 4 * q + y, s - e - 365 * y);
  }

  lemma YearStartIs(c: int, q: int, y: int)
    requires 0 <= q <= 24 && 0 <= y <= 3
    ensures YearStart(100 * c + 4 * q + y) == 36_524 * c + 1461 * q + 365 * y
  {
    var yoe := 100 * c + 4 * q + y;
    DivIs(yoe, 4, 25 * c + q, y);
    DivIs(yoe, 100, c, 4 * q + y);
  }

  // ---------- Day numbers to dates and back ----------

  lemma YearOfDate(era: int, c: int, q: int, y: int)
    requires 0 <= c <= 3 && 0 <= q <= 24 && 0 <= y <= 3
    ensures var yoe := 100 * c + 4 * q + y;
            && (yoe + era * 400) / 400 == era && (yoe + era * 400) % 400 == yoe
            && (IsLeap(yoe + era * 400 + 1) <==> y == 3 && (q == 24 ==> c == 3))
  {
    var yoe := 100 * c + 4 * q + y;
    DivIs(yoe + era * 400, 400, era, yoe);
    var next := yoe + 1;
    var carry := if next == 400 then 1 else 0;
    DivIs(next + era * 400, 400, era + carry, next - 400 * carry);
    var c1 := if 4 * q + y == 99 then 1 else 0;
    DivIs(next + era * 400, 100, 4 * era + c + c1, 4 * q + y + 1 - 100 * c1);
    var q1 := if y == 3 then 1 else 0;
    DivIs(next + era * 400, 4, 100 * era + 25 * c + q + q1, y + 1 - 4 * q1);
  }

  /** Within a year, the month and day computed from the day of the year lead back to it. */
  lemma MonthOfYear(doy: int)
    requires 0 <= doy <= 365
    ensures var mp := (5 * doy + 2) / 153;
            && 0 <= mp <= 11
            && MarchMonthStart(mp) <= doy
            && doy - MarchMonthStart(mp) < (if mp == 11 then 29 else MarchMonthStart(mp + 1) - MarchMonthStart(mp))
            && (mp == 11 ==> MarchMonthStart(mp) == 337)
  {
  }

  lemma MarchMonthLengths(year: int, m: int)
    requires 1 <= m <= 12
    ensures var mp := if m > 2 then m - 3 else m + 9;
            if m == 2 then MarchMonthStart(mp) == 337
            else 0 <= mp <= 10 && MarchMonthStart(mp + 1) - MarchMonthStart(mp) == DaysInMonth(year, m)
    ensures MarchMonthStart(0) == 0
  {
  }

  /** The calendar year that starts in March, to which January and February of the next one belong */
  function MarchYear(date: Date): int {
    if date.month <= 2 then date.year - 1 else date.year
  }

  function MarchMonth(month: int): int {
    if month > 2 then month - 3 else month + 9
  }

  /** Days from the start of era 0 to the March that starts year `y` */
  function MarchFirst(y: int): int {
    y / 400 * 146_097 + YearStart(y % 400)
  }

  lemma DaysParts(date: Date)
    ensures DaysFromCivil(date) ==
            MarchFirst(MarchYear(date)) + MarchMonthStart(MarchMonth(date.month)) + date.day - 1 - 719_468
  {
  }

  /** The date that `civil_from_days` takes from an era, a year of it and a day of that year */
  function DateIn(era: int, yoe: int, doy: int): Date {
    var mp := (5 * doy + 2) / 153;
    var m := if mp < 10 then mp + 3 else mp - 9;
    Date(if m <= 2 then yoe + era * 400 + 1 else yoe + era * 400, m, doy - MarchMonthStart(mp) + 1)
  }

  lemma DateInIsDate(era: int, yoe: int, doy: int)
    requires 0 <= doy <= 365
    requires doy == 365 ==> IsLeap(yoe + era * 400 + 1)
    ensures var date := DateIn(era, yoe, doy);
            && IsDate(date)
            && MarchYear(date) == yoe + era * 400
            && MarchMonthStart(MarchMonth(date.month)) + date.day - 1 == doy
  {
    hide IsLeap, MarchMonthStart;
    MonthOfYear(doy);
    var date := DateIn(era, yoe, doy);
    MarchMonthLengths(date.year, date.month);
  }

  lemma CivilParts(day: int, yoe: int)
    requires var doe := (day + 719_468) % 146_097; YearOfEra(doe) == yoe
    ensures var z := day + 719_468;
            CivilFromDays(day) == DateIn(z / 146_097, yoe, z % 146_097 - YearStart(yoe))
  {
  }

  /** Every day number is the day number of a valid date: the one `civil_from_days` returns. */
  lemma DayRoundTrip(day: int)
    ensures IsDate(CivilFromDays(day))
    ensures DaysFromCivil(CivilFromDays(day)) == day
  {
    hide IsLeap, IsDate, YearStart, YearOfEra, MarchMonthStart, DateIn, CivilFromDays, DaysFromCivil, MarchYear;
    var z := day + 719_468;
    var era, doe := z / 146_097, z % 146_097;
    var c, q, y, t := YearOfEraIs(doe);
    var yoe := 100 * c + 4 * q + y;
    YearStartIs(c, q, y);
    YearOfDate(era, c, q, y);
    CivilParts(day, yoe);
    DateInIsDate(era, yoe, t);
    DaysParts(DateIn(era, yoe, t));
  }

  // ---------- Months in a row ----------

  function MonthNumber(date: Date): int {
    12 * date.year + date.month - 1
  }

  /** Day number of the first day of month `n`, counting months from January of year 0 */
  function FirstDay(n: int): int {
    DaysFromCivil(Date(n / 12, n % 12 + 1, 1))
  }

  lemma MarchFirstStep(y: int)
    ensures MarchFirst(y + 1) == MarchFirst(y) + (if IsLeap(y + 1) then 366 else 365)
  {
    var era, yoe := y / 400, y % 400;
    var c := yoe / 100;
    var q := (yoe - 100 * c) / 4;
    var r := yoe - 100 * c - 4 * q;
    YearStartIs(c, q, r);
    YearOfDate(era, c, q, r);
    if r < 3 {
      YearStartIs(c, q, r + 1);
      YearOfDate(era, c, q, r + 1);
    } else if q < 24 {
      YearStartIs(c, q + 1, 0);
      YearOfDate(era, c, q + 1, 0);
    } else if c < 3 {
      YearStartIs(c + 1, 0, 0);
      YearOfDate(era, c + 1, 0, 0);
    } else {
      YearStartIs(0, 0, 0);
      YearOfDate(era + 1, 0, 0, 0);
    }
  }

  /** Consecutive months lie as far apart as the calendar says. */
  lemma FirstDayStep(n: int)
    ensures FirstDay(n + 1) == FirstDay(n) + DaysInMonth(n / 12, n % 12 + 1)
  {
    hide MarchFirst, MarchMonthStart, DaysFromCivil, IsLeap;
    var y, m := n / 12, n % 12 + 1;
    MarchMonthLengths(y, m);
    if m == 2 {
      MarchFirstStep(y - 1);
    }
    if m == 12 {
      DivIs(n + 1, 12, y + 1, 0);
      DaysParts(Date(y + 1, 1, 1));
    } else {
      DivIs(n + 1, 12, y, m);
      DaysParts(Date(y, m + 1, 1));
    }
    DaysParts(Date(y, m, 1));
  }

  lemma {:induction false} FirstDayMonotone(a: int, b: int)
    requires a <= b
    ensures FirstDay(a) + (b - a) <= FirstDay(b)
    decreases b - a
  {
    hide FirstDay, IsLeap;
    if a < b {
      FirstDayMonotone(a, b - 1);
      FirstDayStep(b - 1);
    }
  }

  lemma DayInMonth(date: Date)
    requires IsDate(date)
    ensures DaysFromCivil(date) == FirstDay(MonthNumber(date)) + date.day - 1
    ensures FirstDay(MonthNumber(date)) <= DaysFromCivil(date) < FirstDay(MonthNumber(date) + 1)
    ensures MonthNumber(date) / 12 == date.year && MonthNumber(date) % 12 + 1 == date.month
  {
    hide DaysInMonth, DaysFromCivil;
    DivIs(MonthNumber(date), 12, date.year, date.month - 1);
    FirstDayStep(MonthNumber(date));
    DaysAdd(date);
  }

  lemma DaysAdd(date: Date)
    ensures DaysFromCivil(date) == DaysFromCivil(date.(day := 1)) + date.day - 1
  {
  }

  lemma DayNumbersAreDistinct(a: Date, b: Date)
    requires IsDate(a) && IsDate(b)
    requires DaysFromCivil(a) == DaysFromCivil(b)
    ensures a == b
  {
    hide DaysFromCivil, FirstDay, DaysInMonth;
    var ma, mb := MonthNumber(a), MonthNumber(b);
    DayInMonth(a);
    DayInMonth(b);
    if ma < mb {
      FirstDayMonotone(ma + 1, mb);
    } else if mb < ma {
      FirstDayMonotone(mb + 1, ma);
    }
  }

  /** The converse inversion: every valid date survives the trip through its day number. */
  lemma DateRoundTrip(date: Date)
    requires IsDate(date)
    ensures CivilFromDays(DaysFromCivil(date)) == date
  {
    hide DaysFromCivil, CivilFromDays, IsDate;
    DayRoundTrip(DaysFromCivil(date));
    DayNumbersAreDistinct(date, CivilFromDays(DaysFromCivil(date)));
  }

  lemma NextDayIsDate(date: Date)
    requires IsDate(date)
    ensures IsDate(NextDay(date))
    ensures DaysFromCivil(NextDay(date)) == DaysFromCivil(date) + 1
  {
    hide DaysFromCivil, FirstDay, IsLeap;
    var next := NextDay(date);
    DayInMonth(date);
    DayInMonth(next);
    FirstDayStep(MonthNumber(date));
  }

  /** The next day number is the next day of the Gregorian calendar. */
  lemma CivilFollowsCalendar(day: int)
    ensures CivilFromDays(day + 1) == NextDay(CivilFromDays(day))
  {
    hide DaysFromCivil, CivilFromDays, IsDate, NextDay;
    DayRoundTrip(day);
    NextDayIsDate(CivilFromDays(day));
    DateRoundTrip(NextDay(CivilFromDays(day)));
  }

  lemma EpochDate()
    ensures CivilFromDays(0) == Date(1970, 1, 1)
  {
    hide CivilFromDays;
    var epoch := Date(1970, 1, 1);
    assert DaysFromCivil(epoch) == 0 by { DivIs(1969, 400, 4, 369); }
    DateRoundTrip(epoch);
  }

  /** `calendar` gives a valid date to day `z` and the following date to the following day. */
  ghost predicate FollowsAt(calendar: int -> Date, z: int) {
    IsDate(calendar(z)) && calendar(z + 1) == NextDay(calendar(z))
  }

  /**
   * `civil_from_days` is the calendar: any assignment of valid dates to day numbers that puts
   * 1970-01-01 at day 0 and respects the day that follows agrees with it everywhere.
   */
  lemma {:induction false} CivilIsTheCalendar(calendar: int -> Date, day: int)
    requires calendar(0) == Date(1970, 1, 1)
    requires forall z :: FollowsAt(calendar, z)
    ensures calendar(day) == CivilFromDays(day)
    decreases if day < 0 then -day else day
  {
    hide DaysFromCivil, CivilFromDays, IsDate, NextDay;
    if day == 0 {
      EpochDate();
    } else if day > 0 {
      CivilIsTheCalendar(calendar, day - 1);
      CivilFollowsCalendar(day - 1);
      assert FollowsAt(calendar, day - 1);
    } else {
      CivilIsTheCalendar(calendar, day + 1);
      CivilFollowsCalendar(day);
      assert FollowsAt(calendar, day);
      DayRoundTrip(day);
      NextDayIsDate(calendar(day));
      NextDayIsDate(CivilFromDays(day));
      DayNumbersAreDistinct(calendar(day), CivilFromDays(day));
    }
  }

  // ---------- The start of the month ----------

  /** The month, counted like `MonthNumber`, that contains an instant */
  function MonthOf(nowUnix: int): int {
    MonthNumber(CivilFromDays(nowUnix / DAY_SECS))
  }

  /** First instant of month `n`, in milliseconds */
  function MonthFirstMs(n: int): int {
    FirstDay(n) * DAY_SECS * 1000
  }

  /** An instant lies between the first instant of its month and that of the next month. */
  lemma MonthStartBounds(nowUnix: int)
    ensures MonthStartMs(nowUnix) == MonthFirstMs(MonthOf(nowUnix))
    ensures MonthStartMs(nowUnix) <= nowUnix * 1000 < MonthFirstMs(MonthOf(nowUnix) + 1)
  {
    hide CivilFromDays, FirstDay, DaysInMonth;
    var day := nowUnix / DAY_SECS;
    var date := CivilFromDays(day);
    DayRoundTrip(day);
    DayInMonth(date);
  }

  /** Month starts grow with the month, so one month's instants all come before the next month's. */
  lemma MonthFirstMonotone(a: int, b: int)
    requires a < b
    ensures MonthFirstMs(a) < MonthFirstMs(b)
  {
    hide FirstDay;
    FirstDayMonotone(a, b);
  }

  /**
   * `month_start_utc_ms` is monotone, constant within a calendar month and different between months,
   * and it names midnight of the first day of the month that contains `now`.
   */
  lemma MonthStartIsFirstInstant(nowUnix: int, other: int)
    ensures MonthStartMs(nowUnix) == MonthStartMs(other) <==> MonthOf(nowUnix) == MonthOf(other)
    ensures nowUnix <= other ==> MonthStartMs(nowUnix) <= MonthStartMs(other)
    ensures other * 1000 >= MonthStartMs(nowUnix) <==> MonthOf(other) >= MonthOf(nowUnix)
    ensures var start := MonthStartMs(nowUnix);
            var today := CivilFromDays(nowUnix / DAY_SECS);
            start % (DAY_SECS * 1000) == 0 && CivilFromDays(start / (DAY_SECS * 1000)) == Date(today.year, today.month, 1)
  {
    hide CivilFromDays, MonthOf, MonthFirstMs, DaysFromCivil, IsLeap;
    var a, b := MonthOf(nowUnix), MonthOf(other);
    MonthStartBounds(nowUnix);
    MonthStartBounds(other);
    if a < b {
      MonthFirstMonotone(a, b);
    } else if b < a {
      MonthFirstMonotone(b, a);
      if b + 1 < a {
        MonthFirstMonotone(b + 1, a);
      }
    }
    if a + 1 < b {
      MonthFirstMonotone(a + 1, b);
    }
    var today := CivilFromDays(nowUnix / DAY_SECS);
    DayRoundTrip(nowUnix / DAY_SECS);
    var first := Date(today.year, today.month, 1);
    DateRoundTrip(first);
    DivIs(MonthStartMs(nowUnix), DAY_SECS * 1000, DaysFromCivil(first), 0);
  }
}
