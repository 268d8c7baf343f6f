/**
 * The dashboard's week-number helper (`getWeekNumber`), which numbers weeks
 * by the calendar-week rule of ISO 8601: weeks run Monday to Sunday and week 1
 * of a year is the week holding that year's first Thursday.
 *
 * Days are counted from 1970-01-01 (day 0, a Thursday) in the proleptic
 * Gregorian calendar, which is what JavaScript's UTC date arithmetic uses
 * for the years 100 and later. `Date.UTC` reads a year from 0 to 99 as
 * 1900 to 1999; that mapping is not modelled here.
 */
module IsoWeek {
  import Domain

  predicate IsLeap(y: int) {
    y % 4 == 0 && (y % 100 != 0 || y % 400 == 0)
  }

  function DaysInYear(y: int): (n: int)
    ensures 365 <= n <= 366
  {
    if IsLeap(y) then 366 else 365
  }

  function DaysInMonth(y: int, m: int): int
    requires 1 <= m <= 12
  {
    if m == 2 then (if IsLeap(y) then 29 else 28)
    else if m == 4 || m == 6 || m == 9 || m == 11 then 30
    else 31
  }

  /** Days of the year that lie before the first of month `m`. */
  function DaysBeforeMonth(y: int, m: int): int
    requires 1 <= m <= 12
  {
    [0, 31, 59, 90, 120, 151, 181, 212, 243, 273, 304, 334][m - 1]
      + (if m > 2 && IsLeap(y) then 1 else 0)
  }

  /** The day number of January 1 of year `y`: year lengths added up from 1970. */
  function JanFirst(y: int): int
    decreases if y < 1970 then 1970 - y else y - 1970
  {
    if y == 1970 then 0
    else if y > 1970 then JanFirst(y - 1) + DaysInYear(y - 1)
    else JanFirst(y + 1) - DaysInYear(y)
  }

  /** Consecutive New Years lie a year's length apart. */
  lemma JanFirstNext(y: int)
    ensures JanFirst(y + 1) == JanFirst(y) + DaysInYear(y)
  {
  }

  /** Leap years in `1 .. y-1` (a negative count before year 1). */
  function LeapYearsBefore(y: int): int {
    (y - 1) / 4 - (y - 1) / 100 + (y - 1) / 400
  }

  /** The day number of January 1 in closed form: 365 days a year plus one per leap year. */
  lemma {:induction false} JanFirstClosedForm(y: int)
    ensures JanFirst(y) == 365 * (y - 1970) + LeapYearsBefore(y) - LeapYearsBefore(1970)
    decreases if y < 1970 then 1970 - y else y - 1970
  {
    if y > 1970 {
      JanFirstClosedForm(y - 1);
      LeapYearsStep(y - 1);
    } else if y < 1970 {
      JanFirstClosedForm(y + 1);
      LeapYearsStep(y);
    }
  }

  lemma LeapYearsStep(y: int)
    ensures LeapYearsBefore(y + 1) == LeapYearsBefore(y) + (if IsLeap(y) then 1 else 0)
  {
    DivStep(y, 4);
    DivStep(y, 100);
    DivStep(y, 400);
    CenturyDivisibility(y);
  }

  /** A multiple of 100 is a multiple of 4, and a multiple of 400 one of 100. */
  lemma CenturyDivisibility(y: int)
    ensures y % 100 == 0 ==> y % 4 == 0
    ensures y % 400 == 0 ==> y % 100 == 0
  {
    if y % 100 == 0 {
      var q := y / 100;
      assert y == 4 * (25 * q);
      Domain.QuotientIs(y, 4, 25 * q);
    }
    if y % 400 == 0 {
      var q := y / 400;
      assert y == 100 * (4 * q);
      Domain.QuotientIs(y, 100, 4 * q);
    }
  }

  /** Going from `y - 1` to `y` raises the quotient by `k` exactly when `k` divides `y`. */
  lemma DivStep(y: int, k: int)
    requires k > 0
    ensures y / k - (y - 1) / k == if y % k == 0 then 1 else 0
  {
    var q, r := (y - 1) / k, (y - 1) % k;
    assert y == k * q + r + 1;
    if r == k - 1 {
      assert y == k * (q + 1);
      Domain.QuotientIs(y, k, q + 1);
    } else {
      Domain.QuotientIs(y, k, q);
    }
  }

  /** `getUTCDay`: 0 for Sunday, 1 for Monday, ..., 6 for Saturday. */
  function Weekday(day: int): (w: int)
    ensures 0 <= w < 7
  {
    (day + 4) % 7
  }

  /** A calendar date as `getFullYear`, `getMonth() + 1` and `getDate` report it. */
  datatype CivilDate = CivilDate(year: int, month: int, day: int)

  predicate ValidDate(d: CivilDate) {
    1 <= d.month <= 12 && 1 <= d.day <= DaysInMonth(d.year, d.month)
  }

  /** Days of the year before `d` (0 for January 1). */
  function DayOfYear0(d: CivilDate): (r: int)
    requires ValidDate(d)
    ensures 0 <= r < DaysInYear(d.year)
  {
    DaysBeforeMonth(d.year, d.month) + d.day - 1
  }

  /** `Date.UTC(year, month - 1, day)` as a day number. */
  function DayNumber(d: CivilDate): int
    requires ValidDate(d)
  {
    JanFirst(d.year) + DayOfYear0(d)
  }

  /** The Thursday of the Monday-to-Sunday week holding `day` (`+ 4 - dayNum`). */
  function ThursdayOf(day: int): (t: int)
    ensures Weekday(t) == 4 && day - 3 <= t <= day + 3
  {
    var dayNum := if Weekday(day) == 0 then 7 else Weekday(day);
    day + 4 - dayNum
  }

  /** `getUTCFullYear` of the Thursday, which is at most three days from `d`. */
  function ThursdayYear(d: CivilDate): (y: int)
    requires ValidDate(d)
    ensures JanFirst(y) <= ThursdayOf(DayNumber(d)) < JanFirst(y + 1)
  {
    var t := ThursdayOf(DayNumber(d));
    JanFirstNext(d.year);
    if t < JanFirst(d.year) then
      JanFirstNext(d.year - 1);
      d.year - 1
    else if t >= JanFirst(d.year + 1) then
      JanFirstNext(d.year + 1);
      d.year + 1
    else d.year
  }

  /**
   * `getWeekNumber`: shift to the Thursday of the date's week, then
   * `ceil((daysSinceNewYear + 1) / 7)` in that Thursday's year.
   */
  function WeekNumber(d: CivilDate): (w: int)
    requires ValidDate(d)
    ensures 1 <= w <= 53
  {
    var y := ThursdayYear(d);
    var sinceNewYear := ThursdayOf(DayNumber(d)) - JanFirst(y);
    JanFirstNext(y);
    (sinceNewYear + 1 + 6) / 7
  }

  // ---------------------------------------------------------------------
  // ISO 8601 calendar weeks, stated independently of the code above.

  /** The Monday that starts the week holding `day`. */
  function MondayOf(day: int): (m: int)
    ensures m <= day < m + 7 && Weekday(m) == 1
  {
    day - (Weekday(day) + 6) % 7
  }

  /** The first Thursday on or after `day`. */
  function ThursdayFrom(day: int): (t: int)
    ensures day <= t < day + 7 && Weekday(t) == 4
  {
    var w := Weekday(day);
    if w <= 4 then day + (4 - w) else day + (11 - w)
  }

  /** The first Thursday of year `y`. */
  function FirstThursday(y: int): (t: int)
    ensures JanFirst(y) <= t < JanFirst(y) + 7 && Weekday(t) == 4
  {
    ThursdayFrom(JanFirst(y))
  }

  /** The Monday that starts week 1 of year `y`. */
  function Week1Monday(y: int): int {
    MondayOf(FirstThursday(y))
  }

  /** `day` is in week `w` of ISO year `y`. */
  predicate InIsoWeek(day: int, y: int, w: int) {
    Week1Monday(y) <= MondayOf(day) < Week1Monday(y + 1)
    && MondayOf(day) == Week1Monday(y) + 7 * (w - 1)
  }

  /**
   * For a Thursday `t` of the year starting on day `jan1` (the next starting
   * on `nextJan1`), the code's count `ceil((t - jan1 + 1) / 7)` is one more
   * than the number of whole weeks since the year's first Thursday.
   */
  lemma ThursdayWeekIndex(t: int, jan1: int, nextJan1: int)
    requires Weekday(t) == 4 && jan1 <= t < nextJan1
    ensures ThursdayFrom(jan1) <= t < ThursdayFrom(nextJan1)
    ensures (t - ThursdayFrom(jan1)) % 7 == 0
    ensures (t - jan1 + 1 + 6) / 7 == (t - ThursdayFrom(jan1)) / 7 + 1
  {
    var ft := ThursdayFrom(jan1);
    var m := (t - ft) / 7;
    assert t - ft == 7 * m;
    assert (t - jan1 + 1 + 6) == 7 * (m + 1) + (ft - jan1);
  }

  /** A day whose Thursday falls in year `y` is in week `w` of `y`, `w` counted as the code does. */
  lemma IsoWeekOfThursday(day: int, y: int)
    requires JanFirst(y) <= ThursdayOf(day) < JanFirst(y + 1)
    ensures InIsoWeek(day, y, (ThursdayOf(day) - JanFirst(y) + 1 + 6) / 7)
  {
    var t := ThursdayOf(day);
    ThursdayWeekIndex(t, JanFirst(y), JanFirst(y + 1));
    assert MondayOf(day) == t - 3;
    assert Week1Monday(y) == FirstThursday(y) - 3;
    assert Week1Monday(y + 1) == FirstThursday(y + 1) - 3;
  }

  /** The week number is the ISO 8601 week of the date, in the ISO year of its Thursday. */
  lemma WeekNumberIsIso(d: CivilDate)
    requires ValidDate(d)
    ensures InIsoWeek(DayNumber(d), ThursdayYear(d), WeekNumber(d))
  {
    var y := ThursdayYear(d);
    assert WeekNumber(d) == (ThursdayOf(DayNumber(d)) - JanFirst(y) + 1 + 6) / 7;
    IsoWeekOfThursday(DayNumber(d), y);
  }

  /** Week-1 Mondays increase from year to year. */
  lemma {:induction false} Week1MondayMonotone(a: int, b: int)
    requires a <= b
    ensures Week1Monday(a) <= Week1Monday(b)
    decreases b - a
  {
    if a < b {
      JanFirstNext(a);
      Week1MondayMonotone(a + 1, b);
    }
  }

  /** A day lies in one ISO week only. */
  lemma IsoWeekOfDayUnique(day: int, y: int, w: int, y0: int, w0: int)
    requires InIsoWeek(day, y, w) && InIsoWeek(day, y0, w0)
    ensures y == y0 && w == w0
  {
    if y < y0 {
      Week1MondayMonotone(y + 1, y0);
    } else if y > y0 {
      Week1MondayMonotone(y0 + 1, y);
    }
  }

  /** The ISO year and week of a day are unique, so the week number is the only right answer. */
  lemma IsoWeekUnique(d: CivilDate, y: int, w: int)
    requires ValidDate(d)
    requires InIsoWeek(DayNumber(d), y, w)
    ensures y == ThursdayYear(d) && w == WeekNumber(d)
  {
    WeekNumberIsIso(d);
    IsoWeekOfDayUnique(DayNumber(d), y, w, ThursdayYear(d), WeekNumber(d));
  }

  /** Monday 2024-01-01 is in week 1 of 2024. */
  lemma FirstMondayOf2024()
    ensures ThursdayYear(CivilDate(2024, 1, 1)) == 2024 && WeekNumber(CivilDate(2024, 1, 1)) == 1
  {
    JanFirstClosedForm(2024);
    assert JanFirst(2024) == 19723;
    JanFirstNext(2024);
    assert DayNumber(CivilDate(2024, 1, 1)) == 19723;
    assert ThursdayOf(19723) == 19726;
  }

  /** Sunday 2023-01-01 is in week 52 of 2022. */
  lemma NewYear2023()
    ensures ThursdayYear(CivilDate(2023, 1, 1)) == 2022 && WeekNumber(CivilDate(2023, 1, 1)) == 52
  {
    JanFirstClosedForm(2023);
    assert JanFirst(2023) == 19358;
    JanFirstNext(2022);
    assert JanFirst(2022) == 18993;
    assert DayNumber(CivilDate(2023, 1, 1)) == 19358;
    assert ThursdayOf(19358) == 19355;
  }
}
