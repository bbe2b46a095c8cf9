/** Calendar arithmetic on integer instants (milliseconds since
    1970-01-01T00:00:00Z), proleptic Gregorian and UTC, as JavaScript's `Date`
    computes it: day numbers, hour of day, civil (year, month, day) dates,
    the week day, and the ISO-8601 week number of the prediction engine's
    `getWeekNumber`. */
module Calendar {

  const MsPerDay: int := 86400000
  const MsPerHour: int := 3600000

  /** ⌈n / d⌉ for n ≥ 0 (`Math.ceil(n / d)`). */
  function CeilDiv(n: nat, d: nat): (r: nat)
    requires d > 0
    ensures d * r >= n
    ensures r == 0 || d * (r - 1) < n
  {
    (n + d - 1) / d
  }

  /** The day of an instant, counted from 1970-01-01 (day 0). */
  function DayNumber(t: int): (d: int)
    ensures MsPerDay * d <= t < MsPerDay * (d + 1)
  {
    t / MsPerDay
  }

  /** `getHours()` in UTC: the hour h such that the instant lies in the h-th
      hour of its day. */
  function HourOfDay(t: int): (h: int)
    ensures 0 <= h < 24
    ensures MsPerDay * DayNumber(t) + MsPerHour * h <= t < MsPerDay * DayNumber(t) + MsPerHour * (h + 1)
  {
    (t % MsPerDay) / MsPerHour
  }

  predicate IsLeapYear(y: int)
  {
    y % 4 == 0 && (y % 100 != 0 || y % 400 == 0)
  }

  function YearLength(y: int): int
  {
    if IsLeapYear(y) then 366 else 365
  }

  /** Number of leap years among 1..y, shifted by a constant for y ≤ 0. */
  function LeapCount(y: int): int
  {
    y / 4 - y / 100 + y / 400
  }

  /** Day number of January 1 of year y. */
  function YearStart(y: int): int
  {
    365 * (y - 1970) + LeapCount(y - 1) - LeapCount(1969)
  }

  /** Going from y − 1 to y, ⌊y / d⌋ grows by one exactly at multiples of d,
      for the three divisors of the leap-year rule. */
  lemma DivStep4(y: int)
    ensures y / 4 - (y - 1) / 4 == if y % 4 == 0 then 1 else 0
  {
  }

  lemma DivStep100(y: int)
    ensures y / 100 - (y - 1) / 100 == if y % 100 == 0 then 1 else 0
  {
  }

  lemma DivStep400(y: int)
    ensures y / 400 - (y - 1) / 400 == if y % 400 == 0 then 1 else 0
  {
  }

  lemma YearStartStep(y: int)
    ensures YearStart(y + 1) == YearStart(y) + YearLength(y)
  {
    DivStep4(y);
    DivStep100(y);
    DivStep400(y);
    MultipleOf100(y);
    MultipleOf400(y);
  }

  lemma MultipleOf100(y: int)
    ensures y % 100 == 0 ==> y % 4 == 0
  {
    if y % 100 == 0 {
      var k := y / 100;
      assert y == 4 * (25 * k);
    }
  }

  lemma MultipleOf400(y: int)
    ensures y % 400 == 0 ==> y % 100 == 0
  {
    if y % 400 == 0 {
      var k := y / 400;
      assert y == 100 * (4 * k);
    }
  }

  lemma {:induction false} YearStartMonotone(a: int, b: int)
    requires a <= b
    ensures YearStart(a) + 365 * (b - a) <= YearStart(b)
    decreases b - a
  {
    if a < b {
      YearStartMonotone(a, b - 1);
      YearStartStep(b - 1);
    }
  }

  /** Walks from year y, `off` days after its January 1, to the year that
      contains that day. */
  function YearFrom(y: int, off: int): (r: (int, int))
    ensures 0 <= r.1 < YearLength(r.0)
    ensures YearStart(r.0) + r.1 == YearStart(y) + off
    decreases if off < 0 then 366 - off else off
  {
    if off < 0 then
      YearStartStep(y - 1);
      YearFrom(y - 1, off + YearLength(y - 1))
    else if off >= YearLength(y) then
      YearStartStep(y);
      YearFrom(y + 1, off - YearLength(y))
    else
      (y, off)
  }

  /** Days in the months before month m (1 ≤ m ≤ 13) of year y. */
  function MonthStart(y: int, m: int): int
    requires 1 <= m <= 13
  {
    [0, 31, 59, 90, 120, 151, 181, 212, 243, 273, 304, 334, 365][m - 1]
      + (if m >= 3 && IsLeapYear(y) then 1 else 0)
  }

  lemma MonthStartIncreasing(y: int, m1: int, m2: int)
    requires 1 <= m1 < m2 <= 13
    ensures MonthStart(y, m1) + 28 <= MonthStart(y, m2)
  {
  }

  function DaysInMonth(y: int, m: int): int
    requires 1 <= m <= 12
  {
    MonthStart(y, m + 1) - MonthStart(y, m)
  }

  /** The month, at or after m, whose days contain the day-of-year `doy`. */
  function MonthFrom(y: int, m: int, doy: int): (r: int)
    requires 1 <= m <= 12
    requires MonthStart(y, m) <= doy < YearLength(y)
    ensures m <= r <= 12
    ensures MonthStart(y, r) <= doy < MonthStart(y, r + 1)
    decreases 12 - m
  {
    if doy < MonthStart(y, m + 1) then m else MonthFrom(y, m + 1, doy)
  }

  datatype Date = Date(year: int, month: int, day: int)

  predicate ValidDate(d: Date)
  {
    1 <= d.month <= 12 && 1 <= d.day <= DaysInMonth(d.year, d.month)
  }

  /** `Date.UTC(y, m - 1, d)` in days. */
  function DaysFromCivil(d: Date): int
    requires 1 <= d.month <= 12
  {
    YearStart(d.year) + MonthStart(d.year, d.month) + d.day - 1
  }

  /** The civil date of a day number (`getFullYear`, `getMonth() + 1`,
      `getDate()` in UTC). */
  function CivilFromDays(n: int): (d: Date)
    ensures ValidDate(d)
    ensures DaysFromCivil(d) == n
  {
    var yd := YearFrom(1970, n);
    var m := MonthFrom(yd.0, 1, yd.1);
    Date(yd.0, m, yd.1 - MonthStart(yd.0, m) + 1)
  }

  /** Only one year contains a given day. */
  lemma YearUnique(n: int, y1: int, y2: int)
    requires YearStart(y1) <= n < YearStart(y1 + 1)
    requires YearStart(y2) <= n < YearStart(y2 + 1)
    ensures y1 == y2
  {
    if y1 < y2 {
      YearStartMonotone(y1 + 1, y2);
    } else if y2 < y1 {
      YearStartMonotone(y2 + 1, y1);
    }
  }

  /** A day lies in year y exactly when it is between y's January 1 and the
      next January 1. */
  lemma YearOfDay(n: int, y: int)
    requires YearStart(y) <= n < YearStart(y + 1)
    ensures CivilFromDays(n).year == y
  {
    var d := CivilFromDays(n);
    YearStartStep(d.year);
    YearUnique(n, d.year, y);
  }

  /** Only one month of a year contains a given day of the year. */
  lemma MonthUnique(y: int, m1: int, m2: int, doy: int)
    requires 1 <= m1 <= 12 && 1 <= m2 <= 12
    requires MonthStart(y, m1) <= doy < MonthStart(y, m1 + 1)
    requires MonthStart(y, m2) <= doy < MonthStart(y, m2 + 1)
    ensures m1 == m2
  {
    if m1 + 1 < m2 {
      MonthStartIncreasing(y, m1 + 1, m2);
    } else if m2 + 1 < m1 {
      MonthStartIncreasing(y, m2 + 1, m1);
    }
  }

  /** A valid date's day lies inside its year. */
  lemma DateInYear(d: Date)
    requires ValidDate(d)
    ensures YearStart(d.year) <= DaysFromCivil(d) < YearStart(d.year + 1)
  {
    YearStartStep(d.year);
    if d.month < 12 {
      MonthStartIncreasing(d.year, d.month + 1, 13);
    }
  }

  /** Civil dates and day numbers are in one-to-one correspondence. */
  lemma CivilRoundTrip(d: Date)
    requires ValidDate(d)
    ensures CivilFromDays(DaysFromCivil(d)) == d
  {
    var n := DaysFromCivil(d);
    var e := CivilFromDays(n);
    DateInYear(d);
    YearOfDay(n, d.year);
    MonthUnique(d.year, e.month, d.month, n - YearStart(d.year));
  }

  /** `getUTCDay()`: 0 is Sunday, 6 is Saturday; day 0 was a Thursday. */
  function WeekDay(n: int): (w: int)
    ensures 0 <= w < 7
  {
    (n + 4) % 7
  }

  /** The Thursday of the Monday-to-Sunday week containing day n
      (`d.setUTCDate(d.getUTCDate() + 4 - (d.getUTCDay() || 7))`). */
  function IsoThursday(n: int): (th: int)
    ensures WeekDay(th) == 4
    ensures n - 3 <= th <= n + 3
  {
    var wd := WeekDay(n);
    n + 4 - (if wd == 0 then 7 else wd)
  }

  /** The ISO-8601 week of day n. */
  function IsoWeek(n: int): (w: int)
    ensures 1 <= w <= 53
  {
    var th := IsoThursday(n);
    var startOfYear := YearStart(CivilFromDays(th).year);
    var dayOfYear := th - startOfYear;
    YearStartStep(CivilFromDays(th).year);
    CeilDiv(dayOfYear + 1, 7)
  }

  /** The year `Date.UTC` means by year y: it reads 0 to 99 as 1900 to 1999
      and every other year as itself. */
  function UtcYear(y: int): (r: int)
    ensures r == y <==> !(0 <= y <= 99)
    ensures r == y || r == y + 1900
    ensures r < 0 || 99 < r
  {
    if 0 <= y <= 99 then y + 1900 else y
  }

  /** ⌈n / d⌉ for any integer n (`Math.ceil(n / d)` on a negative n too). */
  function CeilQuot(n: int, d: int): (r: int)
    requires d > 0
    ensures d * (r - 1) < n <= d * r
  {
    -((-n) / d)
  }

  /** The day `Date.UTC(date.getFullYear(), date.getMonth(), date.getDate())`
      builds from day n: n itself, except that a date in a year 0 to 99 moves
      to the same month and day in 19yy (February 29 rolling over to
      March 1 when 19yy is not a leap year). */
  function UtcDay(n: int): (m: int)
    ensures var y := CivilFromDays(n).year;
            !(0 <= y <= 99) ==> m == n
    ensures var y := UtcYear(CivilFromDays(n).year);
            YearStart(y) <= m < YearStart(y + 1)
  {
    var d := CivilFromDays(n);
    var y := UtcYear(d.year);
    YearStartStep(y);
    DaysFromCivil(Date(y, d.month, d.day))
  }

  /** `getWeekNumber`: the Thursday of the week of `UtcDay(n)`, counted in
      weeks from January 1 of the year `Date.UTC` makes of that Thursday's
      year. That is the ISO-8601 week unless the Thursday falls in a year 0
      to 99 — the week of 0100-01-01, say, whose Thursday is 0099-12-31 —
      when the count starts at January 1 of 19yy, long after it, and the
      week number is zero or negative. */
  function WeekNumber(n: int): (w: int)
    ensures w <= 53
    ensures var ty := CivilFromDays(IsoThursday(UtcDay(n))).year;
            1 <= w <==> !(0 <= ty <= 99)
    ensures 1 <= w ==> w == IsoWeek(UtcDay(n))
    ensures var y := CivilFromDays(n).year;
            0 <= y <= 99 ==> w == IsoWeek(UtcDay(n))
    ensures var y, ty := CivilFromDays(n).year, CivilFromDays(IsoThursday(n)).year;
            !(0 <= y <= 99) && !(0 <= ty <= 99) ==> w == IsoWeek(n)
  {
    var m := UtcDay(n);
    var th := IsoThursday(m);
    var ty := CivilFromDays(th).year;
    ThursdayYearStart(th, ty);
    ThursdayNearYear(m, UtcYear(CivilFromDays(n).year));
    CeilQuot(th - YearStart(UtcYear(ty)) + 1, 7)
  }

  /** The week number of a day outside years 0 to 99 whose Thursday th is in
      year ty. */
  lemma WeekNumberOf(n: int, th: int, ty: int)
    requires !(0 <= CivilFromDays(n).year <= 99)
    requires th == IsoThursday(n) && ty == CivilFromDays(th).year
    ensures WeekNumber(n) == CeilQuot(th - YearStart(UtcYear(ty)) + 1, 7)
  {
  }

  /** Day th lies after its own year's January 1 and well before that of
      19yy when its year yy is 0 to 99. */
  lemma ThursdayYearStart(th: int, ty: int)
    requires ty == CivilFromDays(th).year
    ensures !(0 <= ty <= 99) ==> 0 <= th - YearStart(ty) < 366
    ensures 0 <= ty <= 99 ==> th - YearStart(UtcYear(ty)) < -7
  {
    DateInYear(CivilFromDays(th));
    YearStartStep(ty);
    if 0 <= ty <= 99 {
      YearStartMonotone(ty + 1, ty + 1900);
    }
  }

  /** The Thursday of a day of year y is in year y − 1, y or y + 1. */
  lemma ThursdayNearYear(m: int, y: int)
    requires YearStart(y) <= m < YearStart(y + 1)
    ensures y - 1 <= CivilFromDays(IsoThursday(m)).year <= y + 1
  {
    var th := IsoThursday(m);
    YearStartStep(y - 1);
    YearStartStep(y);
    YearStartStep(y + 1);
    if th < YearStart(y) {
      YearOfDay(th, y - 1);
    } else if th < YearStart(y + 1) {
      YearOfDay(th, y);
    } else {
      YearOfDay(th, y + 1);
    }
  }

  /** The ISO week of day n, counted from the start of its Thursday's year. */
  lemma IsoWeekIn(n: int, y: int)
    requires YearStart(y) <= IsoThursday(n) < YearStart(y + 1)
    ensures IsoWeek(n) == CeilDiv(IsoThursday(n) - YearStart(y) + 1, 7)
  {
    YearOfDay(IsoThursday(n), y);
  }

  /** Week w of its ISO year starts from the year's first Thursday: going back
      w − 1 weeks from the Thursday of n's week lands in the first seven days
      of the Thursday's year. */
  lemma IsoWeekCountsFromFirstThursday(n: int)
    ensures var th := IsoThursday(n);
            var y := CivilFromDays(th).year;
            YearStart(y) <= th - 7 * (IsoWeek(n) - 1) < YearStart(y) + 7
  {
  }

  /** Two days with the same ISO year and week number are in the same
      Monday-to-Sunday week. */
  lemma IsoWeekDeterminesWeek(n1: int, n2: int)
    requires CivilFromDays(IsoThursday(n1)).year == CivilFromDays(IsoThursday(n2)).year
    requires IsoWeek(n1) == IsoWeek(n2)
    ensures IsoThursday(n1) == IsoThursday(n2)
  {
    var th1, th2 := IsoThursday(n1), IsoThursday(n2);
    var w := IsoWeek(n1);
    IsoWeekCountsFromFirstThursday(n1);
    IsoWeekCountsFromFirstThursday(n2);
    var a, b := th1 - 7 * (w - 1), th2 - 7 * (w - 1);
    // a and b are both Thursdays within the same seven days
    WeekDayShift(th1, w - 1);
    WeekDayShift(th2, w - 1);
    WeekDayPeriodic(a, b);
  }

  lemma WeekDayShift(n: int, k: int)
    ensures WeekDay(n - 7 * k) == WeekDay(n)
  {
    assert (n - 7 * k + 4) == (n + 4) + 7 * (-k);
  }

  lemma WeekDayPeriodic(a: int, b: int)
    requires (a + 4) % 7 == (b + 4) % 7
    requires -7 < a - b < 7
    ensures a == b
  {
  }
}
