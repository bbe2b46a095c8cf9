/** The bucket keys of the prediction engine's `groupByPeriod` — `2024-W1`,
    `2024-03`, `2024` — and the JavaScript rule that decides in which order an
    object's keys are listed: keys that are array indices (canonical decimal
    numbers below 2³² − 1) first, in ascending numeric order, then the other
    keys in insertion order. */
module PeriodKeys {
  import opened Records
  import opened Calendar

  datatype Period = Week | Month | Year

  predicate IsDigit(c: char)
  {
    '0' <= c <= '9'
  }

  function DigitChar(d: nat): (c: char)
    requires d < 10
    ensures IsDigit(c)
  {
    "0123456789"[d]
  }

  function DigitValue(c: char): nat
    requires IsDigit(c)
  {
    (c as int) - ('0' as int)
  }

  /** `String(n)` for a natural number: its decimal digits, without leading
      zeros. */
  function NatString(n: nat): (s: string)
    ensures |s| >= 1
    ensures forall i :: 0 <= i < |s| ==> IsDigit(s[i])
    ensures s[0] == '0' ==> n == 0 && |s| == 1
    decreases n
  {
    if n < 10 then [DigitChar(n)] else NatString(n / 10) + [DigitChar(n % 10)]
  }

  /** The value of a string of decimal digits. */
  function ParseDigits(s: string): nat
    requires forall i :: 0 <= i < |s| ==> IsDigit(s[i])
  {
    if |s| == 0 then 0 else 10 * ParseDigits(s[..|s| - 1]) + DigitValue(s[|s| - 1])
  }

  /** Reading back the decimal digits of n gives n. */
  lemma {:induction false} ParseNatString(n: nat)
    ensures ParseDigits(NatString(n)) == n
    decreases n
  {
    if n >= 10 {
      var s := NatString(n);
      assert s[..|s| - 1] == NatString(n / 10);
      ParseNatString(n / 10);
    }
  }

  lemma NatStringInjective(a: nat, b: nat)
    requires NatString(a) == NatString(b)
    ensures a == b
  {
    ParseNatString(a);
    ParseNatString(b);
  }

  /** `String(n)` for an integer. */
  function IntString(n: int): (s: string)
    ensures |s| >= 1
  {
    if n < 0 then "-" + NatString(-n) else NatString(n)
  }

  lemma IntStringInjective(a: int, b: int)
    requires IntString(a) == IntString(b)
    ensures a == b
  {
    if a < 0 && b < 0 {
      assert NatString(-a) == IntString(a)[1..];
      NatStringInjective(-a, -b);
    } else if a >= 0 && b >= 0 {
      NatStringInjective(a, b);
    }
  }

  /** `String(n).padStart(2, '0')`. */
  function Pad2(n: nat): (s: string)
    ensures |s| >= 2
    ensures forall i :: 0 <= i < |s| ==> IsDigit(s[i])
    ensures n < 100 ==> |s| == 2 && ParseDigits(s) == n
  {
    ParseNatString(n);
    if n < 10 then "0" + NatString(n) else NatString(n)
  }

  /** The key of the bucket a day falls into (the date's calendar year, with
      the ISO week or the two-digit month). */
  function PeriodKey(period: Period, day: int): string
  {
    var d := CivilFromDays(day);
    match period
    case Week => IntString(d.year) + "-W" + IntString(WeekNumber(day))
    case Month => IntString(d.year) + "-" + Pad2(d.month)
    case Year => IntString(d.year)
  }

  /** The key of an expense's bucket. */
  function ExpenseKey(period: Period, e: Expense): string
  {
    PeriodKey(period, DayNumber(e.spentAt))
  }

  // ----- object key order -----

  const IndexLimit: nat := 4294967295

  /** The array index a property key denotes, if it is one: a canonical
      decimal number (no sign, no leading zero) below 2³² − 1. */
  function ArrayIndex(key: string): (r: Option<nat>)
    ensures r.Some? ==> r.value < IndexLimit && key == NatString(r.value)
  {
    if |key| > 0 && (forall i :: 0 <= i < |key| ==> IsDigit(key[i])) && (key[0] != '0' || |key| == 1)
       && ParseDigits(key) < IndexLimit
    then
      CanonicalDigits(key);
      Some(ParseDigits(key))
    else None
  }

  /** A canonical digit string is the decimal form of its value. */
  lemma {:induction false} CanonicalDigits(s: string)
    requires |s| > 0 && (forall i :: 0 <= i < |s| ==> IsDigit(s[i])) && (s[0] != '0' || |s| == 1)
    ensures NatString(ParseDigits(s)) == s
    decreases |s|
  {
    var init := s[..|s| - 1];
    if |init| > 0 {
      CanonicalDigits(init);
      var v := ParseDigits(init);
      var n := 10 * v + DigitValue(s[|s| - 1]);
      assert n / 10 == v && n % 10 == DigitValue(s[|s| - 1]);
      assert DigitChar(n % 10) == s[|s| - 1];
    } else {
      assert DigitChar(DigitValue(s[0])) == s[0];
    }
  }

  /** The decimal form of a number below 2³² − 1 is an array index. */
  lemma NatStringIsIndex(n: nat)
    requires n < IndexLimit
    ensures ArrayIndex(NatString(n)) == Some(n)
  {
    ParseNatString(n);
  }

  /** Week and month keys are never array indices: they contain a `-` after
      the year's digits. Year keys are exactly when the year is not
      negative. */
  lemma PeriodKeyIndex(period: Period, day: int)
    ensures var y := CivilFromDays(day).year;
            ArrayIndex(PeriodKey(period, day))
              == if period == Year && 0 <= y < IndexLimit then Some(y) else None
  {
    var key := PeriodKey(period, day);
    var y := CivilFromDays(day).year;
    if y < 0 {
      assert !IsDigit(key[0]);
    } else if period != Year {
      assert !IsDigit(key[|NatString(y)|]);
    } else if y < IndexLimit {
      NatStringIsIndex(y);
    } else {
      ParseNatString(y);
    }
  }

  lemma WeekKeyOf(day: int, y: int, w: int)
    requires CivilFromDays(day).year == y && WeekNumber(day) == w
    ensures PeriodKey(Week, day) == IntString(y) + "-W" + IntString(w)
  {
  }

  /** A year that starts on a Monday starts ISO week 1 on January 1. */
  lemma StartsOnMonday(y: int)
    requires WeekDay(YearStart(y)) == 1
    ensures var a := YearStart(y);
            CivilFromDays(a).year == y && IsoWeek(a) == 1 && IsoThursday(a) == a + 3
  {
    var a := YearStart(y);
    YearStartStep(y);
    YearOfDay(a, y);
    IsoWeekIn(a, y);
    assert CeilDiv(4, 7) == 1;
  }

  /** December 30 of a leap year that starts on a Monday is a Monday in ISO
      week 1 of the next year. */
  lemma LeapYearLastMonday(y: int)
    requires IsLeapYear(y) && WeekDay(YearStart(y)) == 1
    ensures var a := YearStart(y);
            CivilFromDays(a + 364).year == y && IsoWeek(a + 364) == 1 && IsoThursday(a + 364) == a + 367
  {
    var a := YearStart(y);
    var b := a + 364;
    YearStartStep(y);
    YearStartStep(y + 1);
    assert WeekDay(b) == 1 by { WeekDayShift(b, 52); }
    YearOfDay(b, y);
    IsoWeekIn(b, y + 1);
    assert CeilDiv(2, 7) == 1;
  }

  /** In a leap year that starts on a Monday, the first Monday (January 1)
      and the Monday 364 days later (December 30) are in different weeks —
      the second is in ISO week 1 of the next year — yet both get the key
      `<year>-W1`, because the key pairs the week with the date's own year.
      (Years 0 to 99 take their week from 19yy instead; see `Year0Week`.) */
  lemma WeekKeyCollision(y: int)
    requires IsLeapYear(y) && WeekDay(YearStart(y)) == 1
    requires y < 0 || 99 < y
    ensures var a, b := YearStart(y), YearStart(y) + 364;
            PeriodKey(Week, a) == PeriodKey(Week, b) == IntString(y) + "-W" + IntString(1)
            && IsoThursday(a) != IsoThursday(b)
  {
    var a, b := YearStart(y), YearStart(y) + 364;
    StartsOnMonday(y);
    LeapYearLastMonday(y);
    FirstMondayWeekNumber(y);
    LastMondayWeekNumber(y);
    WeekKeyOf(a, y, 1);
    WeekKeyOf(b, y, 1);
  }

  lemma FirstMondayWeekNumber(y: int)
    requires WeekDay(YearStart(y)) == 1 && (y < 0 || 99 < y)
    ensures WeekNumber(YearStart(y)) == 1
  {
    var a := YearStart(y);
    StartsOnMonday(y);
    YearStartStep(y);
    YearOfDay(a + 3, y);
  }

  lemma LastMondayWeekNumber(y: int)
    requires IsLeapYear(y) && WeekDay(YearStart(y)) == 1 && (y < 0 || 99 < y)
    ensures WeekNumber(YearStart(y) + 364) == 1
  {
    assert y + 1 < 0 || 99 < y + 1;
    LeapYearLastMonday(y);
    LastMondayThursday(y);
  }

  /** The Thursday after December 30 of such a year is in the next year. */
  lemma LastMondayThursday(y: int)
    requires IsLeapYear(y) && WeekDay(YearStart(y)) == 1
    ensures CivilFromDays(IsoThursday(YearStart(y) + 364)).year == y + 1
  {
    var a := YearStart(y);
    LeapYearLastMonday(y);
    YearStartStep(y);
    YearStartStep(y + 1);
    YearOfDay(a + 367, y + 1);
  }

  /** Day a, the day number YearStart(y), is January 1 of year y. */
  lemma YearStartDate(a: int, y: int)
    requires a == YearStart(y)
    ensures CivilFromDays(a) == Date(y, 1, 1)
  {
    var d := Date(y, 1, 1);
    assert ValidDate(d) && DaysFromCivil(d) == a;
    CivilRoundTrip(d);
  }

  /** January 1 of a year y from 0 to 99 (day a) gets the week number of
      January 1 of 1900 + y (day b). */
  lemma EarlyYearWeek(a: int, y: int, b: int)
    requires 0 <= y <= 99 && a == YearStart(y) && b == YearStart(y + 1900)
    ensures WeekNumber(a) == IsoWeek(b)
  {
    YearStartDate(a, y);
    assert UtcDay(a) == DaysFromCivil(Date(y + 1900, 1, 1)) == b;
  }

  /** January 1, 1900 (day b) was a Monday, in ISO week 1. */
  lemma Year1900Week(b: int)
    requires b == YearStart(1900)
    ensures IsoWeek(b) == 1
  {
    StartsOnMonday(1900);
  }

  lemma Year0IsoWeek(a: int)
    requires a == YearStart(0)
    ensures IsoWeek(a) == 52
  {
    Year0Saturday(a);
    YearStartStep(-1);
    IsoWeekIn(a, -1);
    assert CeilDiv(364, 7) == 52;
  }

  /** January 1 of year 0 (day a) was a Saturday. */
  lemma Year0Saturday(a: int)
    requires a == YearStart(0)
    ensures WeekDay(a) == 6 && IsoThursday(a) == a - 2
  {
    assert LeapCount(-1) == -1 && LeapCount(1969) == 477;
    assert a == -719528;
  }

  lemma Year0WeekNumber(a: int)
    requires a == YearStart(0)
    ensures WeekNumber(a) == 1
  {
    var b := YearStart(1900);
    EarlyYearWeek(a, 0, b);
    Year1900Week(b);
  }

  lemma Year0Key(a: int)
    requires a == YearStart(0)
    ensures PeriodKey(Week, a) == IntString(0) + "-W" + IntString(1)
  {
    YearStartDate(a, 0);
    Year0WeekNumber(a);
  }

  /** January 1 of year 0 (day a) is a Saturday in ISO week 52 of year −1,
      but its week number is that of January 1, 1900, a Monday in week 1, so
      its key is `0-W1`. */
  lemma Year0Week(a: int)
    requires a == YearStart(0)
    ensures CivilFromDays(a) == Date(0, 1, 1) && IsoWeek(a) == 52 && WeekNumber(a) == 1
            && PeriodKey(Week, a) == IntString(0) + "-W" + IntString(1)
  {
    YearStartDate(a, 0);
    Year0IsoWeek(a);
    Year0WeekNumber(a);
    Year0Key(a);
  }

  /** January 1 of year 100 (day a) was a Friday. */
  lemma Year100Friday(a: int)
    requires a == YearStart(100)
    ensures WeekDay(a) == 5 && IsoThursday(a) == a - 1
  {
    assert LeapCount(99) == 24 && LeapCount(1969) == 477;
    assert a == -683003;
  }

  /** The day before January 1 of year 100 (day a) is in year 99. */
  lemma Year99LastDay(a: int)
    requires a == YearStart(100)
    ensures CivilFromDays(a - 1).year == 99
  {
    YearStartStep(99);
    YearOfDay(a - 1, 99);
  }

  /** Day a, January 1 of year 100, is in ISO week 53 of year 99, the ISO
      week the week number is evidently meant to be. */
  lemma Year100IsoWeek(a: int)
    requires a == YearStart(100)
    ensures IsoWeek(a) == 53
  {
    Year100Friday(a);
    Year99LastDay(a);
    YearStartStep(99);
    IsoWeekIn(a, 99);
    assert CeilDiv(365, 7) == 53;
  }

  /** January 1, 1999 is 693 595 days after January 1 of year 100. */
  lemma Year100To1999(a: int, b: int)
    requires a == YearStart(100) && b == YearStart(1999)
    ensures b - a == 693595
  {
  }

  /** A day outside years 0 to 99 whose Thursday is in year 99, 693 596 days
      before January 1, 1999 (day b), gets week number −99085. */
  lemma Year99WeekNumber(n: int, b: int)
    requires !(0 <= CivilFromDays(n).year <= 99)
    requires CivilFromDays(IsoThursday(n)).year == 99
    requires b == YearStart(1999) && IsoThursday(n) == b - 693596
    ensures WeekNumber(n) == -99085
  {
    WeekNumberOf(n, IsoThursday(n), 99);
  }

  /** January 1 of year 100 (day a) is in year 100, and the Thursday of its
      week is in year 99. */
  lemma Year100Thursday(a: int)
    requires a == YearStart(100)
    ensures CivilFromDays(a).year == 100 && IsoThursday(a) == a - 1 && CivilFromDays(a - 1).year == 99
  {
    YearStartDate(a, 100);
    Year100Friday(a);
    Year99LastDay(a);
  }

  /** January 1, 2 and 3 of year 100 (days a to a + 2) share the Thursday
      0099-12-31, so all three get the week number −99085 and the key
      `100-W-99085`, outside the ISO range 1 to 53; the ISO week is 53. */
  lemma Year100Week(a: int)
    requires a == YearStart(100)
    ensures IsoWeek(a) == 53
    ensures forall n :: a <= n < a + 3 ==> WeekNumber(n) == -99085
    ensures forall n :: a <= n < a + 3 ==>
              PeriodKey(Week, n) == IntString(100) + "-W" + IntString(-99085)
  {
    Year100IsoWeek(a);
    forall n | a <= n < a + 3
      ensures WeekNumber(n) == -99085
      ensures PeriodKey(Week, n) == IntString(100) + "-W" + IntString(-99085)
    {
      Year100Days(a, n);
      WeekKeyOf(n, 100, -99085);
    }
  }

  /** January 2 and 3 of year 100 fall in the week of January 1. */
  lemma Year100Days(a: int, n: int)
    requires a == YearStart(100) && a <= n < a + 3
    ensures CivilFromDays(n).year == 100 && WeekNumber(n) == -99085
  {
    var b := YearStart(1999);
    Year100To1999(a, b);
    Year100Thursday(a);
    FridayWeek(a, n);
    YearStartStep(100);
    YearOfDay(n, 100);
    Year99WeekNumber(n, b);
  }

  /** The Friday a and the two days after it are in one week. */
  lemma FridayWeek(a: int, n: int)
    requires WeekDay(a) == 5 && a <= n < a + 3
    ensures IsoThursday(n) == IsoThursday(a)
  {
  }

  /** 2024 is such a year: 2024-01-01 and 2024-12-30 both get `2024-W1`. */
  lemma Year2024StartsOnMonday()
    ensures IsLeapYear(2024) && YearStart(2024) == 19723 && WeekDay(YearStart(2024)) == 1
  {
  }
}
