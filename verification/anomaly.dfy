/** The anomaly engine: four independent detectors over a list of expenses
    (amount z-score, hour of day, same-day duplicates, per-category amount
    limits) whose findings are concatenated in that order. */
module Anomalies {
  import opened Sequences
  import opened Records
  import opened Results
  import opened Statistics
  import opened Calendar

  /** The threshold used when the request gives none. */
  const DefaultThreshold: real := 2.5

  /** `dto.threshold || 2.5`: an absent or zero threshold is replaced by the
      default; any other value is used as given. */
  function ResolveThreshold(t: Option<real>): (r: real)
    ensures r != 0.0
    ensures r == DefaultThreshold || (t.Some? && r == t.value)
    ensures t.Some? && t.value != 0.0 ==> r == t.value
    ensures (t.Some? ==> 1.0 <= t.value <= 5.0) ==> 1.0 <= r <= 5.0
  {
    if t.Some? && t.value != 0.0 then t.value else DefaultThreshold
  }

  /** A resolved threshold, passed in again, is kept as it is. */
  lemma ResolveThresholdIdempotent(t: Option<real>)
    ensures ResolveThreshold(Some(ResolveThreshold(t))) == ResolveThreshold(t)
  {
  }

  // ----- one pass over the expenses -----

  /** Runs a per-expense check over the expenses in order and concatenates
      what it reports (a `for … of` loop that pushes into one list). */
  function Scan(es: seq<Expense>, check: Expense -> seq<Anomaly>): seq<Anomaly>
  {
    if |es| == 0 then [] else Scan(es[..|es| - 1], check) + check(es[|es| - 1])
  }

  /** Everything a scan reports was reported for one of its expenses. */
  lemma {:induction false} ScanMember(es: seq<Expense>, check: Expense -> seq<Anomaly>, a: Anomaly)
    requires a in Scan(es, check)
    ensures exists e :: e in es && a in check(e)
    decreases |es|
  {
    var init := es[..|es| - 1];
    if a in Scan(init, check) {
      ScanMember(init, check, a);
      var e :| e in init && a in check(e);
      assert e in es;
    } else {
      assert es[|es| - 1] in es;
    }
  }

  /** A check that reports one anomaly, about the expense itself, exactly
      when p holds and nothing otherwise. */
  ghost predicate ReportsExactly(check: Expense -> seq<Anomaly>, p: Expense -> bool)
  {
    forall e :: |check(e)| == (if p(e) then 1 else 0) && (p(e) ==> check(e)[0].expense == e)
  }

  /** Such a scan flags exactly the expenses satisfying p, in input order. */
  lemma {:induction false} ScanFlagged(es: seq<Expense>, check: Expense -> seq<Anomaly>, p: Expense -> bool)
    requires ReportsExactly(check, p)
    ensures Flagged(Scan(es, check)) == Filter(es, p)
    decreases |es|
  {
    if |es| > 0 {
      var init, e := es[..|es| - 1], es[|es| - 1];
      ScanFlagged(init, check, p);
      FlaggedConcat(Scan(init, check), check(e));
    }
  }

  // ----- 1. amount: z-score against the mean -----

  function Abs(x: real): (r: real)
    ensures r >= 0.0 && (r == x || r == -x)
  {
    if x < 0.0 then -x else x
  }

  /** Whether the z-score |dev| / σ exceeds c, decided on squares: v = σ². */
  predicate ZExceeds(dev: real, v: real, c: real)
  {
    c < 0.0 || Sq(dev) > Sq(c) * v
  }

  /** `zScore > threshold * 1.5 ? 'high' : zScore > threshold * 1.2 ? 'medium' : 'low'`. */
  function AmountSeverity(dev: real, v: real, t: real): Severity
  {
    if ZExceeds(dev, v, 1.5 * t) then High
    else if ZExceeds(dev, v, 1.2 * t) then Medium
    else Low
  }

  /** The amount check for one expense, given the mean m and the variance v
      of all amounts. With v = 0 every amount equals the mean
      (AmountZeroSpread), the z-score is 0 / 0, which is NaN, and NaN exceeds
      no threshold. */
  function AmountCheck(e: Expense, m: real, v: real, t: real): (r: seq<Anomaly>)
  {
    var dev := e.amount - m;
    if v > 0.0 && ZExceeds(dev, v, t) then
      [Anomaly(e, UnusualAmount(e.amount), AmountSeverity(dev, v, t), SqrtOf(Sq(dev) / v))]
    else []
  }

  function AmountRule(m: real, v: real, t: real): Expense -> seq<Anomaly>
  {
    (e: Expense) => AmountCheck(e, m, v, t)
  }

  /** `detectAmountAnomalies`: population mean and variance of the amounts,
      then one check per expense; fewer than three expenses give nothing. */
  function AmountAnomalies(es: seq<Expense>, t: real): seq<Anomaly>
  {
    if |es| < 3 then []
    else
      var xs := Amounts(es);
      Scan(es, AmountRule(Mean(xs), Variance(xs), t))
  }

  lemma SqAbs(x: real)
    ensures Sq(Abs(x)) == Sq(x)
  {
    SqNegate(x);
  }

  lemma ProductSign(a: real, b: real)
    ensures a > 0.0 && b > 0.0 ==> a * b > 0.0
    ensures a <= 0.0 && b >= 0.0 ==> a * b <= 0.0
  {
    if a <= 0.0 && b >= 0.0 {
      assert (-a) * b >= 0.0;
    }
  }

  lemma SqStrict(x: real, y: real)
    requires x > y >= 0.0
    ensures Sq(x) > Sq(y)
  {
    calc {
      Sq(x);
      x * x;
    > { ProductSign(x - y, x); }
      y * x;
    >= { ProductSign(y - x, y); }
      y * y;
      Sq(y);
    }
  }

  /** Squaring keeps the order of non-negative reals. */
  lemma SqMonotone(x: real, y: real)
    requires x >= 0.0 && y >= 0.0
    ensures x > y <==> Sq(x) > Sq(y)
  {
    if x > y {
      SqStrict(x, y);
    } else if y > x {
      SqStrict(y, x);
    }
  }

  lemma SqProduct(a: real, b: real)
    ensures Sq(a * b) == Sq(a) * Sq(b)
  {
  }

  lemma ScalePositive(a: real, b: real, k: real)
    requires k > 0.0
    ensures a > b <==> a * k > b * k
  {
    ProductSign(a - b, k);
    assert a * k - b * k == (a - b) * k;
  }

  /** For a standard deviation σ > 0, comparing squares decides exactly
      whether the z-score |dev| / σ exceeds c. */
  lemma ZExceedsMeans(dev: real, sigma: real, c: real)
    requires sigma > 0.0
    ensures ZExceeds(dev, Sq(sigma), c) <==> Abs(dev) / sigma > c
  {
    var z := Abs(dev) / sigma;
    if c >= 0.0 {
      assert z * sigma == Abs(dev);
      SqMonotone(z, c);
      SqProduct(z, sigma);
      SqAbs(dev);
      SqPositive(sigma);
      ScalePositive(Sq(z), Sq(c), Sq(sigma));
    }
  }

  /** The square of the z-score is Sq(dev) / σ². */
  lemma ZSquared(dev: real, sigma: real)
    requires sigma > 0.0
    ensures Sq(sigma) > 0.0
    ensures Sq(dev) / Sq(sigma) == Sq(Abs(dev) / sigma)
  {
    var z := Abs(dev) / sigma;
    assert z * sigma == Abs(dev);
    SqProduct(z, sigma);
    SqAbs(dev);
    SqPositive(sigma);
  }

  /** The z-score of an expense, given the mean and standard deviation. */
  function ZAbove(m: real, sigma: real, t: real): Expense -> bool
  {
    (e: Expense) => sigma > 0.0 && Abs(e.amount - m) / sigma > t
  }

  /** With mean m and a standard deviation σ > 0 (v = σ²), the amount
      check flags exactly the expenses whose z-score exceeds t. */
  lemma {:induction false} AmountRuleFlags(es: seq<Expense>, m: real, v: real, sigma: real, t: real)
    requires sigma > 0.0 && Sq(sigma) == v
    ensures Flagged(Scan(es, AmountRule(m, v, t))) == Filter(es, ZAbove(m, sigma, t))
    decreases |es|
  {
    if |es| > 0 {
      var init, e := es[..|es| - 1], es[|es| - 1];
      AmountRuleFlags(init, m, v, sigma, t);
      FlaggedConcat(Scan(init, AmountRule(m, v, t)), AmountCheck(e, m, v, t));
      SqPositive(sigma);
      ZExceedsMeans(e.amount - m, sigma, t);
    }
  }

  /** For a standard deviation σ > 0 of the amounts (σ² is their variance),
      the amount detector flags exactly the expenses whose z-score
      |amount − mean| / σ exceeds the threshold, in input order. */
  lemma AmountFlagsHighZ(es: seq<Expense>, t: real, sigma: real)
    requires |es| >= 3 && sigma > 0.0 && Sq(sigma) == Variance(Amounts(es))
    ensures Flagged(AmountAnomalies(es, t)) == Filter(es, ZAbove(Mean(Amounts(es)), sigma, t))
  {
    AmountRuleFlags(es, Mean(Amounts(es)), Variance(Amounts(es)), sigma, t);
  }

  /** What the amount check reports about one expense, in terms of its
      z-score. */
  lemma AmountCheckGrade(e: Expense, m: real, sigma: real, t: real, a: Anomaly)
    requires sigma > 0.0 && a in AmountCheck(e, m, Sq(sigma), t)
    ensures var z := Abs(e.amount - m) / sigma;
            a.expense == e && a.reason == UnusualAmount(e.amount)
            && z > t
            && (a.severity == High <==> z > 1.5 * t)
            && (a.severity == Medium <==> !(z > 1.5 * t) && z > 1.2 * t)
            && a.score == SqrtOf(Sq(z))
  {
    var dev := e.amount - m;
    ZExceedsMeans(dev, sigma, t);
    ZExceedsMeans(dev, sigma, 1.5 * t);
    ZExceedsMeans(dev, sigma, 1.2 * t);
    ZSquared(dev, sigma);
  }

  /** Every amount anomaly has a z-score z above the threshold, severity high
      exactly when z > 1.5·t, medium exactly when 1.2·t < z ≤ 1.5·t, and
      score √(z²). */
  lemma AmountAnomalyGrade(es: seq<Expense>, t: real, sigma: real, a: Anomaly)
    requires |es| >= 3 && sigma > 0.0 && Sq(sigma) == Variance(Amounts(es))
    requires a in AmountAnomalies(es, t)
    ensures var z := Abs(a.expense.amount - Mean(Amounts(es))) / sigma;
            a.expense in es && a.reason == UnusualAmount(a.expense.amount)
            && z > t
            && (a.severity == High <==> z > 1.5 * t)
            && (a.severity == Medium <==> !(z > 1.5 * t) && z > 1.2 * t)
            && a.score == SqrtOf(Sq(z))
  {
    ScanMember(es, AmountRule(Mean(Amounts(es)), Sq(sigma), t), a);
    var e :| e in es && a in AmountCheck(e, Mean(Amounts(es)), Sq(sigma), t);
    AmountCheckGrade(e, Mean(Amounts(es)), sigma, t, a);
  }

  /** The amount check with zero variance reports nothing. */
  lemma {:induction false} AmountRuleSilent(es: seq<Expense>, m: real, t: real)
    ensures Scan(es, AmountRule(m, 0.0, t)) == []
    decreases |es|
  {
    if |es| > 0 {
      AmountRuleSilent(es[..|es| - 1], m, t);
    }
  }

  /** With zero variance every amount equals the mean (so each z-score is
      0 / 0) and nothing is flagged. */
  lemma AmountZeroSpread(es: seq<Expense>, t: real)
    requires |es| >= 3 && Variance(Amounts(es)) == 0.0
    ensures forall i :: 0 <= i < |es| ==> es[i].amount == Mean(Amounts(es))
    ensures AmountAnomalies(es, t) == []
  {
    ZeroVariance(Amounts(es));
    AmountRuleSilent(es, Mean(Amounts(es)), t);
  }

  /** Equal amounts are never flagged. */
  lemma EqualAmountsNotFlagged(es: seq<Expense>, t: real)
    requires forall i :: 0 <= i < |es| ==> es[i].amount == es[0].amount
    ensures AmountAnomalies(es, t) == []
  {
    if |es| >= 3 {
      var xs := Amounts(es);
      VarianceOfConstant(xs);
      AmountZeroSpread(es, t);
    }
  }

  // ----- 2. time: small hours -----

  /** `getHours()` in 0..4. */
  predicate AtNight(e: Expense)
  {
    HourOfDay(e.spentAt) < 5
  }

  function NightCheck(e: Expense): seq<Anomaly>
  {
    if AtNight(e) then [Anomaly(e, UnusualHour(HourOfDay(e.spentAt)), Low, Exact(1.5))] else []
  }

  /** `detectTimeAnomalies`. */
  function TimeAnomalies(es: seq<Expense>): seq<Anomaly>
  {
    Scan(es, NightCheck)
  }

  /** The time detector flags exactly the expenses made from midnight to
      5 AM, each low with score 1.5 and its hour, in input order. */
  lemma TimeFlagsNight(es: seq<Expense>)
    ensures Flagged(TimeAnomalies(es)) == Filter(es, AtNight)
    ensures forall a :: a in TimeAnomalies(es) ==>
              a.expense in es && a.severity == Low && a.score == Exact(1.5)
              && a.reason == UnusualHour(HourOfDay(a.expense.spentAt)) && 0 <= a.reason.hour < 5
  {
    ScanFlagged(es, NightCheck, AtNight);
    forall a | a in TimeAnomalies(es)
      ensures a.expense in es && a.severity == Low && a.score == Exact(1.5)
              && a.reason == UnusualHour(HourOfDay(a.expense.spentAt)) && 0 <= a.reason.hour < 5
    {
      ScanMember(es, NightCheck, a);
    }
  }

  // ----- 3. duplicates: same amount, description and day -----

  /** The duplicate key: amount, description and calendar day. */
  datatype DupKey = DupKey(amount: real, description: string, day: int)

  function KeyOf(e: Expense): DupKey
  {
    DupKey(e.amount, e.description, DayNumber(e.spentAt))
  }

  function KeysOf(es: seq<Expense>): set<DupKey>
  {
    set i | 0 <= i < |es| :: KeyOf(es[i])
  }

  lemma KeysOfSnoc(es: seq<Expense>, e: Expense)
    ensures KeysOf(es + [e]) == KeysOf(es) + {KeyOf(e)}
  {
    var t := es + [e];
    forall k | k in KeysOf(t)
      ensures k in KeysOf(es) + {KeyOf(e)}
    {
      var i :| 0 <= i < |t| && KeyOf(t[i]) == k;
      if i < |es| {
        assert t[i] == es[i];
      }
    }
    forall k | k in KeysOf(es)
      ensures k in KeysOf(t)
    {
      var i :| 0 <= i < |es| && KeyOf(es[i]) == k;
      assert t[i] == es[i];
    }
    assert t[|es|] == e;
  }

  function DuplicateOf(e: Expense): Anomaly
  {
    Anomaly(e, Duplicate(e.description, e.amount), Medium, Exact(2.0))
  }

  /** `detectDuplicates`: an expense whose key an earlier expense already
      has is reported; the first expense with a key is not. */
  function Duplicates(es: seq<Expense>): seq<Anomaly>
  {
    if |es| == 0 then []
    else
      var init, e := es[..|es| - 1], es[|es| - 1];
      Duplicates(init) + (if KeyOf(e) in KeysOf(init) then [DuplicateOf(e)] else [])
  }

  /** The loop of `detectDuplicates`, with its map from keys to the first
      expense seen with each key. */
  method DetectDuplicates(es: seq<Expense>) returns (r: seq<Anomaly>)
    ensures r == Duplicates(es)
  {
    var seen: map<DupKey, Expense> := map[];
    r := [];
    for i := 0 to |es|
      invariant r == Duplicates(es[..i])
      invariant seen.Keys == KeysOf(es[..i])
    {
      var key := KeyOf(es[i]);
      assert es[..i + 1] == es[..i] + [es[i]];
      KeysOfSnoc(es[..i], es[i]);
      if key in seen {
        r := r + [DuplicateOf(es[i])];
      } else {
        seen := seen[key := es[i]];
      }
    }
    assert es[..|es|] == es;
  }

  /** The duplicates reported for a prefix of the expenses are the first
      ones reported for the whole list. */
  lemma {:induction false} DuplicatesPrefix(es: seq<Expense>, n: nat)
    requires n <= |es|
    ensures Duplicates(es[..n]) <= Duplicates(es)
    decreases |es| - n
  {
    if n == |es| {
      assert es[..n] == es;
    } else {
      DuplicatesPrefix(es, n + 1);
      var p := es[..n + 1];
      assert p[..|p| - 1] == es[..n];
    }
  }

  /** Every expense whose key an earlier expense already has is reported in
      its turn: its report comes right after the reports of the expenses
      before it. An expense with a key not seen before adds no report. */
  lemma DuplicateReportedAt(es: seq<Expense>, i: nat)
    requires i < |es|
    ensures var k := |Duplicates(es[..i])|;
            KeyOf(es[i]) in KeysOf(es[..i]) ==>
              k < |Duplicates(es)| && Duplicates(es)[k] == DuplicateOf(es[i])
    ensures KeyOf(es[i]) !in KeysOf(es[..i]) ==> Duplicates(es[..i + 1]) == Duplicates(es[..i])
  {
    var p := es[..i + 1];
    assert p[..|p| - 1] == es[..i];
    DuplicatesPrefix(es, i + 1);
  }

  /** The number of duplicates is the number of expenses minus the number of
      distinct keys. */
  lemma {:induction false} DuplicateCount(es: seq<Expense>)
    ensures |Duplicates(es)| == |es| - |KeysOf(es)|
    decreases |es|
  {
    if |es| > 0 {
      var init, e := es[..|es| - 1], es[|es| - 1];
      assert es == init + [e];
      DuplicateCount(init);
      KeysOfSnoc(init, e);
    }
  }

  predicate DistinctKeys(es: seq<Expense>)
  {
    forall i, j :: 0 <= i < j < |es| ==> KeyOf(es[i]) != KeyOf(es[j])
  }

  /** Nothing is reported exactly when all keys are distinct. */
  lemma {:induction false} NoDuplicatesIffDistinct(es: seq<Expense>)
    ensures Duplicates(es) == [] <==> DistinctKeys(es)
    decreases |es|
  {
    if |es| > 0 {
      var init, e := es[..|es| - 1], es[|es| - 1];
      NoDuplicatesIffDistinct(init);
      if KeyOf(e) in KeysOf(init) {
        var j :| 0 <= j < |init| && KeyOf(init[j]) == KeyOf(e);
        assert KeyOf(es[j]) == KeyOf(es[|es| - 1]);
      } else if DistinctKeys(init) {
        forall i, j | 0 <= i < j < |es|
          ensures KeyOf(es[i]) != KeyOf(es[j])
        {
          if j < |es| - 1 {
            assert KeyOf(init[i]) != KeyOf(init[j]);
          } else {
            assert KeyOf(init[i]) in KeysOf(init);
          }
        }
      } else {
        var i, j :| 0 <= i < j < |init| && KeyOf(init[i]) == KeyOf(init[j]);
        assert KeyOf(es[i]) == KeyOf(es[j]);
      }
    }
  }

  /** Every duplicate report is medium with score 2.0, and its expense
      repeats the key of an earlier expense. */
  lemma {:induction false} DuplicatesRepeatKeys(es: seq<Expense>)
    ensures forall a :: a in Duplicates(es) ==>
              a.severity == Medium && a.score == Exact(2.0)
              && a.reason == Duplicate(a.expense.description, a.expense.amount)
              && exists i, j :: 0 <= j < i < |es| && es[i] == a.expense && KeyOf(es[j]) == KeyOf(es[i])
    decreases |es|
  {
    if |es| > 0 {
      var init, e := es[..|es| - 1], es[|es| - 1];
      DuplicatesRepeatKeys(init);
      forall a | a in Duplicates(es)
        ensures exists i, j :: 0 <= j < i < |es| && es[i] == a.expense && KeyOf(es[j]) == KeyOf(es[i])
      {
        if a in Duplicates(init) {
          var i, j :| 0 <= j < i < |init| && init[i] == a.expense && KeyOf(init[j]) == KeyOf(init[i]);
          assert es[i] == init[i] && es[j] == init[j];
        } else {
          var j :| 0 <= j < |init| && KeyOf(init[j]) == KeyOf(e);
          assert es[j] == init[j];
        }
      }
    }
  }

  // ----- 4. category: per-category limits -----

  /** `categoryThresholds[category]`: only food, transport and utilities
      have a limit. */
  function Ceiling(category: string): Option<real>
  {
    if category == "food" then Some(500000.0)
    else if category == "transport" then Some(300000.0)
    else if category == "utilities" then Some(2000000.0)
    else None
  }

  predicate OverCeiling(e: Expense)
    requires e.category.Some?
  {
    var c := Ceiling(e.category.value);
    c.Some? && e.amount > c.value
  }

  /** An amount under 1000 in shopping or entertainment. */
  predicate TooSmall(e: Expense)
    requires e.category.Some?
  {
    e.amount < 1000.0 && (e.category.value == "shopping" || e.category.value == "entertainment")
  }

  function MismatchCheck(e: Expense): seq<Anomaly>
  {
    if !IsTruthy(e.category) then []
    else
      var c := e.category.value;
      (if OverCeiling(e) then [Anomaly(e, HighForCategory(c, e.amount), Medium, Exact(2.5))] else [])
      + (if TooSmall(e) then [Anomaly(e, TooSmallForCategory(c, e.amount), Low, Exact(1.2))] else [])
  }

  predicate Mismatched(e: Expense)
  {
    IsTruthy(e.category) && (OverCeiling(e) || TooSmall(e))
  }

  /** `detectCategoryMismatches`. */
  function CategoryMismatches(es: seq<Expense>): seq<Anomaly>
  {
    Scan(es, MismatchCheck)
  }

  /** A category has a limit or counts for small amounts, never both, so an
      expense gets at most one category report. */
  lemma AtMostOneMismatch(e: Expense)
    ensures |MismatchCheck(e)| == if Mismatched(e) then 1 else 0
  {
    if IsTruthy(e.category) && OverCeiling(e) {
      var c := e.category.value;
      assert c == "food" || c == "transport" || c == "utilities";
      assert c != "shopping" && c != "entertainment";
    }
  }

  /** The category detector flags exactly the categorized expenses over
      their category's limit or too small for shopping or entertainment. */
  lemma MismatchFlags(es: seq<Expense>)
    ensures Flagged(CategoryMismatches(es)) == Filter(es, Mismatched)
    ensures forall a :: a in CategoryMismatches(es) ==>
              a.expense in es && IsTruthy(a.expense.category)
              && ((a.severity == Medium && a.score == Exact(2.5) && OverCeiling(a.expense)
                   && a.reason == HighForCategory(a.expense.category.value, a.expense.amount))
                  || (a.severity == Low && a.score == Exact(1.2) && TooSmall(a.expense)
                      && a.reason == TooSmallForCategory(a.expense.category.value, a.expense.amount)))
  {
    forall e
      ensures |MismatchCheck(e)| == (if Mismatched(e) then 1 else 0)
      ensures Mismatched(e) ==> MismatchCheck(e)[0].expense == e
    {
      AtMostOneMismatch(e);
    }
    ScanFlagged(es, MismatchCheck, Mismatched);
    forall a | a in CategoryMismatches(es)
      ensures a.expense in es && IsTruthy(a.expense.category)
              && ((a.severity == Medium && a.score == Exact(2.5) && OverCeiling(a.expense)
                   && a.reason == HighForCategory(a.expense.category.value, a.expense.amount))
                  || (a.severity == Low && a.score == Exact(1.2) && TooSmall(a.expense)
                      && a.reason == TooSmallForCategory(a.expense.category.value, a.expense.amount)))
    {
      ScanMember(es, MismatchCheck, a);
    }
  }

  // ----- all four -----

  /** `detectAnomalies`. */
  function DetectAnomalies(es: seq<Expense>, t: real): seq<Anomaly>
  {
    if |es| < 3 then []
    else AmountAnomalies(es, t) + TimeAnomalies(es) + Duplicates(es) + CategoryMismatches(es)
  }

  /** Which detector reports a reason: 0 amount, 1 time, 2 duplicate,
      3 category. */
  function Detector(r: Reason): nat
  {
    match r
    case UnusualAmount(_) => 0
    case UnusualHour(_) => 1
    case Duplicate(_, _) => 2
    case HighForCategory(_, _) => 3
    case TooSmallForCategory(_, _) => 3
  }

  predicate AllFrom(s: seq<Anomaly>, d: nat)
  {
    forall i :: 0 <= i < |s| ==> Detector(s[i].reason) == d
  }

  predicate DetectorOrdered(s: seq<Anomaly>)
  {
    forall i, j :: 0 <= i < j < |s| ==> Detector(s[i].reason) <= Detector(s[j].reason)
  }

  lemma OrderedAppend(s: seq<Anomaly>, d: nat, t: seq<Anomaly>)
    requires DetectorOrdered(s) && forall i :: 0 <= i < |s| ==> Detector(s[i].reason) <= d
    requires AllFrom(t, d)
    ensures DetectorOrdered(s + t)
    ensures forall i :: 0 <= i < |s + t| ==> Detector((s + t)[i].reason) <= d
  {
  }

  /** A detector's output: at most one report per expense, each about an
      input expense and all from detector d. */
  predicate PartOf(s: seq<Anomaly>, es: seq<Expense>, d: nat)
  {
    AllFrom(s, d) && |s| <= |es| && forall a :: a in s ==> a.expense in es
  }

  /** A scan whose check reports at most one anomaly per expense, about that
      expense and from detector d, is such an output. */
  lemma {:induction false} ScanPart(es: seq<Expense>, check: Expense -> seq<Anomaly>, d: nat)
    requires forall e :: |check(e)| <= 1 && AllFrom(check(e), d)
    requires forall e :: |check(e)| == 1 ==> check(e)[0].expense == e
    ensures PartOf(Scan(es, check), es, d)
    decreases |es|
  {
    if |es| > 0 {
      var init, e := es[..|es| - 1], es[|es| - 1];
      ScanPart(init, check, d);
      assert AllFrom(check(e), d);
      forall a | a in Scan(es, check)
        ensures a.expense in es
      {
        if a in Scan(init, check) {
          assert a.expense in init;
        }
      }
    }
  }

  lemma AmountPart(es: seq<Expense>, t: real)
    ensures PartOf(AmountAnomalies(es, t), es, 0)
  {
    if |es| >= 3 {
      ScanPart(es, AmountRule(Mean(Amounts(es)), Variance(Amounts(es)), t), 0);
    }
  }

  lemma TimePart(es: seq<Expense>)
    ensures PartOf(TimeAnomalies(es), es, 1)
  {
    ScanPart(es, NightCheck, 1);
  }

  lemma DuplicatePart(es: seq<Expense>)
    ensures PartOf(Duplicates(es), es, 2)
  {
    DuplicatesFromDuplicates(es);
    DuplicatesRepeatKeys(es);
  }

  lemma MismatchPart(es: seq<Expense>)
    ensures PartOf(CategoryMismatches(es), es, 3)
  {
    forall e
      ensures |MismatchCheck(e)| <= 1 && AllFrom(MismatchCheck(e), 3)
    {
      AtMostOneMismatch(e);
    }
    ScanPart(es, MismatchCheck, 3);
  }

  lemma {:induction false} DuplicatesFromDuplicates(es: seq<Expense>)
    ensures AllFrom(Duplicates(es), 2)
    ensures |Duplicates(es)| <= |es|
    decreases |es|
  {
    if |es| > 0 {
      DuplicatesFromDuplicates(es[..|es| - 1]);
    }
  }

  lemma PartsInOrder(a1: seq<Anomaly>, a2: seq<Anomaly>, a3: seq<Anomaly>, a4: seq<Anomaly>, es: seq<Expense>)
    requires PartOf(a1, es, 0) && PartOf(a2, es, 1) && PartOf(a3, es, 2) && PartOf(a4, es, 3)
    ensures var r := a1 + a2 + a3 + a4;
            DetectorOrdered(r) && |r| <= 4 * |es| && forall a :: a in r ==> a.expense in es
  {
    OrderedAppend([], 0, a1);
    assert [] + a1 == a1;
    OrderedAppend(a1, 1, a2);
    OrderedAppend(a1 + a2, 2, a3);
    OrderedAppend(a1 + a2 + a3, 3, a4);
  }

  /** Fewer than three expenses give no anomalies; otherwise the findings
      come grouped by detector, amount first and category last, at most one
      per detector and expense, and each is about an input expense. */
  lemma DetectAnomaliesShape(es: seq<Expense>, t: real)
    ensures var r := DetectAnomalies(es, t);
            (|es| < 3 ==> r == [])
            && DetectorOrdered(r)
            && |r| <= 4 * |es|
            && forall a :: a in r ==> a.expense in es
  {
    if |es| >= 3 {
      AmountPart(es, t);
      TimePart(es);
      DuplicatePart(es);
      MismatchPart(es);
      PartsInOrder(AmountAnomalies(es, t), TimeAnomalies(es), Duplicates(es), CategoryMismatches(es), es);
    }
  }
}
