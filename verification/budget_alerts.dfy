/** The budget-alert generator: each budget's spend is the total of the
    expenses of its category inside its date range; the spend as a percentage
    of the limit picks at most one tier alert, and a linear projection of the
    spend to the end of the budget period may add a warning. The current
    instant `now` is a parameter. */
module BudgetAlerts {
  import opened Sequences
  import opened Records
  import opened Results
  import opened Statistics
  import Calendar

  // ----- the percentage -----

  /** A JavaScript number that comes out of a division: finite, or one of the
      values a division by zero gives. */
  datatype Percent = Finite(value: real) | PlusInfinity | MinusInfinity | NaN

  /** `(totalSpent / limitAmount) * 100`. */
  function PercentOf(spent: real, limit: real): (p: Percent)
    ensures p.Finite? <==> limit != 0.0
    ensures p.Finite? ==> p.value * limit == spent * 100.0
    ensures limit == 0.0 ==> (p == PlusInfinity <==> spent > 0.0) && (p == NaN <==> spent == 0.0)
  {
    if limit != 0.0 then Finite(spent / limit * 100.0)
    else if spent > 0.0 then PlusInfinity
    else if spent < 0.0 then MinusInfinity
    else NaN
  }

  /** `p >= t`: false for NaN. */
  predicate AtLeast(p: Percent, t: real)
  {
    match p
    case Finite(v) => v >= t
    case PlusInfinity => true
    case _ => false
  }

  /** `p < t`: false for NaN. */
  predicate Below(p: Percent, t: real)
  {
    match p
    case Finite(v) => v < t
    case MinusInfinity => true
    case _ => false
  }

  /** `p > t`: false for NaN. */
  predicate Above(p: Percent, t: real)
  {
    match p
    case Finite(v) => v > t
    case PlusInfinity => true
    case _ => false
  }

  /** `Math.round(p)`, where the generator takes it: of a finite percentage
      or of `Infinity`. */
  function RoundPercent(p: Percent): (r: RoundedPercent)
    requires p.Finite? || p == PlusInfinity
    ensures p.Finite? ==> r.Whole? && r.n as real - 0.5 <= p.value < r.n as real + 0.5
    ensures p == PlusInfinity ==> r == Infinity
  {
    if p.Finite? then Whole(Round(p.value)) else Infinity
  }

  /** With a positive limit, the percentage reaches t exactly when the spend
      reaches t per cent of the limit. */
  lemma PercentReaches(spent: real, limit: real, t: real)
    requires limit > 0.0
    ensures AtLeast(PercentOf(spent, limit), t) <==> spent * 100.0 >= t * limit
    ensures Below(PercentOf(spent, limit), t) <==> spent * 100.0 < t * limit
    ensures Above(PercentOf(spent, limit), t) <==> spent * 100.0 > t * limit
  {
    var v := PercentOf(spent, limit).value;
    assert v * limit == spent * 100.0;
    ScaleCompare(v, t, limit);
  }

  /** Multiplying by a positive factor keeps the order. */
  lemma ScaleCompare(a: real, b: real, c: real)
    requires c > 0.0
    ensures a >= b <==> a * c >= b * c
    ensures a > b <==> a * c > b * c
  {
    if a >= b {
      assert a * c - b * c == (a - b) * c;
    } else {
      assert b * c - a * c == (b - a) * c;
    }
  }

  // ----- the spend -----

  /** The budget filter: same category, and spent within [start, end]. */
  predicate InBudget(b: Budget, e: Expense)
  {
    e.category == Some(b.category) && b.startDate <= e.spentAt <= b.endDate
  }

  function InBudgetOf(b: Budget): Expense -> bool
  {
    (e: Expense) => InBudget(b, e)
  }

  /** `totalSpent`: the sum of the amounts of the budget's expenses. */
  function Spend(b: Budget, es: seq<Expense>): real
  {
    Total(Filter(es, InBudgetOf(b)))
  }

  /** One more expense adds its amount to a budget's spend exactly when it
      is of the budget's category and inside its date range. */
  lemma SpendSnoc(b: Budget, es: seq<Expense>, e: Expense)
    ensures Spend(b, es + [e]) == Spend(b, es) + if InBudget(b, e) then e.amount else 0.0
  {
    FilterSnoc(es, e, InBudgetOf(b));
    if InBudget(b, e) {
      TotalSnoc(Filter(es, InBudgetOf(b)), e);
    }
  }

  /** The expenses outside the budget do not change its spend. */
  lemma SpendOfOthers(b: Budget, es: seq<Expense>, others: seq<Expense>)
    requires forall e :: e in others ==> !InBudget(b, e)
    ensures Spend(b, es + others) == Spend(b, es)
  {
    FilterConcat(es, others, InBudgetOf(b));
    FilterNone(others, InBudgetOf(b));
    assert Filter(es, InBudgetOf(b)) + [] == Filter(es, InBudgetOf(b));
  }

  // ----- the day count -----

  function Abs(x: int): nat
  {
    if x < 0 then -x else x
  }

  /** `getDaysElapsed`: whole days between two instants, rounded up, in
      either order. */
  function DaysElapsed(from: int, to: int): (d: nat)
    ensures Calendar.MsPerDay * (d - 1) < Abs(to - from) <= Calendar.MsPerDay * d
    ensures d == 0 <==> from == to
  {
    Calendar.CeilDiv(Abs(to - from), Calendar.MsPerDay)
  }

  /** The day count does not depend on which instant comes first. */
  lemma DaysElapsedSymmetric(a: int, b: int)
    ensures DaysElapsed(a, b) == DaysElapsed(b, a)
  {
  }

  // ----- the alerts of one budget -----

  /** The tier alert: critical from 100 %, danger from 80 %, warning from
      50 %, none below. */
  function TierAlert(b: Budget, spent: real): (r: Option<Alert>)
    ensures var p := PercentOf(spent, b.limitAmount);
            (r.Some? <==> AtLeast(p, 50.0))
            && (r.Some? ==> r.value.budgetId == b.id && r.value.severity == r.value.alertType
                            && r.value.percentage == RoundPercent(p))
  {
    var p := PercentOf(spent, b.limitAmount);
    if AtLeast(p, 100.0) then
      Some(Alert(b.id, Critical, OverBudget(b.name, spent - b.limitAmount, RoundPercent(p)), Critical, RoundPercent(p)))
    else if AtLeast(p, 80.0) then
      Some(Alert(b.id, Danger, NearLimit(b.name, b.limitAmount - spent, Round(100.0 - p.value)), Danger, RoundPercent(p)))
    else if AtLeast(p, 50.0) then
      Some(Alert(b.id, Warning, Used(b.name, Round(p.value)), Warning, RoundPercent(p)))
    else None
  }

  /** The projection: the spend per elapsed day, times the days of the
      budget period, as a percentage of the limit. */
  function Projected(spent: real, limit: real, elapsed: nat, total: nat): real
    requires elapsed > 0 && limit != 0.0
  {
    spent / elapsed as real * total as real / limit * 100.0
  }

  /** The projection warning: while 0 % < spend < 100 % and both day counts
      are positive, a projected percentage above 100 warns when the spend is
      still below 80 %. */
  function ProjectionAlert(b: Budget, spent: real, now: int): (r: Option<Alert>)
    ensures var p := PercentOf(spent, b.limitAmount);
            r.Some? ==> Above(p, 0.0) && Below(p, 80.0)
                        && DaysElapsed(b.startDate, now) > 0 && DaysElapsed(b.startDate, b.endDate) > 0
                        && r.value.budgetId == b.id && r.value.alertType == Warning
                        && r.value.severity == Warning && r.value.message.ProjectedOver?
                        && r.value.percentage == RoundPercent(p)
  {
    var p := PercentOf(spent, b.limitAmount);
    if Below(p, 100.0) && Above(p, 0.0) then
      var elapsed := DaysElapsed(b.startDate, now);
      var total := DaysElapsed(b.startDate, b.endDate);
      if elapsed > 0 && total > 0 then
        var projected := Projected(spent, b.limitAmount, elapsed, total);
        if projected > 100.0 && Below(p, 80.0) then
          Some(Alert(b.id, Warning, ProjectedOver(b.name, Round(projected)), Warning, RoundPercent(p)))
        else None
      else None
    else None
  }

  function AsSeq(o: Option<Alert>): (s: seq<Alert>)
    ensures |s| <= 1
    ensures o.Some? <==> |s| == 1
    ensures o.Some? ==> s[0] == o.value
  {
    if o.Some? then [o.value] else []
  }

  /** The alerts of one budget: the tier alert, then the projection warning. */
  function BudgetAlerts(b: Budget, es: seq<Expense>, now: int): (r: seq<Alert>)
    ensures |r| <= 2
    ensures forall i :: 0 <= i < |r| ==> r[i].budgetId == b.id && r[i].severity == r[i].alertType
  {
    var spent := Spend(b, es);
    AsSeq(TierAlert(b, spent)) + AsSeq(ProjectionAlert(b, spent, now))
  }

  function AlertsFor(es: seq<Expense>, now: int): Budget -> seq<Alert>
  {
    (b: Budget) => BudgetAlerts(b, es, now)
  }

  /** `generateAlerts`: the alerts of every budget, budget by budget. */
  function GenerateAlerts(budgets: seq<Budget>, es: seq<Expense>, now: int): seq<Alert>
  {
    ConcatMap(budgets, AlertsFor(es, now))
  }

  // ----- properties -----

  /** Every alert reports the rounded percentage of the current spend, and
      its severity is its type. */
  lemma AlertsReportPercentage(b: Budget, es: seq<Expense>, now: int)
    ensures var r := BudgetAlerts(b, es, now);
            var p := PercentOf(Spend(b, es), b.limitAmount);
            forall i :: 0 <= i < |r| ==>
              (p.Finite? || p == PlusInfinity) && r[i].percentage == RoundPercent(p)
              && r[i].severity == r[i].alertType
  {
  }

  /** A budget gives at most two alerts; when it gives two, the first is the
      50 % tier warning and the second the projection warning. */
  lemma TwoAlertsMeanWarningThenProjection(b: Budget, es: seq<Expense>, now: int)
    ensures var r := BudgetAlerts(b, es, now);
            |r| == 2 ==> r[0].alertType == Warning && r[0].message.Used?
                         && r[1].alertType == Warning && r[1].message.ProjectedOver?
  {
    var spent := Spend(b, es);
    var r := BudgetAlerts(b, es, now);
    if |r| == 2 {
      var p := PercentOf(spent, b.limitAmount);
      assert TierAlert(b, spent).Some? && ProjectionAlert(b, spent, now).Some?;
      assert Below(p, 80.0) && AtLeast(p, 50.0);
    }
  }

  /** With a positive limit the tier follows the spend: critical from the
      limit on, danger from 80 % of it, warning from 50 %, none below. */
  lemma TierBySpend(b: Budget, spent: real)
    requires b.limitAmount > 0.0
    ensures var r, l := TierAlert(b, spent), b.limitAmount;
            (r.None? <==> spent * 100.0 < 50.0 * l)
            && (r.Some? && r.value.alertType == Critical <==> spent >= l)
            && (r.Some? && r.value.alertType == Danger <==> 80.0 * l <= spent * 100.0 && spent < l)
            && (r.Some? && r.value.alertType == Warning <==> 50.0 * l <= spent * 100.0 < 80.0 * l)
  {
    var l := b.limitAmount;
    PercentReaches(spent, l, 100.0);
    PercentReaches(spent, l, 80.0);
    PercentReaches(spent, l, 50.0);
  }

  /** A zero limit: positive spend gives one critical alert whose percentage
      is `Infinity`; no spend or negative spend gives no alert. */
  lemma ZeroLimit(b: Budget, es: seq<Expense>, now: int)
    requires b.limitAmount == 0.0
    ensures var spent := Spend(b, es);
            BudgetAlerts(b, es, now)
              == if spent > 0.0 then [Alert(b.id, Critical, OverBudget(b.name, spent, Infinity), Critical, Infinity)]
                 else []
  {
    var spent := Spend(b, es);
    assert ProjectionAlert(b, spent, now) == None;
  }

  /** The projected percentage is the current one scaled by the ratio of the
      period's days to the elapsed days. */
  lemma ProjectedScales(spent: real, limit: real, elapsed: nat, total: nat)
    requires elapsed > 0 && limit != 0.0
    ensures Projected(spent, limit, elapsed, total) * elapsed as real == PercentOf(spent, limit).value * total as real
  {
    var e, t := elapsed as real, total as real;
    var rate := spent / e;
    assert rate * e == spent;
    var v := PercentOf(spent, limit).value;
    calc {
      Projected(spent, limit, elapsed, total) * e;
      == rate * t / limit * 100.0 * e;
      == (rate * e) * t / limit * 100.0;
      == spent * t / limit * 100.0;
      == (spent / limit * 100.0) * t;
    }
  }

  lemma ScaledAtMost(q: real, v: real, e: real, t: real)
    requires e > 0.0 && v > 0.0 && t <= e && q * e == v * t
    ensures q <= v
  {
    ScaleCompare(e, t, v);
    ScaleCompare(q, v, e);
  }

  lemma ScaledAbove(spent: real, l: real, e: real, t: real, q: real, v: real)
    requires l > 0.0 && e > 0.0
    requires q * e == v * t && v * l == spent * 100.0
    ensures q > 100.0 <==> spent * t > l * e
  {
    ScaleCompare(q, 100.0, e);
    ScaleCompare(v * t, 100.0 * e, l);
    assert v * t * l == (v * l) * t;
    assert 100.0 * e * l == (l * e) * 100.0;
    ScaleCompare(spent * t, l * e, 100.0);
  }

  /** Once the elapsed days reach the days of the period, the projection is
      no more than the current percentage, so no projection warning fires. */
  lemma NoProjectionAtOrAfterEnd(b: Budget, spent: real, now: int)
    requires DaysElapsed(b.startDate, b.endDate) <= DaysElapsed(b.startDate, now)
    ensures ProjectionAlert(b, spent, now).None?
  {
    var p := PercentOf(spent, b.limitAmount);
    var elapsed := DaysElapsed(b.startDate, now);
    var total := DaysElapsed(b.startDate, b.endDate);
    if Below(p, 100.0) && Above(p, 0.0) && elapsed > 0 && total > 0 {
      ProjectedScales(spent, b.limitAmount, elapsed, total);
      ScaledAtMost(Projected(spent, b.limitAmount, elapsed, total), p.value, elapsed as real, total as real);
    }
  }

  /** With a positive limit and positive day counts, the projection warning
      fires exactly when 0 < spend < 80 % of the limit and the spend per
      elapsed day, kept up over the whole period, exceeds the limit. */
  lemma ProjectionBySpend(b: Budget, spent: real, now: int)
    requires b.limitAmount > 0.0
    requires DaysElapsed(b.startDate, now) > 0 && DaysElapsed(b.startDate, b.endDate) > 0
    ensures var e, t, l := DaysElapsed(b.startDate, now) as real, DaysElapsed(b.startDate, b.endDate) as real, b.limitAmount;
            (ProjectionAlert(b, spent, now).Some? <==> 0.0 < spent && spent * 100.0 < 80.0 * l && spent * t > l * e)
  {
    var l := b.limitAmount;
    var elapsed := DaysElapsed(b.startDate, now);
    var total := DaysElapsed(b.startDate, b.endDate);
    PercentReaches(spent, l, 100.0);
    PercentReaches(spent, l, 80.0);
    PercentReaches(spent, l, 0.0);
    ProjectedScales(spent, l, elapsed, total);
    ScaledAbove(spent, l, elapsed as real, total as real, Projected(spent, l, elapsed, total), PercentOf(spent, l).value);
  }

  /** `getDaysElapsed` takes the distance in either direction, so an instant
      d milliseconds before the budget starts projects like the instant d
      milliseconds after the start. */
  lemma MirroredNow(b: Budget, es: seq<Expense>, d: int)
    ensures BudgetAlerts(b, es, b.startDate - d) == BudgetAlerts(b, es, b.startDate + d)
  {
    assert DaysElapsed(b.startDate, b.startDate - d) == DaysElapsed(b.startDate, b.startDate + d);
  }

  /** The alerts of a list of budgets are those of its parts, in order. */
  lemma GenerateAlertsConcat(b1: seq<Budget>, b2: seq<Budget>, es: seq<Expense>, now: int)
    ensures GenerateAlerts(b1 + b2, es, now) == GenerateAlerts(b1, es, now) + GenerateAlerts(b2, es, now)
  {
    ConcatMapConcat(b1, b2, AlertsFor(es, now));
  }

  /** The alerts of one budget on its own. */
  lemma GenerateOne(b: Budget, es: seq<Expense>, now: int)
    ensures GenerateAlerts([b], es, now) == BudgetAlerts(b, es, now)
  {
    ConcatMapOne(b, AlertsFor(es, now));
  }

  /** At most two alerts per budget, and every alert names one of the
      budgets. */
  lemma AlertsBelongToBudgets(budgets: seq<Budget>, es: seq<Expense>, now: int)
    ensures var r := GenerateAlerts(budgets, es, now);
            |r| <= 2 * |budgets|
            && forall k :: 0 <= k < |r| ==> exists i :: 0 <= i < |budgets| && budgets[i].id == r[k].budgetId
  {
    var f := AlertsFor(es, now);
    var r := GenerateAlerts(budgets, es, now);
    ConcatMapLength(budgets, f, 2);
    forall k | 0 <= k < |r|
      ensures exists i :: 0 <= i < |budgets| && budgets[i].id == r[k].budgetId
    {
      ConcatMapOrigin(budgets, f, k);
      var i :| 0 <= i < |budgets| && r[k] in f(budgets[i]);
      var mine := BudgetAlerts(budgets[i], es, now);
      var j :| 0 <= j < |mine| && mine[j] == r[k];
      assert budgets[i].id == r[k].budgetId;
    }
  }

  /** Spending 1 200 000 against a limit of 1 000 000 is 120 %: one
      critical alert, 200 000 over. */
  lemma OverBudgetExample(b: Budget)
    requires b.limitAmount == 1000000.0
    ensures TierAlert(b, 1200000.0)
              == Some(Alert(b.id, Critical, OverBudget(b.name, 200000.0, Whole(120)), Critical, Whole(120)))
  {
    RoundOfInt(120);
  }

  /** Spending 300 000 of 1 000 000 after 5 of 30 days is 30 %, below every
      tier, but projects to 180 %: a projection warning alone. */
  lemma ProjectionWithoutTierExample(b: Budget, now: int)
    requires b.limitAmount == 1000000.0
    requires DaysElapsed(b.startDate, now) == 5 && DaysElapsed(b.startDate, b.endDate) == 30
    ensures TierAlert(b, 300000.0).None?
    ensures ProjectionAlert(b, 300000.0, now)
              == Some(Alert(b.id, Warning, ProjectedOver(b.name, 180), Warning, Whole(30)))
  {
    RoundOfInt(30);
    RoundOfInt(180);
    assert Projected(300000.0, 1000000.0, 5, 30) == 180.0;
  }
}
