/** The engines' result shapes (`CategoryResult`, `PredictionResult`,
    `Anomaly`, `Alert`). Human-readable texts are modelled by the values they
    print rather than by their localised wording. */
module Results {
  import opened Records

  datatype Suggestion = Suggestion(category: string, confidence: real)

  datatype CategoryResult = CategoryResult(
    category: string,
    confidence: real,
    suggestedCategories: seq<Suggestion>)

  datatype Trend = Increasing | Decreasing | Stable

  datatype PeriodTotal = PeriodTotal(period: string, amount: real)

  datatype PredictionResult = PredictionResult(
    prediction: int,
    trend: Trend,
    confidence: real,
    breakdown: seq<PeriodTotal>)

  datatype Severity = Low | Medium | High

  /** An anomaly score. The amount detector's z-score |a − μ| / σ is kept as
      `SqrtOf(z²)`, so that no square root has to be computed; the other
      detectors use fixed scores. */
  datatype Score = Exact(value: real) | SqrtOf(square: real)

  /** What each detector's reason text reports. */
  datatype Reason =
    | UnusualAmount(amount: real)
    | UnusualHour(hour: int)
    | Duplicate(description: string, amount: real)
    | HighForCategory(category: string, amount: real)
    | TooSmallForCategory(category: string, amount: real)

  datatype Anomaly = Anomaly(expense: Expense, reason: Reason, severity: Severity, score: Score)

  datatype AlertType = Info | Warning | Danger | Critical

  /** `Math.round` of a percentage an alert reports: a whole number, or
      `Infinity` when a budget with a zero limit has positive spend. */
  datatype RoundedPercent = Whole(n: int) | Infinity

  /** What each alert's message reports (all amounts and percentages as
      printed: percentages rounded with `Math.round`). */
  datatype AlertMessage =
    | OverBudget(name: string, overAmount: real, roundedOverPercentage: RoundedPercent)
    | NearLimit(name: string, remaining: real, roundedRemainingPercentage: int)
    | Used(name: string, roundedPercentage: int)
    | ProjectedOver(name: string, roundedProjectedPercentage: int)

  datatype Alert = Alert(
    budgetId: string,
    alertType: AlertType,
    message: AlertMessage,
    severity: AlertType,
    percentage: RoundedPercent)

  /** The expenses an anomaly list refers to, in order. */
  function Flagged(anomalies: seq<Anomaly>): (r: seq<Expense>)
    ensures |r| == |anomalies|
    ensures forall i :: 0 <= i < |r| ==> r[i] == anomalies[i].expense
  {
    seq(|anomalies|, i requires 0 <= i < |anomalies| => anomalies[i].expense)
  }

  lemma FlaggedConcat(a: seq<Anomaly>, b: seq<Anomaly>)
    ensures Flagged(a + b) == Flagged(a) + Flagged(b)
  {
  }
}
