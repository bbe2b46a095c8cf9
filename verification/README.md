# ai-service analytic engines in Dafny

This project models the four rule-based engines of the ai-service expense
assistant:

- **Categorization.** It scores an expense description against a keyword table. Then it ranks the
  categories and returns the best one with up to three suggestions, or a
  fixed fallback.
- **Anomaly detection.** It flags expenses whose amount is far from the mean (z-score),
  expenses made between midnight and 5 a.m., repeated expenses (same amount,
  description and day), and amounts out of line with their category.
- **Spending prediction.** It groups expenses into week, month or year buckets, then
  totals each bucket. From those totals it predicts the next period's spend
  (`0.7·mean + 0.3·median`), classifies the trend by a least-squares slope,
  grades confidence by the coefficient of variation, and reports the last six
  buckets.
- **Budget alerts.** For each budget, it sums the in-range spending of the budget's
  category and raises a critical, danger or warning alert at 100 %, 80 % and
  50 % of the limit. It adds a projection warning when the spending rate, kept up to the end
  of the budget period, would exceed the limit.

Modules:

| file | module | contents |
|---|---|---|
| `sequences.dfy` | `Sequences` | left folds, `filter`, `slice(-k)`, concatenation of mapped lists |
| `records.dfy` | `Records` | `Option`, `Expense`, `Budget`, totals |
| `results.dfy` | `Results` | the result records the engines return (category result, anomaly, prediction, alert) |
| `calendar.dfy` | `Calendar` | UTC day numbers, hour of day, civil dates, ISO week |
| `statistics.dfy` | `Statistics` | min, max, mean, median, population variance, `Math.round`, least-squares slope |
| `text.dfy` | `Text` | `normalizeText` (lower case, NFD, mark removal, `đ`→`d`, trim) and `includes` |
| `categorization.dfy` | `Categorization`, `CategoryKeywords` | scoring, ranking, result, and the keyword table |
| `anomaly.dfy` | `Anomalies` | the four detectors and their concatenation |
| `period_keys.dfy` | `PeriodKeys` | bucket keys and JavaScript's property-key order |
| `prediction.dfy` | `Prediction` | grouping, totals, forecast |
| `budget_alerts.dfy` | `BudgetAlerts` | percentages with JavaScript's division by zero, tiers, projection |

JavaScript semantics are written out where they matter:

- `Math.round(x)` is `⌊x + 0.5⌋`.
- `x / 0` is ±Infinity or NaN, and every comparison with NaN is false.
- `Object.entries` lists keys that are array indices (such as year keys `"2024"`) first, in ascending order. Other keys follow in insertion order.
- The sort in categorization is stable.
- `simple-statistics`' `standardDeviation` is the population form.

Where the description of the system and its code disagree, the model follows the code:

- **Standard deviation.** It is the population standard deviation, not the sample one.
- **Year buckets.** They are listed in ascending year order, not in order of first appearance, because their keys are array indices.
- **Zero limit.** A budget with a zero limit is handled, not excluded. Any positive spend is "over budget" with an infinite percentage, and zero spend gives NaN and no alert.
- **Week keys.** A week key pairs the ISO week with the date's own calendar year. So 2024-01-01 and 2024-12-30 fall in different ISO weeks but share the key `2024-W1`. This is reproduced, not corrected: see `PeriodKeys.WeekKeyCollision`.
- **Years 0 to 99.** `getWeekNumber` calls `Date.UTC` twice, and `Date.UTC` reads years 0 to 99 as 1900 to 1999. The first call moves a date of a year 0 to 99 to the same month and day in 19yy, so its week number is that of the 19yy date, while the key keeps the true year (`PeriodKeys.Year0Week`). The second call builds January 1 of the Thursday's year. When that Thursday falls in a year 0 to 99, the count starts in 19yy, and the week number is zero or negative: January 1 to 3 of year 100 get the key `100-W-99085` (`PeriodKeys.Year100Week`, and the Findings below).

## Model

| member | source | states |
|---|---|---|
| Text.Trim | src/ai/engines/categorization.engine.ts:193 | the result is a contiguous slice of the input; only JavaScript white space was removed, and only from the two ends; the result neither starts nor ends with white space |
| Text.TrimPadding | src/ai/engines/categorization.engine.ts:193 | trimming ignores any white space padding added on either side |
| Text.Fold | src/ai/engines/categorization.engine.ts:189-192 | lower-casing, decomposing and dropping marks never lengthens the text, and every character of the result is left as it is by a second fold |
| Text.FoldConcat | src/ai/engines/categorization.engine.ts:189-192 | folding works character by character: fold(s + t) = fold(s) + fold(t) |
| Text.FoldIgnoresCase | src/ai/engines/categorization.engine.ts:189 | folding a lower-cased text gives the same as folding the original |
| Text.NormalizeIdempotent | src/ai/engines/categorization.engine.ts:187-194 | normalizing a normalized text changes nothing |
| Text.NormalizeIgnoresPadding | src/ai/engines/categorization.engine.ts:187-194 | leading and trailing white space does not change the normalized text |
| Text.NormalizeIgnoresCase | src/ai/engines/categorization.engine.ts:187-194 | upper and lower case spellings normalize alike |
| Categorization.KeywordScoreCountsMatches | src/ai/engines/categorization.engine.ts:148-155 | a category's score is the number of its keywords whose normalized form occurs in the normalized description |
| Categorization.KeywordScoreZero | src/ai/engines/categorization.engine.ts:148-155 | the score is zero exactly when no keyword occurs |
| Categorization.Scores | src/ai/engines/categorization.engine.ts:145-156 | the score list holds exactly one entry per category except `other`, in table order |
| Categorization.SortByScore | src/ai/engines/categorization.engine.ts:159-161 | the ranking is a permutation of the scored categories, ordered by score descending with ties in table order (a stable sort) |
| Categorization.Positive | src/ai/engines/categorization.engine.ts:160 | exactly the categories with a positive score remain, in their order |
| Categorization.Confidence | src/ai/engines/categorization.engine.ts:164 | a confidence is exactly min(0.3 × score, 0.95): never above 0.3 per matched keyword, never above 0.95, and equal to one of the two; so at least 0.3 for any match |
| Categorization.ConfidenceMonotone | src/ai/engines/categorization.engine.ts:164 | more matched keywords never give a lower confidence |
| Categorization.ConfidenceNotFallback | src/ai/engines/categorization.engine.ts:164-171 | no keyword score yields the fallback's confidence 0.5 |
| Categorization.Ranking | src/ai/engines/categorization.engine.ts:158-165 | the ranking holds exactly the positively scored categories, best first, ties in table order |
| Categorization.ResultSuggestions | src/ai/engines/categorization.engine.ts:180-184 | with a match, the category and confidence are those of the first ranked entry and the suggestions are the first min(3, n) ranked entries |
| Categorization.ResultNonIncreasing | src/ai/engines/categorization.engine.ts:159-165 | suggestion confidences never increase down the list |
| Categorization.CategorizeWith | src/ai/engines/categorization.engine.ts:140-185 | there are 1 to 3 suggestions, the first is the chosen category with its confidence, and the confidence is in [0.3, 0.95] |
| Categorization.FallbackIffNoMatch | src/ai/engines/categorization.engine.ts:167-178 | the fixed `other` / 0.5 / (other, shopping, food) answer comes back exactly when no keyword of any scored category occurs in the normalized description |
| Categorization.TopIsBest | src/ai/engines/categorization.engine.ts:159-182 | whenever some category matches, the chosen category has a score at least as high, and it is earlier in the table on a tie |
| Categorization.SuggestionsAreTheBest | src/ai/engines/categorization.engine.ts:159-183 | a matching category that is not suggested is outranked by all three suggestions |
| Categorization.SuggestionsNonIncreasing | src/ai/engines/categorization.engine.ts:159-183 | the suggested confidences are in non-increasing order |
| Categorization.OtherOnlyAsFallback | src/ai/engines/categorization.engine.ts:146 | `other` is never scored, so it is chosen only as the fallback |
| Categorization.NormalizedDescriptionSameResult | src/ai/engines/categorization.engine.ts:141 | categorizing an already normalized description gives the same result |
| CategoryKeywords.Categorize | src/ai/engines/categorization.engine.ts:6-185 | with the engine's own keyword table, the result has 1 to 3 suggestions headed by the chosen category and a confidence in [0.3, 0.95] |
| CategoryKeywords.CategorizeIgnoresAmount | src/ai/engines/categorization.engine.ts:140-185 | the expense amount never changes the result |
| Anomalies.ResolveThreshold | src/ai/ai.service.ts:93 | the threshold in use is never zero; it is either the given value or 2.5, the given value whenever it is non-zero; and a threshold within the request's bounds [1, 5] resolves to one within them |
| Anomalies.ResolveThresholdIdempotent | src/ai/ai.service.ts:93 | resolving an already resolved threshold leaves it unchanged |
| Anomalies.ScanFlagged | src/ai/engines/anomaly.engine.ts:56-74 | a per-expense detector reports exactly the expenses its rule accepts, in input order |
| Anomalies.ZExceedsMeans | src/ai/engines/anomaly.engine.ts:57-59 | the square-free comparison the model uses holds exactly when abs(amount − mean) / stdDev exceeds the threshold |
| Anomalies.AmountFlagsHighZ | src/ai/engines/anomaly.engine.ts:44-77 | for at least three expenses, the amount detector flags exactly the expenses whose z-score exceeds the threshold, in order |
| Anomalies.AmountAnomalyGrade | src/ai/engines/anomaly.engine.ts:57-72 | each amount anomaly has z > t; it is high iff z > 1.5t, medium iff 1.2t < z ≤ 1.5t, otherwise low; its score is the z-score |
| Anomalies.AmountZeroSpread | src/ai/engines/anomaly.engine.ts:53-59 | when the amounts have zero variance, all equal the mean and nothing is flagged (0/0 is NaN and never exceeds the threshold) |
| Anomalies.EqualAmountsNotFlagged | src/ai/engines/anomaly.engine.ts:53-59 | equal amounts are never amount anomalies |
| Anomalies.TimeFlagsNight | src/ai/engines/anomaly.engine.ts:79-98 | exactly the expenses spent before 05:00 are flagged, low, score 1.5, with their hour |
| Anomalies.DetectDuplicates | src/ai/engines/anomaly.engine.ts:100-120 | the loop with its `seen` map computes the duplicate list |
| Anomalies.DuplicateCount | src/ai/engines/anomaly.engine.ts:100-120 | the number of duplicates is the number of expenses minus the number of distinct (amount, description, day) keys |
| Anomalies.NoDuplicatesIffDistinct | src/ai/engines/anomaly.engine.ts:100-120 | no duplicate is reported exactly when all keys are distinct |
| Anomalies.DuplicatesRepeatKeys | src/ai/engines/anomaly.engine.ts:104-113 | every duplicate is medium, score 2.0, and repeats the key of an earlier expense |
| Anomalies.DuplicateReportedAt | src/ai/engines/anomaly.engine.ts:104-117 | each expense whose key an earlier expense has is reported right after the reports for the expenses before it; an expense with a new key adds no report |
| Anomalies.AtMostOneMismatch | src/ai/engines/anomaly.engine.ts:132-157 | an expense yields at most one mismatch; it yields one exactly when it is over its category ceiling or too small for shopping or entertainment |
| Anomalies.MismatchFlags | src/ai/engines/anomaly.engine.ts:122-160 | the expenses flagged are exactly the mismatched ones; ceiling breaches are medium, score 2.5, and tiny amounts are low, score 1.2 |
| Anomalies.DetectAnomaliesShape | src/ai/engines/anomaly.engine.ts:15-42 | fewer than three expenses give nothing; otherwise amount, time, duplicate and category anomalies follow in that order, at most four per expense, all about input expenses |
| Statistics.Mean | src/ai/engines/prediction.engine.ts:49 | the mean lies between the smallest and the largest value |
| Statistics.Median | src/ai/engines/prediction.engine.ts:50 | the median lies between the smallest and the largest value |
| Statistics.VarianceOfConstant | src/ai/engines/prediction.engine.ts:51 | equal values have their common value as mean and a variance of zero |
| Statistics.ZeroVariance | src/ai/engines/anomaly.engine.ts:54 | zero variance means every value equals the mean |
| Statistics.Round | src/ai/engines/prediction.engine.ts:69 | `Math.round(x)` is the integer r with r − 0.5 ≤ x < r + 0.5, so halves round up |
| Statistics.SlopeOfLine | src/ai/engines/prediction.engine.ts:124-131 | for points on a line a + b·i the least-squares slope is b |
| Statistics.SlopeOfTwo | src/ai/engines/prediction.engine.ts:124-131 | two points have slope second − first |
| Calendar.CivilRoundTrip | src/ai/engines/prediction.engine.ts:89-95 | converting a valid calendar date to its day number and back gives the same date |
| Calendar.HourOfDay | src/ai/engines/anomaly.engine.ts:84 | the hour is in [0, 24) and locates the instant within its day |
| Calendar.IsoWeek | src/ai/engines/prediction.engine.ts:112-115 | the ISO-8601 week number of a day is between 1 and 53 |
| Calendar.UtcYear | src/ai/engines/prediction.engine.ts:110 | `Date.UTC` changes a year exactly when it is 0 to 99, adding 1900, and never yields a year 0 to 99 |
| Calendar.UtcDay | src/ai/engines/prediction.engine.ts:109-111 | the rebuilt day is the day itself for years outside 0 to 99, and lies in year 19yy for a year yy from 0 to 99 |
| Calendar.CeilQuot | src/ai/engines/prediction.engine.ts:115 | `Math.ceil(n / d)` for any integer n, negative included: the least r with n ≤ d·r |
| Calendar.WeekNumber | src/ai/engines/prediction.engine.ts:108-116 | the week number is at most 53; it is at least 1 exactly when the Thursday of the `Date.UTC`-built day is outside years 0 to 99, and then it is that day's ISO week; for dates of years 0 to 99 it is the ISO week of the 19yy date; for a date and Thursday both outside 0 to 99 it is the date's own ISO week |
| Calendar.IsoWeekCountsFromFirstThursday | src/ai/engines/prediction.engine.ts:108-116 | the week number counts Thursdays: week w's Thursday is 7(w − 1) days after the first Thursday of that Thursday's year |
| Calendar.IsoWeekDeterminesWeek | src/ai/engines/prediction.engine.ts:108-116 | two days whose Thursdays share a year and a week number share their Thursday, so they lie in the same Monday-to-Sunday week |
| PeriodKeys.ParseNatString | src/ai/engines/prediction.engine.ts:89-95 | the decimal digits of a number read back as that number |
| PeriodKeys.Pad2 | src/ai/engines/prediction.engine.ts:92 | a month number below 100 is written with at least two digits that read back as the month |
| PeriodKeys.PeriodKeyIndex | src/ai/engines/prediction.engine.ts:86-97 | week and month keys are never array-index keys; a year key is one exactly when the year is in [0, 2³² − 1) |
| PeriodKeys.WeekKeyCollision | src/ai/engines/prediction.engine.ts:88-89 | in a leap year outside 0–99 starting on a Monday, January 1 and December 30 lie in different ISO weeks but get the same key `<year>-W1` |
| PeriodKeys.Year0Week | src/ai/engines/prediction.engine.ts:88-89 | January 1 of year 0 is in ISO week 52, yet `Date.UTC` reads year 0 as 1900, so its week number is 1 and its key is `0-W1` |
| PeriodKeys.EarlyYearWeek | src/ai/engines/prediction.engine.ts:109-111 | January 1 of a year y from 0 to 99 gets the week number of January 1 of 1900 + y |
| PeriodKeys.Year100Week | src/ai/engines/prediction.engine.ts:113-115 | January 1 to 3 of year 100 lie in ISO week 53, but their Thursday 0099-12-31 is counted from 1999-01-01, so each gets week −99085 and the key `100-W-99085` |
| Prediction.Considered | src/ai/engines/prediction.engine.ts:19-22 | without a truthy category all expenses are used; with one, every copy of each expense of that category is kept and no other expense |
| Prediction.ConsideredIdempotent | src/ai/engines/prediction.engine.ts:19-22 | narrowing to the same category a second time removes nothing more |
| Prediction.GroupKeys | src/ai/engines/prediction.engine.ts:82-103 | the buckets are created in the order the keys first occur |
| Prediction.GroupsAreFilters | src/ai/engines/prediction.engine.ts:99-102 | each bucket holds exactly the expenses with its key, in input order |
| Prediction.GroupTotalsSum | src/ai/engines/prediction.engine.ts:34-37 | the bucket totals add up to the total of all expenses |
| Prediction.PropertyOrder | src/ai/engines/prediction.engine.ts:35 | object enumeration is a permutation of the buckets: array-index keys ascending, then the other keys in insertion order |
| Prediction.IndexKeysFirst | src/ai/engines/prediction.engine.ts:35 | in enumeration order no array-index key follows a non-index key, and index keys ascend |
| Prediction.PropertyOrderTotal | src/ai/engines/prediction.engine.ts:35-37 | reordering keys does not change the sum of bucket totals |
| Prediction.NamedKeysKeepInsertionOrder | src/ai/engines/prediction.engine.ts:35 | when no key is an array index, enumeration is insertion order |
| Prediction.WeeksAndMonthsInInsertionOrder | src/ai/engines/prediction.engine.ts:76-106 | week and month buckets are listed in the order their keys first occur |
| Prediction.YearsAscending | src/ai/engines/prediction.engine.ts:94-95 | year buckets are listed in ascending year order |
| Prediction.BucketTotalsSum | src/ai/engines/prediction.engine.ts:34-37 | whatever the period, the listed bucket totals add up to the total of the expenses |
| Prediction.BucketsAreFilters | src/ai/engines/prediction.engine.ts:76-106 | every listed bucket holds exactly the expenses whose key is the bucket's key |
| Prediction.TrendOfLine | src/ai/engines/prediction.engine.ts:118-139 | for totals on a line with slope b, the trend is increasing iff b > 0.05, decreasing iff b < −0.05, stable otherwise |
| Prediction.TrendOfConstant | src/ai/engines/prediction.engine.ts:118-139 | constant totals have a stable trend |
| Prediction.TrendOfTwo | src/ai/engines/prediction.engine.ts:118-139 | with two buckets the trend follows the difference of their totals |
| Prediction.ConfidenceOf | src/ai/engines/prediction.engine.ts:141-159 | confidence is 0.3 for a single bucket and always in [0.1, 0.95] |
| Prediction.ConfidenceFallsWithSpread | src/ai/engines/prediction.engine.ts:148-158 | a larger standard deviation never raises the confidence |
| Prediction.ConfidenceGrowsWithBuckets | src/ai/engines/prediction.engine.ts:155-158 | more buckets never lower the confidence |
| Prediction.ConfidenceWithoutSpread | src/ai/engines/prediction.engine.ts:148-158 | with no spread and a positive mean, confidence is at least 0.75, and it is 0.95 from ten buckets on |
| Prediction.ConfidenceWithoutPositiveMean | src/ai/engines/prediction.engine.ts:149 | without a positive mean the variation counts as 1, so confidence rests on the bucket count alone and is at most 0.3 |
| Prediction.Forecast | src/ai/engines/prediction.engine.ts:39-73 | no buckets give the empty result; otherwise 1 to 6 breakdown entries and confidence in [0.1, 0.95] |
| Prediction.PredictSpending | src/ai/engines/prediction.engine.ts:13-74 | no considered expense gives prediction 0, stable, confidence 0 and no breakdown; otherwise 1 to 6 entries and confidence in [0.1, 0.95] |
| Prediction.PredictionWithinTotals | src/ai/engines/prediction.engine.ts:49-69 | the prediction lies between the rounded smallest and rounded largest bucket total |
| Prediction.SteadySpending | src/ai/engines/prediction.engine.ts:49-69 | equal bucket totals c predict round(c) with a stable trend |
| Prediction.SteadyConfidence | src/ai/engines/prediction.engine.ts:51-60 | with at least two equal bucket totals c and a square root mapping 0 to 0, confidence is at least 0.75 when c > 0 and at most 0.3 otherwise |
| Prediction.LastEntries | src/ai/engines/prediction.engine.ts:63-72 | the breakdown is the last min(n, 6) buckets, in order, each with its key and total |
| Prediction.BreakdownTotals | src/ai/engines/prediction.engine.ts:19-72 | each breakdown entry's amount is the total of the considered expenses whose key is that entry's period |
| BudgetAlerts.PercentOf | src/ai/engines/budget-alert.engine.ts:42 | with a non-zero limit the percentage times the limit is 100 × spent; with a zero limit it is +Infinity for positive spend and NaN for zero spend |
| BudgetAlerts.PercentReaches | src/ai/engines/budget-alert.engine.ts:45-93 | for a positive limit, comparing the percentage with t is comparing 100 × spent with t × limit |
| BudgetAlerts.SpendSnoc | src/ai/engines/budget-alert.engine.ts:26-41 | one more expense adds its amount to the spend exactly when it has the budget's category and falls within the dates, ends included |
| BudgetAlerts.SpendOfOthers | src/ai/engines/budget-alert.engine.ts:26-41 | expenses outside the budget do not change its spend |
| BudgetAlerts.DaysElapsed | src/ai/engines/budget-alert.engine.ts:109-112 | the day count is the smallest whole number of days covering the absolute distance between the two instants; it is zero only for equal instants |
| BudgetAlerts.DaysElapsedSymmetric | src/ai/engines/budget-alert.engine.ts:109-112 | the day count is the same whichever instant comes first |
| BudgetAlerts.TierAlert | src/ai/engines/budget-alert.engine.ts:44-74 | a tier alert is raised exactly when the percentage reaches 50; it carries the budget id, type equal to severity, and the rounded percentage |
| BudgetAlerts.TierBySpend | src/ai/engines/budget-alert.engine.ts:44-74 | for a positive limit: no tier alert below 50 %, critical from 100 %, danger from 80 % up to 100 %, warning from 50 % up to 80 % |
| BudgetAlerts.OverBudgetExample | src/ai/engines/budget-alert.engine.ts:45-54 | 1 200 000 spent of 1 000 000 is critical, 200 000 over, 120 % |
| BudgetAlerts.ProjectionAlert | src/ai/engines/budget-alert.engine.ts:76-103 | a projection alert needs a percentage strictly between 0 and 80 and positive elapsed and total days; it is a warning with the rounded current percentage |
| BudgetAlerts.ProjectedScales | src/ai/engines/budget-alert.engine.ts:88-91 | the projected percentage times the elapsed days is the current percentage times the total days |
| BudgetAlerts.ProjectionBySpend | src/ai/engines/budget-alert.engine.ts:77-100 | for a positive limit and positive day counts, the projection alert is raised exactly when 0 < spent, spent < 80 % of the limit, and spent × total days > limit × elapsed days |
| BudgetAlerts.NoProjectionAtOrAfterEnd | src/ai/engines/budget-alert.engine.ts:77-100 | once as many days have elapsed as the budget spans, no projection alert is raised |
| BudgetAlerts.ProjectionWithoutTierExample | src/ai/engines/budget-alert.engine.ts:77-100 | 300 000 of 1 000 000 after 5 of 30 days raises no tier alert but a projection of 180 % at 30 % |
| BudgetAlerts.BudgetAlerts | src/ai/engines/budget-alert.engine.ts:24-104 | a budget yields at most two alerts, all carrying its id and a type equal to the severity |
| BudgetAlerts.AlertsReportPercentage | src/ai/engines/budget-alert.engine.ts:53-99 | every alert reports the rounded current percentage, which is finite or +Infinity, never NaN |
| BudgetAlerts.TwoAlertsMeanWarningThenProjection | src/ai/engines/budget-alert.engine.ts:65-100 | a budget with two alerts has the 50 % warning followed by the projection warning |
| BudgetAlerts.ZeroLimit | src/ai/engines/budget-alert.engine.ts:42-54 | a zero limit gives one critical alert with infinite percentage and the whole spend as the overrun when something was spent, and no alert otherwise |
| BudgetAlerts.MirroredNow | src/ai/engines/budget-alert.engine.ts:78-81 | because elapsed days are an absolute distance, a current time d before the start gives the same alerts as d after it |
| BudgetAlerts.GenerateAlertsConcat | src/ai/engines/budget-alert.engine.ts:21-107 | the alerts of two budget lists are the alerts of each, one after the other |
| BudgetAlerts.GenerateOne | src/ai/engines/budget-alert.engine.ts:21-107 | the alerts of a single budget are that budget's alerts |
| BudgetAlerts.AlertsBelongToBudgets | src/ai/engines/budget-alert.engine.ts:21-107 | at most two alerts per budget, and every alert names one of the given budgets |

## Findings

| source | as written | input that shows it | evidently intended | confidence | as-written member | corrected member |
|---|---|---|---|---|---|---|
| src/ai/engines/prediction.engine.ts:114 | `Date.UTC(d.getUTCFullYear(), 0, 1)` reads a Thursday's year 0 to 99 as 19yy, so the week is counted from a January 1 about 1900 years later | 0100-01-01, 0100-01-02 or 0100-01-03: Thursday 0099-12-31, start 1999-01-01, week ⌈(−693 595) / 7⌉ = −99085, key `100-W-99085` | the ISO-8601 week of the day, 53 here, always in 1 to 53 | medium (not executed) | PeriodKeys.Year100Week | Calendar.IsoWeek |

`Calendar.WeekNumber` models the code as written, and the bucket keys use it, because the keys are what the engine returns. `Calendar.IsoWeek` is the intended week, proved to lie in 1 to 53. `WeekNumber` equals it for every date whose year and Thursday's year are outside 0 to 99.

## Left out

- Local time zone: instants are UTC milliseconds, and `getHours`, `getFullYear`, `getMonth`, `getDate` and `toDateString` are read in UTC. The host's time zone is configuration the model does not see.
- Invalid dates (`new Date("garbage")`, NaN instants) are not modelled; every instant is an integer.
- `new Date()` in the budget engine is the parameter `now`.
- Floating point: amounts and percentages are exact reals, so rounding error in sums, divisions and `* 0.3` is not modelled.
- Message strings and `toLocaleString('vi-VN')` formatting are not modelled. Anomaly reasons and alert messages are datatypes carrying the values the text prints.
- The rounded z-score shown in the amount-anomaly text is left out with the text.
- Square root: the anomaly detector compares squared z-scores, and the anomaly score is kept as the symbolic square root of z². The prediction engine's standard deviation comes from a `sqrt` parameter of `Forecast` and `PredictSpending`; every property stated about them holds for any such function.
- `simple-statistics` is not part of this model: its mean, median, population standard deviation and linear-regression slope are defined here directly.
- The `try`/`catch` around the regression is left out: the slope is defined for every input of two or more points.
- `normalize('NFD')` and `toLowerCase` cover ASCII, Latin-1 and the Vietnamese letters (Latin Extended-A/B and Latin Extended Additional), not all of Unicode.
- Duplicate-key strings: the key `${amount}-${description}-${date}` is modelled as the triple it is built from. Two different triples whose concatenated strings coincide (a description containing `-`) are treated as distinct.
- Object keys that collide with `Object.prototype` members (`__proto__` and similar) are not modelled.
- The NestJS service, controllers, DTO validation, message-queue clients and the chat integration are not part of this model, except the anomaly threshold default `dto.threshold || 2.5`.
- The `amounts.length === 0` check after grouping is not a separate path: a non-empty expense list always gives at least one bucket.
- Prediction.Forecast: the breakdown and prediction properties are stated by the separate lemmas above, not in its own contract.
