# Fraud analytics front end: client-side analytics core

This project models the client-side analytics of a fraud-analytics web front end. The backend
sends transaction and customer records, and four pages turn them into what an analyst sees:

- **Transaction timeline** (`src/pages/BatchTimeline/BatchTimeline.tsx`):
  - `applyFilters` runs seven optional filter passes, then a stable descending sort by date,
    amount or fraud probability.
  - `resetFilters` clears the form.
  - `getDecision` and `getRiskColor` classify a fraud probability.
  - `groupByDate` folds the filtered records into per-day buckets, kept in first-seen order.
  - The page draws three charts over the last 30 buckets, scaled by the largest value (floored
    at 1). It shows a 100-row table, with a footer giving the full count when rows are cut.
  - `groupByDate` folds the list `applyFilters` has already ranked. The buckets therefore follow
    the ranking, not the calendar. Under the default ranking, newest first, the first bucket is
    the newest day, and `slice(-30)` draws the last 30 buckets of that order. With more than
    30 days, the newest day is never charted (`TimelinePage.NewestDayNotCharted`).
- **Customer profile** (`src/pages/CustomerAnalytics/CustomerAnalytics.tsx`): the fraud rate and
  its risk level and colour, four behavioural warnings, the risk-score badge, the amount bars and
  the 20-row history with its "show more" button.
- **Transaction analysis** (`src/pages/TransactionAnalysis/TransactionAnalysis.tsx`): the
  all/fraud/safe filter and its button counts, the probability colour, the decision badge colour
  and the 50-card window.
- **Dashboard** (`src/pages/Dashboard/Dashboard.tsx`): the KPI fallbacks, the trend bars (at least
  5% high), the average and peak of the enlarged chart, the top-10 risky customers and their
  device badge.

Modules:

- `Optional`, `Text` (`toLowerCase` and `includes`), `Sequences` (order-preserving selection),
  `Charts` (`Math.max` and bar heights) and `Windows` (`slice(0, n)`, `slice(-n)` and the "more
  rows" notices) are the shared helpers.
- `TimelineRecords`, `TimelineFilter`, `TimelineRank`, `TimelineBuckets`, `TimelineRisk` and
  `TimelinePage` model the timeline page. `TimelinePage` chains filtering, ranking and grouping
  as the page does.
- `CustomerAnalytics`, `TransactionAnalysis` and `Dashboard` model the other three pages.

The in-place parts of the timeline are imperative:

- The sort works on an `array`, by insertion, and is proved equal to the functional stable sort
  `Ranked`. `Ranked` is proved sorted, a permutation and stable. It is also proved to be the only
  arrangement with those three properties, so it is the result of any stable sort.
- `groupByDate` is a loop over a `map` plus an insertion-order list. It is proved equal to the
  functional `Timeline`. Lemmas about `Timeline` show that the buckets account for every
  filtered record, every fraudulent record and the whole amount.

## Model

| member | source | states |
|---|---|---|
| TimelineRecords.ResetFilters | src/pages/BatchTimeline/BatchTimeline.tsx:125-136 | after a reset no filter pass runs and the sort is by date |
| TimelineFilter.RunPass | src/pages/BatchTimeline/BatchTimeline.tsx:69-107 | one `if (box) filtered = filtered.filter(...)` step yields exactly the records passing that criterion; an empty box leaves the list as it is |
| TimelineFilter.WhereInactive | src/pages/BatchTimeline/BatchTimeline.tsx:69-107 | a pass whose box is empty keeps the list unchanged |
| TimelineFilter.FilterUpToAll | src/pages/BatchTimeline/BatchTimeline.tsx:66-107 | the seven passes run in sequence give the records that pass all seven criteria together |
| TimelineFilter.FilterPasses | src/pages/BatchTimeline/BatchTimeline.tsx:66-107 | the seven passes in the page's order yield `Select`, the records surviving every filter, in input order |
| TimelineFilter.ApplyFilters | src/pages/BatchTimeline/BatchTimeline.tsx:65-123 | the result is the survivors ranked by the chosen key; it is a permutation of the survivors, non-increasing in the key, and stable |
| TimelineFilter.SelectKeepsIff | src/pages/BatchTimeline/BatchTimeline.tsx:69-107 | a record appears in the result as often as in the input iff it passes every filter, and otherwise not at all |
| TimelineFilter.SelectIsSubsequence | src/pages/BatchTimeline/BatchTimeline.tsx:69-107 | the survivors are a subsequence of the input, so they keep its order; every kept record comes from the input and passes every criterion |
| TimelineFilter.SelectAllKept | src/pages/BatchTimeline/BatchTimeline.tsx:69-107 | when every record passes, filtering returns the input unchanged |
| TimelineFilter.NoCriteriaKeepsAll | src/pages/BatchTimeline/BatchTimeline.tsx:65-136 | with the reset form every record is kept and the sorted result is a permutation of the input |
| TimelineFilter.SelectIdempotent | src/pages/BatchTimeline/BatchTimeline.tsx:69-107 | filtering a filtered list again changes nothing |
| TimelineFilter.ApplyFiltersIdempotent | src/pages/BatchTimeline/BatchTimeline.tsx:65-123 | applying the same filters and sort to their own result changes nothing |
| TimelineFilter.StatusSplitsRecord | src/pages/BatchTimeline/BatchTimeline.tsx:89-93 | status "fraud" keeps a record iff status "all" would keep it and it is fraudulent; "safe" is the same for non-fraudulent records |
| TimelineFilter.StatusPartition | src/pages/BatchTimeline/BatchTimeline.tsx:89-93 | the "fraud" and "safe" results together are exactly the "all" result, as multisets |
| TimelineFilter.StatusSelects | src/pages/BatchTimeline/BatchTimeline.tsx:89-93 | "fraud" yields only fraudulent records and "safe" only non-fraudulent ones |
| TimelineFilter.DeviceQueryIgnoresCase | src/pages/BatchTimeline/BatchTimeline.tsx:96-100 | the device query gives the same result lower-cased; a record without a device model never matches a non-empty query |
| TimelineFilter.CustomerQueryIsCaseSensitive | src/pages/BatchTimeline/BatchTimeline.tsx:103-107 | the customer query is case-sensitive: "AB" matches customer "AB" and "ab" does not |
| TimelineFilter.BoundsInclusive | src/pages/BatchTimeline/BatchTimeline.tsx:69-86 | each date and amount bound is inclusive on its own: a record exactly on a set bound passes that pass, and one just beyond it fails |
| Text.LowerIdempotent | src/pages/BatchTimeline/BatchTimeline.tsx:98 | lower-casing twice is the same as lower-casing once |
| Text.IncludesIffOccurs | src/pages/BatchTimeline/BatchTimeline.tsx:98-105 | `includes` holds iff the query occurs at some index of the text |
| Text.IncludesIsCaseSensitive | src/pages/BatchTimeline/BatchTimeline.tsx:105 | `includes` alone distinguishes case |
| TimelineRank.InsertPermutes | src/pages/BatchTimeline/BatchTimeline.tsx:109-120 | inserting a record adds exactly that record to the multiset |
| TimelineRank.InsertKeepsSorted | src/pages/BatchTimeline/BatchTimeline.tsx:109-120 | inserting into a list that is non-increasing in the key keeps it non-increasing |
| TimelineRank.InsertWithKey | src/pages/BatchTimeline/BatchTimeline.tsx:109-120 | insertion places the record behind all records of equal key, which keep their order |
| TimelineRank.RankedPermutes | src/pages/BatchTimeline/BatchTimeline.tsx:109-120 | the sorted list is a permutation of its input |
| TimelineRank.RankedSorted | src/pages/BatchTimeline/BatchTimeline.tsx:109-120 | the sorted list is non-increasing in the key (the comparator `key(b) - key(a)`) |
| TimelineRank.RankedStable | src/pages/BatchTimeline/BatchTimeline.tsx:109-120 | records with equal keys keep their input order |
| TimelineRank.SortedStableUnique | src/pages/BatchTimeline/BatchTimeline.tsx:109-120 | two sorted arrangements that keep equal-key records in the same order are equal |
| TimelineRank.StableSortIsRanked | src/pages/BatchTimeline/BatchTimeline.tsx:109-120 | any sorted, stable arrangement of the input is exactly `Ranked`, so any stable sort gives the modelled result |
| TimelineRank.RankedOfSorted | src/pages/BatchTimeline/BatchTimeline.tsx:109-120 | sorting an already sorted list leaves it unchanged |
| TimelineRank.ShiftSmaller | src/pages/BatchTimeline/BatchTimeline.tsx:109-120 | shifts one slot right every trailing element of smaller key; it stops at the first one whose key is at least the record's |
| TimelineRank.InsertAt | src/pages/BatchTimeline/BatchTimeline.tsx:109-120 | after one in-place step the array is the record inserted into the prefix, followed by the untouched rest |
| TimelineRank.SortInPlace | src/pages/BatchTimeline/BatchTimeline.tsx:109-120 | the array is sorted in place into `Ranked` of its old contents |
| TimelineRisk.GetDecision | src/pages/BatchTimeline/BatchTimeline.tsx:152-157 | "N/A" iff the probability is missing or 0; otherwise BLOCK iff ≥ 0.85, REVIEW iff in [0.5, 0.85), APPROVE iff below 0.5 |
| TimelineRisk.ColorFollowsDecision | src/pages/BatchTimeline/BatchTimeline.tsx:145-157 | the probability colour is the decision's colour; two probabilities share a colour iff they share a decision |
| TimelineRisk.DecisionMonotone | src/pages/BatchTimeline/BatchTimeline.tsx:152-157 | a higher positive probability never gets a milder decision, and never "N/A" |
| TimelineRisk.DecisionEdges | src/pages/BatchTimeline/BatchTimeline.tsx:152-157 | 0 and a missing value give "N/A"; 0.5 and 0.85 belong to the higher band; a negative probability is approved |
| TimelineBuckets.CountRecord | src/pages/BatchTimeline/BatchTimeline.tsx:169-181 | one step of the fold: a new day gets an empty entry appended in insertion order; then the entry counts the record, its fraud flag, its amount and its device |
| TimelineBuckets.TallyStep | src/pages/BatchTimeline/BatchTimeline.tsx:168-182 | appending a record changes only the tally of its own day, by exactly that record |
| TimelineBuckets.FoldStep | src/pages/BatchTimeline/BatchTimeline.tsx:168-182 | each fold step keeps the map and the key order equal to the tallies and first-seen days of the records read so far |
| TimelineBuckets.EmitTimeline | src/pages/BatchTimeline/BatchTimeline.tsx:184-190 | `Object.entries(grouped).map(...)` over the finished fold is the timeline of the records |
| TimelineBuckets.GroupByDate | src/pages/BatchTimeline/BatchTimeline.tsx:160-191 | the loop over a map returns exactly `Timeline`, one bucket per day in first-seen order |
| TimelineBuckets.DaysAreRecordDays | src/pages/BatchTimeline/BatchTimeline.tsx:160-191 | a day has a bucket iff some record falls on it |
| TimelineBuckets.DaysDistinct | src/pages/BatchTimeline/BatchTimeline.tsx:160-191 | no day has two buckets |
| TimelineBuckets.DaysGrowAtTheEnd | src/pages/BatchTimeline/BatchTimeline.tsx:168-182 | reading more records only appends new days, so earlier buckets keep their places |
| TimelineBuckets.BucketsForAt | src/pages/BatchTimeline/BatchTimeline.tsx:184-190 | the bucket at each position is the tally of that position's day |
| TimelineBuckets.TimelineTotals | src/pages/BatchTimeline/BatchTimeline.tsx:160-191 | bucket counts sum to the number of records, fraud counts to the fraudulent records, amounts to the total amount |
| TimelineBuckets.BucketsForTotals | src/pages/BatchTimeline/BatchTimeline.tsx:160-191 | over distinct days, the bucket totals equal the totals of the records on those days |
| TimelineBuckets.TimelineBucketBounds | src/pages/BatchTimeline/BatchTimeline.tsx:160-191 | every bucket holds at least one record, and at most as many frauds and distinct devices as records |
| TimelineBuckets.FirstDayIsFirstRecord | src/pages/BatchTimeline/BatchTimeline.tsx:168-177 | the first day bucketed is the day of the first record of the list |
| TimelineBuckets.TimelineDates | src/pages/BatchTimeline/BatchTimeline.tsx:184-190 | bucket i carries the i-th first-seen day, and no two buckets share a date |
| TimelinePage.RenderTimeline | src/pages/BatchTimeline/BatchTimeline.tsx:65-193 | `timelineData` is `groupByDate` of the filtered list after it has been ranked |
| TimelinePage.PageTimelineCounts | src/pages/BatchTimeline/BatchTimeline.tsx:122-193 | the page's buckets count every record that survives the filters, whatever the ranking |
| TimelinePage.NewestDayFirst | src/pages/BatchTimeline/BatchTimeline.tsx:110-113 | ranked by date, the first record is the newest survivor and its day is the first bucket |
| TimelinePage.NewestDayNotCharted | src/pages/BatchTimeline/BatchTimeline.tsx:318 | ranked by date with more than 30 days, the 30 drawn buckets leave out every earlier bucket, the newest day among them |
| TimelinePage.BucketsNewestFirst | src/pages/BatchTimeline/BatchTimeline.tsx:110-193 | two records on different days, ranked by date, give the newer day's bucket first |
| TimelineBuckets.TableRecords | src/pages/BatchTimeline/BatchTimeline.tsx:415 | the table shows at most 100 records, a prefix of the filtered list, and all of them when there are at most 100 |
| TimelineBuckets.TableFooterIffCut | src/pages/BatchTimeline/BatchTimeline.tsx:415-461 | the footer appears iff the table drops records, and then the table holds exactly 100 of them, with the dropped ones making up the rest; the footer prints 100 and the full length n |
| TimelineBuckets.ChartBounds | src/pages/BatchTimeline/BatchTimeline.tsx:318-385 | each drawn bar is one of the last 30 buckets; the activity bar is within 0–100% and the device bar within 10–100% |
| TimelineBuckets.FraudRateBounds | src/pages/BatchTimeline/BatchTimeline.tsx:321 | each bar's fraud rate divides by a positive count and lies within 0–100% |
| TimelineBuckets.TimelineChartBounds | src/pages/BatchTimeline/BatchTimeline.tsx:318-385 | the timeline of any records satisfies the bounds above; with no negative amount the volume bar is within 0–100% |
| TimelineBuckets.DayAmountsNonNegative | src/pages/BatchTimeline/BatchTimeline.tsx:180 | with no negative amount, no day's total is negative |
| Charts.Peak | src/pages/CustomerAnalytics/CustomerAnalytics.tsx:237 | `Math.max` of a non-empty list is one of its values and at least every value |
| Charts.ScaleMax | src/pages/BatchTimeline/BatchTimeline.tsx:319 | `Math.max(..., 1)` is at least 1 and every value, and is either 1 or one of the values |
| Charts.ScaleMaxIsFlooredPeak | src/pages/BatchTimeline/BatchTimeline.tsx:319 | the chart scale is the peak floored at 1 |
| Charts.HeightBounds | src/pages/BatchTimeline/BatchTimeline.tsx:319-320 | with non-negative values a bar is within 0–100%, and a largest value of at least 1 fills its bar |
| Charts.HeightMonotone | src/pages/BatchTimeline/BatchTimeline.tsx:319-320 | a larger value never gets a lower bar |
| Charts.Rendered | src/pages/BatchTimeline/BatchTimeline.tsx:385 | `Math.max(height, floor)` is at least both and equals one of them |
| Windows.Take | src/pages/BatchTimeline/BatchTimeline.tsx:415 | `slice(0, n)` is a prefix of length min(length, n) |
| Windows.TakeLast | src/pages/BatchTimeline/BatchTimeline.tsx:318 | `slice(-n)` is a suffix of length min(length, n); `slice(-0)` is the whole list |
| Windows.TakeAndHidden | src/pages/CustomerAnalytics/CustomerAnalytics.tsx:322-324 | the notice `length > n` appears iff the prefix drops rows, and `length - n` is the number dropped |
| CustomerAnalytics.GetRiskLevel | src/pages/CustomerAnalytics/CustomerAnalytics.tsx:40-45 | low iff the rate is 0; medium iff non-zero and below 5; high iff in [5, 20); critical iff at least 20 |
| CustomerAnalytics.ColorFollowsLevel | src/pages/CustomerAnalytics/CustomerAnalytics.tsx:40-52 | the colour is the level's colour; two rates share a colour iff they share a level |
| CustomerAnalytics.LevelMonotone | src/pages/CustomerAnalytics/CustomerAnalytics.tsx:40-45 | for non-negative rates a higher rate never gets a lower level; 4.9 is medium and 5 is high |
| CustomerAnalytics.FraudRate | src/pages/CustomerAnalytics/CustomerAnalytics.tsx:78-80 | 0 with no transactions; otherwise rate × total = fraud × 100 |
| CustomerAnalytics.FraudRateBounds | src/pages/CustomerAnalytics/CustomerAnalytics.tsx:78-80 | with consistent counts the rate is within 0–100%, and the level is low iff there are no transactions or no frauds |
| CustomerAnalytics.Abs | src/pages/CustomerAnalytics/CustomerAnalytics.tsx:222 | `Math.abs` is non-negative and equals the value or its negation |
| CustomerAnalytics.WarningThresholds | src/pages/CustomerAnalytics/CustomerAnalytics.tsx:166-222 | the thresholds 3, 2 and 20 themselves do not warn; the frequency warning is symmetric and fires beyond ±0.5 |
| CustomerAnalytics.ScoreBadge | src/pages/CustomerAnalytics/CustomerAnalytics.tsx:302-306 | red iff the score is above 70, orange iff in (40, 70], green iff at most 40 |
| CustomerAnalytics.BarHeightBounds | src/pages/CustomerAnalytics/CustomerAnalytics.tsx:237-238 | no bar is above 100%; a non-negative amount's bar is not below 0; the largest positive amount fills its bar; with no positive amount every bar is 0 |
| CustomerAnalytics.History | src/pages/CustomerAnalytics/CustomerAnalytics.tsx:281 | the history is a prefix of at most 20 rows: the whole list or exactly 20 rows |
| CustomerAnalytics.ShowMore | src/pages/CustomerAnalytics/CustomerAnalytics.tsx:322-324 | the button's count is positive and, with the listed rows, makes up the whole history |
| CustomerAnalytics.ShowMoreIffCut | src/pages/CustomerAnalytics/CustomerAnalytics.tsx:322-324 | "show more" appears iff the listed history is cut |
| TransactionAnalysis.ShownKeepsIff | src/pages/TransactionAnalysis/TransactionAnalysis.tsx:62-66 | a card is listed as often as it occurs iff it matches the filter, and otherwise not at all |
| TransactionAnalysis.ShownMatch | src/pages/TransactionAnalysis/TransactionAnalysis.tsx:62-66 | every listed card matches the filter |
| TransactionAnalysis.ShownIsSubsequence | src/pages/TransactionAnalysis/TransactionAnalysis.tsx:62-66 | the list keeps the input's order |
| TransactionAnalysis.AllShowsEverything | src/pages/TransactionAnalysis/TransactionAnalysis.tsx:65 | filter "all" lists every transaction |
| TransactionAnalysis.ButtonCounts | src/pages/TransactionAnalysis/TransactionAnalysis.tsx:80-92 | the "fraud" and "safe" lists together are all transactions, as a multiset, and their counts sum to the "all" count |
| TransactionAnalysis.Cards | src/pages/TransactionAnalysis/TransactionAnalysis.tsx:105 | a prefix of the filtered list: all of it when at most 50 match, and exactly the first 50 otherwise |
| TransactionAnalysis.GetRiskColor | src/pages/TransactionAnalysis/TransactionAnalysis.tsx:46-51 | gray iff missing or 0; red iff ≥ 0.7; orange iff in [0.5, 0.7); green iff non-zero and below 0.5 |
| TransactionAnalysis.GetDecisionBadge | src/pages/TransactionAnalysis/TransactionAnalysis.tsx:53-60 | BLOCK, REVIEW and APPROVE get red, orange and green; gray iff the decision is none of the three |
| Dashboard.OrZero | src/pages/Dashboard/Dashboard.tsx:186-187 | the or-zero fallback is 0 for a missing figure and the figure otherwise |
| Dashboard.TrendBarBounds | src/pages/Dashboard/Dashboard.tsx:186-238 | every trend bar is at least 5%; with non-negative values at most 100%; a 0 value is exactly 5%; a largest value of at least 1 fills its bar |
| Dashboard.MissingCountIsZero | src/pages/Dashboard/Dashboard.tsx:186-194 | a point without a count is drawn like a point whose count is 0 |
| Dashboard.ModalSummary | src/pages/Dashboard/Dashboard.tsx:506-558 | the summary exists iff the trend is non-empty; its average times the number of days is the sum of the values; its peak is one of the values and at least every value |
| Dashboard.SummaryBounds | src/pages/Dashboard/Dashboard.tsx:506-572 | the average never exceeds the peak and is not negative for non-negative values; the chart scale is the peak floored at 1 |
| Dashboard.AverageBelowPeak | src/pages/Dashboard/Dashboard.tsx:512-518 | the sum over the number of days is at most the peak |
| Dashboard.PreventedLosses | src/pages/Dashboard/Dashboard.tsx:126 | a missing or zero prevented-losses figure falls back to the fraud amount, and any other value is shown as is |
| Dashboard.DisplayedMetrics | src/pages/Dashboard/Dashboard.tsx:137-161 | without model metrics every displayed metric is 0; otherwise they are shown as received |
| Dashboard.TopRisky | src/pages/Dashboard/Dashboard.tsx:276 | no rows for a missing list; otherwise a prefix of length min(length, 10) |
| Dashboard.DeviceBadgeIffNonZero | src/pages/Dashboard/Dashboard.tsx:296 | the device badge is shown iff the count is present and non-zero |

## Left out

- Fetching, authentication, routing, loading and error state, and React effects: these are I/O
  and rendering, outside the computed analytics.
- Locale formatting (`toLocaleString`, `toFixed`, `formatCurrency`, `formatPercent`) is
  presentation only. The calendar day `toLocaleDateString('ru-RU')` is the parameter `dayOf`.
- Date parsing and time zones: `transactionDateTime` and the date boxes are taken as already
  parsed integer timestamps, and `getTime()` differences as their integer differences.
- An unparseable amount bound: `parseFloat` returns NaN, and every comparison with NaN is false,
  so the code drops every record. The model takes the bounds as parsed numbers, so this path is
  not modelled.
- IEEE doubles are modelled as exact reals. Rounding, infinities and NaN (for example
  `Math.max()` of an empty amount list is −Infinity) are not modelled. The empty-list case of
  the customer chart's bars is a list with no bars, so it does not arise.
- `toLowerCase` is modelled for ASCII and the Russian alphabet (А–Я, Ё) only, not full Unicode
  case mapping.
- `Object.entries` order is taken to be insertion order. This holds for the `dd.mm.yyyy` day keys
  the page builds, but not for integer-like keys.
- `getDecisionBadge` looks decisions up in an object literal. Inherited keys such as
  `"constructor"` would return a non-string there; the model treats the table as a plain map.
- The model-quality metrics (precision, recall, F-beta, ROC-AUC) arrive from the backend and are
  only displayed. No confusion-matrix computation exists in these pages, so none is modelled.
- TimelineRank.SortInPlace: the engine's `Array.prototype.sort` algorithm is not modelled.
  Insertion sort stands in for it. `StableSortIsRanked` proves that every stable sort with this
  comparator gives the same result.
- The comparator's sign only is modelled, as a comparison of keys. Subtracting timestamps or
  amounts that overflow to infinity is not modelled.
- The model follows the code, including behaviours that look unintended:
  - the customer-id query is case-sensitive (`TimelineFilter.CustomerQueryIsCaseSensitive`);
  - a probability of exactly 0 shows "N/A" and a gray colour (`TimelineRisk.DecisionEdges`);
  - an unparseable amount bound is not skipped but drops everything (see above).
