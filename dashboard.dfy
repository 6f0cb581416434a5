/** The figures the dashboard derives from the statistics it receives
    (src/pages/Dashboard/Dashboard.tsx): the bars of the fraud and amount trend charts, the
    average and peak of the enlarged chart, the KPI fallbacks and the top-10 list of risky
    customers. All other numbers on the page are shown as received. */
module Dashboard {
  import opened Optional
  import Charts
  import Windows

  /** One day of a trend; either figure may be missing. */
  datatype TrendPoint = TrendPoint(date: string, count: Option<real>, amount: Option<real>)

  /** The model-quality figures, computed elsewhere and only displayed here. */
  datatype ModelMetrics = ModelMetrics(precision: real, recall: real, fbetaScore: real, rocAuc: real)

  datatype RiskyCustomer = RiskyCustomer(customerId: string, fraudRate: real, avgRiskScore: real, deviceChanges: Option<real>)

  /** `x || 0`: a missing figure (and 0 itself) reads as 0. */
  function OrZero(x: Option<real>): (r: real)
    ensures x.None? ==> r == 0.0
    ensures x.Some? ==> r == x.value
  {
    x.GetOr(0.0)
  }

  /** `trend.map(p => p.count || 0)` and `trend.map(p => p.amount || 0)`. */
  function Counts(trend: seq<TrendPoint>): (r: seq<real>)
    ensures |r| == |trend| && forall k :: 0 <= k < |trend| ==> r[k] == OrZero(trend[k].count)
  {
    seq(|trend|, k requires 0 <= k < |trend| => OrZero(trend[k].count))
  }

  function Amounts(trend: seq<TrendPoint>): (r: seq<real>)
    ensures |r| == |trend| && forall k :: 0 <= k < |trend| ==> r[k] == OrZero(trend[k].amount)
  {
    seq(|trend|, k requires 0 <= k < |trend| => OrZero(trend[k].amount))
  }

  /** The smallest height a trend bar is drawn with, in percent. */
  const MinBar: real := 5.0

  /** The drawn height of bar `i` of a trend chart whose values are `values`. */
  function TrendBar(values: seq<real>, i: int): real
    requires 0 <= i < |values|
  {
    Charts.Rendered(Charts.Height(values, i), MinBar)
  }

  /** Every bar is at least 5% high; with non-negative values none is higher than 100%, a
      bar of value 0 (a missing figure among them) is exactly 5%, and a largest value of at
      least 1 fills its bar. */
  lemma TrendBarBounds(values: seq<real>, i: int)
    requires 0 <= i < |values|
    requires forall k :: 0 <= k < |values| ==> values[k] >= 0.0
    ensures MinBar <= TrendBar(values, i) <= 100.0
    ensures values[i] == 0.0 ==> TrendBar(values, i) == MinBar
    ensures values[i] >= 1.0 && (forall k :: 0 <= k < |values| ==> values[k] <= values[i]) ==> TrendBar(values, i) == 100.0
  {
    Charts.HeightBounds(values, i);
  }

  /** A point without a count is drawn exactly like a point whose count is 0. */
  lemma MissingCountIsZero(trend: seq<TrendPoint>, i: int)
    requires 0 <= i < |trend| && trend[i].count.None?
    ensures TrendBar(Counts(trend), i) == TrendBar(Counts(trend[i := trend[i].(count := Some(0.0))]), i)
  {
    assert Counts(trend) == Counts(trend[i := trend[i].(count := Some(0.0))]);
  }

  function Sum(values: seq<real>): real {
    if values == [] then 0.0 else Sum(values[..|values| - 1]) + values[|values| - 1]
  }

  /** What the enlarged chart reports: the average per day and the peak day. */
  datatype Summary = Summary(average: real, peak: real)

  /** The summary is shown only for a non-empty trend: the sum over the number of days,
      and `Math.max` of the values with no floor. */
  function ModalSummary(values: seq<real>): (r: Option<Summary>)
    ensures r.None? <==> values == []
    ensures r.Some? ==> r.value.peak in values && forall k :: 0 <= k < |values| ==> values[k] <= r.value.peak
    ensures r.Some? ==> r.value.average * |values| as real == Sum(values)
  {
    if values == [] then None
    else Some(Summary(Sum(values) / |values| as real, Charts.Peak(values)))
  }

  lemma {:induction false} SumBelowPeak(values: seq<real>, peak: real)
    requires forall k :: 0 <= k < |values| ==> values[k] <= peak
    ensures Sum(values) <= |values| as real * peak
  {
    if values != [] {
      SumBelowPeak(values[..|values| - 1], peak);
    }
  }

  lemma {:induction false} SumNonNegative(values: seq<real>)
    requires forall k :: 0 <= k < |values| ==> values[k] >= 0.0
    ensures Sum(values) >= 0.0
  {
    if values != [] {
      SumNonNegative(values[..|values| - 1]);
    }
  }

  /** A total of at most `n` times `peak`, spread over `n`, is at most `peak`. */
  lemma ShareBelow(total: real, n: real, peak: real)
    requires n > 0.0 && total <= n * peak
    ensures total / n <= peak
  {
    Charts.DivideMonotone(total, n * peak, n);
    var q := n * peak / n;
    assert q * n == peak * n;
  }

  lemma {:induction false} AverageBelowPeak(values: seq<real>)
    requires values != []
    ensures Sum(values) / |values| as real <= Charts.Peak(values)
  {
    var peak, n, total := Charts.Peak(values), |values| as real, Sum(values);
    assert total <= n * peak by {
      SumBelowPeak(values, peak);
    }
    ShareBelow(total, n, peak);
  }

  lemma {:induction false} AverageNonNegative(values: seq<real>)
    requires values != []
    requires forall k :: 0 <= k < |values| ==> values[k] >= 0.0
    ensures Sum(values) / |values| as real >= 0.0
  {
    SumNonNegative(values);
    Charts.DivideMonotone(0.0, Sum(values), |values| as real);
  }

  /** The average never exceeds the peak, and is not negative for non-negative values. The
      peak can be below the bar scale: the scale is the peak floored at 1. */
  lemma SummaryBounds(values: seq<real>)
    requires values != []
    ensures ModalSummary(values).value.average <= ModalSummary(values).value.peak
    ensures (forall k :: 0 <= k < |values| ==> values[k] >= 0.0) ==> ModalSummary(values).value.average >= 0.0
    ensures Charts.ScaleMax(values) == Charts.Max(ModalSummary(values).value.peak, 1.0)
  {
    AverageBelowPeak(values);
    if forall k :: 0 <= k < |values| ==> values[k] >= 0.0 {
      AverageNonNegative(values);
    }
    Charts.ScaleMaxIsFlooredPeak(values);
  }

  /** `preventedLosses || fraudAmount`: a missing or zero figure falls back to the amount
      of fraud. */
  function PreventedLosses(preventedLosses: Option<real>, fraudAmount: real): (r: real)
    ensures preventedLosses.None? || preventedLosses.value == 0.0 ==> r == fraudAmount
    ensures preventedLosses.Some? && preventedLosses.value != 0.0 ==> r == preventedLosses.value
  {
    if preventedLosses.Some? && preventedLosses.value != 0.0 then preventedLosses.value else fraudAmount
  }

  /** `modelMetrics?.x || 0` for each displayed metric: all 0 when the metrics are missing. */
  function DisplayedMetrics(metrics: Option<ModelMetrics>): (r: ModelMetrics)
    ensures metrics.None? ==> r == ModelMetrics(0.0, 0.0, 0.0, 0.0)
    ensures metrics.Some? ==> r == metrics.value
  {
    match metrics
    case None => ModelMetrics(0.0, 0.0, 0.0, 0.0)
    case Some(m) => m
  }

  /** `topRiskyCustomers?.slice(0, 10)`: at most the first ten, none when the list is
      missing. */
  const TopCustomers: nat := 10

  function TopRisky(customers: Option<seq<RiskyCustomer>>): (r: seq<RiskyCustomer>)
    ensures customers.None? ==> r == []
    ensures customers.Some? ==> r <= customers.value && |r| == if |customers.value| <= TopCustomers then |customers.value| else TopCustomers
  {
    match customers
    case None => []
    case Some(cs) => Windows.Take(cs, TopCustomers)
  }

  /** `customer.deviceChanges ? ... : ...`: the device badge of a risky customer is shown
      only for a present, non-zero count. */
  predicate ShowsDeviceBadge(c: RiskyCustomer) {
    c.deviceChanges.Some? && c.deviceChanges.value != 0.0
  }

  /** The badge is shown exactly when the count would not read as 0 under `|| 0`. */
  lemma DeviceBadgeIffNonZero(c: RiskyCustomer)
    ensures ShowsDeviceBadge(c) <==> OrZero(c.deviceChanges) != 0.0
  {
  }
}
