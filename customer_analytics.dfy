/** The classifications of the customer profile page
    (src/pages/CustomerAnalytics/CustomerAnalytics.tsx): the risk level and colour of a
    fraud rate, the fraud rate itself, the behavioural warnings, the risk-score badge, the
    bars of the daily amount chart and the window over the transaction history. */
module CustomerAnalytics {
  import Charts
  import Windows

  /** The figures of a customer the page classifies. */
  datatype Profile = Profile(
    totalTransactions: real,
    fraudTransactions: real,
    deviceChanges: real,
    osVersionChanges: real,
    loginsLast7Days: real,
    loginFrequencyChange: real)

  /** One day of the amount chart. */
  datatype AmountPoint = AmountPoint(date: string, amount: real, isFraud: bool, transactionCount: nat)

  /** One row of the transaction history. */
  datatype HistoryRow = HistoryRow(transactionId: int, amount: real, isFraud: bool, riskScore: real)

  datatype RiskLevel = Low | Medium | High | Critical {
    /** The label the page shows. */
    function Label(): string {
      match this
      case Low => "Низкий"
      case Medium => "Средний"
      case High => "Высокий"
      case Critical => "Критический"
    }

    function Rank(): nat {
      match this
      case Low => 0
      case Medium => 1
      case High => 2
      case Critical => 3
    }
  }

  /** `getRiskLevel`: exactly 0 is low, then the bands below 5 and below 20. */
  function GetRiskLevel(fraudRate: real): (l: RiskLevel)
    ensures l == Low <==> fraudRate == 0.0
    ensures l == Medium <==> fraudRate != 0.0 && fraudRate < 5.0
    ensures l == High <==> 5.0 <= fraudRate < 20.0
    ensures l == Critical <==> fraudRate >= 20.0
  {
    if fraudRate == 0.0 then Low
    else if fraudRate < 5.0 then Medium
    else if fraudRate < 20.0 then High
    else Critical
  }

  /** `getRiskColor`. */
  function GetRiskColor(fraudRate: real): string {
    if fraudRate == 0.0 then "#48bb78"
    else if fraudRate < 5.0 then "#ed8936"
    else if fraudRate < 20.0 then "#f56565"
    else "#c53030"
  }

  /** The colour of each level: green, orange, red, dark red. */
  function LevelColor(l: RiskLevel): string {
    match l
    case Low => "#48bb78"
    case Medium => "#ed8936"
    case High => "#f56565"
    case Critical => "#c53030"
  }

  /** The colour and the label use the same bands: the colour is the level's colour, and two
      rates share a colour iff they share a level. */
  lemma ColorFollowsLevel(r: real, q: real)
    ensures GetRiskColor(r) == LevelColor(GetRiskLevel(r))
    ensures GetRiskColor(r) == GetRiskColor(q) <==> GetRiskLevel(r) == GetRiskLevel(q)
  {
  }

  /** Among non-negative rates a higher rate never gets a lower level; 4.9% is medium and
      5% is high. */
  lemma LevelMonotone(r: real, q: real)
    requires 0.0 <= r <= q
    ensures GetRiskLevel(r).Rank() <= GetRiskLevel(q).Rank()
    ensures GetRiskLevel(4.9) == Medium && GetRiskLevel(5.0) == High
  {
  }

  /** The fraud rate in percent, 0 for a customer without transactions. */
  function FraudRate(p: Profile): (r: real)
    ensures p.totalTransactions <= 0.0 ==> r == 0.0
    ensures p.totalTransactions > 0.0 ==> r * p.totalTransactions == p.fraudTransactions * 100.0
  {
    if p.totalTransactions > 0.0 then p.fraudTransactions / p.totalTransactions * 100.0 else 0.0
  }

  /** With consistent counts the rate is a percentage, and the level is low exactly when
      the customer has no transactions or no fraudulent one. */
  lemma FraudRateBounds(p: Profile)
    requires 0.0 <= p.fraudTransactions <= p.totalTransactions
    ensures 0.0 <= FraudRate(p) <= 100.0
    ensures GetRiskLevel(FraudRate(p)) == Low <==> p.totalTransactions == 0.0 || p.fraudTransactions == 0.0
  {
    if p.totalTransactions > 0.0 {
      Charts.PercentBounds(p.fraudTransactions, p.totalTransactions);
      if FraudRate(p) == 0.0 {
        assert p.fraudTransactions * 100.0 == 0.0;
      }
    }
  }

  /** The four behavioural warnings, each on a strict threshold. */
  predicate DeviceWarning(p: Profile) { p.deviceChanges > 3.0 }
  predicate OsWarning(p: Profile) { p.osVersionChanges > 2.0 }
  predicate LoginWarning(p: Profile) { p.loginsLast7Days > 20.0 }
  predicate FrequencyWarning(p: Profile) { Abs(p.loginFrequencyChange) > 0.5 }

  function Abs(x: real): (r: real)
    ensures r >= 0.0 && (r == x || r == -x)
  {
    if x < 0.0 then -x else x
  }

  /** The thresholds themselves do not warn, and a change of frequency warns the same
      whichever way it goes. */
  lemma WarningThresholds(p: Profile)
    ensures p.deviceChanges == 3.0 ==> !DeviceWarning(p)
    ensures p.osVersionChanges == 2.0 ==> !OsWarning(p)
    ensures p.loginsLast7Days == 20.0 ==> !LoginWarning(p)
    ensures FrequencyWarning(p) <==> FrequencyWarning(p.(loginFrequencyChange := -p.loginFrequencyChange))
    ensures FrequencyWarning(p) <==> p.loginFrequencyChange > 0.5 || p.loginFrequencyChange < -0.5
  {
  }

  /** The colour of a history row's risk-score badge: above 70 red, above 40 orange,
      otherwise green. */
  function ScoreBadge(riskScore: real): (c: string)
    ensures c == "#f56565" <==> riskScore > 70.0
    ensures c == "#ed8936" <==> 40.0 < riskScore <= 70.0
    ensures c == "#48bb78" <==> riskScore <= 40.0
  {
    if riskScore > 70.0 then "#f56565" else if riskScore > 40.0 then "#ed8936" else "#48bb78"
  }

  /** The height in percent of the bar of day `i`: relative to the largest amount when
      that is positive, and 0 for every bar otherwise. */
  function BarHeight(points: seq<AmountPoint>, i: int): real
    requires 0 <= i < |points|
  {
    var maxAmount := Charts.Peak(Amounts(points));
    if maxAmount > 0.0 then points[i].amount / maxAmount * 100.0 else 0.0
  }

  function Amounts(points: seq<AmountPoint>): (r: seq<real>)
    ensures |r| == |points| && forall k :: 0 <= k < |points| ==> r[k] == points[k].amount
  {
    seq(|points|, k requires 0 <= k < |points| => points[k].amount)
  }

  /** No bar is higher than 100%; with non-negative amounts none is below 0%; a bar of the
      largest positive amount is exactly 100%, and without a positive amount every bar is 0. */
  lemma BarHeightBounds(points: seq<AmountPoint>, i: int)
    requires 0 <= i < |points|
    ensures BarHeight(points, i) <= 100.0
    ensures points[i].amount >= 0.0 ==> BarHeight(points, i) >= 0.0
    ensures (forall k :: 0 <= k < |points| ==> points[k].amount <= points[i].amount) && points[i].amount > 0.0
            ==> BarHeight(points, i) == 100.0
    ensures (forall k :: 0 <= k < |points| ==> points[k].amount <= 0.0) ==> BarHeight(points, i) == 0.0
  {
    var amounts := Amounts(points);
    var m := Charts.Peak(amounts);
    assert amounts[i] == points[i].amount;
    if m > 0.0 {
      assert BarHeight(points, i) == points[i].amount / m * 100.0;
      if points[i].amount >= 0.0 {
        Charts.PercentBounds(points[i].amount, m);
      } else {
        Charts.DivideMonotone(points[i].amount, 0.0, m);
      }
      if forall k :: 0 <= k < |points| ==> points[k].amount <= points[i].amount {
        assert m == points[i].amount by {
          var j :| 0 <= j < |amounts| && amounts[j] == m;
        }
        Charts.DivideSelf(m);
      }
    }
  }

  /** The history lists the first 20 rows; "show more" appears iff there are more and
      reports how many are not listed. */
  const HistoryRows: nat := 20

  function History(timeline: seq<HistoryRow>): (r: seq<HistoryRow>)
    ensures |r| <= HistoryRows && r <= timeline
    ensures |r| == |timeline| || |r| == HistoryRows
  {
    Windows.Take(timeline, HistoryRows)
  }

  function ShowMore(timeline: seq<HistoryRow>): (r: nat)
    requires Windows.HasMore(timeline, HistoryRows)
    ensures r > 0 && r + |History(timeline)| == |timeline|
  {
    Windows.Hidden(timeline, HistoryRows)
  }

  /** "Show more" is offered exactly when the list is cut. */
  lemma ShowMoreIffCut(timeline: seq<HistoryRow>)
    ensures Windows.HasMore(timeline, HistoryRows) <==> History(timeline) != timeline
  {
    Windows.TakeAndHidden(timeline, HistoryRows);
  }
}
