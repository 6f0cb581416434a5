/** `groupByDate` of the timeline page and the windows the page shows of its results
    (src/pages/BatchTimeline/BatchTimeline.tsx). The calendar day of a timestamp,
    `toLocaleDateString('ru-RU')`, is the parameter `dayOf`. */
module TimelineBuckets {
  import opened TimelineRecords
  import Charts
  import Windows

  /** One day of the charts. */
  datatype Bucket = Bucket(date: string, count: nat, fraudCount: nat, totalAmount: real, deviceChanges: nat)

  /** What `grouped[date]` holds while the fold runs. */
  datatype Tally = Tally(count: nat, fraudCount: nat, totalAmount: real, devices: set<string>)

  /** The records of `s` that fall on day `d`, in order. */
  function OnDay(s: seq<Transaction>, dayOf: int -> string, d: string): seq<Transaction> {
    if s == [] then []
    else OnDay(s[..|s| - 1], dayOf, d) + (if dayOf(s[|s| - 1].timestamp) == d then [s[|s| - 1]] else [])
  }

  function FraudCount(s: seq<Transaction>): nat {
    if s == [] then 0 else FraudCount(s[..|s| - 1]) + (if s[|s| - 1].isFraud then 1 else 0)
  }

  function TotalAmount(s: seq<Transaction>): real {
    if s == [] then 0.0 else TotalAmount(s[..|s| - 1]) + s[|s| - 1].amount
  }

  /** The non-empty device models of `s`. */
  function Devices(s: seq<Transaction>): set<string> {
    if s == [] then {}
    else
      var t := s[|s| - 1];
      Devices(s[..|s| - 1]) + (if t.deviceModel.Some? && t.deviceModel.value != "" then {t.deviceModel.value} else {})
  }

  /** The days of `s` in the order their first record appears. */
  function Days(s: seq<Transaction>, dayOf: int -> string): seq<string> {
    if s == [] then []
    else
      var ds := Days(s[..|s| - 1], dayOf);
      var d := dayOf(s[|s| - 1].timestamp);
      if d in ds then ds else ds + [d]
  }

  /** The tally of day `d` after the whole of `s` has been folded in. */
  function TallyOf(s: seq<Transaction>, dayOf: int -> string, d: string): Tally {
    var day := OnDay(s, dayOf, d);
    Tally(|day|, FraudCount(day), TotalAmount(day), Devices(day))
  }

  /** The `.map(([date, data]) => ...)` of one entry. */
  function ToBucket(date: string, t: Tally): Bucket {
    Bucket(date, t.count, t.fraudCount, t.totalAmount, |t.devices|)
  }

  /** The buckets of the days `ds`, in that order. */
  function BucketsFor(s: seq<Transaction>, dayOf: int -> string, ds: seq<string>): seq<Bucket> {
    if ds == [] then []
    else BucketsFor(s, dayOf, ds[..|ds| - 1]) + [ToBucket(ds[|ds| - 1], TallyOf(s, dayOf, ds[|ds| - 1]))]
  }

  /** What `groupByDate` returns: one bucket per day, in first-seen order. */
  function Timeline(s: seq<Transaction>, dayOf: int -> string): seq<Bucket> {
    BucketsFor(s, dayOf, Days(s, dayOf))
  }

  lemma {:induction false} BucketsForAt(s: seq<Transaction>, dayOf: int -> string, ds: seq<string>, k: int)
    requires 0 <= k < |ds|
    ensures |BucketsFor(s, dayOf, ds)| == |ds|
    ensures BucketsFor(s, dayOf, ds)[k] == ToBucket(ds[k], TallyOf(s, dayOf, ds[k]))
  {
    if k < |ds| - 1 {
      BucketsForAt(s, dayOf, ds[..|ds| - 1], k);
    } else if |ds| > 1 {
      BucketsForAt(s, dayOf, ds[..|ds| - 1], 0);
    }
  }

  lemma {:induction false} BucketsForLength(s: seq<Transaction>, dayOf: int -> string, ds: seq<string>)
    ensures |BucketsFor(s, dayOf, ds)| == |ds|
  {
    if ds != [] {
      BucketsForLength(s, dayOf, ds[..|ds| - 1]);
    }
  }

  /** A day is listed exactly when some record falls on it. */
  lemma {:induction false} DaysAreRecordDays(s: seq<Transaction>, dayOf: int -> string, d: string)
    ensures d in Days(s, dayOf) <==> OnDay(s, dayOf, d) != []
  {
    if s != [] {
      DaysAreRecordDays(s[..|s| - 1], dayOf, d);
    }
  }

  /** No day is listed twice. */
  lemma {:induction false} DaysDistinct(s: seq<Transaction>, dayOf: int -> string)
    ensures forall i, j :: 0 <= i < j < |Days(s, dayOf)| ==> Days(s, dayOf)[i] != Days(s, dayOf)[j]
  {
    if s != [] {
      DaysDistinct(s[..|s| - 1], dayOf);
    }
  }

  /** First-seen order: the days of any prefix of the input are a prefix of its days. */
  lemma {:induction false} DaysGrowAtTheEnd(s: seq<Transaction>, dayOf: int -> string, k: int)
    requires 0 <= k <= |s|
    ensures Days(s[..k], dayOf) <= Days(s, dayOf)
    decreases |s| - k
  {
    if k < |s| {
      var p := s[..k + 1];
      DaysGrowAtTheEnd(s, dayOf, k + 1);
      assert p[..|p| - 1] == s[..k];
      assert Days(s[..k], dayOf) <= Days(p, dayOf);
    } else {
      assert s[..k] == s;
    }
  }

  /** The body of the `forEach`: counts record `t` into its day's entry. */
  function AddRecord(e: Tally, t: Transaction): Tally {
    Tally(e.count + 1,
          e.fraudCount + (if t.isFraud then 1 else 0),
          e.totalAmount + t.amount,
          e.devices + (if t.deviceModel.Some? && t.deviceModel.value != "" then {t.deviceModel.value} else {}))
  }

  /** The tally of a day after one more record: that record's day gains it, the others
      are unchanged, and a day with no record yet has the empty tally. */
  lemma TallyStep(s: seq<Transaction>, t: Transaction, dayOf: int -> string, d: string)
    ensures TallyOf(s + [t], dayOf, d)
         == if d == dayOf(t.timestamp) then AddRecord(TallyOf(s, dayOf, d), t) else TallyOf(s, dayOf, d)
    ensures OnDay(s, dayOf, d) == [] ==> TallyOf(s, dayOf, d) == Tally(0, 0, 0.0, {})
  {
    var s' := s + [t];
    assert s'[..|s'| - 1] == s;
    var day := OnDay(s, dayOf, d);
    if d == dayOf(t.timestamp) {
      assert OnDay(s', dayOf, d) == day + [t];
      assert (day + [t])[..|day|] == day;
    } else {
      assert OnDay(s', dayOf, d) == day;
    }
  }

  /** The fold's state after `s` has been processed: `order` lists the keys of `grouped`
      in insertion order, and each entry is the tally of its day. */
  ghost predicate FoldState(s: seq<Transaction>, dayOf: int -> string, grouped: map<string, Tally>, order: seq<string>) {
    order == Days(s, dayOf) &&
    (forall d :: d in grouped <==> d in order) &&
    (forall d :: d in grouped ==> grouped[d] == TallyOf(s, dayOf, d))
  }

  /** Folding one more record into the state of `s` gives the state of `s + [t]`. */
  lemma FoldStep(s: seq<Transaction>, t: Transaction, dayOf: int -> string,
                 grouped: map<string, Tally>, order: seq<string>)
    requires FoldState(s, dayOf, grouped, order)
    ensures
      var date := dayOf(t.timestamp);
      var entry := if date in grouped then grouped[date] else Tally(0, 0, 0.0, {});
      FoldState(s + [t], dayOf, grouped[date := AddRecord(entry, t)],
                if date in grouped then order else order + [date])
  {
    var date := dayOf(t.timestamp);
    var entry := if date in grouped then grouped[date] else Tally(0, 0, 0.0, {});
    var grouped' := grouped[date := AddRecord(entry, t)];
    var order' := if date in grouped then order else order + [date];
    FoldOrder(s, t, dayOf, grouped, order);
    FoldEntries(s, t, dayOf, grouped, order);
    assert forall d :: d in grouped' <==> d in order';
  }

  /** The key order after one more record is the first-seen days of the longer list. */
  lemma FoldOrder(s: seq<Transaction>, t: Transaction, dayOf: int -> string,
                  grouped: map<string, Tally>, order: seq<string>)
    requires FoldState(s, dayOf, grouped, order)
    ensures (if dayOf(t.timestamp) in grouped then order else order + [dayOf(t.timestamp)]) == Days(s + [t], dayOf)
  {
    var s' := s + [t];
    assert s'[..|s'| - 1] == s;
  }

  /** Every entry after one more record is the tally of its day in the longer list. */
  lemma FoldEntries(s: seq<Transaction>, t: Transaction, dayOf: int -> string,
                    grouped: map<string, Tally>, order: seq<string>)
    requires FoldState(s, dayOf, grouped, order)
    ensures
      var date := dayOf(t.timestamp);
      var entry := if date in grouped then grouped[date] else Tally(0, 0, 0.0, {});
      forall d :: d in grouped[date := AddRecord(entry, t)] ==>
        grouped[date := AddRecord(entry, t)][d] == TallyOf(s + [t], dayOf, d)
  {
    var date := dayOf(t.timestamp);
    var entry := if date in grouped then grouped[date] else Tally(0, 0, 0.0, {});
    var grouped' := grouped[date := AddRecord(entry, t)];
    forall d | d in grouped'
      ensures grouped'[d] == TallyOf(s + [t], dayOf, d)
    {
      TallyStep(s, t, dayOf, d);
      if d == date && date !in grouped {
        DaysAreRecordDays(s, dayOf, date);
      }
    }
  }

  /** `FoldStep` for the record at index `i` of the input. */
  lemma FoldStepAt(s: seq<Transaction>, i: int, dayOf: int -> string,
                   grouped: map<string, Tally>, order: seq<string>)
    requires 0 <= i < |s| && FoldState(s[..i], dayOf, grouped, order)
    ensures
      var date := dayOf(s[i].timestamp);
      var entry := if date in grouped then grouped[date] else Tally(0, 0, 0.0, {});
      FoldState(s[..i + 1], dayOf, grouped[date := AddRecord(entry, s[i])],
                if date in grouped then order else order + [date])
  {
    assert s[..i + 1] == s[..i] + [s[i]];
    FoldStep(s[..i], s[i], dayOf, grouped, order);
  }

  /** Emitting the entries in insertion order (`Object.entries(...).map`) after the whole
      fold gives the timeline of the records. */
  lemma EmitTimeline(s: seq<Transaction>, dayOf: int -> string, grouped: map<string, Tally>, order: seq<string>)
    requires FoldState(s, dayOf, grouped, order)
    ensures forall k :: 0 <= k < |order| ==> order[k] in grouped
    ensures seq(|order|, k requires 0 <= k < |order| => ToBucket(order[k], grouped[order[k]]))
         == Timeline(s, dayOf)
  {
    var buckets := seq(|order|, k requires 0 <= k < |order| => ToBucket(order[k], grouped[order[k]]));
    BucketsForLength(s, dayOf, order);
    forall k | 0 <= k < |order|
      ensures buckets[k] == Timeline(s, dayOf)[k]
    {
      BucketsForAt(s, dayOf, order, k);
    }
  }

  /** `groupByDate`: one pass over the filtered records, creating a day's entry the first
      time the day is met and then counting the record into it. */
  method GroupByDate(filtered: seq<Transaction>, dayOf: int -> string) returns (buckets: seq<Bucket>)
    ensures buckets == Timeline(filtered, dayOf)
  {
    var grouped: map<string, Tally> := map[];
    var order: seq<string> := [];
    for i := 0 to |filtered|
      invariant FoldState(filtered[..i], dayOf, grouped, order)
    {
      FoldStepAt(filtered, i, dayOf, grouped, order);
      grouped, order := CountRecord(grouped, order, filtered[i], dayOf);
    }
    assert filtered[..|filtered|] == filtered;
    buckets := seq(|order|, k requires 0 <= k < |order| => ToBucket(order[k], grouped[order[k]]));
    EmitTimeline(filtered, dayOf, grouped, order);
  }

  /** The body of the `forEach` in `groupByDate`: a day met for the first time gets an
      empty entry appended in insertion order; the entry is then updated field by field. */
  method CountRecord(grouped: map<string, Tally>, order: seq<string>, t: Transaction, dayOf: int -> string)
    returns (grouped': map<string, Tally>, order': seq<string>)
    ensures var date := dayOf(t.timestamp);
            var entry := if date in grouped then grouped[date] else Tally(0, 0, 0.0, {});
            grouped' == grouped[date := AddRecord(entry, t)] &&
            order' == if date in grouped then order else order + [date]
  {
    var date := dayOf(t.timestamp);
    ghost var entry0 := if date in grouped then grouped[date] else Tally(0, 0, 0.0, {});
    var entry: Tally;
    order' := order;
    if date in grouped {
      entry := grouped[date];
    } else {
      entry := Tally(0, 0, 0.0, {});
      order' := order + [date];
    }
    entry := entry.(count := entry.count + 1);
    if t.isFraud {
      entry := entry.(fraudCount := entry.fraudCount + 1);
    }
    entry := entry.(totalAmount := entry.totalAmount + t.amount);
    if t.deviceModel.Some? && t.deviceModel.value != "" {
      entry := entry.(devices := entry.devices + {t.deviceModel.value});
    }
    assert entry == AddRecord(entry0, t);
    grouped' := grouped[date := entry];
  }

  /** The records of `s` whose day is one of `ds`, in order. */
  function OnDays(s: seq<Transaction>, dayOf: int -> string, ds: seq<string>): seq<Transaction> {
    if s == [] then []
    else OnDays(s[..|s| - 1], dayOf, ds) + (if dayOf(s[|s| - 1].timestamp) in ds then [s[|s| - 1]] else [])
  }

  /** The sums of the bars' counts, fraud counts and amounts over a list of buckets. */
  function CountTotal(bs: seq<Bucket>): nat {
    if bs == [] then 0 else CountTotal(bs[..|bs| - 1]) + bs[|bs| - 1].count
  }

  function FraudTotal(bs: seq<Bucket>): nat {
    if bs == [] then 0 else FraudTotal(bs[..|bs| - 1]) + bs[|bs| - 1].fraudCount
  }

  function AmountTotal(bs: seq<Bucket>): real {
    if bs == [] then 0.0 else AmountTotal(bs[..|bs| - 1]) + bs[|bs| - 1].totalAmount
  }

  /** One more record adds itself to each measure of a list. */
  lemma Snoc(x: seq<Transaction>, t: Transaction)
    ensures FraudCount(x + [t]) == FraudCount(x) + (if t.isFraud then 1 else 0)
    ensures TotalAmount(x + [t]) == TotalAmount(x) + t.amount
  {
    assert (x + [t])[..|x|] == x;
  }

  /** Adding one more day to the selection adds exactly that day's records to each sum. */
  lemma {:induction false} OnDaysAddDay(s: seq<Transaction>, dayOf: int -> string, ds: seq<string>, d: string)
    requires d !in ds
    ensures |OnDays(s, dayOf, ds + [d])| == |OnDays(s, dayOf, ds)| + |OnDay(s, dayOf, d)|
    ensures FraudCount(OnDays(s, dayOf, ds + [d])) == FraudCount(OnDays(s, dayOf, ds)) + FraudCount(OnDay(s, dayOf, d))
    ensures TotalAmount(OnDays(s, dayOf, ds + [d])) == TotalAmount(OnDays(s, dayOf, ds)) + TotalAmount(OnDay(s, dayOf, d))
  {
    if s != [] {
      var init, t := s[..|s| - 1], s[|s| - 1];
      OnDaysAddDay(init, dayOf, ds, d);
      var a, b, c := OnDays(init, dayOf, ds + [d]), OnDays(init, dayOf, ds), OnDay(init, dayOf, d);
      var day := dayOf(t.timestamp);
      if day == d {
        assert OnDays(s, dayOf, ds + [d]) == a + [t] && OnDays(s, dayOf, ds) == b && OnDay(s, dayOf, d) == c + [t];
        Snoc(a, t);
        Snoc(c, t);
      } else if day in ds {
        assert OnDays(s, dayOf, ds + [d]) == a + [t] && OnDays(s, dayOf, ds) == b + [t] && OnDay(s, dayOf, d) == c;
        Snoc(a, t);
        Snoc(b, t);
      } else {
        assert OnDays(s, dayOf, ds + [d]) == a && OnDays(s, dayOf, ds) == b && OnDay(s, dayOf, d) == c;
      }
    }
  }

  /** The buckets of distinct days sum to the records on those days. */
  lemma {:induction false} BucketsForTotals(s: seq<Transaction>, dayOf: int -> string, ds: seq<string>)
    requires forall i, j :: 0 <= i < j < |ds| ==> ds[i] != ds[j]
    ensures CountTotal(BucketsFor(s, dayOf, ds)) == |OnDays(s, dayOf, ds)|
    ensures FraudTotal(BucketsFor(s, dayOf, ds)) == FraudCount(OnDays(s, dayOf, ds))
    ensures AmountTotal(BucketsFor(s, dayOf, ds)) == TotalAmount(OnDays(s, dayOf, ds))
  {
    if ds == [] {
      NoDays(s, dayOf);
    } else {
      var init, d := ds[..|ds| - 1], ds[|ds| - 1];
      assert ds == init + [d];
      BucketsForTotals(s, dayOf, init);
      var bs := BucketsFor(s, dayOf, init);
      var b := ToBucket(d, TallyOf(s, dayOf, d));
      assert BucketsFor(s, dayOf, ds) == bs + [b] && (bs + [b])[..|bs|] == bs;
      OnDaysAddDay(s, dayOf, init, d);
    }
  }

  lemma {:induction false} NoDays(s: seq<Transaction>, dayOf: int -> string)
    ensures OnDays(s, dayOf, []) == []
  {
    if s != [] {
      NoDays(s[..|s| - 1], dayOf);
    }
  }

  /** Every record's day is listed. */
  lemma {:induction false} RecordDayListed(s: seq<Transaction>, dayOf: int -> string, i: int)
    requires 0 <= i < |s|
    ensures dayOf(s[i].timestamp) in Days(s, dayOf)
  {
    if i < |s| - 1 {
      RecordDayListed(s[..|s| - 1], dayOf, i);
    }
  }

  /** Selecting by days that include every record's day keeps every record. */
  lemma {:induction false} OnDaysKeepsAll(s: seq<Transaction>, dayOf: int -> string, ds: seq<string>)
    requires forall i :: 0 <= i < |s| ==> dayOf(s[i].timestamp) in ds
    ensures OnDays(s, dayOf, ds) == s
  {
    if s != [] {
      OnDaysKeepsAll(s[..|s| - 1], dayOf, ds);
    }
  }

  /** The timeline accounts for every record exactly once: its bars' counts add up to the
      number of filtered records, their fraud counts to the fraudulent ones and their
      amounts to the total amount. */
  lemma TimelineTotals(s: seq<Transaction>, dayOf: int -> string)
    ensures CountTotal(Timeline(s, dayOf)) == |s|
    ensures FraudTotal(Timeline(s, dayOf)) == FraudCount(s)
    ensures AmountTotal(Timeline(s, dayOf)) == TotalAmount(s)
  {
    var ds := Days(s, dayOf);
    DaysDistinct(s, dayOf);
    BucketsForTotals(s, dayOf, ds);
    forall i | 0 <= i < |s|
      ensures dayOf(s[i].timestamp) in ds
    {
      RecordDayListed(s, dayOf, i);
    }
    OnDaysKeepsAll(s, dayOf, ds);
  }

  lemma {:induction false} FraudCountBound(s: seq<Transaction>)
    ensures FraudCount(s) <= |s|
  {
    if s != [] {
      FraudCountBound(s[..|s| - 1]);
    }
  }

  lemma {:induction false} DevicesBound(s: seq<Transaction>)
    ensures |Devices(s)| <= |s|
  {
    if s != [] {
      DevicesBound(s[..|s| - 1]);
    }
  }

  /** Every bar stands for at least one record, of which at most all are fraudulent and at
      most all bring a distinct device, so the bar's fraud rate is defined. */
  lemma TimelineBucketBounds(s: seq<Transaction>, dayOf: int -> string, k: int)
    requires 0 <= k < |Timeline(s, dayOf)|
    ensures Timeline(s, dayOf)[k].count >= 1
    ensures Timeline(s, dayOf)[k].fraudCount <= Timeline(s, dayOf)[k].count
    ensures Timeline(s, dayOf)[k].deviceChanges <= Timeline(s, dayOf)[k].count
  {
    var ds := Days(s, dayOf);
    BucketsForLength(s, dayOf, ds);
    BucketsForAt(s, dayOf, ds, k);
    DaysAreRecordDays(s, dayOf, ds[k]);
    var day := OnDay(s, dayOf, ds[k]);
    FraudCountBound(day);
    DevicesBound(day);
  }

  /** The first bucket is the day of the first record. */
  lemma FirstDayIsFirstRecord(s: seq<Transaction>, dayOf: int -> string)
    requires s != []
    ensures Days(s, dayOf) != [] && Days(s, dayOf)[0] == dayOf(s[0].timestamp)
  {
    DaysGrowAtTheEnd(s, dayOf, 1);
    assert s[..1][..0] == [];
  }

  /** The date of each bucket is the day at its position, so no two buckets share a date. */
  lemma TimelineDates(s: seq<Transaction>, dayOf: int -> string)
    ensures |Timeline(s, dayOf)| == |Days(s, dayOf)|
    ensures forall i :: 0 <= i < |Timeline(s, dayOf)| ==> Timeline(s, dayOf)[i].date == Days(s, dayOf)[i]
    ensures forall i, j :: 0 <= i < j < |Timeline(s, dayOf)| ==> Timeline(s, dayOf)[i].date != Timeline(s, dayOf)[j].date
  {
    var ds := Days(s, dayOf);
    BucketsForLength(s, dayOf, ds);
    forall i | 0 <= i < |ds|
      ensures Timeline(s, dayOf)[i].date == ds[i]
    {
      BucketsForAt(s, dayOf, ds, i);
    }
    DaysDistinct(s, dayOf);
  }

  /** The charts draw the last 30 buckets of the timeline, which follows the order of the
      ranked list rather than the calendar; the table lists the first 100 records. */
  const ChartDays: nat := 30
  const TableRows: nat := 100

  /** The rows of the transaction table: the first 100 filtered records. */
  function TableRecords(filtered: seq<Transaction>): (r: seq<Transaction>)
    ensures |r| <= TableRows && r <= filtered
    ensures |filtered| <= TableRows ==> r == filtered
  {
    Windows.Take(filtered, TableRows)
  }

  /** The footer "shown 100 of n" appears exactly when the table drops records, and then
      the table and the dropped records make up the whole filtered list. */
  lemma TableFooterIffCut(filtered: seq<Transaction>)
    ensures Windows.HasMore(filtered, TableRows) <==> TableRecords(filtered) != filtered
    ensures Windows.HasMore(filtered, TableRows) ==>
              |TableRecords(filtered)| == TableRows && TableRecords(filtered) + filtered[TableRows..] == filtered
  {
    Windows.TakeAndHidden(filtered, TableRows);
  }

  function Counts(tl: seq<Bucket>): (r: seq<real>)
    ensures |r| == |tl| && forall k :: 0 <= k < |tl| ==> r[k] == tl[k].count as real
  {
    seq(|tl|, k requires 0 <= k < |tl| => tl[k].count as real)
  }

  function Amounts(tl: seq<Bucket>): (r: seq<real>)
    ensures |r| == |tl| && forall k :: 0 <= k < |tl| ==> r[k] == tl[k].totalAmount
  {
    seq(|tl|, k requires 0 <= k < |tl| => tl[k].totalAmount)
  }

  function DeviceCounts(tl: seq<Bucket>): (r: seq<real>)
    ensures |r| == |tl| && forall k :: 0 <= k < |tl| ==> r[k] == tl[k].deviceChanges as real
  {
    seq(|tl|, k requires 0 <= k < |tl| => tl[k].deviceChanges as real)
  }

  /** The position in the whole timeline of the `k`-th drawn bar: the charts draw the last
      `ChartDays` buckets but scale them by the maximum over all buckets. */
  function Drawn(tl: seq<Bucket>, k: int): int
    requires 0 <= k < |Windows.TakeLast(tl, ChartDays)|
  {
    |tl| - |Windows.TakeLast(tl, ChartDays)| + k
  }

  /** The activity bar, the volume bar and the device bar (at least 10% high) of the
      `k`-th drawn day, and that day's fraud rate in percent. */
  function ActivityBar(tl: seq<Bucket>, k: int): real
    requires 0 <= k < |Windows.TakeLast(tl, ChartDays)|
  {
    Charts.Height(Counts(tl), Drawn(tl, k))
  }

  function VolumeBar(tl: seq<Bucket>, k: int): real
    requires 0 <= k < |Windows.TakeLast(tl, ChartDays)|
  {
    Charts.Height(Amounts(tl), Drawn(tl, k))
  }

  function DeviceBar(tl: seq<Bucket>, k: int): real
    requires 0 <= k < |Windows.TakeLast(tl, ChartDays)|
  {
    Charts.Rendered(Charts.Height(DeviceCounts(tl), Drawn(tl, k)), 10.0)
  }

  function FraudRate(b: Bucket): real
    requires b.count > 0
  {
    b.fraudCount as real / b.count as real * 100.0
  }

  /** What every bucket of a timeline satisfies (`TimelineBucketBounds`). */
  predicate WellFormed(tl: seq<Bucket>) {
    forall i :: 0 <= i < |tl| ==> tl[i].count >= 1 && tl[i].fraudCount <= tl[i].count && tl[i].deviceChanges <= tl[i].count
  }

  /** On well-formed buckets every drawn day is one of the last 30, its activity bar is
      between 0% and 100% high and its device bar between 10% and 100%. */
  lemma ChartBounds(tl: seq<Bucket>, k: int)
    requires WellFormed(tl)
    requires 0 <= k < |Windows.TakeLast(tl, ChartDays)|
    ensures Windows.TakeLast(tl, ChartDays)[k] == tl[Drawn(tl, k)]
    ensures 0.0 <= ActivityBar(tl, k) <= 100.0
    ensures 10.0 <= DeviceBar(tl, k) <= 100.0
  {
    var j := Drawn(tl, k);
    var w := Windows.TakeLast(tl, ChartDays);
    assert w == tl[|tl| - |w|..];
    Charts.HeightBounds(Counts(tl), j);
    Charts.HeightBounds(DeviceCounts(tl), j);
  }

  /** Every bucket of a well-formed timeline has a defined fraud rate between 0% and 100%. */
  lemma FraudRateBounds(tl: seq<Bucket>, i: int)
    requires WellFormed(tl) && 0 <= i < |tl|
    ensures tl[i].count > 0 && 0.0 <= FraudRate(tl[i]) <= 100.0
  {
    Charts.PercentBounds(tl[i].fraudCount as real, tl[i].count as real);
  }

  /** The timeline of any filtered records is well formed, so `ChartBounds` applies to its
      charts; when no amount is negative its volume bars are between 0% and 100% too. */
  lemma TimelineChartBounds(s: seq<Transaction>, dayOf: int -> string, k: int)
    requires 0 <= k < |Windows.TakeLast(Timeline(s, dayOf), ChartDays)|
    ensures WellFormed(Timeline(s, dayOf))
    ensures (forall i :: 0 <= i < |s| ==> s[i].amount >= 0.0) ==> 0.0 <= VolumeBar(Timeline(s, dayOf), k) <= 100.0
  {
    var tl := Timeline(s, dayOf);
    forall i | 0 <= i < |tl|
      ensures tl[i].count >= 1 && tl[i].fraudCount <= tl[i].count && tl[i].deviceChanges <= tl[i].count
    {
      TimelineBucketBounds(s, dayOf, i);
    }
    if forall i :: 0 <= i < |s| ==> s[i].amount >= 0.0 {
      forall i | 0 <= i < |tl|
        ensures tl[i].totalAmount >= 0.0
      {
        DayAmountsNonNegative(s, dayOf, tl, i);
      }
      Charts.HeightBounds(Amounts(tl), Drawn(tl, k));
    }
  }

  lemma {:induction false} TotalAmountNonNegative(s: seq<Transaction>)
    requires forall i :: 0 <= i < |s| ==> s[i].amount >= 0.0
    ensures TotalAmount(s) >= 0.0
  {
    if s != [] {
      TotalAmountNonNegative(s[..|s| - 1]);
    }
  }

  lemma {:induction false} OnDayIsSubset(s: seq<Transaction>, dayOf: int -> string, d: string, j: int)
    requires 0 <= j < |OnDay(s, dayOf, d)|
    ensures OnDay(s, dayOf, d)[j] in s
  {
    var init := s[..|s| - 1];
    if j < |OnDay(init, dayOf, d)| {
      OnDayIsSubset(init, dayOf, d, j);
      assert OnDay(init, dayOf, d)[j] in init;
    }
  }

  lemma DayAmountsNonNegative(s: seq<Transaction>, dayOf: int -> string, tl: seq<Bucket>, i: int)
    requires tl == Timeline(s, dayOf) && 0 <= i < |tl|
    requires forall i :: 0 <= i < |s| ==> s[i].amount >= 0.0
    ensures tl[i].totalAmount >= 0.0
  {
    var ds := Days(s, dayOf);
    BucketsForLength(s, dayOf, ds);
    BucketsForAt(s, dayOf, ds, i);
    var day := OnDay(s, dayOf, ds[i]);
    forall j | 0 <= j < |day|
      ensures day[j].amount >= 0.0
    {
      OnDayIsSubset(s, dayOf, ds[i], j);
    }
    TotalAmountNonNegative(day);
  }
}
