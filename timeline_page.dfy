/** How the timeline page feeds its charts (src/pages/BatchTimeline/BatchTimeline.tsx):
    `groupByDate` folds `filteredData`, the list `applyFilters` has already ranked, so the
    buckets come in the order of the ranking and not of the calendar. Under the default
    ranking, newest first, the first bucket is the newest day and `slice(-30)` draws the 30
    oldest days of the selection. */
module TimelinePage {
  import opened TimelineRecords
  import opened TimelineRank
  import opened TimelineFilter
  import opened TimelineBuckets
  import Windows

  /** `timelineData`: the buckets of the filtered, ranked records. */
  function PageTimeline(s: seq<Transaction>, f: Filters, dayOf: int -> string): seq<Bucket> {
    Timeline(Ranked(Select(s, f), f.sortBy), dayOf)
  }

  /** `applyFilters` followed by `groupByDate` on its result. */
  method RenderTimeline(transactions: seq<Transaction>, f: Filters, dayOf: int -> string)
    returns (filtered: seq<Transaction>, timelineData: seq<Bucket>)
    ensures filtered == Ranked(Select(transactions, f), f.sortBy)
    ensures timelineData == PageTimeline(transactions, f, dayOf)
  {
    filtered := ApplyFilters(transactions, f);
    timelineData := GroupByDate(filtered, dayOf);
  }

  /** The buckets of the page count every record that survives the filters, whatever the
      ranking. */
  lemma PageTimelineCounts(s: seq<Transaction>, f: Filters, dayOf: int -> string)
    ensures CountTotal(PageTimeline(s, f, dayOf)) == |Select(s, f)|
  {
    var r := Ranked(Select(s, f), f.sortBy);
    TimelineTotals(r, dayOf);
    RankedPermutes(Select(s, f), f.sortBy);
    assert |multiset(r)| == |multiset(Select(s, f))|;
  }

  /** Ranked newest first, the first record is the newest survivor and its day is the first
      bucket. */
  lemma NewestDayFirst(s: seq<Transaction>, f: Filters, dayOf: int -> string)
    requires f.sortBy == ByDate && Select(s, f) != []
    ensures var r := Ranked(Select(s, f), ByDate);
            r != [] && r[0] in Select(s, f) &&
            (forall u :: u in Select(s, f) ==> u.timestamp <= r[0].timestamp) &&
            PageTimeline(s, f, dayOf) != [] && PageTimeline(s, f, dayOf)[0].date == dayOf(r[0].timestamp)
  {
    var sel := Select(s, f);
    var r := Ranked(sel, ByDate);
    RankedPermutes(sel, ByDate);
    RankedSorted(sel, ByDate);
    assert sel[0] in multiset(r);
    assert r != [];
    assert r[0] in multiset(sel);
    forall u | u in sel
      ensures u.timestamp <= r[0].timestamp
    {
      assert u in multiset(r);
      var j :| 0 <= j < |r| && r[j] == u;
      if j > 0 {
        assert Key(r[0], ByDate) >= Key(r[j], ByDate);
      }
    }
    FirstDayIsFirstRecord(r, dayOf);
    TimelineDates(r, dayOf);
  }

  /** With more than 30 days and the ranking newest first, the charts leave out the day of
      the newest record, and with it every day whose bucket precedes the drawn window. */
  lemma NewestDayNotCharted(s: seq<Transaction>, f: Filters, dayOf: int -> string)
    requires f.sortBy == ByDate && |PageTimeline(s, f, dayOf)| > ChartDays
    ensures var tl := PageTimeline(s, f, dayOf);
            var w := Windows.TakeLast(tl, ChartDays);
            |w| == ChartDays &&
            (forall k, j :: 0 <= k < |w| && 0 <= j < |tl| - |w| ==> w[k].date != tl[j].date) &&
            (forall k :: 0 <= k < |w| ==> w[k].date != dayOf(Ranked(Select(s, f), ByDate)[0].timestamp))
  {
    var tl := PageTimeline(s, f, dayOf);
    var w := Windows.TakeLast(tl, ChartDays);
    var r := Ranked(Select(s, f), ByDate);
    assert w == tl[|tl| - |w|..];
    TimelineDates(r, dayOf);
    assert Select(s, f) != [];
    NewestDayFirst(s, f, dayOf);
    forall k, j | 0 <= k < |w| && 0 <= j < |tl| - |w|
      ensures w[k].date != tl[j].date
    {
      assert w[k] == tl[|tl| - |w| + k];
    }
  }

  /** Two records on different days, ranked newest first: the newer day is bucketed first,
      although `groupByDate` itself emits days in first-seen order. */
  lemma BucketsNewestFirst(older: Transaction, newer: Transaction, dayOf: int -> string)
    requires older.timestamp < newer.timestamp && dayOf(older.timestamp) != dayOf(newer.timestamp)
    ensures Days(Ranked([older, newer], ByDate), dayOf) == [dayOf(newer.timestamp), dayOf(older.timestamp)]
  {
    RankTwo(older, newer);
    DaysTwo(newer, older, dayOf);
  }

  lemma RankTwo(older: Transaction, newer: Transaction)
    requires older.timestamp < newer.timestamp
    ensures Ranked([older, newer], ByDate) == [newer, older]
  {
    assert [older, newer][..1] == [older];
    assert [older][..0] == [];
    assert Ranked([older], ByDate) == [older];
    assert Key(older, ByDate) < Key(newer, ByDate);
    assert Insert(newer, [older], ByDate) == Insert(newer, [], ByDate) + [older];
  }

  lemma DaysTwo(a: Transaction, b: Transaction, dayOf: int -> string)
    requires dayOf(a.timestamp) != dayOf(b.timestamp)
    ensures Days([a, b], dayOf) == [dayOf(a.timestamp), dayOf(b.timestamp)]
  {
    assert [a, b][..1] == [a];
    assert [a][..0] == [];
    assert Days([a], dayOf) == [dayOf(a.timestamp)];
  }
}
