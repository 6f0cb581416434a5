/** `applyFilters` of the timeline page: seven filter passes over a copy of the
    transactions, then an in-place sort (src/pages/BatchTimeline/BatchTimeline.tsx). */
module TimelineFilter {
  import opened Optional
  import opened Text
  import opened TimelineRecords
  import opened TimelineRank
  import opened Sequences

  /** A record passes the first `k` passes of the page. */
  predicate PassesFirst(f: Filters, k: nat, t: Transaction)
    requires k <= |Criteria|
  {
    forall i :: 0 <= i < k ==> Passes(f, Criteria[i], t)
  }

  /** The records of `s` that survive the first `k` passes, in order. */
  function FilterUpTo(s: seq<Transaction>, f: Filters, k: nat): seq<Transaction>
    requires k <= |Criteria|
  {
    if s == [] then []
    else FilterUpTo(s[..|s| - 1], f, k) + (if PassesFirst(f, k, s[|s| - 1]) then [s[|s| - 1]] else [])
  }

  /** A pass the page skips would have kept everything anyway. */
  lemma {:induction false} WhereInactive(s: seq<Transaction>, f: Filters, c: Criterion)
    requires !Active(f, c)
    ensures Where(s, f, c) == s
  {
    if s != [] {
      WhereInactive(s[..|s| - 1], f, c);
      assert s == s[..|s| - 1] + [s[|s| - 1]];
    }
  }

  /** Running pass `k` over the survivors of the first `k` passes gives the survivors of
      the first `k + 1`. */
  lemma {:induction false} WhereStep(s: seq<Transaction>, f: Filters, k: nat)
    requires k < |Criteria|
    ensures Where(FilterUpTo(s, f, k), f, Criteria[k]) == FilterUpTo(s, f, k + 1)
  {
    if s != [] {
      var init, last, c := s[..|s| - 1], s[|s| - 1], Criteria[k];
      WhereStep(init, f, k);
      var r := FilterUpTo(init, f, k);
      assert PassesFirst(f, k + 1, last) == (PassesFirst(f, k, last) && Passes(f, c, last));
      if PassesFirst(f, k, last) {
        assert (r + [last])[..|r|] == r && (r + [last])[|r|] == last;
        assert FilterUpTo(s, f, k) == r + [last];
        assert Where(r + [last], f, c) == Where(r, f, c) + (if Passes(f, c, last) then [last] else []);
        assert FilterUpTo(s, f, k + 1) == FilterUpTo(init, f, k + 1) + (if Passes(f, c, last) then [last] else []);
      } else {
        assert FilterUpTo(s, f, k) == r;
        assert FilterUpTo(s, f, k + 1) == FilterUpTo(init, f, k + 1);
      }
    }
  }

  lemma {:induction false} FilterUpToZero(s: seq<Transaction>, f: Filters)
    ensures FilterUpTo(s, f, 0) == s
  {
    if s != [] {
      FilterUpToZero(s[..|s| - 1], f);
      assert s == s[..|s| - 1] + [s[|s| - 1]];
    }
  }

  lemma ListsEveryCriterion(c: Criterion)
    ensures exists i :: 0 <= i < |Criteria| && Criteria[i] == c
  {
    match c
    case DateFrom => assert Criteria[0] == c;
    case DateTo => assert Criteria[1] == c;
    case MinAmount => assert Criteria[2] == c;
    case MaxAmount => assert Criteria[3] == c;
    case Status => assert Criteria[4] == c;
    case Device => assert Criteria[5] == c;
    case Customer => assert Criteria[6] == c;
  }

  lemma {:induction false} FilterUpToAll(s: seq<Transaction>, f: Filters)
    ensures FilterUpTo(s, f, |Criteria|) == Select(s, f)
  {
    if s != [] {
      FilterUpToAll(s[..|s| - 1], f);
      var t := s[|s| - 1];
      assert PassesFirst(f, |Criteria|, t) == Keep(f, t) by {
        if PassesFirst(f, |Criteria|, t) {
          forall c ensures Passes(f, c, t) {
            ListsEveryCriterion(c);
          }
        }
      }
    }
  }

  /** One `if (filters.x) filtered = filtered.filter(...)` step. */
  method RunPass(filtered: seq<Transaction>, f: Filters, c: Criterion) returns (r: seq<Transaction>)
    ensures r == Where(filtered, f, c)
  {
    if Active(f, c) {
      r := Where(filtered, f, c);
    } else {
      WhereInactive(filtered, f, c);
      r := filtered;
    }
  }

  /** The seven filter passes of `applyFilters`, in the page's order: dates, amounts,
      fraud status, device, customer. */
  method FilterPasses(transactions: seq<Transaction>, f: Filters) returns (filtered: seq<Transaction>)
    ensures filtered == Select(transactions, f)
  {
    FilterUpToZero(transactions, f);
    filtered := RunPass(transactions, f, DateFrom);
    WhereStep(transactions, f, 0);
    filtered := RunPass(filtered, f, DateTo);
    WhereStep(transactions, f, 1);
    filtered := RunPass(filtered, f, MinAmount);
    WhereStep(transactions, f, 2);
    filtered := RunPass(filtered, f, MaxAmount);
    WhereStep(transactions, f, 3);
    filtered := RunPass(filtered, f, Status);
    WhereStep(transactions, f, 4);
    filtered := RunPass(filtered, f, Device);
    WhereStep(transactions, f, 5);
    filtered := RunPass(filtered, f, Customer);
    WhereStep(transactions, f, 6);
    FilterUpToAll(transactions, f);
  }

  /** `applyFilters`: a copy of the transactions, narrowed pass by pass, then sorted in place.
      The result is the survivors of every filter, in the stable descending order of the
      chosen key. */
  method ApplyFilters(transactions: seq<Transaction>, f: Filters) returns (filtered: seq<Transaction>)
    ensures filtered == Ranked(Select(transactions, f), f.sortBy)
    ensures multiset(filtered) == multiset(Select(transactions, f))
    ensures SortedDesc(filtered, f.sortBy)
    ensures StableFor(filtered, Select(transactions, f), f.sortBy)
  {
    filtered := FilterPasses(transactions, f);
    var a := new Transaction[|filtered|](i requires 0 <= i < |filtered| => filtered[i]);
    assert a[..] == filtered;
    SortInPlace(a, f.sortBy);
    filtered := a[..];
    RankedPermutes(Select(transactions, f), f.sortBy);
    RankedSorted(Select(transactions, f), f.sortBy);
    RankedStable(Select(transactions, f), f.sortBy);
  }

  /** A record is kept, as often as it occurs, exactly when it passes every filter. */
  lemma {:induction false} SelectKeepsIff(s: seq<Transaction>, f: Filters, t: Transaction)
    ensures multiset(Select(s, f))[t] == if Keep(f, t) then multiset(s)[t] else 0
  {
    if s != [] {
      SelectKeepsIff(s[..|s| - 1], f, t);
      assert s == s[..|s| - 1] + [s[|s| - 1]];
    }
  }

  /** The survivors keep their input order: they are a subsequence of the input. */
  lemma {:induction false} SelectIsSubsequence(s: seq<Transaction>, f: Filters)
    ensures SubsequenceOf(Select(s, f), s)
    ensures |Select(s, f)| <= |s|
    ensures forall t :: t in Select(s, f) ==> t in s && Keep(f, t)
  {
    if s != [] {
      var init, t := s[..|s| - 1], s[|s| - 1];
      var r := Select(init, f);
      SelectIsSubsequence(init, f);
      if Keep(f, t) {
        assert (r + [t])[..|r|] == r;
      } else {
        assert Select(s, f) == r;
        if r != [] {
          assert r[|r| - 1] in r;
          assert r[|r| - 1] != t;
        }
      }
    }
  }

  /** A list whose every record passes the filters survives them unchanged. */
  lemma {:induction false} SelectAllKept(s: seq<Transaction>, f: Filters)
    requires forall t :: t in s ==> Keep(f, t)
    ensures Select(s, f) == s
  {
    if s != [] {
      SelectAllKept(s[..|s| - 1], f);
      assert s == s[..|s| - 1] + [s[|s| - 1]];
    }
  }

  /** With every box empty and status "all", the filters keep the whole list in order, and
      the page shows a permutation of it. */
  lemma NoCriteriaKeepsAll(s: seq<Transaction>, f: Filters)
    requires NoCriteria(f)
    ensures Select(s, f) == s
    ensures multiset(Ranked(Select(s, f), f.sortBy)) == multiset(s)
  {
    SelectAllKept(s, f);
    RankedPermutes(s, f.sortBy);
  }

  /** Filtering twice with the same criteria changes nothing the second time. */
  lemma SelectIdempotent(s: seq<Transaction>, f: Filters)
    ensures Select(Select(s, f), f) == Select(s, f)
  {
    SelectIsSubsequence(s, f);
    SelectAllKept(Select(s, f), f);
  }

  /** Running `applyFilters` on its own output gives the same list. */
  lemma ApplyFiltersIdempotent(s: seq<Transaction>, f: Filters)
    ensures Ranked(Select(Ranked(Select(s, f), f.sortBy), f), f.sortBy) == Ranked(Select(s, f), f.sortBy)
  {
    var r := Ranked(Select(s, f), f.sortBy);
    RankedPermutes(Select(s, f), f.sortBy);
    SelectIsSubsequence(s, f);
    forall t | t in r ensures Keep(f, t) {
      assert t in multiset(r);
      assert t in multiset(Select(s, f));
    }
    SelectAllKept(r, f);
    RankedSorted(Select(s, f), f.sortBy);
    RankedOfSorted(r, f.sortBy);
  }

  /** Of the status-"fraud" and status-"safe" filters, exactly one keeps a record that
      status "all" keeps, and neither keeps one that status "all" drops. */
  lemma StatusSplitsRecord(f: Filters, t: Transaction)
    ensures Keep(f.(fraudStatus := Fraud), t) == (Keep(f.(fraudStatus := All), t) && t.isFraud)
    ensures Keep(f.(fraudStatus := Safe), t) == (Keep(f.(fraudStatus := All), t) && !t.isFraud)
  {
    var fa, ff, fs := f.(fraudStatus := All), f.(fraudStatus := Fraud), f.(fraudStatus := Safe);
    assert forall c :: c != Status ==> Passes(ff, c, t) == Passes(fa, c, t) && Passes(fs, c, t) == Passes(fa, c, t);
    assert Passes(fa, Status, t);
    if Keep(ff, t) {
      assert Passes(ff, Status, t);
    }
    if Keep(fs, t) {
      assert Passes(fs, Status, t);
    }
  }

  /** Status "fraud" and status "safe" split what status "all" keeps. */
  lemma {:induction false} StatusPartition(s: seq<Transaction>, f: Filters)
    ensures multiset(Select(s, f.(fraudStatus := Fraud))) + multiset(Select(s, f.(fraudStatus := Safe)))
         == multiset(Select(s, f.(fraudStatus := All)))
  {
    if s != [] {
      StatusPartition(s[..|s| - 1], f);
      StatusSplitsRecord(f, s[|s| - 1]);
    }
  }

  /** Status "fraud" keeps fraudulent records only, status "safe" legitimate ones only. */
  lemma StatusSelects(s: seq<Transaction>, f: Filters)
    ensures forall t :: t in Select(s, f.(fraudStatus := Fraud)) ==> t.isFraud
    ensures forall t :: t in Select(s, f.(fraudStatus := Safe)) ==> !t.isFraud
  {
    SelectIsSubsequence(s, f.(fraudStatus := Fraud));
    SelectIsSubsequence(s, f.(fraudStatus := Safe));
    forall t | t in Select(s, f.(fraudStatus := Fraud)) ensures t.isFraud {
      assert Passes(f.(fraudStatus := Fraud), Status, t);
    }
    forall t | t in Select(s, f.(fraudStatus := Safe)) ensures !t.isFraud {
      assert Passes(f.(fraudStatus := Safe), Status, t);
    }
  }

  /** The device query ignores case: lowering it keeps the same records. A record without
      a device model never matches a device query. */
  lemma DeviceQueryIgnoresCase(f: Filters, t: Transaction)
    ensures Keep(f, t) == Keep(f.(deviceModel := Lower(f.deviceModel)), t)
    ensures f.deviceModel != "" && t.deviceModel.None? ==> !Keep(f, t)
  {
    var g := f.(deviceModel := Lower(f.deviceModel));
    LowerIdempotent(f.deviceModel);
    assert (f.deviceModel == "") == (g.deviceModel == "") by {
      assert |Lower(f.deviceModel)| == |f.deviceModel|;
    }
    forall c ensures Passes(f, c, t) == Passes(g, c, t) {
    }
    if f.deviceModel != "" && t.deviceModel.None? {
      assert !Passes(f, Device, t);
    }
  }

  /** The customer query is case-sensitive: "ab" does not find customer "AB". */
  lemma CustomerQueryIsCaseSensitive(t: Transaction)
    requires t.customerId == "AB"
    ensures Keep(ResetFilters().(customerId := "AB"), t)
    ensures !Keep(ResetFilters().(customerId := "ab"), t)
  {
    IncludesIsCaseSensitive();
    var f := ResetFilters().(customerId := "AB");
    forall c ensures Passes(f, c, t) {
    }
    assert !Passes(ResetFilters().(customerId := "ab"), Customer, t);
  }

  /** Each bound is inclusive on its own: a record lying exactly on a set bound passes that
      pass, and one lying just beyond it does not. */
  lemma BoundsInclusive(f: Filters, t: Transaction)
    ensures f.dateFrom == Some(t.timestamp) ==> Passes(f, DateFrom, t)
    ensures f.dateTo == Some(t.timestamp) ==> Passes(f, DateTo, t)
    ensures f.minAmount == Some(t.amount) ==> Passes(f, MinAmount, t)
    ensures f.maxAmount == Some(t.amount) ==> Passes(f, MaxAmount, t)
    ensures f.dateFrom == Some(t.timestamp + 1) ==> !Passes(f, DateFrom, t)
    ensures f.dateTo == Some(t.timestamp - 1) ==> !Passes(f, DateTo, t)
    ensures f.minAmount.Some? && f.minAmount.value > t.amount ==> !Passes(f, MinAmount, t)
    ensures f.maxAmount.Some? && f.maxAmount.value < t.amount ==> !Passes(f, MaxAmount, t)
  {
  }
}
