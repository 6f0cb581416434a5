/** The ranking step of the timeline: `filtered.sort(...)` with a comparator that puts the
    larger key first. `Array.prototype.sort` is stable, so its result is fixed by three
    facts: it is a permutation of the input, it is non-increasing in the key, and records
    with equal keys keep their input order. `Ranked` is a stable insertion sort; the lemmas
    prove the three facts of it and that no other arrangement has them. */
module TimelineRank {
  import opened TimelineRecords

  /** Non-increasing in the key: the comparator `key(b) - key(a)`. */
  predicate SortedDesc(s: seq<Transaction>, sortBy: SortBy) {
    forall i, j :: 0 <= i < j < |s| ==> Key(s[i], sortBy) >= Key(s[j], sortBy)
  }

  /** The records of `s` whose key is `v`, in their order in `s`. */
  function WithKey(s: seq<Transaction>, sortBy: SortBy, v: real): seq<Transaction> {
    if s == [] then []
    else WithKey(s[..|s| - 1], sortBy, v) + (if Key(s[|s| - 1], sortBy) == v then [s[|s| - 1]] else [])
  }

  /** Stability: for every key value, the records having it appear in the same order. */
  ghost predicate StableFor(r: seq<Transaction>, s: seq<Transaction>, sortBy: SortBy) {
    forall v :: WithKey(r, sortBy, v) == WithKey(s, sortBy, v)
  }

  /** Places `x` behind every trailing element whose key is not smaller than its own. */
  function Insert(x: Transaction, s: seq<Transaction>, sortBy: SortBy): seq<Transaction> {
    if s == [] || Key(s[|s| - 1], sortBy) >= Key(x, sortBy) then s + [x]
    else Insert(x, s[..|s| - 1], sortBy) + [s[|s| - 1]]
  }

  /** The stable descending order of `s`: each record inserted in turn, left to right. */
  function Ranked(s: seq<Transaction>, sortBy: SortBy): seq<Transaction> {
    if s == [] then [] else Insert(s[|s| - 1], Ranked(s[..|s| - 1], sortBy), sortBy)
  }

  lemma {:induction false} InsertPermutes(x: Transaction, s: seq<Transaction>, sortBy: SortBy)
    ensures multiset(Insert(x, s, sortBy)) == multiset(s) + multiset{x}
  {
    if s == [] || Key(s[|s| - 1], sortBy) >= Key(x, sortBy) {
    } else {
      InsertPermutes(x, s[..|s| - 1], sortBy);
      assert s == s[..|s| - 1] + [s[|s| - 1]];
    }
  }

  /** Appending a record no larger than any before it keeps a list sorted. */
  lemma SortedSnoc(r: seq<Transaction>, y: Transaction, sortBy: SortBy)
    requires SortedDesc(r, sortBy)
    requires forall i :: 0 <= i < |r| ==> Key(r[i], sortBy) >= Key(y, sortBy)
    ensures SortedDesc(r + [y], sortBy)
  {
  }

  lemma {:induction false} InsertKeepsSorted(x: Transaction, s: seq<Transaction>, sortBy: SortBy)
    requires SortedDesc(s, sortBy)
    ensures SortedDesc(Insert(x, s, sortBy), sortBy)
  {
    if s == [] || Key(s[|s| - 1], sortBy) >= Key(x, sortBy) {
      SortedSnoc(s, x, sortBy);
    } else {
      var init, last := s[..|s| - 1], s[|s| - 1];
      assert SortedDesc(init, sortBy);
      InsertKeepsSorted(x, init, sortBy);
      InsertPermutes(x, init, sortBy);
      var r := Insert(x, init, sortBy);
      forall i | 0 <= i < |r|
        ensures Key(r[i], sortBy) >= Key(last, sortBy)
      {
        assert r[i] in multiset(r);
        if r[i] != x {
          assert r[i] in multiset(init);
          var k :| 0 <= k < |init| && init[k] == r[i];
          assert s[k] == r[i];
        }
      }
      SortedSnoc(r, last, sortBy);
    }
  }

  /** The records with key `v` after appending `y`. */
  lemma WithKeySnoc(s: seq<Transaction>, y: Transaction, sortBy: SortBy, v: real)
    ensures WithKey(s + [y], sortBy, v) == WithKey(s, sortBy, v) + (if Key(y, sortBy) == v then [y] else [])
  {
    assert (s + [y])[..|s|] == s;
  }

  lemma {:induction false} InsertWithKey(x: Transaction, s: seq<Transaction>, sortBy: SortBy, v: real)
    ensures WithKey(Insert(x, s, sortBy), sortBy, v)
         == WithKey(s, sortBy, v) + (if Key(x, sortBy) == v then [x] else [])
  {
    if s == [] || Key(s[|s| - 1], sortBy) >= Key(x, sortBy) {
      WithKeySnoc(s, x, sortBy, v);
    } else {
      var init, last := s[..|s| - 1], s[|s| - 1];
      assert s == init + [last];
      InsertWithKey(x, init, sortBy, v);
      var r := Insert(x, init, sortBy);
      assert Insert(x, s, sortBy) == r + [last];
      WithKeySnoc(r, last, sortBy, v);
      WithKeySnoc(init, last, sortBy, v);
      var w := WithKey(init, sortBy, v);
      if Key(x, sortBy) == v {
        // `last` has a smaller key than `x`, so it does not have key `v`.
        assert WithKey(r, sortBy, v) == w + [x];
        assert WithKey(r + [last], sortBy, v) == w + [x];
        assert WithKey(s, sortBy, v) == w;
      } else {
        assert WithKey(r, sortBy, v) == w;
      }
    }
  }

  /** The ranked list is a permutation of its input. */
  lemma {:induction false} RankedPermutes(s: seq<Transaction>, sortBy: SortBy)
    ensures multiset(Ranked(s, sortBy)) == multiset(s)
  {
    if s != [] {
      var init, last := s[..|s| - 1], s[|s| - 1];
      RankedPermutes(init, sortBy);
      InsertPermutes(last, Ranked(init, sortBy), sortBy);
      assert s == init + [last];
      assert multiset(s) == multiset(init) + multiset{last};
    }
  }

  /** The ranked list is non-increasing in the chosen key. */
  lemma {:induction false} RankedSorted(s: seq<Transaction>, sortBy: SortBy)
    ensures SortedDesc(Ranked(s, sortBy), sortBy)
  {
    if s != [] {
      RankedSorted(s[..|s| - 1], sortBy);
      InsertKeepsSorted(s[|s| - 1], Ranked(s[..|s| - 1], sortBy), sortBy);
    }
  }

  /** Records with equal keys keep their input order. */
  lemma {:induction false} RankedStable(s: seq<Transaction>, sortBy: SortBy)
    ensures StableFor(Ranked(s, sortBy), s, sortBy)
  {
    if s != [] {
      RankedStable(s[..|s| - 1], sortBy);
      forall v
        ensures WithKey(Ranked(s, sortBy), sortBy, v) == WithKey(s, sortBy, v)
      {
        InsertWithKey(s[|s| - 1], Ranked(s[..|s| - 1], sortBy), sortBy, v);
      }
    }
  }

  lemma {:induction false} WithKeyMembers(s: seq<Transaction>, sortBy: SortBy, v: real, y: Transaction)
    requires y in WithKey(s, sortBy, v)
    ensures y in s && Key(y, sortBy) == v
  {
    if s != [] && y !in WithKey(s[..|s| - 1], sortBy, v) {
    } else if s != [] {
      WithKeyMembers(s[..|s| - 1], sortBy, v, y);
    }
  }

  /** The last element of a sorted list has the smallest key of the list. */
  lemma LastHasSmallestKey(r: seq<Transaction>, sortBy: SortBy, y: Transaction)
    requires SortedDesc(r, sortBy) && y in r
    ensures Key(r[|r| - 1], sortBy) <= Key(y, sortBy)
  {
  }

  /** Removing a last record that has key `v` removes the last record with key `v`. */
  lemma WithKeyOfLast(r: seq<Transaction>, sortBy: SortBy, v: real)
    requires r != []
    ensures WithKey(r, sortBy, v)
         == WithKey(r[..|r| - 1], sortBy, v) + (if Key(r[|r| - 1], sortBy) == v then [r[|r| - 1]] else [])
  {
  }

  /** If the records keyed like the last record of `r1` are the same in `r2`, the last
      record of a sorted `r2` has a key no larger. */
  lemma LastKeyBound(r1: seq<Transaction>, r2: seq<Transaction>, sortBy: SortBy)
    requires r1 != [] && r2 != [] && SortedDesc(r2, sortBy)
    requires WithKey(r1, sortBy, Key(r1[|r1| - 1], sortBy)) == WithKey(r2, sortBy, Key(r1[|r1| - 1], sortBy))
    ensures Key(r2[|r2| - 1], sortBy) <= Key(r1[|r1| - 1], sortBy)
  {
    var a := r1[|r1| - 1];
    WithKeyOfLast(r1, sortBy, Key(a, sortBy));
    assert a in WithKey(r1, sortBy, Key(a, sortBy));
    WithKeyMembers(r2, sortBy, Key(a, sortBy), a);
    LastHasSmallestKey(r2, sortBy, a);
  }

  /** Two lists ending in records with the same key agree on their last record when they
      agree on the records with that key, and agree on every key once it is removed. */
  lemma DropSameLast(r1: seq<Transaction>, r2: seq<Transaction>, sortBy: SortBy, v: real)
    requires r1 != [] && r2 != []
    requires Key(r1[|r1| - 1], sortBy) == Key(r2[|r2| - 1], sortBy)
    requires WithKey(r1, sortBy, Key(r1[|r1| - 1], sortBy)) == WithKey(r2, sortBy, Key(r1[|r1| - 1], sortBy))
    requires WithKey(r1, sortBy, v) == WithKey(r2, sortBy, v)
    ensures r1[|r1| - 1] == r2[|r2| - 1]
    ensures WithKey(r1[..|r1| - 1], sortBy, v) == WithKey(r2[..|r2| - 1], sortBy, v)
  {
    var a, b := r1[|r1| - 1], r2[|r2| - 1];
    var va := Key(a, sortBy);
    WithKeyOfLast(r1, sortBy, va);
    WithKeyOfLast(r2, sortBy, va);
    var w1, w2 := WithKey(r1[..|r1| - 1], sortBy, va), WithKey(r2[..|r2| - 1], sortBy, va);
    assert (w1 + [a])[|w1|] == a && (w2 + [b])[|w2|] == b;
    WithKeyOfLast(r1, sortBy, v);
    WithKeyOfLast(r2, sortBy, v);
    if v == va {
      assert w1 + [a] == w2 + [b];
      assert |w1| == |w2|;
      assert w1 == (w1 + [a])[..|w1|];
      assert w2 == (w2 + [b])[..|w2|];
    } else {
      assert Key(a, sortBy) != v && Key(b, sortBy) != v;
      assert WithKey(r1, sortBy, v) == WithKey(r1[..|r1| - 1], sortBy, v);
      assert WithKey(r2, sortBy, v) == WithKey(r2[..|r2| - 1], sortBy, v);
    }
  }

  /** Two sorted lists, stable with respect to each other, end in the same record and stay
      stable once it is removed. */
  lemma SameLast(r1: seq<Transaction>, r2: seq<Transaction>, sortBy: SortBy)
    requires r1 != [] && r2 != []
    requires SortedDesc(r1, sortBy) && SortedDesc(r2, sortBy)
    requires StableFor(r1, r2, sortBy)
    ensures r1[|r1| - 1] == r2[|r2| - 1]
    ensures StableFor(r1[..|r1| - 1], r2[..|r2| - 1], sortBy)
  {
    var va, vb := Key(r1[|r1| - 1], sortBy), Key(r2[|r2| - 1], sortBy);
    assert WithKey(r1, sortBy, va) == WithKey(r2, sortBy, va);
    assert WithKey(r2, sortBy, vb) == WithKey(r1, sortBy, vb);
    LastKeyBound(r1, r2, sortBy);
    LastKeyBound(r2, r1, sortBy);
    var i1, i2 := r1[..|r1| - 1], r2[..|r2| - 1];
    forall v
      ensures WithKey(i1, sortBy, v) == WithKey(i2, sortBy, v)
    {
      assert WithKey(r1, sortBy, v) == WithKey(r2, sortBy, v);
      DropSameLast(r1, r2, sortBy, v);
    }
    DropSameLast(r1, r2, sortBy, va);
  }

  /** Two sorted arrangements that are stable with respect to each other are the same list. */
  lemma {:induction false} SortedStableUnique(r1: seq<Transaction>, r2: seq<Transaction>, sortBy: SortBy)
    requires SortedDesc(r1, sortBy) && SortedDesc(r2, sortBy)
    requires StableFor(r1, r2, sortBy)
    ensures r1 == r2
    decreases |r1|
  {
    if r1 == [] && r2 != [] {
      var v := Key(r2[|r2| - 1], sortBy);
      WithKeyOfLast(r2, sortBy, v);
      assert false;
    } else if r1 != [] && r2 == [] {
      var v := Key(r1[|r1| - 1], sortBy);
      WithKeyOfLast(r1, sortBy, v);
      assert false;
    } else if r1 != [] {
      SameLast(r1, r2, sortBy);
      var i1, i2 := r1[..|r1| - 1], r2[..|r2| - 1];
      assert SortedDesc(i1, sortBy) && SortedDesc(i2, sortBy);
      SortedStableUnique(i1, i2, sortBy);
      assert r1 == i1 + [r1[|r1| - 1]] && r2 == i2 + [r2[|r2| - 1]];
    }
  }

  /** Any non-increasing arrangement of `s` that is stable is exactly `Ranked(s)`: the
      insertion sort and the browser's stable sort agree on every input. */
  lemma StableSortIsRanked(s: seq<Transaction>, r: seq<Transaction>, sortBy: SortBy)
    requires SortedDesc(r, sortBy) && StableFor(r, s, sortBy)
    ensures r == Ranked(s, sortBy)
  {
    RankedSorted(s, sortBy);
    RankedStable(s, sortBy);
    SortedStableUnique(r, Ranked(s, sortBy), sortBy);
  }

  /** Ranking a list that is already in order changes nothing. */
  lemma RankedOfSorted(s: seq<Transaction>, sortBy: SortBy)
    requires SortedDesc(s, sortBy)
    ensures Ranked(s, sortBy) == s
  {
    StableSortIsRanked(s, s, sortBy);
  }

  /** Where `Insert` puts `x`: behind position `j`, when every record from `j` on has a
      smaller key and the record before `j`, if any, does not. */
  lemma {:induction false} InsertPosition(x: Transaction, sorted: seq<Transaction>, j: int, sortBy: SortBy)
    requires 0 <= j <= |sorted|
    requires j == 0 || Key(sorted[j - 1], sortBy) >= Key(x, sortBy)
    requires forall k :: j <= k < |sorted| ==> Key(sorted[k], sortBy) < Key(x, sortBy)
    ensures Insert(x, sorted, sortBy) == sorted[..j] + [x] + sorted[j..]
    decreases |sorted|
  {
    if j == |sorted| {
      assert sorted[..j] == sorted && sorted[j..] == [];
    } else {
      var init, last := sorted[..|sorted| - 1], sorted[|sorted| - 1];
      assert Key(last, sortBy) < Key(x, sortBy);
      assert Insert(x, sorted, sortBy) == Insert(x, init, sortBy) + [last];
      InsertPosition(x, init, j, sortBy);
      assert init[..j] == sorted[..j] && init[j..] + [last] == sorted[j..];
    }
  }

  /** The array after `InsertAt`'s loop: the sorted prefix with `x` at the first position
      from which every key is smaller, then the untouched rest. */
  lemma ShiftedIsInsert(r: seq<Transaction>, x: Transaction, sorted: seq<Transaction>, rest: seq<Transaction>,
                        j: int, sortBy: SortBy)
    requires 0 <= j <= |sorted| && |r| == |sorted| + 1 + |rest|
    requires forall k :: 0 <= k < j ==> r[k] == sorted[k]
    requires r[j] == x
    requires forall k :: j < k <= |sorted| ==> r[k] == sorted[k - 1]
    requires forall k :: |sorted| < k < |r| ==> r[k] == rest[k - |sorted| - 1]
    requires forall k :: j <= k < |sorted| ==> Key(sorted[k], sortBy) < Key(x, sortBy)
    requires j == 0 || Key(sorted[j - 1], sortBy) >= Key(x, sortBy)
    ensures r == Insert(x, sorted, sortBy) + rest
  {
    InsertPosition(x, sorted, j, sortBy);
    assert r == sorted[..j] + [x] + sorted[j..] + rest;
  }

  /** The loop of `InsertAt`: shifts right, by one place, the trailing records of `a[..i]`
      whose key is smaller than `x`'s, and returns the place they vacated. */
  method ShiftSmaller(a: array<Transaction>, i: int, x: Transaction, sortBy: SortBy) returns (j: int)
    requires 0 <= i < a.Length
    modifies a
    ensures 0 <= j <= i
    ensures forall k :: 0 <= k < j ==> a[k] == old(a[k])
    ensures forall k :: j < k <= i ==> a[k] == old(a[k - 1])
    ensures forall k :: i < k < a.Length ==> a[k] == old(a[k])
    ensures forall k :: j <= k < i ==> Key(old(a[k]), sortBy) < Key(x, sortBy)
    ensures j == 0 || Key(old(a[j - 1]), sortBy) >= Key(x, sortBy)
  {
    j := i;
    while j > 0 && Key(a[j - 1], sortBy) < Key(x, sortBy)
      invariant 0 <= j <= i
      invariant forall k :: 0 <= k < j ==> a[k] == old(a[k])
      invariant forall k :: j < k <= i ==> a[k] == old(a[k - 1])
      invariant forall k :: i < k < a.Length ==> a[k] == old(a[k])
      invariant forall k :: j <= k < i ==> Key(old(a[k]), sortBy) < Key(x, sortBy)
    {
      a[j] := a[j - 1];
      j := j - 1;
    }
  }

  /** One step of the insertion sort: moves `a[i]` left past the records of the sorted
      prefix `a[..i]` whose key is smaller than its own. */
  method InsertAt(a: array<Transaction>, i: int, sortBy: SortBy)
    requires 0 <= i < a.Length
    modifies a
    ensures a[..] == Insert(old(a[i]), old(a[..i]), sortBy) + old(a[i + 1..])
  {
    var x := a[i];
    ghost var sorted, rest := a[..i], a[i + 1..];
    var j := ShiftSmaller(a, i, x, sortBy);
    a[j] := x;
    ShiftedIsInsert(a[..], x, sorted, rest, j, sortBy);
  }

  /** After `InsertAt(a, i)` on an array whose first `i` records are the ranked first `i`
      records of `input` and whose others are untouched, the same holds for `i + 1`. */
  lemma SortStep(input: seq<Transaction>, before: seq<Transaction>, after: seq<Transaction>, i: int, sortBy: SortBy)
    requires 0 <= i < |input| == |before| == |after|
    requires before[..i] == Ranked(input[..i], sortBy) && before[i..] == input[i..]
    requires after == Insert(before[i], before[..i], sortBy) + before[i + 1..]
    ensures after[..i + 1] == Ranked(input[..i + 1], sortBy) && after[i + 1..] == input[i + 1..]
  {
    var ins := Insert(before[i], before[..i], sortBy);
    InsertLength(before[i], before[..i], sortBy);
    SplitConcat(ins, before[i + 1..]);
    SameHead(before, input, i);
    PrefixSnoc(input, i);
    RankedSnoc(input[..i], input[i], sortBy);
    SameTail(before, input, i);
  }

  lemma {:induction false} InsertLength(x: Transaction, s: seq<Transaction>, sortBy: SortBy)
    ensures |Insert(x, s, sortBy)| == |s| + 1
  {
    if s != [] && Key(s[|s| - 1], sortBy) < Key(x, sortBy) {
      InsertLength(x, s[..|s| - 1], sortBy);
    }
  }

  lemma SplitConcat(a: seq<Transaction>, b: seq<Transaction>)
    ensures (a + b)[..|a|] == a && (a + b)[|a|..] == b
  {
  }

  lemma PrefixSnoc(s: seq<Transaction>, i: int)
    requires 0 <= i < |s|
    ensures s[..i + 1] == s[..i] + [s[i]]
  {
  }

  lemma SameHead(a: seq<Transaction>, b: seq<Transaction>, i: int)
    requires 0 <= i < |a| == |b| && a[i..] == b[i..]
    ensures a[i] == b[i]
  {
    assert a[i..][0] == b[i..][0];
  }

  /** Ranking a list with one more record inserts that record into the ranked list. */
  lemma RankedSnoc(p: seq<Transaction>, y: Transaction, sortBy: SortBy)
    ensures Ranked(p + [y], sortBy) == Insert(y, Ranked(p, sortBy), sortBy)
  {
    assert (p + [y])[..|p|] == p;
  }

  lemma SameTail(a: seq<Transaction>, b: seq<Transaction>, i: int)
    requires 0 <= i < |a| == |b| && a[i..] == b[i..]
    ensures a[i + 1..] == b[i + 1..]
  {
    assert a[i + 1..] == a[i..][1..];
    assert b[i + 1..] == b[i..][1..];
  }

  /** `filtered.sort(cmp)`: sorts the array in place, one insertion at a time. */
  method SortInPlace(a: array<Transaction>, sortBy: SortBy)
    modifies a
    ensures a[..] == Ranked(old(a[..]), sortBy)
  {
    ghost var input := a[..];
    var i := 0;
    while i < a.Length
      invariant 0 <= i <= a.Length
      invariant a[..i] == Ranked(input[..i], sortBy)
      invariant a[i..] == input[i..]
    {
      ghost var before := a[..];
      InsertAt(a, i, sortBy);
      SortStep(input, before, a[..], i, sortBy);
      i := i + 1;
    }
    assert a[..] == a[..a.Length] && input == input[..a.Length];
  }
}
