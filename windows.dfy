/** The list windows the pages render: `list.slice(0, n)` for the first rows of a table,
    `list.slice(-n)` for the most recent points of a chart, and the "more rows" notice
    shown under a truncated table. */
module Windows {

  /** `list.slice(0, n)`: the first `n` elements, or all of them when there are fewer. */
  function Take<T>(s: seq<T>, n: nat): (r: seq<T>)
    ensures |r| == if |s| <= n then |s| else n
    ensures r <= s
  {
    if |s| <= n then s else s[..n]
  }

  /** `list.slice(-n)`: the last `n` elements, or all of them when there are fewer.
      `slice(-0)` is `slice(0)`, the whole list. */
  function TakeLast<T>(s: seq<T>, n: nat): (r: seq<T>)
    ensures n == 0 || |s| <= n ==> r == s
    ensures n > 0 ==> |r| == if |s| <= n then |s| else n
    ensures s == s[..|s| - |r|] + r
  {
    if n == 0 || |s| <= n then s else s[|s| - n..]
  }

  /** The notice under a table that shows the first `n` rows is rendered iff rows are
      missing from it. */
  predicate HasMore<T>(s: seq<T>, n: nat) {
    |s| > n
  }

  /** How many rows the notice reports as not shown (`length - n`). */
  function Hidden<T>(s: seq<T>, n: nat): nat
    requires HasMore(s, n)
  {
    |s| - n
  }

  /** The notice appears exactly when the window drops rows, and the count it reports is
      exactly the number of rows dropped. */
  lemma TakeAndHidden<T>(s: seq<T>, n: nat)
    ensures HasMore(s, n) <==> |Take(s, n)| < |s|
    ensures HasMore(s, n) ==> Take(s, n) + s[n..] == s && Hidden(s, n) == |s[n..]|
    ensures !HasMore(s, n) ==> Take(s, n) == s
  {
    if HasMore(s, n) {
      assert Take(s, n) + s[n..] == s[..n] + s[n..];
    }
  }
}
