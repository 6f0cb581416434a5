/** The transaction list of the analysis page
    (src/pages/TransactionAnalysis/TransactionAnalysis.tsx): the all/fraud/safe filter and
    the counts on its buttons, the probability colour of a card, the colour of a decision
    badge and the window of cards shown. */
module TransactionAnalysis {
  import opened Optional
  import Windows
  import opened Sequences

  /** What a card of the list shows of a transaction. */
  datatype Card = Card(id: int, customerId: string, amount: real, isFraud: bool, fraudProbability: Option<real>)

  datatype StatusFilter = All | Fraud | Safe

  /** The predicate of `transactions.filter`. */
  predicate Matches(filter: StatusFilter, t: Card) {
    match filter
    case Fraud => t.isFraud
    case Safe => !t.isFraud
    case All => true
  }

  /** `filteredTransactions`. */
  function Shown(ts: seq<Card>, filter: StatusFilter): seq<Card> {
    if ts == [] then []
    else Shown(ts[..|ts| - 1], filter) + (if Matches(filter, ts[|ts| - 1]) then [ts[|ts| - 1]] else [])
  }

  /** A card is listed as often as it occurs in the input when it matches the filter, and
      not at all otherwise. */
  lemma {:induction false} ShownKeepsIff(ts: seq<Card>, filter: StatusFilter, t: Card)
    ensures multiset(Shown(ts, filter))[t] == if Matches(filter, t) then multiset(ts)[t] else 0
  {
    if ts != [] {
      var init, last := ts[..|ts| - 1], ts[|ts| - 1];
      ShownKeepsIff(init, filter, t);
      assert ts == init + [last];
      assert multiset(ts) == multiset(init) + multiset{last};
      if Matches(filter, last) {
        assert multiset(Shown(ts, filter)) == multiset(Shown(init, filter)) + multiset{last};
      } else {
        assert Shown(ts, filter) == Shown(init, filter);
      }
    }
  }

  lemma {:induction false} ShownMatch(ts: seq<Card>, filter: StatusFilter)
    ensures forall t :: t in Shown(ts, filter) ==> Matches(filter, t)
  {
    if ts != [] {
      ShownMatch(ts[..|ts| - 1], filter);
    }
  }

  /** The list keeps the input's order: it is a subsequence of the input. */
  lemma {:induction false} ShownIsSubsequence(ts: seq<Card>, filter: StatusFilter)
    ensures SubsequenceOf(Shown(ts, filter), ts)
  {
    if ts != [] {
      var init, t := ts[..|ts| - 1], ts[|ts| - 1];
      var r := Shown(init, filter);
      ShownIsSubsequence(init, filter);
      if Matches(filter, t) {
        assert (r + [t])[..|r|] == r;
      } else {
        assert Shown(ts, filter) == r;
        if r != [] {
          ShownMatch(init, filter);
          assert r[|r| - 1] in r;
          assert r[|r| - 1] != t;
        }
      }
    }
  }

  /** Filter "all" lists the whole input. */
  lemma {:induction false} AllShowsEverything(ts: seq<Card>)
    ensures Shown(ts, All) == ts
  {
    if ts != [] {
      AllShowsEverything(ts[..|ts| - 1]);
      assert ts == ts[..|ts| - 1] + [ts[|ts| - 1]];
    }
  }

  /** The counts on the buttons: the fraudulent and the safe transactions together are all
      of them, as a multiset and so also in number. */
  lemma ButtonCounts(ts: seq<Card>)
    ensures multiset(Shown(ts, Fraud)) + multiset(Shown(ts, Safe)) == multiset(Shown(ts, All))
    ensures |Shown(ts, Fraud)| + |Shown(ts, Safe)| == |ts|
  {
    AllShowsEverything(ts);
    forall t
      ensures (multiset(Shown(ts, Fraud)) + multiset(Shown(ts, Safe)))[t] == multiset(ts)[t]
    {
      ShownKeepsIff(ts, Fraud, t);
      ShownKeepsIff(ts, Safe, t);
    }
    assert multiset(Shown(ts, Fraud)) + multiset(Shown(ts, Safe)) == multiset(ts);
    assert |multiset(Shown(ts, Fraud)) + multiset(Shown(ts, Safe))| == |multiset(ts)|;
  }

  /** At most 50 cards are rendered, the first ones of the filtered list. */
  const CardLimit: nat := 50

  function Cards(ts: seq<Card>, filter: StatusFilter): (r: seq<Card>)
    ensures |r| <= CardLimit && r <= Shown(ts, filter)
    ensures |Shown(ts, filter)| <= CardLimit ==> r == Shown(ts, filter)
    ensures |Shown(ts, filter)| > CardLimit ==> |r| == CardLimit
  {
    Windows.Take(Shown(ts, filter), CardLimit)
  }

  /** `getRiskColor` of a card: gray for a missing or zero probability, red from 0.7,
      orange from 0.5, green below. */
  function GetRiskColor(p: Option<real>): (c: string)
    ensures c == "gray" <==> p.None? || p.value == 0.0
    ensures c == "red" <==> p.Some? && p.value >= 0.7
    ensures c == "orange" <==> p.Some? && 0.5 <= p.value < 0.7
    ensures c == "green" <==> p.Some? && p.value != 0.0 && p.value < 0.5
  {
    if p.None? || p.value == 0.0 then "gray"
    else if p.value >= 0.7 then "red"
    else if p.value >= 0.5 then "orange"
    else "green"
  }

  /** The `colors` table of `getDecisionBadge`. */
  const DecisionColors: map<string, string> := map["BLOCK" := "red", "REVIEW" := "orange", "APPROVE" := "green"]

  /** `getDecisionBadge`: the three decisions have their colours, any other text is gray. */
  function GetDecisionBadge(decision: string): (c: string)
    ensures decision == "BLOCK" ==> c == "red"
    ensures decision == "REVIEW" ==> c == "orange"
    ensures decision == "APPROVE" ==> c == "green"
    ensures c == "gray" <==> decision !in {"BLOCK", "REVIEW", "APPROVE"}
  {
    if decision in DecisionColors then DecisionColors[decision] else "gray"
  }
}
