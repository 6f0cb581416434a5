/** The decision and colour the timeline table shows for a record's fraud probability
    (`getDecision` and `getRiskColor` of src/pages/BatchTimeline/BatchTimeline.tsx). A missing
    probability and a probability of exactly 0 are both falsy, so both give "N/A". */
module TimelineRisk {
  import opened Optional

  datatype Decision = NotAvailable | Approve | Review | Block {
    /** The text of the badge. */
    function Label(): string {
      match this
      case NotAvailable => "N/A"
      case Approve => "APPROVE"
      case Review => "REVIEW"
      case Block => "BLOCK"
    }

    /** How severe the decision is; "N/A" is below every real decision. */
    function Severity(): nat {
      match this
      case NotAvailable => 0
      case Approve => 1
      case Review => 2
      case Block => 3
    }
  }

  const BlockFrom: real := 0.85
  const ReviewFrom: real := 0.50

  /** `!probability`: undefined and 0 are falsy. */
  predicate Falsy(p: Option<real>) {
    p.None? || p.value == 0.0
  }

  /** `getDecision`. */
  function GetDecision(p: Option<real>): (d: Decision)
    ensures d == NotAvailable <==> Falsy(p)
    ensures d == Block <==> !Falsy(p) && p.value >= BlockFrom
    ensures d == Review <==> !Falsy(p) && ReviewFrom <= p.value < BlockFrom
    ensures d == Approve <==> !Falsy(p) && p.value < ReviewFrom
  {
    if Falsy(p) then NotAvailable
    else if p.value >= BlockFrom then Block
    else if p.value >= ReviewFrom then Review
    else Approve
  }

  /** The colour of each decision: gray, green, orange, red. */
  function DecisionColor(d: Decision): string {
    match d
    case NotAvailable => "#a0aec0"
    case Approve => "#48bb78"
    case Review => "#ed8936"
    case Block => "#f56565"
  }

  /** `getRiskColor`. */
  function GetRiskColor(p: Option<real>): string {
    if Falsy(p) then "#a0aec0"
    else if p.value >= 0.85 then "#f56565"
    else if p.value >= 0.50 then "#ed8936"
    else "#48bb78"
  }

  /** The colour badge and the decision badge use the same bands: the colour is the
      decision's colour, and two probabilities get the same colour iff they get the same
      decision. */
  lemma ColorFollowsDecision(p: Option<real>, q: Option<real>)
    ensures GetRiskColor(p) == DecisionColor(GetDecision(p))
    ensures GetRiskColor(p) == GetRiskColor(q) <==> GetDecision(p) == GetDecision(q)
  {
  }

  /** A higher positive probability never gets a milder decision. */
  lemma DecisionMonotone(p: real, q: real)
    requires 0.0 < p <= q
    ensures GetDecision(Some(p)).Severity() <= GetDecision(Some(q)).Severity()
    ensures GetDecision(Some(p)) != NotAvailable
  {
  }

  /** The band edges: 0 is "N/A", the thresholds themselves belong to the higher band, and
      a negative probability is truthy and so is approved. */
  lemma DecisionEdges()
    ensures GetDecision(Some(0.0)) == NotAvailable && GetDecision(None) == NotAvailable
    ensures GetDecision(Some(0.5)) == Review && GetDecision(Some(0.85)) == Block
    ensures GetDecision(Some(0.49)) == Approve && GetDecision(Some(0.84)) == Review
    ensures GetDecision(Some(-0.1)) == Approve
  {
  }
}
