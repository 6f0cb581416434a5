/** The records and filter criteria of the transaction timeline page
    (src/pages/BatchTimeline/BatchTimeline.tsx), and the meaning of each filter. */
module TimelineRecords {
  import opened Optional
  import opened Text

  /** A transaction as the timeline receives it. `timestamp` is `transactionDateTime`
      already parsed to milliseconds; OS version and login count are never read by the
      timeline's logic and are not carried. */
  datatype Transaction = Transaction(
    id: int,
    transactionId: string,
    customerId: string,
    recipientId: string,
    amount: real,
    timestamp: int,
    isFraud: bool,
    fraudProbability: Option<real>,
    deviceModel: Option<string>)

  datatype FraudStatus = All | Fraud | Safe

  datatype SortBy = ByDate | ByAmount | ByRisk

  /** The filter form. An empty text box is `None` for the dates and amounts (the page
      tests the raw string, and only the empty string is falsy) and `""` for the two
      substring queries. */
  datatype Filters = Filters(
    dateFrom: Option<int>,
    dateTo: Option<int>,
    minAmount: Option<real>,
    maxAmount: Option<real>,
    fraudStatus: FraudStatus,
    deviceModel: string,
    customerId: string,
    sortBy: SortBy)

  /** The seven filter passes, in the order the page applies them. */
  datatype Criterion = DateFrom | DateTo | MinAmount | MaxAmount | Status | Device | Customer

  const Criteria: seq<Criterion> := [DateFrom, DateTo, MinAmount, MaxAmount, Status, Device, Customer]

  /** Whether the page runs the pass for `c` at all. */
  predicate Active(f: Filters, c: Criterion) {
    match c
    case DateFrom => f.dateFrom.Some?
    case DateTo => f.dateTo.Some?
    case MinAmount => f.minAmount.Some?
    case MaxAmount => f.maxAmount.Some?
    case Status => f.fraudStatus != All
    case Device => f.deviceModel != ""
    case Customer => f.customerId != ""
  }

  /** The device query: a case-insensitive substring of the record's device model; a
      record without a device model never matches. */
  predicate DeviceMatches(t: Transaction, query: string) {
    t.deviceModel.Some? && Includes(Lower(t.deviceModel.value), Lower(query))
  }

  /** The predicate of pass `c`, with an inactive pass keeping every record. */
  predicate Passes(f: Filters, c: Criterion, t: Transaction) {
    !Active(f, c) ||
    match c
    case DateFrom => t.timestamp >= f.dateFrom.value
    case DateTo => t.timestamp <= f.dateTo.value
    case MinAmount => t.amount >= f.minAmount.value
    case MaxAmount => t.amount <= f.maxAmount.value
    case Status => if f.fraudStatus == Fraud then t.isFraud else !t.isFraud
    case Device => DeviceMatches(t, f.deviceModel)
    case Customer => Includes(t.customerId, f.customerId)
  }

  /** A record survives the filters when it passes all seven. */
  predicate Keep(f: Filters, t: Transaction) {
    forall c :: Passes(f, c, t)
  }

  /** One `filtered.filter(...)` pass. */
  function Where(s: seq<Transaction>, f: Filters, c: Criterion): seq<Transaction> {
    if s == [] then []
    else Where(s[..|s| - 1], f, c) + (if Passes(f, c, s[|s| - 1]) then [s[|s| - 1]] else [])
  }

  /** The records of `s` that survive every filter, in their input order. */
  function Select(s: seq<Transaction>, f: Filters): seq<Transaction> {
    if s == [] then []
    else Select(s[..|s| - 1], f) + (if Keep(f, s[|s| - 1]) then [s[|s| - 1]] else [])
  }

  /** No criterion set (the sort key is not a criterion). */
  predicate NoCriteria(f: Filters) {
    forall c :: !Active(f, c)
  }

  /** The filter form after "reset": every box empty, all statuses, newest first. */
  function ResetFilters(): (f: Filters)
    ensures NoCriteria(f) && f.sortBy == ByDate
  {
    Filters(None, None, None, None, All, "", "", ByDate)
  }

  /** The ranking key, largest first: the timestamp, the amount, or the fraud
      probability with an absent one read as 0. */
  function Key(t: Transaction, sortBy: SortBy): real {
    match sortBy
    case ByDate => t.timestamp as real
    case ByAmount => t.amount
    case ByRisk => t.fraudProbability.GetOr(0.0)
  }
}
