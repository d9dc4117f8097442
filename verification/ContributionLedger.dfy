/**
 The life of a contribution: received, reconciled, endorsed, corrected, refunded. Each step is one
 transaction; it checks its guards before writing anything, and a refused step leaves no trace.
 */
module ContributionLedger {
  import opened Options
  import opened Strings
  import opened Texts
  import opened AllocationFill

  datatype ContributionStatus = Received | Reconciled | Endorsed | Rejected

  datatype Currency = Idr | Usdc6dp

  datatype Contribution = Contribution(
    channel: Text, reference: Text, currency: Currency, amount: nat, fund: Option<FundType>, purpose: string, receivedAt: nat,
    status: ContributionStatus, reconciledAt: Option<nat>, endorsedAt: Option<nat>,
    version: nat, createdAt: nat, updatedAt: nat)

  datatype CorrectionType = AmountCorrection | DuplicateCorrection

  datatype Correction = Correction(
    fromVersion: nat, toVersion: nat, kind: CorrectionType, fromAmount: nat, toAmount: nat, createdAt: nat)

  datatype RefundStatus = Decided | Paid

  datatype Refund = Refund(
    amount: nat, status: RefundStatus, contributionVersion: nat, decidedAt: nat, paidAt: Option<nat>,
    version: nat, createdAt: nat, updatedAt: nat)

  datatype HistoryAction =
    Record | Reconcile | Endorse | CorrectAmount | CorrectDuplicate | DecideRefund | PayRefund | RecoverContact | RejectRecovery

  /** `id` is the table's serial number. */
  datatype HistoryEntry = HistoryEntry(
    id: nat, version: nat, fromStatus: ContributionStatus, toStatus: ContributionStatus, action: HistoryAction, occurredAt: nat)

  /** A contribution row with the rows that refer to it. */
  datatype CollectionRecord = CollectionRecord(
    contribution: Contribution, corrections: seq<Correction>, refunds: seq<Refund>, history: seq<HistoryEntry>)

  datatype LedgerError = NotFound | IdTaken | DuplicateSource | VersionConflict | InvalidInput | InvalidState | AlreadyPaid

  datatype ContributionInput = ContributionInput(
    channel: Text, reference: Text, currency: Currency, amount: nat, fund: Option<FundType>, purpose: string, receivedAt: nat)

  /** `amount` is absent when the text given is not a positive integer without leading zeros. */
  datatype CorrectionInput = CorrectionInput(kind: CorrectionType, amount: Option<nat>, reason: string, sourceProof: string)

  datatype RefundInput = RefundInput(amount: Option<nat>, reason: string, policyBasis: string)

  datatype PaymentInput = PaymentInput(paymentProof: string, paidAt: int)

  /** The transactions that change an existing contribution. */
  datatype Step =
    | ReconcileStep(expectedVersion: int)
    | EndorseStep(expectedVersion: int)
    | CorrectStep(expectedVersion: int, correction: CorrectionInput)
    | DecideRefundStep(expectedVersion: int, refund: RefundInput)
    | PayRefundStep(refundId: nat, payment: PaymentInput)
    | DecideRecoveryStep(expectedVersion: int, approved: bool)

  const MAX_SAFE_SECONDS: int := 0x1F_FFFF_FFFF_FFFF

  // ----- Guards

  predicate TransitionAllowed(from: ContributionStatus, to: ContributionStatus)
  {
    from == to ||
    match from
    case Received => to == Reconciled || to == Rejected
    case Reconciled => true
    case Endorsed => to == Rejected
    case Rejected => false
  }

  predicate CorrectionAccepted(input: CorrectionInput, current: nat)
  {
    |Trim(input.reason)| >= 5 && Trim(input.sourceProof) != "" &&
    (input.kind == AmountCorrection ==> input.amount.Some? && input.amount.value > 0 && input.amount.value != current)
  }

  predicate RefundAccepted(input: RefundInput, available: nat)
  {
    input.amount.Some? && 0 < input.amount.value <= available &&
    |Trim(input.reason)| >= 5 && |Trim(input.policyBasis)| >= 5
  }

  predicate PaymentAccepted(input: PaymentInput)
  {
    Trim(input.paymentProof) != "" && 0 < input.paidAt <= MAX_SAFE_SECONDS
  }

  /** Refunds decided or paid so far. */
  function RefundTotal(refunds: seq<Refund>): nat
  {
    if refunds == [] then 0 else RefundTotal(refunds[..|refunds| - 1]) + refunds[|refunds| - 1].amount
  }

  function AvailableToRefund(r: CollectionRecord): nat
  {
    var total := if r.contribution.status == Rejected then 0 else r.contribution.amount;
    var claimed := RefundTotal(r.refunds);
    if total > claimed then total - claimed else 0
  }

  // ----- Steps

  function Logged(r: CollectionRecord, version: nat, from: ContributionStatus, to: ContributionStatus, action: HistoryAction, now: nat): CollectionRecord
  {
    r.(history := r.history + [HistoryEntry(|r.history|, version, from, to, action, now)])
  }

  function NewRecord(input: ContributionInput, now: nat): CollectionRecord
  {
    CollectionRecord(
      Contribution(input.channel, input.reference, input.currency, input.amount, input.fund, input.purpose, input.receivedAt,
                   Received, None, None, 1, now, now),
      [], [], [HistoryEntry(0, 1, Received, Received, Record, now)])
  }

  function Transitioned(r: CollectionRecord, target: ContributionStatus, action: HistoryAction, expectedVersion: int, now: nat): Result<CollectionRecord, LedgerError>
  {
    var c := r.contribution;
    if c.version != expectedVersion then Err(VersionConflict)
    else if !TransitionAllowed(c.status, target) || c.status == target then Err(InvalidState)
    else
      var row := c.(status := target, version := c.version + 1, updatedAt := now,
                    reconciledAt := if target == Reconciled then Some(now) else c.reconciledAt,
                    endorsedAt := if target == Endorsed then Some(now) else c.endorsedAt);
      Ok(Logged(r.(contribution := row), c.version + 1, c.status, target, action, now))
  }

  function Corrected(r: CollectionRecord, input: CorrectionInput, expectedVersion: int, now: nat): Result<CollectionRecord, LedgerError>
  {
    var c := r.contribution;
    if c.version != expectedVersion then Err(VersionConflict)
    else if !CorrectionAccepted(input, c.amount) then Err(InvalidState)
    else
      var amount := if input.kind == AmountCorrection then input.amount.value else c.amount;
      var status := if input.kind == DuplicateCorrection then Rejected else c.status;
      var row := c.(amount := amount, status := status, version := c.version + 1, updatedAt := now,
                    endorsedAt := if status == Endorsed then Some(now) else None);
      var correction := Correction(c.version, c.version + 1, input.kind, c.amount, amount, now);
      Ok(Logged(r.(contribution := row, corrections := r.corrections + [correction]), c.version + 1, c.status, status,
                if input.kind == DuplicateCorrection then CorrectDuplicate else CorrectAmount, now))
  }

  function RefundDecided(r: CollectionRecord, input: RefundInput, expectedVersion: int, now: nat): Result<CollectionRecord, LedgerError>
  {
    var c := r.contribution;
    if c.version != expectedVersion then Err(VersionConflict)
    else if !RefundAccepted(input, AvailableToRefund(r)) then Err(InvalidState)
    else
      var refund := Refund(input.amount.value, Decided, c.version, now, None, 1, now, now);
      Ok(Logged(r.(refunds := r.refunds + [refund]), c.version, c.status, c.status, DecideRefund, now))
  }

  function RefundPaid(r: CollectionRecord, refundId: nat, input: PaymentInput, now: nat): Result<CollectionRecord, LedgerError>
  {
    var c := r.contribution;
    if refundId >= |r.refunds| then Err(NotFound)
    else if r.refunds[refundId].status == Paid then Err(AlreadyPaid)
    else if !PaymentAccepted(input) then Err(InvalidState)
    else
      var due := r.refunds[refundId];
      var refund := due.(status := Paid, paidAt := Some(input.paidAt), version := due.version + 1, updatedAt := now);
      Ok(Logged(r.(contribution := c.(version := c.version + 1, updatedAt := now), refunds := r.refunds[refundId := refund]),
                c.version + 1, c.status, c.status, PayRefund, now))
  }

  /** An approved contact recovery bumps the version; a rejected one is only logged. */
  function RecoveryDecided(r: CollectionRecord, approved: bool, expectedVersion: int, now: nat): Result<CollectionRecord, LedgerError>
  {
    var c := r.contribution;
    if c.version != expectedVersion then Err(VersionConflict)
    else if approved then
      Ok(Logged(r.(contribution := c.(version := c.version + 1, updatedAt := now)), c.version + 1, c.status, c.status, RecoverContact, now))
    else Ok(Logged(r, c.version, c.status, c.status, RejectRecovery, now))
  }

  function Apply(r: CollectionRecord, step: Step, now: nat): Result<CollectionRecord, LedgerError>
  {
    match step
    case ReconcileStep(v) => Transitioned(r, Reconciled, Reconcile, v, now)
    case EndorseStep(v) => Transitioned(r, Endorsed, Endorse, v, now)
    case CorrectStep(v, input) => Corrected(r, input, v, now)
    case DecideRefundStep(v, input) => RefundDecided(r, input, v, now)
    case PayRefundStep(id, input) => RefundPaid(r, id, input, now)
    case DecideRecoveryStep(v, approved) => RecoveryDecided(r, approved, v, now)
  }

  // ----- The store

  type Store = map<Text, CollectionRecord>

  predicate HasSource(store: Store, channel: Text, reference: Text)
  {
    exists id | id in store :: store[id].contribution.channel == channel && store[id].contribution.reference == reference
  }

  function ReceivedInto(store: Store, id: Text, input: ContributionInput, now: nat): Result<Store, LedgerError>
  {
    if HasSource(store, input.channel, input.reference) then Err(DuplicateSource)
    else if id in store then Err(IdTaken)
    else Ok(store[id := NewRecord(input, now)])
  }

  function SteppedIn(store: Store, id: Text, step: Step, now: nat): Result<Store, LedgerError>
  {
    if id !in store then Err(NotFound)
    else
      match Apply(store[id], step, now)
      case Ok(r) => Ok(store[id := r])
      case Err(e) => Err(e)
  }

  // ----- Transactions, with the clock reading at which they run

  datatype Transaction =
    | Receive(id: Text, input: ContributionInput, now: nat)
    | Perform(id: Text, step: Step, now: nat)

  /** A refused transaction leaves the store as it was. */
  function After(store: Store, t: Transaction): Store
  {
    match (match t
           case Receive(id, input, now) => ReceivedInto(store, id, input, now)
           case Perform(id, step, now) => SteppedIn(store, id, step, now))
    case Ok(s) => s
    case Err(_) => store
  }
}
