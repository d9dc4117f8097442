/**
 The contribution table as the service keeps it: each method is one transaction that locks a row,
 checks its guards, writes the row and the rows that document the change, and otherwise leaves
 everything as it was.
 */
module ContributionStore {
  import opened Options
  import opened Texts
  import opened ContributionLedger

  class ContributionTable {
    var records: Store

    constructor ()
      ensures records == map[]
    {
      records := map[];
    }

    /** The single write path for a received contribution. */
    method InsertReceived(id: Text, input: ContributionInput, now: nat) returns (outcome: Result<(), LedgerError>)
      modifies this
      ensures match ReceivedInto(old(records), id, input, now)
        case Ok(store) => outcome.Ok? && records == store
        case Err(e) => outcome == Err(e) && records == old(records)
    {
      if exists other | other in records ::
        records[other].contribution.channel == input.channel && records[other].contribution.reference == input.reference
      {
        return Err(DuplicateSource);
      }
      if id in records { return Err(IdTaken); }
      var row := Contribution(input.channel, input.reference, input.currency, input.amount, input.fund, input.purpose, input.receivedAt,
                              Received, None, None, 1, now, now);
      records := records[id := CollectionRecord(row, [], [], [])];
      AppendHistory(id, 1, Received, Received, Record, now);
      assert records[id] == NewRecord(input, now);
      return Ok(());
    }

    /** Appends one history row. */
    method AppendHistory(id: Text, version: nat, from: ContributionStatus, to: ContributionStatus, action: HistoryAction, now: nat)
      requires id in records
      modifies this
      ensures records == old(records)[id := Logged(old(records)[id], version, from, to, action, now)]
    {
      var r := records[id];
      var entry := HistoryEntry(|r.history|, version, from, to, action, now);
      records := records[id := r.(history := r.history + [entry])];
    }

    method UpdateRow(id: Text, row: Contribution)
      requires id in records
      modifies this
      ensures records == old(records)[id := old(records)[id].(contribution := row)]
    {
      records := records[id := records[id].(contribution := row)];
    }

    /** Lock, check version and lifecycle, apply the step's columns, and write history. */
    method ApplyTransition(id: Text, expectedVersion: int, target: ContributionStatus, action: HistoryAction, now: nat) returns (outcome: Result<(), LedgerError>)
      modifies this
      ensures id !in old(records) ==> outcome == Err(NotFound) && records == old(records)
      ensures id in old(records) ==>
        match Transitioned(old(records)[id], target, action, expectedVersion, now)
        case Ok(r) => outcome.Ok? && records == old(records)[id := r]
        case Err(e) => outcome == Err(e) && records == old(records)
    {
      if id !in records { return Err(NotFound); }
      var row := records[id].contribution;
      if row.version != expectedVersion { return Err(VersionConflict); }
      if !TransitionAllowed(row.status, target) || row.status == target { return Err(InvalidState); }
      var newVersion := row.version + 1;
      var updated := row.(status := target, version := newVersion, updatedAt := now);
      if target == Reconciled {
        updated := updated.(reconciledAt := Some(now));
      } else if target == Endorsed {
        updated := updated.(endorsedAt := Some(now));
      }
      UpdateRow(id, updated);
      AppendHistory(id, newVersion, row.status, target, action, now);
      return Ok(());
    }

    method ReconcileContribution(id: Text, expectedVersion: int, now: nat) returns (outcome: Result<(), LedgerError>)
      modifies this
      ensures match SteppedIn(old(records), id, ReconcileStep(expectedVersion), now)
        case Ok(store) => outcome.Ok? && records == store
        case Err(e) => outcome == Err(e) && records == old(records)
    {
      outcome := ApplyTransition(id, expectedVersion, Reconciled, Reconcile, now);
    }

    method EndorseContribution(id: Text, expectedVersion: int, now: nat) returns (outcome: Result<(), LedgerError>)
      modifies this
      ensures match SteppedIn(old(records), id, EndorseStep(expectedVersion), now)
        case Ok(store) => outcome.Ok? && records == store
        case Err(e) => outcome == Err(e) && records == old(records)
    {
      outcome := ApplyTransition(id, expectedVersion, Endorsed, Endorse, now);
    }

    method CorrectContribution(id: Text, expectedVersion: int, input: CorrectionInput, now: nat) returns (outcome: Result<(), LedgerError>)
      modifies this
      ensures match SteppedIn(old(records), id, CorrectStep(expectedVersion, input), now)
        case Ok(store) => outcome.Ok? && records == store
        case Err(e) => outcome == Err(e) && records == old(records)
    {
      if id !in records { return Err(NotFound); }
      var row := records[id].contribution;
      if row.version != expectedVersion { return Err(VersionConflict); }
      if !CorrectionAccepted(input, row.amount) { return Err(InvalidState); }

      var newVersion := row.version + 1;
      var newAmount := if input.kind == AmountCorrection then input.amount.value else row.amount;
      var newStatus := if input.kind == DuplicateCorrection then Rejected else row.status;
      UpdateRow(id, row.(amount := newAmount, status := newStatus,
                         endorsedAt := if newStatus == Endorsed then Some(now) else None,
                         version := newVersion, updatedAt := now));
      var correction := Correction(row.version, newVersion, input.kind, row.amount, newAmount, now);
      records := records[id := records[id].(corrections := records[id].corrections + [correction])];
      AppendHistory(id, newVersion, row.status, newStatus,
                    if input.kind == DuplicateCorrection then CorrectDuplicate else CorrectAmount, now);
      return Ok(());
    }

    /** Adds up the refunds already decided or paid. */
    method TotalRefunds(refunds: seq<Refund>) returns (total: nat)
      ensures total == RefundTotal(refunds)
    {
      total := 0;
      for i := 0 to |refunds|
        invariant total == RefundTotal(refunds[..i])
      {
        assert refunds[..i + 1][..i] == refunds[..i];
        total := total + refunds[i].amount;
      }
      assert refunds[..|refunds|] == refunds;
    }

    method DecideRefund(id: Text, expectedVersion: int, input: RefundInput, now: nat) returns (outcome: Result<(), LedgerError>)
      modifies this
      ensures match SteppedIn(old(records), id, DecideRefundStep(expectedVersion, input), now)
        case Ok(store) => outcome.Ok? && records == store
        case Err(e) => outcome == Err(e) && records == old(records)
    {
      if id !in records { return Err(NotFound); }
      var row := records[id].contribution;
      if row.version != expectedVersion { return Err(VersionConflict); }
      var soFar := TotalRefunds(records[id].refunds);
      var total := if row.status == Rejected then 0 else row.amount;
      var available := if total > soFar then total - soFar else 0;
      if !RefundAccepted(input, available) { return Err(InvalidState); }

      var refund := Refund(input.amount.value, Decided, row.version, now, None, 1, now, now);
      records := records[id := records[id].(refunds := records[id].refunds + [refund])];
      AppendHistory(id, row.version, row.status, row.status, HistoryAction.DecideRefund, now);
      return Ok(());
    }

    method PayRefund(id: Text, refundId: nat, input: PaymentInput, now: nat) returns (outcome: Result<(), LedgerError>)
      modifies this
      ensures match SteppedIn(old(records), id, PayRefundStep(refundId, input), now)
        case Ok(store) => outcome.Ok? && records == store
        case Err(e) => outcome == Err(e) && records == old(records)
    {
      if id !in records || refundId >= |records[id].refunds| { return Err(NotFound); }
      var refund := records[id].refunds[refundId];
      if refund.status == Paid { return Err(AlreadyPaid); }
      if !PaymentAccepted(input) { return Err(InvalidState); }

      var row := records[id].contribution;
      var newVersion := row.version + 1;
      UpdateRow(id, row.(version := newVersion, updatedAt := now));
      var paid := refund.(status := Paid, paidAt := Some(input.paidAt as nat), version := refund.version + 1, updatedAt := now);
      records := records[id := records[id].(refunds := records[id].refunds[refundId := paid])];
      AppendHistory(id, newVersion, row.status, row.status, HistoryAction.PayRefund, now);
      return Ok(());
    }

    /** The part of a donor's contact recovery that touches the contribution. */
    method DecideRecovery(id: Text, expectedVersion: int, approved: bool, now: nat) returns (outcome: Result<(), LedgerError>)
      modifies this
      ensures match SteppedIn(old(records), id, DecideRecoveryStep(expectedVersion, approved), now)
        case Ok(store) => outcome.Ok? && records == store
        case Err(e) => outcome == Err(e) && records == old(records)
    {
      if id !in records { return Err(NotFound); }
      var row := records[id].contribution;
      if row.version != expectedVersion { return Err(VersionConflict); }
      var nextVersion := row.version;
      if approved {
        nextVersion := nextVersion + 1;
        UpdateRow(id, row.(version := nextVersion, updatedAt := now));
        AppendHistory(id, nextVersion, row.status, row.status, RecoverContact, now);
      } else {
        AppendHistory(id, nextVersion, row.status, row.status, RejectRecovery, now);
      }
      return Ok(());
    }
  }
}
