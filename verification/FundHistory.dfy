/**
 The audit trail and the balances over every run: the history of an allocation replays to its row,
 moves conserve what a contribution has allocated, a new allocation is covered, and a shortfall
 grows only where the contribution itself loses value.
 */
module FundHistory {
  import opened Options
  import opened Texts
  import opened ContributionLedger
  import opened FundLedger
  import opened FundRuns

  // ----- Replaying the history

  datatype Standing = Standing(amount: int, status: AllocationStatus, version: nat)

  function StandingOf(row: Allocation): Standing { Standing(row.amount, row.status, row.version) }

  /** What the history says of an allocation, entry by entry. */
  function Replay(log: seq<AllocationEntry>, id: nat): Option<Standing>
  {
    if log == [] then None
    else
      var e, before := log[|log| - 1], Replay(log[..|log| - 1], id);
      if e.allocationId != id then before
      else if e.action != ReallocateOut then Some(Standing(e.amount, e.toStatus, e.version))
      else if before.None? then None
      else Some(Standing(before.value.amount - e.amount, e.toStatus, e.version))
  }

  predicate ReplaysTo(log: seq<AllocationEntry>, allocations: seq<Allocation>)
  {
    forall i | 0 <= i < |allocations| :: Replay(log, i) == Some(StandingOf(allocations[i]))
  }

  lemma {:induction false} ReplaySnoc(log: seq<AllocationEntry>, e: AllocationEntry, id: nat)
    ensures Replay(log + [e], id) ==
      if e.allocationId != id then Replay(log, id)
      else if e.action != ReallocateOut then Some(Standing(e.amount, e.toStatus, e.version))
      else if Replay(log, id).None? then None
      else Some(Standing(Replay(log, id).value.amount - e.amount, e.toStatus, e.version))
  {
    assert (log + [e])[..|log|] == log;
  }

  lemma {:induction false} EnteredReplays(l: Ledger, contribution: Text, activity: Text, amount: nat, terms: Terms, action: AllocationAction, now: nat)
    requires ReplaysTo(l.log, l.allocations) && contribution in l.contributions && action != ReallocateOut
    ensures var entered := Entered(l, contribution, activity, amount, terms, action, now);
      ReplaysTo(entered.log, entered.allocations)
  {
    var entered := Entered(l, contribution, activity, amount, terms, action, now);
    forall i | 0 <= i < |entered.allocations| ensures Replay(entered.log, i) == Some(StandingOf(entered.allocations[i])) {
      ReplaySnoc(l.log, entered.log[|l.log|], i);
    }
  }

  lemma {:induction false} WithdrawnReplays(l: Ledger, source: nat, amount: nat, now: nat)
    requires ReplaysTo(l.log, l.allocations) && source < |l.allocations| && amount <= l.allocations[source].amount
    requires l.allocations[source].contributionId in l.contributions
    ensures var out := Withdrawn(l, source, amount, now);
      ReplaysTo(out.log, out.allocations)
  {
    var out := Withdrawn(l, source, amount, now);
    forall i | 0 <= i < |out.allocations| ensures Replay(out.log, i) == Some(StandingOf(out.allocations[i])) {
      ReplaySnoc(l.log, out.log[|l.log|], i);
    }
  }

  // ----- What a contribution has allocated

  lemma {:induction false} AllocatedSnoc(allocations: seq<Allocation>, row: Allocation, c: Text)
    ensures AllocatedTo(allocations + [row], c) ==
      AllocatedTo(allocations, c) + (if row.status == Active && row.contributionId == c then row.amount else 0)
  {
    assert (allocations + [row])[..|allocations|] == allocations;
  }

  function ActiveAmount(row: Allocation, c: Text): nat
  {
    if row.status == Active && row.contributionId == c then row.amount else 0
  }

  lemma {:induction false} AllocatedUpdate(allocations: seq<Allocation>, i: nat, row: Allocation, c: Text)
    requires i < |allocations|
    ensures AllocatedTo(allocations[i := row], c) + ActiveAmount(allocations[i], c) == AllocatedTo(allocations, c) + ActiveAmount(row, c)
  {
    var n := |allocations| - 1;
    if i < n {
      AllocatedUpdate(allocations[..n], i, row, c);
      assert allocations[i := row][..n] == allocations[..n][i := row];
    } else {
      assert allocations[i := row][..n] == allocations[..n];
    }
  }

  /** What officers ever allocated of a contribution; moves are not counted. */
  function EverAllocated(log: seq<AllocationEntry>, c: Text): nat
  {
    if log == [] then 0
    else
      var e := log[|log| - 1];
      EverAllocated(log[..|log| - 1], c) + (if e.action == Allocate && e.contributionId == c then e.amount else 0)
  }

  lemma {:induction false} EverSnoc(log: seq<AllocationEntry>, e: AllocationEntry, c: Text)
    ensures EverAllocated(log + [e], c) == EverAllocated(log, c) + (if e.action == Allocate && e.contributionId == c then e.amount else 0)
  {
    assert (log + [e])[..|log|] == log;
  }

  lemma {:induction false} EnteredAdds(l: Ledger, contribution: Text, activity: Text, amount: nat, terms: Terms, action: AllocationAction, now: nat, c: Text)
    requires contribution in l.contributions
    ensures var entered := Entered(l, contribution, activity, amount, terms, action, now);
      AllocatedTo(entered.allocations, c) == AllocatedTo(l.allocations, c) + (if c == contribution then amount else 0) &&
      EverAllocated(entered.log, c) == EverAllocated(l.log, c) + (if c == contribution && action == Allocate then amount else 0)
  {
    var entered := Entered(l, contribution, activity, amount, terms, action, now);
    AllocatedSnoc(l.allocations, entered.allocations[|l.allocations|], c);
    EverSnoc(l.log, entered.log[|l.log|], c);
  }

  lemma {:induction false} WithdrawnTakes(l: Ledger, source: nat, amount: nat, now: nat, c: Text)
    requires source < |l.allocations| && l.allocations[source].status == Active && amount <= l.allocations[source].amount
    requires l.allocations[source].contributionId in l.contributions
    ensures var out := Withdrawn(l, source, amount, now);
      AllocatedTo(out.allocations, c) + (if c == l.allocations[source].contributionId then amount else 0) == AllocatedTo(l.allocations, c) &&
      EverAllocated(out.log, c) == EverAllocated(l.log, c)
  {
    var out := Withdrawn(l, source, amount, now);
    AllocatedUpdate(l.allocations, source, out.allocations[source], c);
    EverSnoc(l.log, out.log[|l.log|], c);
  }

  /** The rows a move leaves: those of the withdrawal and the new entry. */
  lemma {:induction false} MovedRows(l: Ledger, q: ReallocateRequest, terms: Terms, now: nat)
    requires Linked(l) && q.sourceAllocationId < |l.allocations| && q.amount <= l.allocations[q.sourceAllocationId].amount
    requires l.allocations[q.sourceAllocationId].activityId == q.sourceActivityId && q.targetActivityId in l.activities
    ensures var contribution := l.allocations[q.sourceAllocationId].contributionId;
      var rows := Entered(Withdrawn(l, q.sourceAllocationId, q.amount, now), contribution, q.targetActivityId, q.amount, terms, ReallocateIn, now);
      Moved(l, q, terms, now).allocations == rows.allocations && Moved(l, q, terms, now).log == rows.log &&
      Moved(l, q, terms, now).contributions == l.contributions
  {
    var contribution := l.allocations[q.sourceAllocationId].contributionId;
    var withdrawn, out := Withdrawn(l, q.sourceAllocationId, q.amount, now), TakenOut(l, q.sourceAllocationId, q.amount, terms.fund, now);
    assert out.allocations == withdrawn.allocations && out.log == withdrawn.log && out.contributions == l.contributions;
    var placed := Placed(out, contribution, q.targetActivityId, q.amount, terms, ReallocateIn, now);
    var rows := Entered(withdrawn, contribution, q.targetActivityId, q.amount, terms, ReallocateIn, now);
    assert placed.allocations == rows.allocations && placed.log == rows.log;
  }

  lemma {:induction false} MovedConserves(l: Ledger, q: ReallocateRequest, terms: Terms, now: nat, c: Text)
    requires Linked(l) && q.sourceAllocationId < |l.allocations| && q.amount <= l.allocations[q.sourceAllocationId].amount
    requires l.allocations[q.sourceAllocationId].activityId == q.sourceActivityId && q.targetActivityId in l.activities
    requires l.allocations[q.sourceAllocationId].status == Active
    ensures AllocatedTo(Moved(l, q, terms, now).allocations, c) == AllocatedTo(l.allocations, c)
    ensures EverAllocated(Moved(l, q, terms, now).log, c) == EverAllocated(l.log, c)
  {
    var contribution, out := l.allocations[q.sourceAllocationId].contributionId, Withdrawn(l, q.sourceAllocationId, q.amount, now);
    MovedRows(l, q, terms, now);
    WithdrawnTakes(l, q.sourceAllocationId, q.amount, now, c);
    EnteredAdds(out, contribution, q.targetActivityId, q.amount, terms, ReallocateIn, now, c);
  }

  /** Moving money between activities changes no contribution's allocated total. */
  lemma {:induction false} MoveConserves(l: Ledger, q: ReallocateRequest, availability: Availability, now: nat, c: Text)
    requires Linked(l) && MovedBetween(l, q, availability, now).Ok?
    ensures AllocatedTo(MovedBetween(l, q, availability, now).value.allocations, c) == AllocatedTo(l.allocations, c)
    ensures EverAllocated(MovedBetween(l, q, availability, now).value.log, c) == EverAllocated(l.log, c)
  {
    MovedConserves(l, q, ReallocateGuard(l, q, availability).value, now, c);
  }

  // ----- Whole runs

  /** The history accounts for every allocation and for every contribution's allocated total. */
  ghost predicate Accounted(l: Ledger)
  {
    ReplaysTo(l.log, l.allocations) && forall c: Text :: AllocatedTo(l.allocations, c) == EverAllocated(l.log, c)
  }

  lemma {:induction false} AllocatedIsAccounted(l: Ledger, q: AllocateRequest, now: nat)
    requires Linked(l) && Accounted(l)
    ensures Accounted(Settled(l, Allocated(l, q, now)))
  {
    if Allocated(l, q, now).Ok? {
      var terms := AllocateGuard(l, q).value;
      EnteredReplays(l, q.contributionId, q.activityId, q.amount, terms, Allocate, now);
      forall c ensures AllocatedTo(Settled(l, Allocated(l, q, now)).allocations, c) == EverAllocated(Settled(l, Allocated(l, q, now)).log, c) {
        EnteredAdds(l, q.contributionId, q.activityId, q.amount, terms, Allocate, now, c);
      }
    }
  }

  lemma {:induction false} MovedIsAccounted(l: Ledger, q: ReallocateRequest, availability: Availability, now: nat)
    requires Linked(l) && Accounted(l)
    ensures Accounted(Settled(l, MovedBetween(l, q, availability, now)))
  {
    if MovedBetween(l, q, availability, now).Ok? {
      var terms := ReallocateGuard(l, q, availability).value;
      var contribution, out := l.allocations[q.sourceAllocationId].contributionId, Withdrawn(l, q.sourceAllocationId, q.amount, now);
      MovedRows(l, q, terms, now);
      WithdrawnReplays(l, q.sourceAllocationId, q.amount, now);
      EnteredReplays(out, contribution, q.targetActivityId, q.amount, terms, ReallocateIn, now);
      forall c ensures AllocatedTo(Moved(l, q, terms, now).allocations, c) == EverAllocated(Moved(l, q, terms, now).log, c) {
        MoveConserves(l, q, availability, now, c);
      }
    }
  }

  /** After every run each allocation's amount, status and version are what its history replays to, and each contribution has allocated exactly what was ever allocated of it. */
  lemma {:induction false} HistoryAccountsForLedger(l: Ledger, ts: seq<FundTransaction>)
    requires Linked(l) && Accounted(l)
    ensures Accounted(RunFrom(l, ts))
  {
    if ts != [] {
      var before, t := RunFrom(l, ts[..|ts| - 1]), ts[|ts| - 1];
      HistoryAccountsForLedger(l, ts[..|ts| - 1]);
      match t
      case Contribute(transaction) =>
      case AllocateTo(q, now) => AllocatedIsAccounted(before, q, now);
      case Move(q, availability, now) => MovedIsAccounted(before, q, availability, now);
      case Backfill(now) =>
    }
  }

  // ----- Cover and shortfall

  lemma {:induction false} RemainderCovers(total: nat, committed: nat, paid: nat, decided: nat, requested: nat)
    requires 0 < requested <= AllocatableRemainder(total, committed, paid, decided)
    ensures committed + requested + paid + decided <= total
  {
  }

  /** A successful allocation leaves everything allocated, paid back or promised back within the recorded amount. */
  lemma {:induction false} AllocationIsCovered(l: Ledger, q: AllocateRequest, now: nat)
    requires Allocated(l, q, now).Ok?
    ensures q.contributionId in l.contributions && Allocated(l, q, now).value.contributions == l.contributions
    ensures var r := l.contributions[q.contributionId];
      AllocatedTo(Allocated(l, q, now).value.allocations, q.contributionId) + RefundSum(r.refunds, Paid) + RefundSum(r.refunds, Decided)
        <= r.contribution.amount
  {
    var terms, r := AllocateGuard(l, q).value, l.contributions[q.contributionId];
    EnteredAdds(l, q.contributionId, q.activityId, q.amount, terms, Allocate, now, q.contributionId);
    RemainderCovers(r.contribution.amount, AllocatedTo(l.allocations, q.contributionId), RefundSum(r.refunds, Paid), RefundSum(r.refunds, Decided), q.amount);
  }

  /** By how much the allocations of a contribution exceed what it still stands for. */
  function ShortfallOf(l: Ledger, id: Text): nat
    requires id in l.contributions
  {
    BalanceOf(l.contributions[id], AllocatedTo(l.allocations, id)).shortfall
  }

  lemma {:induction false} SameShortfall(l: Ledger, m: Ledger, id: Text)
    requires id in l.contributions && m.contributions == l.contributions && AllocatedTo(m.allocations, id) == AllocatedTo(l.allocations, id)
    ensures ShortfallOf(m, id) == ShortfallOf(l, id)
  {
  }

  lemma {:induction false} RefundSnoc(refunds: seq<Refund>, refund: Refund, status: RefundStatus)
    ensures RefundSum(refunds + [refund], status) == RefundSum(refunds, status) + (if refund.status == status then refund.amount else 0)
  {
    assert (refunds + [refund])[..|refunds|] == refunds;
  }

  lemma {:induction false} StepKeepsShortfall(r: CollectionRecord, step: Step, now: nat, held: nat)
    requires Apply(r, step, now).Ok? && !step.CorrectStep? && !step.PayRefundStep?
    ensures BalanceOf(Apply(r, step, now).value, held).shortfall == BalanceOf(r, held).shortfall
  {
    var r' := Apply(r, step, now).value;
    if step.DecideRefundStep? { RefundSnoc(r.refunds, r'.refunds[|r.refunds|], Paid); }
  }

  predicate Devalues(t: FundTransaction, id: Text)
  {
    t.Contribute? && t.transaction.Perform? && t.transaction.id == id && (t.transaction.step.CorrectStep? || t.transaction.step.PayRefundStep?)
  }

  lemma {:induction false} ContributeKeepsShortfall(l: Ledger, transaction: Transaction, id: Text)
    requires Linked(l) && id in l.contributions && !Devalues(Contribute(transaction), id)
    ensures id in Next(l, Contribute(transaction)).contributions
    ensures ShortfallOf(Next(l, Contribute(transaction)), id) == ShortfallOf(l, id)
  {
    match transaction
    case Receive(rid, input, now) =>
    case Perform(pid, step, now) =>
      if pid == id && Apply(l.contributions[id], step, now).Ok? {
        StepKeepsShortfall(l.contributions[id], step, now, AllocatedTo(l.allocations, id));
      }
  }

  lemma {:induction false} AllocateAddsNoShortfall(l: Ledger, q: AllocateRequest, now: nat, id: Text)
    requires Linked(l) && id in l.contributions
    ensures id in Settled(l, Allocated(l, q, now)).contributions && ShortfallOf(Settled(l, Allocated(l, q, now)), id) <= ShortfallOf(l, id)
  {
    if Allocated(l, q, now).Ok? {
      EnteredAdds(l, q.contributionId, q.activityId, q.amount, AllocateGuard(l, q).value, Allocate, now, id);
      AllocationIsCovered(l, q, now);
    }
  }

  lemma {:induction false} SettledMove(l: Ledger, q: ReallocateRequest, availability: Availability, now: nat, c: Text) returns (end: Ledger)
    requires Linked(l)
    ensures end == Settled(l, MovedBetween(l, q, availability, now))
    ensures end.contributions == l.contributions && AllocatedTo(end.allocations, c) == AllocatedTo(l.allocations, c)
  {
    end := Settled(l, MovedBetween(l, q, availability, now));
    if MovedBetween(l, q, availability, now).Ok? {
      MovedRows(l, q, ReallocateGuard(l, q, availability).value, now);
      MoveConserves(l, q, availability, now, c);
    }
  }

  lemma {:induction false} MoveAddsNoShortfall(l: Ledger, q: ReallocateRequest, availability: Availability, now: nat, id: Text)
    requires Linked(l) && id in l.contributions
    ensures var end := Settled(l, MovedBetween(l, q, availability, now));
      id in end.contributions && ShortfallOf(end, id) == ShortfallOf(l, id)
  {
    var end := SettledMove(l, q, availability, now, id);
    SameShortfall(l, end, id);
  }

  /** A shortfall grows only when the contribution is corrected or a refund of it is paid. */
  lemma {:induction false} ShortfallGrowsOnlyByDevaluing(l: Ledger, t: FundTransaction, id: Text)
    requires Linked(l) && id in l.contributions && !Devalues(t, id)
    ensures id in Next(l, t).contributions && ShortfallOf(Next(l, t), id) <= ShortfallOf(l, id)
  {
    match t
    case Contribute(transaction) => ContributeKeepsShortfall(l, transaction, id);
    case AllocateTo(q, now) => AllocateAddsNoShortfall(l, q, now, id);
    case Move(q, availability, now) => MoveAddsNoShortfall(l, q, availability, now, id);
    case Backfill(now) =>
  }

  /** Over a whole run without either, it never grows. */
  lemma {:induction false} RunGrowsNoShortfall(l: Ledger, ts: seq<FundTransaction>, id: Text)
    requires Linked(l) && id in l.contributions && forall i | 0 <= i < |ts| :: !Devalues(ts[i], id)
    ensures id in RunFrom(l, ts).contributions && ShortfallOf(RunFrom(l, ts), id) <= ShortfallOf(l, id)
  {
    if ts != [] {
      RunGrowsNoShortfall(l, ts[..|ts| - 1], id);
      ShortfallGrowsOnlyByDevaluing(RunFrom(l, ts[..|ts| - 1]), ts[|ts| - 1], id);
    }
  }
}
