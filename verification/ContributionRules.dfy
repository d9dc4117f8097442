/**
 When each step on a contribution succeeds and what it changes, said of the fields of the record, and
 what every run keeps of them: refunds within the amount, an amount told by its corrections, and
 stamps that agree with the status.
 */
module ContributionRules {
  import opened Options
  import opened Strings
  import opened Texts
  import opened ContributionLedger
  import opened CollectionHistory
  import opened FundLedger

  // ----- When a step succeeds

  /** Everything promised or paid back. */
  function Refunded(r: CollectionRecord): nat { RefundSum(r.refunds, Decided) + RefundSum(r.refunds, Paid) }

  lemma {:induction false} RefundsSplit(refunds: seq<Refund>)
    ensures RefundTotal(refunds) == RefundSum(refunds, Decided) + RefundSum(refunds, Paid)
  {
    if refunds != [] { RefundsSplit(refunds[..|refunds| - 1]); }
  }

  /** Matched from the loaded version of a contribution just received. */
  lemma {:induction false} ReconciledExactlyWhen(r: CollectionRecord, version: int, now: nat)
    ensures Apply(r, ReconcileStep(version), now).Ok? <==> r.contribution.version == version && r.contribution.status == Received
    ensures Apply(r, ReconcileStep(version), now).Ok? ==>
      var c := Apply(r, ReconcileStep(version), now).value.contribution;
      c.status == Reconciled && c.reconciledAt == Some(now) && c.endorsedAt == r.contribution.endorsedAt && c.amount == r.contribution.amount
  {
  }

  lemma {:induction false} EndorsedExactlyWhen(r: CollectionRecord, version: int, now: nat)
    ensures Apply(r, EndorseStep(version), now).Ok? <==> r.contribution.version == version && r.contribution.status == Reconciled
    ensures Apply(r, EndorseStep(version), now).Ok? ==>
      var c := Apply(r, EndorseStep(version), now).value.contribution;
      c.status == Endorsed && c.endorsedAt == Some(now) && c.reconciledAt == r.contribution.reconciledAt && c.amount == r.contribution.amount
  {
  }

  /** A correction needs a reason and a proof, and an amount correction a new positive amount; a duplicate rejects the contribution. */
  lemma {:induction false} CorrectedExactlyWhen(r: CollectionRecord, version: int, input: CorrectionInput, now: nat)
    ensures Apply(r, CorrectStep(version, input), now).Ok? <==>
      r.contribution.version == version && |Trim(input.reason)| >= 5 && !Blank(input.sourceProof) &&
      (input.kind == DuplicateCorrection || (input.amount.Some? && input.amount.value != 0 && input.amount.value != r.contribution.amount))
    ensures Apply(r, CorrectStep(version, input), now).Ok? ==>
      var c := Apply(r, CorrectStep(version, input), now).value.contribution;
      if input.kind == DuplicateCorrection then c.amount == r.contribution.amount && c.status == Rejected
      else c.amount == input.amount.value && c.status == r.contribution.status
  {
    TrimIsTight(input.sourceProof);
  }

  /** A refund is decided exactly when the contribution stands, its amount covers it beside all earlier refunds, and reason and policy are given. */
  lemma {:induction false} RefundDecidedExactlyWhen(r: CollectionRecord, version: int, input: RefundInput, now: nat)
    ensures Apply(r, DecideRefundStep(version, input), now).Ok? <==>
      r.contribution.version == version && r.contribution.status != Rejected &&
      input.amount.Some? && input.amount.value > 0 && Refunded(r) + input.amount.value <= r.contribution.amount &&
      |Trim(input.reason)| >= 5 && |Trim(input.policyBasis)| >= 5
  {
    RefundsSplit(r.refunds);
  }

  /** The decision adds one refund of that amount, not yet paid; afterwards all refunds are within the recorded amount. */
  lemma {:induction false} DecidedRefundIsCovered(r: CollectionRecord, version: int, input: RefundInput, now: nat)
    requires Apply(r, DecideRefundStep(version, input), now).Ok?
    ensures var after, n := Apply(r, DecideRefundStep(version, input), now).value, |r.refunds|;
      after.contribution == r.contribution && after.corrections == r.corrections &&
      |after.refunds| == n + 1 && after.refunds[..n] == r.refunds &&
      after.refunds[n].amount == input.amount.value && after.refunds[n].status == Decided && after.refunds[n].paidAt == None &&
      Refunded(after) == Refunded(r) + input.amount.value && Refunded(after) <= after.contribution.amount &&
      after.contribution.status != Rejected
  {
    RefundDecidedExactlyWhen(r, version, input, now);
    var after := Apply(r, DecideRefundStep(version, input), now).value;
    RefundsAppended(r.refunds, after.refunds[|r.refunds|]);
  }

  lemma {:induction false} RefundsAppended(refunds: seq<Refund>, refund: Refund)
    ensures forall s :: RefundSum(refunds + [refund], s) == RefundSum(refunds, s) + (if refund.status == s then refund.amount else 0)
  {
    assert (refunds + [refund])[..|refunds|] == refunds;
  }

  lemma {:induction false} RefundsUpdated(refunds: seq<Refund>, i: nat, refund: Refund)
    requires i < |refunds| && refund.amount == refunds[i].amount
    ensures RefundSum(refunds[i := refund], Decided) + RefundSum(refunds[i := refund], Paid) == RefundSum(refunds, Decided) + RefundSum(refunds, Paid)
  {
    var n := |refunds| - 1;
    if i < n {
      RefundsUpdated(refunds[..n], i, refund);
      assert refunds[i := refund][..n] == refunds[..n][i := refund];
    } else {
      assert refunds[i := refund][..n] == refunds[..n];
    }
  }

  /** A stale version is told apart from a step the contribution does not allow. */
  lemma {:induction false} StaleIsConflict(r: CollectionRecord, step: Step, now: nat)
    requires !step.PayRefundStep?
    ensures Apply(r, step, now).Err? ==>
      Apply(r, step, now).error == if r.contribution.version != step.expectedVersion then VersionConflict else InvalidState
  {
  }

  /** An unknown refund, one already paid and a payment without proof or time are told apart. */
  lemma {:induction false} PaymentRefusals(r: CollectionRecord, id: nat, input: PaymentInput, now: nat)
    ensures Apply(r, PayRefundStep(id, input), now).Err? ==>
      Apply(r, PayRefundStep(id, input), now).error ==
        if id >= |r.refunds| then NotFound else if r.refunds[id].status == Paid then AlreadyPaid else InvalidState
  {
  }

  /** A decided refund is paid once, with a proof and a time; it alone changes. */
  lemma {:induction false} RefundPaidExactlyWhen(r: CollectionRecord, id: nat, input: PaymentInput, now: nat)
    ensures Apply(r, PayRefundStep(id, input), now).Ok? <==>
      id < |r.refunds| && r.refunds[id].status == Decided && !Blank(input.paymentProof) && 0 < input.paidAt <= 9_007_199_254_740_991
    ensures Apply(r, PayRefundStep(id, input), now).Ok? ==>
      var after := Apply(r, PayRefundStep(id, input), now).value;
      |after.refunds| == |r.refunds| && after.refunds[id].status == Paid && after.refunds[id].amount == r.refunds[id].amount &&
      after.refunds[id].paidAt.Some? && after.refunds[id].paidAt.value == input.paidAt &&
      (forall k | 0 <= k < |r.refunds| && k != id :: after.refunds[k] == r.refunds[k]) &&
      after.contribution.amount == r.contribution.amount && after.contribution.status == r.contribution.status && Refunded(after) == Refunded(r)
  {
    TrimIsTight(input.paymentProof);
    if Apply(r, PayRefundStep(id, input), now).Ok? {
      RefundsUpdated(r.refunds, id, Apply(r, PayRefundStep(id, input), now).value.refunds[id]);
    }
  }

  lemma {:induction false} RecoveryDecidedExactlyWhen(r: CollectionRecord, version: int, approved: bool, now: nat)
    ensures Apply(r, DecideRecoveryStep(version, approved), now).Ok? <==> r.contribution.version == version
    ensures Apply(r, DecideRecoveryStep(version, approved), now).Ok? ==>
      var after := Apply(r, DecideRecoveryStep(version, approved), now).value;
      after.contribution.version == (if approved then r.contribution.version + 1 else r.contribution.version) &&
      after.contribution.status == r.contribution.status && after.contribution.amount == r.contribution.amount && after.refunds == r.refunds
  {
  }

  // ----- What a record tells of itself

  /** From the amount received through every correction to the amount on the row. */
  predicate AmountTold(r: CollectionRecord, received: nat)
  {
    var cs, n := r.corrections, |r.corrections|;
    (if n == 0 then r.contribution.amount == received else cs[0].fromAmount == received && cs[n - 1].toAmount == r.contribution.amount) &&
    (forall i | 0 < i < n :: cs[i - 1].toAmount == cs[i].fromAmount) &&
    (forall i | 0 <= i < n :: CorrectionTells(cs[i]))
  }

  predicate CorrectionTells(c: Correction)
  {
    c.toVersion == c.fromVersion + 1 &&
    if c.kind == DuplicateCorrection then c.toAmount == c.fromAmount else 0 < c.toAmount != c.fromAmount
  }

  /** The stamps agree with the status, and a refund is of something and paid when it says when. */
  predicate StampsAgree(r: CollectionRecord)
  {
    (r.contribution.endorsedAt.Some? <==> r.contribution.status == Endorsed) &&
    (r.contribution.status == Reconciled || r.contribution.status == Endorsed ==> r.contribution.reconciledAt.Some?) &&
    (forall i | 0 <= i < |r.refunds| :: RefundTells(r.refunds[i]))
  }

  predicate RefundTells(refund: Refund) { refund.amount > 0 && (refund.status == Paid <==> refund.paidAt.Some?) }

  /** What was received, word for word. */
  predicate IsOf(c: Contribution, input: ContributionInput, at: nat)
  {
    c.channel == input.channel && c.reference == input.reference && c.currency == input.currency && c.fund == input.fund &&
    c.purpose == input.purpose && c.receivedAt == input.receivedAt && c.createdAt == at
  }

  lemma {:induction false} StepKeepsAmountTold(r: CollectionRecord, received: nat, step: Step, now: nat)
    requires AmountTold(r, received) && Apply(r, step, now).Ok?
    ensures AmountTold(Apply(r, step, now).value, received)
  {
  }

  lemma {:induction false} StepKeepsStamps(r: CollectionRecord, step: Step, now: nat)
    requires StampsAgree(r) && Apply(r, step, now).Ok?
    ensures StampsAgree(Apply(r, step, now).value)
  {
  }

  lemma {:induction false} StepKeepsIdentity(r: CollectionRecord, input: ContributionInput, at: nat, step: Step, now: nat)
    requires IsOf(r.contribution, input, at) && Apply(r, step, now).Ok?
    ensures IsOf(Apply(r, step, now).value.contribution, input, at)
  {
  }

  /**
   After every run a record is of one receipt: its identity is what was received then, its amount is what
   the corrections make of the amount received, and its stamps agree with its status.
   */
  lemma {:induction false} RunTellsReceipt(ts: seq<Transaction>, id: Text) returns (k: nat)
    requires id in Run(ts)
    ensures k < |ts| && ts[k].Receive? && ts[k].id == id && IsOf(Run(ts)[id].contribution, ts[k].input, ts[k].now)
    ensures AmountTold(Run(ts)[id], ts[k].input.amount) && StampsAgree(Run(ts)[id])
  {
    var n := |ts| - 1;
    var before, t := Run(ts[..n]), ts[n];
    if id in before {
      k := RunTellsReceipt(ts[..n], id);
      if t.Perform? && t.id == id && Apply(before[id], t.step, t.now).Ok? {
        StepKeepsAmountTold(before[id], ts[k].input.amount, t.step, t.now);
        StepKeepsStamps(before[id], t.step, t.now);
        StepKeepsIdentity(before[id], ts[k].input, ts[k].now, t.step, t.now);
      }
    } else {
      k := n;
    }
  }

  // ----- Refunds over runs

  predicate Corrects(t: Transaction, id: Text) { t.Perform? && t.id == id && t.step.CorrectStep? }

  lemma {:induction false} StepKeepsRefundsCovered(r: CollectionRecord, step: Step, now: nat)
    requires Refunded(r) <= r.contribution.amount && Apply(r, step, now).Ok? && !step.CorrectStep?
    ensures Refunded(Apply(r, step, now).value) <= Apply(r, step, now).value.contribution.amount
  {
    match step
    case DecideRefundStep(version, input) => DecidedRefundIsCovered(r, version, input, now);
    case PayRefundStep(id, input) => RefundPaidExactlyWhen(r, id, input, now);
    case _ =>
  }

  /** Over every run that does not correct a contribution, its refunds stay within its amount. */
  lemma {:induction false} RunKeepsRefundsCovered(ts: seq<Transaction>, id: Text)
    requires id in Run(ts) && forall i | 0 <= i < |ts| :: !Corrects(ts[i], id)
    ensures Refunded(Run(ts)[id]) <= Run(ts)[id].contribution.amount
  {
    var n := |ts| - 1;
    var before, t := Run(ts[..n]), ts[n];
    if id in before {
      RunKeepsRefundsCovered(ts[..n], id);
      assert !Corrects(t, id);
      if t.Perform? && t.id == id && Apply(before[id], t.step, t.now).Ok? { StepKeepsRefundsCovered(before[id], t.step, t.now); }
    }
  }

  // ----- Receiving

  /** A contribution enters exactly when its id is new and no other came with its channel and reference. */
  lemma {:induction false} ReceivedExactlyWhen(store: Store, id: Text, input: ContributionInput, now: nat)
    ensures ReceivedInto(store, id, input, now).Ok? <==>
      id !in store && forall other | other in store ::
        store[other].contribution.channel != input.channel || store[other].contribution.reference != input.reference
    ensures ReceivedInto(store, id, input, now).Ok? ==>
      var after := ReceivedInto(store, id, input, now).value;
      id in after && after == store[id := after[id]] && IsOf(after[id].contribution, input, now) &&
      after[id].contribution.amount == input.amount && after[id].contribution.status == Received && after[id].contribution.version == 1 &&
      after[id].refunds == [] && after[id].corrections == []
  {
    if ReceivedInto(store, id, input, now).Ok? {
      forall other | other in store
        ensures store[other].contribution.channel != input.channel || store[other].contribution.reference != input.reference
      {
      }
    }
  }
}
