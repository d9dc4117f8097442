/**
 What every run keeps of a single contribution: its history tells its whole life, an endorsed
 contribution was reconciled first, and a source reference is recorded once.
 */
module ContributionLife {
  import opened ContributionLedger
  import opened CollectionHistory

  /** The entry keeps the version: it decides a refund or rejects a recovery. */
  predicate KeepsVersion(action: HistoryAction) { action == DecideRefund || action == RejectRecovery }

  /** An entry takes up where the one before it ended, by an allowed transition. */
  predicate Follows(before: HistoryEntry, h: HistoryEntry)
  {
    h.fromStatus == before.toStatus && TransitionAllowed(h.fromStatus, h.toStatus) &&
    h.version == (if KeepsVersion(h.action) then before.version else before.version + 1)
  }

  /** From the recording to the row as it stands. */
  predicate Told(r: CollectionRecord)
  {
    var n := |r.history|;
    n > 0 && r.history[0].action == Record && r.history[0].toStatus == Received && r.history[0].version == 1 &&
    (forall i | 0 < i < n :: Follows(r.history[i - 1], r.history[i])) &&
    r.history[n - 1].toStatus == r.contribution.status && r.history[n - 1].version == r.contribution.version
  }

  predicate WasReconciled(r: CollectionRecord) { exists i | 0 <= i < |r.history| :: r.history[i].action == Reconcile }

  predicate ReconciledFirst(r: CollectionRecord) { r.contribution.status == Endorsed || r.contribution.status == Reconciled ==> WasReconciled(r) }

  predicate SourcesAreUnique(store: Store)
  {
    forall a, b | a in store && b in store && a != b ::
      store[a].contribution.channel != store[b].contribution.channel || store[a].contribution.reference != store[b].contribution.reference
  }

  lemma {:induction false} StepAddsOneEntry(r: CollectionRecord, step: Step, now: nat)
    requires Told(r) && Apply(r, step, now).Ok?
    ensures var after := Apply(r, step, now).value; var n := |r.history|;
            after.history[..n] == r.history && |after.history| == n + 1 && Follows(r.history[n - 1], after.history[n]) &&
            after.history[n].toStatus == after.contribution.status && after.history[n].version == after.contribution.version &&
            after.contribution.channel == r.contribution.channel && after.contribution.reference == r.contribution.reference &&
            (after.contribution.status == Reconciled ==> r.contribution.status == Reconciled || after.history[n].action == Reconcile) &&
            (after.contribution.status == Endorsed ==> r.contribution.status == Endorsed || r.contribution.status == Reconciled)
  {
  }

  lemma {:induction false} StepKeepsTold(r: CollectionRecord, step: Step, now: nat)
    requires Told(r) && ReconciledFirst(r) && Apply(r, step, now).Ok?
    ensures Told(Apply(r, step, now).value) && ReconciledFirst(Apply(r, step, now).value)
  {
    var after, n := Apply(r, step, now).value, |r.history|;
    StepAddsOneEntry(r, step, now);
    forall i | 0 <= i < n ensures after.history[i] == r.history[i] { assert after.history[..n][i] == r.history[i]; }
    if r.contribution.status == Endorsed || r.contribution.status == Reconciled {
      var i :| 0 <= i < n && r.history[i].action == Reconcile;
      assert after.history[i].action == Reconcile;
    }
  }

  predicate Lives(store: Store)
  {
    SourcesAreUnique(store) && forall id | id in store :: Told(store[id]) && ReconciledFirst(store[id])
  }

  /** After every run each history leads from the recording to the row as it stands, whoever is endorsed was reconciled, and no source is recorded twice. */
  lemma {:induction false} RunLives(ts: seq<Transaction>)
    ensures Lives(Run(ts))
  {
    if ts != [] {
      var store, t := Run(ts[..|ts| - 1]), ts[|ts| - 1];
      RunLives(ts[..|ts| - 1]);
      match t {
        case Receive(id, input, now) =>
        case Perform(id, step, now) =>
          if id in store && Apply(store[id], step, now).Ok? {
            StepAddsOneEntry(store[id], step, now);
            StepKeepsTold(store[id], step, now);
          }
      }
    }
  }
}
