/**
 Rolling back is going back: for every run of ledger transactions in clock order and every cutoff,
 the rolled-back report equals the report on the store reached by the transactions up to the cutoff.
 The rolled-back version number agrees too, except after a rejected contact recovery that no
 version change precedes; that condition is exact.
 */
module CollectionHistory {
  import opened Options
  import opened Sequences
  import opened Texts
  import opened Sorting
  import opened AllocationFill
  import opened ContributionLedger
  import opened CollectionSource

  // ----- Runs

  function Run(ts: seq<Transaction>): Store
  {
    if ts == [] then map[] else After(Run(ts[..|ts| - 1]), ts[|ts| - 1])
  }

  predicate InClockOrder(ts: seq<Transaction>)
  {
    forall i, j :: 0 <= i < j < |ts| ==> ts[i].now <= ts[j].now
  }

  /** The transactions up to the cutoff. */
  function UpTo(ts: seq<Transaction>, cutoff: int): seq<Transaction>
  {
    if ts == [] then []
    else
      var last, front := ts[|ts| - 1], UpTo(ts[..|ts| - 1], cutoff);
      if last.now <= cutoff then front + [last] else front
  }

  // ----- What every record keeps

  /** Serial numbers count up, corrections name rising versions, and nothing is dated after `last`. */
  predicate Kept(r: CollectionRecord, last: int)
  {
    HistoryKept(r.history, last) && CorrectionsKept(r, last) &&
    (forall i | 0 <= i < |r.refunds| :: r.refunds[i].updatedAt <= last) &&
    r.contribution.createdAt <= last
  }

  predicate HistoryKept(hs: seq<HistoryEntry>, last: int)
  {
    forall i | 0 <= i < |hs| :: hs[i].id == i && hs[i].occurredAt <= last
  }

  predicate CorrectionsKept(r: CollectionRecord, last: int)
  {
    Ascending(r.corrections, VersionKey) &&
    forall i | 0 <= i < |r.corrections| :: r.corrections[i].toVersion <= r.contribution.version && r.corrections[i].createdAt <= last
  }

  lemma {:induction false} NewRecordIsKept(input: ContributionInput, now: nat)
    ensures Kept(NewRecord(input, now), now)
  {
  }

  lemma {:induction false} StepKeepsHistory(r: CollectionRecord, last: int, step: Step, now: nat)
    requires HistoryKept(r.history, last) && last <= now && Apply(r, step, now).Ok?
    ensures HistoryKept(Apply(r, step, now).value.history, now)
  {
  }

  lemma {:induction false} StepKeepsCorrections(r: CollectionRecord, last: int, step: Step, now: nat)
    requires CorrectionsKept(r, last) && last <= now && Apply(r, step, now).Ok?
    ensures CorrectionsKept(Apply(r, step, now).value, now)
  {
  }

  lemma {:induction false} StepKeeps(r: CollectionRecord, last: int, step: Step, now: nat)
    requires Kept(r, last) && last <= now && Apply(r, step, now).Ok?
    ensures Kept(Apply(r, step, now).value, now)
  {
    StepKeepsHistory(r, last, step, now);
    StepKeepsCorrections(r, last, step, now);
  }

  // ----- The same readings without sorting

  function AmountBefore(cs: seq<Correction>, amount: nat, cutoff: int): nat
  {
    if cs == [] then amount
    else
      var c := cs[|cs| - 1];
      AmountBefore(cs[..|cs| - 1], if c.createdAt > cutoff then c.fromAmount else amount, cutoff)
  }

  function StatusBefore(hs: seq<HistoryEntry>, status: ContributionStatus, cutoff: int): ContributionStatus
  {
    if hs == [] then status
    else
      var h := hs[|hs| - 1];
      StatusBefore(hs[..|hs| - 1], if h.occurredAt > cutoff then h.fromStatus else status, cutoff)
  }

  function VersionBefore(hs: seq<HistoryEntry>, version: int, cutoff: int): int
  {
    if hs == [] then version
    else
      var h := hs[|hs| - 1];
      VersionBefore(hs[..|hs| - 1], if Telling(h, cutoff) then Min(version, h.version - 1) else version, cutoff)
  }

  lemma {:induction false} ReversedTail<T>(xs: seq<T>)
    requires xs != []
    ensures Reverse(xs)[0] == xs[|xs| - 1] && Reverse(xs)[1..] == Reverse(xs[..|xs| - 1])
  {
  }

  lemma {:induction false} RollsReversed(cs: seq<Correction>, amount: nat, cutoff: int)
    ensures RollAmount(Reverse(cs), amount, cutoff) == AmountBefore(cs, amount, cutoff)
  {
    if cs != [] {
      ReversedTail(cs);
      var c := cs[|cs| - 1];
      RollsReversed(cs[..|cs| - 1], if c.createdAt > cutoff then c.fromAmount else amount, cutoff);
    }
  }

  lemma {:induction false} RollsHistoryReversed(hs: seq<HistoryEntry>, status: ContributionStatus, version: int, cutoff: int)
    ensures RollStatus(Reverse(hs), status, cutoff) == StatusBefore(hs, status, cutoff)
    ensures RollVersion(Reverse(hs), version, cutoff) == VersionBefore(hs, version, cutoff)
  {
    if hs != [] {
      ReversedTail(hs);
      var h := hs[|hs| - 1];
      RollsHistoryReversed(hs[..|hs| - 1], if h.occurredAt > cutoff then h.fromStatus else status,
                           if Telling(h, cutoff) then Min(version, h.version - 1) else version, cutoff);
    }
  }

  function Before(r: CollectionRecord, cutoff: int): Reading
  {
    Reading(AmountBefore(r.corrections, r.contribution.amount, cutoff),
            StatusBefore(r.history, r.contribution.status, cutoff),
            VersionBefore(r.history, r.contribution.version, cutoff),
            PaidTotal(r.refunds, cutoff))
  }

  /** The order in which corrections and history are handed to the builder does not matter. */
  lemma {:induction false} RollBackIgnoresListing(r: CollectionRecord, last: int, cutoff: int, shuffled: CollectionRecord)
    requires Kept(r, last)
    requires shuffled.contribution == r.contribution && shuffled.refunds == r.refunds
    requires multiset(shuffled.corrections) == multiset(r.corrections) && multiset(shuffled.history) == multiset(r.history)
    ensures RolledBack(shuffled, cutoff) == Before(r, cutoff)
  {
    assert Ascending(r.history, SerialKey);
    SortsToReverse(shuffled.corrections, r.corrections, VersionKey);
    SortsToReverse(shuffled.history, r.history, SerialKey);
    RollsReversed(r.corrections, r.contribution.amount, cutoff);
    RollsHistoryReversed(r.history, r.contribution.status, r.contribution.version, cutoff);
  }

  // ----- Nothing to roll back before the cutoff

  lemma {:induction false} NothingAfter(cs: seq<Correction>, hs: seq<HistoryEntry>, amount: nat, status: ContributionStatus, version: int, cutoff: int)
    requires forall i | 0 <= i < |cs| :: cs[i].createdAt <= cutoff
    requires forall i | 0 <= i < |hs| :: hs[i].occurredAt <= cutoff
    ensures AmountBefore(cs, amount, cutoff) == amount
    ensures StatusBefore(hs, status, cutoff) == status && VersionBefore(hs, version, cutoff) == version
    decreases |cs| + |hs|
  {
    if cs != [] { NothingAfter(cs[..|cs| - 1], [], amount, status, version, cutoff); }
    if hs != [] { NothingAfter([], hs[..|hs| - 1], amount, status, version, cutoff); }
  }

  lemma {:induction false} CurrentWithinCutoff(r: CollectionRecord, last: int, cutoff: int)
    requires Kept(r, last) && last <= cutoff
    ensures Before(r, cutoff) == Current(r, cutoff)
  {
    NothingAfter(r.corrections, r.history, r.contribution.amount, r.contribution.status, r.contribution.version, cutoff);
  }

  // ----- A step after the cutoff changes no reading at the cutoff

  lemma {:induction false} PaidTotalUpdate(refunds: seq<Refund>, i: nat, refund: Refund, cutoff: int)
    requires i < |refunds| && !PaidBy(refunds[i], cutoff) && !PaidBy(refund, cutoff)
    ensures PaidTotal(refunds[i := refund], cutoff) == PaidTotal(refunds, cutoff)
    ensures PaidRefundsBy(refunds[i := refund], cutoff) == PaidRefundsBy(refunds, cutoff)
  {
    var n := |refunds| - 1;
    if i < n {
      PaidTotalUpdate(refunds[..n], i, refund, cutoff);
      assert refunds[i := refund][..n] == refunds[..n][i := refund];
    } else {
      assert refunds[i := refund][..n] == refunds[..n];
    }
  }

  lemma {:induction false} SnocBefore(hs: seq<HistoryEntry>, h: HistoryEntry, status: ContributionStatus, version: int, cutoff: int)
    requires h.occurredAt > cutoff
    ensures StatusBefore(hs + [h], status, cutoff) == StatusBefore(hs, h.fromStatus, cutoff)
    ensures VersionBefore(hs + [h], version, cutoff) ==
      VersionBefore(hs, if h.action != DecideRefund then Min(version, h.version - 1) else version, cutoff)
  {
    assert (hs + [h])[..|hs|] == hs;
  }

  lemma {:induction false} CorrectionBefore(cs: seq<Correction>, c: Correction, amount: nat, cutoff: int)
    requires c.createdAt > cutoff
    ensures AmountBefore(cs + [c], amount, cutoff) == AmountBefore(cs, c.fromAmount, cutoff)
    ensures CorrectionsBy(cs + [c], cutoff) == CorrectionsBy(cs, cutoff)
  {
    assert (cs + [c])[..|cs|] == cs;
  }

  lemma {:induction false} RefundAppended(refunds: seq<Refund>, refund: Refund, cutoff: int)
    requires !PaidBy(refund, cutoff)
    ensures PaidTotal(refunds + [refund], cutoff) == PaidTotal(refunds, cutoff)
    ensures PaidRefundsBy(refunds + [refund], cutoff) == PaidRefundsBy(refunds, cutoff)
  {
    assert (refunds + [refund])[..|refunds|] == refunds;
  }

  /** What a step logs: one entry naming the status it started from. */
  lemma {:induction false} StepLogs(r: CollectionRecord, step: Step, now: nat) returns (h: HistoryEntry)
    requires Apply(r, step, now).Ok?
    ensures var r' := Apply(r, step, now).value;
      r'.history == r.history + [h] && h.occurredAt == now && h.fromStatus == r.contribution.status &&
      r'.contribution.createdAt == r.contribution.createdAt && r'.contribution.version == h.version &&
      h.version == (if h.action == DecideRefund || h.action == RejectRecovery then r.contribution.version else r.contribution.version + 1)
  {
    var r' := Apply(r, step, now).value;
    h := r'.history[|r.history|];
  }

  /** The same corrections and paid refunds are listed. */
  predicate SameAttachments(now: CollectionRecord, then_: CollectionRecord, cutoff: int)
  {
    CorrectionsBy(now.corrections, cutoff) == CorrectionsBy(then_.corrections, cutoff) &&
    PaidRefundsBy(now.refunds, cutoff) == PaidRefundsBy(then_.refunds, cutoff)
  }

  lemma {:induction false} StepAfterCutoff(r: CollectionRecord, step: Step, now: nat, cutoff: int)
    requires Apply(r, step, now).Ok? && now > cutoff
    ensures var r' := Apply(r, step, now).value;
      Before(r', cutoff).amount == Before(r, cutoff).amount &&
      Before(r', cutoff).status == Before(r, cutoff).status &&
      Before(r', cutoff).paid == Before(r, cutoff).paid && SameAttachments(r', r, cutoff)
  {
    var r' := Apply(r, step, now).value;
    var h := StepLogs(r, step, now);
    SnocBefore(r.history, h, r'.contribution.status, r'.contribution.version, cutoff);
    match step
    case CorrectStep(v, input) =>
      CorrectionBefore(r.corrections, r'.corrections[|r.corrections|], r'.contribution.amount, cutoff);
    case DecideRefundStep(v, input) => RefundAppended(r.refunds, r'.refunds[|r.refunds|], cutoff);
    case PayRefundStep(id, input) => PaidTotalUpdate(r.refunds, id, r'.refunds[id], cutoff);
    case _ =>
  }

  // ----- The version number

  /** The first entry after the cutoff that the version rollback looks at. */
  function FirstTelling(hs: seq<HistoryEntry>, cutoff: int): Option<HistoryAction>
  {
    if hs == [] then None
    else
      match FirstTelling(hs[..|hs| - 1], cutoff)
      case Some(a) => Some(a)
      case None => if Telling(hs[|hs| - 1], cutoff) then Some(hs[|hs| - 1].action) else None
  }

  lemma {:induction false} VersionBeforeMin(hs: seq<HistoryEntry>, version: int, less: int, cutoff: int)
    requires less <= version
    ensures VersionBefore(hs, less, cutoff) == Min(less, VersionBefore(hs, version, cutoff))
  {
    if hs != [] {
      var h := hs[|hs| - 1];
      if Telling(h, cutoff) {
        VersionBeforeMin(hs[..|hs| - 1], Min(version, h.version - 1), Min(less, h.version - 1), cutoff);
      } else {
        VersionBeforeMin(hs[..|hs| - 1], version, less, cutoff);
      }
    }
  }

  /** How the rolled-back version relates to the version at the cutoff, by what came first after it. */
  predicate VersionReads(r: CollectionRecord, atCutoff: int, cutoff: int)
  {
    match FirstTelling(r.history, cutoff)
    case None => r.contribution.version == atCutoff && Before(r, cutoff).version == atCutoff
    case Some(action) =>
      if action == RejectRecovery then Before(r, cutoff).version == atCutoff - 1 && r.contribution.version >= atCutoff
      else Before(r, cutoff).version == atCutoff && r.contribution.version > atCutoff
  }

  lemma {:induction false} FirstTellingSnoc(hs: seq<HistoryEntry>, h: HistoryEntry, cutoff: int)
    ensures FirstTelling(hs + [h], cutoff) ==
      match FirstTelling(hs, cutoff)
      case Some(a) => Some(a)
      case None => if Telling(h, cutoff) then Some(h.action) else None
  {
    assert (hs + [h])[..|hs|] == hs;
  }

  lemma {:induction false} VersionAfterStep(r: CollectionRecord, step: Step, now: nat, cutoff: int, atCutoff: int)
    requires Apply(r, step, now).Ok? && now > cutoff && VersionReads(r, atCutoff, cutoff)
    ensures VersionReads(Apply(r, step, now).value, atCutoff, cutoff)
  {
    var r' := Apply(r, step, now).value;
    var h := StepLogs(r, step, now);
    var v: int := r.contribution.version;
    SnocBefore(r.history, h, r'.contribution.status, r'.contribution.version, cutoff);
    FirstTellingSnoc(r.history, h, cutoff);
    VersionBeforeMin(r.history, v, v - 1, cutoff);
  }

  lemma {:induction false} NothingTelling(hs: seq<HistoryEntry>, cutoff: int)
    requires forall i | 0 <= i < |hs| :: hs[i].occurredAt <= cutoff
    ensures FirstTelling(hs, cutoff) == None
  {
    if hs != [] { NothingTelling(hs[..|hs| - 1], cutoff); }
  }

  // ----- Whole runs

  predicate SameIdentity(c: Contribution, d: Contribution)
  {
    c.channel == d.channel && c.reference == d.reference && c.currency == d.currency && c.fund == d.fund &&
    c.receivedAt == d.receivedAt && c.createdAt == d.createdAt
  }

  /** `now` is a later state of the record that stood as `then` at the cutoff. */
  predicate Agrees(now: CollectionRecord, then_: CollectionRecord, cutoff: int)
  {
    SameIdentity(now.contribution, then_.contribution) && SameAttachments(now, then_, cutoff) &&
    Before(now, cutoff).(version := 0) == Current(then_, cutoff).(version := 0) &&
    VersionReads(now, then_.contribution.version, cutoff)
  }

  predicate StoresAgree(now: Store, then_: Store, cutoff: int)
  {
    (forall id | id in then_ :: id in now && Agrees(now[id], then_[id], cutoff)) &&
    (forall id | id in now && id !in then_ :: now[id].contribution.createdAt > cutoff)
  }

  predicate StoreKept(store: Store, last: int)
  {
    forall id | id in store :: Kept(store[id], last)
  }

  lemma {:induction false} KeptLonger(r: CollectionRecord, last: int, later: int)
    requires Kept(r, last) && last <= later
    ensures Kept(r, later)
  {
  }

  lemma {:induction false} TransactionKeeps(store: Store, last: int, t: Transaction)
    requires StoreKept(store, last) && last <= t.now
    ensures StoreKept(After(store, t), t.now)
  {
    var store' := After(store, t);
    forall id | id in store' ensures Kept(store'[id], t.now) {
      if id in store { KeptLonger(store[id], last, t.now); }
      match t
      case Receive(rid, input, now) =>
        if store' != store && id == rid { NewRecordIsKept(input, now); }
      case Perform(pid, step, now) =>
        if store' != store && id == pid { StepKeeps(store[id], last, step, now); }
    }
  }

  lemma {:induction false} RunKeeps(ts: seq<Transaction>, last: int)
    requires InClockOrder(ts) && forall i | 0 <= i < |ts| :: ts[i].now <= last
    ensures StoreKept(Run(ts), last)
  {
    if ts != [] {
      var n := |ts| - 1;
      RunKeeps(ts[..n], ts[n].now);
      TransactionKeeps(Run(ts[..n]), ts[n].now, ts[n]);
      forall id | id in Run(ts) ensures Kept(Run(ts)[id], last) { KeptLonger(Run(ts)[id], ts[n].now, last); }
    }
  }

  lemma {:induction false} AgreesWithItself(r: CollectionRecord, cutoff: int)
    requires Kept(r, cutoff)
    ensures Agrees(r, r, cutoff)
  {
    CurrentWithinCutoff(r, cutoff, cutoff);
    NothingTelling(r.history, cutoff);
  }

  lemma {:induction false} AgreesAfterStep(now: CollectionRecord, then_: CollectionRecord, step: Step, at: nat, cutoff: int)
    requires Agrees(now, then_, cutoff) && Apply(now, step, at).Ok? && at > cutoff
    ensures Agrees(Apply(now, step, at).value, then_, cutoff)
  {
    StepAfterCutoff(now, step, at, cutoff);
    VersionAfterStep(now, step, at, cutoff, then_.contribution.version);
  }

  /** A record changed or entered after the cutoff. */
  lemma {:induction false} AgreeAfterUpdate(now: Store, then_: Store, id: Text, r: CollectionRecord, cutoff: int)
    requires StoresAgree(now, then_, cutoff)
    requires if id in then_ then Agrees(r, then_[id], cutoff) else r.contribution.createdAt > cutoff
    ensures StoresAgree(now[id := r], then_, cutoff)
  {
  }

  lemma {:induction false} AgreeAfterTransaction(now: Store, then_: Store, t: Transaction, cutoff: int)
    requires StoresAgree(now, then_, cutoff) && t.now > cutoff
    ensures StoresAgree(After(now, t), then_, cutoff)
  {
    match t
    case Receive(id, input, at) =>
      if id !in now { AgreeAfterUpdate(now, then_, id, NewRecord(input, at), cutoff); }
    case Perform(id, step, at) =>
      if id in now && Apply(now[id], step, at).Ok? {
        if id in then_ {
          AgreesAfterStep(now[id], then_[id], step, at, cutoff);
        } else {
          var h := StepLogs(now[id], step, at);
        }
        AgreeAfterUpdate(now, then_, id, Apply(now[id], step, at).value, cutoff);
      }
  }

  lemma {:induction false} UpToAll(ts: seq<Transaction>, cutoff: int)
    requires forall i | 0 <= i < |ts| :: ts[i].now <= cutoff
    ensures UpTo(ts, cutoff) == ts
  {
    if ts != [] {
      UpToAll(ts[..|ts| - 1], cutoff);
      assert ts == ts[..|ts| - 1] + [ts[|ts| - 1]];
    }
  }

  lemma {:induction false} RunAgrees(ts: seq<Transaction>, cutoff: int)
    requires InClockOrder(ts)
    ensures StoresAgree(Run(ts), Run(UpTo(ts, cutoff)), cutoff) && StoreKept(Run(UpTo(ts, cutoff)), cutoff)
  {
    if ts != [] {
      var n := |ts| - 1;
      if ts[n].now <= cutoff {
        UpToAll(ts, cutoff);
        RunKeeps(ts, cutoff);
        forall id | id in Run(ts) ensures Agrees(Run(ts)[id], Run(ts)[id], cutoff) { AgreesWithItself(Run(ts)[id], cutoff); }
      } else {
        RunAgrees(ts[..n], cutoff);
        AgreeAfterTransaction(Run(ts[..n]), Run(UpTo(ts[..n], cutoff)), ts[n], cutoff);
        assert UpTo(ts, cutoff) == UpTo(ts[..n], cutoff);
      }
    }
  }

  /** One record: what the rollback reads is what stood at the cutoff; the version too, exactly unless a rejected recovery came first. */
  lemma {:induction false} RolledBackIsAsOfCutoff(ts: seq<Transaction>, cutoff: int, id: Text)
    requires InClockOrder(ts) && id in Run(UpTo(ts, cutoff))
    ensures id in Run(ts)
    ensures var now, then_ := RolledBack(Run(ts)[id], cutoff), Current(Run(UpTo(ts, cutoff))[id], cutoff);
      now.amount == then_.amount && now.status == then_.status && now.paid == then_.paid && now.Net() == then_.Net() &&
      (now.version == then_.version <==> FirstTelling(Run(ts)[id].history, cutoff) != Some(RejectRecovery))
  {
    RunAgrees(ts, cutoff);
    var last := if ts == [] then 0 else ts[|ts| - 1].now;
    RunKeeps(ts, last);
    RollBackIgnoresListing(Run(ts)[id], last, cutoff, Run(ts)[id]);
  }

  // ----- Whole reports

  /** The store's records in a given order of ids. */
  function Listing(store: Store, ids: seq<Text>): seq<(Text, CollectionRecord)>
  {
    if ids == [] then []
    else
      var id, front := ids[|ids| - 1], Listing(store, ids[..|ids| - 1]);
      if id in store then front + [(id, store[id])] else front
  }

  predicate SameRows(now: seq<CollectionEntry>, then_: seq<CollectionEntry>)
  {
    |now| == |then_| && forall k | 0 <= k < |now| :: now[k].(version := then_[k].version) == then_[k]
  }

  /** The ids already recorded in a store. */
  function Known(ids: seq<Text>, store: Store): seq<Text>
  {
    if ids == [] then []
    else
      var front, id := Known(ids[..|ids| - 1], store), ids[|ids| - 1];
      if id in store then front + [id] else front
  }

  /** Equal rows up to the version, and equal exclusions but for what was not yet recorded. */
  predicate SameSide(now: Result<CollectionSide, SideError>, then_: Result<CollectionSide, SideError>, recorded: Store)
  {
    match (now, then_)
    case (Ok(a), Ok(b)) => SameRows(a.entries, b.entries) && Known(a.excludedAfterCutOff, recorded) == b.excludedAfterCutOff
    case (Err(a), Err(b)) => a == b
    case _ => false
  }

  /** A record that the report shows as a row. */
  predicate Shown(c: Contribution, scope: Scope) { InPeriod(c, scope) && !AfterCutOff(c, scope) }

  predicate VersionHolds(now: Store, then_: Store, scope: Scope, id: Text)
  {
    id in now && id in then_ && Shown(now[id].contribution, scope) ==> FirstTelling(now[id].history, scope.cutoff) != Some(RejectRecovery)
  }

  predicate AllVersionsHold(now: Store, then_: Store, scope: Scope, ids: seq<Text>)
  {
    forall i | 0 <= i < |ids| :: VersionHolds(now, then_, scope, ids[i])
  }

  lemma {:induction false} SideSnoc(scope: Scope, records: seq<(Text, CollectionRecord)>, id: Text, r: CollectionRecord)
    ensures SideOf(scope, records + [(id, r)]) == WithRow(SideOf(scope, records), scope, id, r, RolledBack(r, scope.cutoff))
  {
    assert (records + [(id, r)])[..|records|] == records;
  }

  lemma {:induction false} ListingSnoc(scope: Scope, store: Store, ids: seq<Text>, last: int)
    requires ids != [] && StoreKept(store, last)
    ensures var id, front := ids[|ids| - 1], SideOf(scope, Listing(store, ids[..|ids| - 1]));
      SideOf(scope, Listing(store, ids)) ==
        if id in store then WithRow(front, scope, id, store[id], Before(store[id], scope.cutoff)) else front
  {
    var id := ids[|ids| - 1];
    var front := Listing(store, ids[..|ids| - 1]);
    if id in store {
      SideSnoc(scope, front, id, store[id]);
      RollBackIgnoresListing(store[id], last, scope.cutoff, store[id]);
    }
  }

  lemma {:induction false} SameRowsGrow(a: seq<CollectionEntry>, b: seq<CollectionEntry>, x: CollectionEntry, y: CollectionEntry)
    requires SameRows(a, b) && x.(version := y.version) == y
    ensures SameRows(a + [x], b + [y])
    ensures a + [x] == b + [y] <==> a == b && x.version == y.version
  {
    assert (a + [x])[|a|] == x && (b + [y])[|a|] == y && (a + [x])[..|a|] == a && (b + [y])[..|a|] == b;
  }

  lemma {:induction false} KnownSnoc(ids: seq<Text>, id: Text, store: Store)
    ensures Known(ids + [id], store) == if id in store then Known(ids, store) + [id] else Known(ids, store)
  {
    assert (ids + [id])[..|ids|] == ids;
  }

  function Entries(side: Result<CollectionSide, SideError>): seq<CollectionEntry>
  {
    if side.Ok? then side.value.entries else []
  }

  /** The two rows of one record. */
  lemma {:induction false} RowAgrees(id: Text, now: CollectionRecord, then_: CollectionRecord, cutoff: int) returns (x: CollectionEntry, y: CollectionEntry)
    requires Agrees(now, then_, cutoff) && Before(then_, cutoff) == Current(then_, cutoff) && now.contribution.fund.Some?
    ensures x == EntryOf(id, now, Before(now, cutoff), cutoff) && y == EntryOf(id, then_, Before(then_, cutoff), cutoff)
    ensures x.(version := y.version) == y
    ensures x.version == y.version <==> FirstTelling(now.history, cutoff) != Some(RejectRecovery)
  {
    x, y := EntryOf(id, now, Before(now, cutoff), cutoff), EntryOf(id, then_, Before(then_, cutoff), cutoff);
    assert Before(now, cutoff).Net() == Before(then_, cutoff).Net();
  }

  /** A record known at the cutoff adds the same to both reports, but for a shifted version. */
  lemma {:induction false} SameSideGrows(
      a: Result<CollectionSide, SideError>, b: Result<CollectionSide, SideError>, scope: Scope, id: Text,
      now: CollectionRecord, then_: CollectionRecord, recorded: Store)
    requires SameSide(a, b, recorded) && Agrees(now, then_, scope.cutoff) && Before(then_, scope.cutoff) == Current(then_, scope.cutoff)
    requires id in recorded
    ensures var (c, d) := (WithRow(a, scope, id, now, Before(now, scope.cutoff)), WithRow(b, scope, id, then_, Before(then_, scope.cutoff)));
      SameSide(c, d, recorded) &&
      (c.Ok? ==> (Entries(c) == Entries(d) <==>
        Entries(a) == Entries(b) && (Shown(now.contribution, scope) ==> FirstTelling(now.history, scope.cutoff) != Some(RejectRecovery))))
  {
    if a.Err? || !InPeriod(now.contribution, scope) {
    } else if AfterCutOff(now.contribution, scope) {
      KnownSnoc(a.value.excludedAfterCutOff, id, recorded);
    } else if now.contribution.fund.Some? {
      var x, y := RowAgrees(id, now, then_, scope.cutoff);
      SameRowsGrow(a.value.entries, b.value.entries, x, y);
    }
  }

  /** A record that came after the cutoff adds nothing but its name among the exclusions. */
  lemma {:induction false} NewcomerIsExcluded(
      a: Result<CollectionSide, SideError>, b: Result<CollectionSide, SideError>, scope: Scope, id: Text, now: CollectionRecord, recorded: Store)
    requires SameSide(a, b, recorded) && now.contribution.createdAt > scope.cutoff && id !in recorded
    ensures var c := WithRow(a, scope, id, now, Before(now, scope.cutoff));
      SameSide(c, b, recorded) && Entries(c) == Entries(a) &&
      (c.Ok? ==> a.Ok? && c.value.excludedAfterCutOff == a.value.excludedAfterCutOff + if InPeriod(now.contribution, scope) then [id] else [])
  {
    if a.Ok? {
      KnownSnoc(a.value.excludedAfterCutOff, id, recorded);
      assert a.value.excludedAfterCutOff + [] == a.value.excludedAfterCutOff;
    }
  }

  lemma {:induction false} SidesAgree(now: Store, then_: Store, last: int, scope: Scope, ids: seq<Text>)
    requires StoresAgree(now, then_, scope.cutoff) && StoreKept(then_, scope.cutoff) && StoreKept(now, last)
    ensures var (c, d) := (SideOf(scope, Listing(now, ids)), SideOf(scope, Listing(then_, ids)));
      SameSide(c, d, then_) &&
      (c.Ok? ==> (Entries(c) == Entries(d) <==> AllVersionsHold(now, then_, scope, ids)))
  {
    if ids != [] {
      var id, front := ids[|ids| - 1], ids[..|ids| - 1];
      SidesAgree(now, then_, last, scope, front);
      VersionsSplit(now, then_, scope, ids);
      ListingSnoc(scope, now, ids, last);
      ListingSnoc(scope, then_, ids, scope.cutoff);
      var (a, b) := (SideOf(scope, Listing(now, front)), SideOf(scope, Listing(then_, front)));
      if id in then_ {
        CurrentWithinCutoff(then_[id], scope.cutoff, scope.cutoff);
        SameSideGrows(a, b, scope, id, now[id], then_[id], then_);
      } else if id in now {
        NewcomerIsExcluded(a, b, scope, id, now[id], then_);
      }
    }
  }

  lemma {:induction false} VersionsSplit(now: Store, then_: Store, scope: Scope, ids: seq<Text>)
    requires ids != []
    ensures AllVersionsHold(now, then_, scope, ids) <==>
            AllVersionsHold(now, then_, scope, ids[..|ids| - 1]) && VersionHolds(now, then_, scope, ids[|ids| - 1])
  {
    var front := ids[..|ids| - 1];
    assert forall i | 0 <= i < |front| :: front[i] == ids[i];
  }

  lemma {:induction false} SameRowsSameTotals(now: seq<CollectionEntry>, then_: seq<CollectionEntry>, fund: FundType)
    requires SameRows(now, then_)
    ensures TotalIdr(now) == TotalIdr(then_) && FundTotal(now, fund) == FundTotal(then_, fund)
  {
    if now != [] {
      var n := |now| - 1;
      assert forall k | 0 <= k < n :: now[..n][k] == now[k] && then_[..n][k] == then_[k];
      SameRowsSameTotals(now[..n], then_[..n], fund);
    }
  }

  /**
   The report built on today's store is the report built at the cutoff: the same rows but for the version,
   the same totals, and the same exclusions but for what was recorded since. The versions are the same too
   exactly when no row's first telling entry after the cutoff is a rejected recovery.
   */
  lemma {:induction false} ReportIsAsOfCutoff(ts: seq<Transaction>, scope: Scope, ids: seq<Text>, fund: FundType)
    requires InClockOrder(ts)
    ensures var (now, then_) := (Run(ts), Run(UpTo(ts, scope.cutoff)));
      var (a, b) := (SideOf(scope, Listing(now, ids)), SideOf(scope, Listing(then_, ids)));
      SameSide(a, b, then_) &&
      TotalIdr(Entries(a)) == TotalIdr(Entries(b)) && FundTotal(Entries(a), fund) == FundTotal(Entries(b), fund) &&
      (a.Ok? ==> (Entries(a) == Entries(b) <==> AllVersionsHold(now, then_, scope, ids)))
  {
    var last := if ts == [] then 0 else ts[|ts| - 1].now;
    RunAgrees(ts, scope.cutoff);
    RunKeeps(ts, last);
    SidesAgree(Run(ts), Run(UpTo(ts, scope.cutoff)), last, scope, ids);
    SameRowsSameTotals(Entries(SideOf(scope, Listing(Run(ts), ids))), Entries(SideOf(scope, Listing(Run(UpTo(ts, scope.cutoff)), ids))), fund);
  }

  lemma {:induction false} RunSnoc(ts: seq<Transaction>, t: Transaction, cutoff: int)
    ensures Run(ts + [t]) == After(Run(ts), t)
    ensures UpTo(ts + [t], cutoff) == if t.now <= cutoff then UpTo(ts, cutoff) + [t] else UpTo(ts, cutoff)
  {
    assert (ts + [t])[..|ts|] == ts;
  }

  /** The run in which a contribution is received at time 1 and a recovery of it is rejected at time 3. */
  function RejectionRun(id: Text, input: ContributionInput): seq<Transaction>
  {
    [Receive(id, input, 1)] + [Perform(id, DecideRecoveryStep(1, false), 3)]
  }

  lemma {:induction false} RejectionRunStarts(id: Text, input: ContributionInput)
    ensures Run([Receive(id, input, 1)]) == map[id := NewRecord(input, 1)]
    ensures UpTo([Receive(id, input, 1)], 2) == [Receive(id, input, 1)]
  {
    RunSnoc([], Receive(id, input, 1), 2);
    assert [] + [Receive(id, input, 1)] == [Receive(id, input, 1)];
  }

  lemma {:induction false} RejectionRunEnds(id: Text, input: ContributionInput)
    ensures UpTo(RejectionRun(id, input), 2) == [Receive(id, input, 1)]
    ensures Run(RejectionRun(id, input)) == map[id := Logged(NewRecord(input, 1), 1, Received, Received, RejectRecovery, 3)]
  {
    RejectionRunStarts(id, input);
    RunSnoc([Receive(id, input, 1)], Perform(id, DecideRecoveryStep(1, false), 3), 2);
  }

  lemma {:induction false} RejectedReadsLess(r: CollectionRecord, cutoff: int)
    requires r.contribution.version == 1 && |r.history| == 1 && r.history[0].occurredAt <= cutoff < 3
    ensures Before(Logged(r, 1, Received, Received, RejectRecovery, 3), cutoff).version == 0
  {
    var h := HistoryEntry(1, 1, Received, Received, RejectRecovery, 3);
    SnocBefore(r.history, h, r.contribution.status, 1, cutoff);
    NothingAfter([], r.history, 0, Received, 0, cutoff);
  }

  /** A recovery rejected after the cutoff, with no version change between, makes the report understate the version by one. */
  lemma {:induction false} RejectedRecoveryShiftsVersion(id: Text, input: ContributionInput)
    ensures var ts := RejectionRun(id, input);
      InClockOrder(ts) && id in Run(ts) && id in Run(UpTo(ts, 2)) &&
      RolledBack(Run(ts)[id], 2).version == 0 && Run(UpTo(ts, 2))[id].contribution.version == 1
  {
    var r := Logged(NewRecord(input, 1), 1, Received, Received, RejectRecovery, 3);
    RejectionRunStarts(id, input);
    RejectionRunEnds(id, input);
    RejectedReadsLess(NewRecord(input, 1), 2);
    NewRecordIsKept(input, 1);
    RollBackIgnoresListing(r, 3, 2, r);
  }
}
