/**
 Draining the outbox onto the chain. Any number of workers compete; a lease in the shared state, good
 for five minutes and renewed before each chain call, keeps them apart. Times are milliseconds.
 */
module CampaignOutbox {
  import opened Options
  import opened Texts
  import opened Sorting

  datatype EventStatus = PendingEvent | Confirmed | FailedEvent

  datatype Event = Event(status: EventStatus, attempts: nat, nextAttemptAt: Option<nat>, transactionHash: Option<Text>)

  datatype Lease = Lease(owner: nat, expiresAt: nat)

  /** Where a worker stands between two transactions. */
  datatype Worker =
    | Ready(events: seq<nat>)
    | Calling(event: nat, since: nat, rest: seq<nat>)
    | Leaving
    | Gone

  /** Events are named by their position, in order of creation; workers by their lease owner id. */
  datatype Shared = Shared(events: seq<Event>, lease: Option<Lease>, workers: map<nat, Worker>)

  const LEASE_MS: nat := 300_000
  const BATCH: nat := 30
  const FIRST_DELAY_MS: nat := 30_000
  const LONGEST_DELAY_MS: nat := 3_600_000

  // ----- Which events are due

  predicate IsDue(e: Event, now: nat, force: bool)
  {
    e.status != Confirmed && (force || e.nextAttemptAt.None? || e.nextAttemptAt.value <= now)
  }

  function DueAmong(events: seq<Event>, now: nat, force: bool): seq<nat>
  {
    if events == [] then []
    else
      var before, n := DueAmong(events[..|events| - 1], now, force), |events| - 1;
      if IsDue(events[n], now, force) then before + [n] else before
  }

  /** Events with fewer attempts come first. */
  function FewestFirst(events: seq<Event>): nat -> int
  {
    (i: nat) => if i < |events| then 0 - events[i].attempts as int else 0
  }

  function Batch(events: seq<Event>, now: nat, force: bool): seq<nat>
  {
    var sorted := SortDescending(DueAmong(events, now, force), FewestFirst(events));
    if |sorted| <= BATCH then sorted else sorted[..BATCH]
  }

  // ----- What a chain call leaves behind

  function Doubled(n: nat): nat { if n == 0 then 1 else 2 * Doubled(n - 1) }

  /** Half a minute after the first failure, doubling, and at most an hour. */
  function DelayAfter(attempts: nat): nat
    requires attempts > 0
  {
    var delay := FIRST_DELAY_MS * Doubled(if attempts - 1 < 7 then attempts - 1 else 7);
    if delay < LONGEST_DELAY_MS then delay else LONGEST_DELAY_MS
  }

  function Recorded(e: Event, hash: Text): Event { Event(Confirmed, e.attempts + 1, None, Some(hash)) }

  function Refused(e: Event, now: nat): Event
  {
    if e.status == Confirmed then e
    else Event(FailedEvent, e.attempts + 1, Some(now + DelayAfter(e.attempts + 1)), e.transactionHash)
  }

  // ----- Steps

  datatype Action =
    | Begin(worker: nat, now: nat, force: bool)
    | Renew(worker: nat, now: nat)
    | Finish(worker: nat, now: nat, receipt: Option<Text>)
    | Leave(worker: nat, now: nat)
    | Crash(worker: nat, now: nat)
    | Enqueue(now: nat)

  predicate Owns(s: Shared, w: nat) { s.lease.Some? && s.lease.value.owner == w }

  predicate Enabled(s: Shared, a: Action)
  {
    match a
    case Begin(w, _, _) => w !in s.workers
    case Renew(w, _) => w in s.workers && s.workers[w].Ready?
    case Finish(w, _, _) => w in s.workers && s.workers[w].Calling? && s.workers[w].event < |s.events|
    case Leave(w, _) => w in s.workers && s.workers[w].Leaving?
    case Crash(w, _) => w in s.workers
    case Enqueue(_) => true
  }

  function Step(s: Shared, a: Action): Shared
    requires Enabled(s, a)
  {
    match a
    case Begin(w, now, force) =>
      if s.lease.Some? && s.lease.value.expiresAt > now then s.(workers := s.workers[w := Ready([])])
      else
        var due := Batch(s.events, now, force);
        s.(workers := s.workers[w := Ready(due)], lease := if due == [] then s.lease else Some(Lease(w, now + LEASE_MS)))
    case Renew(w, now) =>
      var events := s.workers[w].events;
      if events == [] || !Owns(s, w) then s.(workers := s.workers[w := Leaving])
      else s.(lease := Some(Lease(w, now + LEASE_MS)), workers := s.workers[w := Calling(events[0], now, events[1..])])
    case Finish(w, now, receipt) =>
      var e := s.events[s.workers[w].event];
      var after := if receipt.Some? then Recorded(e, receipt.value) else Refused(e, now);
      s.(events := s.events[s.workers[w].event := after], workers := s.workers[w := Ready(s.workers[w].rest)])
    case Leave(w, _) =>
      s.(lease := if Owns(s, w) then None else s.lease, workers := s.workers[w := Gone])
    case Crash(w, _) => s.(workers := s.workers[w := Gone])
    case Enqueue(_) => s.(events := s.events + [Event(PendingEvent, 0, None, None)])
  }

  function Run(s: Shared, actions: seq<Action>): Shared
  {
    if actions == [] then s
    else
      var before, a := Run(s, actions[..|actions| - 1]), actions[|actions| - 1];
      if Enabled(before, a) then Step(before, a) else before
  }

  // ----- No two calls in flight together

  /** When a step happens, every call in flight is younger than the lease it was made under. */
  predicate CallsAreYoung(s: Shared, now: nat)
  {
    forall w | w in s.workers && s.workers[w].Calling? :: now < s.workers[w].since + LEASE_MS
  }

  ghost predicate TimelyRun(s: Shared, actions: seq<Action>)
  {
    forall i | 0 <= i < |actions| :: CallsAreYoung(Run(s, actions[..i]), actions[i].now)
  }

  /** Whoever calls holds the lease renewed just before. */
  predicate CallerHolds(s: Shared)
  {
    forall w | w in s.workers && s.workers[w].Calling? :: s.lease == Some(Lease(w, s.workers[w].since + LEASE_MS))
  }

  lemma {:induction false} StepKeepsCallerHolds(s: Shared, a: Action)
    requires CallerHolds(s) && Enabled(s, a) && CallsAreYoung(s, a.now)
    ensures CallerHolds(Step(s, a))
  {
    var t := Step(s, a);
    forall w | w in t.workers && t.workers[w].Calling? ensures t.lease == Some(Lease(w, t.workers[w].since + LEASE_MS)) {
      if w in s.workers && s.workers[w].Calling? { assert s.lease == Some(Lease(w, s.workers[w].since + LEASE_MS)); }
    }
  }

  lemma {:induction false} TimelyRunsKeepCallerHolds(s: Shared, actions: seq<Action>)
    requires CallerHolds(s) && TimelyRun(s, actions)
    ensures CallerHolds(Run(s, actions))
  {
    if actions != [] {
      var front, a := actions[..|actions| - 1], actions[|actions| - 1];
      forall i | 0 <= i < |front| ensures CallsAreYoung(Run(s, front[..i]), front[i].now) {
        assert front[..i] == actions[..i];
      }
      TimelyRunsKeepCallerHolds(s, front);
      if Enabled(Run(s, front), a) { StepKeepsCallerHolds(Run(s, front), a); }
    }
  }

  /** Start from no workers. If every call ends within its lease, no two calls are ever in flight together. */
  lemma {:induction false} NoTwoCallsTogether(events: seq<Event>, lease: Option<Lease>, actions: seq<Action>, v: nat, w: nat)
    requires TimelyRun(Shared(events, lease, map[]), actions)
    requires var end := Run(Shared(events, lease, map[]), actions);
      v in end.workers && w in end.workers && end.workers[v].Calling? && end.workers[w].Calling?
    ensures v == w
  {
    TimelyRunsKeepCallerHolds(Shared(events, lease, map[]), actions);
  }

  // ----- Whatever the timing

  lemma {:induction false} StepKeepsConfirmed(s: Shared, a: Action, i: nat)
    requires Enabled(s, a) && i < |s.events| && s.events[i].status == Confirmed
    ensures i < |Step(s, a).events| && Step(s, a).events[i].status == Confirmed
  {
  }

  /** A confirmed event stays confirmed, however late calls end. */
  lemma {:induction false} ConfirmedForGood(s: Shared, actions: seq<Action>, i: nat)
    requires i < |s.events| && s.events[i].status == Confirmed
    ensures i < |Run(s, actions).events| && Run(s, actions).events[i].status == Confirmed
  {
    if actions != [] {
      var before, a := Run(s, actions[..|actions| - 1]), actions[|actions| - 1];
      ConfirmedForGood(s, actions[..|actions| - 1], i);
      if Enabled(before, a) { StepKeepsConfirmed(before, a, i); }
    }
  }

  predicate StepOf(a: Action, w: nat) { !a.Enqueue? && a.worker == w }

  /** A worker that starts finds the lease still running. */
  predicate StartsInTime(s: Shared, a: Action)
  {
    a.Begin? && s.lease.Some? ==> a.now < s.lease.value.expiresAt
  }

  lemma {:induction false} StepKeepsLease(s: Shared, a: Action, w: nat)
    requires Enabled(s, a) && Owns(s, w) && StartsInTime(s, a) && !(a.Leave? && a.worker == w)
    ensures Owns(Step(s, a), w) && (!StepOf(a, w) ==> Step(s, a).lease == s.lease)
  {
  }

  /**
   Over a run in which nobody starts after the lease expired, a worker keeps its lease until it leaves,
   and no other worker so much as touches it.
   */
  lemma {:induction false} OthersLeaseIsKept(s: Shared, actions: seq<Action>, w: nat)
    requires Owns(s, w)
    requires forall i | 0 <= i < |actions| :: StartsInTime(Run(s, actions[..i]), actions[i]) && !(actions[i].Leave? && actions[i].worker == w)
    ensures Owns(Run(s, actions), w)
    ensures (forall i | 0 <= i < |actions| :: !StepOf(actions[i], w)) ==> Run(s, actions).lease == s.lease
  {
    if actions != [] {
      var front, a := actions[..|actions| - 1], actions[|actions| - 1];
      forall i | 0 <= i < |front| ensures StartsInTime(Run(s, front[..i]), front[i]) && !(front[i].Leave? && front[i].worker == w) {
        assert front[..i] == actions[..i] && front[i] == actions[i];
      }
      OthersLeaseIsKept(s, front, w);
      assert forall i | 0 <= i < |front| :: front[i] == actions[i];
      if Enabled(Run(s, front), a) { StepKeepsLease(Run(s, front), a, w); }
    }
  }

  /** Not confirmed, and forced or not put off beyond now. */
  predicate AwaitsCall(e: Event, now: nat, force: bool)
  {
    e.status != Confirmed && (force || e.nextAttemptAt.None? || e.nextAttemptAt.value <= now)
  }

  /** Whoever starts after it expired takes it over for five minutes exactly when some event awaits a call. */
  lemma {:induction false} ExpiredLeaseIsTaken(s: Shared, w: nat, now: nat, force: bool)
    requires w !in s.workers && s.lease.Some? && s.lease.value.expiresAt <= now
    ensures Step(s, Begin(w, now, force)).lease ==
      if exists i: nat :: i < |s.events| && AwaitsCall(s.events[i], now, force) then Some(Lease(w, now + 300_000)) else s.lease
  {
    BatchIsFair(s.events, now, force);
    var batch := Batch(s.events, now, force);
    if batch != [] { assert AwaitsCall(s.events[batch[0]], now, force); }
  }

  // ----- What a worker does

  /** Before each call it makes sure the lease is its own and renews it for five minutes; with nothing left or the lease lost it leaves. */
  lemma {:induction false} RenewalTells(s: Shared, w: nat, now: nat)
    requires Enabled(s, Renew(w, now))
    ensures var end, events := Step(s, Renew(w, now)), s.workers[w].events;
      end.events == s.events && w in end.workers && end.workers == s.workers[w := end.workers[w]] &&
      if events != [] && s.lease.Some? && s.lease.value.owner == w then
        end.workers[w] == Calling(events[0], now, events[1..]) && end.lease == Some(Lease(w, now + 300_000))
      else end.workers[w] == Leaving && end.lease == s.lease
  {
  }

  /** A receipt confirms the event; without one it is put off, unless another worker's call has confirmed it meanwhile. */
  lemma {:induction false} FinishTells(s: Shared, w: nat, now: nat, receipt: Option<Text>)
    requires Enabled(s, Finish(w, now, receipt))
    ensures var end, i := Step(s, Finish(w, now, receipt)), s.workers[w].event;
      |end.events| == |s.events| && end.lease == s.lease && (forall k | 0 <= k < |s.events| && k != i :: end.events[k] == s.events[k]) &&
      var e, f := s.events[i], end.events[i];
      if receipt.Some? then f.status == Confirmed && f.transactionHash == receipt && f.attempts == e.attempts + 1 && f.nextAttemptAt == None
      else if e.status == Confirmed then f == e
      else f.status == FailedEvent && f.attempts == e.attempts + 1 && f.transactionHash == e.transactionHash &&
           f.nextAttemptAt.Some? && now + 30_000 <= f.nextAttemptAt.value <= now + 3_600_000
  {
    var e := s.events[s.workers[w].event];
    DelaysGrow(e.attempts + 1, e.attempts + 1);
  }

  /** Half a minute after the first failure, then twice as long each time, up to an hour. */
  lemma {:induction false} DelaysDouble(attempts: nat)
    requires attempts > 0
    ensures DelayAfter(1) == 30_000
    ensures DelayAfter(attempts + 1) == if DelayAfter(attempts) >= 1_800_000 then 3_600_000 else 2 * DelayAfter(attempts)
  {
    assert Doubled(0) == 1 && Doubled(1) == 2 && Doubled(2) == 4 && Doubled(3) == 8;
    assert Doubled(4) == 16 && Doubled(5) == 32 && Doubled(6) == 64 && Doubled(7) == 128;
  }

  // ----- The batch

  lemma {:induction false} DueMembers(events: seq<Event>, now: nat, force: bool, i: nat)
    ensures i in DueAmong(events, now, force) <==> i < |events| && IsDue(events[i], now, force)
  {
    if events != [] { DueMembers(events[..|events| - 1], now, force, i); }
  }

  /** Of events with as many attempts, the older comes first, and none comes twice. */
  predicate TiesAscend(xs: seq<nat>, key: nat -> int)
  {
    forall i, j :: 0 <= i < j < |xs| && key(xs[i]) == key(xs[j]) ==> xs[i] < xs[j]
  }

  lemma {:induction false} InsertKeepsTies(x: nat, xs: seq<nat>, key: nat -> int)
    requires TiesAscend(xs, key) && Descending(xs, key) && forall y | y in xs :: x < y
    ensures TiesAscend(InsertDescending(x, xs, key), key)
  {
    if xs != [] && key(xs[0]) > key(x) {
      var tail := InsertDescending(x, xs[1..], key);
      assert xs == [xs[0]] + xs[1..];
      assert forall y | y in xs[1..] :: y in xs;
      InsertKeepsTies(x, xs[1..], key);
      InsertAdds(x, xs[1..], key);
      forall y | y in tail && key(y) == key(xs[0]) ensures xs[0] < y {
        assert y in multiset(tail);
        assert y in xs[1..];
      }
      TiesCons(xs[0], tail, key);
    } else {
      TiesCons(x, xs, key);
    }
  }

  lemma {:induction false} TiesCons(x: nat, xs: seq<nat>, key: nat -> int)
    requires TiesAscend(xs, key) && forall y | y in xs && key(y) == key(x) :: x < y
    ensures TiesAscend([x] + xs, key)
  {
    var all := [x] + xs;
    forall i, j | 0 <= i < j < |all| && key(all[i]) == key(all[j]) ensures all[i] < all[j] {
      assert all[j] == xs[j - 1] && xs[j - 1] in xs;
      if i > 0 { assert all[i] == xs[i - 1]; }
    }
  }

  predicate Rising(xs: seq<nat>) { forall i, j :: 0 <= i < j < |xs| ==> xs[i] < xs[j] }

  lemma {:induction false} SortKeepsTies(xs: seq<nat>, key: nat -> int)
    requires Rising(xs)
    ensures TiesAscend(SortDescending(xs, key), key)
  {
    if xs != [] {
      var rest := SortDescending(xs[1..], key);
      SortKeepsTies(xs[1..], key);
      SortIsDescending(xs[1..], key);
      SortKeepsItems(xs[1..], key);
      forall y | y in rest ensures xs[0] < y {
        assert y in multiset(xs[1..]);
        assert y in xs[1..];
      }
      InsertKeepsTies(xs[0], rest, key);
    }
  }

  lemma {:induction false} DueAscend(events: seq<Event>, now: nat, force: bool)
    ensures Rising(DueAmong(events, now, force)) && forall i | 0 <= i < |DueAmong(events, now, force)| :: DueAmong(events, now, force)[i] < |events|
  {
    if events != [] { DueAscend(events[..|events| - 1], now, force); }
  }

  /** Events with as many attempts are called in the order they were recorded. */
  lemma {:induction false} BatchIsInOrder(events: seq<Event>, now: nat, force: bool, j: nat, k: nat)
    requires j < k < |Batch(events, now, force)|
    ensures var batch := Batch(events, now, force);
      batch[j] < |events| && batch[k] < |events| && (events[batch[j]].attempts == events[batch[k]].attempts ==> batch[j] < batch[k])
  {
    BatchIsFair(events, now, force);
    DueAscend(events, now, force);
    var (due, key) := (DueAmong(events, now, force), FewestFirst(events));
    SortKeepsTies(due, key);
    var sorted := SortDescending(due, key);
    assert Batch(events, now, force)[j] == sorted[j] && Batch(events, now, force)[k] == sorted[k];
    assert key(sorted[j]) == key(sorted[k]) ==> sorted[j] < sorted[k];
  }

  /** A worker starts with that batch, or with nothing while another's lease runs. */
  lemma {:induction false} StartTells(s: Shared, w: nat, now: nat, force: bool)
    requires Enabled(s, Begin(w, now, force))
    ensures var end := Step(s, Begin(w, now, force));
      end.events == s.events && w in end.workers &&
      end.workers == s.workers[w := Ready(if s.lease.Some? && now < s.lease.value.expiresAt then [] else Batch(s.events, now, force))]
  {
  }

  /** A batch holds due events only, fewest attempts first; and all of them unless it is full. */
  lemma {:induction false} BatchIsFair(events: seq<Event>, now: nat, force: bool)
    ensures var batch := Batch(events, now, force);
      |batch| <= 30 &&
      (forall k | 0 <= k < |batch| :: batch[k] < |events| && AwaitsCall(events[batch[k]], now, force)) &&
      (forall j, k | 0 <= j < k < |batch| :: events[batch[j]].attempts <= events[batch[k]].attempts) &&
      (forall i: nat | i < |events| && AwaitsCall(events[i], now, force) && i !in batch ::
         |batch| == 30 && forall k | 0 <= k < |batch| :: events[batch[k]].attempts <= events[i].attempts)
  {
    var (due, key) := (DueAmong(events, now, force), FewestFirst(events));
    var (sorted, batch) := (SortDescending(due, key), Batch(events, now, force));
    SortIsDescending(due, key);
    SortKeepsItems(due, key);
    forall i: nat ensures i in sorted <==> i < |events| && AwaitsCall(events[i], now, force) {
      DueMembers(events, now, force, i);
      assert i in sorted <==> i in multiset(sorted);
    }
    forall k | 0 <= k < |batch| ensures batch[k] < |events| && AwaitsCall(events[batch[k]], now, force) { assert batch[k] in sorted; }
    forall j, k | 0 <= j < k < |batch| ensures events[batch[j]].attempts <= events[batch[k]].attempts {
      assert key(sorted[j]) >= key(sorted[k]);
    }
    forall i: nat | i < |events| && AwaitsCall(events[i], now, force) && i !in batch
      ensures |batch| == 30 && forall k | 0 <= k < |batch| :: events[batch[k]].attempts <= events[i].attempts
    {
      assert i in sorted;
      LeftOutComesLater(sorted, batch, key, i);
    }
  }

  lemma {:induction false} LeftOutComesLater(sorted: seq<nat>, batch: seq<nat>, key: nat -> int, i: nat)
    requires Descending(sorted, key) && i in sorted && i !in batch
    requires batch == if |sorted| <= BATCH then sorted else sorted[..BATCH]
    ensures |batch| == BATCH && forall k | 0 <= k < |batch| :: key(batch[k]) >= key(i)
  {
    var j :| 0 <= j < |sorted| && sorted[j] == i;
    assert forall k | 0 <= k < |batch| :: batch[k] == sorted[k] && batch[k] in batch;
    forall k | 0 <= k < |batch| ensures key(batch[k]) >= key(i) {
      assert key(sorted[k]) >= key(sorted[j]);
    }
  }

  // ----- Backing off

  lemma {:induction false} DoubledGrows(m: nat, n: nat)
    requires m <= n
    ensures 1 <= Doubled(m) <= Doubled(n)
  {
    if m < n { DoubledGrows(m, n - 1); }
    if m > 0 { DoubledGrows(m - 1, m - 1); }
  }

  /** Delays never shrink with further failures, and stay between half a minute and an hour. */
  lemma {:induction false} DelaysGrow(attempts: nat, more: nat)
    requires 0 < attempts <= more
    ensures FIRST_DELAY_MS <= DelayAfter(attempts) <= DelayAfter(more) <= LONGEST_DELAY_MS
  {
    var (a, b) := (if attempts - 1 < 7 then attempts - 1 else 7, if more - 1 < 7 then more - 1 else 7);
    DoubledGrows(a, b);
  }
}
