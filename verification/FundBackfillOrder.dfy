/**
 The backfill replays history: for allocations recorded before shares existed, and never moved, it
 attributes to every aid line exactly what the write path would have attributed at the time.
 */
module FundBackfillOrder {
  import opened Sequences
  import opened Texts
  import opened AllocationFill
  import opened RosterFill
  import opened ContributionLedger
  import opened FundLedger
  import opened FundShares
  import opened FundBounds
  import opened FundRuns

  // ----- Recording order

  lemma {:induction false} RecordedBeforeIsTransitive(l: Ledger, i: nat, j: nat, k: nat)
    requires i < |l.allocations| && j < |l.allocations| && k < |l.allocations|
    requires RecordedBefore(l, i, j) && RecordedBefore(l, j, k)
    ensures RecordedBefore(l, i, k)
  {
    var (a, b, c) := (l.allocations[i].activityId, l.allocations[j].activityId, l.allocations[k].activityId);
    if a != b && b != c {
      LessIsTransitive(a, b, c);
      LessIsIrreflexive(a);
    }
  }

  lemma {:induction false} RecordedBeforeIsTotal(l: Ledger, i: nat, j: nat)
    requires i < |l.allocations| && j < |l.allocations| && i != j
    ensures RecordedBefore(l, i, j) || RecordedBefore(l, j, i)
  {
    LessIsTotal(l.allocations[i].activityId, l.allocations[j].activityId);
  }

  predicate InRecordingOrder(l: Ledger, cs: seq<nat>)
    requires AllBelow(cs, |l.allocations|)
  {
    forall p, r :: 0 <= p < r < |cs| ==> RecordedBefore(l, cs[p], cs[r])
  }

  lemma {:induction false} FirstBeforeAll(l: Ledger, i: nat, cs: seq<nat>)
    requires i < |l.allocations| && AllBelow(cs, |l.allocations|) && InRecordingOrder(l, cs)
    requires cs == [] || RecordedBefore(l, i, cs[0])
    ensures AllBelow([i] + cs, |l.allocations|) && InRecordingOrder(l, [i] + cs)
  {
    var all := [i] + cs;
    forall r | 0 <= r < |cs| ensures RecordedBefore(l, i, cs[r]) {
      if r > 0 { RecordedBeforeIsTransitive(l, i, cs[0], cs[r]); }
    }
    forall p, r | 0 <= p < r < |all| ensures RecordedBefore(l, all[p], all[r]) {
      if p > 0 { assert all[p] == cs[p - 1] && all[r] == cs[r - 1]; }
    }
  }

  lemma {:induction false} InsertKeepsRecordingOrder(l: Ledger, i: nat, cs: seq<nat>)
    requires i < |l.allocations| && AllBelow(cs, |l.allocations|) && InRecordingOrder(l, cs) && i !in cs
    ensures InRecordingOrder(l, InsertCandidate(l, i, cs))
  {
    if cs == [] {
    } else if RecordedBefore(l, cs[0], i) {
      var tail := InsertCandidate(l, i, cs[1..]);
      InsertKeepsRecordingOrder(l, i, cs[1..]);
      FirstBeforeAll(l, cs[0], tail);
    } else {
      RecordedBeforeIsTotal(l, i, cs[0]);
      FirstBeforeAll(l, i, cs);
    }
  }

  /** Candidates are visited activity by activity, oldest first. */
  lemma {:induction false} CandidatesAreInRecordingOrder(l: Ledger, n: nat)
    requires n <= |l.allocations|
    ensures InRecordingOrder(l, CandidatesOf(l, n))
  {
    if n > 0 {
      CandidatesAreInRecordingOrder(l, n - 1);
      if IsCandidate(l, n - 1) {
        CandidateMembers(l, n - 1, n - 1);
        InsertKeepsRecordingOrder(l, n - 1, CandidatesOf(l, n - 1));
      }
    }
  }

  // ----- Only the order within an activity matters

  function OfActivity(l: Ledger, cs: seq<nat>, a: Text): (r: seq<nat>)
    requires AllBelow(cs, |l.allocations|)
    ensures AllBelow(r, |l.allocations|)
  {
    if cs == [] then []
    else
      var front, i := OfActivity(l, cs[..|cs| - 1], a), cs[|cs| - 1];
      if l.allocations[i].activityId == a then front + [i] else front
  }

  ghost predicate SameLines(s: seq<Share>, t: seq<Share>, a: Text)
  {
    forall line: Text :: HeldOf(s, OfLine(a, line)) == HeldOf(t, OfLine(a, line))
  }

  /** Two share tables agree on one activity. */
  ghost predicate SameIn(l: Ledger, s: seq<Share>, t: seq<Share>, a: Text)
  {
    SameLines(s, t, a) &&
    forall id: nat | id < |l.allocations| && l.allocations[id].activityId == a :: CreditsHeld(s, id) == CreditsHeld(t, id)
  }

  lemma {:induction false} SameNewCredits(s: seq<Share>, t: seq<Share>, roster: Roster, a: Text, fund: FundType, amount: nat)
    requires SameLines(s, t, a)
    ensures NewCredits(s, roster, a, fund, amount) == NewCredits(t, roster, a, fund, amount)
  {
    forall k | 0 <= k < |roster.lines| ensures TargetsOf(roster, TakenIn(s, a))[k] == TargetsOf(roster, TakenIn(t, a))[k] {
      TakenIsHeld(s, a, roster.lines[k].id);
      TakenIsHeld(t, a, roster.lines[k].id);
    }
    assert TargetsOf(roster, TakenIn(s, a)) == TargetsOf(roster, TakenIn(t, a));
  }

  /** Attributing the same allocation to two tables that agree on its activity. */
  lemma {:induction false} SameAfterBoth(l: Ledger, s: seq<Share>, t: seq<Share>, a: Text, roster: Roster, owner: Owner, fund: FundType, amount: nat, n: nat, m: nat)
    requires SameIn(l, s, t, a) && owner.activityId == a
    ensures SameIn(l, Attributed(s, roster, owner, fund, amount, n), Attributed(t, roster, owner, fund, amount, m), a)
  {
    SameNewCredits(s, t, roster, a, fund, amount);
    forall line: Text
      ensures HeldOf(Attributed(s, roster, owner, fund, amount, n), OfLine(a, line)) == HeldOf(Attributed(t, roster, owner, fund, amount, m), OfLine(a, line))
    {
      AttributedHeld(s, roster, owner, fund, amount, n, OfLine(a, line));
      AttributedHeld(t, roster, owner, fund, amount, m, OfLine(a, line));
    }
    forall id: nat | id < |l.allocations| && l.allocations[id].activityId == a
      ensures CreditsHeld(Attributed(s, roster, owner, fund, amount, n), id) == CreditsHeld(Attributed(t, roster, owner, fund, amount, m), id)
    {
      AttributedCredits(s, roster, owner, fund, amount, n, id);
      AttributedCredits(t, roster, owner, fund, amount, m, id);
    }
  }

  /** Attributing an allocation of another activity changes nothing in this one. */
  lemma {:induction false} SameAfterOther(l: Ledger, s: seq<Share>, t: seq<Share>, a: Text, roster: Roster, owner: Owner, fund: FundType, amount: nat, n: nat)
    requires SameIn(l, s, t, a) && owner.activityId != a
    requires owner.allocationId < |l.allocations| && l.allocations[owner.allocationId].activityId == owner.activityId
    ensures SameIn(l, Attributed(s, roster, owner, fund, amount, n), t, a)
  {
    forall line: Text ensures HeldOf(Attributed(s, roster, owner, fund, amount, n), OfLine(a, line)) == HeldOf(t, OfLine(a, line)) {
      AttributedHeld(s, roster, owner, fund, amount, n, OfLine(a, line));
    }
    forall id: nat | id < |l.allocations| && l.allocations[id].activityId == a
      ensures CreditsHeld(Attributed(s, roster, owner, fund, amount, n), id) == CreditsHeld(t, id)
    {
      AttributedCredits(s, roster, owner, fund, amount, n, id);
    }
  }

  lemma {:induction false} SameAfterCandidate(l: Ledger, s: seq<Share>, t: seq<Share>, a: Text, i: nat, now: nat)
    requires Linked(l) && i < |l.allocations| && SameIn(l, s, t, a)
    ensures SameIn(l, SharesAfterCandidate(l, s, i, now), if l.allocations[i].activityId == a then SharesAfterCandidate(l, t, i, now) else t, a)
  {
    var row := l.allocations[i];
    if row.amount != 0 && row.fund.Some? {
      var roster := l.activities[row.activityId].roster;
      if row.activityId == a {
        SameAfterBoth(l, s, t, a, roster, OwnerOf(row, i), row.fund.value, row.amount, now, now);
      } else {
        SameAfterOther(l, s, t, a, roster, OwnerOf(row, i), row.fund.value, row.amount, now);
      }
    }
  }

  /** Skipping the candidates of other activities. */
  lemma {:induction false} BackfillByActivity(l: Ledger, cs: seq<nat>, now: nat, a: Text)
    requires Linked(l) && AllBelow(cs, |l.allocations|)
    ensures SameIn(l, BackfilledShares(l, cs, now), BackfilledShares(l, OfActivity(l, cs, a), now), a)
  {
    if cs != [] {
      var front, i := cs[..|cs| - 1], cs[|cs| - 1];
      BackfillByActivity(l, front, now, a);
      SameAfterCandidate(l, BackfilledShares(l, front, now), BackfilledShares(l, OfActivity(l, front, a), now), a, i, now);
      var own := OfActivity(l, front, a);
      if l.allocations[i].activityId == a { assert (own + [i])[..|own|] == own; }
    }
  }

  // ----- Ascending lists of the same numbers are equal

  predicate Rising(cs: seq<nat>)
  {
    forall p, r :: 0 <= p < r < |cs| ==> cs[p] < cs[r]
  }

  lemma {:induction false} RisingLast(xs: seq<nat>, ys: seq<nat>)
    requires Rising(xs) && Rising(ys) && xs != [] && ys != []
    requires forall c :: c in xs <==> c in ys
    ensures xs[|xs| - 1] == ys[|ys| - 1]
  {
    var x, y := xs[|xs| - 1], ys[|ys| - 1];
    assert x in xs && y in ys;
    assert x in ys && y in xs;
  }

  lemma {:induction false} InFront(xs: seq<nat>, c: nat)
    requires Rising(xs) && xs != []
    ensures c in xs[..|xs| - 1] <==> c in xs && c != xs[|xs| - 1]
  {
    assert xs == xs[..|xs| - 1] + [xs[|xs| - 1]];
  }

  lemma {:induction false} RisingAreEqual(xs: seq<nat>, ys: seq<nat>)
    requires Rising(xs) && Rising(ys)
    requires forall c :: c in xs <==> c in ys
    ensures xs == ys
  {
    BothEmptyOrNeither(xs, ys);
    if xs != [] && ys != [] {
      var (xf, yf) := (xs[..|xs| - 1], ys[..|ys| - 1]);
      RisingLast(xs, ys);
      forall c ensures c in xf <==> c in yf {
        InFront(xs, c);
        InFront(ys, c);
      }
      RisingAreEqual(xf, yf);
      assert xs == xf + [xs[|xs| - 1]] && ys == yf + [ys[|ys| - 1]];
    }
  }

  lemma {:induction false} OfActivityMembers(l: Ledger, cs: seq<nat>, a: Text, c: nat)
    requires AllBelow(cs, |l.allocations|)
    ensures c in OfActivity(l, cs, a) <==> c in cs && c < |l.allocations| && l.allocations[c].activityId == a
  {
    if cs != [] {
      var front, i := cs[..|cs| - 1], cs[|cs| - 1];
      OfActivityMembers(l, front, a, c);
      assert cs == front + [i];
    }
  }

  /** The recording order within one activity, when history rows came in the order of the allocations. */
  predicate LoggedInOrder(l: Ledger)
  {
    |l.log| == |l.allocations| && forall i | 0 <= i < |l.log| :: l.log[i].allocationId == i
  }

  lemma {:induction false} FirstLoggedFrom(log: seq<AllocationEntry>, id: nat, from: nat)
    requires from <= id < from + |log| && forall i | 0 <= i < |log| :: log[i].allocationId == from + i
    ensures FirstLogged(log, id) == id - from
  {
    if id != from { FirstLoggedFrom(log[1..], id, from + 1); }
  }

  lemma {:induction false} LoggedBefore(l: Ledger, i: nat, j: nat)
    requires LoggedInOrder(l) && i < |l.allocations| && j < |l.allocations|
    requires l.allocations[i].activityId == l.allocations[j].activityId && RecordedBefore(l, i, j)
    ensures i < j
  {
    FirstLoggedFrom(l.log, i, 0);
    FirstLoggedFrom(l.log, j, 0);
  }

  lemma {:induction false} OfActivityIsRising(l: Ledger, cs: seq<nat>, a: Text)
    requires AllBelow(cs, |l.allocations|) && LoggedInOrder(l) && InRecordingOrder(l, cs)
    ensures Rising(OfActivity(l, cs, a))
  {
    if cs != [] {
      var front, i := cs[..|cs| - 1], cs[|cs| - 1];
      OfActivityIsRising(l, front, a);
      var own := OfActivity(l, front, a);
      if l.allocations[i].activityId == a {
        forall p | 0 <= p < |own| ensures own[p] < i {
          OfActivityMembers(l, front, a, own[p]);
          var q: nat :| q < |front| && front[q] == own[p];
          assert RecordedBefore(l, cs[q], cs[|cs| - 1]);
          LoggedBefore(l, own[p], i);
        }
      }
    }
  }

  function UpTo(n: nat): (r: seq<nat>)
    ensures |r| == n && forall i | 0 <= i < n :: r[i] == i
  {
    seq(n, i => i)
  }

  lemma {:induction false} OfActivityKeepsRising(l: Ledger, cs: seq<nat>, a: Text)
    requires AllBelow(cs, |l.allocations|) && Rising(cs)
    ensures Rising(OfActivity(l, cs, a))
  {
    if cs != [] {
      var front, i := cs[..|cs| - 1], cs[|cs| - 1];
      OfActivityKeepsRising(l, front, a);
      var own := OfActivity(l, front, a);
      forall p | 0 <= p < |own| ensures own[p] < i {
        OfActivityMembers(l, front, a, own[p]);
        var q: nat :| q < |front| && front[q] == own[p];
        assert cs[q] < cs[|cs| - 1];
      }
    }
  }

  /** Within one activity the backfill visits the allocations in the order they were made. */
  lemma {:induction false} VisitsInOrder(l: Ledger, a: Text)
    requires LoggedInOrder(l) && forall i: nat | i < |l.allocations| :: IsCandidate(l, i)
    ensures AllBelow(UpTo(|l.allocations|), |l.allocations|)
    ensures OfActivity(l, CandidatesOf(l, |l.allocations|), a) == OfActivity(l, UpTo(|l.allocations|), a)
  {
    var n := |l.allocations|;
    var cs := CandidatesOf(l, n);
    CandidatesAreInRecordingOrder(l, n);
    OfActivityIsRising(l, cs, a);
    OfActivityKeepsRising(l, UpTo(n), a);
    forall c: nat ensures c in OfActivity(l, cs, a) <==> c in OfActivity(l, UpTo(n), a) {
      CandidateMembers(l, n, c);
      OfActivityMembers(l, cs, a, c);
      OfActivityMembers(l, UpTo(n), a, c);
      if c < n { assert UpTo(n)[c] == c; }
    }
    RisingAreEqual(OfActivity(l, cs, a), OfActivity(l, UpTo(n), a));
  }

  // ----- The write path, seen as one long backfill

  /** The ledger as it would stand had shares never been recorded. */
  function Legacy(l: Ledger): Ledger { l.(shares := []) }

  /** `m` has the allocations and rosters of `l`, and perhaps more allocations. */
  predicate Continues(l: Ledger, m: Ledger)
  {
    |l.allocations| <= |m.allocations| &&
    (forall i | 0 <= i < |l.allocations| :: m.allocations[i] == l.allocations[i]) &&
    (forall a | a in l.activities :: a in m.activities && m.activities[a].roster == l.activities[a].roster)
  }

  lemma {:induction false} BackfillFrame(l: Ledger, m: Ledger, cs: seq<nat>, now: nat)
    requires Linked(l) && Linked(m) && Continues(l, m) && l.shares == m.shares && AllBelow(cs, |l.allocations|)
    ensures AllBelow(cs, |m.allocations|) && BackfilledShares(m, cs, now) == BackfilledShares(l, cs, now)
  {
    if cs != [] { BackfillFrame(l, m, cs[..|cs| - 1], now); }
  }

  function FromScratch(l: Ledger, now: nat): seq<Share>
    requires Linked(l)
  {
    BackfilledShares(Legacy(l), UpTo(|l.allocations|), now)
  }

  predicate Unmoved(l: Ledger)
  {
    LoggedInOrder(l) &&
    forall i | 0 <= i < |l.allocations| :: l.allocations[i].status == Active && l.allocations[i].amount > 0 && l.allocations[i].fund.Some?
  }

  /** The shares the write path recorded are those a backfill from scratch gives. */
  ghost predicate Replays(l: Ledger, now: nat)
  {
    Sound(l) && Unmoved(l) && forall a: Text :: SameIn(l, l.shares, FromScratch(l, now), a)
  }

  lemma {:induction false} ScratchIsLinked(l: Ledger, now: nat)
    requires Sound(l)
    ensures SharesLinked(FromScratch(l, now), l.allocations)
  {
    var cs := UpTo(|l.allocations|);
    forall k | 0 <= k < |cs| ensures HeldOf([], OfAllocation(cs[k])) == 0 {
    }
    BackfillFits(Legacy(l), cs, now);
  }

  lemma {:induction false} SameInLonger(l: Ledger, m: Ledger, s: seq<Share>, t: seq<Share>, a: Text)
    requires SameIn(l, s, t, a) && Continues(l, m) && SharesLinked(s, l.allocations) && SharesLinked(t, l.allocations)
    ensures SameIn(m, s, t, a)
  {
    forall id: nat | id < |m.allocations| && m.allocations[id].activityId == a ensures CreditsHeld(s, id) == CreditsHeld(t, id) {
      if id >= |l.allocations| {
        NoCreditsBeyond(s, l.allocations, id);
        NoCreditsBeyond(t, l.allocations, id);
      }
    }
  }

  lemma {:induction false} ScratchOneMore(l: Ledger, m: Ledger, now: nat)
    requires Linked(l) && Linked(m) && Continues(l, m) && |m.allocations| == |l.allocations| + 1
    ensures FromScratch(m, now) == SharesAfterCandidate(Legacy(m), FromScratch(l, now), |l.allocations|, now)
  {
    var n := |l.allocations|;
    BackfillFrame(Legacy(l), Legacy(m), UpTo(n), now);
    assert UpTo(n + 1)[..n] == UpTo(n);
  }

  /** Entering an allocation and attributing it extends the replay by one candidate. */
  lemma {:induction false} PlacedReplays(l: Ledger, contribution: Text, activity: Text, amount: nat, terms: Terms, at: nat, now: nat, a: Text)
    requires Replays(l, now) && contribution in l.contributions && activity in l.activities && amount > 0
    requires Linked(Placed(l, contribution, activity, amount, terms, Allocate, at))
    ensures var m := Placed(l, contribution, activity, amount, terms, Allocate, at);
      SameIn(m, m.shares, FromScratch(m, now), a)
  {
    var n, m := |l.allocations|, Placed(l, contribution, activity, amount, terms, Allocate, at);
    var roster, owner, scratch := l.activities[activity].roster, OwnerOf(m.allocations[n], n), FromScratch(l, now);
    ScratchOneMore(l, m, now);
    ScratchIsLinked(l, now);
    assert SameIn(l, l.shares, scratch, a);
    SameInLonger(l, m, l.shares, scratch, a);
    if activity == a {
      SameAfterBoth(m, l.shares, scratch, a, roster, owner, terms.fund, amount, at, now);
    } else {
      SameAfterNeither(m, l.shares, scratch, a, roster, owner, terms.fund, amount, at, now);
    }
  }

  lemma {:induction false} SameAfterNeither(l: Ledger, s: seq<Share>, t: seq<Share>, a: Text, roster: Roster, owner: Owner, fund: FundType, amount: nat, n: nat, m: nat)
    requires SameIn(l, s, t, a) && owner.activityId != a
    requires owner.allocationId < |l.allocations| && l.allocations[owner.allocationId].activityId == owner.activityId
    ensures SameIn(l, Attributed(s, roster, owner, fund, amount, n), Attributed(t, roster, owner, fund, amount, m), a)
  {
    var s' := Attributed(s, roster, owner, fund, amount, n);
    SameAfterOther(l, s, t, a, roster, owner, fund, amount, n);
    SameAfterOther(l, t, s', a, roster, owner, fund, amount, m);
  }

  lemma {:induction false} SameScratch(l: Ledger, m: Ledger, now: nat)
    requires Linked(l) && Linked(m) && Continues(l, m) && |m.allocations| == |l.allocations|
    ensures FromScratch(m, now) == FromScratch(l, now)
  {
    BackfillFrame(Legacy(l), Legacy(m), UpTo(|l.allocations|), now);
  }

  /** Changes beside allocations, history, shares and rosters do not matter. */
  lemma {:induction false} BesidesReplays(l: Ledger, m: Ledger, now: nat)
    requires Replays(l, now) && Sound(m) && Continues(l, m)
    requires m.allocations == l.allocations && m.log == l.log && m.shares == l.shares
    ensures Replays(m, now)
  {
    SameScratch(l, m, now);
    forall a: Text ensures SameIn(m, m.shares, FromScratch(m, now), a) {
      assert SameIn(l, l.shares, FromScratch(l, now), a);
    }
  }

  lemma {:induction false} PlacedStillReplays(l: Ledger, contribution: Text, activity: Text, amount: nat, terms: Terms, at: nat, now: nat)
    requires Replays(l, now) && contribution in l.contributions && activity in l.activities && amount > 0
    ensures Replays(Placed(l, contribution, activity, amount, terms, Allocate, at), now)
  {
    var placed := Placed(l, contribution, activity, amount, terms, Allocate, at);
    PlacedIsSound(l, contribution, activity, amount, terms, Allocate, at);
    forall a: Text ensures SameIn(placed, placed.shares, FromScratch(placed, now), a) {
      PlacedReplays(l, contribution, activity, amount, terms, at, now, a);
    }
  }

  lemma {:induction false} AllocatedReplays(l: Ledger, q: AllocateRequest, at: nat, now: nat)
    requires Replays(l, now)
    ensures Replays(Settled(l, Allocated(l, q, at)), now)
  {
    if Allocated(l, q, at).Ok? {
      var terms := AllocateGuard(l, q).value;
      var placed := Placed(l, q.contributionId, q.activityId, q.amount, terms, Allocate, at);
      PlacedStillReplays(l, q.contributionId, q.activityId, q.amount, terms, at, now);
      TouchedIsSound(placed, q.activityId, 0, at);
      BesidesReplays(placed, Touched(placed, q.activityId, 0, at), now);
    }
  }

  lemma {:induction false} ContributedReplays(l: Ledger, transaction: Transaction, now: nat)
    requires Replays(l, now)
    ensures Replays(l.(contributions := After(l.contributions, transaction)), now)
  {
    ContributedIsLinked(l, transaction);
    BesidesReplays(l, l.(contributions := After(l.contributions, transaction)), now);
  }

  predicate NeverMoves(t: FundTransaction) { t.AllocateTo? || t.Contribute? }

  lemma {:induction false} WritePathReplays(l: Ledger, ts: seq<FundTransaction>, now: nat)
    requires Sound(l) && l.allocations == [] && l.log == [] && l.shares == []
    requires forall i | 0 <= i < |ts| :: NeverMoves(ts[i])
    ensures Replays(RunFrom(l, ts), now)
  {
    if ts != [] {
      var before, t := RunFrom(l, ts[..|ts| - 1]), ts[|ts| - 1];
      WritePathReplays(l, ts[..|ts| - 1], now);
      match t
      case Contribute(transaction) => ContributedReplays(before, transaction, now);
      case AllocateTo(q, at) => AllocatedReplays(before, q, at, now);
    }
  }

  /**
   Take any run of allocations and contribution steps and suppose no shares were recorded. The
   backfill then gives every allocation the shares the write path gave it.
   */
  lemma {:induction false} BackfillIsWritePath(l: Ledger, ts: seq<FundTransaction>, now: nat, id: nat)
    requires Sound(l) && l.allocations == [] && l.log == [] && l.shares == []
    requires forall i | 0 <= i < |ts| :: NeverMoves(ts[i])
    requires id < |RunFrom(l, ts).allocations|
    ensures var live := RunFrom(l, ts);
      CreditsHeld(Backfilled(Legacy(live), now).shares, id) == CreditsHeld(live.shares, id)
  {
    var live := RunFrom(l, ts);
    var legacy, a := Legacy(live), live.allocations[id].activityId;
    WritePathReplays(l, ts, now);
    VisitsInOrder(legacy, a);
    BackfillByActivity(legacy, CandidatesOf(legacy, |legacy.allocations|), now, a);
    BackfillByActivity(legacy, UpTo(|legacy.allocations|), now, a);
    assert SameIn(live, live.shares, FromScratch(live, now), a);
  }
}
