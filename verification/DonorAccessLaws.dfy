/**
 What every run of the donor access service keeps, with a clock that never goes back: at most one live
 code for each contribution, at most five codes in any hour and five compared guesses for each code,
 hence at most thirty compared guesses in any hour; and nothing issued before an approved contact
 recovery is of use after it.
 */
module DonorAccessLaws {
  import opened Options
  import opened Texts
  import opened DonorAccess

  // ----- Runs

  datatype Action =
    | Issue(contributionId: Text, code: Text, deliverable: bool, now: nat)
    | Undelivered(challenge: nat, now: nat)
    | Verify(challenge: nat, guess: Text, now: nat)
    | Open(session: nat, now: nat)
    | Revoke(session: nat, now: nat)
    | AskRecovery(contributionId: Text, contact: Text, now: nat)
    | Decide(recovery: nat, approved: bool, expectedVersion: int, now: nat)

  /** The tables, and for each challenge the times at which a guess at it was compared. */
  datatype Trace = Trace(tables: Tables, guesses: seq<seq<nat>>)

  function Next(t: Tables, a: Action): Tables
  {
    match a
    case Issue(c, code, deliverable, now) => if SendRefusal(t, c, deliverable, now).Some? then t else Sent(t, c, code, now)
    case Undelivered(id, now) => if id < |t.challenges| then Consumed(t, id, now) else t
    case Verify(id, guess, now) => Guessed(t, id, guess, now)
    case Open(id, now) => Opened(t, id, now)
    case Revoke(id, now) => Revoked(t, id, now)
    case AskRecovery(c, contact, _) => t.(recoveries := t.recoveries + [Recovery(c, contact, PendingDecision)])
    case Decide(id, approved, version, now) => if DecisionRefusal(t, id, version).Some? then t else Decided(t, id, approved, now)
  }

  function NextGuesses(r: Trace, a: Action): seq<seq<nat>>
    requires |r.guesses| == |r.tables.challenges|
  {
    match a
    case Issue(c, code, deliverable, now) => if SendRefusal(r.tables, c, deliverable, now).Some? then r.guesses else r.guesses + [[]]
    case Verify(id, guess, now) =>
      if Compares(r.tables, id, guess, now) then r.guesses[id := r.guesses[id] + [now]] else r.guesses
    case _ => r.guesses
  }

  function Step(r: Trace, a: Action): (end: Trace)
    requires |r.guesses| == |r.tables.challenges|
    ensures |end.guesses| == |end.tables.challenges|
  {
    Trace(Next(r.tables, a), NextGuesses(r, a))
  }

  function Run(contributions: map<Text, Holder>, actions: seq<Action>): (end: Trace)
    ensures |end.guesses| == |end.tables.challenges|
  {
    if actions == [] then Trace(Tables(contributions, [], [], []), [])
    else Step(Run(contributions, actions[..|actions| - 1]), actions[|actions| - 1])
  }

  predicate InClockOrder(actions: seq<Action>)
  {
    forall i, j :: 0 <= i < j < |actions| ==> actions[i].now <= actions[j].now
  }

  // ----- One challenge at a time

  /** Compared guesses never exceed the limit, and while a code is live each of them was wrong. */
  predicate GuessesFit(c: Challenge, guesses: seq<nat>)
  {
    c.maxAttempts == OTP_MAX_ATTEMPTS && c.expiresAt == c.createdAt + OTP_TTL && |guesses| <= OTP_MAX_ATTEMPTS &&
    (c.consumedAt.None? ==> |guesses| == c.attempts < OTP_MAX_ATTEMPTS)
  }

  /** An older code of the same contribution is ended, and was guessed at no later than the newer was sent. */
  predicate Replaced(r: Trace, i: nat, j: nat)
    requires |r.guesses| == |r.tables.challenges| && i < j < |r.guesses|
  {
    r.tables.challenges[i].contributionId == r.tables.challenges[j].contributionId ==>
      r.tables.challenges[i].consumedAt.Some? && r.tables.challenges[i].createdAt <= r.tables.challenges[j].createdAt &&
      forall k | 0 <= k < |r.guesses[i]| :: r.guesses[i][k] <= r.tables.challenges[j].createdAt
  }

  predicate Sane(r: Trace, now: nat)
  {
    |r.guesses| == |r.tables.challenges| &&
    (forall i | 0 <= i < |r.guesses| ::
       GuessesFit(r.tables.challenges[i], r.guesses[i]) && r.tables.challenges[i].createdAt <= now &&
       forall k | 0 <= k < |r.guesses[i]| :: r.guesses[i][k] <= now) &&
    (forall i, j :: 0 <= i < j < |r.guesses| ==> Replaced(r, i, j))
  }

  // ----- How many codes an hour

  predicate SentWithin(c: Challenge, contributionId: Text, after: int)
  {
    c.contributionId == contributionId && after < c.createdAt <= after + OTP_SEND_WINDOW
  }

  /** Codes sent to a contribution in the hour that begins after a moment. */
  function SentInHour(challenges: seq<Challenge>, contributionId: Text, after: int): nat
  {
    if challenges == [] then 0
    else
      SentInHour(challenges[..|challenges| - 1], contributionId, after) +
      (if SentWithin(challenges[|challenges| - 1], contributionId, after) then 1 else 0)
  }

  ghost predicate FewCodes(challenges: seq<Challenge>)
  {
    forall c: Text, after: int :: SentInHour(challenges, c, after) <= OTP_MAX_SENDS
  }

  lemma {:induction false} HourWithinRecent(challenges: seq<Challenge>, c: Text, after: int, since: int)
    requires since <= after
    ensures SentInHour(challenges, c, after) <= RecentCount(challenges, c, since)
  {
    if challenges != [] { HourWithinRecent(challenges[..|challenges| - 1], c, after, since); }
  }

  lemma {:induction false} HourSnoc(challenges: seq<Challenge>, x: Challenge, c: Text, after: int)
    ensures SentInHour(challenges + [x], c, after) == SentInHour(challenges, c, after) + (if SentWithin(x, c, after) then 1 else 0)
  {
    assert (challenges + [x])[..|challenges|] == challenges;
  }

  /** Only who was sent a code and when matters here. */
  predicate SameSends(xs: seq<Challenge>, ys: seq<Challenge>)
  {
    |xs| == |ys| && forall i | 0 <= i < |xs| :: xs[i].contributionId == ys[i].contributionId && xs[i].createdAt == ys[i].createdAt
  }

  lemma {:induction false} SameHour(xs: seq<Challenge>, ys: seq<Challenge>, c: Text, after: int)
    requires SameSends(xs, ys)
    ensures SentInHour(xs, c, after) == SentInHour(ys, c, after)
  {
    if xs != [] { SameHour(xs[..|xs| - 1], ys[..|ys| - 1], c, after); }
  }

  lemma {:induction false} SendingKeepsFewCodes(t: Tables, c: Text, code: Text, deliverable: bool, now: nat)
    requires FewCodes(t.challenges) && SendRefusal(t, c, deliverable, now).None?
    ensures FewCodes(Sent(t, c, code, now).challenges)
  {
    var ended := Ended(t.challenges, c, now);
    var x := Challenge(c, code, 0, OTP_MAX_ATTEMPTS, now + OTP_TTL, None, now);
    forall d: Text, after: int ensures SentInHour(ended + [x], d, after) <= OTP_MAX_SENDS {
      HourSnoc(ended, x, d, after);
      SameHour(ended, t.challenges, d, after);
      if SentWithin(x, d, after) { HourWithinRecent(t.challenges, c, after, now - OTP_SEND_WINDOW); }
    }
  }

  lemma {:induction false} SameSendsKeepFewCodes(xs: seq<Challenge>, ys: seq<Challenge>)
    requires FewCodes(xs) && SameSends(ys, xs)
    ensures FewCodes(ys)
  {
    forall c: Text, after: int ensures SentInHour(ys, c, after) <= OTP_MAX_SENDS { SameHour(ys, xs, c, after); }
  }

  lemma {:induction false} StepKeepsFewCodes(r: Trace, a: Action)
    requires |r.guesses| == |r.tables.challenges| && FewCodes(r.tables.challenges)
    ensures FewCodes(Step(r, a).tables.challenges)
  {
    match a
    case Issue(c, code, deliverable, now) =>
      if SendRefusal(r.tables, c, deliverable, now).None? { SendingKeepsFewCodes(r.tables, c, code, deliverable, now); }
    case _ => SameSendsKeepFewCodes(r.tables.challenges, Step(r, a).tables.challenges);
  }

  // ----- Steps keep the trace sane

  lemma {:induction false} IssueKeepsSane(r: Trace, last: nat, c: Text, code: Text, now: nat)
    requires Sane(r, last) && last <= now
    ensures Sane(Trace(Sent(r.tables, c, code, now), r.guesses + [[]]), now)
  {
    var end := Trace(Sent(r.tables, c, code, now), r.guesses + [[]]);
    forall i, j | 0 <= i < j < |end.guesses| ensures Replaced(end, i, j) {
      assert GuessesFit(r.tables.challenges[i], r.guesses[i]);
      if j < |r.guesses| { assert Replaced(r, i, j); }
    }
  }

  lemma {:induction false} CompareKeepsSane(r: Trace, last: nat, id: nat, guess: Text, now: nat)
    requires Sane(r, last) && last <= now && Compares(r.tables, id, guess, now)
    ensures Sane(Trace(Guessed(r.tables, id, guess, now), r.guesses[id := r.guesses[id] + [now]]), now)
  {
    var end := Trace(Guessed(r.tables, id, guess, now), r.guesses[id := r.guesses[id] + [now]]);
    forall i, j | 0 <= i < j < |end.guesses| ensures Replaced(end, i, j) { assert Replaced(r, i, j); }
    assert GuessesFit(r.tables.challenges[id], r.guesses[id]);
  }

  /** Ending codes, without comparing, keeps everything. */
  predicate OnlyEnds(before: seq<Challenge>, after: seq<Challenge>)
  {
    |after| == |before| &&
    forall i | 0 <= i < |before| :: after[i] == before[i] || (after[i].consumedAt.Some? && after[i] == before[i].(consumedAt := after[i].consumedAt))
  }

  lemma {:induction false} EndingKeepsSane(r: Trace, last: nat, after: Tables, now: nat)
    requires Sane(r, last) && last <= now && OnlyEnds(r.tables.challenges, after.challenges)
    ensures Sane(Trace(after, r.guesses), now)
  {
    var end := Trace(after, r.guesses);
    forall i | 0 <= i < |end.guesses|
      ensures GuessesFit(end.tables.challenges[i], end.guesses[i]) && end.tables.challenges[i].createdAt <= now
    {
      assert GuessesFit(r.tables.challenges[i], r.guesses[i]);
    }
    forall i, j | 0 <= i < j < |end.guesses| ensures Replaced(end, i, j) { assert Replaced(r, i, j); }
  }

  lemma {:induction false} StepKeepsSane(r: Trace, last: nat, a: Action)
    requires Sane(r, last) && last <= a.now
    ensures Sane(Step(r, a), a.now)
  {
    match a
    case Issue(c, code, deliverable, now) =>
      if SendRefusal(r.tables, c, deliverable, now).None? { IssueKeepsSane(r, last, c, code, now); }
      else { EndingKeepsSane(r, last, r.tables, now); }
    case Verify(id, guess, now) =>
      if Compares(r.tables, id, guess, now) { CompareKeepsSane(r, last, id, guess, now); }
      else { EndingKeepsSane(r, last, Guessed(r.tables, id, guess, now), now); }
    case _ => EndingKeepsSane(r, last, Step(r, a).tables, a.now);
  }

  function LastTime(actions: seq<Action>): nat { if actions == [] then 0 else actions[|actions| - 1].now }

  lemma {:induction false} RunIsSane(contributions: map<Text, Holder>, actions: seq<Action>)
    requires InClockOrder(actions)
    ensures Sane(Run(contributions, actions), LastTime(actions)) && FewCodes(Run(contributions, actions).tables.challenges)
  {
    if actions != [] {
      var front, a := actions[..|actions| - 1], actions[|actions| - 1];
      RunIsSane(contributions, front);
      StepKeepsSane(Run(contributions, front), LastTime(front), a);
      StepKeepsFewCodes(Run(contributions, front), a);
    }
  }

  /** A contribution has at most one live code at a time: once a further one is sent, the earlier are ended. */
  lemma {:induction false} OneLiveCode(contributions: map<Text, Holder>, actions: seq<Action>, i: nat, j: nat)
    requires InClockOrder(actions)
    requires var challenges := Run(contributions, actions).tables.challenges;
      i < j < |challenges| && challenges[i].contributionId == challenges[j].contributionId
    ensures Run(contributions, actions).tables.challenges[i].consumedAt.Some?
  {
    RunIsSane(contributions, actions);
    assert Replaced(Run(contributions, actions), i, j);
  }

  /** At most five codes in any hour, and at most five compared guesses at each. */
  lemma {:induction false} FiveCodesFiveGuesses(contributions: map<Text, Holder>, actions: seq<Action>, c: Text, after: int, i: nat)
    requires InClockOrder(actions)
    ensures SentInHour(Run(contributions, actions).tables.challenges, c, after) <= 5
    ensures i < |Run(contributions, actions).guesses| ==> |Run(contributions, actions).guesses[i]| <= 5
  {
    RunIsSane(contributions, actions);
  }

  // ----- How many guesses an hour

  /** Guesses at one code in the hour that begins after a moment. */
  function InHour(times: seq<nat>, after: int): nat
  {
    if times == [] then 0
    else InHour(times[..|times| - 1], after) + (if after < times[|times| - 1] <= after + OTP_SEND_WINDOW then 1 else 0)
  }

  /** Guesses at all codes of a contribution in that hour, over the first `n` codes. */
  function GuessesInHour(r: Trace, c: Text, after: int, n: nat): nat
    requires |r.guesses| == |r.tables.challenges| && n <= |r.guesses|
  {
    if n == 0 then 0
    else GuessesInHour(r, c, after, n - 1) + (if r.tables.challenges[n - 1].contributionId == c then InHour(r.guesses[n - 1], after) else 0)
  }

  lemma {:induction false} InHourBounded(times: seq<nat>, after: int)
    ensures InHour(times, after) <= |times|
    ensures (forall k | 0 <= k < |times| :: times[k] <= after) ==> InHour(times, after) == 0
  {
    if times != [] { InHourBounded(times[..|times| - 1], after); }
  }

  /** A code sent after the hour is guessed at after it too. */
  lemma {:induction false} InHourTooLate(times: seq<nat>, after: int)
    requires forall k | 0 <= k < |times| :: times[k] > after + OTP_SEND_WINDOW
    ensures InHour(times, after) == 0
  {
    if times != [] { InHourTooLate(times[..|times| - 1], after); }
  }

  /** Guesses come no earlier than their code. */
  predicate GuessedAfterSent(r: Trace)
    requires |r.guesses| == |r.tables.challenges|
  {
    forall i | 0 <= i < |r.guesses| :: forall k | 0 <= k < |r.guesses[i]| :: r.tables.challenges[i].createdAt <= r.guesses[i][k]
  }

  lemma {:induction false} StepKeepsGuessedAfterSent(r: Trace, last: nat, a: Action)
    requires Sane(r, last) && last <= a.now && GuessedAfterSent(r)
    ensures GuessedAfterSent(Step(r, a))
  {
    var end := Step(r, a);
    forall i, k | 0 <= i < |end.guesses| && 0 <= k < |end.guesses[i]| ensures end.tables.challenges[i].createdAt <= end.guesses[i][k] {
      if i < |r.guesses| { assert end.tables.challenges[i].createdAt == r.tables.challenges[i].createdAt; }
    }
  }

  lemma {:induction false} RunGuessedAfterSent(contributions: map<Text, Holder>, actions: seq<Action>)
    requires InClockOrder(actions)
    ensures GuessedAfterSent(Run(contributions, actions))
  {
    if actions != [] {
      var front := actions[..|actions| - 1];
      RunGuessedAfterSent(contributions, front);
      RunIsSane(contributions, front);
      StepKeepsGuessedAfterSent(Run(contributions, front), LastTime(front), actions[|actions| - 1]);
    }
  }

  /** Once a further code is sent, the codes before it are guessed at no more. */
  lemma {:induction false} OlderCodesAreSilent(r: Trace, c: Text, after: int, m: nat, n: nat, now: nat)
    requires Sane(r, now) && m <= n < |r.guesses|
    requires r.tables.challenges[n].contributionId == c && r.tables.challenges[n].createdAt <= after
    ensures GuessesInHour(r, c, after, m) == 0
  {
    if m > 0 {
      OlderCodesAreSilent(r, c, after, m - 1, n, now);
      assert Replaced(r, m - 1, n);
      InHourBounded(r.guesses[m - 1], after);
    }
  }

  /** Five guesses for each code sent within the hour, and five more for the one that was live when it began. */
  lemma {:induction false} GuessesBySends(r: Trace, now: nat, c: Text, after: int, n: nat)
    requires Sane(r, now) && GuessedAfterSent(r) && n <= |r.guesses|
    ensures GuessesInHour(r, c, after, n) <= 5 * SentInHour(r.tables.challenges[..n], c, after) + 5
  {
    if n > 0 {
      var x := r.tables.challenges[n - 1];
      assert r.tables.challenges[..n][..n - 1] == r.tables.challenges[..n - 1];
      assert GuessesFit(x, r.guesses[n - 1]);
      InHourBounded(r.guesses[n - 1], after);
      GuessesBySends(r, now, c, after, n - 1);
      if x.contributionId == c {
        if x.createdAt <= after {
          OlderCodesAreSilent(r, c, after, n - 1, n - 1, now);
        } else if x.createdAt > after + OTP_SEND_WINDOW {
          InHourTooLate(r.guesses[n - 1], after);
        }
      }
    }
  }

  /** At most thirty guesses at a contribution's codes are compared in any hour. */
  lemma {:induction false} ThirtyGuessesAnHour(contributions: map<Text, Holder>, actions: seq<Action>, c: Text, after: int)
    requires InClockOrder(actions)
    ensures var r := Run(contributions, actions);
      GuessesInHour(r, c, after, |r.guesses|) <= 30
  {
    var r := Run(contributions, actions);
    RunIsSane(contributions, actions);
    RunGuessedAfterSent(contributions, actions);
    GuessesBySends(r, LastTime(actions), c, after, |r.guesses|);
    assert r.tables.challenges[..|r.guesses|] == r.tables.challenges;
  }

  // ----- Contact recovery

  /** What is ended stays ended. */
  predicate StaysEnded(before: Tables, after: Tables)
  {
    |before.challenges| <= |after.challenges| && |before.sessions| <= |after.sessions| &&
    (forall i | 0 <= i < |before.challenges| && before.challenges[i].consumedAt.Some? :: after.challenges[i].consumedAt.Some?) &&
    (forall i | 0 <= i < |before.sessions| && before.sessions[i].revokedAt.Some? :: after.sessions[i].revokedAt.Some?)
  }

  lemma {:induction false} StepStaysEnded(t: Tables, a: Action)
    ensures StaysEnded(t, Next(t, a))
  {
  }

  function RunOn(t: Tables, actions: seq<Action>): Tables
  {
    if actions == [] then t else Next(RunOn(t, actions[..|actions| - 1]), actions[|actions| - 1])
  }

  lemma {:induction false} RunStaysEnded(t: Tables, actions: seq<Action>)
    ensures StaysEnded(t, RunOn(t, actions))
  {
    if actions != [] {
      RunStaysEnded(t, actions[..|actions| - 1]);
      StepStaysEnded(RunOn(t, actions[..|actions| - 1]), actions[|actions| - 1]);
    }
  }

  /** After an approved recovery, no session opened before it is usable and no code sent before it can be compared, whatever happens next. */
  lemma {:induction false} RecoveryCutsOff(t: Tables, id: nat, version: int, now: nat, actions: seq<Action>, k: nat, guess: Text, later: nat)
    requires DecisionRefusal(t, id, version).None?
    ensures var end := RunOn(Next(t, Decide(id, true, version, now)), actions);
      (k < |t.sessions| && t.sessions[k].contributionId == t.recoveries[id].contributionId ==> !Usable(end, k, later)) &&
      (k < |t.challenges| && t.challenges[k].contributionId == t.recoveries[id].contributionId ==> !Compares(end, k, guess, later))
  {
    var after := Next(t, Decide(id, true, version, now));
    RunStaysEnded(after, actions);
    assert after == Decided(t, id, true, now);
  }
}
