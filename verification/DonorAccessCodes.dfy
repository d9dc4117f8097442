/**
 What a code opens: a session comes from one right guess at one live code, and a right guess at a live
 code opens one; codes are sent a minute apart and whenever nothing speaks against it. Guesses and
 codes are compared as texts.
 */
module DonorAccessCodes {
  import opened Options
  import opened Texts
  import opened DonorAccess
  import opened DonorAccessLaws

  // ----- One guess

  /** Six decimal digits. */
  predicate SixDigits(guess: Text) { |guess| == 6 && forall i | 0 <= i < |guess| :: 0x30 <= guess[i] <= 0x39 }

  lemma {:induction false} CodesAreSixDigits(guess: Text)
    ensures IsCode(guess) <==> SixDigits(guess)
  {
    if IsCode(guess) { assert forall i | 0 <= i < |guess| :: guess[i] in guess; }
    if SixDigits(guess) { assert forall c | c in guess :: exists i | 0 <= i < |guess| :: guess[i] == c; }
  }

  /** Sent, not used up, not expired, and with guesses left. */
  predicate IsLive(t: Tables, id: nat, now: nat)
  {
    id < |t.challenges| && t.challenges[id].consumedAt.None? && now < t.challenges[id].expiresAt &&
    t.challenges[id].attempts < t.challenges[id].maxAttempts
  }

  /** Exactly the right guess at a live code opens a session, of the code's contribution and for an hour, and uses the code up. */
  lemma {:induction false} RightGuessOpens(t: Tables, id: nat, guess: Text, now: nat)
    requires SixDigits(guess) && IsLive(t, id, now) && guess == t.challenges[id].code
    ensures var end := Next(t, Verify(id, guess, now));
      |end.sessions| == |t.sessions| + 1 && end.sessions[..|t.sessions|] == t.sessions &&
      end.sessions[|t.sessions|] == Session(t.challenges[id].contributionId, now + 3600, None, now, now) &&
      |end.challenges| == |t.challenges| && end.challenges[id].consumedAt == Some(now) &&
      (forall k | 0 <= k < |t.challenges| && k != id :: end.challenges[k] == t.challenges[k]) &&
      end.contributions == t.contributions && end.recoveries == t.recoveries
  {
  }

  /** Any other guess opens none. */
  lemma {:induction false} OtherGuessesOpenNone(t: Tables, id: nat, guess: Text, now: nat)
    requires !(SixDigits(guess) && IsLive(t, id, now) && guess == t.challenges[id].code)
    ensures Next(t, Verify(id, guess, now)).sessions == t.sessions
  {
    CodesAreSixDigits(guess);
  }

  /** A wrong guess at a live code costs one attempt, and the last attempt ends the code. */
  lemma {:induction false} WrongGuessCosts(t: Tables, id: nat, guess: Text, now: nat)
    requires SixDigits(guess) && IsLive(t, id, now) && guess != t.challenges[id].code
    ensures var end := Next(t, Verify(id, guess, now));
      |end.challenges| == |t.challenges| && end.challenges[id].attempts == t.challenges[id].attempts + 1 &&
      (end.challenges[id].consumedAt.None? <==> end.challenges[id].attempts < t.challenges[id].maxAttempts) &&
      end.challenges[id].code == t.challenges[id].code &&
      forall k | 0 <= k < |t.challenges| && k != id :: end.challenges[k] == t.challenges[k]
  {
  }

  /** The answer: the new session, the attempts that remain, or that nothing was compared. */
  lemma {:induction false} AnswersTell(t: Tables, id: nat, guess: Text, now: nat, answer: Result<nat, AccessError>)
    requires GuessResult(t, id, guess, now) == answer
    ensures answer.Ok? <==> SixDigits(guess) && IsLive(t, id, now) && guess == t.challenges[id].code
    ensures answer.Ok? ==> answer.value == |t.sessions|
    ensures SixDigits(guess) && IsLive(t, id, now) && guess != t.challenges[id].code ==>
      answer.Err? && answer.error.WrongCode? && answer.error.remaining + 1 + t.challenges[id].attempts == t.challenges[id].maxAttempts
    ensures !SixDigits(guess) ==> answer == Err(BadFormat)
    ensures SixDigits(guess) && !IsLive(t, id, now) ==> answer == Err(Spent)
  {
    CodesAreSixDigits(guess);
  }

  // ----- Where every session comes from

  /** The step is a right guess at a live code. */
  predicate OpensBy(t: Tables, a: Action)
  {
    a.Verify? && SixDigits(a.guess) && IsLive(t, a.challenge, a.now) && a.guess == t.challenges[a.challenge].code
  }

  lemma {:induction false} OtherStepsOpenNone(t: Tables, a: Action)
    ensures |Next(t, a).sessions| == if OpensBy(t, a) then |t.sessions| + 1 else |t.sessions|
    ensures forall k | 0 <= k < |t.sessions| ::
      Next(t, a).sessions[k].contributionId == t.sessions[k].contributionId && Next(t, a).sessions[k].createdAt == t.sessions[k].createdAt &&
      Next(t, a).sessions[k].expiresAt == t.sessions[k].expiresAt
  {
    if a.Verify? {
      if OpensBy(t, a) { RightGuessOpens(t, a.challenge, a.guess, a.now); } else { OtherGuessesOpenNone(t, a.challenge, a.guess, a.now); }
    }
  }

  function Before(contributions: map<Text, Holder>, actions: seq<Action>, i: nat): Tables
    requires i <= |actions|
  {
    Run(contributions, actions[..i]).tables
  }

  /** The session was opened by a right guess at a live code of its contribution, and lasts an hour from then. */
  predicate ComesFrom(contributions: map<Text, Holder>, actions: seq<Action>, k: nat, i: nat)
    requires i < |actions|
  {
    var t, end := Before(contributions, actions, i), Run(contributions, actions).tables;
    OpensBy(t, actions[i]) && |t.sessions| == k && k < |end.sessions| &&
    end.sessions[k].contributionId == t.challenges[actions[i].challenge].contributionId &&
    end.sessions[k].createdAt == actions[i].now && end.sessions[k].expiresAt == actions[i].now + 3600
  }

  lemma {:induction false} RunSplits(contributions: map<Text, Holder>, actions: seq<Action>)
    requires actions != []
    ensures var n := |actions| - 1;
      Run(contributions, actions).tables == Next(Before(contributions, actions, n), actions[n]) &&
      Run(contributions, actions[..n]).tables == Before(contributions, actions, n)
  {
  }

  /** After every run, every session comes from one right guess. */
  lemma {:induction false} SessionsComeFromRightGuesses(contributions: map<Text, Holder>, actions: seq<Action>, k: nat) returns (i: nat)
    requires k < |Run(contributions, actions).tables.sessions|
    ensures i < |actions| && ComesFrom(contributions, actions, k, i)
  {
    var n := |actions| - 1;
    var t, a := Before(contributions, actions, n), actions[n];
    RunSplits(contributions, actions);
    OtherStepsOpenNone(t, a);
    if k < |t.sessions| {
      i := SessionsComeFromRightGuesses(contributions, actions[..n], k);
      assert actions[..n][..i] == actions[..i];
    } else {
      i := n;
      RightGuessOpens(t, a.challenge, a.guess, a.now);
    }
  }

  lemma {:induction false} UsedUpForGood(contributions: map<Text, Holder>, actions: seq<Action>, i: nat, j: nat, id: nat)
    requires i <= j <= |actions| && id < |Before(contributions, actions, i).challenges|
    requires Before(contributions, actions, i).challenges[id].consumedAt.Some?
    ensures id < |Before(contributions, actions, j).challenges| && Before(contributions, actions, j).challenges[id].consumedAt.Some?
  {
    if i < j {
      UsedUpForGood(contributions, actions, i, j - 1, id);
      RunSplits(contributions, actions[..j]);
      assert actions[..j][..j - 1] == actions[..j - 1] && actions[..j][j - 1] == actions[j - 1];
      StepStaysEnded(Before(contributions, actions, j - 1), actions[j - 1]);
    }
  }

  /** No code opens two sessions: two opening guesses are at different codes. */
  lemma {:induction false} OneSessionPerCode(contributions: map<Text, Holder>, actions: seq<Action>, i: nat, j: nat)
    requires i < j < |actions| && OpensBy(Before(contributions, actions, i), actions[i]) && OpensBy(Before(contributions, actions, j), actions[j])
    ensures actions[i].challenge != actions[j].challenge
  {
    var t, a := Before(contributions, actions, i), actions[i];
    RightGuessOpens(t, a.challenge, a.guess, a.now);
    RunSplits(contributions, actions[..i + 1]);
    assert actions[..i + 1][..i] == actions[..i] && actions[..i + 1][i] == a;
    UsedUpForGood(contributions, actions, i + 1, j, a.challenge);
  }

  // ----- Sending

  /** Codes of a contribution no older than an hour. */
  function InLastHour(challenges: seq<Challenge>, contributionId: Text, now: nat): nat
  {
    if challenges == [] then 0
    else
      var c := challenges[|challenges| - 1];
      InLastHour(challenges[..|challenges| - 1], contributionId, now) + (if c.contributionId == contributionId && now < c.createdAt + 3600 then 1 else 0)
  }

  predicate SentInLastMinute(challenges: seq<Challenge>, contributionId: Text, now: nat)
  {
    exists i | 0 <= i < |challenges| :: challenges[i].contributionId == contributionId && now < challenges[i].createdAt + 60
  }

  predicate MaySend(t: Tables, contributionId: Text, deliverable: bool, now: nat)
  {
    contributionId in t.contributions && t.contributions[contributionId].contact.Some? && deliverable &&
    !SentInLastMinute(t.challenges, contributionId, now) && InLastHour(t.challenges, contributionId, now) < 5
  }

  lemma {:induction false} LastSentTells(challenges: seq<Challenge>, contributionId: Text, after: int)
    ensures LastSent(challenges, contributionId, after).None? <==>
      forall i | 0 <= i < |challenges| && challenges[i].contributionId == contributionId :: challenges[i].createdAt <= after
    ensures LastSent(challenges, contributionId, after).Some? ==>
      (forall i | 0 <= i < |challenges| && challenges[i].contributionId == contributionId ::
         challenges[i].createdAt <= LastSent(challenges, contributionId, after).value) &&
      exists i | 0 <= i < |challenges| :: challenges[i].contributionId == contributionId && challenges[i].createdAt == LastSent(challenges, contributionId, after).value
  {
    if challenges != [] {
      var n := |challenges| - 1;
      var front := challenges[..n];
      LastSentTells(front, contributionId, after);
      assert forall i | 0 <= i < n :: front[i] == challenges[i];
      assert LastSent(challenges, contributionId, after) == LastSent(front, contributionId, after) ||
        (challenges[n].contributionId == contributionId && LastSent(challenges, contributionId, after) == Some(challenges[n].createdAt));
    }
  }

  lemma {:induction false} RecentIsLastHour(challenges: seq<Challenge>, contributionId: Text, now: nat)
    ensures RecentCount(challenges, contributionId, now - 3600) == InLastHour(challenges, contributionId, now)
  {
    if challenges != [] { RecentIsLastHour(challenges[..|challenges| - 1], contributionId, now); }
  }

  lemma {:induction false} MinuteTells(challenges: seq<Challenge>, contributionId: Text, now: nat)
    ensures var last := LastSent(challenges, contributionId, now - 3600);
      (last.Some? && last.value > now - 60) <==> SentInLastMinute(challenges, contributionId, now)
  {
    LastSentTells(challenges, contributionId, now - 3600);
  }

  /** A code is sent exactly when it may be: it alone is live then, for a quarter of an hour and five guesses. */
  lemma {:induction false} SentExactlyWhen(t: Tables, contributionId: Text, code: Text, deliverable: bool, now: nat)
    ensures var end := Next(t, Issue(contributionId, code, deliverable, now));
      if MaySend(t, contributionId, deliverable, now) then
        |end.challenges| == |t.challenges| + 1 &&
        end.challenges[|t.challenges|] == Challenge(contributionId, code, 0, 5, now + 900, None, now) &&
        (forall i | 0 <= i < |t.challenges| && t.challenges[i].contributionId == contributionId :: end.challenges[i].consumedAt.Some?) &&
        (forall i | 0 <= i < |t.challenges| && t.challenges[i].contributionId != contributionId :: end.challenges[i] == t.challenges[i]) &&
        end.sessions == t.sessions && end.contributions == t.contributions && end.recoveries == t.recoveries
      else end == t
  {
    RecentIsLastHour(t.challenges, contributionId, now);
    MinuteTells(t.challenges, contributionId, now);
  }

  predicate LatestSend(challenges: seq<Challenge>, contributionId: Text, at: nat)
  {
    (exists i | 0 <= i < |challenges| :: challenges[i].contributionId == contributionId && challenges[i].createdAt == at) &&
    forall i | 0 <= i < |challenges| && challenges[i].contributionId == contributionId :: challenges[i].createdAt <= at
  }

  /** The oldest of the last hour. */
  predicate OldestSend(challenges: seq<Challenge>, contributionId: Text, now: nat, at: nat)
  {
    (exists i | 0 <= i < |challenges| ::
       challenges[i].contributionId == contributionId && challenges[i].createdAt == at && now < challenges[i].createdAt + 3600) &&
    forall i | 0 <= i < |challenges| && challenges[i].contributionId == contributionId && now < challenges[i].createdAt + 3600 :: at <= challenges[i].createdAt
  }

  lemma {:induction false} FirstSentTells(challenges: seq<Challenge>, contributionId: Text, now: nat)
    ensures FirstSent(challenges, contributionId, now - 3600).None? <==> InLastHour(challenges, contributionId, now) == 0
    ensures FirstSent(challenges, contributionId, now - 3600).Some? ==>
      OldestSend(challenges, contributionId, now, FirstSent(challenges, contributionId, now - 3600).value)
  {
    if challenges != [] {
      var n := |challenges| - 1;
      var front, first := challenges[..n], FirstSent(challenges, contributionId, now - 3600);
      FirstSentTells(front, contributionId, now);
      assert forall i | 0 <= i < n :: front[i] == challenges[i];
      if InLastHour(front, contributionId, now) == 0 { NoneInLastHour(front, contributionId, now); }
    }
  }

  lemma {:induction false} NoneInLastHour(challenges: seq<Challenge>, contributionId: Text, now: nat)
    requires InLastHour(challenges, contributionId, now) == 0
    ensures forall i | 0 <= i < |challenges| && challenges[i].contributionId == contributionId :: now >= challenges[i].createdAt + 3600
  {
    if challenges != [] { NoneInLastHour(challenges[..|challenges| - 1], contributionId, now); }
  }

  /** A refusal says why, and when to come back: a minute after the latest code, or an hour after the oldest of the last hour. */
  lemma {:induction false} SendRefusalIsSo(t: Tables, contributionId: Text, deliverable: bool, now: nat)
    ensures SendRefusal(t, contributionId, deliverable, now).None? <==> MaySend(t, contributionId, deliverable, now)
    ensures SendRefusal(t, contributionId, deliverable, now).Some? ==>
      match SendRefusal(t, contributionId, deliverable, now).value
      case NoContribution => contributionId !in t.contributions
      case NoContact => contributionId in t.contributions && (t.contributions[contributionId].contact.None? || !deliverable)
      case Cooldown(retryAt) => now < retryAt && retryAt >= 60 && LatestSend(t.challenges, contributionId, retryAt - 60)
      case TooManyCodes(retryAt) => now < retryAt && retryAt >= 3600 && OldestSend(t.challenges, contributionId, now, retryAt - 3600)
      case _ => false
  {
    RecentIsLastHour(t.challenges, contributionId, now);
    MinuteTells(t.challenges, contributionId, now);
    LastSentTells(t.challenges, contributionId, now - 3600);
    FirstSentTells(t.challenges, contributionId, now);
  }

  predicate MinuteApart(challenges: seq<Challenge>)
  {
    forall i, j | 0 <= i < j < |challenges| && challenges[i].contributionId == challenges[j].contributionId ::
      challenges[i].createdAt + 60 <= challenges[j].createdAt
  }

  lemma {:induction false} StepKeepsMinuteApart(t: Tables, a: Action)
    requires MinuteApart(t.challenges)
    ensures MinuteApart(Next(t, a).challenges)
  {
    match a
    case Issue(c, code, deliverable, now) => SentExactlyWhen(t, c, code, deliverable, now);
    case _ => assert SameSends(t.challenges, Next(t, a).challenges);
  }

  /** After every run, codes of one contribution were sent at least a minute apart. */
  lemma {:induction false} RunKeepsMinuteApart(contributions: map<Text, Holder>, actions: seq<Action>)
    ensures MinuteApart(Run(contributions, actions).tables.challenges)
  {
    if actions != [] {
      RunKeepsMinuteApart(contributions, actions[..|actions| - 1]);
      StepKeepsMinuteApart(Run(contributions, actions[..|actions| - 1]).tables, actions[|actions| - 1]);
    }
  }

  // ----- Sessions and recoveries

  /** Only a look at a session that is neither revoked nor an hour old finds it; it changes nothing but the last access. */
  lemma {:induction false} UsableWithinAnHour(contributions: map<Text, Holder>, actions: seq<Action>, k: nat, now: nat)
    requires k < |Run(contributions, actions).tables.sessions|
    ensures var t := Run(contributions, actions).tables;
      Usable(t, k, now) <==> now < t.sessions[k].createdAt + 3600 && t.sessions[k].revokedAt.None?
  {
    var i := SessionsComeFromRightGuesses(contributions, actions, k);
  }

  /** A revoked session is gone for good, whatever follows, and no other session is touched. */
  lemma {:induction false} RevokedForGood(t: Tables, k: nat, now: nat, actions: seq<Action>, later: nat)
    requires k < |t.sessions|
    ensures var after := Next(t, Revoke(k, now));
      !Usable(RunOn(after, actions), k, later) && after.challenges == t.challenges && after.contributions == t.contributions &&
      |after.sessions| == |t.sessions| && forall j | 0 <= j < |t.sessions| && j != k :: after.sessions[j] == t.sessions[j]
  {
    RunStaysEnded(Next(t, Revoke(k, now)), actions);
  }

  /** A code that could not be delivered is never compared. */
  lemma {:induction false} UndeliveredIsDead(t: Tables, id: nat, now: nat, actions: seq<Action>, guess: Text, later: nat)
    requires id < |t.challenges|
    ensures var after := Next(t, Undelivered(id, now));
      !Compares(RunOn(after, actions), id, guess, later) && after.sessions == t.sessions &&
      |after.challenges| == |t.challenges| && forall j | 0 <= j < |t.challenges| && j != id :: after.challenges[j] == t.challenges[j]
  {
    RunStaysEnded(Next(t, Undelivered(id, now)), actions);
  }

  /** A look at a session changes nothing but when it was last seen, and only while it is usable. */
  lemma {:induction false} LookTells(t: Tables, k: nat, now: nat)
    ensures var after := Next(t, Open(k, now));
      if k < |t.sessions| && now < t.sessions[k].expiresAt && t.sessions[k].revokedAt.None? then
        |after.sessions| == |t.sessions| && after.sessions[k] == t.sessions[k].(lastAccessedAt := now) &&
        (forall j | 0 <= j < |t.sessions| && j != k :: after.sessions[j] == t.sessions[j]) && after == t.(sessions := after.sessions)
      else after == t
  {
  }

  /** A pending request of a contribution at the loaded version is decided; an approval puts its contact in place of the old one. */
  lemma {:induction false} DecidedExactlyWhen(t: Tables, id: nat, approved: bool, version: int, now: nat)
    ensures var end := Next(t, Decide(id, approved, version, now));
      if id < |t.recoveries| && t.recoveries[id].status == PendingDecision && t.recoveries[id].contributionId in t.contributions &&
         t.contributions[t.recoveries[id].contributionId].version == version
      then
        var c := t.recoveries[id].contributionId;
        |end.recoveries| == |t.recoveries| && end.recoveries[id] == Recovery(c, t.recoveries[id].contact, if approved then Approved else Rejected) &&
        (forall k | 0 <= k < |t.recoveries| && k != id :: end.recoveries[k] == t.recoveries[k]) &&
        c in end.contributions && end.contributions == t.contributions[c := end.contributions[c]] &&
        (if approved then end.contributions[c] == Holder(Some(t.recoveries[id].contact), t.contributions[c].version + 1)
         else end.contributions == t.contributions && end.challenges == t.challenges && end.sessions == t.sessions)
      else end == t
  {
  }
}
