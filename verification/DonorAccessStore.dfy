/** The donor access tables as the service keeps them; each method is one transaction. */
module DonorAccessStore {
  import opened Options
  import opened Texts
  import opened DonorAccess

  class AccessTables {
    var contributions: map<Text, Holder>
    var challenges: seq<Challenge>
    var sessions: seq<Session>
    var recoveries: seq<Recovery>

    constructor (contributions: map<Text, Holder>)
      ensures Snapshot() == Tables(contributions, [], [], [])
    {
      this.contributions := contributions;
      challenges, sessions, recoveries := [], [], [];
    }

    function Snapshot(): Tables
      reads this
    {
      Tables(contributions, challenges, sessions, recoveries)
    }

    /** How many codes were sent lately, and when the first and the last of them. */
    method RecentSends(contributionId: Text, after: int) returns (sent: nat, last: Option<nat>, first: Option<nat>)
      ensures sent == RecentCount(challenges, contributionId, after)
      ensures last == LastSent(challenges, contributionId, after) && first == FirstSent(challenges, contributionId, after)
    {
      sent, last, first := 0, None, None;
      for i := 0 to |challenges|
        invariant sent == RecentCount(challenges[..i], contributionId, after)
        invariant last == LastSent(challenges[..i], contributionId, after)
        invariant first == FirstSent(challenges[..i], contributionId, after)
      {
        assert challenges[..i + 1][..i] == challenges[..i];
        if challenges[i].contributionId == contributionId && challenges[i].createdAt > after {
          sent := sent + 1;
          if last.None? || challenges[i].createdAt >= last.value { last := Some(challenges[i].createdAt); }
          if first.None? || challenges[i].createdAt <= first.value { first := Some(challenges[i].createdAt); }
        }
      }
      assert challenges[..|challenges|] == challenges;
    }

    /** Ends the live codes of a contribution. */
    method EndCodes(contributionId: Text, now: nat)
      modifies this`challenges
      ensures challenges == Ended(old(challenges), contributionId, now)
    {
      for i := 0 to |challenges|
        invariant |challenges| == |old(challenges)|
        invariant forall k | 0 <= k < i :: challenges[k] == Ended(old(challenges), contributionId, now)[k]
        invariant forall k | i <= k < |challenges| :: challenges[k] == old(challenges)[k]
      {
        if challenges[i].contributionId == contributionId && challenges[i].consumedAt.None? {
          challenges := challenges[i := challenges[i].(consumedAt := Some(now))];
        }
      }
    }

    method RevokeSessions(contributionId: Text, now: nat)
      modifies this`sessions
      ensures sessions == RevokedAll(old(sessions), contributionId, now)
    {
      for i := 0 to |sessions|
        invariant |sessions| == |old(sessions)|
        invariant forall k | 0 <= k < i :: sessions[k] == RevokedAll(old(sessions), contributionId, now)[k]
        invariant forall k | i <= k < |sessions| :: sessions[k] == old(sessions)[k]
      {
        if sessions[i].contributionId == contributionId && sessions[i].revokedAt.None? {
          sessions := sessions[i := sessions[i].(revokedAt := Some(now))];
        }
      }
    }

    /** Sends a code unless the contribution was sent one too lately or too many. */
    method IssueOtp(contributionId: Text, code: Text, deliverable: bool, now: nat) returns (outcome: Result<nat, AccessError>)
      modifies this`challenges
      ensures match SendRefusal(old(Snapshot()), contributionId, deliverable, now)
        case Some(e) => outcome == Err(e) && Snapshot() == old(Snapshot())
        case None => outcome == Ok(old(|challenges|)) && Snapshot() == Sent(old(Snapshot()), contributionId, code, now)
    {
      if contributionId !in contributions { return Err(NoContribution); }
      if contributions[contributionId].contact.None? || !deliverable { return Err(NoContact); }
      var sent, last, first := RecentSends(contributionId, now - OTP_SEND_WINDOW);
      if last.Some? && last.value > now - OTP_COOLDOWN { return Err(Cooldown(last.value + OTP_COOLDOWN)); }
      if sent >= OTP_MAX_SENDS { return Err(TooManyCodes((if first.Some? then first.value else now) + OTP_SEND_WINDOW)); }
      EndCodes(contributionId, now);
      challenges := challenges + [Challenge(contributionId, code, 0, OTP_MAX_ATTEMPTS, now + OTP_TTL, None, now)];
      return Ok(|challenges| - 1);
    }

    /** A code that never arrived must not stay live. */
    method ConsumeChallenge(id: nat, now: nat)
      requires id < |challenges|
      modifies this`challenges
      ensures Snapshot() == Consumed(old(Snapshot()), id, now)
    {
      if challenges[id].consumedAt.None? { challenges := challenges[id := challenges[id].(consumedAt := Some(now))]; }
    }

    method VerifyOtp(id: nat, guess: Text, now: nat) returns (outcome: Result<nat, AccessError>)
      modifies this
      ensures Snapshot() == Guessed(old(Snapshot()), id, guess, now)
      ensures outcome == GuessResult(old(Snapshot()), id, guess, now)
      ensures outcome.Ok? ==> id < |old(challenges)| && guess == old(challenges)[id].code && now < old(challenges)[id].expiresAt
      ensures outcome.Ok? ==> |sessions| == |old(sessions)| + 1 && sessions[outcome.value].contributionId == old(challenges)[id].contributionId
      ensures outcome.Err? ==> sessions == old(sessions)
    {
      if !IsCode(guess) { return Err(BadFormat); }
      if id >= |challenges| { return Err(Spent); }
      var challenge := challenges[id];
      if challenge.consumedAt.Some? { return Err(Spent); }
      if challenge.expiresAt <= now {
        ConsumeChallenge(id, now);
        return Err(Spent);
      }
      if challenge.attempts >= challenge.maxAttempts {
        ConsumeChallenge(id, now);
        return Err(Spent);
      }
      if guess != challenge.code {
        var nextAttempts := challenge.attempts + 1;
        var consumedAt := if nextAttempts >= challenge.maxAttempts then Some(now) else None;
        challenges := challenges[id := challenge.(attempts := nextAttempts, consumedAt := consumedAt)];
        return Err(WrongCode(challenge.maxAttempts - nextAttempts));
      }
      ConsumeChallenge(id, now);
      sessions := sessions + [Session(challenge.contributionId, now + SESSION_TTL, None, now, now)];
      return Ok(|sessions| - 1);
    }

    method GetSession(id: nat, now: nat) returns (found: Option<Session>)
      modifies this`sessions
      ensures found.Some? <==> id < |old(sessions)| && now < old(sessions)[id].expiresAt && old(sessions)[id].revokedAt.None?
      ensures Snapshot() == Opened(old(Snapshot()), id, now)
      ensures found.Some? ==> found.value == sessions[id]
    {
      if id >= |sessions| || sessions[id].expiresAt <= now || sessions[id].revokedAt.Some? { return None; }
      sessions := sessions[id := sessions[id].(lastAccessedAt := now)];
      return Some(sessions[id]);
    }

    method RevokeSession(id: nat, now: nat)
      modifies this`sessions
      ensures Snapshot() == Revoked(old(Snapshot()), id, now)
    {
      if id < |sessions| { sessions := sessions[id := sessions[id].(revokedAt := Some(now))]; }
    }

    method DecideRecovery(id: nat, approved: bool, expectedVersion: int, now: nat) returns (refusal: Option<AccessError>)
      modifies this
      ensures refusal == DecisionRefusal(old(Snapshot()), id, expectedVersion)
      ensures Snapshot() == if refusal.Some? then old(Snapshot()) else Decided(old(Snapshot()), id, approved, now)
    {
      if id >= |recoveries| { return Some(NoRecovery); }
      var request := recoveries[id];
      if request.status != PendingDecision { return Some(AlreadyDecided); }
      if request.contributionId !in contributions { return Some(NoContribution); }
      var holder := contributions[request.contributionId];
      if holder.version != expectedVersion { return Some(VersionConflict); }
      if approved {
        contributions := contributions[request.contributionId := Holder(Some(request.contact), holder.version + 1)];
        EndCodes(request.contributionId, now);
        RevokeSessions(request.contributionId, now);
        recoveries := recoveries[id := request.(status := Approved)];
      } else {
        recoveries := recoveries[id := request.(status := Rejected)];
      }
      return None;
    }
  }
}
