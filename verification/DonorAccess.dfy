/**
 Accountless access to one contribution: a code is sent to the contribution's own contact, verifying
 it opens a session, and an approved contact recovery cuts off every earlier code and session.
 Times are Unix seconds.
 */
module DonorAccess {
  import opened Options
  import opened Texts

  const OTP_TTL: nat := 900
  const OTP_MAX_ATTEMPTS: nat := 5
  const OTP_COOLDOWN: nat := 60
  const OTP_MAX_SENDS: nat := 5
  const OTP_SEND_WINDOW: nat := 3600
  const SESSION_TTL: nat := 3600

  /** A code sent; the stored hash is represented by the code it commits to. */
  datatype Challenge = Challenge(
    contributionId: Text, code: Text, attempts: nat, maxAttempts: nat, expiresAt: nat, consumedAt: Option<nat>, createdAt: nat)

  datatype Session = Session(contributionId: Text, expiresAt: nat, revokedAt: Option<nat>, createdAt: nat, lastAccessedAt: nat)

  datatype RecoveryStatus = PendingDecision | Approved | Rejected

  datatype Recovery = Recovery(contributionId: Text, contact: Text, status: RecoveryStatus)

  datatype Holder = Holder(contact: Option<Text>, version: nat)

  /** Challenges, sessions and recovery requests are named by their position. */
  datatype Tables = Tables(
    contributions: map<Text, Holder>, challenges: seq<Challenge>, sessions: seq<Session>, recoveries: seq<Recovery>)

  datatype AccessError =
    | NoContribution | NoContact | Cooldown(retryAt: nat) | TooManyCodes(retryAt: nat)
    | BadFormat | Spent | WrongCode(remaining: nat) | NoRecovery | AlreadyDecided | VersionConflict

  // ----- Sending codes

  function Later(a: Option<nat>, b: nat): Option<nat> { if a.Some? && a.value > b then a else Some(b) }

  function Earlier(a: Option<nat>, b: nat): Option<nat> { if a.Some? && a.value < b then a else Some(b) }

  /** The newest code sent after a moment. */
  function LastSent(challenges: seq<Challenge>, contributionId: Text, after: int): Option<nat>
  {
    if challenges == [] then None
    else
      var before, c := LastSent(challenges[..|challenges| - 1], contributionId, after), challenges[|challenges| - 1];
      if c.contributionId == contributionId && c.createdAt > after then Later(before, c.createdAt) else before
  }

  function FirstSent(challenges: seq<Challenge>, contributionId: Text, after: int): Option<nat>
  {
    if challenges == [] then None
    else
      var before, c := FirstSent(challenges[..|challenges| - 1], contributionId, after), challenges[|challenges| - 1];
      if c.contributionId == contributionId && c.createdAt > after then Earlier(before, c.createdAt) else before
  }

  function RecentCount(challenges: seq<Challenge>, contributionId: Text, after: int): nat
  {
    if challenges == [] then 0
    else
      var c := challenges[|challenges| - 1];
      RecentCount(challenges[..|challenges| - 1], contributionId, after) + (if c.contributionId == contributionId && c.createdAt > after then 1 else 0)
  }

  /** Ends the live codes of a contribution. */
  function Ended(challenges: seq<Challenge>, contributionId: Text, now: nat): seq<Challenge>
  {
    seq(|challenges|, i requires 0 <= i < |challenges| =>
      if challenges[i].contributionId == contributionId && challenges[i].consumedAt.None? then challenges[i].(consumedAt := Some(now))
      else challenges[i])
  }

  /** Why no code may be sent now, if so. */
  function SendRefusal(t: Tables, contributionId: Text, deliverable: bool, now: nat): Option<AccessError>
  {
    if contributionId !in t.contributions then Some(NoContribution)
    else if t.contributions[contributionId].contact.None? || !deliverable then Some(NoContact)
    else
      var since, last := now - OTP_SEND_WINDOW, LastSent(t.challenges, contributionId, now - OTP_SEND_WINDOW);
      if last.Some? && last.value > now - OTP_COOLDOWN then Some(Cooldown(last.value + OTP_COOLDOWN))
      else if RecentCount(t.challenges, contributionId, since) >= OTP_MAX_SENDS then
        var first := FirstSent(t.challenges, contributionId, since);
        Some(TooManyCodes((if first.Some? then first.value else now) + OTP_SEND_WINDOW))
      else None
  }

  /** Only the newest code for a contribution is live. */
  function Sent(t: Tables, contributionId: Text, code: Text, now: nat): Tables
  {
    t.(challenges := Ended(t.challenges, contributionId, now) +
       [Challenge(contributionId, code, 0, OTP_MAX_ATTEMPTS, now + OTP_TTL, None, now)])
  }

  function Consumed(t: Tables, id: nat, now: nat): Tables
    requires id < |t.challenges|
  {
    if t.challenges[id].consumedAt.None? then t.(challenges := t.challenges[id := t.challenges[id].(consumedAt := Some(now))]) else t
  }

  // ----- Verifying a code

  predicate IsCode(code: Text) { |code| == 6 && forall c | c in code :: 0x30 <= c <= 0x39 }

  /** A guess that reaches the comparison. */
  predicate Compares(t: Tables, id: nat, guess: Text, now: nat)
  {
    IsCode(guess) && id < |t.challenges| && t.challenges[id].consumedAt.None? && t.challenges[id].expiresAt > now &&
    t.challenges[id].attempts < t.challenges[id].maxAttempts
  }

  function Guessed(t: Tables, id: nat, guess: Text, now: nat): Tables
  {
    if !IsCode(guess) || id >= |t.challenges| || t.challenges[id].consumedAt.Some? then t
    else
      var c := t.challenges[id];
      if c.expiresAt <= now || c.attempts >= c.maxAttempts then Consumed(t, id, now)
      else if guess != c.code then
        var attempts := c.attempts + 1;
        var ended := if attempts >= c.maxAttempts then Some(now) else None;
        t.(challenges := t.challenges[id := c.(attempts := attempts, consumedAt := ended)])
      else
        Consumed(t, id, now).(sessions := t.sessions + [Session(c.contributionId, now + SESSION_TTL, None, now, now)])
  }

  function GuessResult(t: Tables, id: nat, guess: Text, now: nat): Result<nat, AccessError>
  {
    if !IsCode(guess) then Err(BadFormat)
    else if !Compares(t, id, guess, now) then Err(Spent)
    else if guess != t.challenges[id].code then Err(WrongCode(t.challenges[id].maxAttempts - t.challenges[id].attempts - 1))
    else Ok(|t.sessions|)
  }

  // ----- Sessions

  predicate Usable(t: Tables, id: nat, now: nat)
  {
    id < |t.sessions| && t.sessions[id].expiresAt > now && t.sessions[id].revokedAt.None?
  }

  function Opened(t: Tables, id: nat, now: nat): Tables
  {
    if Usable(t, id, now) then t.(sessions := t.sessions[id := t.sessions[id].(lastAccessedAt := now)]) else t
  }

  function Revoked(t: Tables, id: nat, now: nat): Tables
  {
    if id < |t.sessions| then t.(sessions := t.sessions[id := t.sessions[id].(revokedAt := Some(now))]) else t
  }

  function RevokedAll(sessions: seq<Session>, contributionId: Text, now: nat): seq<Session>
  {
    seq(|sessions|, i requires 0 <= i < |sessions| =>
      if sessions[i].contributionId == contributionId && sessions[i].revokedAt.None? then sessions[i].(revokedAt := Some(now)) else sessions[i])
  }

  // ----- Deciding a contact recovery

  function DecisionRefusal(t: Tables, id: nat, expectedVersion: int): Option<AccessError>
  {
    if id >= |t.recoveries| then Some(NoRecovery)
    else if t.recoveries[id].status != PendingDecision then Some(AlreadyDecided)
    else if t.recoveries[id].contributionId !in t.contributions then Some(NoContribution)
    else if t.contributions[t.recoveries[id].contributionId].version != expectedVersion then Some(VersionConflict)
    else None
  }

  /** An approval replaces the contact and ends every live code and session; a rejection only records itself. */
  function Decided(t: Tables, id: nat, approved: bool, now: nat): Tables
    requires id < |t.recoveries| && t.recoveries[id].contributionId in t.contributions
  {
    var q := t.recoveries[id];
    if approved then
      Tables(t.contributions[q.contributionId := Holder(Some(q.contact), t.contributions[q.contributionId].version + 1)],
             Ended(t.challenges, q.contributionId, now), RevokedAll(t.sessions, q.contributionId, now),
             t.recoveries[id := q.(status := Approved)])
    else t.(recoveries := t.recoveries[id := q.(status := Rejected)])
  }
}
