/** The certificate tables as the service keeps them; reserving is one transaction over all four. */
module CertificateStore {
  import opened Options
  import opened Texts
  import opened CertificateReserve

  class CertificateTables {
    var budgets: map<Text, nat>
    var attempts: seq<Attempt>
    var claims: map<ClaimKey, Text>
    var nextNonces: map<Text, nat>

    constructor ()
      ensures Snapshot() == Tables(map[], [], map[], map[])
    {
      budgets, attempts, claims, nextNonces := map[], [], map[], map[];
    }

    function Snapshot(): Tables
      reads this
    {
      Tables(budgets, attempts, claims, nextNonces)
    }

    method FindAttempt(intentId: Text) returns (found: Option<Attempt>)
      ensures found == AttemptOf(attempts, intentId)
    {
      var i := |attempts|;
      assert attempts[..i] == attempts;
      while i > 0
        invariant 0 <= i <= |attempts|
        invariant AttemptOf(attempts[..i], intentId) == AttemptOf(attempts, intentId)
      {
        i := i - 1;
        assert attempts[..i + 1][..i] == attempts[..i];
        if attempts[i].intentId == intentId { return Some(attempts[i]); }
      }
      return None;
    }

    /** Claims the predecessor's slot, or says who holds it. */
    method Claim(intentId: Text, claim: SuccessorClaim) returns (refusal: Option<ReserveError>)
      modifies this`claims
      ensures match ClaimedFor(old(Snapshot()), intentId, claim)
        case Ok(claimed) => refusal == None && claims == claimed
        case Err(e) => refusal == Some(e) && claims == old(claims)
    {
      if claim.key !in claims {
        claims := claims[claim.key := intentId];
      } else {
        var holder := claims[claim.key];
        if holder != intentId {
          var signed := FindAttempt(holder);
          if signed.Some? && holder !in claim.reclaimable { return Some(SuccessorClaimed(holder)); }
          claims := claims[claim.key := intentId];
        } else {
          assert claims[claim.key := intentId] == claims;
        }
      }
      return None;
    }

    /** Books the older rows of a scope at their full liability, unless one of any scope cannot be verified. */
    method TagLegacy(scope: Text, decode: Decoder) returns (total: nat, verified: bool)
      modifies this`attempts
      ensures verified == AllVerifiable(old(attempts), decode)
      ensures verified ==> attempts == Tagged(old(attempts), scope, decode) && total == LegacyTotal(old(attempts), scope, decode)
    {
      total := 0;
      var before := attempts;
      for i := 0 to |before|
        invariant |attempts| == |before| && AllVerifiable(before[..i], decode)
        invariant total == LegacyTotal(before[..i], scope, decode)
        invariant forall k | 0 <= k < i :: attempts[k] == TaggedRow(before[k], scope, decode)
        invariant forall k | i <= k < |before| :: attempts[k] == before[k]
      {
        assert before[..i + 1][..i] == before[..i];
        if before[i].budget.None? {
          var liability := decode(before[i].bytes);
          if liability.None? { return 0, false; }
          if liability.value.scope == scope {
            attempts := attempts[i := before[i].(budget := liability)];
            total := total + liability.value.wei;
          }
        }
      }
      assert before[..|before|] == before;
      return total, true;
    }

    /** The part of a reservation that claims, books and signs. */
    method ReserveNew(q: Request, decode: Decoder) returns (outcome: Result<Attempt, ReserveError>)
      requires q.policy.scope in budgets && !Signed(attempts, q.intentId)
      modifies this
      ensures match NewlyReserved(old(Snapshot()), q, decode)
        case Ok(t) => outcome.Ok? && Snapshot() == t && attempts != [] && attempts[|attempts| - 1] == outcome.value
        case Err(e) => outcome == Err(e)
    {
      if q.successor.Some? {
        var refusal := Claim(q.intentId, q.successor.value);
        if refusal.Some? { return Err(refusal.value); }
      }
      var legacy, verified := TagLegacy(q.policy.scope, decode);
      if !verified { return Err(UnverifiableLegacy); }
      var reserved := budgets[q.policy.scope] + legacy;
      if reserved + q.policy.reservationWei > q.policy.maxWei { return Err(OverBudget); }
      budgets := budgets[q.policy.scope := reserved + q.policy.reservationWei];
      var nonce := q.pendingNonce;
      if q.deployment in nextNonces && nextNonces[q.deployment] > nonce { nonce := nextNonces[q.deployment]; }
      var bytes := q.build(nonce);
      if bytes.None? { return Err(BuildFailed); }
      var attempt := Attempt(q.intentId, bytes.value, nonce, Some(Liability(q.policy.scope, q.policy.reservationWei)));
      attempts := attempts + [attempt];
      nextNonces := nextNonces[q.deployment := nonce + 1];
      return Ok(attempt);
    }

    method Reserve(q: Request, decode: Decoder) returns (outcome: Result<Attempt, ReserveError>)
      modifies this
      ensures match Reserved(old(Snapshot()), q, decode)
        case Ok(t) => outcome.Ok? && Snapshot() == t && AttemptOf(attempts, q.intentId) == Some(outcome.value)
        case Err(e) => outcome == Err(e) && Snapshot() == old(Snapshot())
    {
      if !PositiveBudget(q.policy.maxWei) || !PositiveBudget(q.policy.reservationWei) { return Err(BadPolicy); }
      var before := Snapshot();
      if q.policy.scope !in budgets { budgets := budgets[q.policy.scope := 0]; }
      var existing := FindAttempt(q.intentId);
      if existing.Some? { return Ok(existing.value); }
      outcome := ReserveNew(q, decode);
      if outcome.Err? { RollBack(before); }
    }

    /** A transaction that throws leaves no trace. */
    method RollBack(before: Tables)
      modifies this
      ensures Snapshot() == before
    {
      budgets, attempts, claims, nextNonces := before.budgets, before.attempts, before.claims, before.nextNonces;
    }
  }
}
