/**
 When a certificate transaction is reserved and what the reservation writes, said of the tables: what a
 scope owes counts every attempt whose bytes name it, tagged or not.
 */
module CertificateReservations {
  import opened Options
  import opened Sequences
  import opened Texts
  import opened CertificateReserve
  import opened CertificateBudgets

  predicate HasAttempt(attempts: seq<Attempt>, id: Text) { exists i | 0 <= i < |attempts| :: attempts[i].intentId == id }

  lemma {:induction false} SignedHasAttempt(attempts: seq<Attempt>, id: Text)
    ensures Signed(attempts, id) <==> HasAttempt(attempts, id)
    ensures Signed(attempts, id) ==> AttemptOf(attempts, id).value in attempts && AttemptOf(attempts, id).value.intentId == id
  {
    if attempts != [] {
      var front, last := attempts[..|attempts| - 1], attempts[|attempts| - 1];
      SignedHasAttempt(front, id);
      assert attempts == front + [last];
      if HasAttempt(attempts, id) {
        var i :| 0 <= i < |attempts| && attempts[i].intentId == id;
        assert i < |front| ==> front[i].intentId == id;
      }
      if HasAttempt(front, id) {
        var i :| 0 <= i < |front| && front[i].intentId == id;
        assert attempts[i].intentId == id;
      }
      assert last.intentId == id ==> attempts[|attempts| - 1].intentId == id;
    }
  }

  // ----- What a scope owes

  /** What an attempt costs a scope at most: as tagged, or as its bytes say. */
  function LiableTo(a: Attempt, scope: Text, decode: Decoder): nat
  {
    var told := if a.budget.Some? then a.budget else decode(a.bytes);
    if told.Some? && told.value.scope == scope then told.value.wei else 0
  }

  function Owed(attempts: seq<Attempt>, scope: Text, decode: Decoder): nat
  {
    if attempts == [] then 0 else Owed(attempts[..|attempts| - 1], scope, decode) + LiableTo(attempts[|attempts| - 1], scope, decode)
  }

  lemma {:induction false} OwedIsBookedAndLegacy(attempts: seq<Attempt>, scope: Text, decode: Decoder)
    ensures Owed(attempts, scope, decode) == BookedUnder(attempts, scope) + LegacyTotal(attempts, scope, decode)
  {
    if attempts != [] { OwedIsBookedAndLegacy(attempts[..|attempts| - 1], scope, decode); }
  }

  lemma {:induction false} TaggingOwesTheSame(attempts: seq<Attempt>, tagged: Text, decode: Decoder, scope: Text)
    ensures Owed(Tagged(attempts, tagged, decode), scope, decode) == Owed(attempts, scope, decode)
  {
    if attempts != [] {
      var n := |attempts| - 1;
      TaggingOwesTheSame(attempts[..n], tagged, decode, scope);
      assert Tagged(attempts, tagged, decode)[..n] == Tagged(attempts[..n], tagged, decode);
    }
  }

  lemma {:induction false} OwedSnoc(attempts: seq<Attempt>, a: Attempt, scope: Text, decode: Decoder)
    ensures Owed(attempts + [a], scope, decode) == Owed(attempts, scope, decode) + LiableTo(a, scope, decode)
  {
    assert (attempts + [a])[..|attempts|] == attempts;
  }

  // ----- When a reservation succeeds

  predicate Positive256(wei: nat) { 0 < wei < 0x1_0000_0000_0000_0000_0000_0000_0000_0000_0000_0000_0000_0000_0000_0000_0000_0000 }

  /** Nobody holds the successor slot but the caller, someone with nothing signed, or someone named as reclaimable. */
  predicate SlotIsOpen(t: Tables, q: Request)
  {
    q.successor.Some? && q.successor.value.key in t.claims ==>
      var holder := t.claims[q.successor.value.key];
      holder == q.intentId || !HasAttempt(t.attempts, holder) || holder in q.successor.value.reclaimable
  }

  /** The chain's next nonce, or the one after the last handed out when that is later. */
  function NonceToUse(t: Tables, q: Request): nat { Max(q.pendingNonce, NextNonce(t, q.deployment)) }

  /** Every untagged row can be read, what the scope owes leaves room, and the bytes can be signed. */
  predicate MayStore(t: Tables, q: Request, decode: Decoder)
  {
    SlotIsOpen(t, q) && (forall i | 0 <= i < |t.attempts| && t.attempts[i].budget.None? :: decode(t.attempts[i].bytes).Some?) &&
    Owed(t.attempts, q.policy.scope, decode) + q.policy.reservationWei <= q.policy.maxWei && q.build(NonceToUse(t, q)).Some?
  }

  lemma {:induction false} SlotIsOpenExactlyWhen(t: Tables, q: Request)
    ensures ClaimsAfter(t, q).Ok? <==> SlotIsOpen(t, q)
  {
    if q.successor.Some? && q.successor.value.key in t.claims { SignedHasAttempt(t.attempts, t.claims[q.successor.value.key]); }
  }

  /** With counters that add up, a request succeeds exactly when its intent is signed already or may be. */
  lemma {:induction false} ReservedExactlyWhen(t: Tables, q: Request, decode: Decoder)
    requires AddsUp(t)
    ensures Reserved(t, q, decode).Ok? <==>
      Positive256(q.policy.maxWei) && Positive256(q.policy.reservationWei) && (HasAttempt(t.attempts, q.intentId) || MayStore(t, q, decode))
    ensures Stores(t, q, decode) <==>
      Positive256(q.policy.maxWei) && Positive256(q.policy.reservationWei) && !HasAttempt(t.attempts, q.intentId) && MayStore(t, q, decode)
  {
    var started := WithBudgetRow(t, q.policy.scope);
    SignedHasAttempt(t.attempts, q.intentId);
    SlotIsOpenExactlyWhen(t, q);
    assert ClaimsAfter(started, q) == ClaimsAfter(t, q) && NonceFor(started, q) == NonceToUse(t, q);
    OwedIsBookedAndLegacy(t.attempts, q.policy.scope, decode);
    assert ReservedBefore(started, q, decode) == Owed(t.attempts, q.policy.scope, decode);
  }

  // ----- What it writes

  /** An older row keeps its bytes and nonce, and is tagged if its bytes name the scope. */
  predicate KeptOrTagged(before: Attempt, after: Attempt, scope: Text, decode: Decoder)
  {
    after.intentId == before.intentId && after.bytes == before.bytes && after.nonce == before.nonce &&
    (before.budget.Some? ==> after.budget == before.budget) &&
    (before.budget.None? ==>
      after.budget == if decode(before.bytes).Some? && decode(before.bytes).value.scope == scope then decode(before.bytes) else None)
  }

  predicate IsWritten(t: Tables, q: Request, end: Tables, decode: Decoder)
  {
    var n, nonce := |t.attempts|, NonceToUse(t, q);
    |end.attempts| == n + 1 && q.build(nonce).Some? &&
    end.attempts[n] == Attempt(q.intentId, q.build(nonce).value, nonce, Some(Liability(q.policy.scope, q.policy.reservationWei))) &&
    (forall i | 0 <= i < n :: KeptOrTagged(t.attempts[i], end.attempts[i], q.policy.scope, decode)) &&
    end.claims == (if q.successor.Some? then t.claims[q.successor.value.key := q.intentId] else t.claims) &&
    end.nextNonces == t.nextNonces[q.deployment := nonce + 1]
  }

  /** One attempt with the bytes signed for its nonce; the slot is the caller's, and the scope's counter is all it owes. */
  lemma {:induction false} StoredTells(t: Tables, q: Request, decode: Decoder)
    requires AddsUp(t) && Stores(t, q, decode)
    ensures IsWritten(t, q, After(t, q, decode), decode)
    ensures CounterOf(After(t, q, decode), q.policy.scope) == Owed(After(t, q, decode).attempts, q.policy.scope, decode)
    ensures CounterOf(After(t, q, decode), q.policy.scope) == Owed(t.attempts, q.policy.scope, decode) + q.policy.reservationWei
  {
    var end := After(t, q, decode);
    var a := StoredRows(t, q, decode);
    ReservedExactlyWhen(t, q, decode);
    OwedIsBookedAndLegacy(t.attempts, q.policy.scope, decode);
    TaggingOwesTheSame(t.attempts, q.policy.scope, decode, q.policy.scope);
    OwedSnoc(Tagged(t.attempts, q.policy.scope, decode), a, q.policy.scope, decode);
  }

  /** A request that stores nothing moves no attempt, slot or nonce, and no counter. */
  lemma {:induction false} OtherRequestsWriteNothing(t: Tables, q: Request, decode: Decoder)
    requires AddsUp(t) && (HasAttempt(t.attempts, q.intentId) || !MayStore(t, q, decode))
    ensures var end := After(t, q, decode);
      end.attempts == t.attempts && end.claims == t.claims && end.nextNonces == t.nextNonces && forall scope: Text :: CounterOf(end, scope) == CounterOf(t, scope)
  {
    ReservedExactlyWhen(t, q, decode);
    OtherwiseUnchanged(t, q, decode);
  }

  /** Each refusal names something that is so. */
  lemma {:induction false} ReserveRefusalIsSo(t: Tables, q: Request, decode: Decoder)
    requires AddsUp(t) && Reserved(t, q, decode).Err?
    ensures match Reserved(t, q, decode).error
      case BadPolicy => !Positive256(q.policy.maxWei) || !Positive256(q.policy.reservationWei)
      case SuccessorClaimed(holder) => !SlotIsOpen(t, q) && t.claims[q.successor.value.key] == holder
      case UnverifiableLegacy => exists i | 0 <= i < |t.attempts| :: t.attempts[i].budget.None? && decode(t.attempts[i].bytes).None?
      case OverBudget => Owed(t.attempts, q.policy.scope, decode) + q.policy.reservationWei > q.policy.maxWei
      case BuildFailed => q.build(NonceToUse(t, q)).None?
  {
    var started := WithBudgetRow(t, q.policy.scope);
    SlotIsOpenExactlyWhen(t, q);
    assert ClaimsAfter(started, q) == ClaimsAfter(t, q) && NonceFor(started, q) == NonceToUse(t, q);
    OwedIsBookedAndLegacy(t.attempts, q.policy.scope, decode);
    assert ReservedBefore(started, q, decode) == Owed(t.attempts, q.policy.scope, decode);
  }
}
