/**
 What every run of reservations keeps: each scope's stored counter is the sum of the liabilities
 tagged with it, never exceeds the ceiling and never falls; no intent is signed twice; the nonces of
 one deployment strictly increase.
 */
module CertificateBudgets {
  import opened Options
  import opened Texts
  import opened CertificateReserve

  /** The liabilities booked under a scope. */
  function BookedUnder(attempts: seq<Attempt>, scope: Text): nat
  {
    if attempts == [] then 0
    else
      var a := attempts[|attempts| - 1];
      BookedUnder(attempts[..|attempts| - 1], scope) + (if a.budget.Some? && a.budget.value.scope == scope then a.budget.value.wei else 0)
  }

  function CounterOf(t: Tables, scope: Text): nat { if scope in t.budgets then t.budgets[scope] else 0 }

  ghost predicate AddsUp(t: Tables)
  {
    forall scope: Text :: CounterOf(t, scope) == BookedUnder(t.attempts, scope)
  }

  predicate OneEach(attempts: seq<Attempt>)
  {
    forall i, j :: 0 <= i < j < |attempts| ==> attempts[i].intentId != attempts[j].intentId
  }

  // ----- Tagging

  lemma {:induction false} BookedSnoc(attempts: seq<Attempt>, a: Attempt, scope: Text)
    ensures BookedUnder(attempts + [a], scope) ==
      BookedUnder(attempts, scope) + (if a.budget.Some? && a.budget.value.scope == scope then a.budget.value.wei else 0)
  {
    assert (attempts + [a])[..|attempts|] == attempts;
  }

  lemma {:induction false} TaggedSnoc(attempts: seq<Attempt>, scope: Text, decode: Decoder)
    requires attempts != []
    ensures Tagged(attempts, scope, decode) ==
      Tagged(attempts[..|attempts| - 1], scope, decode) + [TaggedRow(attempts[|attempts| - 1], scope, decode)]
  {
  }

  /** Tagging books exactly the legacy liabilities of its own scope. */
  lemma {:induction false} TaggingBooks(attempts: seq<Attempt>, scope: Text, decode: Decoder, other: Text)
    ensures BookedUnder(Tagged(attempts, scope, decode), other) ==
      BookedUnder(attempts, other) + (if other == scope then LegacyTotal(attempts, scope, decode) else 0)
  {
    if attempts != [] {
      var front, a := attempts[..|attempts| - 1], attempts[|attempts| - 1];
      TaggingBooks(front, scope, decode, other);
      TaggedSnoc(attempts, scope, decode);
      BookedSnoc(Tagged(front, scope, decode), TaggedRow(a, scope, decode), other);
    }
  }

  // ----- One reservation

  /** The request stored new signed bytes. */
  predicate Stores(t: Tables, q: Request, decode: Decoder)
  {
    Reserved(t, q, decode).Ok? && !Signed(t.attempts, q.intentId)
  }

  function After(t: Tables, q: Request, decode: Decoder): Tables
  {
    match Reserved(t, q, decode)
    case Ok(after) => after
    case Err(_) => t
  }

  /** What a storing request leaves behind. */
  lemma {:induction false} StoredRows(t: Tables, q: Request, decode: Decoder) returns (a: Attempt)
    requires Stores(t, q, decode)
    ensures var end := After(t, q, decode);
      end.attempts == Tagged(t.attempts, q.policy.scope, decode) + [a] &&
      a.intentId == q.intentId && a.nonce == NonceFor(t, q) && a.budget == Some(Liability(q.policy.scope, q.policy.reservationWei)) &&
      end.nextNonces == t.nextNonces[q.deployment := NonceFor(t, q) + 1] && ClaimsAfter(t, q) == Ok(end.claims) &&
      q.policy.scope in end.budgets && end.budgets[q.policy.scope] <= q.policy.maxWei &&
      end.budgets[q.policy.scope] == CounterOf(t, q.policy.scope) + LegacyTotal(t.attempts, q.policy.scope, decode) + q.policy.reservationWei &&
      forall scope | scope != q.policy.scope :: CounterOf(end, scope) == CounterOf(t, scope)
  {
    var end := After(t, q, decode);
    a := end.attempts[|end.attempts| - 1];
  }

  lemma {:induction false} OtherwiseUnchanged(t: Tables, q: Request, decode: Decoder)
    requires !Stores(t, q, decode)
    ensures var end := After(t, q, decode);
      end.attempts == t.attempts && end.claims == t.claims && end.nextNonces == t.nextNonces &&
      forall scope :: CounterOf(end, scope) == CounterOf(t, scope)
  {
  }

  lemma {:induction false} StepAddsUp(t: Tables, q: Request, decode: Decoder)
    requires AddsUp(t)
    ensures AddsUp(After(t, q, decode))
  {
    var end := After(t, q, decode);
    if Stores(t, q, decode) {
      var a := StoredRows(t, q, decode);
      forall scope: Text ensures CounterOf(end, scope) == BookedUnder(end.attempts, scope) {
        TaggingBooks(t.attempts, q.policy.scope, decode, scope);
        BookedSnoc(Tagged(t.attempts, q.policy.scope, decode), a, scope);
      }
    } else {
      OtherwiseUnchanged(t, q, decode);
    }
  }

  // ----- Runs

  function Run(t: Tables, qs: seq<Request>, decode: Decoder): Tables
  {
    if qs == [] then t else After(Run(t, qs[..|qs| - 1], decode), qs[|qs| - 1], decode)
  }

  predicate WithinCeiling(t: Tables, ceiling: Text -> nat)
  {
    forall scope | scope in t.budgets :: t.budgets[scope] <= ceiling(scope)
  }

  lemma {:induction false} StepWithinCeiling(t: Tables, q: Request, decode: Decoder, ceiling: Text -> nat)
    requires WithinCeiling(t, ceiling) && q.policy.maxWei == ceiling(q.policy.scope)
    ensures WithinCeiling(After(t, q, decode), ceiling)
  {
    var end := After(t, q, decode);
    if Stores(t, q, decode) {
      var a := StoredRows(t, q, decode);
      forall scope | scope in end.budgets ensures end.budgets[scope] <= ceiling(scope) {
        if scope != q.policy.scope { assert CounterOf(end, scope) == CounterOf(t, scope); }
      }
    }
  }

  /** Under a fixed ceiling per scope, every counter equals the liabilities booked under it and stays within the ceiling. */
  lemma {:induction false} BudgetsStayExact(t: Tables, qs: seq<Request>, decode: Decoder, ceiling: Text -> nat)
    requires AddsUp(t) && WithinCeiling(t, ceiling)
    requires forall i | 0 <= i < |qs| :: qs[i].policy.maxWei == ceiling(qs[i].policy.scope)
    ensures AddsUp(Run(t, qs, decode)) && WithinCeiling(Run(t, qs, decode), ceiling)
  {
    if qs != [] {
      var front, q := qs[..|qs| - 1], qs[|qs| - 1];
      BudgetsStayExact(t, front, decode, ceiling);
      StepAddsUp(Run(t, front, decode), q, decode);
      StepWithinCeiling(Run(t, front, decode), q, decode, ceiling);
    }
  }

  lemma {:induction false} StepNeverFalls(t: Tables, q: Request, decode: Decoder, scope: Text)
    ensures CounterOf(t, scope) <= CounterOf(After(t, q, decode), scope)
  {
    if Stores(t, q, decode) {
      var a := StoredRows(t, q, decode);
      if scope != q.policy.scope { assert CounterOf(After(t, q, decode), scope) == CounterOf(t, scope); }
    } else {
      OtherwiseUnchanged(t, q, decode);
    }
  }

  /** No reservation is ever given back. */
  lemma {:induction false} BudgetNeverFalls(t: Tables, qs: seq<Request>, decode: Decoder, scope: Text)
    ensures CounterOf(t, scope) <= CounterOf(Run(t, qs, decode), scope)
  {
    if qs != [] {
      BudgetNeverFalls(t, qs[..|qs| - 1], decode, scope);
      StepNeverFalls(Run(t, qs[..|qs| - 1], decode), qs[|qs| - 1], decode, scope);
    }
  }

  // ----- One attempt for each intent

  lemma {:induction false} AttemptSnoc(attempts: seq<Attempt>, a: Attempt, id: Text)
    ensures AttemptOf(attempts + [a], id) == if a.intentId == id then Some(a) else AttemptOf(attempts, id)
  {
    assert (attempts + [a])[..|attempts|] == attempts;
  }

  /** Signed bytes and their nonce, once stored, stay. */
  predicate KeepsBytes(before: seq<Attempt>, after: seq<Attempt>, id: Text)
  {
    match AttemptOf(before, id)
    case None => true
    case Some(a) => Signed(after, id) && AttemptOf(after, id).value.bytes == a.bytes && AttemptOf(after, id).value.nonce == a.nonce
  }

  lemma {:induction false} TaggedAttempt(attempts: seq<Attempt>, scope: Text, decode: Decoder, id: Text)
    ensures Signed(Tagged(attempts, scope, decode), id) == Signed(attempts, id)
    ensures KeepsBytes(attempts, Tagged(attempts, scope, decode), id)
  {
    if attempts != [] {
      var front, a := attempts[..|attempts| - 1], attempts[|attempts| - 1];
      TaggedAttempt(front, scope, decode, id);
      TaggedSnoc(attempts, scope, decode);
      AttemptSnoc(Tagged(front, scope, decode), TaggedRow(a, scope, decode), id);
    }
  }

  lemma {:induction false} UnsignedIsAbsent(attempts: seq<Attempt>, id: Text, k: nat)
    requires !Signed(attempts, id) && k < |attempts|
    ensures attempts[k].intentId != id
  {
    if k < |attempts| - 1 { UnsignedIsAbsent(attempts[..|attempts| - 1], id, k); }
  }

  /** Signing one intent signs no other, and never replaces signed bytes. */
  lemma {:induction false} StepKeepsSigned(t: Tables, q: Request, decode: Decoder, id: Text)
    ensures Signed(After(t, q, decode).attempts, id) == (Signed(t.attempts, id) || (id == q.intentId && Stores(t, q, decode)))
    ensures KeepsBytes(t.attempts, After(t, q, decode).attempts, id)
  {
    if Stores(t, q, decode) {
      var a := StoredRows(t, q, decode);
      TaggedAttempt(t.attempts, q.policy.scope, decode, id);
      AttemptSnoc(Tagged(t.attempts, q.policy.scope, decode), a, id);
    } else {
      OtherwiseUnchanged(t, q, decode);
    }
  }

  lemma {:induction false} StepOneEach(t: Tables, q: Request, decode: Decoder)
    requires OneEach(t.attempts)
    ensures OneEach(After(t, q, decode).attempts)
  {
    if Stores(t, q, decode) {
      var a := StoredRows(t, q, decode);
      var tagged := Tagged(t.attempts, q.policy.scope, decode);
      forall k | 0 <= k < |tagged| ensures tagged[k].intentId != a.intentId {
        UnsignedIsAbsent(t.attempts, q.intentId, k);
      }
    } else {
      OtherwiseUnchanged(t, q, decode);
    }
  }

  /** An intent never gets a second attempt, and its signed bytes and nonce never change. */
  lemma {:induction false} SignedOnce(t: Tables, qs: seq<Request>, decode: Decoder, id: Text)
    requires OneEach(t.attempts)
    ensures OneEach(Run(t, qs, decode).attempts)
    ensures KeepsBytes(t.attempts, Run(t, qs, decode).attempts, id)
  {
    if qs != [] {
      SignedOnce(t, qs[..|qs| - 1], decode, id);
      StepKeepsSigned(Run(t, qs[..|qs| - 1], decode), qs[|qs| - 1], decode, id);
      StepOneEach(Run(t, qs[..|qs| - 1], decode), qs[|qs| - 1], decode);
    }
  }

  // ----- Nonces

  function NextNonce(t: Tables, deployment: Text): nat { if deployment in t.nextNonces then t.nextNonces[deployment] else 0 }

  lemma {:induction false} StepNonces(t: Tables, q: Request, decode: Decoder, deployment: Text)
    ensures NextNonce(t, deployment) <= NextNonce(After(t, q, decode), deployment)
    ensures Stores(t, q, decode) && q.deployment == deployment ==>
      NextNonce(t, deployment) <= NonceFor(t, q) < NextNonce(After(t, q, decode), deployment)
  {
    if Stores(t, q, decode) {
      var a := StoredRows(t, q, decode);
    } else {
      OtherwiseUnchanged(t, q, decode);
    }
  }

  lemma {:induction false} NoncesOnlyRise(t: Tables, qs: seq<Request>, decode: Decoder, k: nat, deployment: Text)
    requires k <= |qs|
    ensures NextNonce(Run(t, qs[..k], decode), deployment) <= NextNonce(Run(t, qs, decode), deployment)
  {
    if k == |qs| {
      assert qs[..k] == qs;
    } else {
      var front := qs[..|qs| - 1];
      NoncesOnlyRise(t, front, decode, k, deployment);
      assert front[..k] == qs[..k];
      StepNonces(Run(t, front, decode), qs[|qs| - 1], decode, deployment);
    }
  }

  /** Two attempts stored for one deployment carry strictly increasing nonces. */
  lemma {:induction false} NoncesIncrease(t: Tables, qs: seq<Request>, decode: Decoder, i: nat, j: nat)
    requires i < j < |qs| && qs[i].deployment == qs[j].deployment
    requires Stores(Run(t, qs[..i], decode), qs[i], decode) && Stores(Run(t, qs[..j], decode), qs[j], decode)
    ensures NonceFor(Run(t, qs[..i], decode), qs[i]) < NonceFor(Run(t, qs[..j], decode), qs[j])
  {
    var deployment := qs[i].deployment;
    StepNonces(Run(t, qs[..i], decode), qs[i], decode, deployment);
    assert qs[..i + 1][..i] == qs[..i];
    NoncesOnlyRise(t, qs[..j], decode, i + 1, deployment);
    assert qs[..j][..i + 1] == qs[..i + 1];
    StepNonces(Run(t, qs[..j], decode), qs[j], decode, deployment);
  }
}
