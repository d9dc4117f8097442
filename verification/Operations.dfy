/**
 Retried requests. A request that carries an operation id runs at most once: its result is stored with
 the change itself, a retry gets that result back, and a failure leaves neither behind.
 */
module Operations {
  import opened Options
  import opened Texts

  datatype Key = Key(account: Text, operationId: Text)

  datatype Operation = Operation(key: Key, requestHash: Text)

  datatype Done<R> = Done(requestHash: Text, result: R)

  datatype State<S, R> = State(store: S, operations: map<Key, Done<R>>)

  /** `mutate` computes the change and its result, or refuses. */
  datatype Request<!S, R, E> = Request(operation: Option<Operation>, mutate: S -> Result<(S, R), E>)

  function Fresh<S, R>(store: S): State<S, R> { State(store, map[]) }

  datatype Failure<E> = Conflict | Refused(error: E)

  function Performed<S, R, E>(s: State<S, R>, q: Request<S, R, E>): (State<S, R>, Result<R, Failure<E>>)
  {
    if q.operation.Some? && q.operation.value.key in s.operations then
      var done := s.operations[q.operation.value.key];
      (s, if done.requestHash == q.operation.value.requestHash then Ok(done.result) else Err(Conflict))
    else
      match q.mutate(s.store)
      case Err(e) => (s, Err(Refused(e)))
      case Ok((store, result)) =>
        var operations :=
          if q.operation.Some? then s.operations[q.operation.value.key := Done(q.operation.value.requestHash, result)] else s.operations;
        (State(store, operations), Ok(result))
  }

  class OperationStore<S, R> {
    var store: S
    var operations: map<Key, Done<R>>

    constructor (store: S)
      ensures Snapshot() == State(store, map[])
    {
      this.store := store;
      operations := map[];
    }

    function Snapshot(): State<S, R>
      reads this
    {
      State(store, operations)
    }

    /** Runs a change once for its operation id, in one transaction. */
    method MutateOnce<E>(q: Request<S, R, E>) returns (outcome: Result<R, Failure<E>>)
      modifies this
      ensures (Snapshot(), outcome) == Performed(old(Snapshot()), q)
    {
      if q.operation.Some? && q.operation.value.key in operations {
        var previous := operations[q.operation.value.key];
        if previous.requestHash != q.operation.value.requestHash { return Err(Conflict); }
        return Ok(previous.result);
      }
      match q.mutate(store) {
        case Err(e) => return Err(Refused(e));
        case Ok((changed, result)) =>
          store := changed;
          if q.operation.Some? { operations := operations[q.operation.value.key := Done(q.operation.value.requestHash, result)]; }
          return Ok(result);
      }
    }
  }

  // ----- Runs

  function Run<S, R, E>(s: State<S, R>, qs: seq<Request<S, R, E>>): State<S, R>
  {
    if qs == [] then s else Performed(Run(s, qs[..|qs| - 1]), qs[|qs| - 1]).0
  }

  /** Applies changes one after the other, with no bookkeeping; refused ones are skipped. */
  function Plain<S, R, E>(store: S, qs: seq<Request<S, R, E>>): S
  {
    if qs == [] then store
    else
      var before := Plain(store, qs[..|qs| - 1]);
      match qs[|qs| - 1].mutate(before)
      case Ok((after, _)) => after
      case Err(_) => before
  }

  predicate Under<S, R, E>(q: Request<S, R, E>, k: Key) { q.operation.Some? && q.operation.value.key == k }

  predicate AnyUnder<S, R, E>(qs: seq<Request<S, R, E>>, k: Key)
  {
    exists i | 0 <= i < |qs| :: Under(qs[i], k)
  }

  predicate Repeats<S, R, E>(earlier: seq<Request<S, R, E>>, q: Request<S, R, E>)
  {
    q.operation.Some? && AnyUnder(earlier, q.operation.value.key)
  }

  /** The requests that count: each the first of its operation to succeed on the store the earlier ones leave. */
  function FirstSuccesses<S, R, E>(store: S, qs: seq<Request<S, R, E>>): seq<Request<S, R, E>>
  {
    if qs == [] then []
    else
      var earlier, q := FirstSuccesses(store, qs[..|qs| - 1]), qs[|qs| - 1];
      if !Repeats(earlier, q) && q.mutate(Plain(store, earlier)).Ok? then earlier + [q] else earlier
  }

  /** The operation table names exactly the operations among the requests that counted. */
  ghost predicate Names<S, R, E>(operations: map<Key, Done<R>>, counted: seq<Request<S, R, E>>)
  {
    forall k: Key :: k in operations <==> AnyUnder(counted, k)
  }

  lemma {:induction false} NamesSnoc<S, R, E>(operations: map<Key, Done<R>>, counted: seq<Request<S, R, E>>, q: Request<S, R, E>, result: R)
    requires Names(operations, counted)
    ensures q.operation.None? ==> Names(operations, counted + [q])
    ensures q.operation.Some? ==> Names(operations[q.operation.value.key := Done(q.operation.value.requestHash, result)], counted + [q])
  {
    forall k: Key ensures AnyUnder(counted + [q], k) <==> AnyUnder(counted, k) || Under(q, k) { UnderSnoc(counted, q, k); }
  }

  lemma {:induction false} UnderSnoc<S, R, E>(qs: seq<Request<S, R, E>>, q: Request<S, R, E>, k: Key)
    ensures AnyUnder(qs + [q], k) <==> AnyUnder(qs, k) || Under(q, k)
  {
    var all := qs + [q];
    assert all[|qs|] == q;
    if AnyUnder(qs, k) {
      var i :| 0 <= i < |qs| && Under(qs[i], k);
      assert all[i] == qs[i];
    }
  }

  /** Whatever is retried and whatever fails, the store ends as the first successes alone would leave it. */
  lemma {:induction false} OnlyFirstSuccessesCount<S, R, E>(store: S, qs: seq<Request<S, R, E>>)
    ensures Run(Fresh<S, R>(store), qs).store == Plain(store, FirstSuccesses(store, qs))
    ensures Names(Run(Fresh<S, R>(store), qs).operations, FirstSuccesses(store, qs))
  {
    if qs != [] {
      var front, q := qs[..|qs| - 1], qs[|qs| - 1];
      OnlyFirstSuccessesCount(store, front);
      var before, counted := Run(Fresh<S, R>(store), front), FirstSuccesses(store, front);
      if !Repeats(counted, q) && q.mutate(before.store).Ok? {
        NamesSnoc(before.operations, counted, q, q.mutate(before.store).value.1);
      }
    }
  }

  predicate NoneTwice<S, R, E>(counted: seq<Request<S, R, E>>)
  {
    forall i, j :: 0 <= i < j < |counted| && counted[j].operation.Some? ==> !Under(counted[i], counted[j].operation.value.key)
  }

  /** No operation counts twice. */
  lemma {:induction false} CountedOnce<S, R, E>(store: S, qs: seq<Request<S, R, E>>)
    ensures NoneTwice(FirstSuccesses(store, qs))
  {
    if qs != [] {
      CountedOnce(store, qs[..|qs| - 1]);
      var counted, q := FirstSuccesses(store, qs[..|qs| - 1]), qs[|qs| - 1];
    }
  }

  /** A request that repeats no operation runs: a success stores what it made, and its result under its own id alone; a failure changes nothing. */
  lemma {:induction false} FirstAttemptTells<S, R, E>(s: State<S, R>, q: Request<S, R, E>)
    requires q.operation.Some? ==> q.operation.value.key !in s.operations
    ensures Performed(s, q).1.Ok? <==> q.mutate(s.store).Ok?
    ensures q.mutate(s.store).Ok? ==>
      var end, result := Performed(s, q).0, Performed(s, q).1.value;
      q.mutate(s.store) == Ok((end.store, result)) &&
      (q.operation.None? ==> end.operations == s.operations) &&
      (q.operation.Some? ==>
         q.operation.value.key in end.operations && end.operations[q.operation.value.key] == Done(q.operation.value.requestHash, result) &&
         end.operations - {q.operation.value.key} == s.operations)
    ensures q.mutate(s.store).Err? ==> Performed(s, q) == (s, Err(Refused(q.mutate(s.store).error)))
  {
  }

  // ----- Retries

  lemma {:induction false} StaysDone<S, R, E>(s: State<S, R>, qs: seq<Request<S, R, E>>, k: Key)
    requires k in s.operations
    ensures k in Run(s, qs).operations && Run(s, qs).operations[k] == s.operations[k]
  {
    if qs != [] { StaysDone(s, qs[..|qs| - 1], k); }
  }

  /** Once an operation succeeded, every later request under its id gets the first result, or a conflict if it asks for something else; the store does not move. */
  lemma {:induction false} RetriesGetFirstResult<S, R, E>(s: State<S, R>, q: Request<S, R, E>, between: seq<Request<S, R, E>>, retry: Request<S, R, E>)
    requires Performed(s, q).1.Ok? && q.operation.Some? && retry.operation.Some? && retry.operation.value.key == q.operation.value.key
    ensures var s' := Run(Performed(s, q).0, between);
      Performed(s', retry) ==
        (s', if retry.operation.value.requestHash == q.operation.value.requestHash then Ok(Performed(s, q).1.value) else Err(Conflict))
  {
    StaysDone(Performed(s, q).0, between, q.operation.value.key);
  }

  lemma {:induction false} RunsCompose<S, R, E>(s: State<S, R>, xs: seq<Request<S, R, E>>, ys: seq<Request<S, R, E>>)
    ensures Run(s, xs + ys) == Run(Run(s, xs), ys)
  {
    if ys == [] {
      assert xs + ys == xs;
    } else {
      var front := ys[..|ys| - 1];
      RunsCompose(s, xs, front);
      assert (xs + ys)[..|xs + ys| - 1] == xs + front;
    }
  }

  /** A failed attempt leaves no trace. */
  lemma {:induction false} FailuresLeaveNoTrace<S, R, E>(s: State<S, R>, qs: seq<Request<S, R, E>>, q: Request<S, R, E>, more: seq<Request<S, R, E>>)
    requires Performed(Run(s, qs), q).1.Err?
    ensures Run(s, qs + [q] + more) == Run(s, qs + more)
  {
    RunsCompose(s, qs + [q], more);
    RunsCompose(s, qs, more);
  }
}
