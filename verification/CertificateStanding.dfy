/**
 How a version of a certificate reads, by its successors, its source and the chain; and when the slot of
 a successor is open to another.
 */
module CertificateStanding {
  import opened Texts
  import opened CertificateReserve
  import opened CertificateReservations
  import opened CertificateLines
  import opened CertificateValidity

  // ----- One version of a reading

  predicate AnySuccessor(entries: seq<Entry>, version: nat, states: set<MintState>)
  {
    exists k | 0 <= k < |entries| :: entries[k].predecessor == version && entries[k].endorsed && entries[k].state in states
  }

  const FAILURES: set<MintState> := {Reverted, InvalidEvent}
  const IN_FLIGHT: set<MintState> := {Prepared, Submitted, Included, Noncanonical}

  lemma {:induction false} RankTells(e: Entry)
    ensures RankOf(e) == 0 <==> e.endorsed && e.state == Confirmed
    ensures RankOf(e) == 1 <==> e.endorsed && e.state in IN_FLIGHT
    ensures RankOf(e) == 3 <==> e.endorsed && e.state in FAILURES
    ensures RankOf(e) == 4 <==> !e.endorsed
    ensures RankOf(e) in {0, 1, 3, 4}
  {
  }

  /** The best rank among the signed successors, found where the best one stands. */
  lemma {:induction false} BestRankTells(entries: seq<Entry>, version: nat)
    ensures var best := BestSuccessor(entries, version);
      (best.None? || RankOf(best.value) == 4 <==>
        !AnySuccessor(entries, version, {Confirmed}) && !AnySuccessor(entries, version, IN_FLIGHT) && !AnySuccessor(entries, version, FAILURES)) &&
      (best.Some? ==>
        (RankOf(best.value) == 0 <==> AnySuccessor(entries, version, {Confirmed})) &&
        (RankOf(best.value) <= 1 <==> AnySuccessor(entries, version, {Confirmed}) || AnySuccessor(entries, version, IN_FLIGHT)))
  {
    var best := BestSuccessor(entries, version);
    BestIsACandidate(entries, version);
    if best.Some? {
      RankTells(best.value);
      var i :| 0 <= i < |entries| && entries[i] == best.value;
      forall k | 0 <= k < |entries| && entries[k].predecessor == version ensures RankOf(best.value) <= RankOf(entries[k]) {
        BestOutranks(entries, version, k);
      }
    }
    forall k | 0 <= k < |entries| && entries[k].predecessor == version ensures best.Some? { BestOutranks(entries, version, k); }
    forall k | 0 <= k < |entries|
      ensures RankOf(entries[k]) == 0 <==> entries[k].endorsed && entries[k].state == Confirmed
      ensures RankOf(entries[k]) == 1 <==> entries[k].endorsed && entries[k].state in IN_FLIGHT
      ensures RankOf(entries[k]) == 3 <==> entries[k].endorsed && entries[k].state in FAILURES
    {
      RankTells(entries[k]);
    }
  }

  /** What a version reads as: first by what became of its signed successors, then by its source, then by its own minting. */
  lemma {:induction false} DescribedAs(entries: seq<Entry>, e: Entry, disputed: bool, scope: SourceStatus)
    ensures Described(entries, e, disputed, scope) ==
      if disputed then ReplacementPending
      else if AnySuccessor(entries, e.version, {Confirmed}) then Superseded
      else if AnySuccessor(entries, e.version, IN_FLIGHT) then ReplacementPending
      else if AnySuccessor(entries, e.version, FAILURES) then ReplacementFailed
      else if scope == Disputed then SourceDisputed
      else if scope == Changed then SourceChanged
      else if e.state == Confirmed then Current
      else PendingConfirmation
  {
    var best := BestSuccessor(entries, e.version);
    BestRankTells(entries, e.version);
    if best.Some? { RankTells(best.value); }
  }

  // ----- Observations

  /** Without signed bytes a version is prepared; an observation is what is read until the next one. */
  lemma {:induction false} ObservationIsRead(s: Service, id: Text, state: MintState, decode: Decoder, other: Text)
    requires Enabled(s, Observe(id, state))
    ensures StateOf(Step(s, Observe(id, state), decode), id) == state
    ensures other != id ==> StateOf(Step(s, Observe(id, state), decode), other) == StateOf(s, other)
    ensures !HasAttempt(s.tables.attempts, other) <==> !Signed(s.tables.attempts, other)
    ensures !HasAttempt(s.tables.attempts, other) ==> StateOf(s, other) == Prepared
    ensures HasAttempt(s.tables.attempts, other) && other !in s.chain ==> StateOf(s, other) == Submitted
  {
    SignedHasAttempt(s.tables.attempts, other);
  }

  // ----- The slot

  /** Nobody holds it, or one who lost it: with nothing signed, unknown, or failed for good. */
  predicate GivesWay(s: Service, id: Text)
    requires id in s.intents
  {
    var intent := s.intents[id];
    var key := ClaimKey(intent.certificateId, intent.predecessor);
    intent.predecessor == 0 || key !in s.tables.claims ||
    var holder := s.tables.claims[key];
    holder == id || !HasAttempt(s.tables.attempts, holder) || holder !in s.intents || StateOf(s, holder) in FAILURES
  }

  /** A request made on a fresh look at the slot passes it exactly when its holder gives way. */
  lemma {:induction false} SlotOpensExactlyWhen(s: Service, id: Text, signing: Signing, decode: Decoder)
    requires Enabled(s, CheckSend(id))
    ensures var t := Step(s, CheckSend(id), decode);
      exists check | check in t.checks :: check.intentId == id && t.checks == s.checks + {check} && check.intentId in t.intents &&
        (SlotIsOpen(t.tables, RequestOf(t, check, signing)) <==> GivesWay(s, id))
  {
    var t := Step(s, CheckSend(id), decode);
    var check := Check(id, ReclaimableFor(s, id));
    assert check in t.checks;
    assert KeyOf(s.intents[id]) == ClaimKey(s.intents[id].certificateId, s.intents[id].predecessor);
    if s.intents[id].predecessor != 0 && KeyOf(s.intents[id]) in s.tables.claims {
      assert Failed(StateOf(s, s.tables.claims[KeyOf(s.intents[id])])) <==> StateOf(s, s.tables.claims[KeyOf(s.intents[id])]) in FAILURES;
    }
    assert SlotIsOpen(t.tables, RequestOf(t, check, signing)) <==> GivesWay(s, id);
  }
}
