/**
 The life of a certificate line: versions are prepared, corrections planned and created, endorsements
 checked and then signed in one reservation, and the chain reports what became of them. Any number
 of requests interleave between these steps. With terminal chain observations stable, every
 predecessor has at most one signed successor that has not failed.
 */
module CertificateLines {
  import opened Options
  import opened Texts
  import opened Digits
  import opened CertificateReserve
  import opened CertificateBudgets

  datatype MintState = Prepared | Submitted | Included | Confirmed | Reverted | InvalidEvent | Noncanonical

  predicate Failed(state: MintState) { state == Reverted || state == InvalidEvent }

  /** What a canonical block has settled for good. */
  predicate Terminal(state: MintState) { state == Confirmed || Failed(state) }

  /** One version of a line; version 1 has no predecessor, which is written 0. */
  datatype Intent = Intent(certificateId: Text, version: nat, predecessor: nat)

  const AT: CodeUnit := 0x40

  /** Version 1 keeps the bare certificate id; a successor is `<id>@<version>`. */
  function IntentIdOf(certificateId: Text, version: nat): Text
  {
    if version == 1 then certificateId else certificateId + [AT] + DigitsOf(version)
  }

  lemma {:induction false} SplitAtSign(c: Text, d: Text, x: Text, y: Text)
    requires AT !in c && AT !in d && c + [AT] + x == d + [AT] + y
    ensures c == d && x == y
  {
    var s := c + [AT] + x;
    assert s[|c|] == AT && s[|d|] == AT;
    assert forall i | 0 <= i < |c| :: s[i] == c[i] && c[i] in c;
    assert forall i | 0 <= i < |d| :: s[i] == d[i] && d[i] in d;
    assert s[..|c|] == c && s[..|d|] == d && s[|c| + 1..] == x && s[|d| + 1..] == y;
  }

  /** With certificate ids free of the separator, intent ids name one version of one line. */
  lemma {:induction false} IntentIdIsUnique(c: Text, v: nat, d: Text, w: nat)
    requires AT !in c && AT !in d && IntentIdOf(c, v) == IntentIdOf(d, w)
    ensures c == d && v == w
  {
    if v != 1 { assert IntentIdOf(c, v)[|c|] == AT; }
    if w != 1 { assert IntentIdOf(d, w)[|d|] == AT; }
    if v != 1 && w != 1 {
      SplitAtSign(c, d, DigitsOf(v), DigitsOf(w));
      ToNatOfDigits(v);
      ToNatOfDigits(w);
    }
  }

  // ----- States and steps

  /** A successor slot looked up before a reservation, and a correction reviewed before it is created. */
  datatype Check = Check(intentId: Text, reclaimable: set<Text>)

  datatype Plan = Plan(certificateId: Text, version: nat, predecessor: nat)

  datatype Service = Service(tables: Tables, intents: map<Text, Intent>, chain: map<Text, MintState>, checks: set<Check>, plans: set<Plan>)

  /** What a status request reads: without signed bytes, the stored preparation; otherwise the chain. */
  function StateOf(s: Service, id: Text): MintState
  {
    if !Signed(s.tables.attempts, id) then Prepared
    else if id in s.chain then s.chain[id]
    else Submitted
  }

  datatype Signing = Signing(deployment: Text, pendingNonce: nat, policy: Policy, build: nat -> Option<SignedBytes>)

  datatype Action =
    | Prepare(certificateId: Text)
    | PlanCorrection(plan: Plan)
    | CreateCorrection(plan: Plan)
    | CheckSend(intentId: Text)
    | Reserve(check: Check, signing: Signing)
    | Observe(intentId: Text, state: MintState)

  function KeyOf(intent: Intent): ClaimKey { ClaimKey(intent.certificateId, intent.predecessor) }

  /** A holder that failed for good, or of which nothing is known, gives the slot up. */
  function ReclaimableFor(s: Service, id: Text): set<Text>
    requires id in s.intents
  {
    var key := KeyOf(s.intents[id]);
    if s.intents[id].predecessor == 0 || key !in s.tables.claims || s.tables.claims[key] == id then {}
    else
      var holder := s.tables.claims[key];
      if holder !in s.intents || Failed(StateOf(s, holder)) then {holder} else {}
  }

  function RequestOf(s: Service, check: Check, signing: Signing): Request
    requires check.intentId in s.intents
  {
    var intent := s.intents[check.intentId];
    Request(check.intentId, signing.deployment, signing.pendingNonce, signing.policy, signing.build,
            if intent.predecessor == 0 then None else Some(SuccessorClaim(KeyOf(intent), check.reclaimable)))
  }

  /**
   When a step may happen. A correction may be planned on a confirmed head only; its version number
   comes from a reading of the line that other requests may have overtaken, so any later number is
   allowed. The reading also looks for live successors; it may be overtaken too, so nothing here
   relies on it.
   */
  predicate Enabled(s: Service, a: Action)
  {
    match a
    case Prepare(certificateId) => AT !in certificateId && certificateId != []
    case PlanCorrection(plan) =>
      AT !in plan.certificateId && 0 < plan.predecessor < plan.version &&
      IntentIdOf(plan.certificateId, plan.predecessor) in s.intents &&
      StateOf(s, IntentIdOf(plan.certificateId, plan.predecessor)) == Confirmed
    case CreateCorrection(plan) => plan in s.plans
    case CheckSend(id) => id in s.intents && !Signed(s.tables.attempts, id)
    case Reserve(check, _) => check in s.checks && check.intentId in s.intents
    case Observe(id, state) => Signed(s.tables.attempts, id) && (Terminal(StateOf(s, id)) ==> state == StateOf(s, id))
  }

  /** A preparation that meets an existing version leaves it as it is. */
  function Created(intents: map<Text, Intent>, intent: Intent): map<Text, Intent>
  {
    var id := IntentIdOf(intent.certificateId, intent.version);
    if id in intents then intents else intents[id := intent]
  }

  function Step(s: Service, a: Action, decode: Decoder): Service
    requires Enabled(s, a)
  {
    match a
    case Prepare(certificateId) => s.(intents := Created(s.intents, Intent(certificateId, 1, 0)))
    case PlanCorrection(plan) => s.(plans := s.plans + {plan})
    case CreateCorrection(plan) => s.(intents := Created(s.intents, Intent(plan.certificateId, plan.version, plan.predecessor)))
    case CheckSend(id) => s.(checks := s.checks + {Check(id, ReclaimableFor(s, id))})
    case Reserve(check, signing) => s.(tables := After(s.tables, RequestOf(s, check, signing), decode))
    case Observe(id, state) => s.(chain := s.chain[id := state])
  }

  // ----- What every step keeps

  /** Version `predecessor` of the line is on record and confirmed. */
  predicate HasConfirmed(s: Service, certificateId: Text, predecessor: nat)
  {
    IntentIdOf(certificateId, predecessor) in s.intents && StateOf(s, IntentIdOf(certificateId, predecessor)) == Confirmed
  }

  predicate GoodIntent(s: Service, id: Text)
    requires id in s.intents
  {
    var i := s.intents[id];
    AT !in i.certificateId && id == IntentIdOf(i.certificateId, i.version) &&
    if i.predecessor == 0 then i.version == 1
    else i.predecessor < i.version && HasConfirmed(s, i.certificateId, i.predecessor)
  }

  predicate GoodPlan(s: Service, p: Plan)
  {
    AT !in p.certificateId && 0 < p.predecessor < p.version && HasConfirmed(s, p.certificateId, p.predecessor)
  }

  /** Signed bytes belong to an intent, and a signed successor holds its slot unless it failed. */
  predicate GoodAttempt(s: Service, id: Text)
  {
    Signed(s.tables.attempts, id) ==>
      id in s.intents &&
      (s.intents[id].predecessor != 0 && !Failed(StateOf(s, id)) ==> HoldsSlot(s, id))
  }

  predicate HoldsSlot(s: Service, id: Text)
    requires id in s.intents
  {
    KeyOf(s.intents[id]) in s.tables.claims && s.tables.claims[KeyOf(s.intents[id])] == id
  }

  predicate GoodCheck(s: Service, c: Check)
  {
    forall r | r in c.reclaimable :: Signed(s.tables.attempts, r) && Failed(StateOf(s, r))
  }

  ghost predicate Inv(s: Service)
  {
    (forall id | id in s.intents :: GoodIntent(s, id)) &&
    (forall p | p in s.plans :: GoodPlan(s, p)) &&
    (forall id: Text :: GoodAttempt(s, id)) &&
    (forall k | k in s.tables.claims :: s.tables.claims[k] in s.intents) &&
    (forall c | c in s.checks :: GoodCheck(s, c)) &&
    (forall id | id in s.chain :: Signed(s.tables.attempts, id))
  }

  /** What is settled stays settled, and no version disappears. */
  ghost predicate Later(s: Service, t: Service)
  {
    (forall id | id in s.intents :: id in t.intents && t.intents[id] == s.intents[id]) &&
    (forall id: Text :: Signed(s.tables.attempts, id) ==> Signed(t.tables.attempts, id)) &&
    (forall id: Text :: Terminal(StateOf(s, id)) ==> StateOf(t, id) == StateOf(s, id))
  }

  /** What a reservation may do to the tables: sign its own intent, and then move the slot to it. */
  ghost predicate Outcome(before: Tables, q: Request, end: Tables, stored: bool)
  {
    (forall id: Text :: Signed(end.attempts, id) == (Signed(before.attempts, id) || (stored && id == q.intentId))) &&
    (stored ==> !Signed(before.attempts, q.intentId)) &&
    (if stored then ClaimsAfter(before, q) == Ok(end.claims) else end.claims == before.claims)
  }

  lemma {:induction false} ReserveOutcome(before: Tables, q: Request, decode: Decoder) returns (end: Tables, stored: bool)
    ensures end == After(before, q, decode) && Outcome(before, q, end, stored)
  {
    end, stored := After(before, q, decode), Stores(before, q, decode);
    forall id: Text ensures Signed(end.attempts, id) == (Signed(before.attempts, id) || (stored && id == q.intentId)) {
      StepKeepsSigned(before, q, decode, id);
    }
    if stored {
      var a := StoredRows(before, q, decode);
    } else {
      OtherwiseUnchanged(before, q, decode);
    }
  }

  lemma {:induction false} OutcomeKeepsStates(s: Service, q: Request, end: Tables, stored: bool, id: Text)
    requires Outcome(s.tables, q, end, stored) && forall i | i in s.chain :: Signed(s.tables.attempts, i)
    ensures var t := s.(tables := end);
      StateOf(t, id) == StateOf(s, id) || (StateOf(s, id) == Prepared && StateOf(t, id) == Submitted)
  {
  }

  lemma {:induction false} OutcomeIsLater(s: Service, q: Request, end: Tables, stored: bool)
    requires Outcome(s.tables, q, end, stored) && forall i | i in s.chain :: Signed(s.tables.attempts, i)
    ensures Later(s, s.(tables := end))
  {
    var t := s.(tables := end);
    forall id: Text ensures Terminal(StateOf(s, id)) ==> StateOf(t, id) == StateOf(s, id) {
      OutcomeKeepsStates(s, q, end, stored, id);
    }
  }

  lemma {:induction false} ObserveIsLater(s: Service, id: Text, state: MintState)
    requires Enabled(s, Observe(id, state))
    ensures Later(s, s.(chain := s.chain[id := state]))
  {
  }

  lemma {:induction false} MoreIntentsIsLater(s: Service, t: Service)
    requires t.tables == s.tables && t.chain == s.chain
    requires forall id | id in s.intents :: id in t.intents && t.intents[id] == s.intents[id]
    ensures Later(s, t)
  {
    forall id: Text ensures StateOf(t, id) == StateOf(s, id) {
    }
  }

  lemma {:induction false} StepIsLater(s: Service, a: Action, decode: Decoder)
    requires Inv(s) && Enabled(s, a)
    ensures Later(s, Step(s, a, decode))
  {
    match a
    case Reserve(check, signing) =>
      var q := RequestOf(s, check, signing);
      var end, stored := ReserveOutcome(s.tables, q, decode);
      OutcomeIsLater(s, q, end, stored);
    case Observe(id, state) => ObserveIsLater(s, id, state);
    case _ => MoreIntentsIsLater(s, Step(s, a, decode));
  }

  lemma {:induction false} LaterKeepsConfirmed(s: Service, t: Service, certificateId: Text, predecessor: nat)
    requires Later(s, t) && HasConfirmed(s, certificateId, predecessor)
    ensures HasConfirmed(t, certificateId, predecessor)
  {
  }

  /** Intents, plans and checks that were good stay good. */
  lemma {:induction false} LaterKeepsGood(s: Service, t: Service)
    requires Inv(s) && Later(s, t)
    ensures forall id | id in s.intents :: GoodIntent(t, id)
    ensures forall p | p in s.plans :: GoodPlan(t, p)
    ensures forall c | c in s.checks :: GoodCheck(t, c)
  {
    forall id | id in s.intents ensures GoodIntent(t, id) {
      assert GoodIntent(s, id);
      if s.intents[id].predecessor != 0 { LaterKeepsConfirmed(s, t, s.intents[id].certificateId, s.intents[id].predecessor); }
    }
    forall p | p in s.plans ensures GoodPlan(t, p) {
      assert GoodPlan(s, p);
      LaterKeepsConfirmed(s, t, p.certificateId, p.predecessor);
    }
    forall c | c in s.checks ensures GoodCheck(t, c) { assert GoodCheck(s, c); }
  }

  /** Creating versions, plans and checks, and observing, sign nothing and move no slot. */
  lemma {:induction false} QuietKeepsAttempts(s: Service, t: Service, id: Text)
    requires GoodAttempt(s, id) && Later(s, t) && t.tables == s.tables
    ensures GoodAttempt(t, id)
  {
  }

  /** A reclaimable holder is a signed one that failed. */
  lemma {:induction false} CheckIsGood(s: Service, id: Text)
    requires Inv(s) && id in s.intents
    ensures GoodCheck(s, Check(id, ReclaimableFor(s, id)))
  {
  }

  /** The slot a stored reservation takes was free, its own, or held by a failure. */
  lemma {:induction false} SlotWasFree(s: Service, check: Check, signing: Signing, end: Tables, id: Text)
    requires check.intentId in s.intents && id in s.intents && id != check.intentId && GoodCheck(s, check)
    requires Signed(s.tables.attempts, id) && HoldsSlot(s, id) && !Failed(StateOf(s, id))
    requires ClaimsAfter(s.tables, RequestOf(s, check, signing)) == Ok(end.claims)
    ensures HoldsSlot(s.(tables := end), id)
  {
  }

  lemma {:induction false} OutcomeMovesSlot(s: Service, check: Check, signing: Signing, end: Tables, stored: bool, id: Text)
    requires check.intentId in s.intents && GoodAttempt(s, id) && GoodCheck(s, check)
    requires Outcome(s.tables, RequestOf(s, check, signing), end, stored)
    requires forall i | i in s.chain :: Signed(s.tables.attempts, i)
    ensures GoodAttempt(s.(tables := end), id)
  {
    OutcomeKeepsStates(s, RequestOf(s, check, signing), end, stored, id);
    if stored && id != check.intentId && Signed(s.tables.attempts, id) && s.intents[id].predecessor != 0 && !Failed(StateOf(s, id)) {
      SlotWasFree(s, check, signing, end, id);
    }
  }

  lemma {:induction false} ReserveKeepsInv(s: Service, check: Check, signing: Signing, end: Tables, stored: bool)
    requires Inv(s) && check in s.checks && check.intentId in s.intents
    requires Outcome(s.tables, RequestOf(s, check, signing), end, stored)
    ensures Inv(s.(tables := end))
  {
    var t := s.(tables := end);
    OutcomeIsLater(s, RequestOf(s, check, signing), end, stored);
    LaterKeepsGood(s, t);
    forall id: Text ensures GoodAttempt(t, id) {
      assert GoodAttempt(s, id) && GoodCheck(s, check);
      OutcomeMovesSlot(s, check, signing, end, stored, id);
    }
  }

  lemma {:induction false} QuietKeepsInv(s: Service, t: Service)
    requires Inv(s) && Later(s, t) && t.tables == s.tables
    requires forall id | id in t.intents && id !in s.intents :: GoodIntent(t, id)
    requires forall p | p in t.plans && p !in s.plans :: GoodPlan(t, p)
    requires forall c | c in t.checks && c !in s.checks :: GoodCheck(t, c)
    requires forall id | id in t.chain :: Signed(t.tables.attempts, id)
    ensures Inv(t)
  {
    LaterKeepsGood(s, t);
    forall id: Text ensures GoodAttempt(t, id) {
      assert GoodAttempt(s, id);
      QuietKeepsAttempts(s, t, id);
    }
  }

  lemma {:induction false} CreateKeepsInv(s: Service, intent: Intent)
    requires Inv(s) && AT !in intent.certificateId
    requires if intent.predecessor == 0 then intent.version == 1 else GoodPlan(s, Plan(intent.certificateId, intent.version, intent.predecessor))
    ensures Later(s, s.(intents := Created(s.intents, intent))) && Inv(s.(intents := Created(s.intents, intent)))
  {
    QuietKeepsInv(s, s.(intents := Created(s.intents, intent)));
  }

  lemma {:induction false} PlanKeepsInv(s: Service, plan: Plan)
    requires Inv(s) && GoodPlan(s, plan)
    ensures Inv(s.(plans := s.plans + {plan}))
  {
    QuietKeepsInv(s, s.(plans := s.plans + {plan}));
  }

  lemma {:induction false} CheckKeepsInv(s: Service, id: Text)
    requires Inv(s) && id in s.intents
    ensures Inv(s.(checks := s.checks + {Check(id, ReclaimableFor(s, id))}))
  {
    CheckIsGood(s, id);
    QuietKeepsInv(s, s.(checks := s.checks + {Check(id, ReclaimableFor(s, id))}));
  }

  lemma {:induction false} ObserveKeepsInv(s: Service, id: Text, state: MintState)
    requires Inv(s) && Enabled(s, Observe(id, state))
    ensures Inv(s.(chain := s.chain[id := state]))
  {
    ObserveIsLater(s, id, state);
    QuietKeepsInv(s, s.(chain := s.chain[id := state]));
  }

  lemma {:induction false} StepKeepsInv(s: Service, a: Action, decode: Decoder)
    requires Inv(s) && Enabled(s, a)
    ensures Inv(Step(s, a, decode))
  {
    match a
    case Prepare(certificateId) => CreateKeepsInv(s, Intent(certificateId, 1, 0));
    case PlanCorrection(plan) => PlanKeepsInv(s, plan);
    case CreateCorrection(plan) => CreateKeepsInv(s, Intent(plan.certificateId, plan.version, plan.predecessor));
    case CheckSend(id) => CheckKeepsInv(s, id);
    case Reserve(check, signing) =>
      var end, stored := ReserveOutcome(s.tables, RequestOf(s, check, signing), decode);
      ReserveKeepsInv(s, check, signing, end, stored);
    case Observe(id, state) => ObserveKeepsInv(s, id, state);
  }

  // ----- Runs

  /** Steps that may not happen when their turn comes are skipped. */
  function Run(s: Service, actions: seq<Action>, decode: Decoder): Service
  {
    if actions == [] then s
    else
      var before, a := Run(s, actions[..|actions| - 1], decode), actions[|actions| - 1];
      if Enabled(before, a) then Step(before, a, decode) else before
  }

  function EmptyService(): Service { Service(Tables(map[], [], map[], map[]), map[], map[], {}, {}) }

  lemma {:induction false} EmptyIsGood()
    ensures Inv(EmptyService())
  {
    assert forall id: Text :: GoodAttempt(EmptyService(), id);
  }

  lemma {:induction false} RunKeepsInv(s: Service, actions: seq<Action>, decode: Decoder)
    requires Inv(s)
    ensures Inv(Run(s, actions, decode))
  {
    if actions != [] {
      var before, a := Run(s, actions[..|actions| - 1], decode), actions[|actions| - 1];
      RunKeepsInv(s, actions[..|actions| - 1], decode);
      if Enabled(before, a) { StepKeepsInv(before, a, decode); }
    }
  }

  lemma {:induction false} LaterIsReflexive(s: Service)
    ensures Later(s, s)
  {
  }

  lemma {:induction false} LaterIsTransitive(r: Service, s: Service, t: Service)
    requires Later(r, s) && Later(s, t)
    ensures Later(r, t)
  {
  }

  lemma {:induction false} RunIsLater(s: Service, actions: seq<Action>, decode: Decoder)
    requires Inv(s)
    ensures Later(s, Run(s, actions, decode))
  {
    LaterIsReflexive(s);
    if actions != [] {
      var before, a := Run(s, actions[..|actions| - 1], decode), actions[|actions| - 1];
      RunKeepsInv(s, actions[..|actions| - 1], decode);
      RunIsLater(s, actions[..|actions| - 1], decode);
      if Enabled(before, a) {
        StepIsLater(before, a, decode);
        LaterIsTransitive(s, before, Step(before, a, decode));
      }
    }
  }

  /** After every run, of two signed successors of one version at least one has failed for good. */
  lemma {:induction false} OneLiveSuccessor(actions: seq<Action>, decode: Decoder, a: Text, b: Text)
    requires var s := Run(EmptyService(), actions, decode);
      a in s.intents && b in s.intents && a != b && KeyOf(s.intents[a]) == KeyOf(s.intents[b]) && s.intents[a].predecessor != 0 &&
      Signed(s.tables.attempts, a) && Signed(s.tables.attempts, b)
    ensures var s := Run(EmptyService(), actions, decode);
      Failed(StateOf(s, a)) || Failed(StateOf(s, b))
  {
    EmptyIsGood();
    RunKeepsInv(EmptyService(), actions, decode);
    var s := Run(EmptyService(), actions, decode);
    assert GoodAttempt(s, a) && GoodAttempt(s, b);
  }
}
