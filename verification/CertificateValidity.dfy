/**
 Which version of a certificate line is current. A reading of the line lists every version with what
 was observed of it; from these the replacement state and the validity of each version follow. The
 confirmed versions form one path, and at most one version of a reading is current.
 */
module CertificateValidity {
  import opened Options
  import opened Texts
  import opened CertificateReserve
  import opened CertificateLines

  datatype Replacement =
    | NoReplacement | DraftReplacement | EndorsedPendingMint | IncludedPendingConfirmation | NoncanonicalPending
    | ConfirmedReplacement | FailedReplacement | UnverifiedChainSuccessor

  datatype SourceStatus = Matches | Changed | Disputed

  datatype Validity = Current | PendingConfirmation | Superseded | ReplacementPending | ReplacementFailed | SourceDisputed | SourceChanged

  /** One version as a request read it: signed bytes on record, and the observation made of it. */
  datatype Entry = Entry(version: nat, predecessor: nat, endorsed: bool, state: MintState)

  /** Publication of a successor as a reader should see it. */
  function ReplacementStateOf(endorsed: bool, state: MintState): Replacement
  {
    if !endorsed then DraftReplacement
    else
      match state
      case Confirmed => ConfirmedReplacement
      case Included => IncludedPendingConfirmation
      case Noncanonical => NoncanonicalPending
      case Reverted => FailedReplacement
      case InvalidEvent => FailedReplacement
      case Prepared => EndorsedPendingMint
      case Submitted => EndorsedPendingMint
  }

  function ValidityOf(own: MintState, replacement: Replacement, scope: SourceStatus): Validity
  {
    if replacement == ConfirmedReplacement then Superseded
    else if replacement == FailedReplacement then ReplacementFailed
    else if replacement != NoReplacement && replacement != DraftReplacement then ReplacementPending
    else if scope == Disputed then SourceDisputed
    else if scope == Changed then SourceChanged
    else if own == Confirmed then Current
    else PendingConfirmation
  }

  // ----- Which successor speaks for a version

  /** Confirmed first, then anything in flight, then a failure, then an unsigned draft. */
  function RankOf(e: Entry): nat
  {
    match ReplacementStateOf(e.endorsed, e.state)
    case ConfirmedReplacement => 0
    case FailedReplacement => 3
    case DraftReplacement => 4
    case _ => 1
  }

  /** Among equal ranks the newer version speaks. */
  predicate Outranks(a: Entry, b: Entry)
  {
    RankOf(a) < RankOf(b) || (RankOf(a) == RankOf(b) && a.version > b.version)
  }

  /** The first of the candidates in ranking order. */
  function BestSuccessor(entries: seq<Entry>, version: nat): Option<Entry>
  {
    if entries == [] then None
    else
      var before, e := BestSuccessor(entries[..|entries| - 1], version), entries[|entries| - 1];
      if e.predecessor != version then before
      else if before.None? || Outranks(e, before.value) then Some(e)
      else before
  }

  /** `disputed` says that the chain names a successor the records cannot vouch for. */
  function SuccessorOf(entries: seq<Entry>, version: nat, disputed: bool): Replacement
  {
    if disputed then UnverifiedChainSuccessor
    else
      match BestSuccessor(entries, version)
      case None => NoReplacement
      case Some(e) => ReplacementStateOf(e.endorsed, e.state)
  }

  function Described(entries: seq<Entry>, e: Entry, disputed: bool, scope: SourceStatus): Validity
  {
    ValidityOf(e.state, SuccessorOf(entries, e.version, disputed), scope)
  }

  lemma {:induction false} BestIsACandidate(entries: seq<Entry>, version: nat)
    ensures BestSuccessor(entries, version).Some? ==>
      BestSuccessor(entries, version).value in entries && BestSuccessor(entries, version).value.predecessor == version
  {
    if entries != [] { BestIsACandidate(entries[..|entries| - 1], version); }
  }

  lemma {:induction false} BestOutranks(entries: seq<Entry>, version: nat, k: nat)
    requires k < |entries| && entries[k].predecessor == version
    ensures BestSuccessor(entries, version).Some? && RankOf(BestSuccessor(entries, version).value) <= RankOf(entries[k])
  {
    var n := |entries| - 1;
    if k < n { BestOutranks(entries[..n], version, k); }
  }

  /** The successor that speaks is the best of all: none outranks it. */
  lemma {:induction false} NoneOutranksBest(entries: seq<Entry>, version: nat, k: nat)
    requires k < |entries| && entries[k].predecessor == version
    ensures BestSuccessor(entries, version).Some? && !Outranks(entries[k], BestSuccessor(entries, version).value)
  {
    var n := |entries| - 1;
    if k < n { NoneOutranksBest(entries[..n], version, k); }
  }

  predicate SignedSuccessor(e: Entry, version: nat) { e.predecessor == version && e.endorsed }

  /** A version reads as current exactly when it is confirmed, its source matches, the chain raises no doubt, and no successor is signed. */
  lemma {:induction false} CurrentExactlyWhen(entries: seq<Entry>, e: Entry, disputed: bool, scope: SourceStatus)
    ensures Described(entries, e, disputed, scope) == Current <==>
      e.state == Confirmed && scope == Matches && !disputed && forall k | 0 <= k < |entries| :: !SignedSuccessor(entries[k], e.version)
  {
    BestIsACandidate(entries, e.version);
    var best := BestSuccessor(entries, e.version);
    if best.Some? && best.value.endorsed {
      var k :| 0 <= k < |entries| && entries[k] == best.value;
      assert SignedSuccessor(entries[k], e.version);
    }
    if k :| 0 <= k < |entries| && SignedSuccessor(entries[k], e.version) { BestOutranks(entries, e.version, k); }
  }

  /** A version with a confirmed successor reads as superseded, or as awaiting its replacement while the chain names a successor not on record. */
  lemma {:induction false} ConfirmedSupersedes(entries: seq<Entry>, e: Entry, disputed: bool, scope: SourceStatus, k: nat)
    requires k < |entries| && entries[k].predecessor == e.version && entries[k].endorsed && entries[k].state == Confirmed
    ensures Described(entries, e, disputed, scope) == if disputed then ReplacementPending else Superseded
  {
    BestOutranks(entries, e.version, k);
  }

  // ----- The confirmed versions of a line form one path

  function IntentAt(s: Service, c: Text, v: nat): Intent
    requires IntentIdOf(c, v) in s.intents
  {
    s.intents[IntentIdOf(c, v)]
  }

  lemma {:induction false} VersionIsItsOwn(s: Service, c: Text, v: nat)
    requires Inv(s) && AT !in c && HasConfirmed(s, c, v)
    ensures var i := IntentAt(s, c, v);
      i.certificateId == c && i.version == v &&
      if i.predecessor == 0 then v == 1 else i.predecessor < v && HasConfirmed(s, c, i.predecessor)
  {
    var id := IntentIdOf(c, v);
    assert GoodIntent(s, id);
    IntentIdIsUnique(c, v, s.intents[id].certificateId, s.intents[id].version);
  }

  /** From version 1 through every predecessor to `v`. */
  ghost function PathTo(s: Service, c: Text, v: nat): seq<nat>
    requires Inv(s) && AT !in c && HasConfirmed(s, c, v)
    decreases v
  {
    VersionIsItsOwn(s, c, v);
    var p := IntentAt(s, c, v).predecessor;
    if p == 0 then [v] else PathTo(s, c, p) + [v]
  }

  lemma {:induction false} OnPath(s: Service, c: Text, v: nat, u: nat)
    requires Inv(s) && AT !in c && HasConfirmed(s, c, v)
    ensures var p := IntentAt(s, c, v).predecessor;
      (p == 0 ==> (u in PathTo(s, c, v) <==> u == v)) &&
      (p != 0 ==> p < v && HasConfirmed(s, c, p) && (u in PathTo(s, c, v) <==> u == v || u in PathTo(s, c, p)))
  {
    VersionIsItsOwn(s, c, v);
  }

  /** The version on the path to `v` that follows `u`. */
  lemma {:induction false} NextOnPath(s: Service, c: Text, v: nat, u: nat) returns (w: nat)
    requires Inv(s) && AT !in c && HasConfirmed(s, c, v) && u in PathTo(s, c, v) && u != v
    ensures HasConfirmed(s, c, w) && IntentAt(s, c, w).predecessor == u && w in PathTo(s, c, v) && w <= v
    decreases v
  {
    OnPath(s, c, v, u);
    var p := IntentAt(s, c, v).predecessor;
    if p == u {
      w := v;
    } else {
      w := NextOnPath(s, c, p, u);
      OnPath(s, c, v, w);
    }
  }

  /** Two confirmed versions with one predecessor are the same. */
  lemma {:induction false} OneConfirmedSuccessor(s: Service, c: Text, v: nat, w: nat)
    requires Inv(s) && AT !in c && HasConfirmed(s, c, v) && HasConfirmed(s, c, w)
    requires IntentAt(s, c, v).predecessor == IntentAt(s, c, w).predecessor
    ensures v == w
  {
    VersionIsItsOwn(s, c, v);
    VersionIsItsOwn(s, c, w);
    assert GoodAttempt(s, IntentIdOf(c, v)) && GoodAttempt(s, IntentIdOf(c, w));
  }

  /** Of two confirmed versions of a line, one lies on the path to the other. */
  lemma {:induction false} ConfirmedFormAPath(s: Service, c: Text, u: nat, v: nat)
    requires Inv(s) && AT !in c && HasConfirmed(s, c, u) && HasConfirmed(s, c, v)
    ensures u in PathTo(s, c, v) || v in PathTo(s, c, u)
    decreases u
  {
    VersionIsItsOwn(s, c, u);
    OnPath(s, c, u, v);
    var p := IntentAt(s, c, u).predecessor;
    if p == 0 {
      RootIsOnEveryPath(s, c, v);
    } else {
      ConfirmedFormAPath(s, c, p, v);
      if v !in PathTo(s, c, p) && p != v {
        var w := NextOnPath(s, c, v, p);
        OneConfirmedSuccessor(s, c, u, w);
      } else if p == v {
      }
    }
  }

  lemma {:induction false} RootIsOnEveryPath(s: Service, c: Text, v: nat)
    requires Inv(s) && AT !in c && HasConfirmed(s, c, v)
    ensures 1 in PathTo(s, c, v)
    decreases v
  {
    VersionIsItsOwn(s, c, v);
    OnPath(s, c, v, 1);
    var p := IntentAt(s, c, v).predecessor;
    if p != 0 { RootIsOnEveryPath(s, c, p); }
  }

  // ----- A reading of the line

  /**
   A reading that begins in `s` and ends in `t`: it lists every confirmed version of `s`, and of each entry
   it says what is settled: what was confirmed before reads as confirmed, and what reads as confirmed is
   signed, and confirmed in the end.
   */
  ghost predicate IsReading(s: Service, t: Service, c: Text, entries: seq<Entry>)
  {
    Later(s, t) &&
    (forall k | 0 <= k < |entries| :: ReadsVersion(s, t, c, entries[k])) &&
    (forall v: nat :: HasConfirmed(s, c, v) ==> exists k | 0 <= k < |entries| :: entries[k].version == v)
  }

  predicate ReadsVersion(s: Service, t: Service, c: Text, e: Entry)
  {
    IntentIdOf(c, e.version) in s.intents && IntentAt(s, c, e.version).predecessor == e.predecessor &&
    (HasConfirmed(s, c, e.version) ==> e.state == Confirmed) &&
    (e.state == Confirmed ==> e.endorsed && HasConfirmed(t, c, e.version))
  }

  /** The successor on the way from one confirmed version to a listed later one is itself listed as confirmed. */
  lemma {:induction false} ListedSuccessor(s: Service, t: Service, c: Text, entries: seq<Entry>, u: nat, v: nat) returns (k: nat)
    requires Inv(s) && Inv(t) && AT !in c && IsReading(s, t, c, entries)
    requires HasConfirmed(t, c, v) && u in PathTo(t, c, v) && u != v
    requires exists j | 0 <= j < |entries| :: entries[j].version == v && entries[j].state == Confirmed
    ensures k < |entries| && SignedSuccessor(entries[k], u)
  {
    var w := NextOnPath(t, c, v, u);
    var j :| 0 <= j < |entries| && entries[j].version == v && entries[j].state == Confirmed;
    assert ReadsVersion(s, t, c, entries[j]);
    if w == v {
      VersionIsItsOwn(t, c, v);
      k := j;
      assert IntentAt(s, c, v) == IntentAt(t, c, v);
    } else {
      BeforeListed(s, t, c, v, w);
      k :| 0 <= k < |entries| && entries[k].version == w;
      assert ReadsVersion(s, t, c, entries[k]);
      assert IntentAt(s, c, w) == IntentAt(t, c, w);
    }
  }

  /** Everything before a listed version was confirmed when the reading began. */
  lemma {:induction false} BeforeListed(s: Service, t: Service, c: Text, v: nat, w: nat)
    requires Inv(s) && Inv(t) && Later(s, t) && AT !in c && IntentIdOf(c, v) in s.intents
    requires HasConfirmed(t, c, v) && w in PathTo(t, c, v) && w != v
    ensures HasConfirmed(s, c, w)
    decreases v
  {
    VersionIsItsOwn(t, c, v);
    OnPath(t, c, v, w);
    assert GoodIntent(s, IntentIdOf(c, v)) && IntentAt(s, c, v) == IntentAt(t, c, v);
    var p := IntentAt(t, c, v).predecessor;
    if w != p { BeforeListed(s, t, c, p, w); }
  }

  /** At most one version of a reading is current, whatever the readings of source and chain say of each. */
  lemma {:induction false} AtMostOneCurrent(
      s: Service, t: Service, c: Text, entries: seq<Entry>, i: nat, j: nat, di: bool, dj: bool, si: SourceStatus, sj: SourceStatus)
    requires Inv(s) && Inv(t) && AT !in c && IsReading(s, t, c, entries) && i < |entries| && j < |entries|
    requires Described(entries, entries[i], di, si) == Current && Described(entries, entries[j], dj, sj) == Current
    ensures entries[i].version == entries[j].version
  {
    CurrentExactlyWhen(entries, entries[i], di, si);
    CurrentExactlyWhen(entries, entries[j], dj, sj);
    var (u, v) := (entries[i].version, entries[j].version);
    assert ReadsVersion(s, t, c, entries[i]) && ReadsVersion(s, t, c, entries[j]);
    ConfirmedFormAPath(t, c, u, v);
    if u != v {
      if u in PathTo(t, c, v) {
        var k := ListedSuccessor(s, t, c, entries, u, v);
      } else {
        var k := ListedSuccessor(s, t, c, entries, v, u);
      }
    }
  }

  // ----- The readings the service makes

  /** A version's state is looked up at `m` and its signed bytes at `n`, both after the line was listed at `s`. */
  lemma {:induction false} LooksAreReadings(s: Service, m: Service, n: Service, t: Service, c: Text, v: nat)
    requires Later(s, m) && Later(m, n) && Later(n, t) && IntentIdOf(c, v) in s.intents
    ensures var id := IntentIdOf(c, v);
      ReadsVersion(s, t, c, Entry(v, IntentAt(s, c, v).predecessor, Signed(n.tables.attempts, id), StateOf(m, id)))
  {
    var id := IntentIdOf(c, v);
    assert Terminal(StateOf(s, id)) ==> StateOf(m, id) == StateOf(s, id);
    assert Terminal(StateOf(m, id)) ==> StateOf(n, id) == StateOf(m, id) && Signed(m.tables.attempts, id);
    assert Terminal(StateOf(n, id)) ==> StateOf(t, id) == StateOf(n, id);
  }

  /** When the state and the signed bytes of one version are looked up, counted in steps since the line was listed. */
  datatype Look = Look(state: nat, signed: nat)

  predicate InOrder(look: Look, end: nat) { look.state <= look.signed <= end }

  function LookedUp(s: Service, during: seq<Action>, decode: Decoder, c: Text, v: nat, look: Look): Entry
    requires IntentIdOf(c, v) in s.intents && InOrder(look, |during|)
  {
    var id := IntentIdOf(c, v);
    Entry(v, IntentAt(s, c, v).predecessor,
          Signed(CertificateLines.Run(s, during[..look.signed], decode).tables.attempts, id),
          StateOf(CertificateLines.Run(s, during[..look.state], decode), id))
  }

  /** The versions of a line on record, each once or more, in any order. */
  ghost predicate Lists(s: Service, c: Text, versions: seq<nat>)
  {
    (forall k | 0 <= k < |versions| :: IntentIdOf(c, versions[k]) in s.intents) &&
    forall v: nat :: IntentIdOf(c, v) in s.intents ==> v in versions
  }

  /** The line is listed at `s`; its versions are looked up one by one, in any interleaving, while other requests go on. */
  function ReadingOf(s: Service, during: seq<Action>, decode: Decoder, c: Text, versions: seq<nat>, looks: seq<Look>): seq<Entry>
    requires |looks| == |versions| && forall k | 0 <= k < |versions| :: IntentIdOf(c, versions[k]) in s.intents && InOrder(looks[k], |during|)
  {
    seq(|versions|, k requires 0 <= k < |versions| => LookedUp(s, during, decode, c, versions[k], looks[k]))
  }

  lemma {:induction false} PrefixIsLater(s: Service, actions: seq<Action>, decode: Decoder, i: nat, j: nat)
    requires Inv(s) && i <= j <= |actions|
    ensures Later(CertificateLines.Run(s, actions[..i], decode), CertificateLines.Run(s, actions[..j], decode))
  {
    if i == j {
      LaterIsReflexive(CertificateLines.Run(s, actions[..i], decode));
    } else {
      var before, a := CertificateLines.Run(s, actions[..j - 1], decode), actions[j - 1];
      PrefixIsLater(s, actions, decode, i, j - 1);
      RunKeepsInv(s, actions[..j - 1], decode);
      assert actions[..j][..j - 1] == actions[..j - 1];
      if Enabled(before, a) {
        StepIsLater(before, a, decode);
        LaterIsTransitive(CertificateLines.Run(s, actions[..i], decode), before, Step(before, a, decode));
      }
    }
  }

  lemma {:induction false} LookReadsVersion(s: Service, during: seq<Action>, decode: Decoder, c: Text, v: nat, look: Look)
    requires Inv(s) && IntentIdOf(c, v) in s.intents && InOrder(look, |during|)
    ensures ReadsVersion(s, CertificateLines.Run(s, during, decode), c, LookedUp(s, during, decode, c, v, look))
  {
    PrefixIsLater(s, during, decode, 0, look.state);
    PrefixIsLater(s, during, decode, look.state, look.signed);
    PrefixIsLater(s, during, decode, look.signed, |during|);
    assert during[..0] == [] && during[..|during|] == during;
    LooksAreReadings(s, CertificateLines.Run(s, during[..look.state], decode), CertificateLines.Run(s, during[..look.signed], decode),
                     CertificateLines.Run(s, during, decode), c, v);
  }

  lemma {:induction false} LookedUpIsReading(s: Service, during: seq<Action>, decode: Decoder, c: Text, versions: seq<nat>, looks: seq<Look>)
    requires Inv(s) && Lists(s, c, versions)
    requires |looks| == |versions| && forall k | 0 <= k < |versions| :: InOrder(looks[k], |during|)
    ensures IsReading(s, CertificateLines.Run(s, during, decode), c, ReadingOf(s, during, decode, c, versions, looks))
  {
    var t, entries := CertificateLines.Run(s, during, decode), ReadingOf(s, during, decode, c, versions, looks);
    RunIsLater(s, during, decode);
    forall k | 0 <= k < |entries| ensures ReadsVersion(s, t, c, entries[k]) {
      LookReadsVersion(s, during, decode, c, versions[k], looks[k]);
    }
    forall v: nat | HasConfirmed(s, c, v) ensures exists k | 0 <= k < |entries| :: entries[k].version == v {
      var k :| 0 <= k < |versions| && versions[k] == v;
      assert entries[k].version == v;
    }
  }

  /** After any run a line is read while any further steps happen: at most one version reads as current. */
  lemma {:induction false} AtMostOneCurrentInRuns(
      before: seq<Action>, during: seq<Action>, decode: Decoder, c: Text, versions: seq<nat>, looks: seq<Look>, i: nat, j: nat,
      di: bool, dj: bool, si: SourceStatus, sj: SourceStatus)
    requires AT !in c && i < |versions| && j < |versions| && Lists(CertificateLines.Run(EmptyService(), before, decode), c, versions)
    requires |looks| == |versions| && forall k | 0 <= k < |versions| :: InOrder(looks[k], |during|)
    requires var entries := ReadingOf(CertificateLines.Run(EmptyService(), before, decode), during, decode, c, versions, looks);
      Described(entries, entries[i], di, si) == Current && Described(entries, entries[j], dj, sj) == Current
    ensures versions[i] == versions[j]
  {
    var s := CertificateLines.Run(EmptyService(), before, decode);
    EmptyIsGood();
    RunKeepsInv(EmptyService(), before, decode);
    RunKeepsInv(s, during, decode);
    LookedUpIsReading(s, during, decode, c, versions, looks);
    AtMostOneCurrent(s, CertificateLines.Run(s, during, decode), c, ReadingOf(s, during, decode, c, versions, looks), i, j, di, dj, si, sj);
  }
}
