/**
 What an import leaves: with fresh generated ids the accepted rows of any table form a draft in which
 the validators find no fault, with one recipient per NIK.
 */
module BeneficiaryImport {
  import opened Options
  import opened Strings
  import opened BeneficiaryDraft
  import opened BeneficiaryTabular
  import opened BeneficiaryRows

  // ----- Ids

  /** Generated ids are all different, never blank, and none of the ids a table brings along. */
  ghost predicate Fresh(supply: nat -> string, given: set<string>)
  {
    (forall m: nat, n: nat | m != n :: supply(m) != supply(n)) && forall n: nat :: supply(n) !in given && Filled(supply(n))
  }

  ghost predicate IsIssued(issued: nat, supply: nat -> string, id: string)
  {
    exists n: nat | n < issued :: supply(n) == id
  }

  lemma {:induction false} IssuedGrows(issued: nat, more: nat, supply: nat -> string, id: string)
    requires IsIssued(issued, supply, id) && issued <= more
    ensures IsIssued(more, supply, id)
  {
    var n: nat :| n < issued && supply(n) == id;
    assert n < more && supply(n) == id;
  }

  lemma {:induction false} NextIsNotIssued(issued: nat, n: nat, supply: nat -> string, given: set<string>)
    requires Fresh(supply, given) && issued <= n
    ensures !IsIssued(issued, supply, supply(n)) && IsIssued(n + 1, supply, supply(n))
  {
  }

  lemma {:induction false} IdKeyIsInjective(a: string, b: string)
    requires IdKey(a) == IdKey(b)
    ensures a == b
  {
    assert IdKey(a)[3..] == a && IdKey(b)[3..] == b;
  }

  lemma {:induction false} OtherKeysAreNoIdKeys(c: Cells, b: Beneficiary, id: string)
    requires c.idPenerima == ""
    ensures OwnKey(c, b) != IdKey(id)
  {
    assert IdKey(id)[0] == 'i';
    match b.identity {
      case Nik(value) => assert OwnKey(c, b)[0] == 'n';
      case Alternative(_) => assert OwnKey(c, b)[0] == 'a';
    }
  }

  // ----- What holds while rows are grouped

  ghost predicate KeysHold(r: Roster)
  {
    (forall key | key in r.byKey :: r.byKey[key] in r.beneficiaries) &&
    (forall nik | nik in r.keyByNik :: r.keyByNik[nik] in r.byKey && NikOf(r.byKey[r.keyByNik[nik]]) == Some(nik))
  }

  /** A key made of an id belongs to the recipient with that id. */
  ghost predicate IdKeysHold(r: Roster, given: set<string>)
  {
    forall id: string | IdKey(id) in r.byKey :: id in given && r.byKey[IdKey(id)].id == id
  }

  ghost predicate FoundByNik(r: Roster, b: Beneficiary)
  {
    NikOf(b).Some? ==> NikOf(b).value in r.keyByNik && r.keyByNik[NikOf(b).value] in r.byKey && r.byKey[r.keyByNik[NikOf(b).value]] == b
  }

  ghost predicate IdIsKnown(r: Roster, supply: nat -> string, b: Beneficiary)
  {
    IsIssued(r.issued, supply, b.id) || (IdKey(b.id) in r.byKey && r.byKey[IdKey(b.id)] == b)
  }

  ghost predicate Belongs(r: Roster, supply: nat -> string, b: Beneficiary)
  {
    SoundBeneficiary(b) && CanonicalBeneficiary(b) && FoundByNik(r, b) && IdIsKnown(r, supply, b)
  }

  ghost predicate BeneficiariesHold(r: Roster, supply: nat -> string)
  {
    UniqueBeneficiaries(r.beneficiaries) && forall i | 0 <= i < |r.beneficiaries| :: Belongs(r, supply, r.beneficiaries[i])
  }

  ghost predicate LinesHold(r: Roster, given: set<string>, supply: nat -> string)
  {
    r.lineIds == LineIds(r.aidLines) && r.fingerprints == Fingerprints(r.aidLines) &&
    SoundEvents(r.aidLines, BeneficiaryIds(r.beneficiaries)) &&
    forall i | 0 <= i < |r.aidLines| :: CanonicalLine(r.aidLines[i]) && (r.aidLines[i].id in given || IsIssued(r.issued, supply, r.aidLines[i].id))
  }

  /** Recipients of lines, in order of first appearance. */
  function Holders(lines: seq<DraftLine>): seq<string>
  {
    if lines == [] then []
    else
      var before, id := Holders(lines[..|lines| - 1]), lines[|lines| - 1].beneficiaryId;
      if id in before then before else before + [id]
  }

  function IdsInOrder(bs: seq<Beneficiary>): seq<string> { seq(|bs|, i requires 0 <= i < |bs| => bs[i].id) }

  ghost predicate Inv(r: Roster, given: set<string>, supply: nat -> string)
  {
    KeysHold(r) && IdKeysHold(r, given) && BeneficiariesHold(r, supply) && LinesHold(r, given, supply) && IdsInOrder(r.beneficiaries) == Holders(r.aidLines)
  }

  /** A row that may join: sound, and with its own ids among those given. */
  ghost predicate Joins(c: Cells, b: Beneficiary, line: DraftLine, given: set<string>)
  {
    SoundCandidate(c, b, line) && (c.idPenerima != "" ==> c.idPenerima in given) && (c.idBaris != "" ==> c.idBaris in given)
  }

  // ----- One placement

  /** The recipient of a placed row: the one its key stands for, or a newcomer under the row's own key. */
  ghost predicate Joined(r: Roster, c: Cells, b: Beneficiary, supply: nat -> string, p: Placement, after: Roster)
  {
    p.Placed? && after == RosterAfter(r, b, p) && p.aidLine.beneficiaryId == p.beneficiary.id && NikOf(p.beneficiary) == NikOf(b) &&
    (NikKey(r, b).Some? ==> p.key == NikKey(r, b).value) &&
    if p.key in r.byKey then p.beneficiary == r.byKey[p.key] && r.issued <= after.issued
    else
      p.key == OwnKey(c, b) && NikKey(r, b).None? && p.beneficiary == b.(id := if c.idPenerima != "" then c.idPenerima else supply(r.issued)) &&
      if c.idPenerima != "" then r.issued <= after.issued else r.issued < after.issued
  }

  /** The line of a placed row: sound, canonical, and with an id and an event of its own. */
  ghost predicate NewLine(r: Roster, given: set<string>, supply: nat -> string, p: Placement, issued: nat)
  {
    p.Placed? && SoundContent(p.aidLine) && CanonicalLine(p.aidLine) && p.aidLine.id !in r.lineIds && FingerprintOf(p.aidLine) !in r.fingerprints &&
    (p.aidLine.id in given || IsIssued(issued, supply, p.aidLine.id))
  }

  lemma {:induction false} PlacedRowJoins(r: Roster, c: Cells, b: Beneficiary, line: DraftLine, supply: nat -> string)
    requires KeysHold(r) && Place(r, c, b, line, supply).Placed?
    ensures var p := Place(r, c, b, line, supply); Joined(r, c, b, supply, p, RosterAfter(r, b, p))
  {
  }

  lemma {:induction false} PlacedLineIsNew(r: Roster, c: Cells, b: Beneficiary, line: DraftLine, given: set<string>, supply: nat -> string)
    requires LinesHold(r, given, supply) && Fresh(supply, given) && Joins(c, b, line, given) && Place(r, c, b, line, supply).Placed?
    ensures var p := Place(r, c, b, line, supply); NewLine(r, given, supply, p, p.issued)
  {
    if c.idBaris == "" { NextIsNotIssued(r.issued, r.issued + TakenForHolder(r, c, b), supply, given); }
  }

  lemma {:induction false} KeysStay(r: Roster, c: Cells, b: Beneficiary, supply: nat -> string, p: Placement, after: Roster)
    requires KeysHold(r) && Joined(r, c, b, supply, p, after)
    ensures KeysHold(after)
  {
    if p.key !in r.byKey { assert after.beneficiaries[|r.beneficiaries|] == p.beneficiary; }
  }

  lemma {:induction false} IdKeysStay(r: Roster, c: Cells, b: Beneficiary, line: DraftLine, given: set<string>, supply: nat -> string, p: Placement, after: Roster)
    requires KeysHold(r) && IdKeysHold(r, given) && Joins(c, b, line, given) && Joined(r, c, b, supply, p, after)
    ensures IdKeysHold(after, given)
  {
    forall id: string | IdKey(id) in after.byKey ensures id in given && after.byKey[IdKey(id)].id == id {
      if IdKey(id) !in r.byKey {
        if c.idPenerima == "" { OtherKeysAreNoIdKeys(c, b, id); } else { IdKeyIsInjective(id, c.idPenerima); }
      }
    }
  }

  /** The id of a recipient who joins is nobody's yet. */
  lemma {:induction false} NewIdIsNew(r: Roster, c: Cells, b: Beneficiary, line: DraftLine, given: set<string>, supply: nat -> string, p: Placement, after: Roster, i: nat)
    requires KeysHold(r) && IdKeysHold(r, given) && BeneficiariesHold(r, supply)
    requires Fresh(supply, given) && Joins(c, b, line, given) && Joined(r, c, b, supply, p, after)
    requires p.key !in r.byKey && i < |r.beneficiaries|
    ensures r.beneficiaries[i].id != p.beneficiary.id
  {
    NextIsNotIssued(r.issued, r.issued, supply, given);
    assert Belongs(r, supply, r.beneficiaries[i]);
    if IdKey(r.beneficiaries[i].id) in r.byKey { assert r.beneficiaries[i].id in given; }
  }

  lemma {:induction false} KnownStays(r: Roster, c: Cells, b: Beneficiary, supply: nat -> string, p: Placement, after: Roster, x: Beneficiary)
    requires KeysHold(r) && Joined(r, c, b, supply, p, after)
    requires Belongs(r, supply, x)
    ensures Belongs(after, supply, x)
  {
    if IsIssued(r.issued, supply, x.id) { IssuedGrows(r.issued, after.issued, supply, x.id); }
  }

  lemma {:induction false} NewcomerIsKnown(r: Roster, c: Cells, b: Beneficiary, line: DraftLine, given: set<string>, supply: nat -> string, p: Placement, after: Roster)
    requires KeysHold(r) && Fresh(supply, given) && Joins(c, b, line, given) && Joined(r, c, b, supply, p, after)
    requires p.key !in r.byKey
    ensures Belongs(after, supply, p.beneficiary)
  {
    if c.idPenerima == "" {
      NextIsNotIssued(r.issued, r.issued, supply, given);
      IssuedGrows(r.issued + 1, after.issued, supply, supply(r.issued));
    }
  }

  lemma {:induction false} OneMoreUnique(bs: seq<Beneficiary>, b: Beneficiary)
    requires UniqueBeneficiaries(bs) && b.id !in IdsInOrder(bs)
    ensures UniqueBeneficiaries(bs + [b]) && IdsInOrder(bs + [b]) == IdsInOrder(bs) + [b.id]
  {
    assert forall i | 0 <= i < |bs| :: IdsInOrder(bs)[i] == bs[i].id;
  }

  /** The id of a recipient who joins is nobody's yet; that of one who is there is listed. */
  lemma {:induction false} NewIdIsNotListed(r: Roster, c: Cells, b: Beneficiary, line: DraftLine, given: set<string>, supply: nat -> string, p: Placement, after: Roster)
    requires KeysHold(r) && IdKeysHold(r, given) && BeneficiariesHold(r, supply)
    requires Fresh(supply, given) && Joins(c, b, line, given) && Joined(r, c, b, supply, p, after)
    ensures p.beneficiary.id in IdsInOrder(r.beneficiaries) <==> p.key in r.byKey
  {
    var ids := IdsInOrder(r.beneficiaries);
    if p.key in r.byKey {
      var i :| 0 <= i < |r.beneficiaries| && r.beneficiaries[i] == p.beneficiary;
      assert ids[i] == p.beneficiary.id;
    } else {
      forall i | 0 <= i < |ids| ensures ids[i] != p.beneficiary.id { NewIdIsNew(r, c, b, line, given, supply, p, after, i); }
    }
  }

  lemma {:induction false} BeneficiariesStay(r: Roster, c: Cells, b: Beneficiary, line: DraftLine, given: set<string>, supply: nat -> string, p: Placement, after: Roster)
    requires KeysHold(r) && IdKeysHold(r, given) && BeneficiariesHold(r, supply)
    requires Fresh(supply, given) && Joins(c, b, line, given) && Joined(r, c, b, supply, p, after)
    ensures BeneficiariesHold(after, supply)
  {
    forall i | 0 <= i < |r.beneficiaries| ensures Belongs(after, supply, r.beneficiaries[i]) {
      KnownStays(r, c, b, supply, p, after, r.beneficiaries[i]);
    }
    if p.key !in r.byKey {
      NewIdIsNotListed(r, c, b, line, given, supply, p, after);
      OneMoreUnique(r.beneficiaries, p.beneficiary);
      NewcomerIsKnown(r, c, b, line, given, supply, p, after);
    }
  }

  lemma {:induction false} HolderIsListed(r: Roster, c: Cells, b: Beneficiary, supply: nat -> string, p: Placement, after: Roster)
    requires KeysHold(r) && Joined(r, c, b, supply, p, after)
    ensures BeneficiaryIds(after.beneficiaries) == BeneficiaryIds(r.beneficiaries) + {p.beneficiary.id}
  {
    if p.key in r.byKey {
      var i :| 0 <= i < |r.beneficiaries| && r.beneficiaries[i] == p.beneficiary;
      assert r.beneficiaries[i].id in BeneficiaryIds(r.beneficiaries);
    } else {
      IdsOneMore(after.beneficiaries, |r.beneficiaries|);
      assert after.beneficiaries[..|r.beneficiaries|] == r.beneficiaries && after.beneficiaries[..|r.beneficiaries| + 1] == after.beneficiaries;
    }
  }

  lemma {:induction false} MoreHolders(lines: seq<DraftLine>, holders: set<string>, more: set<string>)
    requires SoundEvents(lines, holders) && holders <= more
    ensures SoundEvents(lines, more)
  {
  }

  lemma {:induction false} LinesStay(r: Roster, c: Cells, b: Beneficiary, given: set<string>, supply: nat -> string, p: Placement, after: Roster)
    requires KeysHold(r) && LinesHold(r, given, supply)
    requires NewLine(r, given, supply, p, after.issued) && Joined(r, c, b, supply, p, after)
    ensures LinesHold(after, given, supply)
  {
    var n := |r.aidLines|;
    HolderIsListed(r, c, b, supply, p, after);
    MoreHolders(r.aidLines, BeneficiaryIds(r.beneficiaries), BeneficiaryIds(after.beneficiaries));
    assert after.aidLines[..n] == r.aidLines && after.aidLines[..n + 1] == after.aidLines && after.aidLines[n] == p.aidLine;
    LinesOneMore(after.aidLines, n);
    LastLine(after.aidLines, BeneficiaryIds(after.beneficiaries));
    forall i | 0 <= i < |r.aidLines| && r.aidLines[i].id !in given ensures IsIssued(after.issued, supply, r.aidLines[i].id) {
      IssuedGrows(r.issued, after.issued, supply, r.aidLines[i].id);
    }
  }

  lemma {:induction false} OrderStays(r: Roster, c: Cells, b: Beneficiary, line: DraftLine, given: set<string>, supply: nat -> string, p: Placement, after: Roster)
    requires KeysHold(r) && IdKeysHold(r, given) && BeneficiariesHold(r, supply)
    requires Fresh(supply, given) && Joins(c, b, line, given) && Joined(r, c, b, supply, p, after)
    requires IdsInOrder(r.beneficiaries) == Holders(r.aidLines)
    ensures IdsInOrder(after.beneficiaries) == Holders(after.aidLines)
  {
    NewIdIsNotListed(r, c, b, line, given, supply, p, after);
    assert after.aidLines[..|after.aidLines| - 1] == r.aidLines;
    if p.key !in r.byKey { OneMoreUnique(r.beneficiaries, p.beneficiary); }
  }

  /** A rejected row changes nothing but the supply of ids. */
  lemma {:induction false} IssuedAloneKeepsInv(r: Roster, given: set<string>, supply: nat -> string, issued: nat)
    requires Inv(r, given, supply) && r.issued <= issued
    ensures Inv(r.(issued := issued), given, supply)
  {
    var after := r.(issued := issued);
    forall id: string | IsIssued(r.issued, supply, id) ensures IsIssued(issued, supply, id) { IssuedGrows(r.issued, issued, supply, id); }
    assert forall i | 0 <= i < |r.beneficiaries| :: Belongs(r, supply, r.beneficiaries[i]);
    assert BeneficiariesHold(after, supply);
    assert forall i | 0 <= i < |r.aidLines| :: r.aidLines[i].id in given || IsIssued(r.issued, supply, r.aidLines[i].id);
    assert LinesHold(after, given, supply);
  }

  lemma {:induction false} RowKeepsInv(r: Roster, c: Cells, b: Beneficiary, line: DraftLine, given: set<string>, supply: nat -> string)
    requires Inv(r, given, supply) && Fresh(supply, given) && Joins(c, b, line, given)
    ensures Inv(RosterAfter(r, b, Place(r, c, b, line, supply)), given, supply)
  {
    var p := Place(r, c, b, line, supply);
    var after := RosterAfter(r, b, p);
    if p.Rejected? {
      assert after == r.(issued := p.issued) && r.issued <= p.issued;
      IssuedAloneKeepsInv(r, given, supply, p.issued);
    } else {
      PlacedRowJoins(r, c, b, line, supply);
      PlacedLineIsNew(r, c, b, line, given, supply);
      KeysStay(r, c, b, supply, p, after);
      IdKeysStay(r, c, b, line, given, supply, p, after);
      BeneficiariesStay(r, c, b, line, given, supply, p, after);
      LinesStay(r, c, b, given, supply, p, after);
      OrderStays(r, c, b, line, given, supply, p, after);
    }
  }

  // ----- A whole table

  /** The ids a table brings along, as they are read. */
  function GivenIds(table: seq<Cells>): set<string>
  {
    (set i | 0 <= i < |table| :: Trim(table[i].idPenerima)) + (set i | 0 <= i < |table| :: Trim(table[i].idBaris))
  }

  lemma {:induction false} RowJoins(table: seq<Cells>, sharedPeriod: string, i: nat)
    requires i < |table|
    requires IsCandidate(Parsed(table, sharedPeriod)[i])
    ensures var row := Parsed(table, sharedPeriod)[i]; Joins(row.cells, row.beneficiary.value, row.aidLine.value, GivenIds(table))
  {
    TrimCellsIsTight(table[i]);
    TrimIsTight(sharedPeriod);
    ValidRowIsSound(TrimCells(table[i]), OrNone(Trim(sharedPeriod)));
  }

  lemma {:induction false} RowsKeepInv(table: seq<Cells>, sharedPeriod: string, supply: nat -> string, n: nat)
    requires n <= |table| && Fresh(supply, GivenIds(table))
    ensures Inv(Grouped(Parsed(table, sharedPeriod)[..n], supply), GivenIds(table), supply)
    decreases n
  {
    var rows := Parsed(table, sharedPeriod);
    if n > 0 {
      RowsKeepInv(table, sharedPeriod, supply, n - 1);
      assert rows[..n][..n - 1] == rows[..n - 1];
      if IsCandidate(rows[n - 1]) {
        RowJoins(table, sharedPeriod, n - 1);
        RowKeepsInv(Grouped(rows[..n - 1], supply), rows[n - 1].cells, rows[n - 1].beneficiary.value, rows[n - 1].aidLine.value, GivenIds(table), supply);
      }
    }
  }

  lemma {:induction false} ImportKeepsInv(table: seq<Cells>, sharedPeriod: string, supply: nat -> string)
    requires Fresh(supply, GivenIds(table))
    ensures Inv(Imported(table, sharedPeriod, supply), GivenIds(table), supply)
  {
    RowsKeepInv(table, sharedPeriod, supply, |table|);
    assert Parsed(table, sharedPeriod)[..|table|] == Parsed(table, sharedPeriod);
  }

  predicate OneBeneficiaryPerNik(bs: seq<Beneficiary>)
  {
    forall i, j | 0 <= i < j < |bs| && NikOf(bs[i]).Some? :: NikOf(bs[i]) != NikOf(bs[j])
  }

  lemma {:induction false} InvGivesOnePerNik(r: Roster, supply: nat -> string)
    requires BeneficiariesHold(r, supply)
    ensures OneBeneficiaryPerNik(r.beneficiaries)
  {
    forall i, j | 0 <= i < j < |r.beneficiaries| && NikOf(r.beneficiaries[i]).Some? ensures NikOf(r.beneficiaries[i]) != NikOf(r.beneficiaries[j]) {
      assert Belongs(r, supply, r.beneficiaries[i]) && Belongs(r, supply, r.beneficiaries[j]);
    }
  }

  /** The draft an import leaves has no fault the validators would find, and one recipient per NIK. */
  lemma {:induction false} ImportedDraftIsSound(table: seq<Cells>, sharedPeriod: string, supply: nat -> string)
    requires Fresh(supply, GivenIds(table))
    ensures var r := Imported(table, sharedPeriod, supply);
            DraftFaults(r.beneficiaries, r.aidLines) == [] && OneBeneficiaryPerNik(r.beneficiaries)
  {
    var r := Imported(table, sharedPeriod, supply);
    ImportKeepsInv(table, sharedPeriod, supply);
    InvGivesOnePerNik(r, supply);
    NoDraftFaults(r.beneficiaries, r.aidLines);
  }
}
