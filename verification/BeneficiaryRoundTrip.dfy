/**
 Export and import again. A draft as an import leaves it, written out as rows and imported anew,
 comes back as the same recipients and the same aid lines, whatever ids the second import generates.
 */
module BeneficiaryRoundTrip {
  import opened Options
  import opened Strings
  import opened BeneficiaryDraft
  import opened BeneficiaryTabular
  import opened BeneficiaryRows
  import opened BeneficiaryImport

  /** A faultless canonical draft, its recipients in the order their first aid lines appear. */
  ghost predicate Exportable(bs: seq<Beneficiary>, lines: seq<DraftLine>)
  {
    UniqueBeneficiaries(bs) && OneBeneficiaryPerNik(bs) && SoundEvents(lines, BeneficiaryIds(bs)) && IdsInOrder(bs) == Holders(lines) &&
    (forall i | 0 <= i < |bs| :: SoundBeneficiary(bs[i]) && CanonicalBeneficiary(bs[i])) &&
    forall i | 0 <= i < |lines| :: CanonicalLine(lines[i])
  }

  // ----- Holders

  lemma {:induction false} HoldersGrow(lines: seq<DraftLine>, n: nat)
    requires n <= |lines|
    ensures Holders(lines[..n]) <= Holders(lines)
    decreases |lines|
  {
    if n < |lines| {
      HoldersGrow(lines[..|lines| - 1], n);
      assert lines[..|lines| - 1][..n] == lines[..n];
    } else {
      assert lines[..n] == lines;
    }
  }

  lemma {:induction false} HoldersAppear(lines: seq<DraftLine>, i: nat)
    requires i < |Holders(lines)|
    ensures HasLine(lines, Holders(lines)[i])
  {
    var front := lines[..|lines| - 1];
    if i < |Holders(front)| {
      HoldersAppear(front, i);
      var k :| 0 <= k < |front| && front[k].beneficiaryId == Holders(front)[i];
      assert lines[k].beneficiaryId == Holders(lines)[i];
    } else {
      assert lines[|lines| - 1].beneficiaryId == Holders(lines)[i];
    }
  }

  lemma {:induction false} FoundById(bs: seq<Beneficiary>, j: nat)
    requires UniqueBeneficiaries(bs) && j < |bs|
    ensures BeneficiaryById(bs, bs[j].id) == Some(bs[j])
  {
    if j < |bs| - 1 { FoundById(bs[..|bs| - 1], j); }
  }

  lemma {:induction false} HolderOf(bs: seq<Beneficiary>, lines: seq<DraftLine>, n: nat) returns (j: nat)
    requires Exportable(bs, lines) && n < |lines|
    ensures j < |bs| && bs[j].id == lines[n].beneficiaryId && BeneficiaryById(bs, lines[n].beneficiaryId) == Some(bs[j])
  {
    assert lines[n].beneficiaryId in BeneficiaryIds(bs);
    j :| 0 <= j < |bs| && bs[j].id == lines[n].beneficiaryId;
    FoundById(bs, j);
  }

  // ----- The rows written out

  lemma {:induction false} NoLinelessRows(bs: seq<Beneficiary>, lines: seq<DraftLine>)
    requires forall i | 0 <= i < |bs| :: HasLine(lines, bs[i].id)
    ensures LinelessRows(bs, lines) == []
  {
    if bs != [] {
      var front := bs[..|bs| - 1];
      assert forall i | 0 <= i < |front| :: front[i] == bs[i];
      NoLinelessRows(front, lines);
    }
  }

  lemma {:induction false} EveryLineIsARow(bs: seq<Beneficiary>, lines: seq<DraftLine>)
    requires Exportable(bs, lines)
    ensures RosterRows(bs, lines) == LineRows(bs, lines)
  {
    forall i | 0 <= i < |bs| ensures HasLine(lines, bs[i].id) {
      assert bs[i].id == IdsInOrder(bs)[i];
      HoldersAppear(lines, i);
    }
    NoLinelessRows(bs, lines);
  }

  lemma {:induction false} NextInPrefix(ids: seq<string>, before: seq<string>, now: seq<string>, j: nat)
    requires forall i, k | 0 <= i < k < |ids| :: ids[i] != ids[k]
    requires j < |ids| && before <= ids && now <= ids && now == if ids[j] in before then before else before + [ids[j]]
    ensures |now| == (if j < |before| then |before| else |before| + 1) && j <= |before|
  {
    if ids[j] in before {
      var i :| 0 <= i < |before| && before[i] == ids[j];
      assert i == j;
    } else {
      assert now[|before|] == ids[j];
    }
  }

  /** The recipient of a line is among the holders so far, or the next one. */
  lemma {:induction false} NextInOrder(bs: seq<Beneficiary>, lines: seq<DraftLine>, n: nat, j: nat)
    requires Exportable(bs, lines) && n < |lines| && j < |bs| && bs[j].id == lines[n].beneficiaryId
    ensures var before := |Holders(lines[..n])|;
            before <= |bs| && |Holders(lines[..n + 1])| == (if j < before then before else before + 1) && j <= before
  {
    assert lines[..n + 1][..n] == lines[..n];
    HoldersGrow(lines, n);
    HoldersGrow(lines, n + 1);
    NextInPrefix(IdsInOrder(bs), Holders(lines[..n]), Holders(lines[..n + 1]), j);
  }

  // ----- Importing them

  ghost predicate KeysCopied(byKey: map<string, Beneficiary>, bs: seq<Beneficiary>, n: nat)
  {
    n <= |bs| && (forall key | key in byKey :: exists i | 0 <= i < n :: key == IdKey(bs[i].id) && byKey[key] == bs[i]) &&
    forall i | 0 <= i < n :: IdKey(bs[i].id) in byKey
  }

  ghost predicate NiksCopied(keyByNik: map<string, string>, bs: seq<Beneficiary>, n: nat)
  {
    n <= |bs| && forall nik | nik in keyByNik :: exists i | 0 <= i < n :: NikOf(bs[i]) == Some(nik) && keyByNik[nik] == IdKey(bs[i].id)
  }

  /** The roster of the second import after the lines done so far. */
  ghost predicate Copied(r: Roster, bs: seq<Beneficiary>, done: seq<DraftLine>)
  {
    var n := |Holders(done)|;
    KeysCopied(r.byKey, bs, n) && NiksCopied(r.keyByNik, bs, n) && r.beneficiaries == bs[..n] && LinesCopied(r, done)
  }

  ghost predicate LinesCopied(r: Roster, done: seq<DraftLine>)
  {
    r.aidLines == done && r.lineIds == LineIds(done) && r.fingerprints == Fingerprints(done)
  }

  lemma {:induction false} KeyLeadsHome(byKey: map<string, Beneficiary>, bs: seq<Beneficiary>, n: nat, j: nat)
    requires UniqueBeneficiaries(bs) && KeysCopied(byKey, bs, n) && j < |bs|
    ensures IdKey(bs[j].id) in byKey <==> j < n
    ensures j < n ==> byKey[IdKey(bs[j].id)] == bs[j]
  {
    if IdKey(bs[j].id) in byKey {
      var i :| 0 <= i < n && IdKey(bs[j].id) == IdKey(bs[i].id) && byKey[IdKey(bs[j].id)] == bs[i];
      IdKeyIsInjective(bs[i].id, bs[j].id);
    }
  }

  lemma {:induction false} NikLeadsHome(r: Roster, bs: seq<Beneficiary>, n: nat, j: nat)
    requires OneBeneficiaryPerNik(bs) && NiksCopied(r.keyByNik, bs, n) && j < |bs|
    ensures NikKey(r, bs[j]).Some? ==> NikKey(r, bs[j]).value == IdKey(bs[j].id)
  {
    var nik := NikOf(bs[j]);
    if nik.Some? && nik.value in r.keyByNik {
      var i :| 0 <= i < n && NikOf(bs[i]) == nik && r.keyByNik[nik.value] == IdKey(bs[i].id);
      assert i == j;
    }
  }

  lemma {:induction false} KeysAreCopied(byKey: map<string, Beneficiary>, bs: seq<Beneficiary>, n: nat, key: string)
    requires KeysCopied(byKey, bs, n) && n < |bs| && key == IdKey(bs[n].id)
    ensures KeysCopied(byKey[key := bs[n]], bs, n + 1)
  {
    var after := byKey[key := bs[n]];
    forall k | k in after ensures exists i | 0 <= i < n + 1 :: k == IdKey(bs[i].id) && after[k] == bs[i] {
      if k == key {
        assert after[k] == bs[n];
      } else {
        var i :| 0 <= i < n && k == IdKey(bs[i].id) && byKey[k] == bs[i];
        assert after[k] == bs[i];
      }
    }
  }

  lemma {:induction false} NiksAreCopied(keyByNik: map<string, string>, bs: seq<Beneficiary>, n: nat, now: nat, j: nat, key: string)
    requires NiksCopied(keyByNik, bs, n) && n <= now <= |bs| && j < now && key == IdKey(bs[j].id)
    ensures NiksCopied(if NikOf(bs[j]).Some? then keyByNik[NikOf(bs[j]).value := key] else keyByNik, bs, now)
  {
    var after := if NikOf(bs[j]).Some? then keyByNik[NikOf(bs[j]).value := key] else keyByNik;
    forall nik | nik in after ensures exists i | 0 <= i < now :: NikOf(bs[i]) == Some(nik) && after[nik] == IdKey(bs[i].id) {
      if NikOf(bs[j]) == Some(nik) {
        assert after[nik] == key;
      } else {
        var i :| 0 <= i < n && NikOf(bs[i]) == Some(nik) && keyByNik[nik] == IdKey(bs[i].id);
        assert after[nik] == IdKey(bs[i].id);
      }
    }
  }

  lemma {:induction false} LineIsNew(lines: seq<DraftLine>, n: nat)
    requires UniqueLines(lines) && NoRepeatedAid(lines) && n < |lines|
    ensures lines[n].id !in LineIds(lines[..n]) && FingerprintOf(lines[n]) !in Fingerprints(lines[..n])
  {
    assert forall k | 0 <= k < n :: lines[..n][k] == lines[k];
  }

  /** A row of the export is placed as what it was written from. */
  lemma {:induction false} RowIsPlaced(r: Roster, bs: seq<Beneficiary>, lines: seq<DraftLine>, n: nat, j: nat, supply: nat -> string)
    requires Exportable(bs, lines) && n < |lines| && j < |bs| && bs[j].id == lines[n].beneficiaryId && Copied(r, bs, lines[..n])
    ensures Place(r, RowCells(bs[j], lines[n]), bs[j], lines[n], supply) == Placed(IdKey(bs[j].id), bs[j], lines[n], r.issued)
  {
    KeyLeadsHome(r.byKey, bs, |Holders(lines[..n])|, j);
    NikLeadsHome(r, bs, |Holders(lines[..n])|, j);
    LineIsNew(lines, n);
    assert CanonicalBeneficiary(bs[j]) && CanonicalLine(lines[n]);
    PlacedAsWritten(r, RowCells(bs[j], lines[n]), bs[j], lines[n], supply);
  }

  lemma {:induction false} PlacedAsWritten(r: Roster, c: Cells, b: Beneficiary, line: DraftLine, supply: nat -> string)
    requires c.idPenerima == b.id == line.beneficiaryId != "" && c.idBaris == line.id != ""
    requires NikKey(r, b).Some? ==> NikKey(r, b).value == IdKey(b.id)
    requires IdKey(b.id) in r.byKey ==> r.byKey[IdKey(b.id)] == b
    requires line.id !in r.lineIds && FingerprintOf(line) !in r.fingerprints
    ensures Place(r, c, b, line, supply) == Placed(IdKey(b.id), b, line, r.issued)
  {
  }

  lemma {:induction false} LineIsCopied(r: Roster, b: Beneficiary, lines: seq<DraftLine>, n: nat, p: Placement)
    requires n < |lines| && LinesCopied(r, lines[..n]) && p.Placed? && p.aidLine == lines[n]
    ensures LinesCopied(RosterAfter(r, b, p), lines[..n + 1])
  {
    LinesOneMore(lines, n);
    assert lines[..n + 1] == lines[..n] + [lines[n]];
  }

  lemma {:induction false} RecipientIsCopied(r: Roster, bs: seq<Beneficiary>, was: nat, now: nat, j: nat, p: Placement)
    requires UniqueBeneficiaries(bs) && KeysCopied(r.byKey, bs, was) && NiksCopied(r.keyByNik, bs, was) && r.beneficiaries == bs[..was]
    requires j <= was && j < |bs| && now == if j < was then was else was + 1
    requires p.Placed? && p.key == IdKey(bs[j].id) && p.beneficiary == bs[j]
    ensures var after := RosterAfter(r, bs[j], p);
            KeysCopied(after.byKey, bs, now) && NiksCopied(after.keyByNik, bs, now) && after.beneficiaries == bs[..now]
  {
    KeyLeadsHome(r.byKey, bs, was, j);
    NiksAreCopied(r.keyByNik, bs, was, now, j, p.key);
    if j == was {
      KeysAreCopied(r.byKey, bs, was, p.key);
      assert bs[..was + 1] == bs[..was] + [bs[was]];
    }
  }

  lemma {:induction false} RowIsCopied(r: Roster, bs: seq<Beneficiary>, lines: seq<DraftLine>, n: nat, j: nat, p: Placement)
    requires Exportable(bs, lines) && n < |lines| && j < |bs| && bs[j].id == lines[n].beneficiaryId && Copied(r, bs, lines[..n])
    requires p == Placed(IdKey(bs[j].id), bs[j], lines[n], r.issued)
    ensures Copied(RosterAfter(r, bs[j], p), bs, lines[..n + 1])
  {
    NextInOrder(bs, lines, n, j);
    LineIsCopied(r, bs[j], lines, n, p);
    RecipientIsCopied(r, bs, |Holders(lines[..n])|, |Holders(lines[..n + 1])|, j, p);
  }

  lemma {:induction false} RowsOneMore(before: seq<Cells>, c: Cells, sharedPeriod: string)
    ensures Parsed(before + [c], sharedPeriod) == Parsed(before, sharedPeriod) + [ParseRow(TrimCells(c), OrNone(Trim(sharedPeriod)))]
  {
  }

  lemma {:induction false} GroupedOneMore(rows: seq<Row>, row: Row, supply: nat -> string)
    requires IsCandidate(row)
    ensures var r := Grouped(rows, supply); Grouped(rows + [row], supply) == RosterAfter(r, row.beneficiary.value, PlacementOf(r, row, supply))
  {
    assert (rows + [row])[..|rows|] == rows;
  }

  /** Importing one more row of the export. */
  lemma {:induction false} CopyGrows(before: seq<Cells>, bs: seq<Beneficiary>, lines: seq<DraftLine>, n: nat, j: nat, sharedPeriod: string, supply: nat -> string)
    requires Exportable(bs, lines) && n < |lines| && j < |bs| && bs[j].id == lines[n].beneficiaryId
    requires Copied(Imported(before, sharedPeriod, supply), bs, lines[..n])
    ensures Copied(Imported(before + [RowCells(bs[j], lines[n])], sharedPeriod, supply), bs, lines[..n + 1])
    ensures Imported(before + [RowCells(bs[j], lines[n])], sharedPeriod, supply).issued == Imported(before, sharedPeriod, supply).issued
  {
    var c, r := RowCells(bs[j], lines[n]), Imported(before, sharedPeriod, supply);
    RowsOneMore(before, c, sharedPeriod);
    RowReadsBack(bs[j], lines[n], OrNone(Trim(sharedPeriod)));
    GroupedOneMore(Parsed(before, sharedPeriod), Row(c, [], Some(bs[j]), Some(lines[n]), None), supply);
    RowIsPlaced(r, bs, lines, n, j, supply);
    RowIsCopied(r, bs, lines, n, j, Placed(IdKey(bs[j].id), bs[j], lines[n], r.issued));
  }

  lemma {:induction false} LineRowsOneMore(bs: seq<Beneficiary>, lines: seq<DraftLine>, n: nat, j: nat)
    requires n < |lines| && j < |bs| && BeneficiaryById(bs, lines[n].beneficiaryId) == Some(bs[j])
    ensures LineRows(bs, lines[..n + 1]) == LineRows(bs, lines[..n]) + [RowCells(bs[j], lines[n])]
  {
    assert lines[..n + 1][..n] == lines[..n];
  }

  lemma {:induction false} NothingCopied(bs: seq<Beneficiary>, sharedPeriod: string, supply: nat -> string)
    ensures var r := Imported(LineRows(bs, []), sharedPeriod, supply); Copied(r, bs, []) && r.issued == 0
  {
    assert Parsed([], sharedPeriod) == [];
  }

  lemma {:induction false} RowsAreCopied(bs: seq<Beneficiary>, lines: seq<DraftLine>, n: nat, sharedPeriod: string, supply: nat -> string)
    requires Exportable(bs, lines) && n <= |lines|
    ensures var r := Imported(LineRows(bs, lines[..n]), sharedPeriod, supply); Copied(r, bs, lines[..n]) && r.issued == 0
    decreases n
  {
    if n == 0 {
      NothingCopied(bs, sharedPeriod, supply);
      assert lines[..n] == [];
    } else {
      var done := n - 1;
      RowsAreCopied(bs, lines, done, sharedPeriod, supply);
      var j := HolderOf(bs, lines, done);
      LineRowsOneMore(bs, lines, done, j);
      CopyGrows(LineRows(bs, lines[..done]), bs, lines, done, j, sharedPeriod, supply);
    }
  }

  /** An exportable draft, written out and imported, comes back unchanged, down to the last row. */
  lemma {:induction false} ExportedDraftComesBack(bs: seq<Beneficiary>, lines: seq<DraftLine>, sharedPeriod: string, supply: nat -> string)
    requires Exportable(bs, lines)
    ensures var r := Imported(RosterRows(bs, lines), sharedPeriod, supply); r.beneficiaries == bs && r.aidLines == lines && r.issued == 0
  {
    EveryLineIsARow(bs, lines);
    RowsAreCopied(bs, lines, |lines|, sharedPeriod, supply);
    assert lines[..|lines|] == lines && bs[..|bs|] == bs && |IdsInOrder(bs)| == |bs|;
  }

  /** Importing a table, exporting the draft and importing that again gives the same recipients and aid lines. */
  lemma {:induction false} ReimportIsIdentity(table: seq<Cells>, sharedPeriod: string, supply: nat -> string, laterPeriod: string, laterSupply: nat -> string)
    requires Fresh(supply, GivenIds(table))
    ensures var r := Imported(table, sharedPeriod, supply);
            var again := Imported(RosterRows(r.beneficiaries, r.aidLines), laterPeriod, laterSupply);
            again.beneficiaries == r.beneficiaries && again.aidLines == r.aidLines
  {
    var r := Imported(table, sharedPeriod, supply);
    ImportKeepsInv(table, sharedPeriod, supply);
    InvGivesOnePerNik(r, supply);
    assert forall i | 0 <= i < |r.beneficiaries| :: Belongs(r, supply, r.beneficiaries[i]);
    ExportedDraftComesBack(r.beneficiaries, r.aidLines, laterPeriod, laterSupply);
  }
}
