/** What becomes of a row beside the rows above it, and what is written for recipients without aid. */
module BeneficiaryPlacementRules {
  import opened Options
  import opened Strings
  import opened BeneficiaryDraft
  import opened BeneficiaryTabular
  import opened BeneficiaryRows

  // ----- Rows beside one another

  /** The key of a NIK that is listed already, and otherwise the row's own: by its id, by its NIK, or by name and description in any case. */
  function SharedKey(r: Roster, c: Cells, b: Beneficiary): string
  {
    if b.identity.Nik? && b.identity.value in r.keyByNik then r.keyByNik[b.identity.value]
    else if c.idPenerima != "" then "id:" + c.idPenerima
    else if b.identity.Nik? then "nik:" + b.identity.value
    else "alt:" + LowerCase(b.name) + ":" + LowerCase(b.identity.description)
  }

  predicate SameDescription(a: Beneficiary, b: Beneficiary)
  {
    a.name == b.name && a.identity == b.identity && a.asnaf == b.asnaf && a.address == b.address &&
    a.guardian == b.guardian && a.paymentRecipient == b.paymentRecipient && a.contact == b.contact
  }

  /** Its NIK is listed under another id than the row's, or it describes the recipient it would join differently. */
  predicate Conflicts(r: Roster, c: Cells, b: Beneficiary)
  {
    var key := SharedKey(r, c, b);
    (c.idPenerima != "" && key != "id:" + c.idPenerima) || (key in r.byKey && !SameDescription(r.byKey[key], b))
  }

  predicate RepeatsLineId(r: Roster, c: Cells)
  {
    c.idBaris != "" && exists i | 0 <= i < |r.aidLines| :: r.aidLines[i].id == c.idBaris
  }

  /** The sets kept beside the lines are those of the lines. */
  predicate SetsAgree(r: Roster) { r.fingerprints == Fingerprints(r.aidLines) && r.lineIds == LineIds(r.aidLines) }

  lemma {:induction false} GroupingKeepsSets(rows: seq<Row>, supply: nat -> string)
    ensures SetsAgree(Grouped(rows, supply))
  {
    if rows != [] {
      var r, row := Grouped(rows[..|rows| - 1], supply), rows[|rows| - 1];
      GroupingKeepsSets(rows[..|rows| - 1], supply);
      if IsCandidate(row) && PlacementOf(r, row, supply).Placed? {
        var after := Grouped(rows, supply);
        LinesOneMore(after.aidLines, |r.aidLines|);
        assert after.aidLines[..|r.aidLines|] == r.aidLines && after.aidLines[..|r.aidLines| + 1] == after.aidLines;
      }
    }
  }

  /** The recipient a row joins has this aid already. */
  predicate RepeatsAid(r: Roster, c: Cells, b: Beneficiary, line: DraftLine, supply: nat -> string)
  {
    var key := SharedKey(r, c, b);
    var holder := if key in r.byKey then r.byKey[key].id else if c.idPenerima != "" then c.idPenerima else supply(r.issued);
    exists i | 0 <= i < |r.aidLines| ::
      r.aidLines[i].beneficiaryId == holder && r.aidLines[i].aidType == line.aidType && r.aidLines[i].period == line.period && r.aidLines[i].value == line.value
  }

  lemma {:induction false} RepeatsAidExactlyWhen(r: Roster, c: Cells, b: Beneficiary, line: DraftLine, supply: nat -> string)
    requires SetsAgree(r)
    ensures FingerprintOf(LineFor(r, c, b, line, supply)) in r.fingerprints <==> RepeatsAid(r, c, b, line, supply)
  {
    assert KeyFor(r, c, b) == SharedKey(r, c, b);
    var placed := LineFor(r, c, b, line, supply);
    if RepeatsAid(r, c, b, line, supply) {
      var i :| 0 <= i < |r.aidLines| && r.aidLines[i].beneficiaryId == placed.beneficiaryId && r.aidLines[i].aidType == line.aidType &&
        r.aidLines[i].period == line.period && r.aidLines[i].value == line.value;
      assert FingerprintOf(r.aidLines[i]) == FingerprintOf(placed);
    }
  }

  /** A row is turned away exactly for a conflict, a line id or an aid that is there already, in that order. */
  lemma {:induction false} RejectedExactlyWhen(r: Roster, c: Cells, b: Beneficiary, line: DraftLine, supply: nat -> string)
    requires SetsAgree(r)
    ensures var p := Place(r, c, b, line, supply);
      if Conflicts(r, c, b) then p.Rejected? && p.code == ConflictingRecipient
      else if RepeatsLineId(r, c) then p.Rejected? && p.code == DuplicateLineId
      else if RepeatsAid(r, c, b, line, supply) then p.Rejected? && p.code == ExactDuplicateAid
      else p.Placed?
  {
    RepeatsAidExactlyWhen(r, c, b, line, supply);
    assert KeyFor(r, c, b) == SharedKey(r, c, b);
  }

  /** A placed row adds its line as it stands, to the recipient it describes; ids it leaves open are generated. */
  lemma {:induction false} PlacedTells(r: Roster, c: Cells, b: Beneficiary, line: DraftLine, supply: nat -> string)
    requires Place(r, c, b, line, supply).Placed?
    ensures var p := Place(r, c, b, line, supply);
      var after := RosterAfter(r, b, p);
      after.aidLines == r.aidLines + [p.aidLine] && p.aidLine.beneficiaryId == p.beneficiary.id && SameDescription(p.beneficiary, b) &&
      p.aidLine.aidType == line.aidType && p.aidLine.period == line.period && p.aidLine.value == line.value && p.aidLine.evidence == line.evidence &&
      (c.idBaris != "" ==> p.aidLine.id == c.idBaris) &&
      (if SharedKey(r, c, b) in r.byKey then p.beneficiary == r.byKey[SharedKey(r, c, b)] && after.beneficiaries == r.beneficiaries
       else after.beneficiaries == r.beneficiaries + [p.beneficiary] && (c.idPenerima != "" ==> p.beneficiary.id == c.idPenerima))
  {
    assert KeyFor(r, c, b) == SharedKey(r, c, b);
  }

  /** What a row that was turned away shows: the reason alone. */
  predicate TurnedAway(shown: Row, row: Row, code: Code)
  {
    shown == Row(row.cells, [Issue(None, code)], None, None, None)
  }

  /** A row as it is shown beside the roster before it, and the roster after it: with its own issues, turned away, or with what it became. */
  predicate IsShown(row: Row, shown: Row, r: Roster, after: Roster, supply: nat -> string)
  {
    (row.issues != [] ==> shown == row.(beneficiary := None, aidLine := None)) &&
    (IsCandidate(row) ==>
       var c, b, line := row.cells, row.beneficiary.value, row.aidLine.value;
       if Conflicts(r, c, b) then TurnedAway(shown, row, ConflictingRecipient)
       else if RepeatsLineId(r, c) then TurnedAway(shown, row, DuplicateLineId)
       else if RepeatsAid(r, c, b, line, supply) then TurnedAway(shown, row, ExactDuplicateAid)
       else
         shown.cells == c && shown.issues == [] && shown.beneficiary.Some? && SameDescription(shown.beneficiary.value, b) && shown.aidLine.Some? &&
         after.aidLines == r.aidLines + [shown.aidLine.value])
  }

  lemma {:induction false} LastIsShown(rows: seq<Row>, supply: nat -> string)
    requires rows != []
    ensures var n := |rows| - 1;
      |Shown(rows, supply)| == |Shown(rows[..n], supply)| + 1 && Shown(rows, supply)[..|Shown(rows[..n], supply)|] == Shown(rows[..n], supply) &&
      IsShown(rows[n], Shown(rows, supply)[|Shown(rows[..n], supply)|], Grouped(rows[..n], supply), Grouped(rows, supply), supply)
  {
    var row, r := rows[|rows| - 1], Grouped(rows[..|rows| - 1], supply);
    GroupingKeepsSets(rows[..|rows| - 1], supply);
    if IsCandidate(row) { RejectedExactlyWhen(r, row.cells, row.beneficiary.value, row.aidLine.value, supply); }
  }

  lemma {:induction false} OneRowEach(rows: seq<Row>, supply: nat -> string)
    ensures |Shown(rows, supply)| == |rows|
  {
    if rows != [] { OneRowEach(rows[..|rows| - 1], supply); }
  }

  /** Every row is shown, none is left out. */
  lemma {:induction false} ShownTells(rows: seq<Row>, supply: nat -> string, i: nat)
    requires i < |rows|
    ensures |Shown(rows, supply)| == |rows|
    ensures IsShown(rows[i], Shown(rows, supply)[i], Grouped(rows[..i], supply), Grouped(rows[..i + 1], supply), supply)
  {
    var n := |rows| - 1;
    OneRowEach(rows, supply);
    OneRowEach(rows[..n], supply);
    LastIsShown(rows, supply);
    if i < n {
      ShownTells(rows[..n], supply, i);
      assert rows[..n][..i] == rows[..i] && rows[..n][..i + 1] == rows[..i + 1];
    } else {
      assert rows[..i + 1] == rows;
    }
  }

  // ----- Recipients without lines

  /** What is made of each member of a list that passes. */
  function Selected<T, U>(xs: seq<T>, passes: T -> bool, f: T -> U): seq<U>
  {
    if xs == [] then []
    else
      var front, x := Selected(xs[..|xs| - 1], passes, f), xs[|xs| - 1];
      if passes(x) then front + [f(x)] else front
  }

  lemma {:induction false} SelectedMember<T, U>(xs: seq<T>, passes: T -> bool, f: T -> U, y: U)
    ensures y in Selected(xs, passes, f) <==> exists i | 0 <= i < |xs| :: passes(xs[i]) && y == f(xs[i])
  {
    if xs != [] {
      var n := |xs| - 1;
      SelectedMember(xs[..n], passes, f, y);
      assert forall i | 0 <= i < n :: xs[..n][i] == xs[i];
    }
  }

  predicate Lineless(lines: seq<DraftLine>, b: Beneficiary) { forall j | 0 <= j < |lines| :: lines[j].beneficiaryId != b.id }

  /** One row for each recipient without aid, in their order, and none for the others. */
  lemma {:induction false} LinelessRowsTell(bs: seq<Beneficiary>, lines: seq<DraftLine>)
    ensures LinelessRows(bs, lines) == Selected(bs, (b: Beneficiary) => Lineless(lines, b), b => WithBeneficiary(EMPTY_CELLS, b))
  {
    if bs != [] {
      LinelessRowsTell(bs[..|bs| - 1], lines);
      assert HasLine(lines, bs[|bs| - 1].id) <==> !Lineless(lines, bs[|bs| - 1]);
    }
  }

  lemma {:induction false} LinelessCellsAreTight(b: Beneficiary)
    requires CanonicalBeneficiary(b)
    ensures TightCells(WithBeneficiary(EMPTY_CELLS, b))
  {
    AsnafIsFixed(b.asnaf);
  }

  lemma {:induction false} LinelessPersonReadsBack(b: Beneficiary)
    requires CanonicalBeneficiary(b) && SoundBeneficiary(b)
    ensures PersonOf(WithBeneficiary(EMPTY_CELLS, b)) == Some(b)
  {
    FixedWords();
    AsnafIsFixed(b.asnaf);
  }

  lemma {:induction false} LinelessAsksForAid(b: Beneficiary, sharedPeriod: Option<string>)
    requires CanonicalBeneficiary(b) && PersonOf(WithBeneficiary(EMPTY_CELLS, b)) == Some(b)
    ensures AidOf(WithBeneficiary(EMPTY_CELLS, b), sharedPeriod) == None
    ensures SpreadsheetIssues(WithBeneficiary(EMPTY_CELLS, b)) == [Issue(Some(JenisBantuan), InvalidAidType)]
  {
    AsnafIsFixed(b.asnaf);
  }

  lemma {:induction false} RowOfParts(c: Cells, sharedPeriod: Option<string>, b: Beneficiary, issue: Issue)
    requires PersonOf(c) == Some(b) && SoundBeneficiary(b) && AidOf(c, sharedPeriod) == None && SpreadsheetIssues(c) == [issue]
    ensures ParseRow(c, sharedPeriod) == Row(c, [issue], Some(b), None, None)
  {
    NoBeneficiaryFaults(b);
  }

  /** The row of a recipient without lines reads back as the recipient, and asks for the aid alone. */
  lemma {:induction false} LinelessRowReadsBack(b: Beneficiary, sharedPeriod: Option<string>)
    requires CanonicalBeneficiary(b) && SoundBeneficiary(b)
    ensures TightCells(WithBeneficiary(EMPTY_CELLS, b))
    ensures ParseRow(WithBeneficiary(EMPTY_CELLS, b), sharedPeriod) ==
      Row(WithBeneficiary(EMPTY_CELLS, b), [Issue(Some(JenisBantuan), InvalidAidType)], Some(b), None, None)
  {
    LinelessCellsAreTight(b);
    LinelessPersonReadsBack(b);
    LinelessAsksForAid(b, sharedPeriod);
    RowOfParts(WithBeneficiary(EMPTY_CELLS, b), sharedPeriod, b, Issue(Some(JenisBantuan), InvalidAidType));
  }
}
