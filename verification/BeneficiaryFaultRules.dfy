/** Which faults the draft validators report, and at which row, said of the records alone. */
module BeneficiaryFaultRules {
  import opened Options
  import opened Strings
  import opened BeneficiaryDraft

  predicate AllDigits(s: string) { s != "" && forall i | 0 <= i < |s| :: '0' <= s[i] <= '9' }

  predicate SixteenDigits(s: string) { |s| == 16 && AllDigits(s) }

  /** Digits at both ends, and between them at most one sign that is no digit, a point. */
  predicate DigitsAroundPoint(s: string)
  {
    s != "" && '0' <= s[0] <= '9' && '0' <= s[|s| - 1] <= '9' && (forall i | 0 <= i < |s| :: '0' <= s[i] <= '9' || s[i] == '.') &&
    forall i, j | 0 <= i < j < |s| :: s[i] != '.' || s[j] != '.'
  }

  lemma {:induction false} DecimalExactlyWhen(s: string)
    ensures IsExactDecimal(s) <==> DigitsAroundPoint(s)
  {
    if DigitsAroundPoint(s) && !IsWhole(s) {
      var i :| 0 <= i < |s| && s[i] == '.';
      assert IsWhole(s[..i]) && IsWhole(s[i + 1..]);
    }
    if IsExactDecimal(s) && !IsWhole(s) {
      var i :| 0 < i < |s| - 1 && s[i] == '.' && IsWhole(s[..i]) && IsWhole(s[i + 1..]);
      forall k | 0 <= k < |s| ensures k == i || '0' <= s[k] <= '9' {
        if k < i { assert s[..i][k] == s[k]; } else if k > i { assert s[i + 1..][k - i - 1] == s[k]; }
      }
    }
  }

  // ----- Faults of a draft

  lemma {:induction false} NotedMember(fields: seq<Field>, wrong: bool, field: Field, f: Field)
    ensures f in Noted(fields, wrong, field) <==> f in fields || (wrong && f == field)
  {
  }

  predicate IdentityWrong(identity: Identity)
  {
    match identity
    case Nik(value) => !SixteenDigits(value)
    case Alternative(description) => Blank(description)
  }

  predicate BeneficiaryWrong(b: Beneficiary, f: Field)
  {
    (f == Id && Blank(b.id)) || (f == Name && Blank(b.name)) || (f == Asnaf && Blank(b.asnaf)) || (f == Address && Blank(b.address)) ||
    (f == IdentityBasis && IdentityWrong(b.identity))
  }

  lemma {:induction false} BeneficiaryFaultsTell(b: Beneficiary, f: Field)
    ensures f in BeneficiaryFaults(b) <==> BeneficiaryWrong(b, f)
  {
    var one := Noted([], Blank(b.id), Id);
    var two := Noted(one, Blank(b.name), Name);
    var three := Noted(two, Blank(b.asnaf), Asnaf);
    NotedMember([], Blank(b.id), Id, f);
    NotedMember(one, Blank(b.name), Name, f);
    NotedMember(two, Blank(b.asnaf), Asnaf, f);
    NotedMember(three, Blank(b.address), Address, f);
  }

  predicate ValueWrong(value: AidValue, f: Field)
  {
    match value
    case Money(amount, _) => f == Amount && !AllDigits(amount)
    case Goods(unit, quantity, _, valued, basis) =>
      (f == Unit && Blank(unit)) || (f == Quantity && !DigitsAroundPoint(quantity)) ||
      (f == Valuation && valued.Some? && !AllDigits(valued.value)) ||
      (f == ValuationBasis && valued.Some? && (basis.None? || Blank(basis.value)))
  }

  predicate LineWrong(line: DraftLine, holders: set<string>, f: Field)
  {
    (f == Id && Blank(line.id)) || (f == Holder && line.beneficiaryId !in holders) || (f == AidType && Blank(line.aidType)) ||
    (f == Period && Blank(line.period)) || ValueWrong(line.value, f)
  }

  lemma {:induction false} ValueFaultsTell(before: seq<Field>, unit: string, quantity: string, valued: Option<string>, basis: Option<string>, f: Field)
    ensures
      f in Noted(Noted(Noted(Noted(before, Blank(unit), Unit), !IsExactDecimal(quantity), Quantity),
                       valued.Some? && !IsWhole(valued.value), Valuation),
                 valued.Some? && (basis.None? || Blank(basis.value)), ValuationBasis) <==>
      f in before || ValueWrong(Goods(unit, quantity, None, valued, basis), f)
  {
    var one := Noted(before, Blank(unit), Unit);
    var two := Noted(one, !IsExactDecimal(quantity), Quantity);
    DecimalExactlyWhen(quantity);
    NotedMember(before, Blank(unit), Unit, f);
    NotedMember(one, !IsExactDecimal(quantity), Quantity, f);
    NotedMember(two, valued.Some? && !IsWhole(valued.value), Valuation, f);
  }

  lemma {:induction false} AidLineFaultsTell(line: DraftLine, holders: set<string>, f: Field)
    ensures f in AidLineFaults(line, holders) <==> LineWrong(line, holders, f)
  {
    var one := Noted([], Blank(line.id), Id);
    var two := Noted(one, line.beneficiaryId !in holders, Holder);
    var three := Noted(two, Blank(line.aidType), AidType);
    var four := Noted(three, Blank(line.period), Period);
    NotedMember([], Blank(line.id), Id, f);
    NotedMember(one, line.beneficiaryId !in holders, Holder, f);
    NotedMember(two, Blank(line.aidType), AidType, f);
    NotedMember(three, Blank(line.period), Period, f);
    if line.value.Goods? { ValueFaultsTell(four, line.value.unit, line.value.quantityRequested, line.value.valued, line.value.basis, f); }
  }

  lemma {:induction false} WithMember(issues: seq<Fault>, more: seq<Fault>, x: Fault)
    ensures x in With(issues, more) <==> x in issues || x in more
  {
  }

  lemma {:induction false} LocatedAtRow(row: nat, fields: seq<Field>, r: nat, f: Field)
    ensures BeneficiaryFault(r, f) in InBeneficiary(row, fields) <==> r == row && f in fields
    ensures AidLineFault(r, f) in InAidLine(row, fields) <==> r == row && f in fields
    ensures AidLineFault(r, f) !in InBeneficiary(row, fields) && BeneficiaryFault(r, f) !in InAidLine(row, fields)
  {
    if r == row && f in fields {
      var i :| 0 <= i < |fields| && fields[i] == f;
      assert InBeneficiary(row, fields)[i] == BeneficiaryFault(r, f) && InAidLine(row, fields)[i] == AidLineFault(r, f);
    }
  }

  predicate RecipientIsRepeated(bs: seq<Beneficiary>, i: nat)
    requires i < |bs|
  {
    exists j | 0 <= j < i :: bs[j].id == bs[i].id
  }

  predicate LineIsRepeated(lines: seq<DraftLine>, i: nat)
    requires i < |lines|
  {
    exists j | 0 <= j < i :: lines[j].id == lines[i].id
  }

  /** Another line before it gives the same recipient the same aid, value and period, by whatever id and evidence. */
  predicate AidIsRepeated(lines: seq<DraftLine>, i: nat)
    requires i < |lines|
  {
    exists j | 0 <= j < i ::
      lines[j].beneficiaryId == lines[i].beneficiaryId && lines[j].aidType == lines[i].aidType && lines[j].period == lines[i].period && lines[j].value == lines[i].value
  }

  lemma {:induction false} BeneficiariesFaultsTell(bs: seq<Beneficiary>, i: nat, f: Field)
    ensures BeneficiaryFault(i, f) in BeneficiariesFaults(bs) <==>
      i < |bs| && (BeneficiaryWrong(bs[i], f) || (f == Id && RecipientIsRepeated(bs, i)))
    ensures AidLineFault(i, f) !in BeneficiariesFaults(bs)
  {
    if bs != [] {
      var n := |bs| - 1;
      var front, last := bs[..n], bs[n];
      var fields := FaultsOfBeneficiary(last, BeneficiaryIds(front));
      BeneficiariesFaultsTell(front, i, f);
      BeneficiaryFaultsTell(last, f);
      NotedMember(BeneficiaryFaults(last), last.id in BeneficiaryIds(front), Id, f);
      LocatedAtRow(n, fields, i, f);
      WithMember(BeneficiariesFaults(front), InBeneficiary(n, fields), BeneficiaryFault(i, f));
      WithMember(BeneficiariesFaults(front), InBeneficiary(n, fields), AidLineFault(i, f));
      assert forall j | 0 <= j < n :: front[j] == bs[j];
      assert last.id in BeneficiaryIds(front) <==> RecipientIsRepeated(bs, n);
      if i < n { assert RecipientIsRepeated(front, i) <==> RecipientIsRepeated(bs, i); }
    }
  }

  lemma {:induction false} RepeatedAsBefore(lines: seq<DraftLine>, n: nat, i: nat)
    requires i < n <= |lines|
    ensures LineIsRepeated(lines[..n], i) <==> LineIsRepeated(lines, i)
    ensures AidIsRepeated(lines[..n], i) <==> AidIsRepeated(lines, i)
  {
    assert forall j | 0 <= j < n :: lines[..n][j] == lines[j];
  }

  lemma {:induction false} LastIsRepeated(lines: seq<DraftLine>)
    requires lines != []
    ensures var n := |lines| - 1;
      (lines[n].id in LineIds(lines[..n]) <==> LineIsRepeated(lines, n)) && (FingerprintOf(lines[n]) in Fingerprints(lines[..n]) <==> AidIsRepeated(lines, n))
  {
    var n := |lines| - 1;
    assert forall j | 0 <= j < n :: lines[..n][j] == lines[j];
    assert forall j | 0 <= j < n :: FingerprintOf(lines[..n][j]) == FingerprintOf(lines[j]);
    if AidIsRepeated(lines, n) {
      var j :| 0 <= j < n && lines[j].beneficiaryId == lines[n].beneficiaryId && lines[j].aidType == lines[n].aidType &&
        lines[j].period == lines[n].period && lines[j].value == lines[n].value;
      assert FingerprintOf(lines[..n][j]) in Fingerprints(lines[..n]);
    }
  }

  lemma {:induction false} AidLinesFaultsTell(lines: seq<DraftLine>, holders: set<string>, i: nat, f: Field)
    ensures AidLineFault(i, f) in AidLinesFaults(lines, holders) <==>
      i < |lines| && (LineWrong(lines[i], holders, f) || (f == Id && LineIsRepeated(lines, i)) || (f == RepeatedAid && AidIsRepeated(lines, i)))
    ensures BeneficiaryFault(i, f) !in AidLinesFaults(lines, holders)
  {
    if lines != [] {
      var n := |lines| - 1;
      var front, last := lines[..n], lines[n];
      var own := AidLineFaults(last, holders);
      var withId := Noted(own, last.id in LineIds(front), Id);
      var fields := FaultsOfLine(last, holders, LineIds(front), Fingerprints(front));
      AidLinesFaultsTell(front, holders, i, f);
      AidLineFaultsTell(last, holders, f);
      NotedMember(own, last.id in LineIds(front), Id, f);
      NotedMember(withId, FingerprintOf(last) in Fingerprints(front), RepeatedAid, f);
      LocatedAtRow(n, fields, i, f);
      WithMember(AidLinesFaults(front, holders), InAidLine(n, fields), AidLineFault(i, f));
      WithMember(AidLinesFaults(front, holders), InAidLine(n, fields), BeneficiaryFault(i, f));
      LastIsRepeated(lines);
      if i < n { RepeatedAsBefore(lines, n, i); }
    }
  }

  /** Each fault is reported at its row exactly when it is there. */
  lemma {:induction false} FaultExactlyWhen(bs: seq<Beneficiary>, lines: seq<DraftLine>, i: nat, f: Field)
    ensures BeneficiaryFault(i, f) in DraftFaults(bs, lines) <==>
      i < |bs| && (BeneficiaryWrong(bs[i], f) || (f == Id && RecipientIsRepeated(bs, i)))
    ensures AidLineFault(i, f) in DraftFaults(bs, lines) <==>
      i < |lines| && (LineWrong(lines[i], BeneficiaryIds(bs), f) || (f == Id && LineIsRepeated(lines, i)) || (f == RepeatedAid && AidIsRepeated(lines, i)))
  {
    BeneficiariesFaultsTell(bs, i, f);
    AidLinesFaultsTell(lines, BeneficiaryIds(bs), i, f);
    WithMember(BeneficiariesFaults(bs), AidLinesFaults(lines, BeneficiaryIds(bs)), BeneficiaryFault(i, f));
    WithMember(BeneficiariesFaults(bs), AidLinesFaults(lines, BeneficiaryIds(bs)), AidLineFault(i, f));
  }
}
