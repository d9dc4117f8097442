/** What a spreadsheet row stands for, cell by cell, and which of its cells are reported. */
module BeneficiaryCellRules {
  import opened Options
  import opened Strings
  import opened BeneficiaryDraft
  import opened BeneficiaryTabular
  import opened BeneficiaryRows
  import opened BeneficiaryFaultRules

  // ----- What a row says

  /** A kind may be left out when a cell that only one kind has is filled. */
  predicate SaysNik(c: Cells) { LowerCase(c.dasarIdentitas) == "nik" || (c.dasarIdentitas == "" && c.nik != "") }

  predicate SaysAlternative(c: Cells)
  {
    LowerCase(c.dasarIdentitas) == "alternatif" || (c.dasarIdentitas == "" && c.nik == "" && c.keteranganIdentitas != "")
  }

  predicate SaysMoney(c: Cells) { LowerCase(c.jenisBantuan) == "uang" || (c.jenisBantuan == "" && c.nilaiIdr != "") }

  predicate SaysGoods(c: Cells)
  {
    LowerCase(c.jenisBantuan) == "barang" || (c.jenisBantuan == "" && c.nilaiIdr == "" && (c.jumlahBarang != "" || c.satuanBarang != ""))
  }

  /** The eight categories in any case, two of them in two spellings. */
  predicate MeansAsnaf(cell: string, asnaf: string)
  {
    var said := LowerCase(cell);
    (asnaf == "FAKIR" && said == "fakir") || (asnaf == "MISKIN" && said == "miskin") || (asnaf == "AMIL" && said == "amil") ||
    (asnaf == "MUALAF" && (said == "mualaf" || said == "muallaf")) || (asnaf == "RIQAB" && said == "riqab") ||
    (asnaf == "GHARIM" && (said == "gharim" || said == "gharimin")) || (asnaf == "FISABILILLAH" && said == "fisabilillah") ||
    (asnaf == "IBNU_SABIL" && said == "ibnu_sabil")
  }

  predicate KnownAsnaf(cell: string)
  {
    LowerCase(cell) in {"fakir", "miskin", "amil", "mualaf", "muallaf", "riqab", "gharim", "gharimin", "fisabilillah", "ibnu_sabil"}
  }

  lemma {:induction false} WordFolds(cell: string, upper: string, lower: string)
    requires UpperCase(upper) == upper && LowerCase(upper) == lower
    ensures UpperCase(cell) == upper <==> LowerCase(cell) == lower
  {
    CasesFoldAlike(cell, upper);
  }

  lemma {:induction false} KindsAreWords(c: Cells)
    ensures UpperCase(c.dasarIdentitas) == "NIK" <==> LowerCase(c.dasarIdentitas) == "nik"
    ensures UpperCase(c.dasarIdentitas) == "ALTERNATIF" <==> LowerCase(c.dasarIdentitas) == "alternatif"
    ensures UpperCase(c.jenisBantuan) == "UANG" <==> LowerCase(c.jenisBantuan) == "uang"
    ensures UpperCase(c.jenisBantuan) == "BARANG" <==> LowerCase(c.jenisBantuan) == "barang"
  {
    assert LowerCase("NIK") == "nik" && LowerCase("ALTERNATIF") == "alternatif" && LowerCase("UANG") == "uang" && LowerCase("BARANG") == "barang";
    FixedWords();
    WordFolds(c.dasarIdentitas, "NIK", "nik");
    WordFolds(c.dasarIdentitas, "ALTERNATIF", "alternatif");
    WordFolds(c.jenisBantuan, "UANG", "uang");
    WordFolds(c.jenisBantuan, "BARANG", "barang");
  }

  lemma {:induction false} FirstAsnafs(cell: string)
    ensures UpperCase(cell) == "FAKIR" <==> LowerCase(cell) == "fakir"
    ensures UpperCase(cell) == "MISKIN" <==> LowerCase(cell) == "miskin"
    ensures UpperCase(cell) == "AMIL" <==> LowerCase(cell) == "amil"
    ensures UpperCase(cell) == "MUALAF" <==> LowerCase(cell) == "mualaf"
    ensures UpperCase(cell) == "MUALLAF" <==> LowerCase(cell) == "muallaf"
  {
    assert LowerCase("FAKIR") == "fakir" && LowerCase("MISKIN") == "miskin" && LowerCase("AMIL") == "amil" && LowerCase("MUALAF") == "mualaf" && LowerCase("MUALLAF") == "muallaf";
    assert UpperCase("FAKIR") == "FAKIR" && UpperCase("MISKIN") == "MISKIN" && UpperCase("AMIL") == "AMIL" && UpperCase("MUALAF") == "MUALAF" && UpperCase("MUALLAF") == "MUALLAF";
    WordFolds(cell, "FAKIR", "fakir");
    WordFolds(cell, "MISKIN", "miskin");
    WordFolds(cell, "AMIL", "amil");
    WordFolds(cell, "MUALAF", "mualaf");
    WordFolds(cell, "MUALLAF", "muallaf");
  }

  lemma {:induction false} OtherAsnafs(cell: string)
    ensures UpperCase(cell) == "RIQAB" <==> LowerCase(cell) == "riqab"
    ensures UpperCase(cell) == "GHARIM" <==> LowerCase(cell) == "gharim"
    ensures UpperCase(cell) == "GHARIMIN" <==> LowerCase(cell) == "gharimin"
    ensures UpperCase(cell) == "FISABILILLAH" <==> LowerCase(cell) == "fisabilillah"
    ensures UpperCase(cell) == "IBNU_SABIL" <==> LowerCase(cell) == "ibnu_sabil"
  {
    assert LowerCase("RIQAB") == "riqab" && LowerCase("GHARIM") == "gharim" && LowerCase("GHARIMIN") == "gharimin" && LowerCase("FISABILILLAH") == "fisabilillah" && LowerCase("IBNU_SABIL") == "ibnu_sabil";
    assert UpperCase("RIQAB") == "RIQAB" && UpperCase("GHARIM") == "GHARIM" && UpperCase("GHARIMIN") == "GHARIMIN" && UpperCase("FISABILILLAH") == "FISABILILLAH" && UpperCase("IBNU_SABIL") == "IBNU_SABIL";
    WordFolds(cell, "RIQAB", "riqab");
    WordFolds(cell, "GHARIM", "gharim");
    WordFolds(cell, "GHARIMIN", "gharimin");
    WordFolds(cell, "FISABILILLAH", "fisabilillah");
    WordFolds(cell, "IBNU_SABIL", "ibnu_sabil");
  }

  lemma {:induction false} AsnafIsMeant(cell: string)
    ensures CanonicalAsnaf(cell) in VALID_ASNAF <==> KnownAsnaf(cell)
    ensures KnownAsnaf(cell) ==> MeansAsnaf(cell, CanonicalAsnaf(cell))
    ensures CanonicalAsnaf(cell) == "" <==> cell == ""
    ensures Tight(cell) ==> (Blank(CanonicalAsnaf(cell)) <==> cell == "")
  {
    FirstAsnafs(cell);
    OtherAsnafs(cell);
    if Tight(cell) && cell != "" { assert !IsSpace(CanonicalAsnaf(cell)[0]); }
  }

  /** The kinds a row states or lets one infer. */
  datatype Said = Said(nik: bool, alternative: bool, money: bool, goods: bool, knownAsnaf: bool) {
    predicate Person() { nik || alternative }
    predicate Aid() { money || goods }
  }

  function SaidBy(c: Cells): Said { Said(SaysNik(c), SaysAlternative(c), SaysMoney(c), SaysGoods(c), KnownAsnaf(c.asnaf)) }

  // ----- The record a row stands for

  predicate RelatedOfRow(r: Option<Related>, name: string, relation: string)
  {
    (r.Some? <==> name != "" && relation != "") && (r.Some? ==> r.value.name == name && r.value.relation == relation)
  }

  /** A cell that is filled, and nothing for one that is not. */
  predicate IsCell(o: Option<string>, cell: string) { if cell == "" then o.None? else o == Some(cell) }

  predicate NameOfRow(said: Said, c: Cells, b: Beneficiary)
  {
    b.name == c.nama && b.address == c.alamatCakupan && b.identity == if said.nik then Nik(c.nik) else Alternative(c.keteranganIdentitas)
  }

  predicate PersonOfRow(said: Said, c: Cells, b: Beneficiary)
  {
    NameOfRow(said, c, b) && (c.idPenerima != "" ==> b.id == c.idPenerima) &&
    RelatedOfRow(b.guardian, c.namaPerwakilan, c.hubunganPerwakilan) && RelatedOfRow(b.paymentRecipient, c.namaPenerimaPembayaran, c.hubunganPenerimaPembayaran) &&
    (b.contact.None? <==> c.kontakTelepon == "" && c.kontakEmail == "" && c.kontakRelasi == "") &&
    (b.contact.Some? ==>
       IsCell(b.contact.value.phone, c.kontakTelepon) && IsCell(b.contact.value.email, c.kontakEmail) && IsCell(b.contact.value.relation, c.kontakRelasi))
  }

  predicate ValueOfRow(said: Said, c: Cells, v: AidValue)
  {
    if said.money then v == Money(c.nilaiIdr, None)
    else
      v.Goods? && v.unit == c.satuanBarang && v.quantityRequested == c.jumlahBarang && v.quantityApproved.None? &&
      IsCell(v.valued, c.nilaiIdrBarang) && IsCell(v.basis, c.dasarValuasiBarang)
  }

  /** A row without its own period takes the one shared from the form, and a line without a name that of its kind. */
  predicate LineOfRow(said: Said, c: Cells, sharedPeriod: Option<string>, line: DraftLine)
  {
    ValueOfRow(said, c, line.value) && (c.idBaris != "" ==> line.id == c.idBaris) && IsCell(line.evidence, c.referensiBukti) &&
    line.aidType == (if c.namaBantuan != "" then c.namaBantuan else if said.money then "UANG" else "BARANG") &&
    line.period == (if c.periodeBantuan != "" then c.periodeBantuan else if sharedPeriod.Some? then sharedPeriod.value else "")
  }

  /** One of the eight categories, where the cell names one. */
  predicate AsnafOfRow(c: Cells, asnaf: string)
  {
    (asnaf == "" <==> c.asnaf == "") && (KnownAsnaf(c.asnaf) ==> MeansAsnaf(c.asnaf, asnaf))
  }

  lemma {:induction false} PersonTells(c: Cells)
    ensures PersonOf(c).Some? <==> SaidBy(c).Person()
    ensures PersonOf(c).Some? ==> PersonOfRow(SaidBy(c), c, PersonOf(c).value)
  {
    KindsAreWords(c);
  }

  lemma {:induction false} AsnafTells(c: Cells)
    requires PersonOf(c).Some?
    ensures AsnafOfRow(c, PersonOf(c).value.asnaf)
  {
    AsnafIsMeant(c.asnaf);
  }

  lemma {:induction false} AidTells(c: Cells, sharedPeriod: Option<string>)
    ensures AidOf(c, sharedPeriod).Some? <==> SaidBy(c).Aid()
    ensures AidOf(c, sharedPeriod).Some? ==> LineOfRow(SaidBy(c), c, sharedPeriod, AidOf(c, sharedPeriod).value)
  {
    KindsAreWords(c);
  }

  /** What a row stands for, and when it stands for nothing. */
  lemma {:induction false} RowTells(c: Cells, sharedPeriod: Option<string>)
    ensures var row := ParseRow(c, sharedPeriod);
      row.cells == c && (row.beneficiary.Some? <==> SaidBy(c).Person()) && (row.aidLine.Some? <==> SaidBy(c).Aid()) &&
      (row.beneficiary.Some? ==> PersonOfRow(SaidBy(c), c, row.beneficiary.value) && AsnafOfRow(c, row.beneficiary.value.asnaf)) &&
      (row.aidLine.Some? ==> LineOfRow(SaidBy(c), c, sharedPeriod, row.aidLine.value)) &&
      (row.beneficiary.Some? && row.aidLine.Some? ==> row.aidLine.value.beneficiaryId == row.beneficiary.value.id)
  {
    PersonTells(c);
    AidTells(c, sharedPeriod);
    if PersonOf(c).Some? { AsnafTells(c); }
  }

  // ----- The issues of a row

  predicate IdentityCellWrong(said: Said, c: Cells, column: Column, code: Code)
  {
    (column == NikCell && code == InvalidNik && said.nik && !SixteenDigits(c.nik)) ||
    (column == KeteranganIdentitas && code == InvalidIdentityBasis && said.alternative && c.keteranganIdentitas == "")
  }

  predicate PersonCellWrong(said: Said, c: Cells, column: Column, code: Code)
  {
    (column == DasarIdentitas && code == InvalidIdentityBasis && !said.Person()) ||
    IdentityCellWrong(said, c, column, code) ||
    (column == Nama && code == RequiredFieldMissing && said.Person() && c.nama == "") ||
    (column == AlamatCakupan && code == RequiredFieldMissing && said.Person() && c.alamatCakupan == "") ||
    (column == AsnafCell && code == RequiredFieldMissing && said.Person() && c.asnaf == "") ||
    (column == AsnafCell && code == InvalidAsnaf && c.asnaf != "" && !said.knownAsnaf)
  }

  /** A name without its relation, or a relation without its name. */
  predicate RelationWrong(c: Cells, column: Column, code: Code)
  {
    (code == MissingGuardianRelation &&
     ((column == NamaPerwakilan && c.namaPerwakilan == "" && c.hubunganPerwakilan != "") ||
      (column == HubunganPerwakilan && c.namaPerwakilan != "" && c.hubunganPerwakilan == ""))) ||
    (code == MissingPaymentRecipientRelation &&
     ((column == NamaPenerimaPembayaran && c.namaPenerimaPembayaran == "" && c.hubunganPenerimaPembayaran != "") ||
      (column == HubunganPenerimaPembayaran && c.namaPenerimaPembayaran != "" && c.hubunganPenerimaPembayaran == "")))
  }

  predicate ValueCellWrong(said: Said, c: Cells, column: Column, code: Code)
  {
    (column == NilaiIdr && code == InvalidAmount && said.money && !AllDigits(c.nilaiIdr)) ||
    (column == SatuanBarang && code == MissingUnit && said.goods && c.satuanBarang == "") ||
    (column == JumlahBarang && code == InvalidQuantity && said.goods && !DigitsAroundPoint(c.jumlahBarang)) ||
    (column == NilaiIdrBarang && code == InvalidAmount && said.goods && c.nilaiIdrBarang != "" && !AllDigits(c.nilaiIdrBarang)) ||
    (column == DasarValuasiBarang && code == RequiredFieldMissing && said.goods && c.nilaiIdrBarang != "" && c.dasarValuasiBarang == "")
  }

  predicate AidCellWrong(said: Said, c: Cells, sharedPeriod: Option<string>, column: Column, code: Code)
  {
    (column == JenisBantuan && code == InvalidAidType && !said.Aid()) ||
    (column == PeriodeBantuan && code == RequiredFieldMissing && said.Aid() && c.periodeBantuan == "" && sharedPeriod.None?) ||
    ValueCellWrong(said, c, column, code)
  }

  lemma {:induction false} ReportedMember(issues: seq<Issue>, wrong: bool, column: Column, code: Code, x: Issue)
    ensures x in Reported(issues, wrong, column, code) <==> x in issues || (wrong && x == Issue(Some(column), code))
  {
  }

  lemma {:induction false} HalfFilledMember(issues: seq<Issue>, name: string, relation: string, nameColumn: Column, relationColumn: Column, code: Code, x: Issue)
    ensures x in HalfFilled(issues, name, relation, nameColumn, relationColumn, code) <==>
      x in issues || (name == "" && relation != "" && x == Issue(Some(nameColumn), code)) ||
      (name != "" && relation == "" && x == Issue(Some(relationColumn), code))
  {
    ReportedMember(issues, name == "" && relation != "", nameColumn, code, x);
    ReportedMember(Reported(issues, name == "" && relation != "", nameColumn, code), name != "" && relation == "", relationColumn, code, x);
  }

  predicate SpreadsheetCellWrong(said: Said, c: Cells, column: Column, code: Code)
  {
    (column == DasarIdentitas && code == InvalidIdentityBasis && !said.Person()) || RelationWrong(c, column, code) ||
    (column == AsnafCell && code == InvalidAsnaf && c.asnaf != "" && !said.knownAsnaf) ||
    (column == JenisBantuan && code == InvalidAidType && !said.Aid())
  }

  lemma {:induction false} UnknownAsnaf(c: Cells)
    ensures CanonicalAsnaf(c.asnaf) != "" && CanonicalAsnaf(c.asnaf) !in VALID_ASNAF <==> c.asnaf != "" && !KnownAsnaf(c.asnaf)
  {
    AsnafIsMeant(c.asnaf);
  }

  /** The checks one after the other, each adding its issue. */
  lemma {:induction false} ChainTells(noIdentity: bool, badAsnaf: bool, name: string, relation: string, payee: string, payeeRelation: string, noValue: bool,
                                      column: Column, code: Code) returns (all: seq<Issue>)
    ensures
      var known := Reported(Reported([], noIdentity, DasarIdentitas, InvalidIdentityBasis), badAsnaf, AsnafCell, InvalidAsnaf);
      var guardian := HalfFilled(known, name, relation, NamaPerwakilan, HubunganPerwakilan, MissingGuardianRelation);
      var paid := HalfFilled(guardian, payee, payeeRelation, NamaPenerimaPembayaran, HubunganPenerimaPembayaran, MissingPaymentRecipientRelation);
      all == Reported(paid, noValue, JenisBantuan, InvalidAidType)
    ensures Issue(Some(column), code) in all <==>
      (column == DasarIdentitas && code == InvalidIdentityBasis && noIdentity) || (column == AsnafCell && code == InvalidAsnaf && badAsnaf) ||
      (code == MissingGuardianRelation &&
       ((column == NamaPerwakilan && name == "" && relation != "") || (column == HubunganPerwakilan && name != "" && relation == ""))) ||
      (code == MissingPaymentRecipientRelation &&
       ((column == NamaPenerimaPembayaran && payee == "" && payeeRelation != "") ||
        (column == HubunganPenerimaPembayaran && payee != "" && payeeRelation == ""))) ||
      (column == JenisBantuan && code == InvalidAidType && noValue)
  {
    var x := Issue(Some(column), code);
    var identity := Reported([], noIdentity, DasarIdentitas, InvalidIdentityBasis);
    var known := Reported(identity, badAsnaf, AsnafCell, InvalidAsnaf);
    var guardian := HalfFilled(known, name, relation, NamaPerwakilan, HubunganPerwakilan, MissingGuardianRelation);
    var paid := HalfFilled(guardian, payee, payeeRelation, NamaPenerimaPembayaran, HubunganPenerimaPembayaran, MissingPaymentRecipientRelation);
    all := Reported(paid, noValue, JenisBantuan, InvalidAidType);
    ReportedMember([], noIdentity, DasarIdentitas, InvalidIdentityBasis, x);
    ReportedMember(identity, badAsnaf, AsnafCell, InvalidAsnaf, x);
    HalfFilledMember(known, name, relation, NamaPerwakilan, HubunganPerwakilan, MissingGuardianRelation, x);
    HalfFilledMember(guardian, payee, payeeRelation, NamaPenerimaPembayaran, HubunganPenerimaPembayaran, MissingPaymentRecipientRelation, x);
    ReportedMember(paid, noValue, JenisBantuan, InvalidAidType, x);
  }

  lemma {:induction false} KindsMissing(c: Cells)
    ensures IdentityOf(c).None? <==> !SaidBy(c).Person()
    ensures AidValueOf(c).None? <==> !SaidBy(c).Aid()
  {
    KindsAreWords(c);
  }

  lemma {:induction false} SpreadsheetIssuesTell(c: Cells, column: Column, code: Code)
    ensures Issue(Some(column), code) in SpreadsheetIssues(c) <==> SpreadsheetCellWrong(SaidBy(c), c, column, code)
  {
    var badAsnaf := CanonicalAsnaf(c.asnaf) != "" && CanonicalAsnaf(c.asnaf) !in VALID_ASNAF;
    KindsMissing(c);
    UnknownAsnaf(c);
    var all := ChainTells(IdentityOf(c).None?, badAsnaf, c.namaPerwakilan, c.hubunganPerwakilan, c.namaPenerimaPembayaran, c.hubunganPenerimaPembayaran,
                          AidValueOf(c).None?, column, code);
    assert SpreadsheetIssues(c) == all;
  }

  function ShownAt(nik: bool, column: Column, code: Code): Field -> bool { f => ColumnOf(f, nik) == Some((column, code)) }

  predicate Any(fields: seq<Field>, p: Field -> bool) { exists f | f in fields :: p(f) }

  lemma {:induction false} AnySnoc(fields: seq<Field>, f: Field, p: Field -> bool)
    ensures Any(fields + [f], p) <==> Any(fields, p) || p(f)
  {
    assert f in fields + [f];
    if Any(fields, p) {
      var g :| g in fields && p(g);
      assert g in fields + [f];
    }
  }

  lemma {:induction false} PlaceSnoc(issues: seq<Issue>, place: Option<(Column, Code)>, column: Column, code: Code)
    ensures Issue(Some(column), code) in (if place.Some? then issues + [Issue(Some(place.value.0), place.value.1)] else issues) <==>
      Issue(Some(column), code) in issues || place == Some((column, code))
  {
  }

  lemma {:induction false} LocatedMember(issues: seq<Issue>, fields: seq<Field>, nik: bool, column: Column, code: Code)
    ensures Issue(Some(column), code) in Located(issues, fields, nik) <==>
      Issue(Some(column), code) in issues || Any(fields, ShownAt(nik, column, code))
    decreases |fields|
  {
    if fields != [] {
      var front, last := fields[..|fields| - 1], fields[|fields| - 1];
      LocatedMember(issues, front, nik, column, code);
      PlaceSnoc(Located(issues, front, nik), ColumnOf(last, nik), column, code);
      AnySnoc(front, last, ShownAt(nik, column, code));
      assert fields == front + [last];
    }
  }

  /** The field a column shows under a code. */
  function FieldAt(nik: bool, column: Column, code: Code): Option<Field>
  {
    if column == Nama && code == RequiredFieldMissing then Some(Name)
    else if column == AsnafCell && code == RequiredFieldMissing then Some(Asnaf)
    else if column == AlamatCakupan && code == RequiredFieldMissing then Some(Address)
    else if column == NikCell && code == InvalidNik && nik then Some(IdentityBasis)
    else if column == KeteranganIdentitas && code == InvalidIdentityBasis && !nik then Some(IdentityBasis)
    else if column == NamaBantuan && code == RequiredFieldMissing then Some(AidType)
    else if column == PeriodeBantuan && code == RequiredFieldMissing then Some(Period)
    else if column == NilaiIdr && code == InvalidAmount then Some(Amount)
    else if column == SatuanBarang && code == MissingUnit then Some(Unit)
    else if column == JumlahBarang && code == InvalidQuantity then Some(Quantity)
    else if column == NilaiIdrBarang && code == InvalidAmount then Some(Valuation)
    else if column == DasarValuasiBarang && code == RequiredFieldMissing then Some(ValuationBasis)
    else None
  }

  lemma {:induction false} ColumnTells(f: Field, nik: bool, column: Column, code: Code)
    ensures ColumnOf(f, nik) == Some((column, code)) <==> FieldAt(nik, column, code) == Some(f)
  {
  }

  lemma {:induction false} ShownTells(fields: seq<Field>, nik: bool, column: Column, code: Code, shown: Option<Field>)
    requires shown == FieldAt(nik, column, code)
    ensures Any(fields, ShownAt(nik, column, code)) <==> shown.Some? && shown.value in fields
  {
    forall f: Field ensures ShownAt(nik, column, code)(f) <==> shown == Some(f) { ColumnTells(f, nik, column, code); }
  }

  predicate PersonFound(b: Beneficiary, column: Column, code: Code)
  {
    var shown := FieldAt(b.identity.Nik?, column, code);
    shown.Some? && BeneficiaryWrong(b, shown.value)
  }

  predicate LineFound(line: DraftLine, column: Column, code: Code)
  {
    var shown := FieldAt(false, column, code);
    shown.Some? && LineWrong(line, {line.beneficiaryId}, shown.value)
  }

  lemma {:induction false} FilledIsNotBlank(cell: string)
    requires Tight(cell)
    ensures Blank(cell) <==> cell == ""
  {
  }

  lemma {:induction false} IdentityCellsTell(said: Said, c: Cells, identity: Identity, column: Column, code: Code, shown: Option<Field>)
    requires shown == FieldAt(identity.Nik?, column, code) && Tight(c.keteranganIdentitas) && said.Person() && !(said.nik && said.alternative)
    requires identity == if said.nik then Nik(c.nik) else Alternative(c.keteranganIdentitas)
    ensures IdentityCellWrong(said, c, column, code) <==> shown == Some(IdentityBasis) && IdentityWrong(identity)
  {
    FilledIsNotBlank(c.keteranganIdentitas);
  }

  lemma {:induction false} PersonFoundTells(b: Beneficiary, column: Column, code: Code, shown: Option<Field>)
    requires shown == FieldAt(b.identity.Nik?, column, code)
    ensures PersonFound(b, column, code) <==>
      (shown == Some(Name) && Blank(b.name)) || (shown == Some(Asnaf) && Blank(b.asnaf)) || (shown == Some(Address) && Blank(b.address)) ||
      (shown == Some(IdentityBasis) && IdentityWrong(b.identity))
  {
  }

  lemma {:induction false} NameCellsTell(said: Said, c: Cells, nik: bool, wrong: bool, column: Column, code: Code, shown: Option<Field>)
    requires shown == FieldAt(nik, column, code) && said.Person()
    requires IdentityCellWrong(said, c, column, code) <==> shown == Some(IdentityBasis) && wrong
    ensures PersonCellWrong(said, c, column, code) && !(column == AsnafCell && code == InvalidAsnaf) <==>
      (shown == Some(Name) && c.nama == "") || (shown == Some(Asnaf) && c.asnaf == "") || (shown == Some(Address) && c.alamatCakupan == "") ||
      (shown == Some(IdentityBasis) && wrong)
  {
  }

  /** What is wrong with a person, seen from the cells it was read from. */
  lemma {:induction false} PersonCellsTell(said: Said, c: Cells, b: Beneficiary, column: Column, code: Code)
    requires Tight(c.nama) && Tight(c.alamatCakupan) && Tight(c.keteranganIdentitas)
    requires said.Person() && !(said.nik && said.alternative) && NameOfRow(said, c, b) && (Blank(b.asnaf) <==> c.asnaf == "")
    ensures PersonFound(b, column, code) <==>
      PersonCellWrong(said, c, column, code) && !(column == AsnafCell && code == InvalidAsnaf)
  {
    var shown := FieldAt(b.identity.Nik?, column, code);
    FilledIsNotBlank(c.nama);
    FilledIsNotBlank(c.alamatCakupan);
    IdentityCellsTell(said, c, b.identity, column, code, shown);
    PersonFoundTells(b, column, code, shown);
    NameCellsTell(said, c, b.identity.Nik?, IdentityWrong(b.identity), column, code, shown);
  }

  lemma {:induction false} MoneyCellsTell(said: Said, c: Cells, column: Column, code: Code, shown: Option<Field>)
    requires shown == FieldAt(false, column, code) && said.money && !said.goods
    ensures ValueCellWrong(said, c, column, code) <==> shown.Some? && ValueWrong(Money(c.nilaiIdr, None), shown.value)
  {
  }

  /** The value and its basis, each where it is given. */
  lemma {:induction false} ValuationTells(c: Cells, valued: Option<string>, basis: Option<string>)
    requires IsCell(valued, c.nilaiIdrBarang) && IsCell(basis, c.dasarValuasiBarang) && Tight(c.dasarValuasiBarang)
    ensures valued.Some? && !AllDigits(valued.value) <==> c.nilaiIdrBarang != "" && !AllDigits(c.nilaiIdrBarang)
    ensures valued.Some? && (basis.None? || Blank(basis.value)) <==> c.nilaiIdrBarang != "" && c.dasarValuasiBarang == ""
  {
    FilledIsNotBlank(c.dasarValuasiBarang);
  }

  lemma {:induction false} GoodsCellsTell(said: Said, c: Cells, valued: Option<string>, basis: Option<string>, column: Column, code: Code, shown: Option<Field>)
    requires shown == FieldAt(false, column, code) && said.goods && !said.money
    requires Blank(c.satuanBarang) <==> c.satuanBarang == ""
    requires valued.Some? && !AllDigits(valued.value) <==> c.nilaiIdrBarang != "" && !AllDigits(c.nilaiIdrBarang)
    requires valued.Some? && (basis.None? || Blank(basis.value)) <==> c.nilaiIdrBarang != "" && c.dasarValuasiBarang == ""
    ensures ValueCellWrong(said, c, column, code) <==> shown.Some? && ValueWrong(Goods(c.satuanBarang, c.jumlahBarang, None, valued, basis), shown.value)
  {
  }

  lemma {:induction false} ValueCellsTell(said: Said, c: Cells, v: AidValue, column: Column, code: Code, shown: Option<Field>)
    requires shown == FieldAt(false, column, code) && Tight(c.satuanBarang) && Tight(c.dasarValuasiBarang)
    requires said.Aid() && !(said.money && said.goods) && ValueOfRow(said, c, v)
    ensures ValueCellWrong(said, c, column, code) <==> shown.Some? && ValueWrong(v, shown.value)
  {
    if said.money {
      MoneyCellsTell(said, c, column, code, shown);
    } else {
      FilledIsNotBlank(c.satuanBarang);
      ValuationTells(c, v.valued, v.basis);
      GoodsCellsTell(said, c, v.valued, v.basis, column, code, shown);
    }
  }

  /** A line never lacks its name, and lacks its period when neither row nor form gives one. */
  lemma {:induction false} TermCellsTell(c: Cells, sharedPeriod: Option<string>, line: DraftLine, money: bool)
    requires Tight(c.namaBantuan) && Tight(c.periodeBantuan) && TightOption(sharedPeriod)
    requires line.aidType == if c.namaBantuan != "" then c.namaBantuan else if money then "UANG" else "BARANG"
    requires line.period == if c.periodeBantuan != "" then c.periodeBantuan else if sharedPeriod.Some? then sharedPeriod.value else ""
    ensures !Blank(line.aidType) && (Blank(line.period) <==> c.periodeBantuan == "" && sharedPeriod.None?)
  {
    FilledIsNotBlank(c.namaBantuan);
    FilledIsNotBlank(c.periodeBantuan);
    if sharedPeriod.Some? { FilledIsNotBlank(sharedPeriod.value); }
    assert !IsSpace("UANG"[0]) && !IsSpace("BARANG"[0]);
  }

  /** Of a line that names its own recipient, what is shown is its terms and its value. */
  lemma {:induction false} LineFoundTells(line: DraftLine, column: Column, code: Code, shown: Option<Field>)
    requires shown == FieldAt(false, column, code)
    ensures LineFound(line, column, code) <==>
      (shown == Some(AidType) && Blank(line.aidType)) || (shown == Some(Period) && Blank(line.period)) || (shown.Some? && ValueWrong(line.value, shown.value))
  {
  }

  lemma {:induction false} AidCellsTell(said: Said, c: Cells, sharedPeriod: Option<string>, line: DraftLine, column: Column, code: Code)
    requires Tight(c.namaBantuan) && Tight(c.periodeBantuan) && Tight(c.satuanBarang) && Tight(c.dasarValuasiBarang) && TightOption(sharedPeriod)
    requires said.Aid() && !(said.money && said.goods) && LineOfRow(said, c, sharedPeriod, line)
    ensures AidCellWrong(said, c, sharedPeriod, column, code) <==> LineFound(line, column, code)
  {
    var shown := FieldAt(false, column, code);
    ValueCellsTell(said, c, line.value, column, code, shown);
    TermCellsTell(c, sharedPeriod, line, said.money);
    LineFoundTells(line, column, code, shown);
  }

  lemma {:induction false} PersonIssuesMember(issues: seq<Issue>, b: Beneficiary, column: Column, code: Code)
    ensures Issue(Some(column), code) in PersonIssues(issues, Some(b)) <==> Issue(Some(column), code) in issues || PersonFound(b, column, code)
  {
    var shown := FieldAt(b.identity.Nik?, column, code);
    LocatedMember(issues, BeneficiaryFaults(b), b.identity.Nik?, column, code);
    ShownTells(BeneficiaryFaults(b), b.identity.Nik?, column, code, shown);
    if shown.Some? { BeneficiaryFaultsTell(b, shown.value); }
  }

  lemma {:induction false} AidIssuesMember(issues: seq<Issue>, line: DraftLine, column: Column, code: Code)
    ensures Issue(Some(column), code) in AidIssues(issues, Some(line)) <==> Issue(Some(column), code) in issues || LineFound(line, column, code)
  {
    var shown := FieldAt(false, column, code);
    LocatedMember(issues, AidLineFaults(line, {line.beneficiaryId}), false, column, code);
    ShownTells(AidLineFaults(line, {line.beneficiaryId}), false, column, code, shown);
    if shown.Some? { AidLineFaultsTell(line, {line.beneficiaryId}, shown.value); }
  }

  lemma {:induction false} OneKindSaid(c: Cells)
    ensures !(SaidBy(c).nik && SaidBy(c).alternative) && !(SaidBy(c).money && SaidBy(c).goods)
  {
    assert |LowerCase(c.dasarIdentitas)| == |c.dasarIdentitas| && |LowerCase(c.jenisBantuan)| == |c.jenisBantuan|;
  }

  lemma {:induction false} PersonPart(c: Cells, issues: seq<Issue>, column: Column, code: Code)
    requires TightCells(c)
    ensures Issue(Some(column), code) in PersonIssues(issues, PersonOf(c)) <==>
      Issue(Some(column), code) in issues ||
      (SaidBy(c).Person() && PersonCellWrong(SaidBy(c), c, column, code) && !(column == AsnafCell && code == InvalidAsnaf))
  {
    PersonTells(c);
    OneKindSaid(c);
    if PersonOf(c).Some? {
      AsnafIsMeant(c.asnaf);
      PersonCellsTell(SaidBy(c), c, PersonOf(c).value, column, code);
      PersonIssuesMember(issues, PersonOf(c).value, column, code);
    }
  }

  lemma {:induction false} AidPart(c: Cells, sharedPeriod: Option<string>, issues: seq<Issue>, column: Column, code: Code)
    requires TightCells(c) && TightOption(sharedPeriod)
    ensures Issue(Some(column), code) in AidIssues(issues, AidOf(c, sharedPeriod)) <==>
      Issue(Some(column), code) in issues || (SaidBy(c).Aid() && AidCellWrong(SaidBy(c), c, sharedPeriod, column, code))
  {
    AidTells(c, sharedPeriod);
    OneKindSaid(c);
    if AidOf(c, sharedPeriod).Some? {
      AidCellsTell(SaidBy(c), c, sharedPeriod, AidOf(c, sharedPeriod).value, column, code);
      AidIssuesMember(issues, AidOf(c, sharedPeriod).value, column, code);
    }
  }

  /** What is wrong without a person or an aid is wrong with the table row. */
  lemma {:induction false} PartsMakeWhole(said: Said, c: Cells, sharedPeriod: Option<string>, column: Column, code: Code)
    ensures
      SpreadsheetCellWrong(said, c, column, code) ||
      (said.Person() && PersonCellWrong(said, c, column, code) && !(column == AsnafCell && code == InvalidAsnaf)) ||
      (said.Aid() && AidCellWrong(said, c, sharedPeriod, column, code)) <==>
      PersonCellWrong(said, c, column, code) || RelationWrong(c, column, code) || AidCellWrong(said, c, sharedPeriod, column, code)
  {
  }

  /** A cell is reported exactly when something is wrong with it. */
  lemma {:induction false} IssueExactlyWhen(c: Cells, sharedPeriod: Option<string>, column: Column, code: Code)
    requires TightCells(c) && TightOption(sharedPeriod)
    ensures Issue(Some(column), code) in ParseRow(c, sharedPeriod).issues <==>
      PersonCellWrong(SaidBy(c), c, column, code) || RelationWrong(c, column, code) || AidCellWrong(SaidBy(c), c, sharedPeriod, column, code)
  {
    SpreadsheetIssuesTell(c, column, code);
    PersonPart(c, SpreadsheetIssues(c), column, code);
    AidPart(c, sharedPeriod, PersonIssues(SpreadsheetIssues(c), PersonOf(c)), column, code);
    PartsMakeWhole(SaidBy(c), c, sharedPeriod, column, code);
  }

  lemma {:induction false} LocatedNamesColumns(issues: seq<Issue>, fields: seq<Field>, nik: bool)
    requires forall x | x in issues :: x.column.Some?
    ensures forall x | x in Located(issues, fields, nik) :: x.column.Some?
    decreases |fields|
  {
    if fields != [] { LocatedNamesColumns(issues, fields[..|fields| - 1], nik); }
  }

  /** Reading a row reports nothing but cells. */
  lemma {:induction false} IssuesNameColumns(c: Cells, sharedPeriod: Option<string>)
    ensures forall x | x in ParseRow(c, sharedPeriod).issues :: x.column.Some?
  {
    var person, line := PersonOf(c), AidOf(c, sharedPeriod);
    assert forall x | x in SpreadsheetIssues(c) :: x.column.Some?;
    if person.Some? { LocatedNamesColumns(SpreadsheetIssues(c), BeneficiaryFaults(person.value), person.value.identity.Nik?); }
    if line.Some? { LocatedNamesColumns(PersonIssues(SpreadsheetIssues(c), person), AidLineFaults(line.value, {line.value.beneficiaryId}), false); }
  }
}
