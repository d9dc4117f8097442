/**
 Rows and records. A row without issues parses to sound, canonical records, and canonical records
 written as a row parse back to themselves.
 */
module BeneficiaryRows {
  import opened Options
  import opened Strings
  import opened BeneficiaryDraft
  import opened BeneficiaryTabular

  predicate Filled(s: string) { Tight(s) && s != "" }

  // ----- Canonical records

  predicate TightOption(o: Option<string>) { o.Some? ==> Filled(o.value) }

  predicate CanonicalRelated(o: Option<Related>) { o.Some? ==> Filled(o.value.name) && Filled(o.value.relation) }

  predicate CanonicalContact(o: Option<Contact>)
  {
    o.Some? ==>
      TightOption(o.value.phone) && TightOption(o.value.email) && TightOption(o.value.relation) && (o.value.phone.Some? || o.value.email.Some? || o.value.relation.Some?)
  }

  predicate CanonicalIdentity(i: Identity)
  {
    match i
    case Nik(value) => Tight(value)
    case Alternative(description) => Tight(description)
  }

  /** As an import leaves it: trimmed, a known asnaf, nothing half filled. */
  predicate CanonicalBeneficiary(b: Beneficiary)
  {
    Filled(b.id) && Tight(b.name) && CanonicalIdentity(b.identity) && b.asnaf in VALID_ASNAF && Tight(b.address) &&
    CanonicalRelated(b.guardian) && CanonicalRelated(b.paymentRecipient) && CanonicalContact(b.contact)
  }

  predicate CanonicalValue(v: AidValue)
  {
    match v
    case Money(amount, approved) => Tight(amount) && approved.None?
    case Goods(unit, quantity, approved, valued, basis) => Tight(unit) && Tight(quantity) && approved.None? && TightOption(valued) && TightOption(basis)
  }

  predicate CanonicalLine(line: DraftLine)
  {
    Filled(line.id) && Filled(line.aidType) && Tight(line.period) && CanonicalValue(line.value) && TightOption(line.evidence)
  }

  // ----- A valid row is sound and canonical

  lemma {:induction false} NothingLocated(issues: seq<Issue>, fields: seq<Field>, nik: bool)
    ensures Located(issues, fields, nik) == [] <==> issues == [] && forall f | f in fields :: ColumnOf(f, nik).None?
    decreases |fields|
  {
    if fields != [] {
      NothingLocated(issues, fields[..|fields| - 1], nik);
      assert fields == fields[..|fields| - 1] + [fields[|fields| - 1]];
    }
  }

  lemma {:induction false} UnsoundBeneficiaryIsLocated(b: Beneficiary)
    requires !Blank(b.id)
    ensures SoundBeneficiary(b) || exists f | f in BeneficiaryFaults(b) :: ColumnOf(f, b.identity.Nik?).Some?
  {
    var faults := BeneficiaryFaults(b);
    if Blank(b.name) {
      assert Name in faults;
    } else if Blank(b.asnaf) {
      assert Asnaf in faults;
    } else if Blank(b.address) {
      assert Address in faults;
    } else if !SoundBeneficiary(b) {
      assert IdentityBasis in faults;
    }
  }

  lemma {:induction false} UnsoundLineIsLocated(line: DraftLine, holders: set<string>)
    requires !Blank(line.id)
    ensures SoundContent(line) || exists f | f in AidLineFaults(line, holders) :: ColumnOf(f, false).Some?
  {
    var faults := AidLineFaults(line, holders);
    if Blank(line.aidType) {
      assert AidType in faults;
    } else if Blank(line.period) {
      assert Period in faults;
    } else if !SoundContent(line) {
      match line.value {
        case Money(_, _) => assert Amount in faults;
        case Goods(unit, quantity, _, valued, basis) =>
          if Blank(unit) {
            assert Unit in faults;
          } else if !IsExactDecimal(quantity) {
            assert Quantity in faults;
          } else if !IsWhole(valued.value) {
            assert Valuation in faults;
          } else {
            assert ValuationBasis in faults;
          }
      }
    }
  }

  predicate TightCells(c: Cells)
  {
    Tight(c.idBaris) && Tight(c.idPenerima) && Tight(c.nama) && Tight(c.dasarIdentitas) && Tight(c.nik) && Tight(c.keteranganIdentitas) &&
    Tight(c.namaPerwakilan) && Tight(c.hubunganPerwakilan) && Tight(c.alamatCakupan) && Tight(c.asnaf) && Tight(c.jenisBantuan) &&
    Tight(c.namaBantuan) && Tight(c.nilaiIdr) && Tight(c.jumlahBarang) && Tight(c.satuanBarang) && Tight(c.nilaiIdrBarang) &&
    Tight(c.dasarValuasiBarang) && Tight(c.periodeBantuan) && Tight(c.namaPenerimaPembayaran) && Tight(c.hubunganPenerimaPembayaran) &&
    Tight(c.referensiBukti) && Tight(c.kontakTelepon) && Tight(c.kontakEmail) && Tight(c.kontakRelasi)
  }

  /** Trimmed cells are tight, and tight cells are trimmed. */
  lemma {:induction false} TrimCellsIsTight(c: Cells)
    ensures TightCells(TrimCells(c)) && (TightCells(c) ==> TrimCells(c) == c)
  {
    TrimIsTight(c.idBaris); TrimIsTight(c.idPenerima); TrimIsTight(c.nama); TrimIsTight(c.dasarIdentitas); TrimIsTight(c.nik); TrimIsTight(c.keteranganIdentitas);
    TrimIsTight(c.namaPerwakilan); TrimIsTight(c.hubunganPerwakilan); TrimIsTight(c.alamatCakupan); TrimIsTight(c.asnaf); TrimIsTight(c.jenisBantuan);
    TrimIsTight(c.namaBantuan); TrimIsTight(c.nilaiIdr); TrimIsTight(c.jumlahBarang); TrimIsTight(c.satuanBarang); TrimIsTight(c.nilaiIdrBarang);
    TrimIsTight(c.dasarValuasiBarang); TrimIsTight(c.periodeBantuan); TrimIsTight(c.namaPenerimaPembayaran); TrimIsTight(c.hubunganPenerimaPembayaran);
    TrimIsTight(c.referensiBukti); TrimIsTight(c.kontakTelepon); TrimIsTight(c.kontakEmail); TrimIsTight(c.kontakRelasi);
  }

  lemma {:induction false} FixedWords()
    ensures UpperCase("UANG") == "UANG" && UpperCase("BARANG") == "BARANG" && UpperCase("NIK") == "NIK" && UpperCase("ALTERNATIF") == "ALTERNATIF"
  {
  }

  lemma {:induction false} NoSpreadsheetIssues(c: Cells)
    ensures SpreadsheetIssues(c) == [] <==>
      IdentityOf(c).Some? && AidValueOf(c).Some? && (CanonicalAsnaf(c.asnaf) == "" || CanonicalAsnaf(c.asnaf) in VALID_ASNAF) &&
      (c.namaPerwakilan == "" <==> c.hubunganPerwakilan == "") && (c.namaPenerimaPembayaran == "" <==> c.hubunganPenerimaPembayaran == "")
  {
  }

  /** What a row without issues stands for. */
  predicate SoundCandidate(c: Cells, b: Beneficiary, line: DraftLine)
  {
    SoundBeneficiary(b) && CanonicalBeneficiary(b) && SoundContent(line) && CanonicalLine(line) &&
    (c.idPenerima != "" ==> b.id == c.idPenerima) && (c.idBaris != "" ==> line.id == c.idBaris)
  }

  lemma {:induction false} PersonIsCanonical(c: Cells)
    requires TightCells(c) && SpreadsheetIssues(c) == [] && PersonIssues(SpreadsheetIssues(c), PersonOf(c)) == []
    ensures PersonOf(c).Some? && SoundBeneficiary(PersonOf(c).value) && CanonicalBeneficiary(PersonOf(c).value)
  {
    NoSpreadsheetIssues(c);
    var b := PersonOf(c).value;
    NothingLocated([], BeneficiaryFaults(b), b.identity.Nik?);
    assert Filled(b.id);
    UnsoundBeneficiaryIsLocated(b);
  }

  lemma {:induction false} ValueIsCanonical(c: Cells)
    requires TightCells(c)
    ensures AidValueOf(c).Some? ==> CanonicalValue(AidValueOf(c).value)
  {
  }

  lemma {:induction false} LineIsCanonical(c: Cells, value: AidValue, holder: string, sharedPeriod: Option<string>)
    requires TightCells(c) && TightOption(sharedPeriod) && CanonicalValue(value)
    ensures CanonicalLine(CandidateLine(c, value, holder, sharedPeriod))
  {
  }

  lemma {:induction false} AidIsCanonical(c: Cells, sharedPeriod: Option<string>)
    requires TightCells(c) && TightOption(sharedPeriod)
    ensures AidOf(c, sharedPeriod).Some? ==> CanonicalLine(AidOf(c, sharedPeriod).value)
  {
    var line := AidOf(c, sharedPeriod);
    ValueIsCanonical(c);
    if line.Some? { LineIsCanonical(c, AidValueOf(c).value, line.value.beneficiaryId, sharedPeriod); }
  }

  lemma {:induction false} UnlocatedAidIsSound(line: DraftLine)
    requires CanonicalLine(line) && AidIssues([], Some(line)) == []
    ensures SoundContent(line)
  {
    NothingLocated([], AidLineFaults(line, {line.beneficiaryId}), false);
    UnsoundLineIsLocated(line, {line.beneficiaryId});
  }

  lemma {:induction false} ValidRowIsSound(c: Cells, sharedPeriod: Option<string>)
    requires TightCells(c) && TightOption(sharedPeriod)
    requires ParseRow(c, sharedPeriod).issues == []
    ensures PersonOf(c).Some? && AidOf(c, sharedPeriod).Some?
    ensures SoundCandidate(c, PersonOf(c).value, AidOf(c, sharedPeriod).value)
  {
    var person, line := PersonOf(c), AidOf(c, sharedPeriod);
    if line.Some? { NothingLocated(PersonIssues(SpreadsheetIssues(c), person), AidLineFaults(line.value, {line.value.beneficiaryId}), false); }
    if person.Some? { NothingLocated(SpreadsheetIssues(c), BeneficiaryFaults(person.value), person.value.identity.Nik?); }
    NoSpreadsheetIssues(c);
    PersonIsCanonical(c);
    AidIsCanonical(c, sharedPeriod);
    UnlocatedAidIsSound(line.value);
  }

  // ----- A canonical record written as a row parses back

  lemma {:induction false} UpperIsFixed(word: string)
    requires word != "" && forall i | 0 <= i < |word| :: 'A' <= word[i] <= '_'
    requires word != "MUALLAF" && word != "GHARIMIN"
    ensures CanonicalAsnaf(word) == word && Filled(word)
  {
    assert UpperCase(word) == word;
  }

  lemma {:induction false} AsnafIsFixed(asnaf: string)
    requires asnaf in VALID_ASNAF
    ensures CanonicalAsnaf(asnaf) == asnaf && Filled(asnaf)
  {
    UpperIsFixed("FAKIR"); UpperIsFixed("MISKIN"); UpperIsFixed("AMIL"); UpperIsFixed("MUALAF");
    UpperIsFixed("RIQAB"); UpperIsFixed("GHARIM"); UpperIsFixed("FISABILILLAH"); UpperIsFixed("IBNU_SABIL");
  }

  lemma {:induction false} RowCellsAreTight(b: Beneficiary, line: DraftLine)
    requires CanonicalBeneficiary(b) && CanonicalLine(line)
    ensures TightCells(RowCells(b, line))
  {
    AsnafIsFixed(b.asnaf);
  }

  lemma {:induction false} PersonReadsBack(b: Beneficiary, line: DraftLine)
    requires CanonicalBeneficiary(b) && SoundBeneficiary(b)
    ensures PersonOf(RowCells(b, line)) == Some(b)
  {
    FixedWords();
    AsnafIsFixed(b.asnaf);
  }

  lemma {:induction false} AidReadsBack(b: Beneficiary, line: DraftLine, sharedPeriod: Option<string>)
    requires CanonicalLine(line) && SoundContent(line) && line.beneficiaryId == b.id
    requires PersonOf(RowCells(b, line)) == Some(b)
    ensures AidOf(RowCells(b, line), sharedPeriod) == Some(line)
  {
    FixedWords();
    assert line.period != "";
  }

  /** Writing a record as a row and reading the row gives the record. */
  lemma {:induction false} RowReadsBack(b: Beneficiary, line: DraftLine, sharedPeriod: Option<string>)
    requires CanonicalBeneficiary(b) && SoundBeneficiary(b) && CanonicalLine(line) && SoundContent(line) && line.beneficiaryId == b.id
    ensures ParseRow(TrimCells(RowCells(b, line)), sharedPeriod) == Row(RowCells(b, line), [], Some(b), Some(line), None)
  {
    var c := RowCells(b, line);
    RowCellsAreTight(b, line);
    TrimCellsIsTight(c);
    PersonReadsBack(b, line);
    AidReadsBack(b, line, sharedPeriod);
    NoBeneficiaryFaults(b);
    NoAidLineFaults(line, {b.id});
    AsnafIsFixed(b.asnaf);
    NoSpreadsheetIssues(c);
  }
}
