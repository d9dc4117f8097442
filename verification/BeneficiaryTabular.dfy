/**
 Recipient lists as spreadsheet rows. Each row is parsed into a recipient and an aid line; rows of one
 recipient are grouped; an existing list is written back as rows.
 */
module BeneficiaryTabular {
  import opened Options
  import opened Strings
  import opened BeneficiaryDraft

  datatype Column =
    | IdBaris | IdPenerima | Nama | DasarIdentitas | NikCell | KeteranganIdentitas | NamaPerwakilan | HubunganPerwakilan
    | AlamatCakupan | AsnafCell | JenisBantuan | NamaBantuan | NilaiIdr | JumlahBarang | SatuanBarang | NilaiIdrBarang
    | DasarValuasiBarang | PeriodeBantuan | NamaPenerimaPembayaran | HubunganPenerimaPembayaran

  datatype Cells = Cells(
    idBaris: string, idPenerima: string, nama: string, dasarIdentitas: string, nik: string, keteranganIdentitas: string,
    namaPerwakilan: string, hubunganPerwakilan: string, alamatCakupan: string, asnaf: string, jenisBantuan: string,
    namaBantuan: string, nilaiIdr: string, jumlahBarang: string, satuanBarang: string, nilaiIdrBarang: string,
    dasarValuasiBarang: string, periodeBantuan: string, namaPenerimaPembayaran: string, hubunganPenerimaPembayaran: string,
    referensiBukti: string, kontakTelepon: string, kontakEmail: string, kontakRelasi: string)

  function TrimCells(c: Cells): Cells
  {
    Cells(Trim(c.idBaris), Trim(c.idPenerima), Trim(c.nama), Trim(c.dasarIdentitas), Trim(c.nik), Trim(c.keteranganIdentitas),
          Trim(c.namaPerwakilan), Trim(c.hubunganPerwakilan), Trim(c.alamatCakupan), Trim(c.asnaf), Trim(c.jenisBantuan),
          Trim(c.namaBantuan), Trim(c.nilaiIdr), Trim(c.jumlahBarang), Trim(c.satuanBarang), Trim(c.nilaiIdrBarang),
          Trim(c.dasarValuasiBarang), Trim(c.periodeBantuan), Trim(c.namaPenerimaPembayaran), Trim(c.hubunganPenerimaPembayaran),
          Trim(c.referensiBukti), Trim(c.kontakTelepon), Trim(c.kontakEmail), Trim(c.kontakRelasi))
  }

  datatype Code =
    | RequiredFieldMissing | InvalidNik | InvalidIdentityBasis | InvalidAmount | InvalidQuantity | InvalidAsnaf | InvalidAidType
    | MissingUnit | MissingGuardianRelation | MissingPaymentRecipientRelation
    | ExactDuplicateAid | DuplicateLineId | ConflictingRecipient

  /** A problem of one row, at a column or of the row as a whole. */
  datatype Issue = Issue(column: Option<Column>, code: Code)

  // ----- One row

  const VALID_ASNAF: set<string> := {"FAKIR", "MISKIN", "AMIL", "MUALAF", "RIQAB", "GHARIM", "FISABILILLAH", "IBNU_SABIL"}

  function CanonicalAsnaf(cell: string): string
  {
    var upper := UpperCase(cell);
    if upper == "MUALLAF" then "MUALAF" else if upper == "GHARIMIN" then "GHARIM" else upper
  }

  const CANDIDATE_ID := "candidate"

  function IdentityOf(c: Cells): Option<Identity>
  {
    var kind := UpperCase(c.dasarIdentitas);
    if kind == "NIK" || (kind == "" && c.nik != "") then Some(Nik(c.nik))
    else if kind == "ALTERNATIF" || (kind == "" && c.keteranganIdentitas != "") then Some(Alternative(c.keteranganIdentitas))
    else None
  }

  /** An empty cell stands for nothing. */
  function OrNone(cell: string): Option<string> { if cell == "" then None else Some(cell) }

  function AidValueOf(c: Cells): Option<AidValue>
  {
    var kind := UpperCase(c.jenisBantuan);
    if kind == "UANG" || (kind == "" && c.nilaiIdr != "") then Some(Money(c.nilaiIdr, None))
    else if kind == "BARANG" || (kind == "" && (c.jumlahBarang != "" || c.satuanBarang != "")) then
      Some(Goods(c.satuanBarang, c.jumlahBarang, None, OrNone(c.nilaiIdrBarang), OrNone(c.dasarValuasiBarang)))
    else None
  }

  function BothOrNeither(name: string, relation: string): Option<Related>
  {
    if name != "" && relation != "" then Some(Related(name, relation)) else None
  }

  function ContactOf(c: Cells): Option<Contact>
  {
    if c.kontakTelepon != "" || c.kontakEmail != "" || c.kontakRelasi != "" then
      Some(Contact(OrNone(c.kontakTelepon), OrNone(c.kontakEmail), OrNone(c.kontakRelasi)))
    else None
  }

  function CandidateBeneficiary(c: Cells, identity: Identity): Beneficiary
  {
    Beneficiary(if c.idPenerima != "" then c.idPenerima else CANDIDATE_ID, c.nama, identity, CanonicalAsnaf(c.asnaf), c.alamatCakupan,
                BothOrNeither(c.namaPerwakilan, c.hubunganPerwakilan), BothOrNeither(c.namaPenerimaPembayaran, c.hubunganPenerimaPembayaran), ContactOf(c))
  }

  function CandidateLine(c: Cells, value: AidValue, beneficiaryId: string, sharedPeriod: Option<string>): DraftLine
  {
    DraftLine(if c.idBaris != "" then c.idBaris else CANDIDATE_ID, beneficiaryId,
            if c.namaBantuan != "" then c.namaBantuan else if value.Money? then "UANG" else "BARANG",
            if c.periodeBantuan != "" then c.periodeBantuan else if sharedPeriod.Some? then sharedPeriod.value else "",
            value, OrNone(c.referensiBukti))
  }

  function Reported(issues: seq<Issue>, wrong: bool, column: Column, code: Code): seq<Issue>
  {
    if wrong then issues + [Issue(Some(column), code)] else issues
  }

  function HalfFilled(issues: seq<Issue>, name: string, relation: string, nameColumn: Column, relationColumn: Column, code: Code): seq<Issue>
  {
    Reported(Reported(issues, name == "" && relation != "", nameColumn, code), name != "" && relation == "", relationColumn, code)
  }

  /** The column a draft fault is shown at; a fault in an id has none. */
  function ColumnOf(field: Field, nik: bool): Option<(Column, Code)>
  {
    match field
    case Name => Some((Nama, RequiredFieldMissing))
    case Asnaf => Some((AsnafCell, RequiredFieldMissing))
    case Address => Some((AlamatCakupan, RequiredFieldMissing))
    case IdentityBasis => Some(if nik then (NikCell, InvalidNik) else (KeteranganIdentitas, InvalidIdentityBasis))
    case AidType => Some((NamaBantuan, RequiredFieldMissing))
    case Period => Some((PeriodeBantuan, RequiredFieldMissing))
    case Amount => Some((NilaiIdr, InvalidAmount))
    case Unit => Some((SatuanBarang, MissingUnit))
    case Quantity => Some((JumlahBarang, InvalidQuantity))
    case ValuationBasis => Some((DasarValuasiBarang, RequiredFieldMissing))
    case Valuation => Some((NilaiIdrBarang, InvalidAmount))
    case _ => None
  }

  function Located(issues: seq<Issue>, fields: seq<Field>, nik: bool): seq<Issue>
    decreases |fields|
  {
    if fields == [] then issues
    else
      var before, place := Located(issues, fields[..|fields| - 1], nik), ColumnOf(fields[|fields| - 1], nik);
      if place.Some? then before + [Issue(Some(place.value.0), place.value.1)] else before
  }

  /** A row as the preview keeps it; it is valid while it has no issue. */
  datatype Row = Row(cells: Cells, issues: seq<Issue>, beneficiary: Option<Beneficiary>, aidLine: Option<DraftLine>, key: Option<string>)

  function SpreadsheetIssues(c: Cells): seq<Issue>
  {
    var asnaf := CanonicalAsnaf(c.asnaf);
    var identity := Reported([], IdentityOf(c).None?, DasarIdentitas, InvalidIdentityBasis);
    var known := Reported(identity, asnaf != "" && asnaf !in VALID_ASNAF, AsnafCell, InvalidAsnaf);
    var guardian := HalfFilled(known, c.namaPerwakilan, c.hubunganPerwakilan, NamaPerwakilan, HubunganPerwakilan, MissingGuardianRelation);
    var paid := HalfFilled(guardian, c.namaPenerimaPembayaran, c.hubunganPenerimaPembayaran, NamaPenerimaPembayaran, HubunganPenerimaPembayaran, MissingPaymentRecipientRelation);
    Reported(paid, AidValueOf(c).None?, JenisBantuan, InvalidAidType)
  }

  function PersonOf(c: Cells): Option<Beneficiary>
  {
    if IdentityOf(c).Some? then Some(CandidateBeneficiary(c, IdentityOf(c).value)) else None
  }

  function AidOf(c: Cells, sharedPeriod: Option<string>): Option<DraftLine>
  {
    var holder := if PersonOf(c).Some? then PersonOf(c).value.id else CANDIDATE_ID;
    if AidValueOf(c).Some? then Some(CandidateLine(c, AidValueOf(c).value, holder, sharedPeriod)) else None
  }

  /** The issues so far, and those the draft validators find in the person. */
  function PersonIssues(issues: seq<Issue>, person: Option<Beneficiary>): seq<Issue>
  {
    if person.Some? then Located(issues, BeneficiaryFaults(person.value), person.value.identity.Nik?) else issues
  }

  function AidIssues(issues: seq<Issue>, line: Option<DraftLine>): seq<Issue>
  {
    if line.Some? then Located(issues, AidLineFaults(line.value, {line.value.beneficiaryId}), false) else issues
  }

  function ParseRow(c: Cells, sharedPeriod: Option<string>): Row
  {
    var person, line := PersonOf(c), AidOf(c, sharedPeriod);
    Row(c, AidIssues(PersonIssues(SpreadsheetIssues(c), person), line), person, line, None)
  }

  // ----- Grouping

  /** Everything that describes the person: all but the id. */
  predicate SamePerson(a: Beneficiary, b: Beneficiary) { a == b.(id := a.id) }

  function NikOf(b: Beneficiary): Option<string> { if b.identity.Nik? then Some(b.identity.value) else None }

  function IdKey(id: string): string { "id:" + id }

  function OwnKey(c: Cells, b: Beneficiary): string
  {
    if c.idPenerima != "" then IdKey(c.idPenerima)
    else
      match b.identity
      case Nik(value) => "nik:" + value
      case Alternative(description) => "alt:" + LowerCase(b.name) + ":" + LowerCase(description)
  }

  datatype Roster = Roster(byKey: map<string, Beneficiary>, keyByNik: map<string, string>, lineIds: set<string>, fingerprints: set<Fingerprint>,
                           beneficiaries: seq<Beneficiary>, aidLines: seq<DraftLine>, issued: nat)

  const EMPTY_ROSTER := Roster(map[], map[], {}, {}, [], [], 0)

  /**
   What becomes of a valid row: its place in the roster, or the reason it is turned invalid; and how
   many ids have been generated by then.
   */
  datatype Placement = Placed(key: string, beneficiary: Beneficiary, aidLine: DraftLine, issued: nat) | Rejected(code: Code, issued: nat)

  function NikKey(r: Roster, b: Beneficiary): Option<string>
  {
    if NikOf(b).Some? && NikOf(b).value in r.keyByNik then Some(r.keyByNik[NikOf(b).value]) else None
  }

  function KeyFor(r: Roster, c: Cells, b: Beneficiary): string
  {
    if NikKey(r, b).Some? then NikKey(r, b).value else OwnKey(c, b)
  }

  function Existing(r: Roster, key: string): Option<Beneficiary> { if key in r.byKey then Some(r.byKey[key]) else None }

  /** The recipient a row ends up with: the one already there, or the row's own under its final id. */
  function HolderFor(r: Roster, c: Cells, b: Beneficiary, supply: nat -> string): Beneficiary
  {
    var existing := Existing(r, KeyFor(r, c, b));
    if existing.Some? then existing.value else b.(id := if c.idPenerima != "" then c.idPenerima else supply(r.issued))
  }

  /** How many generated ids the recipient of a row takes. */
  function TakenForHolder(r: Roster, c: Cells, b: Beneficiary): nat
  {
    if Existing(r, KeyFor(r, c, b)).None? && c.idPenerima == "" then 1 else 0
  }

  function LineFor(r: Roster, c: Cells, b: Beneficiary, line: DraftLine, supply: nat -> string): DraftLine
  {
    line.(id := if c.idBaris != "" then c.idBaris else supply(r.issued + TakenForHolder(r, c, b)), beneficiaryId := HolderFor(r, c, b, supply).id)
  }

  function Place(r: Roster, c: Cells, b: Beneficiary, line: DraftLine, supply: nat -> string): Placement
  {
    var key := KeyFor(r, c, b);
    if key != OwnKey(c, b) && c.idPenerima != "" then Rejected(ConflictingRecipient, r.issued)
    else if key in r.byKey && !SamePerson(r.byKey[key], b) then Rejected(ConflictingRecipient, r.issued)
    else if c.idBaris != "" && c.idBaris in r.lineIds then Rejected(DuplicateLineId, r.issued)
    else
      var placed, issued := LineFor(r, c, b, line, supply), r.issued + TakenForHolder(r, c, b) + if c.idBaris == "" then 1 else 0;
      if FingerprintOf(placed) in r.fingerprints then Rejected(ExactDuplicateAid, issued) else Placed(key, HolderFor(r, c, b, supply), placed, issued)
  }

  function RosterAfter(r: Roster, b: Beneficiary, p: Placement): Roster
  {
    match p
    case Rejected(_, issued) => r.(issued := issued)
    case Placed(key, holder, line, issued) =>
      Roster(if key in r.byKey then r.byKey else r.byKey[key := holder],
             if NikOf(b).Some? then r.keyByNik[NikOf(b).value := key] else r.keyByNik,
             r.lineIds + {line.id}, r.fingerprints + {FingerprintOf(line)},
             if key in r.byKey then r.beneficiaries else r.beneficiaries + [holder],
             r.aidLines + [line], issued)
  }

  /** A row that is placed shows its final recipient and line; a rejected one shows neither. */
  function RowAfter(row: Row, p: Placement): Row
  {
    match p
    case Rejected(code, _) => Row(row.cells, [Issue(None, code)], None, None, None)
    case Placed(key, holder, line, _) => Row(row.cells, [], Some(holder), Some(line), Some(key))
  }

  predicate IsCandidate(row: Row) { row.issues == [] && row.beneficiary.Some? && row.aidLine.Some? }

  function PlacementOf(r: Roster, row: Row, supply: nat -> string): Placement
    requires IsCandidate(row)
  {
    Place(r, row.cells, row.beneficiary.value, row.aidLine.value, supply)
  }

  function Grouped(rows: seq<Row>, supply: nat -> string): Roster
  {
    if rows == [] then EMPTY_ROSTER
    else
      var r, row := Grouped(rows[..|rows| - 1], supply), rows[|rows| - 1];
      if IsCandidate(row) then RosterAfter(r, row.beneficiary.value, PlacementOf(r, row, supply)) else r
  }

  /** An invalid row shows neither recipient nor line. */
  function Shown(rows: seq<Row>, supply: nat -> string): seq<Row>
  {
    if rows == [] then []
    else
      var front, row := rows[..|rows| - 1], rows[|rows| - 1];
      Shown(front, supply) +
      [if IsCandidate(row) then RowAfter(row, PlacementOf(Grouped(front, supply), row, supply))
       else if row.issues == [] then row
       else row.(beneficiary := None, aidLine := None)]
  }

  /** Merges valid rows into recipients and aid lines, and turns conflicting rows invalid. */
  method GroupRows(input: seq<Row>, supply: nat -> string) returns (rows: seq<Row>, beneficiaries: seq<Beneficiary>, aidLines: seq<DraftLine>)
    ensures rows == Shown(input, supply)
    ensures beneficiaries == Grouped(input, supply).beneficiaries && aidLines == Grouped(input, supply).aidLines
  {
    var byKey: map<string, Beneficiary>, keyByNik: map<string, string> := map[], map[];
    var lineIds: set<string>, fingerprints: set<Fingerprint> := {}, {};
    var issued := 0;
    rows, beneficiaries, aidLines := [], [], [];
    for i := 0 to |input|
      invariant Roster(byKey, keyByNik, lineIds, fingerprints, beneficiaries, aidLines, issued) == Grouped(input[..i], supply)
      invariant rows == Shown(input[..i], supply)
    {
      assert input[..i + 1][..i] == input[..i];
      var row := input[i];
      if row.issues != [] {
        rows := rows + [row.(beneficiary := None, aidLine := None)];
      } else if row.beneficiary.None? || row.aidLine.None? {
        rows := rows + [row];
      } else {
        var p := PlacementOf(Roster(byKey, keyByNik, lineIds, fingerprints, beneficiaries, aidLines, issued), row, supply);
        issued := p.issued;
        if p.Rejected? {
          rows := rows + [Row(row.cells, [Issue(None, p.code)], None, None, None)];
        } else {
          if p.key !in byKey { byKey, beneficiaries := byKey[p.key := p.beneficiary], beneficiaries + [p.beneficiary]; }
          if row.beneficiary.value.identity.Nik? { keyByNik := keyByNik[row.beneficiary.value.identity.value := p.key]; }
          lineIds, fingerprints, aidLines := lineIds + {p.aidLine.id}, fingerprints + {FingerprintOf(p.aidLine)}, aidLines + [p.aidLine];
          rows := rows + [Row(row.cells, [], Some(p.beneficiary), Some(p.aidLine), Some(p.key))];
        }
      }
    }
    assert input[..|input|] == input;
  }

  // ----- The table

  /** Every cell is trimmed before it is read, and so is the period shared from the form. */
  function Parsed(table: seq<Cells>, sharedPeriod: string): seq<Row>
  {
    seq(|table|, i requires 0 <= i < |table| => ParseRow(TrimCells(table[i]), OrNone(Trim(sharedPeriod))))
  }

  function Imported(table: seq<Cells>, sharedPeriod: string, supply: nat -> string): Roster
  {
    Grouped(Parsed(table, sharedPeriod), supply)
  }

  // ----- Writing a list back as rows

  function CellOf(value: Option<string>): string { if value.Some? then value.value else "" }

  const EMPTY_CELLS := Cells("", "", "", "", "", "", "", "", "", "", "", "", "", "", "", "", "", "", "", "", "", "", "", "")

  function WithBeneficiary(c: Cells, b: Beneficiary): Cells
  {
    c.(idPenerima := b.id, nama := b.name,
       dasarIdentitas := if b.identity.Nik? then "NIK" else "ALTERNATIF",
       nik := if b.identity.Nik? then b.identity.value else "",
       keteranganIdentitas := if b.identity.Alternative? then b.identity.description else "",
       namaPerwakilan := if b.guardian.Some? then b.guardian.value.name else "",
       hubunganPerwakilan := if b.guardian.Some? then b.guardian.value.relation else "",
       alamatCakupan := b.address, asnaf := b.asnaf,
       namaPenerimaPembayaran := if b.paymentRecipient.Some? then b.paymentRecipient.value.name else "",
       hubunganPenerimaPembayaran := if b.paymentRecipient.Some? then b.paymentRecipient.value.relation else "",
       kontakTelepon := if b.contact.Some? then CellOf(b.contact.value.phone) else "",
       kontakEmail := if b.contact.Some? then CellOf(b.contact.value.email) else "",
       kontakRelasi := if b.contact.Some? then CellOf(b.contact.value.relation) else "")
  }

  function WithAidLine(c: Cells, line: DraftLine): Cells
  {
    var v := line.value;
    c.(idBaris := line.id,
       jenisBantuan := if v.Money? then "UANG" else "BARANG", namaBantuan := line.aidType,
       nilaiIdr := if v.Money? then v.amountRequested else "",
       jumlahBarang := if v.Goods? then v.quantityRequested else "",
       satuanBarang := if v.Goods? then v.unit else "",
       nilaiIdrBarang := if v.Goods? then CellOf(v.valued) else "",
       dasarValuasiBarang := if v.Goods? then CellOf(v.basis) else "",
       periodeBantuan := line.period, referensiBukti := CellOf(line.evidence))
  }

  function RowCells(b: Beneficiary, line: DraftLine): Cells { WithAidLine(WithBeneficiary(EMPTY_CELLS, b), line) }

  function BeneficiaryById(bs: seq<Beneficiary>, id: string): Option<Beneficiary>
  {
    if bs == [] then None
    else if bs[|bs| - 1].id == id then Some(bs[|bs| - 1])
    else BeneficiaryById(bs[..|bs| - 1], id)
  }

  function LineRows(bs: seq<Beneficiary>, lines: seq<DraftLine>): seq<Cells>
  {
    if lines == [] then []
    else
      var before, line := LineRows(bs, lines[..|lines| - 1]), lines[|lines| - 1];
      var b := BeneficiaryById(bs, line.beneficiaryId);
      if b.Some? then before + [RowCells(b.value, line)] else before
  }

  predicate HasLine(lines: seq<DraftLine>, id: string) { exists i | 0 <= i < |lines| :: lines[i].beneficiaryId == id }

  function LinelessRows(bs: seq<Beneficiary>, lines: seq<DraftLine>): seq<Cells>
  {
    if bs == [] then []
    else
      var before, b := LinelessRows(bs[..|bs| - 1], lines), bs[|bs| - 1];
      if HasLine(lines, b.id) then before else before + [WithBeneficiary(EMPTY_CELLS, b)]
  }

  /** One row per aid line; a recipient without aid lines still gets an incomplete row. */
  function RosterRows(bs: seq<Beneficiary>, lines: seq<DraftLine>): seq<Cells>
  {
    LineRows(bs, lines) + LinelessRows(bs, lines)
  }
}
