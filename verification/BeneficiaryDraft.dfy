/** Recipients and aid lines of a proposal draft, and the faults the draft validators find in them. */
module BeneficiaryDraft {
  import opened Options
  import opened Strings

  datatype Identity = Nik(value: string) | Alternative(description: string)

  /** A guardian or a payment recipient, with the relation to the beneficiary. */
  datatype Related = Related(name: string, relation: string)

  datatype Contact = Contact(phone: Option<string>, email: Option<string>, relation: Option<string>)

  datatype Beneficiary = Beneficiary(id: string, name: string, identity: Identity, asnaf: string, address: string,
                                     guardian: Option<Related>, paymentRecipient: Option<Related>, contact: Option<Contact>)

  datatype AidValue =
    | Money(amountRequested: string, amountApproved: Option<string>)
    | Goods(unit: string, quantityRequested: string, quantityApproved: Option<string>, valued: Option<string>, basis: Option<string>)

  datatype DraftLine = DraftLine(id: string, beneficiaryId: string, aidType: string, period: string, value: AidValue, evidence: Option<string>)

  // ----- Single records

  predicate IsWhole(s: string) { s != "" && forall i | 0 <= i < |s| :: '0' <= s[i] <= '9' }

  predicate IsExactDecimal(s: string)
  {
    IsWhole(s) || exists i | 0 < i < |s| - 1 :: s[i] == '.' && IsWhole(s[..i]) && IsWhole(s[i + 1..])
  }

  predicate IsNik(s: string) { |s| == 16 && IsWhole(s) }

  datatype Field =
    | Id | Name | Asnaf | Address | IdentityBasis
    | Holder | AidType | Period | Amount | Unit | Quantity | Valuation | ValuationBasis | RepeatedAid

  /** One more fault on the list, if there is one. */
  function Noted(fields: seq<Field>, wrong: bool, field: Field): seq<Field>
  {
    if wrong then fields + [field] else fields
  }

  function BeneficiaryFaults(b: Beneficiary): seq<Field>
  {
    var f := Noted(Noted(Noted(Noted([], Blank(b.id), Id), Blank(b.name), Name), Blank(b.asnaf), Asnaf), Blank(b.address), Address);
    match b.identity
    case Nik(value) => Noted(f, !IsNik(value), IdentityBasis)
    case Alternative(description) => Noted(f, Blank(description), IdentityBasis)
  }

  function AidLineFaults(line: DraftLine, holders: set<string>): seq<Field>
  {
    var f := Noted(Noted(Noted(Noted([], Blank(line.id), Id), line.beneficiaryId !in holders, Holder), Blank(line.aidType), AidType), Blank(line.period), Period);
    match line.value
    case Money(amount, _) => Noted(f, !IsWhole(amount), Amount)
    case Goods(unit, quantity, _, valued, basis) =>
      Noted(Noted(Noted(Noted(f, Blank(unit), Unit), !IsExactDecimal(quantity), Quantity),
                  valued.Some? && !IsWhole(valued.value), Valuation),
            valued.Some? && (basis.None? || Blank(basis.value)), ValuationBasis)
  }

  predicate SoundBeneficiary(b: Beneficiary)
  {
    !Blank(b.id) && !Blank(b.name) && !Blank(b.asnaf) && !Blank(b.address) &&
    match b.identity
    case Nik(value) => IsNik(value)
    case Alternative(description) => !Blank(description)
  }

  predicate SoundContent(line: DraftLine)
  {
    !Blank(line.id) && !Blank(line.aidType) && !Blank(line.period) &&
    match line.value
    case Money(amount, _) => IsWhole(amount)
    case Goods(unit, quantity, _, valued, basis) =>
      !Blank(unit) && IsExactDecimal(quantity) && (valued.Some? ==> IsWhole(valued.value) && basis.Some? && !Blank(basis.value))
  }

  lemma {:induction false} NoBeneficiaryFaults(b: Beneficiary)
    ensures BeneficiaryFaults(b) == [] <==> SoundBeneficiary(b)
  {
  }

  lemma {:induction false} NoAidLineFaults(line: DraftLine, holders: set<string>)
    ensures AidLineFaults(line, holders) == [] <==> SoundContent(line) && line.beneficiaryId in holders
  {
  }

  // ----- The whole draft

  datatype Fault = BeneficiaryFault(row: nat, field: Field) | AidLineFault(row: nat, field: Field)

  /** Two aid lines are the same event if every field but the id and the evidence matches. */
  type Fingerprint = (string, string, string, AidValue)

  function FingerprintOf(line: DraftLine): Fingerprint { (line.beneficiaryId, line.aidType, line.period, line.value) }

  function BeneficiaryIds(bs: seq<Beneficiary>): set<string> { set i | 0 <= i < |bs| :: bs[i].id }

  function LineIds(lines: seq<DraftLine>): set<string> { set i | 0 <= i < |lines| :: lines[i].id }

  function Fingerprints(lines: seq<DraftLine>): set<Fingerprint> { set i | 0 <= i < |lines| :: FingerprintOf(lines[i]) }

  function FaultsOfBeneficiary(b: Beneficiary, earlier: set<string>): seq<Field> { Noted(BeneficiaryFaults(b), b.id in earlier, Id) }

  function FaultsOfLine(line: DraftLine, holders: set<string>, earlier: set<string>, events: set<Fingerprint>): seq<Field>
  {
    Noted(Noted(AidLineFaults(line, holders), line.id in earlier, Id), FingerprintOf(line) in events, RepeatedAid)
  }

  function InBeneficiary(row: nat, fields: seq<Field>): seq<Fault> { seq(|fields|, i requires 0 <= i < |fields| => BeneficiaryFault(row, fields[i])) }

  function InAidLine(row: nat, fields: seq<Field>): seq<Fault> { seq(|fields|, i requires 0 <= i < |fields| => AidLineFault(row, fields[i])) }

  function With(issues: seq<Fault>, more: seq<Fault>): seq<Fault> { if more == [] then issues else issues + more }

  function BeneficiariesFaults(bs: seq<Beneficiary>): seq<Fault>
  {
    if bs == [] then []
    else
      var front := bs[..|bs| - 1];
      With(BeneficiariesFaults(front), InBeneficiary(|front|, FaultsOfBeneficiary(bs[|bs| - 1], BeneficiaryIds(front))))
  }

  function AidLinesFaults(lines: seq<DraftLine>, holders: set<string>): seq<Fault>
  {
    if lines == [] then []
    else
      var front := lines[..|lines| - 1];
      With(AidLinesFaults(front, holders), InAidLine(|front|, FaultsOfLine(lines[|lines| - 1], holders, LineIds(front), Fingerprints(front))))
  }

  function DraftFaults(bs: seq<Beneficiary>, lines: seq<DraftLine>): seq<Fault>
  {
    With(BeneficiariesFaults(bs), AidLinesFaults(lines, BeneficiaryIds(bs)))
  }

  lemma {:induction false} IdsOneMore(bs: seq<Beneficiary>, i: nat)
    requires i < |bs|
    ensures bs[..i + 1][..i] == bs[..i] && BeneficiaryIds(bs[..i + 1]) == BeneficiaryIds(bs[..i]) + {bs[i].id}
  {
    assert bs[..i + 1][i] == bs[i] && forall k | 0 <= k < i :: bs[..i + 1][k] == bs[..i][k];
  }

  lemma {:induction false} LinesOneMore(lines: seq<DraftLine>, i: nat)
    requires i < |lines|
    ensures lines[..i + 1][..i] == lines[..i]
    ensures LineIds(lines[..i + 1]) == LineIds(lines[..i]) + {lines[i].id}
    ensures Fingerprints(lines[..i + 1]) == Fingerprints(lines[..i]) + {FingerprintOf(lines[i])}
  {
    assert lines[..i + 1][i] == lines[i] && forall k | 0 <= k < i :: lines[..i + 1][k] == lines[..i][k];
  }

  method ValidateBeneficiaries(bs: seq<Beneficiary>) returns (issues: seq<Fault>, seen: set<string>)
    ensures issues == BeneficiariesFaults(bs) && seen == BeneficiaryIds(bs)
  {
    issues, seen := [], {};
    for i := 0 to |bs|
      invariant issues == BeneficiariesFaults(bs[..i]) && seen == BeneficiaryIds(bs[..i])
    {
      IdsOneMore(bs, i);
      issues := With(issues, InBeneficiary(i, FaultsOfBeneficiary(bs[i], seen)));
      seen := seen + {bs[i].id};
    }
    assert bs[..|bs|] == bs;
  }

  method ValidateAidLines(lines: seq<DraftLine>, holders: set<string>) returns (issues: seq<Fault>)
    ensures issues == AidLinesFaults(lines, holders)
  {
    issues := [];
    var seenLines: set<string>, seenEvents: set<Fingerprint> := {}, {};
    for i := 0 to |lines|
      invariant issues == AidLinesFaults(lines[..i], holders)
      invariant seenLines == LineIds(lines[..i]) && seenEvents == Fingerprints(lines[..i])
    {
      LinesOneMore(lines, i);
      issues := With(issues, InAidLine(i, FaultsOfLine(lines[i], holders, seenLines, seenEvents)));
      seenLines, seenEvents := seenLines + {lines[i].id}, seenEvents + {FingerprintOf(lines[i])};
    }
    assert lines[..|lines|] == lines;
  }

  /** The recipient and aid line part of the draft validators. */
  method ValidateDraft(bs: seq<Beneficiary>, lines: seq<DraftLine>) returns (issues: seq<Fault>)
    ensures issues == DraftFaults(bs, lines)
  {
    var more, seen;
    issues, seen := ValidateBeneficiaries(bs);
    more := ValidateAidLines(lines, seen);
    issues := With(issues, more);
  }

  predicate UniqueBeneficiaries(bs: seq<Beneficiary>) { forall i, j | 0 <= i < j < |bs| :: bs[i].id != bs[j].id }

  predicate UniqueLines(lines: seq<DraftLine>) { forall i, j | 0 <= i < j < |lines| :: lines[i].id != lines[j].id }

  predicate NoRepeatedAid(lines: seq<DraftLine>) { forall i, j | 0 <= i < j < |lines| :: FingerprintOf(lines[i]) != FingerprintOf(lines[j]) }

  predicate SoundBeneficiaries(bs: seq<Beneficiary>) { forall i | 0 <= i < |bs| :: SoundBeneficiary(bs[i]) }

  predicate SoundLines(lines: seq<DraftLine>, holders: set<string>)
  {
    forall i | 0 <= i < |lines| :: SoundContent(lines[i]) && lines[i].beneficiaryId in holders
  }

  lemma {:induction false} LastBeneficiary(bs: seq<Beneficiary>)
    requires bs != []
    ensures SoundBeneficiaries(bs) && UniqueBeneficiaries(bs) <==>
            SoundBeneficiaries(bs[..|bs| - 1]) && UniqueBeneficiaries(bs[..|bs| - 1]) &&
            SoundBeneficiary(bs[|bs| - 1]) && bs[|bs| - 1].id !in BeneficiaryIds(bs[..|bs| - 1])
  {
    var front, last := bs[..|bs| - 1], bs[|bs| - 1];
    assert forall i | 0 <= i < |front| :: front[i] == bs[i];
    assert last.id in BeneficiaryIds(front) <==> exists i | 0 <= i < |front| :: front[i].id == last.id;
  }

  lemma {:induction false} NoBeneficiariesFaults(bs: seq<Beneficiary>)
    ensures BeneficiariesFaults(bs) == [] <==> SoundBeneficiaries(bs) && UniqueBeneficiaries(bs)
  {
    if bs != [] {
      NoBeneficiariesFaults(bs[..|bs| - 1]);
      NoBeneficiaryFaults(bs[|bs| - 1]);
      LastBeneficiary(bs);
    }
  }

  predicate SoundEvents(lines: seq<DraftLine>, holders: set<string>)
  {
    SoundLines(lines, holders) && UniqueLines(lines) && NoRepeatedAid(lines)
  }

  lemma {:induction false} LastLine(lines: seq<DraftLine>, holders: set<string>)
    requires lines != []
    ensures var front, last := lines[..|lines| - 1], lines[|lines| - 1];
            SoundEvents(lines, holders) <==>
            SoundEvents(front, holders) && SoundContent(last) && last.beneficiaryId in holders && last.id !in LineIds(front) && FingerprintOf(last) !in Fingerprints(front)
  {
    var front, last := lines[..|lines| - 1], lines[|lines| - 1];
    assert forall i | 0 <= i < |front| :: front[i] == lines[i];
    assert last.id in LineIds(front) <==> exists i | 0 <= i < |front| :: front[i].id == last.id;
    assert FingerprintOf(last) in Fingerprints(front) <==> exists i | 0 <= i < |front| :: FingerprintOf(front[i]) == FingerprintOf(last);
  }

  lemma {:induction false} NoAidLinesFaults(lines: seq<DraftLine>, holders: set<string>)
    ensures AidLinesFaults(lines, holders) == [] <==> SoundEvents(lines, holders)
  {
    if lines != [] {
      NoAidLinesFaults(lines[..|lines| - 1], holders);
      NoAidLineFaults(lines[|lines| - 1], holders);
      LastLine(lines, holders);
    }
  }

  /** The validators find nothing exactly when every record is sound, ids and events are unique and every line has its recipient. */
  lemma {:induction false} NoDraftFaults(bs: seq<Beneficiary>, lines: seq<DraftLine>)
    ensures DraftFaults(bs, lines) == [] <==>
      SoundBeneficiaries(bs) && UniqueBeneficiaries(bs) && SoundEvents(lines, BeneficiaryIds(bs))
  {
    NoBeneficiariesFaults(bs);
    NoAidLinesFaults(lines, BeneficiaryIds(bs));
  }
}
