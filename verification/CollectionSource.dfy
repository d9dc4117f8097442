/**
 The collection side of a period report: every contribution received in the period, with the
 amount, status and version it had at the cutoff. The builder rolls today's rows back through the
 corrections, the history and the refunds recorded after the cutoff.
 */
module CollectionSource {
  import opened Options
  import opened Sequences
  import opened Texts
  import opened Sorting
  import opened AllocationFill
  import opened ContributionLedger

  datatype Scope = Scope(from: int, to: int, cutoff: int)

  datatype CollectionEntry = CollectionEntry(
    contributionId: Text, version: int, status: ContributionStatus, fund: FundType, channel: Text, reference: Text,
    receivedAt: nat, recordedAt: nat, amount: nat, paidRefund: nat, effective: nat,
    corrections: seq<Correction>, refunds: seq<Refund>)

  datatype SideError = InvalidFundType

  datatype CollectionSide = CollectionSide(entries: seq<CollectionEntry>, excludedAfterCutOff: seq<Text>)

  function VersionKey(c: Correction): int { c.toVersion }
  function SerialKey(h: HistoryEntry): int { h.id }

  // ----- Rolling one record back

  /** Corrections are visited from the newest version down. */
  function RollAmount(sorted: seq<Correction>, amount: nat, cutoff: int): nat
  {
    if sorted == [] then amount
    else RollAmount(sorted[1..], if sorted[0].createdAt > cutoff then sorted[0].fromAmount else amount, cutoff)
  }

  function RollStatus(sorted: seq<HistoryEntry>, status: ContributionStatus, cutoff: int): ContributionStatus
  {
    if sorted == [] then status
    else RollStatus(sorted[1..], if sorted[0].occurredAt > cutoff then sorted[0].fromStatus else status, cutoff)
  }

  predicate Telling(h: HistoryEntry, cutoff: int) { h.occurredAt > cutoff && h.action != DecideRefund }

  function RollVersion(sorted: seq<HistoryEntry>, version: int, cutoff: int): int
  {
    if sorted == [] then version
    else RollVersion(sorted[1..], if Telling(sorted[0], cutoff) then Min(version, sorted[0].version - 1) else version, cutoff)
  }

  predicate PaidBy(refund: Refund, cutoff: int)
  {
    refund.status == Paid && refund.paidAt.Some? && refund.paidAt.value <= cutoff && refund.updatedAt <= cutoff
  }

  function PaidTotal(refunds: seq<Refund>, cutoff: int): nat
  {
    if refunds == [] then 0
    else
      var last := refunds[|refunds| - 1];
      PaidTotal(refunds[..|refunds| - 1], cutoff) + (if PaidBy(last, cutoff) then last.amount else 0)
  }

  /** The refunds a row lists. */
  function PaidRefundsBy(refunds: seq<Refund>, cutoff: int): seq<Refund>
  {
    if refunds == [] then []
    else
      var front, last := PaidRefundsBy(refunds[..|refunds| - 1], cutoff), refunds[|refunds| - 1];
      if PaidBy(last, cutoff) then front + [last] else front
  }

  /** The corrections a row lists. */
  function CorrectionsBy(corrections: seq<Correction>, cutoff: int): seq<Correction>
  {
    if corrections == [] then []
    else
      var front, last := CorrectionsBy(corrections[..|corrections| - 1], cutoff), corrections[|corrections| - 1];
      if last.createdAt <= cutoff then front + [last] else front
  }

  /** What a record amounts to at the cutoff: amount, status and version, and what paid refunds leave of it. */
  datatype Reading = Reading(amount: nat, status: ContributionStatus, version: int, paid: nat)
  {
    function Net(): nat
    {
      var gross := if status == Rejected then 0 else amount;
      if gross > paid then gross - paid else 0
    }
  }

  function RolledBack(r: CollectionRecord, cutoff: int): Reading
  {
    var corrections := SortDescending(r.corrections, VersionKey);
    var history := SortDescending(r.history, SerialKey);
    Reading(RollAmount(corrections, r.contribution.amount, cutoff),
            RollStatus(history, r.contribution.status, cutoff),
            RollVersion(history, r.contribution.version, cutoff),
            PaidTotal(r.refunds, cutoff))
  }

  /** What a record says of itself, without rolling anything back. */
  function Current(r: CollectionRecord, cutoff: int): Reading
  {
    Reading(r.contribution.amount, r.contribution.status, r.contribution.version, PaidTotal(r.refunds, cutoff))
  }

  // ----- Building the side

  predicate InPeriod(c: Contribution, scope: Scope)
  {
    c.currency == Idr && scope.from <= c.receivedAt < scope.to
  }

  predicate AfterCutOff(c: Contribution, scope: Scope)
  {
    c.receivedAt > scope.cutoff || c.createdAt > scope.cutoff
  }

  function EntryOf(id: Text, r: CollectionRecord, reading: Reading, cutoff: int): CollectionEntry
    requires r.contribution.fund.Some?
  {
    var c := r.contribution;
    CollectionEntry(id, reading.version, reading.status, c.fund.value, c.channel, c.reference, c.receivedAt, c.createdAt,
                    reading.amount, reading.paid, reading.Net(), CorrectionsBy(r.corrections, cutoff), PaidRefundsBy(r.refunds, cutoff))
  }

  /** What one more record adds to a side: nothing outside the period, only its name after the cutoff. */
  function WithRow(side: Result<CollectionSide, SideError>, scope: Scope, id: Text, r: CollectionRecord, reading: Reading): Result<CollectionSide, SideError>
  {
    match side
    case Err(e) => Err(e)
    case Ok(s) =>
      if !InPeriod(r.contribution, scope) then Ok(s)
      else if AfterCutOff(r.contribution, scope) then Ok(s.(excludedAfterCutOff := s.excludedAfterCutOff + [id]))
      else if r.contribution.fund.None? then Err(InvalidFundType)
      else Ok(s.(entries := s.entries + [EntryOf(id, r, reading, scope.cutoff)]))
  }

  /** Records are read in a fixed order. */
  function SideOf(scope: Scope, records: seq<(Text, CollectionRecord)>): Result<CollectionSide, SideError>
  {
    if records == [] then Ok(CollectionSide([], []))
    else
      var last := records[|records| - 1];
      WithRow(SideOf(scope, records[..|records| - 1]), scope, last.0, last.1, RolledBack(last.1, scope.cutoff))
  }

  /** What the rows add up to. */
  function TotalIdr(entries: seq<CollectionEntry>): nat
  {
    if entries == [] then 0 else TotalIdr(entries[..|entries| - 1]) + entries[|entries| - 1].effective
  }

  function FundTotal(entries: seq<CollectionEntry>, fund: FundType): nat
  {
    if entries == [] then 0
    else
      var last := entries[|entries| - 1];
      FundTotal(entries[..|entries| - 1], fund) + (if last.fund == fund then last.effective else 0)
  }

  /** The totals per fund make up the total. */
  lemma {:induction false} FundTotalsAddUp(entries: seq<CollectionEntry>)
    ensures TotalIdr(entries) == FundTotal(entries, Zakat) + FundTotal(entries, Fitrah) + FundTotal(entries, InfakSedekah) +
                                 FundTotal(entries, Kurban) + FundTotal(entries, Dskl)
  {
    if entries != [] { FundTotalsAddUp(entries[..|entries| - 1]); }
  }

  method RollBack(r: CollectionRecord, cutoff: int) returns (amount: nat, status: ContributionStatus, version: int)
    ensures amount == RolledBack(r, cutoff).amount && status == RolledBack(r, cutoff).status && version == RolledBack(r, cutoff).version
  {
    amount, status, version := r.contribution.amount, r.contribution.status, r.contribution.version;
    var corrections := SortDescending(r.corrections, VersionKey);
    assert corrections[0..] == corrections;
    for i := 0 to |corrections|
      invariant RollAmount(corrections[i..], amount, cutoff) == RollAmount(corrections, r.contribution.amount, cutoff)
    {
      assert corrections[i..][1..] == corrections[i + 1..];
      if corrections[i].createdAt > cutoff { amount := corrections[i].fromAmount; }
    }
    var history := SortDescending(r.history, SerialKey);
    assert history[0..] == history;
    for i := 0 to |history|
      invariant RollStatus(history[i..], status, cutoff) == RollStatus(history, r.contribution.status, cutoff)
      invariant RollVersion(history[i..], version, cutoff) == RollVersion(history, r.contribution.version, cutoff)
    {
      assert history[i..][1..] == history[i + 1..];
      if history[i].occurredAt > cutoff {
        status := history[i].fromStatus;
        if history[i].action != DecideRefund { version := Min(version, history[i].version - 1); }
      }
    }
  }

  method PaidRefunds(refunds: seq<Refund>, cutoff: int) returns (paid: nat, rows: seq<Refund>)
    ensures paid == PaidTotal(refunds, cutoff) && rows == PaidRefundsBy(refunds, cutoff)
  {
    paid, rows := 0, [];
    for i := 0 to |refunds|
      invariant paid == PaidTotal(refunds[..i], cutoff) && rows == PaidRefundsBy(refunds[..i], cutoff)
    {
      assert refunds[..i + 1][..i] == refunds[..i];
      if PaidBy(refunds[i], cutoff) { paid, rows := paid + refunds[i].amount, rows + [refunds[i]]; }
    }
    assert refunds[..|refunds|] == refunds;
  }

  lemma {:induction false} SideOneMore(scope: Scope, records: seq<(Text, CollectionRecord)>, i: nat)
    requires i < |records|
    ensures SideOf(scope, records[..i + 1]) ==
      WithRow(SideOf(scope, records[..i]), scope, records[i].0, records[i].1, RolledBack(records[i].1, scope.cutoff))
  {
    assert records[..i + 1][..i] == records[..i];
  }

  /** One row of the report. */
  method ReadEntry(id: Text, r: CollectionRecord, cutoff: int) returns (entry: CollectionEntry)
    requires r.contribution.fund.Some?
    ensures entry == EntryOf(id, r, RolledBack(r, cutoff), cutoff)
  {
    var c := r.contribution;
    var amount, status, version := RollBack(r, cutoff);
    var paid, refunds := PaidRefunds(r.refunds, cutoff);
    var gross := if status == Rejected then 0 else amount;
    var net := if gross > paid then gross - paid else 0;
    entry := CollectionEntry(id, version, status, c.fund.value, c.channel, c.reference, c.receivedAt, c.createdAt, amount, paid, net,
                             CorrectionsBy(r.corrections, cutoff), refunds);
  }

  method BuildCollectionSide(scope: Scope, records: seq<(Text, CollectionRecord)>) returns (built: Result<CollectionSide, SideError>)
    ensures built == SideOf(scope, records)
  {
    var entries: seq<CollectionEntry> := [];
    var excluded: seq<Text> := [];
    for i := 0 to |records|
      invariant SideOf(scope, records[..i]) == Ok(CollectionSide(entries, excluded))
    {
      SideOneMore(scope, records, i);
      var (id, r) := records[i];
      var c := r.contribution;
      if c.currency != Idr || c.receivedAt < scope.from || c.receivedAt >= scope.to { continue; }
      if c.receivedAt > scope.cutoff || c.createdAt > scope.cutoff {
        excluded := excluded + [id];
        continue;
      }
      if c.fund.None? {
        StaysRefused(scope, records, i + 1);
        return Err(InvalidFundType);
      }
      var entry := ReadEntry(id, r, scope.cutoff);
      entries := entries + [entry];
    }
    assert records[..|records|] == records;
    return Ok(CollectionSide(entries, excluded));
  }

  lemma {:induction false} StaysRefused(scope: Scope, records: seq<(Text, CollectionRecord)>, i: nat)
    requires i <= |records| && SideOf(scope, records[..i]).Err?
    ensures SideOf(scope, records) == SideOf(scope, records[..i])
    decreases |records| - i
  {
    if i < |records| {
      SideOneMore(scope, records, i);
      StaysRefused(scope, records, i + 1);
    } else {
      assert records[..i] == records;
    }
  }
}
