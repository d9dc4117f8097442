/**
 What a collection report says, row by row, of the records as they stood at the cutoff: which
 contributions have a row, what remains of each beside its paid refunds, which are named as recorded
 too late, and when there is no report.
 */
module CollectionRows {
  import opened Options
  import opened Sequences
  import opened Texts
  import opened AllocationFill
  import opened ContributionLedger
  import opened CollectionSource
  import opened CollectionHistory

  // ----- A row and its record

  /** What had been paid back by a moment. */
  function PaidUp(refunds: seq<Refund>, moment: int): nat
  {
    if refunds == [] then 0
    else
      var last := refunds[|refunds| - 1];
      PaidUp(refunds[..|refunds| - 1], moment) + (if WasPaid(last, moment) then last.amount else 0)
  }

  predicate WasPaid(refund: Refund, moment: int) { refund.status == Paid && refund.paidAt.Some? && refund.paidAt.value <= moment }

  /** In rupiah and received within the period. */
  predicate OfPeriod(c: Contribution, scope: Scope) { c.currency == Idr && scope.from <= c.receivedAt && c.receivedAt < scope.to }

  /** And both received and recorded by the cutoff. */
  predicate Reported(c: Contribution, scope: Scope)
  {
    OfPeriod(c, scope) && c.receivedAt <= scope.cutoff && c.createdAt <= scope.cutoff
  }

  /** The row is the record's: nothing of a rejected or overpaid contribution remains, and of any other the amount less what was paid back. */
  ghost predicate RowTells(e: CollectionEntry, r: CollectionRecord, cutoff: int)
  {
    var c, paid := r.contribution, PaidUp(r.refunds, cutoff);
    e.status == c.status && c.fund == Some(e.fund) && e.channel == c.channel && e.reference == c.reference &&
    e.receivedAt == c.receivedAt && e.recordedAt == c.createdAt && e.amount == c.amount && e.paidRefund == paid &&
    (c.status == Rejected || paid > c.amount ==> e.effective == 0) &&
    (c.status != Rejected && paid <= c.amount ==> e.effective + paid == c.amount) &&
    e.corrections == r.corrections && forall refund :: refund in e.refunds <==> refund in r.refunds && WasPaid(refund, cutoff)
  }

  lemma {:induction false} PaidTotalIsPaidUp(refunds: seq<Refund>, cutoff: int)
    requires forall i | 0 <= i < |refunds| :: refunds[i].updatedAt <= cutoff
    ensures PaidTotal(refunds, cutoff) == PaidUp(refunds, cutoff)
    ensures forall refund :: refund in PaidRefundsBy(refunds, cutoff) <==> refund in refunds && WasPaid(refund, cutoff)
  {
    if refunds != [] {
      var front, last := refunds[..|refunds| - 1], refunds[|refunds| - 1];
      PaidTotalIsPaidUp(front, cutoff);
      assert refunds == front + [last];
    }
  }

  lemma {:induction false} AllCorrectionsBy(cs: seq<Correction>, cutoff: int)
    requires forall i | 0 <= i < |cs| :: cs[i].createdAt <= cutoff
    ensures CorrectionsBy(cs, cutoff) == cs
  {
    if cs != [] {
      AllCorrectionsBy(cs[..|cs| - 1], cutoff);
      assert cs == cs[..|cs| - 1] + [cs[|cs| - 1]];
    }
  }

  lemma {:induction false} EntryTells(id: Text, r: CollectionRecord, cutoff: int)
    requires Kept(r, cutoff) && r.contribution.fund.Some?
    ensures RowTells(EntryOf(id, r, Before(r, cutoff), cutoff), r, cutoff)
  {
    CurrentWithinCutoff(r, cutoff, cutoff);
    PaidTotalIsPaidUp(r.refunds, cutoff);
    AllCorrectionsBy(r.corrections, cutoff);
  }

  // ----- All rows of one store

  predicate HasRow(entries: seq<CollectionEntry>, id: Text) { exists k | 0 <= k < |entries| :: entries[k].contributionId == id }

  /** Every row stands for a listed record, and every listed record that belongs has its row. */
  ghost predicate RowsTell(entries: seq<CollectionEntry>, store: Store, scope: Scope, ids: seq<Text>)
  {
    (forall k | 0 <= k < |entries| ::
       entries[k].contributionId in ids && entries[k].contributionId in store &&
       Reported(store[entries[k].contributionId].contribution, scope) && RowTells(entries[k], store[entries[k].contributionId], scope.cutoff)) &&
    (forall i | 0 <= i < |ids| && ids[i] in store && Reported(store[ids[i]].contribution, scope) :: HasRow(entries, ids[i]))
  }

  lemma {:induction false} RowsTellAfterRow(entries: seq<CollectionEntry>, store: Store, scope: Scope, ids: seq<Text>, e: CollectionEntry)
    requires ids != [] && RowsTell(entries, store, scope, ids[..|ids| - 1]) && ids[|ids| - 1] in store && e.contributionId == ids[|ids| - 1]
    requires Reported(store[e.contributionId].contribution, scope) && RowTells(e, store[e.contributionId], scope.cutoff)
    ensures RowsTell(entries + [e], store, scope, ids)
  {
    var all, front := entries + [e], ids[..|ids| - 1];
    assert ids == front + [ids[|ids| - 1]] && all[|entries|] == e;
    forall i | 0 <= i < |ids| && ids[i] in store && Reported(store[ids[i]].contribution, scope) ensures HasRow(all, ids[i]) {
      if i < |front| {
        assert front[i] == ids[i] && HasRow(entries, front[i]);
        var k :| 0 <= k < |entries| && entries[k].contributionId == ids[i];
        assert all[k] == entries[k];
      }
    }
  }

  lemma {:induction false} RowsTellWithoutRow(entries: seq<CollectionEntry>, store: Store, scope: Scope, ids: seq<Text>)
    requires ids != [] && RowsTell(entries, store, scope, ids[..|ids| - 1])
    requires ids[|ids| - 1] in store ==> !Reported(store[ids[|ids| - 1]].contribution, scope)
    ensures RowsTell(entries, store, scope, ids)
  {
    var front := ids[..|ids| - 1];
    assert ids == front + [ids[|ids| - 1]];
    forall i | 0 <= i < |ids| && ids[i] in store && Reported(store[ids[i]].contribution, scope) ensures HasRow(entries, ids[i]) {
      assert i < |front| && front[i] == ids[i];
    }
  }

  lemma {:induction false} SideTells(store: Store, scope: Scope, ids: seq<Text>)
    requires StoreKept(store, scope.cutoff) && SideOf(scope, Listing(store, ids)).Ok?
    ensures RowsTell(SideOf(scope, Listing(store, ids)).value.entries, store, scope, ids)
  {
    if ids != [] {
      var front, id := ids[..|ids| - 1], ids[|ids| - 1];
      ListingSnoc(scope, store, ids, scope.cutoff);
      SideTells(store, scope, front);
      var entries := SideOf(scope, Listing(store, front)).value.entries;
      if id in store && Reported(store[id].contribution, scope) {
        EntryTells(id, store[id], scope.cutoff);
        RowsTellAfterRow(entries, store, scope, ids, EntryOf(id, store[id], Before(store[id], scope.cutoff), scope.cutoff));
      } else {
        RowsTellWithoutRow(entries, store, scope, ids);
      }
    }
  }

  predicate OneRowEach(entries: seq<CollectionEntry>)
  {
    forall j, k | 0 <= j < k < |entries| :: entries[j].contributionId != entries[k].contributionId
  }

  /** Records listed once have one row. */
  lemma {:induction false} SideHasOneRowEach(store: Store, last: int, scope: Scope, ids: seq<Text>)
    requires StoreKept(store, last) && SideOf(scope, Listing(store, ids)).Ok?
    requires forall i, j | 0 <= i < j < |ids| :: ids[i] != ids[j]
    ensures OneRowEach(SideOf(scope, Listing(store, ids)).value.entries)
    ensures forall e | e in SideOf(scope, Listing(store, ids)).value.entries :: e.contributionId in ids
  {
    if ids != [] {
      var front, id := ids[..|ids| - 1], ids[|ids| - 1];
      assert ids == front + [id] && id !in front;
      ListingSnoc(scope, store, ids, last);
      SideHasOneRowEach(store, last, scope, front);
    }
  }

  // ----- No report, and what is named as too late

  predicate Unfunded(store: Store, scope: Scope, id: Text)
  {
    id in store && Reported(store[id].contribution, scope) && store[id].contribution.fund.None?
  }

  predicate TooLate(store: Store, scope: Scope, id: Text)
  {
    id in store && OfPeriod(store[id].contribution, scope) && !Reported(store[id].contribution, scope)
  }

  /** There is a report exactly when every record it would show names a known fund. */
  lemma {:induction false} SideExactlyWhen(store: Store, last: int, scope: Scope, ids: seq<Text>)
    requires StoreKept(store, last)
    ensures SideOf(scope, Listing(store, ids)).Ok? <==> forall i | 0 <= i < |ids| :: !Unfunded(store, scope, ids[i])
  {
    if ids != [] {
      var front, id := ids[..|ids| - 1], ids[|ids| - 1];
      SideExactlyWhen(store, last, scope, front);
      ListingSnoc(scope, store, ids, last);
      assert forall i | 0 <= i < |front| :: front[i] == ids[i];
      assert forall i | 0 <= i < |ids| :: i < |front| || ids[i] == id;
    }
  }

  lemma {:induction false} LateAreNamed(store: Store, last: int, scope: Scope, ids: seq<Text>)
    requires StoreKept(store, last) && SideOf(scope, Listing(store, ids)).Ok?
    ensures forall id :: id in SideOf(scope, Listing(store, ids)).value.excludedAfterCutOff <==> id in ids && TooLate(store, scope, id)
  {
    if ids != [] {
      var front, id := ids[..|ids| - 1], ids[|ids| - 1];
      assert ids == front + [id];
      ListingSnoc(scope, store, ids, last);
      LateAreNamed(store, last, scope, front);
    }
  }

  function IdsOfRows(entries: seq<CollectionEntry>): seq<Text>
  {
    seq(|entries|, i requires 0 <= i < |entries| => entries[i].contributionId)
  }

  predicate HasReportedRow(store: Store, scope: Scope, id: Text) { id in store && Reported(store[id].contribution, scope) }

  /** Rows and exclusions come in the order the records were listed. */
  lemma {:induction false} SideIsInOrder(store: Store, last: int, scope: Scope, ids: seq<Text>)
    requires StoreKept(store, last) && SideOf(scope, Listing(store, ids)).Ok?
    ensures var side := SideOf(scope, Listing(store, ids)).value;
      IdsOfRows(side.entries) == Filter(ids, (id: Text) => HasReportedRow(store, scope, id)) &&
      side.excludedAfterCutOff == Filter(ids, (id: Text) => TooLate(store, scope, id))
  {
    if ids != [] {
      var front, id := ids[..|ids| - 1], ids[|ids| - 1];
      ListingSnoc(scope, store, ids, last);
      SideIsInOrder(store, last, scope, front);
      var (before, side) := (SideOf(scope, Listing(store, front)).value, SideOf(scope, Listing(store, ids)).value);
      assert HasReportedRow(store, scope, id) ==> IdsOfRows(side.entries) == IdsOfRows(before.entries) + [id];
    }
  }

  // ----- The report over runs

  lemma {:induction false} SameRowsTellTheSame(now: seq<CollectionEntry>, then_: seq<CollectionEntry>, store: Store, scope: Scope, ids: seq<Text>)
    requires SameRows(now, then_) && RowsTell(then_, store, scope, ids)
    ensures RowsTell(now, store, scope, ids)
  {
    forall k | 0 <= k < |now|
      ensures now[k].contributionId in ids && now[k].contributionId in store && Reported(store[now[k].contributionId].contribution, scope) &&
              RowTells(now[k], store[now[k].contributionId], scope.cutoff)
    {
      assert now[k].(version := then_[k].version) == then_[k];
    }
    forall i | 0 <= i < |ids| && ids[i] in store && Reported(store[ids[i]].contribution, scope) ensures HasRow(now, ids[i]) {
      assert HasRow(then_, ids[i]);
      var k :| 0 <= k < |then_| && then_[k].contributionId == ids[i];
      assert now[k].(version := then_[k].version) == then_[k];
    }
  }

  /** The report on today's store tells of every record as it stood at the cutoff. */
  lemma {:induction false} ReportTells(ts: seq<Transaction>, scope: Scope, ids: seq<Text>, side: CollectionSide)
    requires InClockOrder(ts) && SideOf(scope, Listing(Run(ts), ids)) == Ok(side)
    ensures RowsTell(side.entries, Run(UpTo(ts, scope.cutoff)), scope, ids)
    ensures forall id :: id in side.excludedAfterCutOff <==> id in ids && TooLate(Run(ts), scope, id)
    ensures IdsOfRows(side.entries) == Filter(ids, (id: Text) => HasReportedRow(Run(ts), scope, id))
    ensures (forall i, j | 0 <= i < j < |ids| :: ids[i] != ids[j]) ==> OneRowEach(side.entries)
  {
    var then_ := Run(UpTo(ts, scope.cutoff));
    var last := if ts == [] then 0 else ts[|ts| - 1].now;
    RunAgrees(ts, scope.cutoff);
    RunKeeps(ts, last);
    ReportIsAsOfCutoff(ts, scope, ids, Zakat);
    SideTells(then_, scope, ids);
    SameRowsTellTheSame(side.entries, SideOf(scope, Listing(then_, ids)).value.entries, then_, scope, ids);
    LateAreNamed(Run(ts), last, scope, ids);
    SideIsInOrder(Run(ts), last, scope, ids);
    if forall i, j | 0 <= i < j < |ids| :: ids[i] != ids[j] { SideHasOneRowEach(Run(ts), last, scope, ids); }
  }

  /** There is no report exactly when a record it would show names no known fund. */
  lemma {:induction false} NoReportExactlyWhen(ts: seq<Transaction>, scope: Scope, ids: seq<Text>)
    requires InClockOrder(ts)
    ensures SideOf(scope, Listing(Run(ts), ids)).Ok? <==> forall i | 0 <= i < |ids| :: !Unfunded(Run(ts), scope, ids[i])
  {
    var last := if ts == [] then 0 else ts[|ts| - 1].now;
    RunKeeps(ts, last);
    SideExactlyWhen(Run(ts), last, scope, ids);
  }

  // ----- Totals per fund

  /** A fund's total is the total of exactly its rows. */
  lemma {:induction false} FundTotalIsOfItsRows(entries: seq<CollectionEntry>, fund: FundType)
    ensures FundTotal(entries, fund) == TotalIdr(Filter(entries, (e: CollectionEntry) => e.fund == fund))
  {
    if entries != [] {
      var front, last := entries[..|entries| - 1], entries[|entries| - 1];
      FundTotalIsOfItsRows(front, fund);
      var rows := Filter(front, (e: CollectionEntry) => e.fund == fund);
      assert (rows + [last])[..|rows|] == rows;
    }
  }

  /** No row counts for more than its record holds, and what was paid back does not count. */
  lemma {:induction false} TotalCounts(entries: seq<CollectionEntry>)
    requires forall k | 0 <= k < |entries| :: entries[k].effective <= entries[k].amount
    ensures TotalIdr(entries) <= AmountsOf(entries)
    ensures (forall k | 0 <= k < |entries| :: entries[k].effective + entries[k].paidRefund == entries[k].amount) ==>
      TotalIdr(entries) + RefundsOf(entries) == AmountsOf(entries)
  {
    if entries != [] {
      var front := entries[..|entries| - 1];
      assert forall k | 0 <= k < |front| :: front[k] == entries[k];
      TotalCounts(front);
    }
  }

  function AmountsOf(entries: seq<CollectionEntry>): nat
  {
    if entries == [] then 0 else AmountsOf(entries[..|entries| - 1]) + entries[|entries| - 1].amount
  }

  function RefundsOf(entries: seq<CollectionEntry>): nat
  {
    if entries == [] then 0 else RefundsOf(entries[..|entries| - 1]) + entries[|entries| - 1].paidRefund
  }
}
