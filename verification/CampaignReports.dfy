/**
 What a gateway report does, said of its fields: which reports are believed, what each makes of the
 payment and the campaign, and what a payment ends with after all of them.
 */
module CampaignReports {
  import opened Options
  import opened Texts
  import opened CampaignPayments
  import opened CampaignPaymentLaws

  // ----- Which reports are believed

  predicate OfRefund(r: Report) { r.status == Refund || r.status == PartialRefund }

  /** Money came in: settled, captured and accepted, or since paid back. */
  predicate OfPayment(r: Report) { r.status == Settlement || (r.status == Capture && r.fraud == Accepted) || OfRefund(r) }

  /** Of this payment and its whole amount in rupiah, not suspected; a refund names a part of it, and a full refund all of it. */
  predicate IsBelieved(id: nat, amount: nat, r: Report)
  {
    r.orderId == id && r.inRupiah && r.gross.Some? && r.gross.value == amount && r.fraud != Suspected &&
    (OfRefund(r) ==> r.refundAmount.Some? && r.refundAmount.value != 0 && r.refundAmount.value <= amount) &&
    (r.status == Refund ==> r.refundAmount == Some(amount))
  }

  function NamedRefund(r: Report): nat { if OfRefund(r) && r.refundAmount.Some? then r.refundAmount.value else 0 }

  lemma {:induction false} ReconciledExactlyWhen(b: Books, id: nat, r: Report, now: nat)
    ensures Reconciled(b, id, r, now).Ok? <==>
      id < |b.payments| && IsBelieved(id, b.payments[id].amount, r) && b.payments[id].campaignId in b.campaigns
    ensures Reconciled(b, id, r, now).Err? ==>
      match Reconciled(b, id, r, now).error
      case NoPayment => id >= |b.payments|
      case NoCampaign => id < |b.payments| && b.payments[id].campaignId !in b.campaigns
      case Unverified => id < |b.payments| && !IsBelieved(id, b.payments[id].amount, r)
      case UnverifiedRefund => id < |b.payments| && OfRefund(r) && !IsBelieved(id, b.payments[id].amount, r)
  {
  }

  // ----- What a report makes of the payment

  /** The status that paid and refunded amounts call for. */
  predicate StatusTells(status: PaymentStatus, paid: nat, refunded: nat, closed: bool)
  {
    (refunded > 0 && refunded == paid ==> status == Refunded) &&
    (refunded > 0 && refunded != paid ==> status == PartiallyRefunded) &&
    (refunded == 0 && paid > 0 ==> status == PaidUp) &&
    (refunded == 0 && paid == 0 && closed ==> status == Unpaid) &&
    (refunded == 0 && paid == 0 && !closed ==> status == Pending)
  }

  /** Paid in full if the report says money came in; refunded as far as any report ever named; stamped with the first time anything was paid. */
  predicate PaymentTells(p: Payment, r: Report, q: Payment, now: nat)
  {
    q.campaignId == p.campaignId && q.amount == p.amount &&
    q.paid == (if OfPayment(r) then p.amount else p.paid) &&
    p.refunded <= q.refunded && NamedRefund(r) <= q.refunded && (q.refunded == p.refunded || q.refunded == NamedRefund(r)) &&
    q.paidAt == (if p.paidAt.None? && q.paid > 0 then Some(now) else p.paidAt) &&
    StatusTells(q.status, q.paid, q.refunded, r.status == Closed || p.status == Unpaid)
  }

  /** The campaign gains what the payment gained, and one donation when the payment now leaves something where it left nothing. */
  predicate CampaignTells(c: Campaign, d: Campaign, p: Payment, q: Payment, now: nat)
  {
    d.collected - c.collected == (q.paid - q.refunded) - (p.paid - p.refunded) &&
    d.donations - c.donations == (if q.paid > q.refunded then 1 else 0) - (if p.paid > p.refunded then 1 else 0) &&
    d.updatedAt == now && |d.history| == |c.history| + 1 && d.history[..|c.history|] == c.history &&
    d.history[|c.history|] == AuditEntry(if q.refunded > p.refunded then RefundEvent else PaymentEvent, now)
  }

  /** An announcement tells the figures of the payment and of its campaign. */
  predicate AnnouncementTells(a: Announcement, id: nat, p: Payment, q: Payment, d: Campaign)
  {
    a.kind == (if q.refunded > p.refunded then RefundEvent else PaymentEvent) && a.campaignId == p.campaignId && a.payment == Some(id) &&
    a.paid == q.paid && a.refunded == q.refunded && a.collected == d.collected && a.donations == d.donations
  }

  lemma {:induction false} ReconciledTells(b: Books, id: nat, r: Report, now: nat)
    requires Reconciled(b, id, r, now).Ok?
    ensures id < |b.payments|
    ensures var end := Reconciled(b, id, r, now).value;
      |end.payments| == |b.payments| && PaymentTells(b.payments[id], r, end.payments[id], now) &&
      (forall k | 0 <= k < |b.payments| && k != id :: end.payments[k] == b.payments[k])
    ensures var (end, p) := (Reconciled(b, id, r, now).value, b.payments[id]);
      var q := end.payments[id];
      if q.paid == p.paid && q.refunded == p.refunded then end.campaigns == b.campaigns && end.outbox == b.outbox
      else
        p.campaignId in b.campaigns && p.campaignId in end.campaigns && end.campaigns == b.campaigns[p.campaignId := end.campaigns[p.campaignId]] &&
        CampaignTells(b.campaigns[p.campaignId], end.campaigns[p.campaignId], p, q, now) &&
        |end.outbox| == |b.outbox| + 1 && end.outbox[..|b.outbox|] == b.outbox &&
        AnnouncementTells(end.outbox[|b.outbox|], id, p, q, end.campaigns[p.campaignId])
  {
  }

  // ----- What a payment ends with

  /** Paid in full if any report says money came in, refunded by the largest refund named, and with the status that calls for. */
  lemma {:induction false} AllReportsTell(p: Payment, rs: seq<Report>, id: nat, now: nat)
    requires Consistent(p) && rs != [] && forall i | 0 <= i < |rs| :: IsBelieved(id, p.amount, rs[i])
    ensures var end := SettledAll(p, rs, now);
      end.amount == p.amount && end.paid == (if exists r | r in rs :: OfPayment(r) then p.amount else p.paid) &&
      p.refunded <= end.refunded && (forall r | r in rs :: NamedRefund(r) <= end.refunded) &&
      (end.refunded == p.refunded || exists r | r in rs :: NamedRefund(r) == end.refunded) &&
      StatusTells(end.status, end.paid, end.refunded, p.status == Unpaid || exists r | r in rs :: r.status == Closed)
  {
    assert AllVerified(id, p.amount, rs);
    SettledAllEndsWith(p, rs, id, now);
    LargestIsReported(rs);
    forall r | r in rs ensures NamedRefund(r) <= LargestRefund(rs) {
      var k: nat :| k < |rs| && rs[k] == r;
      LargestBounds(rs, k);
    }
    assert AnyPays(rs) <==> exists r | r in rs :: OfPayment(r);
    assert AnyCloses(rs) <==> exists r | r in rs :: r.status == Closed;
    if LargestRefund(rs) != 0 {
      var r :| r in rs && RefundReported(r) == LargestRefund(rs);
      assert NamedRefund(r) == LargestRefund(rs);
    }
  }

  // ----- What a campaign holds

  function PaidIn(payments: seq<Payment>, c: Text): nat
  {
    if payments == [] then 0
    else
      var p := payments[|payments| - 1];
      PaidIn(payments[..|payments| - 1], c) + (if p.campaignId == c then p.paid else 0)
  }

  function PaidBack(payments: seq<Payment>, c: Text): nat
  {
    if payments == [] then 0
    else
      var p := payments[|payments| - 1];
      PaidBack(payments[..|payments| - 1], c) + (if p.campaignId == c then p.refunded else 0)
  }

  /** The payments of a campaign that leave it something. */
  function Donations(payments: seq<Payment>, c: Text): set<nat>
  {
    set i | 0 <= i < |payments| && payments[i].campaignId == c && payments[i].paid > payments[i].refunded
  }

  lemma {:induction false} NetIsPaidLessRefunded(payments: seq<Payment>, c: Text)
    ensures NetTotal(payments, c) == PaidIn(payments, c) - PaidBack(payments, c)
    ensures DonorCount(payments, c) == |Donations(payments, c)|
  {
    if payments != [] {
      var n := |payments| - 1;
      NetIsPaidLessRefunded(payments[..n], c);
      var before := Donations(payments[..n], c);
      var now := if payments[n].campaignId == c && payments[n].paid > payments[n].refunded then before + {n} else before;
      assert Donations(payments, c) == now;
    } else {
      assert Donations(payments, c) == {};
    }
  }

  /** After every run a campaign has collected what was paid in less what was paid back, and counts the payments that leave something. */
  lemma {:induction false} CampaignHolds(ts: seq<Transaction>, c: Text)
    requires c in Run(ts).campaigns
    ensures var b := Run(ts);
      b.campaigns[c].collected == PaidIn(b.payments, c) - PaidBack(b.payments, c) && b.campaigns[c].donations == |Donations(b.payments, c)|
  {
    RunIsSound(ts);
    assert Balanced(Run(ts), c);
    NetIsPaidLessRefunded(Run(ts).payments, c);
  }
}
