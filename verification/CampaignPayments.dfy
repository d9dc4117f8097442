/**
 Donations to a campaign. The payment gateway reports what became of each payment, in any order and
 as often as it likes; every verified report is folded into the payment, the campaign's totals and
 the outbox in one transaction.
 */
module CampaignPayments {
  import opened Options
  import opened Texts

  datatype PaymentStatus = Creating | GatewayLost | Pending | PaidUp | Unpaid | Refunded | PartiallyRefunded

  datatype Payment = Payment(campaignId: Text, amount: nat, paid: nat, refunded: nat, status: PaymentStatus, paidAt: Option<nat>)

  datatype EventKind = PaymentEvent | RefundEvent | OtherEvent

  datatype AuditEntry = AuditEntry(action: EventKind, at: nat)

  datatype Campaign = Campaign(collected: int, donations: int, updatedAt: nat, history: seq<AuditEntry>)

  /** `payment` is absent for events that are not about a payment. */
  datatype Announcement = Announcement(
    kind: EventKind, campaignId: Text, payment: Option<nat>, paid: nat, refunded: nat, collected: int, donations: int)

  /** Payments and announcements are named by their position. */
  datatype Books = Books(campaigns: map<Text, Campaign>, payments: seq<Payment>, outbox: seq<Announcement>)

  datatype GatewayStatus = Settlement | Capture | Refund | PartialRefund | Closed | Open

  datatype Fraud = NotScored | Accepted | Suspected

  /** Amounts are absent when the text given is no whole amount. `Closed` stands for deny, cancel, expire and failure. */
  datatype Report = Report(orderId: nat, inRupiah: bool, gross: Option<nat>, fraud: Fraud, status: GatewayStatus, refundAmount: Option<nat>)

  datatype PaymentError = NoPayment | NoCampaign | Unverified | UnverifiedRefund

  // ----- One report on one payment

  predicate Refunds(r: Report) { r.status == Refund || r.status == PartialRefund }

  predicate Verified(id: nat, amount: nat, r: Report)
  {
    r.orderId == id && r.inRupiah && r.gross == Some(amount) && r.fraud != Suspected
  }

  /** The refund reported is cumulative, and a full refund must be of the full amount. */
  predicate RefundVerified(amount: nat, r: Report)
  {
    Refunds(r) ==> r.refundAmount.Some? && 0 < r.refundAmount.value <= amount && (r.status == Refund ==> r.refundAmount.value == amount)
  }

  predicate Pays(r: Report)
  {
    r.status == Settlement || (r.status == Capture && r.fraud == Accepted) || Refunds(r)
  }

  function PaidAfter(p: Payment, r: Report): nat { if Pays(r) then p.amount else p.paid }

  function RefundReported(r: Report): nat { if Refunds(r) && r.refundAmount.Some? then r.refundAmount.value else 0 }

  function RefundedAfter(p: Payment, r: Report): nat
  {
    if RefundReported(r) > p.refunded then RefundReported(r) else p.refunded
  }

  function StatusFor(paid: nat, refunded: nat, closed: bool): PaymentStatus
  {
    if refunded > 0 then (if refunded == paid then Refunded else PartiallyRefunded)
    else if paid > 0 then PaidUp
    else if closed then Unpaid
    else Pending
  }

  function Settled(p: Payment, r: Report, now: nat): Payment
  {
    var paid, refunded := PaidAfter(p, r), RefundedAfter(p, r);
    p.(paid := paid, refunded := refunded,
       paidAt := if paid > 0 && p.paidAt.None? then Some(now) else p.paidAt,
       status := StatusFor(paid, refunded, r.status == Closed || p.status == Unpaid))
  }

  // ----- The transaction

  function NetOf(p: Payment): int { p.paid - p.refunded }

  function Counts(net: int): int { if net > 0 then 1 else 0 }

  predicate Changes(p: Payment, q: Payment) { q.paid != p.paid || q.refunded != p.refunded }

  function KindOf(p: Payment, q: Payment): EventKind { if q.refunded > p.refunded then RefundEvent else PaymentEvent }

  function Credited(c: Campaign, p: Payment, q: Payment, now: nat): Campaign
  {
    c.(collected := c.collected + NetOf(q) - NetOf(p), donations := c.donations + Counts(NetOf(q)) - Counts(NetOf(p)),
       updatedAt := now, history := c.history + [AuditEntry(KindOf(p, q), now)])
  }

  function Reconciled(b: Books, id: nat, r: Report, now: nat): Result<Books, PaymentError>
  {
    if id >= |b.payments| then Err(NoPayment)
    else
      var p := b.payments[id];
      if !Verified(id, p.amount, r) then Err(Unverified)
      else if !RefundVerified(p.amount, r) then Err(UnverifiedRefund)
      else if p.campaignId !in b.campaigns then Err(NoCampaign)
      else
        var q := Settled(p, r, now);
        if !Changes(p, q) then Ok(b.(payments := b.payments[id := q]))
        else
          var c := Credited(b.campaigns[p.campaignId], p, q, now);
          Ok(Books(b.campaigns[p.campaignId := c], b.payments[id := q],
                   b.outbox + [Announcement(KindOf(p, q), p.campaignId, Some(id), q.paid, q.refunded, c.collected, c.donations)]))
  }

  class CampaignBooks {
    var campaigns: map<Text, Campaign>
    var payments: seq<Payment>
    var outbox: seq<Announcement>

    constructor ()
      ensures Snapshot() == Books(map[], [], [])
    {
      campaigns, payments, outbox := map[], [], [];
    }

    function Snapshot(): Books
      reads this
    {
      Books(campaigns, payments, outbox)
    }

    /** Folds one gateway report into the payment, the campaign and the outbox. */
    method ReconcilePayment(id: nat, data: Report, now: nat) returns (outcome: Result<Payment, PaymentError>)
      modifies this
      ensures match Reconciled(old(Snapshot()), id, data, now)
        case Ok(b) => Snapshot() == b && id < |payments| && outcome == Ok(payments[id])
        case Err(e) => outcome == Err(e) && Snapshot() == old(Snapshot())
    {
      if id >= |payments| { return Err(NoPayment); }
      var p := payments[id];
      if !Verified(id, p.amount, data) { return Err(Unverified); }
      var paid, refunded := p.paid, p.refunded;
      if data.status == Settlement || (data.status == Capture && data.fraud == Accepted) { paid := p.amount; }
      if data.status == Refund || data.status == PartialRefund {
        paid := p.amount;
        if !RefundVerified(p.amount, data) { return Err(UnverifiedRefund); }
        if data.refundAmount.value > refunded { refunded := data.refundAmount.value; }
      }
      if p.campaignId !in campaigns { return Err(NoCampaign); }
      var previousNet, net := p.paid - p.refunded, paid - refunded;
      var c := campaigns[p.campaignId];
      if paid != p.paid || refunded != p.refunded {
        var kind := if refunded > p.refunded then RefundEvent else PaymentEvent;
        var collected := c.collected + net - previousNet;
        var donations := c.donations + (if net > 0 then 1 else 0) - (if previousNet > 0 then 1 else 0);
        campaigns := campaigns[p.campaignId := Campaign(collected, donations, now, c.history + [AuditEntry(kind, now)])];
        outbox := outbox + [Announcement(kind, p.campaignId, Some(id), paid, refunded, collected, donations)];
      }
      var paidAt := p.paidAt;
      if paid > 0 && p.paidAt.None? { paidAt := Some(now); }
      var status := StatusFor(paid, refunded, data.status == Closed || p.status == Unpaid);
      payments := payments[id := p.(paid := paid, refunded := refunded, paidAt := paidAt, status := status)];
      return Ok(payments[id]);
    }
  }
}
