/**
 Gateway reports may arrive in any order and repeat: what a payment ends with depends only on which
 verified reports arrived. Throughout, the campaign's totals are the sums over its payments and the
 latest announcement of a paid payment carries its current figures.
 */
module CampaignPaymentLaws {
  import opened Options
  import opened Sequences
  import opened Texts
  import opened CampaignPayments

  // ----- Many reports on one payment

  function SettledAll(p: Payment, rs: seq<Report>, now: nat): Payment
  {
    if rs == [] then p else Settled(SettledAll(p, rs[..|rs| - 1], now), rs[|rs| - 1], now)
  }

  predicate AllVerified(id: nat, amount: nat, rs: seq<Report>)
  {
    forall i | 0 <= i < |rs| :: Verified(id, amount, rs[i]) && RefundVerified(amount, rs[i])
  }

  /** A payment is paid in full or not at all, refunded no more than paid, and its status says which. */
  predicate Consistent(p: Payment)
  {
    (p.paid == 0 || p.paid == p.amount) && p.refunded <= p.paid &&
    (p.refunded > 0 || p.paid > 0 ==> p.status == StatusFor(p.paid, p.refunded, false)) &&
    (p.paid == 0 ==> p.status in {Creating, GatewayLost, Pending, Unpaid})
  }

  lemma {:induction false} SettledIsConsistent(p: Payment, r: Report, now: nat)
    requires Consistent(p) && RefundVerified(p.amount, r)
    ensures Consistent(Settled(p, r, now)) && Settled(p, r, now).amount == p.amount
  {
  }

  /** The largest refund any of the reports names. */
  function LargestRefund(rs: seq<Report>): nat
  {
    if rs == [] then 0
    else
      var before, last := LargestRefund(rs[..|rs| - 1]), RefundReported(rs[|rs| - 1]);
      if last > before then last else before
  }

  predicate AnyPays(rs: seq<Report>) { exists r | r in rs :: Pays(r) }

  predicate AnyCloses(rs: seq<Report>) { exists r | r in rs :: r.status == Closed }

  lemma {:induction false} AnySnoc(rs: seq<Report>, r: Report)
    ensures AnyPays(rs + [r]) == (AnyPays(rs) || Pays(r))
    ensures AnyCloses(rs + [r]) == (AnyCloses(rs) || r.status == Closed)
  {
    assert r in rs + [r];
    if AnyPays(rs) {
      var s :| s in rs && Pays(s);
      assert s in rs + [r];
    }
    if AnyCloses(rs) {
      var s :| s in rs && s.status == Closed;
      assert s in rs + [r];
    }
  }

  /** What a payment ends with, said of the reports as a whole. */
  predicate EndsWith(p: Payment, rs: seq<Report>, end: Payment)
  {
    end.amount == p.amount && end.paid == (if AnyPays(rs) then p.amount else p.paid) &&
    end.refunded == Max(p.refunded, LargestRefund(rs)) &&
    end.status == if rs == [] then p.status else StatusFor(end.paid, end.refunded, AnyCloses(rs) || p.status == Unpaid)
  }

  lemma {:induction false} SettledAllEndsWith(p: Payment, rs: seq<Report>, id: nat, now: nat)
    requires Consistent(p) && AllVerified(id, p.amount, rs)
    ensures Consistent(SettledAll(p, rs, now)) && EndsWith(p, rs, SettledAll(p, rs, now))
  {
    if rs != [] {
      var front, r := rs[..|rs| - 1], rs[|rs| - 1];
      SettledAllEndsWith(p, front, id, now);
      assert rs == front + [r];
      AnySnoc(front, r);
      SettledIsConsistent(SettledAll(p, front, now), r, now);
      EndsWithOneMore(p, front, r, SettledAll(p, front, now), now);
    }
  }

  lemma {:induction false} EndsWithOneMore(p: Payment, front: seq<Report>, r: Report, before: Payment, now: nat)
    requires Consistent(p) && Consistent(before) && EndsWith(p, front, before) && RefundVerified(p.amount, r)
    ensures EndsWith(p, front + [r], Settled(before, r, now))
  {
    AnySnoc(front, r);
    assert (front + [r])[..|front|] == front;
    if front == [] { assert !AnyCloses(front) && !AnyPays(front); }
  }

  lemma {:induction false} LargestBounds(rs: seq<Report>, k: nat)
    requires k < |rs|
    ensures RefundReported(rs[k]) <= LargestRefund(rs)
  {
    if k < |rs| - 1 { LargestBounds(rs[..|rs| - 1], k); }
  }

  lemma {:induction false} LargestIsReported(rs: seq<Report>)
    ensures LargestRefund(rs) == 0 || exists r | r in rs :: RefundReported(r) == LargestRefund(rs)
  {
    if rs != [] {
      var front, last := rs[..|rs| - 1], rs[|rs| - 1];
      LargestIsReported(front);
      assert last in rs;
      if LargestRefund(rs) != 0 && LargestRefund(rs) == LargestRefund(front) {
        var r :| r in front && RefundReported(r) == LargestRefund(front);
        assert r in rs;
      }
    }
  }

  lemma {:induction false} LargestWithin(rs: seq<Report>, ss: seq<Report>)
    requires forall r | r in rs :: r in ss
    ensures LargestRefund(rs) <= LargestRefund(ss)
  {
    LargestIsReported(rs);
    if LargestRefund(rs) != 0 {
      var r :| r in rs && RefundReported(r) == LargestRefund(rs);
      var k: nat :| k < |ss| && ss[k] == r;
      LargestBounds(ss, k);
    }
  }

  predicate SameReports(rs: seq<Report>, ss: seq<Report>)
  {
    (forall r | r in rs :: r in ss) && (forall r | r in ss :: r in rs)
  }

  lemma {:induction false} SameReportsSayTheSame(rs: seq<Report>, ss: seq<Report>)
    requires SameReports(rs, ss)
    ensures AnyPays(rs) == AnyPays(ss) && AnyCloses(rs) == AnyCloses(ss) && LargestRefund(rs) == LargestRefund(ss)
    ensures rs == [] <==> ss == []
  {
    LargestWithin(rs, ss);
    LargestWithin(ss, rs);
    if rs != [] { assert rs[0] in ss; }
    if ss != [] { assert ss[0] in rs; }
  }

  /** In whatever order and however often verified reports arrive, the payment ends with the same paid and refunded amounts and the same status. */
  lemma {:induction false} OrderAndRepetitionDoNotMatter(p: Payment, rs: seq<Report>, ss: seq<Report>, id: nat, now: nat, later: nat)
    requires Consistent(p) && AllVerified(id, p.amount, rs) && AllVerified(id, p.amount, ss) && SameReports(rs, ss)
    ensures var (a, b) := (SettledAll(p, rs, now), SettledAll(p, ss, later));
      a.paid == b.paid && a.refunded == b.refunded && a.status == b.status
  {
    SettledAllEndsWith(p, rs, id, now);
    SettledAllEndsWith(p, ss, id, later);
    SameReportsSayTheSame(rs, ss);
  }

  // ----- Runs over all payments

  datatype Transaction =
    | StartCampaign(campaignId: Text, now: nat)
    | Donate(campaignId: Text, amount: nat)
    | CheckoutReady(id: nat)
    | CheckoutLost(id: nat)
    | Reconcile(id: nat, report: Report, now: nat)
    | Announce(campaignId: Text)

  function WithStatus(b: Books, id: nat, from: set<PaymentStatus>, to: PaymentStatus): Books
  {
    if id < |b.payments| && b.payments[id].status in from then b.(payments := b.payments[id := b.payments[id].(status := to)]) else b
  }

  function Next(b: Books, t: Transaction): Books
  {
    match t
    case StartCampaign(c, now) => if c in b.campaigns then b else b.(campaigns := b.campaigns[c := Campaign(0, 0, now, [])])
    case Donate(c, amount) =>
      if c in b.campaigns then b.(payments := b.payments + [Payment(c, amount, 0, 0, Creating, None)]) else b
    case CheckoutReady(id) => WithStatus(b, id, {Creating, GatewayLost}, Pending)
    case CheckoutLost(id) => WithStatus(b, id, {Creating}, GatewayLost)
    case Reconcile(id, r, now) => (match Reconciled(b, id, r, now)
                                   case Ok(after) => after
                                   case Err(_) => b)
    case Announce(c) =>
      if c in b.campaigns
      then b.(outbox := b.outbox + [Announcement(OtherEvent, c, None, 0, 0, b.campaigns[c].collected, b.campaigns[c].donations)])
      else b
  }

  function Run(ts: seq<Transaction>): Books
  {
    if ts == [] then Books(map[], [], []) else Next(Run(ts[..|ts| - 1]), ts[|ts| - 1])
  }

  /** The net amounts of a campaign's payments. */
  function NetTotal(payments: seq<Payment>, c: Text): int
  {
    if payments == [] then 0
    else
      var p := payments[|payments| - 1];
      NetTotal(payments[..|payments| - 1], c) + (if p.campaignId == c then NetOf(p) else 0)
  }

  function DonorCount(payments: seq<Payment>, c: Text): int
  {
    if payments == [] then 0
    else
      var p := payments[|payments| - 1];
      DonorCount(payments[..|payments| - 1], c) + (if p.campaignId == c then Counts(NetOf(p)) else 0)
  }

  /** The last announcement about a payment. */
  function Latest(outbox: seq<Announcement>, id: nat): Option<Announcement>
  {
    if outbox == [] then None
    else if outbox[|outbox| - 1].payment == Some(id) then Some(outbox[|outbox| - 1])
    else Latest(outbox[..|outbox| - 1], id)
  }

  predicate Announced(b: Books, id: nat)
    requires id < |b.payments|
  {
    var p := b.payments[id];
    p.paid > 0 ==> Latest(b.outbox, id).Some? && Latest(b.outbox, id).value.paid == p.paid && Latest(b.outbox, id).value.refunded == p.refunded
  }

  predicate Balanced(b: Books, c: Text)
    requires c in b.campaigns
  {
    b.campaigns[c].collected == NetTotal(b.payments, c) && b.campaigns[c].donations == DonorCount(b.payments, c)
  }

  predicate Sound(b: Books)
  {
    (forall i | 0 <= i < |b.payments| :: Consistent(b.payments[i]) && b.payments[i].campaignId in b.campaigns && Announced(b, i)) &&
    (forall c | c in b.campaigns :: Balanced(b, c))
  }

  lemma {:induction false} TotalsSnoc(payments: seq<Payment>, p: Payment, c: Text)
    ensures NetTotal(payments + [p], c) == NetTotal(payments, c) + (if p.campaignId == c then NetOf(p) else 0)
    ensures DonorCount(payments + [p], c) == DonorCount(payments, c) + (if p.campaignId == c then Counts(NetOf(p)) else 0)
  {
    assert (payments + [p])[..|payments|] == payments;
  }

  lemma {:induction false} TotalsUpdate(payments: seq<Payment>, i: nat, q: Payment, c: Text)
    requires i < |payments| && q.campaignId == payments[i].campaignId
    ensures NetTotal(payments[i := q], c) == NetTotal(payments, c) + (if q.campaignId == c then NetOf(q) - NetOf(payments[i]) else 0)
    ensures DonorCount(payments[i := q], c) ==
      DonorCount(payments, c) + (if q.campaignId == c then Counts(NetOf(q)) - Counts(NetOf(payments[i])) else 0)
  {
    var n := |payments| - 1;
    if i < n {
      TotalsUpdate(payments[..n], i, q, c);
      assert payments[i := q][..n] == payments[..n][i := q];
    } else {
      assert payments[i := q][..n] == payments[..n];
    }
  }

  lemma {:induction false} NothingWithout(payments: seq<Payment>, c: Text)
    requires forall i | 0 <= i < |payments| :: payments[i].campaignId != c
    ensures NetTotal(payments, c) == 0 && DonorCount(payments, c) == 0
  {
    if payments != [] { NothingWithout(payments[..|payments| - 1], c); }
  }

  lemma {:induction false} LatestSnoc(outbox: seq<Announcement>, a: Announcement, id: nat)
    ensures Latest(outbox + [a], id) == if a.payment == Some(id) then Some(a) else Latest(outbox, id)
  {
    assert (outbox + [a])[..|outbox|] == outbox;
  }

  lemma {:induction false} ReconciledBalances(b: Books, id: nat, r: Report, now: nat, c: Text)
    requires Sound(b) && Reconciled(b, id, r, now).Ok? && c in b.campaigns
    ensures c in Reconciled(b, id, r, now).value.campaigns && Balanced(Reconciled(b, id, r, now).value, c)
  {
    assert Balanced(b, c);
    TotalsUpdate(b.payments, id, Settled(b.payments[id], r, now), c);
  }

  lemma {:induction false} ReconciledAnnounces(b: Books, id: nat, r: Report, now: nat, i: nat)
    requires Sound(b) && Reconciled(b, id, r, now).Ok? && i < |b.payments|
    ensures var after := Reconciled(b, id, r, now).value;
      |after.payments| == |b.payments| && Consistent(after.payments[i]) && after.payments[i].campaignId == b.payments[i].campaignId &&
      Announced(after, i)
  {
    var after := Reconciled(b, id, r, now).value;
    assert Consistent(b.payments[i]) && Announced(b, i);
    if i == id { SettledIsConsistent(b.payments[id], r, now); }
    if Changes(b.payments[id], after.payments[id]) { LatestSnoc(b.outbox, after.outbox[|b.outbox|], i); }
  }

  lemma {:induction false} ReconciledIsSound(b: Books, id: nat, r: Report, now: nat)
    requires Sound(b) && Reconciled(b, id, r, now).Ok?
    ensures Sound(Reconciled(b, id, r, now).value)
  {
    var after := Reconciled(b, id, r, now).value;
    assert after.campaigns.Keys == b.campaigns.Keys;
    forall c | c in after.campaigns ensures Balanced(after, c) { ReconciledBalances(b, id, r, now, c); }
    assert |after.payments| == |b.payments|;
    forall i | 0 <= i < |after.payments|
      ensures Consistent(after.payments[i]) && after.payments[i].campaignId in after.campaigns && Announced(after, i)
    {
      ReconciledAnnounces(b, id, r, now, i);
    }
  }

  lemma {:induction false} DonatedIsSound(b: Books, c: Text, amount: nat)
    requires Sound(b) && c in b.campaigns
    ensures Sound(b.(payments := b.payments + [Payment(c, amount, 0, 0, Creating, None)]))
  {
    var p := Payment(c, amount, 0, 0, Creating, None);
    var after := b.(payments := b.payments + [p]);
    forall d | d in after.campaigns ensures Balanced(after, d) {
      assert Balanced(b, d);
      TotalsSnoc(b.payments, p, d);
    }
    forall i | 0 <= i < |after.payments|
      ensures Consistent(after.payments[i]) && after.payments[i].campaignId in after.campaigns && Announced(after, i)
    {
      if i < |b.payments| { assert Announced(b, i); }
    }
  }

  lemma {:induction false} StatusIsSound(b: Books, id: nat, from: set<PaymentStatus>, to: PaymentStatus)
    requires Sound(b) && from <= {Creating, GatewayLost} && to in {GatewayLost, Pending}
    ensures Sound(WithStatus(b, id, from, to))
  {
    var after := WithStatus(b, id, from, to);
    if id < |b.payments| && b.payments[id].status in from {
      var q := b.payments[id].(status := to);
      assert Consistent(b.payments[id]);
      forall d | d in after.campaigns ensures Balanced(after, d) {
        assert Balanced(b, d);
        TotalsUpdate(b.payments, id, q, d);
      }
      forall i | 0 <= i < |after.payments|
        ensures Consistent(after.payments[i]) && after.payments[i].campaignId in after.campaigns && Announced(after, i)
      {
        assert Announced(b, i);
      }
    }
  }

  lemma {:induction false} OpenedIsSound(b: Books, c: Text, now: nat)
    requires Sound(b) && c !in b.campaigns
    ensures Sound(b.(campaigns := b.campaigns[c := Campaign(0, 0, now, [])]))
  {
    var after := b.(campaigns := b.campaigns[c := Campaign(0, 0, now, [])]);
    NothingWithout(b.payments, c);
    forall d | d in after.campaigns ensures Balanced(after, d) {
      if d != c { assert Balanced(b, d); }
    }
    forall i | 0 <= i < |after.payments|
      ensures Consistent(after.payments[i]) && after.payments[i].campaignId in after.campaigns && Announced(after, i)
    {
      assert Announced(b, i);
    }
  }

  lemma {:induction false} AnnouncedIsSound(b: Books, a: Announcement)
    requires Sound(b) && a.payment.None?
    ensures Sound(b.(outbox := b.outbox + [a]))
  {
    var after := b.(outbox := b.outbox + [a]);
    forall d | d in after.campaigns ensures Balanced(after, d) { assert Balanced(b, d); }
    forall i | 0 <= i < |after.payments| ensures Announced(after, i) {
      assert Announced(b, i);
      LatestSnoc(b.outbox, a, i);
    }
  }

  /**
   After every run: each payment is paid in full or not at all and refunded no more than paid; every
   campaign's collected amount is the sum of its payments' nets and its donation count the number of
   positive nets; and the latest announcement of a paid payment carries its figures.
   */
  lemma {:induction false} RunIsSound(ts: seq<Transaction>)
    ensures Sound(Run(ts))
  {
    if ts != [] {
      var b, t := Run(ts[..|ts| - 1]), ts[|ts| - 1];
      RunIsSound(ts[..|ts| - 1]);
      match t
      case StartCampaign(c, now) => if c !in b.campaigns { OpenedIsSound(b, c, now); }
      case Donate(c, amount) => if c in b.campaigns { DonatedIsSound(b, c, amount); }
      case CheckoutReady(id) => StatusIsSound(b, id, {Creating, GatewayLost}, Pending);
      case CheckoutLost(id) => StatusIsSound(b, id, {Creating}, GatewayLost);
      case Reconcile(id, r, now) => if Reconciled(b, id, r, now).Ok? { ReconciledIsSound(b, id, r, now); }
      case Announce(c) =>
        if c in b.campaigns { AnnouncedIsSound(b, Announcement(OtherEvent, c, None, 0, 0, b.campaigns[c].collected, b.campaigns[c].donations)); }
    }
  }
}
