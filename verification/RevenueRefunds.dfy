/** When refunds stay within the gross (packages/dkrypt/src/billingRevenue.ts:231-288): a charge is refunded in the
    currency it was first met in, whatever its payments were made in. */
module RevenueRefunds {
  import opened Wrappers
  import opened Keyed
  import opened Revenue

  /** The payments of the invoices that are not skipped, in order. */
  function Met(invoices: seq<Invoice>): seq<Payment> {
    if invoices == [] then []
    else
      var i := invoices[|invoices| - 1];
      Met(invoices[..|invoices| - 1]) + if Skipped(i) then [] else i.payments
  }

  /** The currency in which a charge was first met, by a payment whose refunds are counted. */
  function FirstIn(ps: seq<Payment>, id: string, normal: Normal): Option<string> {
    if ps == [] then None
    else
      var before, p := FirstIn(ps[..|ps| - 1], id, normal), ps[|ps| - 1];
      if before.Some? then before
      else if Refundable(p, normal) && p.link.chargeId == id then normal(p.currency) else None
  }

  /** What was paid, in whatever currency, on charges first met in this one. */
  function PaidFirstIn(ps: seq<Payment>, c: string, normal: Normal): nat {
    if ps == [] then 0
    else
      var p := ps[|ps| - 1];
      PaidFirstIn(ps[..|ps| - 1], c, normal)
      + if Refundable(p, normal) && FirstIn(ps, p.link.chargeId, normal) == Some(c) then p.paid else 0
  }

  // ---------------------------------------------------------------- the charges met

  function ChargesAfter(charges: seq<ChargeTotal>, ps: seq<Payment>, normal: Normal): seq<ChargeTotal> {
    if ps == [] then charges
    else
      var before, p := ChargesAfter(charges, ps[..|ps| - 1], normal), ps[|ps| - 1];
      if Refundable(p, normal) then WithCharge(before, p, normal(p.currency).value) else before
  }

  lemma {:induction false} PaymentsCharges(t: Tally, ps: seq<Payment>, normal: Normal)
    ensures AfterPayments(t, ps, normal).charges == ChargesAfter(t.charges, ps, normal)
  {
    if ps == [] {
    } else {
      PaymentsCharges(t, ps[..|ps| - 1], normal);
    }
  }

  lemma {:induction false} ChargesConcat(charges: seq<ChargeTotal>, a: seq<Payment>, b: seq<Payment>, normal: Normal)
    ensures ChargesAfter(charges, a + b, normal) == ChargesAfter(ChargesAfter(charges, a, normal), b, normal)
    decreases |b|
  {
    if b == [] {
      assert a + b == a;
    } else {
      assert (a + b)[..|a + b| - 1] == a + b[..|b| - 1];
      ChargesConcat(charges, a, b[..|b| - 1], normal);
    }
  }

  /** The charges kept depend on the payments met alone. */
  lemma {:induction false} InvoicesCharges(invoices: seq<Invoice>, normal: Normal)
    ensures AfterInvoices(invoices, normal).charges == ChargesAfter([], Met(invoices), normal)
  {
    if invoices == [] {
    } else {
      var before, i := invoices[..|invoices| - 1], invoices[|invoices| - 1];
      InvoicesCharges(before, normal);
      PaymentsCharges(AfterInvoices(before, normal), i.payments, normal);
      ChargesConcat([], Met(before), i.payments, normal);
      assert Met(before) + [] == Met(before);
      hide Met, ChargesAfter, AfterPayments;
    }
  }

  function ChargesIn(charges: seq<ChargeTotal>, c: string): int {
    if charges == [] then 0
    else ChargesIn(charges[..|charges| - 1], c) + if charges[|charges| - 1].currency == c then charges[|charges| - 1].gross else 0
  }

  lemma {:induction false} ChargesReplaced(charges: seq<ChargeTotal>, i: nat, x: ChargeTotal, c: string)
    requires i < |charges| && x.currency == charges[i].currency
    ensures ChargesIn(charges[i := x], c) == ChargesIn(charges, c) + if x.currency == c then x.gross - charges[i].gross else 0
    decreases |charges|
  {
    var n := |charges| - 1;
    if i == n {
      assert charges[i := x][..n] == charges[..n];
    } else {
      assert charges[i := x][..n] == charges[..n][i := x];
      ChargesReplaced(charges[..n], i, x, c);
    }
  }

  lemma ChargesAdded(charges: seq<ChargeTotal>, x: ChargeTotal, c: string)
    ensures ChargesIn(charges + [x], c) == ChargesIn(charges, c) + if x.currency == c then x.gross else 0
  {
  }

  /** Charges are kept apart, each with a positive gross in a proper currency. */
  ghost predicate Apart(charges: seq<ChargeTotal>, normal: Normal) {
    && Unique(charges, ChargeId)
    && forall x | x in charges :: x.gross > 0 && normal(x.currency) == Some(x.currency)
  }

  function KeptIn(charges: seq<ChargeTotal>, id: string): Option<string> {
    if Has(charges, ChargeId, id) then Some(Get(charges, ChargeId, id).currency) else None
  }

  /** Each charge kept is one met, in the currency it was first met in. */
  ghost predicate KeptAsMet(charges: seq<ChargeTotal>, ps: seq<Payment>, normal: Normal) {
    forall id :: KeptIn(charges, id) == FirstIn(ps, id, normal)
  }

  lemma NewCharge(charges: seq<ChargeTotal>, p: Payment, currency: string, normal: Normal, c: string)
    requires Apart(charges, normal) && p.link.Charged? && p.paid > 0 && normal(currency) == Some(currency)
    requires KeptIn(charges, p.link.chargeId).None?
    ensures var after := WithCharge(charges, p, currency);
            && Apart(after, normal)
            && (forall id :: KeptIn(after, id) == if id == p.link.chargeId then Some(currency) else KeptIn(charges, id))
            && ChargesIn(after, c) == ChargesIn(charges, c) + if currency == c then p.paid else 0
  {
    var x := ChargeTotal(p.link.chargeId, currency, p.paid, p.link.refunded);
    assert WithCharge(charges, p, currency) == charges + [x];
    AppendKeeps(charges, ChargeId, x);
    ChargesAdded(charges, x, c);
    hide FirstIndex, ChargesIn;
  }

  lemma KnownCharge(charges: seq<ChargeTotal>, p: Payment, currency: string, normal: Normal, c: string)
    requires Apart(charges, normal) && p.link.Charged? && p.paid > 0
    requires KeptIn(charges, p.link.chargeId).Some?
    ensures var after, known := WithCharge(charges, p, currency), KeptIn(charges, p.link.chargeId);
            && Apart(after, normal)
            && (forall id :: KeptIn(after, id) == KeptIn(charges, id))
            && ChargesIn(after, c) == ChargesIn(charges, c) + if known == Some(c) then p.paid else 0
  {
    var i := FirstIndex(charges, ChargeId, p.link.chargeId);
    var after := WithCharge(charges, p, currency);
    assert charges[i] in charges;
    ReplaceKeeps(charges, ChargeId, i, after[i]);
    ChargesReplaced(charges, i, after[i], c);
    hide FirstIndex, ChargesIn;
    forall x | x in after
      ensures x.gross > 0 && normal(x.currency) == Some(x.currency)
    {
      assert x in charges || x == after[i];
    }
  }

  /** The charges stand for the payments, and what is in a currency is what was paid on charges first met in it. */
  ghost predicate StandFor(charges: seq<ChargeTotal>, ps: seq<Payment>, normal: Normal, c: string) {
    Apart(charges, normal) && KeptAsMet(charges, ps, normal) && ChargesIn(charges, c) == PaidFirstIn(ps, c, normal)
  }

  lemma NewChargeMet(charges: seq<ChargeTotal>, before: seq<Payment>, p: Payment, normal: Normal, c: string)
    requires Proper(normal) && StandFor(charges, before, normal, c) && Refundable(p, normal)
    requires KeptIn(charges, p.link.chargeId).None?
    ensures StandFor(WithCharge(charges, p, normal(p.currency).value), before + [p], normal, c)
  {
    hide KeptIn, WithCharge, Apart, ChargesIn;
    var ps, after := before + [p], WithCharge(charges, p, normal(p.currency).value);
    assert ps[..|ps| - 1] == before;
    NewCharge(charges, p, normal(p.currency).value, normal, c);
    assert KeptAsMet(after, ps, normal);
  }

  lemma KnownChargeMet(charges: seq<ChargeTotal>, before: seq<Payment>, p: Payment, normal: Normal, c: string)
    requires StandFor(charges, before, normal, c) && Refundable(p, normal)
    requires KeptIn(charges, p.link.chargeId).Some?
    ensures StandFor(WithCharge(charges, p, normal(p.currency).value), before + [p], normal, c)
  {
    hide KeptIn, WithCharge, Apart, ChargesIn;
    var ps, after := before + [p], WithCharge(charges, p, normal(p.currency).value);
    assert ps[..|ps| - 1] == before;
    KnownCharge(charges, p, normal(p.currency).value, normal, c);
    assert KeptAsMet(after, ps, normal);
  }

  lemma NoChargeMet(charges: seq<ChargeTotal>, before: seq<Payment>, p: Payment, normal: Normal, c: string)
    requires StandFor(charges, before, normal, c) && !Refundable(p, normal)
    ensures StandFor(charges, before + [p], normal, c)
  {
    hide KeptIn, Apart, ChargesIn;
    var ps := before + [p];
    assert ps[..|ps| - 1] == before;
    assert KeptAsMet(charges, ps, normal);
  }

  lemma {:induction false} ChargesMet(ps: seq<Payment>, normal: Normal, c: string)
    requires Proper(normal)
    ensures StandFor(ChargesAfter([], ps, normal), ps, normal, c)
  {
    if ps == [] {
    } else {
      var before, p := ps[..|ps| - 1], ps[|ps| - 1];
      assert ps == before + [p];
      ChargesMet(before, normal, c);
      var charges := ChargesAfter([], before, normal);
      hide StandFor, Refundable, KeptIn, WithCharge, Proper;
      if !Refundable(p, normal) {
        NoChargeMet(charges, before, p, normal, c);
      } else if KeptIn(charges, p.link.chargeId).Some? {
        KnownChargeMet(charges, before, p, normal, c);
      } else {
        NewChargeMet(charges, before, p, normal, c);
      }
    }
  }

  // ---------------------------------------------------------------- refunds

  lemma {:induction false} RefundsBounded(m: Amounts, charges: seq<ChargeTotal>, normal: Normal, c: string)
    requires forall x | x in charges :: x.gross > 0 && normal(x.currency) == Some(x.currency)
    ensures var after := AfterRefunds(m, charges, normal);
            && Of(after, c).gross == Of(m, c).gross
            && Of(m, c).refunded <= Of(after, c).refunded <= Of(m, c).refunded + ChargesIn(charges, c)
  {
    if charges == [] {
    } else {
      var before, x := charges[..|charges| - 1], charges[|charges| - 1];
      assert charges == before + [x];
      assert x in charges;
      RefundsBounded(m, before, normal, c);
      AddedOf(AfterRefunds(m, before, normal), normal, x.currency, 0, Min(x.gross, x.refunded), c);
    }
  }

  lemma {:induction false} RefundsInFull(m: Amounts, charges: seq<ChargeTotal>, normal: Normal, c: string)
    requires forall x | x in charges :: 0 < x.gross <= x.refunded && normal(x.currency) == Some(x.currency)
    ensures Of(AfterRefunds(m, charges, normal), c).refunded == Of(m, c).refunded + ChargesIn(charges, c)
  {
    if charges == [] {
    } else {
      var before, x := charges[..|charges| - 1], charges[|charges| - 1];
      assert charges == before + [x];
      assert x in charges;
      RefundsInFull(m, before, normal, c);
      AddedOf(AfterRefunds(m, before, normal), normal, x.currency, 0, x.gross, c);
    }
  }

  /** What the summary of these invoices shows in one currency. */
  function Total(invoices: seq<Invoice>, normal: Normal, c: string): Amount {
    var t := AfterInvoices(invoices, normal);
    Of(AfterRefunds(t.amounts, t.charges, normal), c)
  }

  predicate WithinGross(invoices: seq<Invoice>, normal: Normal, c: string) {
    var total := Total(invoices, normal, c);
    0 <= total.refunded <= total.gross
  }

  /** Whatever currencies charges are met in, the gross is what the invoices contribute and the refunds are no more
      than what was paid on charges first met in the currency. */
  lemma TotalBounded(invoices: seq<Invoice>, normal: Normal, c: string)
    requires Proper(normal)
    ensures var total := Total(invoices, normal, c);
            total.gross == Contributions(invoices, c, normal) && 0 <= total.refunded <= PaidFirstIn(Met(invoices), c, normal)
  {
    var t := AfterInvoices(invoices, normal);
    InvoicesCharges(invoices, normal);
    ChargesMet(Met(invoices), normal, c);
    GrossIsContributions(invoices, normal, c);
    RefundsBounded(t.amounts, t.charges, normal, c);
    hide AfterRefunds, AfterInvoices, Unique, KeptAsMet;
  }

  // ---------------------------------------------------------------- other refunds of the same payments

  function Refunding(p: Payment, refunds: string -> nat): Payment {
    if p.link.Charged? then p.(link := p.link.(refunded := refunds(p.link.chargeId))) else p
  }

  function RefundingEach(ps: seq<Payment>, refunds: string -> nat): (r: seq<Payment>)
    ensures |r| == |ps| && forall i | 0 <= i < |r| :: r[i] == Refunding(ps[i], refunds)
  {
    seq(|ps|, i requires 0 <= i < |ps| => Refunding(ps[i], refunds))
  }

  /** The same invoices, with these amounts refunded of the charges. */
  function RefundingAll(invoices: seq<Invoice>, refunds: string -> nat): (r: seq<Invoice>)
    ensures |r| == |invoices|
    ensures forall i | 0 <= i < |r| :: r[i] == invoices[i].(payments := RefundingEach(invoices[i].payments, refunds))
  {
    seq(|invoices|, i requires 0 <= i < |invoices| => invoices[i].(payments := RefundingEach(invoices[i].payments, refunds)))
  }

  lemma {:induction false} MetRefunding(invoices: seq<Invoice>, refunds: string -> nat)
    ensures Met(RefundingAll(invoices, refunds)) == RefundingEach(Met(invoices), refunds)
  {
    if invoices == [] {
    } else {
      var n := |invoices| - 1;
      assert RefundingAll(invoices, refunds)[..n] == RefundingAll(invoices[..n], refunds);
      MetRefunding(invoices[..n], refunds);
    }
  }

  lemma {:induction false} FirstInRefunding(ps: seq<Payment>, refunds: string -> nat, id: string, normal: Normal)
    ensures FirstIn(RefundingEach(ps, refunds), id, normal) == FirstIn(ps, id, normal)
  {
    if ps == [] {
    } else {
      var n := |ps| - 1;
      assert RefundingEach(ps, refunds)[..n] == RefundingEach(ps[..n], refunds);
      FirstInRefunding(ps[..n], refunds, id, normal);
    }
  }

  lemma {:induction false} PaidRefunding(ps: seq<Payment>, refunds: string -> nat, c: string, normal: Normal)
    ensures PaidFirstIn(RefundingEach(ps, refunds), c, normal) == PaidFirstIn(ps, c, normal)
  {
    if ps == [] {
    } else {
      var n := |ps| - 1;
      assert RefundingEach(ps, refunds)[..n] == RefundingEach(ps[..n], refunds);
      PaidRefunding(ps[..n], refunds, c, normal);
      if Refundable(ps[n], normal) {
        FirstInRefunding(ps, refunds, ps[n].link.chargeId, normal);
      }
    }
  }

  lemma {:induction false} ItemisedRefunding(ps: seq<Payment>, refunds: string -> nat, c: string, normal: Normal)
    ensures Itemised(RefundingEach(ps, refunds), c, normal) == Itemised(ps, c, normal)
  {
    if ps == [] {
    } else {
      var n := |ps| - 1;
      assert RefundingEach(ps, refunds)[..n] == RefundingEach(ps[..n], refunds);
      ItemisedRefunding(ps[..n], refunds, c, normal);
    }
  }

  lemma {:induction false} ContributionsRefunding(invoices: seq<Invoice>, refunds: string -> nat, c: string, normal: Normal)
    ensures Contributions(RefundingAll(invoices, refunds), c, normal) == Contributions(invoices, c, normal)
  {
    if invoices == [] {
    } else {
      var n := |invoices| - 1;
      assert RefundingAll(invoices, refunds)[..n] == RefundingAll(invoices[..n], refunds);
      ContributionsRefunding(invoices[..n], refunds, c, normal);
      ItemisedRefunding(invoices[n].payments, refunds, c, normal);
    }
  }

  // ---------------------------------------------------------------- the exact condition

  /** Everything paid that counts towards a charge. */
  function PaidOnCharges(ps: seq<Payment>, normal: Normal): nat {
    if ps == [] then 0
    else
      var p := ps[|ps| - 1];
      PaidOnCharges(ps[..|ps| - 1], normal) + if Refundable(p, normal) then p.paid else 0
  }

  /** When every payment reports the same refund, so does every charge, whose gross is at most all that was paid. */
  lemma {:induction false} ChargesOfOneRefund(ps: seq<Payment>, refunded: nat, normal: Normal)
    requires forall p | p in ps && p.link.Charged? :: p.link.refunded == refunded
    ensures forall x | x in ChargesAfter([], ps, normal) :: x.refunded == refunded && x.gross <= PaidOnCharges(ps, normal)
  {
    if ps == [] {
    } else {
      var before, p := ps[..|ps| - 1], ps[|ps| - 1];
      assert ps == before + [p];
      ChargesOfOneRefund(before, refunded, normal);
      var charges := ChargesAfter([], before, normal);
      if Refundable(p, normal) {
        var i := FirstIndex(charges, ChargeId, p.link.chargeId);
        var after := WithCharge(charges, p, normal(p.currency).value);
        if i < |charges| {
          assert charges[i] in charges;
        }
        forall x | x in after
          ensures x.refunded == refunded && x.gross <= PaidOnCharges(ps, normal)
        {
          assert x in charges || x == after[i];
        }
      }
    }
  }

  lemma {:induction false} PaidOnRefunding(ps: seq<Payment>, refunds: string -> nat, normal: Normal)
    ensures PaidOnCharges(RefundingEach(ps, refunds), normal) == PaidOnCharges(ps, normal)
  {
    if ps == [] {
    } else {
      var n := |ps| - 1;
      assert RefundingEach(ps, refunds)[..n] == RefundingEach(ps[..n], refunds);
      PaidOnRefunding(ps[..n], refunds, normal);
    }
  }

  /** With every charge refunded in full, what is refunded is all that was paid on charges first met in the currency. */
  lemma RefundedInFull(invoices: seq<Invoice>, normal: Normal, c: string) returns (refunds: string -> nat)
    requires Proper(normal)
    ensures Total(RefundingAll(invoices, refunds), normal, c)
         == Amount(Contributions(invoices, c, normal), PaidFirstIn(Met(invoices), c, normal))
  {
    var all := PaidOnCharges(Met(invoices), normal);
    refunds := (_: string) => all;
    var refunding := RefundingAll(invoices, refunds);
    var met := Met(refunding);
    var t := AfterInvoices(refunding, normal);
    MetRefunding(invoices, refunds);
    PaidOnRefunding(Met(invoices), refunds, normal);
    PaidRefunding(Met(invoices), refunds, c, normal);
    ContributionsRefunding(invoices, refunds, c, normal);
    InvoicesCharges(refunding, normal);
    ChargesMet(met, normal, c);
    ChargesOfOneRefund(met, all, normal);
    GrossIsContributions(refunding, normal, c);
    RefundsBounded(t.amounts, t.charges, normal, c);
    RefundsInFull(t.amounts, t.charges, normal, c);
    hide AfterRefunds, AfterInvoices, Unique, KeptAsMet, Met, ChargesAfter, ChargesIn, PaidOnCharges, PaidFirstIn, Contributions;
  }

  /** Whatever is refunded of the charges, refunds stay within the gross of a currency if and only if what was paid on
      the charges first met in it, in whatever currency, is no more than what the invoices contribute to it. */
  lemma WithinGrossExactly(invoices: seq<Invoice>, normal: Normal, c: string)
    requires Proper(normal)
    ensures (forall refunds: string -> nat :: WithinGross(RefundingAll(invoices, refunds), normal, c))
            <==> PaidFirstIn(Met(invoices), c, normal) <= Contributions(invoices, c, normal)
  {
    hide Total, Met, PaidFirstIn, Contributions;
    forall refunds: string -> nat
      ensures PaidFirstIn(Met(invoices), c, normal) <= Contributions(invoices, c, normal) ==>
                WithinGross(RefundingAll(invoices, refunds), normal, c)
    {
      TotalBounded(RefundingAll(invoices, refunds), normal, c);
      MetRefunding(invoices, refunds);
      PaidRefunding(Met(invoices), refunds, c, normal);
      ContributionsRefunding(invoices, refunds, c, normal);
    }
    var full := RefundedInFull(invoices, normal, c);
    assert WithinGross(RefundingAll(invoices, full), normal, c) ==>
             PaidFirstIn(Met(invoices), c, normal) <= Contributions(invoices, c, normal);
  }

  // ---------------------------------------------------------------- one currency per charge

  /** Each charge has one currency, `fixed`, whichever payment it is met through. */
  ghost predicate OneCurrency(invoices: seq<Invoice>, normal: Normal, fixed: string -> string) {
    forall i, p | i in invoices && p in i.payments && Refundable(p, normal) :: normal(p.currency) == Some(fixed(p.link.chargeId))
  }

  ghost predicate AllFixed(ps: seq<Payment>, normal: Normal, fixed: string -> string) {
    forall p | p in ps && Refundable(p, normal) :: normal(p.currency) == Some(fixed(p.link.chargeId))
  }

  lemma {:induction false} MetFixed(invoices: seq<Invoice>, normal: Normal, fixed: string -> string)
    requires OneCurrency(invoices, normal, fixed)
    ensures AllFixed(Met(invoices), normal, fixed)
  {
    if invoices == [] {
    } else {
      var before, i := invoices[..|invoices| - 1], invoices[|invoices| - 1];
      assert invoices == before + [i];
      MetFixed(before, normal, fixed);
      assert i in invoices;
    }
  }

  lemma {:induction false} FirstInFixed(ps: seq<Payment>, normal: Normal, fixed: string -> string, id: string)
    requires AllFixed(ps, normal, fixed)
    ensures FirstIn(ps, id, normal).Some? ==> FirstIn(ps, id, normal) == Some(fixed(id))
  {
    if ps == [] {
    } else {
      assert ps == ps[..|ps| - 1] + [ps[|ps| - 1]];
      FirstInFixed(ps[..|ps| - 1], normal, fixed, id);
    }
  }

  lemma {:induction false} PaidIsItemised(ps: seq<Payment>, normal: Normal, fixed: string -> string, c: string)
    requires AllFixed(ps, normal, fixed)
    ensures PaidFirstIn(ps, c, normal) <= Itemised(ps, c, normal)
  {
    if ps == [] {
    } else {
      var p := ps[|ps| - 1];
      assert ps == ps[..|ps| - 1] + [p];
      PaidIsItemised(ps[..|ps| - 1], normal, fixed, c);
      if Refundable(p, normal) {
        FirstInFixed(ps, normal, fixed, p.link.chargeId);
      }
    }
  }

  lemma {:induction false} ItemisedConcat(a: seq<Payment>, b: seq<Payment>, c: string, normal: Normal)
    ensures Itemised(a + b, c, normal) == Itemised(a, c, normal) + Itemised(b, c, normal)
    decreases |b|
  {
    if b == [] {
      assert a + b == a;
    } else {
      assert (a + b)[..|a + b| - 1] == a + b[..|b| - 1];
      ItemisedConcat(a, b[..|b| - 1], c, normal);
    }
  }

  lemma {:induction false} ItemisedContributed(invoices: seq<Invoice>, c: string, normal: Normal)
    ensures Itemised(Met(invoices), c, normal) <= Contributions(invoices, c, normal)
  {
    if invoices == [] {
    } else {
      var before, i := invoices[..|invoices| - 1], invoices[|invoices| - 1];
      ItemisedContributed(before, c, normal);
      ItemisedConcat(Met(before), i.payments, c, normal);
      assert Met(before) + [] == Met(before);
    }
  }

  /** With one currency per charge, in every currency what was refunded is between nothing and the gross, so the
      net is never clamped; and the gross is what the invoices contribute. */
  lemma RefundedWithinGross(invoices: seq<Invoice>, normal: Normal, fixed: string -> string, c: string)
    requires Proper(normal) && OneCurrency(invoices, normal, fixed)
    ensures var total := Total(invoices, normal, c);
            0 <= total.refunded <= total.gross == Contributions(invoices, c, normal)
  {
    hide Total, Met, PaidFirstIn, Contributions, Itemised;
    TotalBounded(invoices, normal, c);
    MetFixed(invoices, normal, fixed);
    PaidIsItemised(Met(invoices), normal, fixed, c);
    ItemisedContributed(invoices, c, normal);
  }

  /** The smallest case outside it: one charge that reports no currency, met through payments in two currencies. */
  lemma TwoCurrencyChargeExceeds(normal: Normal, a: string, b: string, charge: string)
    requires a != b && normal(a) == Some(a) && normal(b) == Some(b)
    ensures var link := Charged(charge, None, 5);
            var t := AfterPayments(Tally(map[], [], 0, true), [Payment(1, a, link), Payment(5, b, link)], normal);
            var total := Of(AfterRefunds(t.amounts, t.charges, normal), a);
            total.refunded == 5 && total.gross == 1
  {
    hide AfterPayment, Of;
    var link := Charged(charge, None, 5);
    var first, second := Payment(1, a, link), Payment(5, b, link);
    var start := Tally(map[], [], 0, true);
    assert [first, second][..1] == [first] && [first][..0] == [];
    assert AfterPayments(start, [], normal) == start;
    assert AfterPayments(start, [first], normal) == AfterPayment(start, first, normal);
    FirstOfTwo(normal, a, link);
    SecondOfTwo(normal, a, b, link);
    SoleRefund(AfterPayments(start, [first, second], normal).amounts, normal, ChargeTotal(charge, a, 6, 5));
  }

  lemma FirstOfTwo(normal: Normal, a: string, link: Link)
    requires normal(a) == Some(a) && link.Charged? && link.currency.None?
    ensures AfterPayment(Tally(map[], [], 0, true), Payment(1, a, link), normal)
         == Tally(map[a := Amount(1, 0)], [ChargeTotal(link.chargeId, a, 1, link.refunded)], 1, true)
  {
  }

  lemma SecondOfTwo(normal: Normal, a: string, b: string, link: Link)
    requires a != b && normal(b) == Some(b) && link.Charged? && link.currency.None?
    ensures var after := AfterPayment(Tally(map[a := Amount(1, 0)], [ChargeTotal(link.chargeId, a, 1, link.refunded)], 1, true),
                                      Payment(5, b, link), normal);
            after.charges == [ChargeTotal(link.chargeId, a, 6, link.refunded)] && Of(after.amounts, a) == Amount(1, 0)
  {
    FirstIndexIs([ChargeTotal(link.chargeId, a, 1, link.refunded)], ChargeId, link.chargeId, 0);
  }

  lemma SoleRefund(m: Amounts, normal: Normal, x: ChargeTotal)
    requires normal(x.currency) == Some(x.currency) && x.refunded <= x.gross
    ensures Of(AfterRefunds(m, [x], normal), x.currency)
         == Amount(Of(m, x.currency).gross, Of(m, x.currency).refunded + x.refunded)
  {
    assert [x][..0] == [];
    assert AfterRefunds(m, [], normal) == m;
  }
}
