/** Adding up revenue, in integer minor units (packages/dkrypt/src/billingRevenue.ts:96-103, 157-168, 193-293). */
module Revenue {
  import opened Wrappers
  import opened Keyed

  datatype Amount = Amount(gross: int, refunded: int)

  /** Totals by currency. */
  type Amounts = map<string, Amount>

  /** normalizeCurrency: the proper code, or None for one that is not valid. */
  type Normal = string -> Option<string>

  function Of(m: Amounts, c: string): Amount {
    if c in m then m[c] else Amount(0, 0)
  }

  function Added(m: Amounts, normal: Normal, currency: string, gross: int, refunded: int): Amounts {
    var c := normal(currency);
    if c.None? then m
    else m[c.value := Amount(Of(m, c.value).gross + gross, Of(m, c.value).refunded + refunded)]
  }

  method AddAmount(m: Amounts, normal: Normal, currency: string, gross: int, refunded: int) returns (r: Amounts)
    ensures r == Added(m, normal, currency, gross, refunded)
  {
    r := m;
    var c := normal(currency);
    if c.None? { return; }
    var current := if c.value in m then m[c.value] else Amount(0, 0);
    current := current.(gross := current.gross + gross);
    current := current.(refunded := current.refunded + refunded);
    r := m[c.value := current];
  }

  // ---------------------------------------------------------------- card payments

  /** What a payment is linked to: a charge with its currency, if it reports one, and what was refunded of it. */
  datatype Link = Unmatched | Charged(chargeId: string, currency: Option<string>, refunded: nat)

  datatype Payment = Payment(paid: int, currency: string, link: Link)

  /** An invoice read for a subscription, with its itemised payments. */
  datatype Invoice = Invoice(readFor: string, subscription: Option<string>, amountPaid: int, currency: string, payments: seq<Payment>)

  datatype ChargeTotal = ChargeTotal(id: string, currency: string, gross: int, refunded: nat)

  datatype Tally = Tally(amounts: Amounts, charges: seq<ChargeTotal>, paymentCount: nat, complete: bool)

  function ChargeId(c: ChargeTotal): string { c.id }

  predicate Counted(p: Payment, normal: Normal) {
    normal(p.currency).Some? && p.paid > 0
  }

  /** The currency to compare a charge in: its own, or the payment's when it reports none. */
  function ChargeCurrency(p: Payment, normal: Normal): Option<string>
    requires p.link.Charged?
  {
    if p.link.currency.Some? then normal(p.link.currency.value) else normal(p.currency)
  }

  predicate Refundable(p: Payment, normal: Normal) {
    Counted(p, normal) && p.link.Charged? && ChargeCurrency(p, normal) == normal(p.currency)
  }

  function Max(a: int, b: int): int {
    if a > b then a else b
  }

  function Min(a: int, b: int): int {
    if a < b then a else b
  }

  function WithCharge(charges: seq<ChargeTotal>, p: Payment, currency: string): seq<ChargeTotal>
    requires p.link.Charged?
  {
    var i := FirstIndex(charges, ChargeId, p.link.chargeId);
    if i == |charges| then charges + [ChargeTotal(p.link.chargeId, currency, p.paid, p.link.refunded)]
    else charges[i := charges[i].(gross := charges[i].gross + p.paid, refunded := Max(charges[i].refunded, p.link.refunded))]
  }

  function AfterPayment(t: Tally, p: Payment, normal: Normal): Tally {
    if !Counted(p, normal) then t
    else
      var c := normal(p.currency).value;
      var paid := t.(amounts := Added(t.amounts, normal, c, p.paid, 0), paymentCount := t.paymentCount + 1);
      if !Refundable(p, normal) then paid.(complete := false)
      else paid.(charges := WithCharge(t.charges, p, c))
  }

  function AfterPayments(t: Tally, ps: seq<Payment>, normal: Normal): Tally {
    if ps == [] then t else AfterPayment(AfterPayments(t, ps[..|ps| - 1], normal), ps[|ps| - 1], normal)
  }

  /** The counted payments of a list in one currency. */
  function Itemised(ps: seq<Payment>, c: string, normal: Normal): nat {
    if ps == [] then 0
    else
      var p := ps[|ps| - 1];
      Itemised(ps[..|ps| - 1], c, normal) + if Counted(p, normal) && normal(p.currency) == Some(c) then p.paid else 0
  }

  predicate Skipped(i: Invoice) {
    i.subscription.Some? && i.subscription.value != i.readFor
  }

  function AfterInvoice(t: Tally, i: Invoice, normal: Normal): Tally {
    var c := normal(i.currency);
    if Skipped(i) then t
    else if i.payments == [] then
      if i.amountPaid > 0 && c.Some? then
        t.(amounts := Added(t.amounts, normal, c.value, i.amountPaid, 0), paymentCount := t.paymentCount + 1, complete := false)
      else t
    else
      var done := AfterPayments(t, i.payments, normal);
      if c.Some? && i.amountPaid > Itemised(i.payments, c.value, normal) then
        done.(amounts := Added(done.amounts, normal, c.value, i.amountPaid - Itemised(i.payments, c.value, normal), 0), complete := false)
      else done
  }

  function AfterInvoices(invoices: seq<Invoice>, normal: Normal): Tally {
    if invoices == [] then Tally(map[], [], 0, true)
    else AfterInvoice(AfterInvoices(invoices[..|invoices| - 1], normal), invoices[|invoices| - 1], normal)
  }

  function AfterRefunds(m: Amounts, charges: seq<ChargeTotal>, normal: Normal): Amounts {
    if charges == [] then m
    else
      var before, c := AfterRefunds(m, charges[..|charges| - 1], normal), charges[|charges| - 1];
      if c.refunded > 0 then Added(before, normal, c.currency, 0, Min(c.gross, c.refunded)) else before
  }

  /** stripeRevenue over the invoices read for the stored subscriptions. */
  method StripeRevenue(invoices: seq<Invoice>, normal: Normal) returns (amounts: Amounts, paymentCount: nat, complete: bool)
    ensures var t := AfterInvoices(invoices, normal);
            amounts == AfterRefunds(t.amounts, t.charges, normal) && paymentCount == t.paymentCount && complete == t.complete
  {
    var t := Tally(map[], [], 0, true);
    for n := 0 to |invoices|
      invariant t == AfterInvoices(invoices[..n], normal)
    {
      assert invoices[..n + 1][..n] == invoices[..n];
      t := CountInvoice(t, invoices[n], normal);
    }
    assert invoices[..|invoices|] == invoices;
    amounts := t.amounts;
    for n := 0 to |t.charges|
      invariant amounts == AfterRefunds(t.amounts, t.charges[..n], normal)
    {
      assert t.charges[..n + 1][..n] == t.charges[..n];
      var c := t.charges[n];
      if c.refunded > 0 {
        amounts := AddAmount(amounts, normal, c.currency, 0, Min(c.gross, c.refunded));
      }
    }
    assert t.charges[..|t.charges|] == t.charges;
    paymentCount, complete := t.paymentCount, t.complete;
  }

  method CountInvoice(before: Tally, i: Invoice, normal: Normal) returns (t: Tally)
    ensures t == AfterInvoice(before, i, normal)
  {
    t := before;
    if i.subscription.Some? && i.subscription.value != i.readFor { return; }
    var c := normal(i.currency);
    if i.payments == [] {
      if i.amountPaid > 0 && c.Some? {
        var amounts := AddAmount(t.amounts, normal, c.value, i.amountPaid, 0);
        t := Tally(amounts, t.charges, t.paymentCount + 1, false);
      }
      return;
    }
    var itemised: int;
    t, itemised := CountPayments(before, i.payments, c, normal);
    if c.Some? && i.amountPaid > itemised {
      var amounts := AddAmount(t.amounts, normal, c.value, i.amountPaid - itemised, 0);
      t := t.(amounts := amounts, complete := false);
    }
  }

  /** The itemised payments of an invoice whose currency is `own`. */
  method CountPayments(before: Tally, ps: seq<Payment>, own: Option<string>, normal: Normal) returns (t: Tally, itemised: int)
    ensures t == AfterPayments(before, ps, normal)
    ensures itemised == if own.Some? then Itemised(ps, own.value, normal) else 0
  {
    t, itemised := before, 0;
    for n := 0 to |ps|
      invariant t == AfterPayments(before, ps[..n], normal)
      invariant itemised == if own.Some? then Itemised(ps[..n], own.value, normal) else 0
    {
      assert ps[..n + 1][..n] == ps[..n];
      var p := ps[n];
      var currency := normal(p.currency);
      if currency.None? || p.paid <= 0 { continue; }
      if currency == own {
        itemised := itemised + p.paid;
      }
      t := CountPayment(t, p, normal);
    }
    assert ps[..|ps|] == ps;
  }

  method CountPayment(before: Tally, p: Payment, normal: Normal) returns (t: Tally)
    requires normal(p.currency).Some? && p.paid > 0
    ensures t == AfterPayment(before, p, normal)
  {
    var currency := normal(p.currency);
    var amounts := AddAmount(before.amounts, normal, currency.value, p.paid, 0);
    if p.link.Unmatched? || ChargeCurrency(p, normal) != currency {
      t := Tally(amounts, before.charges, before.paymentCount + 1, false);
    } else {
      var charges := AddCharge(before.charges, p, currency.value);
      t := Tally(amounts, charges, before.paymentCount + 1, before.complete);
    }
  }

  method AddCharge(charges: seq<ChargeTotal>, p: Payment, currency: string) returns (r: seq<ChargeTotal>)
    requires p.link.Charged?
    ensures r == WithCharge(charges, p, currency)
  {
    var i := Find(charges, ChargeId, p.link.chargeId);
    var previous := if i < |charges| then charges[i] else ChargeTotal(p.link.chargeId, currency, 0, 0);
    previous := previous.(gross := previous.gross + p.paid, refunded := Max(previous.refunded, p.link.refunded));
    r := if i < |charges| then charges[i := previous] else charges + [previous];
  }

  // ---------------------------------------------------------------- gross

  /** A proper code is its own. */
  ghost predicate Proper(normal: Normal) {
    forall s | normal(s).Some? :: normal(normal(s).value) == normal(s)
  }

  lemma AddedOf(m: Amounts, normal: Normal, currency: string, gross: int, refunded: int, c: string)
    ensures Of(Added(m, normal, currency, gross, refunded), c) ==
      if normal(currency) == Some(c) then Amount(Of(m, c).gross + gross, Of(m, c).refunded + refunded) else Of(m, c)
  {
  }

  lemma {:induction false} PaymentsGross(t: Tally, ps: seq<Payment>, normal: Normal, c: string)
    requires Proper(normal)
    ensures var after := AfterPayments(t, ps, normal);
            && Of(after.amounts, c).gross == Of(t.amounts, c).gross + Itemised(ps, c, normal)
            && Of(after.amounts, c).refunded == Of(t.amounts, c).refunded
  {
    if ps == [] {
    } else {
      var before, p := AfterPayments(t, ps[..|ps| - 1], normal), ps[|ps| - 1];
      PaymentsGross(t, ps[..|ps| - 1], normal, c);
      if Counted(p, normal) {
        AddedOf(before.amounts, normal, normal(p.currency).value, p.paid, 0, c);
      }
    }
  }

  /** What one invoice adds to a currency: in its own the larger of the amount paid and the itemised payments, in
      any other the itemised payments. */
  function Contribution(i: Invoice, c: string, normal: Normal): int {
    if Skipped(i) then 0
    else if normal(i.currency) == Some(c) then Max(i.amountPaid, Itemised(i.payments, c, normal))
    else Itemised(i.payments, c, normal)
  }

  function Contributions(invoices: seq<Invoice>, c: string, normal: Normal): int {
    if invoices == [] then 0
    else Contributions(invoices[..|invoices| - 1], c, normal) + Contribution(invoices[|invoices| - 1], c, normal)
  }

  lemma InvoiceGross(t: Tally, i: Invoice, normal: Normal, c: string)
    requires Proper(normal)
    ensures Of(AfterInvoice(t, i, normal).amounts, c).gross == Of(t.amounts, c).gross + Contribution(i, c, normal)
    ensures Of(AfterInvoice(t, i, normal).amounts, c).refunded == Of(t.amounts, c).refunded
  {
    PaymentsGross(t, i.payments, normal, c);
    if normal(i.currency).Some? {
      var own := normal(i.currency).value;
      AddedOf(t.amounts, normal, own, i.amountPaid, 0, c);
      AddedOf(AfterPayments(t, i.payments, normal).amounts, normal, own, i.amountPaid - Itemised(i.payments, own, normal), 0, c);
    }
  }

  /** The gross of every currency is the sum of what each counted invoice contributes to it. */
  lemma {:induction false} GrossIsContributions(invoices: seq<Invoice>, normal: Normal, c: string)
    requires Proper(normal)
    ensures Of(AfterInvoices(invoices, normal).amounts, c) == Amount(Contributions(invoices, c, normal), 0)
  {
    if invoices == [] {
    } else {
      GrossIsContributions(invoices[..|invoices| - 1], normal, c);
      InvoiceGross(AfterInvoices(invoices[..|invoices| - 1], normal), invoices[|invoices| - 1], normal, c);
    }
  }

  // ---------------------------------------------------------------- crypto payments, and both together

  datatype CryptoStatus = Pending | Succeeded | Failed | Refunded

  datatype CryptoCharge = CryptoCharge(nowPayments: bool, status: CryptoStatus, amount: int, currency: string)

  predicate CountedCrypto(c: CryptoCharge, normal: Normal) {
    c.nowPayments && (c.status.Succeeded? || c.status.Refunded?) && normal(c.currency).Some? && c.amount >= 0
  }

  function AfterCrypto(charges: seq<CryptoCharge>, normal: Normal): (Amounts, nat) {
    if charges == [] then (map[], 0)
    else
      var before, x := AfterCrypto(charges[..|charges| - 1], normal), charges[|charges| - 1];
      if CountedCrypto(x, normal)
      then (Added(before.0, normal, normal(x.currency).value, x.amount, if x.status.Refunded? then x.amount else 0), before.1 + 1)
      else before
  }

  method CryptoRevenue(charges: seq<CryptoCharge>, normal: Normal) returns (amounts: Amounts, paymentCount: nat)
    ensures (amounts, paymentCount) == AfterCrypto(charges, normal)
  {
    amounts, paymentCount := map[], 0;
    for n := 0 to |charges|
      invariant (amounts, paymentCount) == AfterCrypto(charges[..n], normal)
    {
      assert charges[..n + 1][..n] == charges[..n];
      var x := charges[n];
      if !x.nowPayments || (!x.status.Succeeded? && !x.status.Refunded?) { continue; }
      var currency := normal(x.currency);
      if currency.None? || x.amount < 0 { continue; }
      amounts := AddAmount(amounts, normal, currency.value, x.amount, if x.status.Refunded? then x.amount else 0);
      paymentCount := paymentCount + 1;
    }
    assert charges[..|charges|] == charges;
  }

  lemma {:induction false} CryptoWithinGross(charges: seq<CryptoCharge>, normal: Normal, c: string)
    requires Proper(normal)
    ensures var total := Of(AfterCrypto(charges, normal).0, c); 0 <= total.refunded <= total.gross
  {
    if charges == [] {
    } else {
      var before, x := charges[..|charges| - 1], charges[|charges| - 1];
      CryptoWithinGross(before, normal, c);
      if CountedCrypto(x, normal) {
        AddedOf(AfterCrypto(before, normal).0, normal, normal(x.currency).value, x.amount, if x.status.Refunded? then x.amount else 0, c);
      }
    }
  }
}
