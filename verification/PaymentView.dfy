/** One checkout and the one subscription its payment pays for, seen through a small state that the event
    handler of CryptoPayments drives in lock step. */
module PaymentView {
  import opened Wrappers
  import opened Keyed
  import opened Billing
  import opened BillingInvariants
  import opened CryptoPayments

  /** Which checkout, and the payment id its events carry. */
  datatype Subject = Subject(checkoutId: string, paymentId: Option<string>) {
    function SubscriptionId(): string {
      Prefixed(if paymentId.Some? then paymentId.value else checkoutId)
    }
  }

  /** No subscription; one active at any time, until its next payment is due; one active at no time; one whose
      grace period decides. */
  datatype SubView = NoSub | Live(at: int, renewal: Option<int>) | Dead(at: int) | Graced(at: int)

  datatype View = View(completed: bool, at: Option<int>, status: Option<PaymentStatus>, sub: SubView)

  predicate Pays(e: Event) { e.payment.status == Some(FinishedPayment) && e.payment.asset == Some(Supported) }

  predicate Refunds(e: Event) { e.payment.status == Some(RefundedPayment) }

  function Time(e: Event): int {
    if Timestamp(e.payment).Some? then Timestamp(e.payment).value else 0
  }

  /** The subscription of a payment made at this time. */
  function PaidAt(t: int): SubView {
    Live(t, Some(t + THIRTY_DAYS))
  }

  /** What handling an event for the first time does, seen through the view. */
  function Step(v: View, e: Event, superseded: bool): View {
    var t := Time(e);
    if superseded || (v.at.Some? && t < v.at.value) then v
    else if Pays(e) && !v.completed then View(true, Some(t), e.payment.status, PaidAt(t))
    else if Refunds(e) && v.completed then
      View(true, Some(t), e.payment.status, if v.sub.NoSub? || v.sub.at > t then v.sub else Dead(t))
    else if v.completed then v
    else View(false, Some(t), e.payment.status, v.sub)
  }

  function SubViewOf(s: Option<Subscription>): SubView {
    if s.None? then NoSub
    else if s.value.status.Active? && s.value.flagged != Some(true) && s.value.paused != Some(true) then Live(s.value.occurredAt, s.value.nextBilledAt)
    else if s.value.status.PastDue? then Graced(s.value.occurredAt)
    else Dead(s.value.occurredAt)
  }

  function CheckoutOf(st: Stores, c: Subject): Checkout
    requires Has(st.checkouts, CheckoutKey, c.checkoutId)
  {
    Get(st.checkouts, CheckoutKey, c.checkoutId)
  }

  function ViewOf(st: Stores, c: Subject): View
    requires Has(st.checkouts, CheckoutKey, c.checkoutId)
  {
    var co := CheckoutOf(st, c);
    View(co.status.CheckoutCompleted?, co.providerOccurredAt, co.providerStatus,
         SubViewOf(ById(st.subscriptions, c.SubscriptionId())))
  }

  /** The events of one story: about this checkout and payment, with ids and readable times, no two alike in either. */
  ghost predicate Story(c: Subject, events: set<Event>) {
    && (forall e | e in events :: e.id.Some? && Timestamp(e.payment).Some? && e.payment.paymentId == c.paymentId)
    && (forall e, f | e in events && f in events && Time(e) == Time(f) :: e == f)
    && (forall e, f | e in events && f in events && e.id == f.id :: e == f)
  }

  /** The checkout is there and every event of the story finds it; no other provider uses the subscription's id. */
  ghost predicate Placed(st: Stores, c: Subject, events: set<Event>) {
    && Sound(st)
    && Has(st.checkouts, CheckoutKey, c.checkoutId)
    && CheckoutOf(st, c).provider.NowPayments?
    && (forall e | e in events :: FindCheckout(st.checkouts, e.payment) == Some(CheckoutOf(st, c)))
    && (forall s | s in st.subscriptions && s.subscriptionId == c.SubscriptionId() :: s.provider.NowPayments?)
  }

  /** What the view keeps: the subscription exists exactly when the checkout completed, never newer than the
      last time noted; a noted time is some event's, with that event's status. */
  ghost predicate Coherent(v: View, events: set<Event>) {
    && (v.completed <==> !v.sub.NoSub?)
    && (v.at.None? ==> !v.completed)
    && (v.at.Some? ==> exists e :: e in events && Time(e) == v.at.value && e.payment.status == v.status)
    && (!v.sub.NoSub? ==> v.sub.at <= v.at.value)
    && !v.sub.Graced?
  }

  ghost predicate Ready(st: Stores, c: Subject, events: set<Event>, clock: int) {
    && Placed(st, c, events)
    && Coherent(ViewOf(st, c), events)
    && (CheckoutOf(st, c).providerOccurredAt.None? ==> CheckoutOf(st, c).status.CheckoutPending?)
    && CheckoutOf(st, c).updatedAt <= clock
  }

  // ---------------------------------------------------------------- the checkout's record

  lemma FindStable(checkouts: seq<Checkout>, i: nat, x: Checkout, p: Payment)
    requires Unique(checkouts, CheckoutKey) && i < |checkouts|
    requires x.checkoutId == checkouts[i].checkoutId && x.provider == checkouts[i].provider == NowPayments
    requires x.providerCheckoutId == checkouts[i].providerCheckoutId
    requires FindCheckout(checkouts, p) == Some(checkouts[i])
    ensures FindCheckout(checkouts[i := x], p) == Some(x)
  {
    var t := checkouts[i := x];
    ReplaceKeeps(checkouts, CheckoutKey, i, x);
    RewriteKeeps(checkouts, t, InvoiceKey);
    if p.orderId.Some? && Has(checkouts, CheckoutKey, p.orderId.value)
       && Get(checkouts, CheckoutKey, p.orderId.value).provider.NowPayments? {
    } else {
      var j := FirstIndex(checkouts, InvoiceKey, (NowPayments, p.invoiceId));
      assert checkouts[j] == checkouts[i];
      assert j == i;
    }
  }

  /** What the checkout's record becomes when a payment is saved on it. */
  function SavedRecord(co: Checkout, p: Payment, status: CheckoutStatus, now: int): Checkout {
    Checkout(co.provider, co.checkoutId, co.providerCheckoutId, OrElse(p.paymentId, co.providerPaymentId), co.userId,
             co.planId, status, Timestamp(p), p.status, now)
  }

  lemma SaveEffect(st: Stores, c: Subject, events: set<Event>, e: Event, status: CheckoutStatus, now: int)
    requires Story(c, events) && Placed(st, c, events) && e in events
    requires CheckoutOf(st, c).updatedAt <= now
    requires CheckoutOf(st, c).status.CheckoutCompleted? ==> status.CheckoutCompleted?
    requires CheckoutOf(st, c).providerOccurredAt.Some? ==> CheckoutOf(st, c).providerOccurredAt.value <= Time(e)
    ensures var after := SavedCheckout(st, CheckoutOf(st, c), e.payment, status, now);
            && after == st.(checkouts := after.checkouts)
            && Placed(after, c, events)
            && CheckoutOf(after, c) == SavedRecord(CheckoutOf(st, c), e.payment, status, now)
  {
    var co := CheckoutOf(st, c);
    var i := FirstIndex(st.checkouts, CheckoutKey, c.checkoutId);
    var x := SavedRecord(co, e.payment, status, now);
    ReplaceKeeps(st.checkouts, CheckoutKey, i, x);
    var after := SavedCheckout(st, co, e.payment, status, now);
    assert after.checkouts == st.checkouts[i := x];
    forall f | f in events
      ensures FindCheckout(after.checkouts, f.payment) == Some(x)
    {
      FindStable(st.checkouts, i, x, f.payment);
    }
  }

  // ---------------------------------------------------------------- the subscription's record

  lemma ByIdIsByKey(st: Stores, c: Subject, events: set<Event>)
    requires Placed(st, c, events)
    ensures FirstIndex(st.subscriptions, SubscriptionId, c.SubscriptionId())
            == FirstIndex(st.subscriptions, SubscriptionKey, (NowPayments, c.SubscriptionId()))
  {
  }

  /** An update of this subscription: patched, or added. */
  lemma PutOwn(st: Stores, c: Subject, events: set<Event>, p: SubscriptionPatch)
    requires Placed(st, c, events)
    requires p.provider.NowPayments? && p.subscriptionId == c.SubscriptionId()
    requires ById(st.subscriptions, c.SubscriptionId()).Some? ==> ById(st.subscriptions, c.SubscriptionId()).value.occurredAt <= p.occurredAt
    ensures var after := UpsertedSubscription(st, p).0;
            var previous := ById(st.subscriptions, c.SubscriptionId());
            && Placed(after, c, events)
            && after.checkouts == st.checkouts && after.events == st.events
            && ById(after.subscriptions, c.SubscriptionId())
               == Some(if previous.Some? then AssignSubscription(previous.value, p)
                       else NewSubscription(p, Owner(st.customers, p.provider, p.customerId)))
  {
    hide Sound, UpsertedSubscription, Owner, NewSubscription, AssignSubscription, FindCheckout;
    var after := UpsertedSubscription(st, p).0;
    ByIdIsByKey(st, c, events);
    PutEffect(st, p);
    assert Placed(after, c, events);
    ByIdIsByKey(after, c, events);
  }

  /** An update of any other subscription leaves this one alone. */
  lemma PutOther(st: Stores, c: Subject, events: set<Event>, p: SubscriptionPatch)
    requires Placed(st, c, events) && p.subscriptionId != c.SubscriptionId()
    ensures var after := UpsertedSubscription(st, p).0;
            && Placed(after, c, events)
            && after.checkouts == st.checkouts && after.events == st.events
            && ById(after.subscriptions, c.SubscriptionId()) == ById(st.subscriptions, c.SubscriptionId())
  {
    hide Sound, UpsertedSubscription, Owner, NewSubscription, AssignSubscription, FindCheckout;
    var after := UpsertedSubscription(st, p).0;
    var k := (NowPayments, c.SubscriptionId());
    ByIdIsByKey(st, c, events);
    PutEffect(st, p);
    assert Placed(after, c, events);
    ByIdIsByKey(after, c, events);
    assert Has(after.subscriptions, SubscriptionKey, k) == Has(st.subscriptions, SubscriptionKey, k);
  }

  lemma {:induction false} DeactivateLeaves(st: Stores, c: Subject, events: set<Event>, listed: seq<Subscription>, at: int)
    requires Placed(st, c, events)
    ensures var after := Deactivated(st, listed, c.SubscriptionId(), at);
            && Placed(after, c, events)
            && after.checkouts == st.checkouts && after.events == st.events
            && ById(after.subscriptions, c.SubscriptionId()) == ById(st.subscriptions, c.SubscriptionId())
  {
    if listed == [] {
    } else {
      var n := |listed| - 1;
      DeactivateLeaves(st, c, events, listed[..n], at);
      if Deactivates(listed[n], c.SubscriptionId()) {
        PutOther(Deactivated(st, listed[..n], c.SubscriptionId(), at), c, events, CancelPatch(listed[n], at));
      }
    }
  }

  lemma PutChargeLeaves(st: Stores, c: Subject, events: set<Event>, p: ChargePatch)
    requires Placed(st, c, events)
    ensures Placed(st.(charges := UpsertedCharge(st.charges, p)), c, events)
  {
  }

  // ---------------------------------------------------------------- lock step

  /** All that a handler needs of the stores to find its checkout. */
  lemma Found(st: Stores, c: Subject, events: set<Event>, e: Event)
    requires Placed(st, c, events) && e in events
    ensures Has(st.checkouts, CheckoutKey, c.checkoutId) && CheckoutOf(st, c).checkoutId == c.checkoutId
    ensures FindCheckout(st.checkouts, e.payment) == Some(CheckoutOf(st, c))
    ensures var s := ById(st.subscriptions, c.SubscriptionId());
            s.Some? ==> s.value.subscriptionId == c.SubscriptionId() && s.value.provider.NowPayments?
  {
  }

  /** A first payment on time: the subscription starts and the checkout completes. */
  lemma PaidStep(st: Stores, c: Subject, events: set<Event>, e: Event, now: int)
    requires Story(c, events) && Placed(st, c, events) && e in events && Pays(e)
    requires var co := CheckoutOf(st, c);
             && co.updatedAt <= now && !co.status.CheckoutCompleted?
             && (co.providerOccurredAt.Some? ==> co.providerOccurredAt.value <= Time(e))
    requires ById(st.subscriptions, c.SubscriptionId()).None?
    ensures var after := AfterFinished(st, e.payment, Time(e), now);
            && Placed(after, c, events) && after.events == st.events
            && CheckoutOf(after, c) == SavedRecord(CheckoutOf(st, c), e.payment, CheckoutCompleted, now)
            && SubViewOf(ById(after.subscriptions, c.SubscriptionId())) == PaidAt(Time(e))
  {
    var co := CheckoutOf(st, c);
    var local := SubscriptionFromPayment(e.payment, co, Time(e));
    var listed := OwnedBy(st.subscriptions, co.userId);
    var cleared := Deactivated(st, listed, c.SubscriptionId(), Time(e));
    var paid := UpsertedSubscription(cleared, local).0;
    var saved := SavedCheckout(paid, co, e.payment, CheckoutCompleted, now);
    var charge := ChargeFromPayment(e.payment, local.providerPaymentId.Read(), local.subscriptionId,
                                    co.userId, ChargeSucceeded, Time(e));
    hide Placed, SavedCheckout, Deactivated, UpsertedCharge, FindCheckout, UpsertedSubscription, OwnedBy, Story, ById;
    hide AfterFinished;
    Found(st, c, events, e);
    assert local.subscriptionId == c.SubscriptionId() by { PaymentNamesSubscription(c, events, e, co); }
    var after := saved.(charges := UpsertedCharge(saved.charges, charge));
    assert AfterFinished(st, e.payment, Time(e), now) == after by { FinishedPays(st, c, e, now); }
    hide ChargeFromPayment, SubscriptionFromPayment, NewSubscription, Owner, SubViewOf;
    PaidIsLive(e, co, Owner(cleared.customers, local.provider, local.customerId));
    DeactivateLeaves(st, c, events, listed, Time(e));
    Found(cleared, c, events, e);
    PutOwn(cleared, c, events, local);
    Found(paid, c, events, e);
    SaveEffect(paid, c, events, e, CheckoutCompleted, now);
    PutChargeLeaves(saved, c, events, charge);
  }

  lemma PaidIsLive(e: Event, co: Checkout, owner: Option<string>)
    ensures var p := SubscriptionFromPayment(e.payment, co, Time(e));
            && p.provider.NowPayments? && SubViewOf(Some(NewSubscription(p, owner))) == PaidAt(Time(e))
  {
  }

  lemma FinishedPays(st: Stores, c: Subject, e: Event, now: int)
    requires Has(st.checkouts, CheckoutKey, c.checkoutId)
    requires FindCheckout(st.checkouts, e.payment) == Some(CheckoutOf(st, c)) && !CheckoutOf(st, c).status.CheckoutCompleted?
    requires Pays(e)
    requires ById(st.subscriptions, Prefixed(PaymentId(e.payment, CheckoutOf(st, c)))).None?
    ensures
      var co := CheckoutOf(st, c);
      var local := SubscriptionFromPayment(e.payment, co, Time(e));
      var cleared := Deactivated(st, OwnedBy(st.subscriptions, co.userId), local.subscriptionId, Time(e));
      var saved := SavedCheckout(UpsertedSubscription(cleared, local).0, co, e.payment, CheckoutCompleted, now);
      AfterFinished(st, e.payment, Time(e), now) ==
        saved.(charges := UpsertedCharge(saved.charges,
          ChargeFromPayment(e.payment, local.providerPaymentId.Read(), local.subscriptionId, co.userId, ChargeSucceeded, Time(e))))
  {
  }

  lemma PaymentNamesSubscription(c: Subject, events: set<Event>, e: Event, co: Checkout)
    requires Story(c, events) && e in events && co.checkoutId == c.checkoutId
    ensures Prefixed(PaymentId(e.payment, co)) == c.SubscriptionId()
  {
  }

  lemma PaysStep(st: Stores, c: Subject, events: set<Event>, e: Event, now: int)
    requires Story(c, events) && Ready(st, c, events, now) && e in events && e.payment.status == Some(FinishedPayment)
    requires CheckoutOf(st, c).providerOccurredAt.Some? ==> CheckoutOf(st, c).providerOccurredAt.value <= Time(e)
    ensures var after := AfterFinished(st, e.payment, Time(e), now);
            && Placed(after, c, events) && CheckoutOf(after, c).updatedAt <= now
            && after.events == st.events
            && (CheckoutOf(after, c).providerOccurredAt.None? ==> CheckoutOf(after, c).status.CheckoutPending?)
            && ViewOf(after, c) == Step(ViewOf(st, c), e, false)
  {
    hide Placed, SavedCheckout, FindCheckout, AfterFinished, ById;
    Found(st, c, events, e);
    var co := CheckoutOf(st, c);
    if co.status.CheckoutCompleted? {
      assert AfterFinished(st, e.payment, Time(e), now) == st by { FinishedTooLate(st, c, e, now); }
    } else if Pays(e) {
      PaidStep(st, c, events, e, now);
    } else {
      SaveEffect(st, c, events, e, CheckoutExpired, now);
      FinishedUnsupported(st, c, e, now);
    }
  }

  lemma FinishedTooLate(st: Stores, c: Subject, e: Event, now: int)
    requires Has(st.checkouts, CheckoutKey, c.checkoutId)
    requires FindCheckout(st.checkouts, e.payment) == Some(CheckoutOf(st, c)) && CheckoutOf(st, c).status.CheckoutCompleted?
    ensures AfterFinished(st, e.payment, Time(e), now) == st
  {
  }

  lemma FinishedUnsupported(st: Stores, c: Subject, e: Event, now: int)
    requires Has(st.checkouts, CheckoutKey, c.checkoutId)
    requires FindCheckout(st.checkouts, e.payment) == Some(CheckoutOf(st, c)) && !CheckoutOf(st, c).status.CheckoutCompleted?
    requires e.payment.asset != Some(Supported)
    ensures AfterFinished(st, e.payment, Time(e), now) == SavedCheckout(st, CheckoutOf(st, c), e.payment, CheckoutExpired, now)
  {
  }

  /** A refund of a completed checkout: the subscription is revoked unless it is newer than the refund. */
  lemma RevokeStep(st: Stores, c: Subject, events: set<Event>, e: Event, now: int)
    requires Story(c, events) && Placed(st, c, events) && e in events && Refunds(e)
    requires var co := CheckoutOf(st, c);
             && co.updatedAt <= now && co.status.CheckoutCompleted?
             && (co.providerOccurredAt.Some? ==> co.providerOccurredAt.value <= Time(e))
    requires ById(st.subscriptions, c.SubscriptionId()).Some?
    ensures var after := AfterFailed(st, e.payment, Time(e), now);
            var s := ById(st.subscriptions, c.SubscriptionId()).value;
            && Placed(after, c, events) && after.events == st.events
            && CheckoutOf(after, c) == SavedRecord(CheckoutOf(st, c), e.payment, CheckoutCompleted, now)
            && SubViewOf(ById(after.subscriptions, c.SubscriptionId()))
               == if s.occurredAt > Time(e) then SubViewOf(Some(s)) else Dead(Time(e))
  {
    var co := CheckoutOf(st, c);
    var s := ById(st.subscriptions, c.SubscriptionId()).value;
    var saved := SavedCheckout(st, co, e.payment, CheckoutCompleted, now);
    var charge := RefundCharge(e, s, co);
    var charged := saved.(charges := UpsertedCharge(saved.charges, charge));
    hide Placed, SavedCheckout, UpsertedCharge, FindCheckout, UpsertedSubscription, Story, ById, AfterFailed, RefundCharge, RevokePatch,
         SubViewOf, AssignSubscription;
    Found(st, c, events, e);
    SaveEffect(st, c, events, e, CheckoutCompleted, now);
    Found(saved, c, events, e);
    PutChargeLeaves(saved, c, events, charge);
    assert ById(charged.subscriptions, c.SubscriptionId()) == Some(s);
    FailedRevokes(st, c, events, e, now);
    if s.occurredAt <= Time(e) {
      RevokedIsDead(s, Time(e));
      PutOwn(charged, c, events, RevokePatch(s, Time(e)));
    }
  }

  function RefundCharge(e: Event, s: Subscription, co: Checkout): ChargePatch {
    ChargeFromPayment(e.payment, s.providerPaymentId, s.subscriptionId, co.userId, ChargeRefunded, Time(e))
      .(failureReason := Put(Some(REFUND_REASON)))
  }

  lemma RevokedIsDead(s: Subscription, t: int)
    ensures var p := RevokePatch(s, t);
            && p.provider == s.provider && p.subscriptionId == s.subscriptionId && p.occurredAt == t
            && SubViewOf(Some(AssignSubscription(s, p))) == Dead(t)
  {
  }

  lemma FailedRevokes(st: Stores, c: Subject, events: set<Event>, e: Event, now: int)
    requires Story(c, events) && Placed(st, c, events) && e in events && Refunds(e)
    requires CheckoutOf(st, c).status.CheckoutCompleted? && ById(st.subscriptions, c.SubscriptionId()).Some?
    ensures
      var co := CheckoutOf(st, c);
      var s := ById(st.subscriptions, c.SubscriptionId()).value;
      var saved := SavedCheckout(st, co, e.payment, CheckoutCompleted, now);
      var charged := saved.(charges := UpsertedCharge(saved.charges, RefundCharge(e, s, co)));
      AfterFailed(st, e.payment, Time(e), now) ==
        if s.occurredAt > Time(e) then charged else UpsertedSubscription(charged, RevokePatch(s, Time(e))).0
  {
    hide Placed, SavedCheckout, UpsertedCharge, FindCheckout, UpsertedSubscription, ById, RevokePatch, ChargeFromPayment;
    Found(st, c, events, e);
    PaymentNamesSubscription(c, events, e, CheckoutOf(st, c));
  }

  lemma RefundStep(st: Stores, c: Subject, events: set<Event>, e: Event, now: int)
    requires Story(c, events) && Ready(st, c, events, now) && e in events && e.payment.status.Some?
    requires Refunds(e) || e.payment.status.value.FailedPayment? || e.payment.status.value.ExpiredPayment?
    requires CheckoutOf(st, c).providerOccurredAt.Some? ==> CheckoutOf(st, c).providerOccurredAt.value <= Time(e)
    ensures var after := AfterFailed(st, e.payment, Time(e), now);
            && Placed(after, c, events) && CheckoutOf(after, c).updatedAt <= now
            && after.events == st.events
            && (CheckoutOf(after, c).providerOccurredAt.None? ==> CheckoutOf(after, c).status.CheckoutPending?)
            && ViewOf(after, c) == Step(ViewOf(st, c), e, false)
  {
    hide Placed, SavedCheckout, FindCheckout, ById, AfterFailed;
    Found(st, c, events, e);
    var co := CheckoutOf(st, c);
    if co.status.CheckoutCompleted? && Refunds(e) {
      RevokeStep(st, c, events, e, now);
    } else {
      FailedSaves(st, c, e, now);
      if !co.status.CheckoutCompleted? {
        SaveEffect(st, c, events, e, if e.payment.status == Some(ExpiredPayment) then CheckoutExpired else CheckoutCancelled, now);
      }
    }
  }

  lemma FailedSaves(st: Stores, c: Subject, e: Event, now: int)
    requires Has(st.checkouts, CheckoutKey, c.checkoutId)
    requires FindCheckout(st.checkouts, e.payment) == Some(CheckoutOf(st, c))
    requires CheckoutOf(st, c).status.CheckoutCompleted? ==> !Refunds(e)
    ensures AfterFailed(st, e.payment, Time(e), now) ==
      if CheckoutOf(st, c).status.CheckoutCompleted? then st
      else SavedCheckout(st, CheckoutOf(st, c), e.payment,
                         if e.payment.status == Some(ExpiredPayment) then CheckoutExpired else CheckoutCancelled, now)
  {
  }

  lemma PendingStep(st: Stores, c: Subject, events: set<Event>, e: Event, now: int)
    requires Story(c, events) && Ready(st, c, events, now) && e in events && !Refunds(e) && !Pays(e)
    requires CheckoutOf(st, c).providerOccurredAt.Some? ==> CheckoutOf(st, c).providerOccurredAt.value <= Time(e)
    ensures var after := AfterPending(st, e.payment, now);
            && Placed(after, c, events) && CheckoutOf(after, c).updatedAt <= now
            && after.events == st.events
            && (CheckoutOf(after, c).providerOccurredAt.None? ==> CheckoutOf(after, c).status.CheckoutPending?)
            && ViewOf(after, c) == Step(ViewOf(st, c), e, false)
  {
    hide SavedCheckout, FindCheckout;
    var co := CheckoutOf(st, c);
    if !co.status.CheckoutCompleted? {
      SaveEffect(st, c, events, e, CheckoutPending, now);
    }
  }

  lemma StepCoherent(v: View, e: Event, superseded: bool, events: set<Event>)
    requires Coherent(v, events) && e in events
    ensures Coherent(Step(v, e, superseded), events)
  {
  }

  /** With distinct times the provider is never asked again: an event either is out of date or speaks for itself. */
  lemma SpeaksForItself(st: Stores, c: Subject, events: set<Event>, e: Event, fetched: Option<Payment>, clock: int)
    requires Story(c, events) && Ready(st, c, events, clock) && e in events
    ensures var co := CheckoutOf(st, c);
            Reconcile(e.payment, Some(co), fetched)
            == if co.providerOccurredAt.Some? && Time(e) < co.providerOccurredAt.value then Ignore else Use(e.payment)
  {
  }

  lemma ProcessedStep(st: Stores, c: Subject, events: set<Event>, e: Event, now: int)
    requires Story(c, events) && Ready(st, c, events, now) && e in events
    requires CheckoutOf(st, c).providerOccurredAt.Some? ==> CheckoutOf(st, c).providerOccurredAt.value <= Time(e)
    ensures var after := Processed(st, e.payment, Time(e), now);
            && Placed(after, c, events) && CheckoutOf(after, c).updatedAt <= now
            && after.events == st.events
            && (CheckoutOf(after, c).providerOccurredAt.None? ==> CheckoutOf(after, c).status.CheckoutPending?)
            && ViewOf(after, c) == Step(ViewOf(st, c), e, false)
  {
    hide AfterFinished, AfterFailed, AfterPending, FindCheckout;
    if e.payment.status == Some(FinishedPayment) {
      PaysStep(st, c, events, e, now);
    } else if e.payment.status == Some(FailedPayment) || e.payment.status == Some(ExpiredPayment) || Refunds(e) {
      RefundStep(st, c, events, e, now);
    } else {
      PendingStep(st, c, events, e, now);
    }
  }

  /** The two ways an event not yet recorded can go. */
  lemma HandledCases(st: Stores, pending: Pending, c: Subject, events: set<Event>, e: Event, fetched: Option<Payment>, now: int)
    requires Story(c, events) && Ready(st, c, events, now) && e in events
    requires !Has(st.events, EventKey, (NowPayments, e.id.value))
    ensures var at := CheckoutOf(st, c).providerOccurredAt;
            var after := if (at.Some? && Time(e) < at.value) || Superseded(pending, c.checkoutId, e.payment) then st
                         else Processed(st, e.payment, Time(e), now);
            Handled(st, pending, c.checkoutId, e, fetched, now) == Noted(after, e, now)
  {
    hide Processed, Noted, Superseded, FindCheckout, Sound, Coherent, Reconcile;
    SpeaksForItself(st, c, events, e, fetched, now);
    assert FindCheckout(st.checkouts, e.payment) == Some(CheckoutOf(st, c));
  }

  lemma NotedLeaves(st: Stores, c: Subject, events: set<Event>, e: Event, now: int)
    requires Story(c, events) && Placed(st, c, events) && e in events
    ensures var after := Noted(st, e, now);
            && Placed(after, c, events)
            && CheckoutOf(after, c) == CheckoutOf(st, c) && ViewOf(after, c) == ViewOf(st, c)
            && after.events == RecordedEvent(st.events, EventRecord(NowPayments, e.id.value, Time(e), now))
  {
  }

  /** Handling an event not yet recorded moves the view by Step, whatever else is in the stores, and records the event. */
  lemma HandledStep(st: Stores, pending: Pending, c: Subject, events: set<Event>, e: Event, fetched: Option<Payment>, now: int)
    requires Story(c, events) && Ready(st, c, events, now) && e in events
    requires !Has(st.events, EventKey, (NowPayments, e.id.value))
    ensures var after := Handled(st, pending, c.checkoutId, e, fetched, now);
            && Ready(after, c, events, now)
            && ViewOf(after, c) == Step(ViewOf(st, c), e, Superseded(pending, c.checkoutId, e.payment))
            && after.events == RecordedEvent(st.events, EventRecord(NowPayments, e.id.value, Time(e), now))
  {
    hide Handled, Processed, Noted, RecordedEvent, Superseded, Placed, ById;
    HandledCases(st, pending, c, events, e, fetched, now);
    Found(st, c, events, e);
    var co := CheckoutOf(st, c);
    var superseded := Superseded(pending, c.checkoutId, e.payment);
    StepCoherent(ViewOf(st, c), e, superseded, events);
    if (co.providerOccurredAt.Some? && Time(e) < co.providerOccurredAt.value) || superseded {
      NotedLeaves(st, c, events, e, now);
    } else {
      ProcessedStep(st, c, events, e, now);
      NotedLeaves(Processed(st, e.payment, Time(e), now), c, events, e, now);
    }
  }

  /** Handling an event that is recorded already changes nothing. */
  lemma HandledAgain(st: Stores, pending: Pending, key: string, e: Event, fetched: Option<Payment>, now: int)
    requires e.id.Some? && Has(st.events, EventKey, (NowPayments, e.id.value))
    ensures Handled(st, pending, key, e, fetched, now) == st
  {
  }
}
