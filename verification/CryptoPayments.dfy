/** Provider payment events driving checkouts, charges and subscriptions
    (packages/dkrypt/src/cryptoBilling.ts:145-205, 309-485, 514-524; packages/dkrypt/src/nowpayments.ts:294-332). */
module CryptoPayments {
  import opened Wrappers
  import opened Keyed
  import opened Billing

  /** A time as the provider sent it. */
  datatype Stamp = At(time: int) | Unreadable

  datatype Asset = Supported | Unsupported

  datatype Payment = Payment(paymentId: Option<string>, orderId: Option<string>, invoiceId: Option<string>,
                             status: Option<PaymentStatus>, updatedAt: Option<Stamp>, createdAt: Option<Stamp>,
                             asset: Option<Asset>)

  datatype Event = Event(id: Option<string>, payment: Payment)

  /** How many deliveries for one payment key are under way, and the latest time among them. */
  datatype Observation = Observation(count: int, latest: Option<int>)

  type Pending = map<string, Observation>

  /** What reconcilePaymentEvent came to: carry on with a payment, ignore the event, or an error from the provider. */
  datatype Reconciled = Use(payment: Payment) | Ignore | Raised

  const THIRTY_DAYS: int := 30 * 24 * 60 * 60 * 1000

  function Timestamp(p: Payment): Option<int> {
    var value := OrElse(p.updatedAt, p.createdAt);
    if value.Some? && value.value.At? then Some(value.value.time) else None
  }

  function EventDate(p: Payment, now: int): int {
    if Timestamp(p).Some? then Timestamp(p).value else now
  }

  function InvoiceKey(c: Checkout): (Provider, Option<string>) { (c.provider, c.providerCheckoutId) }

  /** findCheckoutForPayment: by order id, else by invoice id. */
  function FindCheckout(checkouts: seq<Checkout>, p: Payment): Option<Checkout> {
    if p.orderId.Some? && Has(checkouts, CheckoutKey, p.orderId.value)
       && Get(checkouts, CheckoutKey, p.orderId.value).provider.NowPayments?
    then Some(Get(checkouts, CheckoutKey, p.orderId.value))
    else if p.invoiceId.Some? && Has(checkouts, InvoiceKey, (NowPayments, p.invoiceId))
    then Some(Get(checkouts, InvoiceKey, (NowPayments, p.invoiceId)))
    else None
  }

  /** The key deliveries are serialised by: the checkout's id when there is one. */
  function PaymentKey(checkouts: seq<Checkout>, e: Event): string {
    var c := FindCheckout(checkouts, e.payment);
    if c.Some? then c.value.checkoutId
    else
      var id := OrElse(e.payment.paymentId, OrElse(e.payment.invoiceId, OrElse(e.payment.orderId, e.id)));
      if id.Some? then id.value else ""
  }

  // ---------------------------------------------------------------- deliveries under way

  function Later(latest: Option<int>, t: Option<int>): Option<int> {
    if t.Some? && (latest.None? || t.value > latest.value) then t else latest
  }

  function Observed(pending: Pending, key: string, p: Payment): Pending {
    var o := if key in pending then pending[key] else Observation(0, None);
    pending[key := Observation(o.count + 1, Later(o.latest, Timestamp(p)))]
  }

  function Released(pending: Pending, key: string): Pending {
    if key !in pending then pending
    else if pending[key].count == 1 then pending - {key}
    else pending[key := pending[key].(count := pending[key].count - 1)]
  }

  /** Some delivery under way for the same key carries a later time. */
  predicate Superseded(pending: Pending, key: string, p: Payment) {
    && key in pending && pending[key].latest.Some?
    && (Timestamp(p).None? || Timestamp(p).value < pending[key].latest.value)
  }

  // ---------------------------------------------------------------- which payment to go by

  predicate IsOlder(p: Payment, c: Option<Checkout>) {
    && c.Some? && c.value.providerOccurredAt.Some?
    && (Timestamp(p).None? || Timestamp(p).value < c.value.providerOccurredAt.value)
  }

  /** fetchLatestPayment; `fetched` is the provider's answer, None when the call failed. */
  function Refetched(p: Payment, c: Checkout, fetched: Option<Payment>, current: Option<int>): Reconciled {
    if OrElse(p.paymentId, c.providerPaymentId).None? then Ignore
    else if fetched.None? then Raised
    else
      var f := fetched.value;
      if current.Some? && (Timestamp(f).None? || Timestamp(f).value < current.value) then Ignore
      else Use(Payment(OrElse(f.paymentId, p.paymentId), OrElse(f.orderId, p.orderId), OrElse(f.invoiceId, p.invoiceId),
                       OrElse(f.status, p.status), OrElse(f.updatedAt, p.updatedAt), OrElse(f.createdAt, p.createdAt),
                       OrElse(f.asset, p.asset)))
  }

  function Reconcile(p: Payment, c: Option<Checkout>, fetched: Option<Payment>): Reconciled {
    if c.None? then Use(p)
    else if c.value.providerOccurredAt.None? then
      if !c.value.status.CheckoutCancelled? && !c.value.status.CheckoutExpired? then Use(p)
      else Refetched(p, c.value, fetched, None)
    else
      var current := c.value.providerOccurredAt.value;
      if Timestamp(p).None? || Timestamp(p).value < current then Ignore
      else if Timestamp(p).value > current || p.status == c.value.providerStatus then Use(p)
      else Refetched(p, c.value, fetched, Some(current))
  }

  // ---------------------------------------------------------------- what a payment does to the stores

  function PaymentId(p: Payment, c: Checkout): string {
    if p.paymentId.Some? then p.paymentId.value else c.checkoutId
  }

  function Prefixed(id: string): string { "nowpayments:" + id }

  function SavedCheckout(st: Stores, c: Checkout, p: Payment, status: CheckoutStatus, now: int): Stores {
    st.(checkouts := UpsertedCheckout(st.checkouts, SpreadCheckout(c).(
      providerPaymentId := Put(OrElse(p.paymentId, c.providerPaymentId)),
      status := status,
      providerOccurredAt := Put(OrElse(Timestamp(p), c.providerOccurredAt)),
      providerStatus := Put(p.status),
      updatedAt := now)))
  }

  /** subscriptionFromPayment: active for thirty days, with no word on grace, pause, flag or failure. */
  function SubscriptionFromPayment(p: Payment, c: Checkout, at: int): SubscriptionPatch {
    SubscriptionPatch(NowPayments, Prefixed(PaymentId(p, c)), Prefixed(c.userId), Some(c.userId), Active, c.planId,
                      Put(Some(PaymentId(p, c))), Put(Some(at + THIRTY_DAYS)), Put(Some(at)), Put(Some(PaymentId(p, c))),
                      Put(Some(ChargeSucceeded)), Absent, Absent, Absent, Absent, at, at)
  }

  function ChargeFromPayment(p: Payment, providerPaymentId: Option<string>, subscriptionId: string, userId: string,
                             status: ChargeStatus, at: int): ChargePatch {
    var id := if p.paymentId.Some? then p.paymentId.value
              else if providerPaymentId.Some? then providerPaymentId.value else subscriptionId;
    ChargePatch(Prefixed(id), subscriptionId, userId, status, Absent, at, at)
  }

  function OwnedBy(subscriptions: seq<Subscription>, userId: string): seq<Subscription> {
    if subscriptions == [] then []
    else
      var s := subscriptions[|subscriptions| - 1];
      OwnedBy(subscriptions[..|subscriptions| - 1], userId) + if s.userId == Some(userId) then [s] else []
  }

  predicate Deactivates(s: Subscription, currentId: string) {
    s.provider.NowPayments? && s.subscriptionId != currentId && !s.status.Cancelled?
  }

  function CancelPatch(s: Subscription, at: int): SubscriptionPatch {
    SpreadSubscription(s).(status := Cancelled, nextBilledAt := Put(None), occurredAt := at, updatedAt := at)
  }

  function Deactivated(st: Stores, listed: seq<Subscription>, currentId: string, at: int): Stores {
    if listed == [] then st
    else
      var before := Deactivated(st, listed[..|listed| - 1], currentId, at);
      var s := listed[|listed| - 1];
      if Deactivates(s, currentId) then UpsertedSubscription(before, CancelPatch(s, at)).0 else before
  }

  function ById(subscriptions: seq<Subscription>, id: string): Option<Subscription> {
    if Has(subscriptions, SubscriptionId, id) then Some(Get(subscriptions, SubscriptionId, id)) else None
  }

  function AfterFinished(st: Stores, p: Payment, at: int, now: int): Stores {
    var found := FindCheckout(st.checkouts, p);
    if found.None? || found.value.status.CheckoutCompleted? then st
    else
      var c := found.value;
      if p.asset != Some(Supported) then SavedCheckout(st, c, p, CheckoutExpired, now)
      else
        var local := SubscriptionFromPayment(p, c, at);
        var existing := ById(st.subscriptions, local.subscriptionId);
        if existing.Some? && existing.value.occurredAt >= at then st
        else
          var cleared := Deactivated(st, OwnedBy(st.subscriptions, c.userId), local.subscriptionId, at);
          var saved := SavedCheckout(UpsertedSubscription(cleared, local).0, c, p, CheckoutCompleted, now);
          saved.(charges := UpsertedCharge(saved.charges,
            ChargeFromPayment(p, local.providerPaymentId.Read(), local.subscriptionId, c.userId, ChargeSucceeded, at)))
  }

  function AfterPending(st: Stores, p: Payment, now: int): Stores {
    var found := FindCheckout(st.checkouts, p);
    if found.None? || found.value.status.CheckoutCompleted? then st
    else SavedCheckout(st, found.value, p, CheckoutPending, now)
  }

  const REFUND_REASON := "payment refunded"

  function RevokePatch(s: Subscription, at: int): SubscriptionPatch {
    SpreadSubscription(s).(status := Revoked, nextBilledAt := Put(None), lastChargeAt := Put(Some(at)),
                           lastChargeStatus := Put(Some(ChargeRefunded)), failureReason := Put(Some(REFUND_REASON)),
                           graceUntil := Put(None), occurredAt := at, updatedAt := at)
  }

  function AfterFailed(st: Stores, p: Payment, at: int, now: int): Stores {
    var found := FindCheckout(st.checkouts, p);
    if found.None? then st
    else
      var c := found.value;
      if !c.status.CheckoutCompleted? then
        SavedCheckout(st, c, p, if p.status == Some(ExpiredPayment) then CheckoutExpired else CheckoutCancelled, now)
      else if p.status != Some(RefundedPayment) then st
      else
        var subscription := ById(st.subscriptions, Prefixed(PaymentId(p, c)));
        var saved := SavedCheckout(st, c, p, CheckoutCompleted, now);
        if subscription.None? then saved
        else
          var s := subscription.value;
          var charge := ChargeFromPayment(p, s.providerPaymentId, s.subscriptionId, c.userId, ChargeRefunded, at)
            .(failureReason := Put(Some(REFUND_REASON)));
          var charged := saved.(charges := UpsertedCharge(saved.charges, charge));
          if s.occurredAt > at then charged
          else UpsertedSubscription(charged, RevokePatch(s, at)).0
  }

  function Processed(st: Stores, p: Payment, at: int, now: int): Stores {
    if p.status == Some(FinishedPayment) then AfterFinished(st, p, at, now)
    else if p.status == Some(FailedPayment) || p.status == Some(ExpiredPayment) || p.status == Some(RefundedPayment)
    then AfterFailed(st, p, at, now)
    else AfterPending(st, p, now)
  }

  function Noted(st: Stores, e: Event, now: int): Stores
    requires e.id.Some?
  {
    st.(events := RecordedEvent(st.events, EventRecord(NowPayments, e.id.value, EventDate(e.payment, now), now)))
  }

  /** processNowPaymentsEventLocked, run while the payment key's lock is held. */
  function Handled(st: Stores, pending: Pending, key: string, e: Event, fetched: Option<Payment>, now: int): Stores {
    if e.id.None? || Has(st.events, EventKey, (NowPayments, e.id.value)) then st
    else
      match Reconcile(e.payment, FindCheckout(st.checkouts, e.payment), fetched)
      case Raised => st
      case Ignore => Noted(st, e, now)
      case Use(p) =>
        if IsOlder(p, FindCheckout(st.checkouts, p)) || Superseded(pending, key, p) then Noted(st, e, now)
        else Noted(Processed(st, p, EventDate(p, now), now), e, now)
  }

  /** The event processor: it changes the stores and its own table of deliveries under way. */
  class EventProcessor {
    const store: BillingStore
    var pending: Pending

    constructor (store: BillingStore)
      ensures this.store == store && pending == map[]
    {
      this.store, pending := store, map[];
    }

    method ObservePaymentEvent(key: string, p: Payment)
      modifies this
      ensures pending == Observed(old(pending), key, p)
    {
      var observation := if key in pending then pending[key] else Observation(0, None);
      var timestamp := Timestamp(p);
      if timestamp.Some? && (observation.latest.None? || timestamp.value > observation.latest.value) {
        observation := observation.(latest := timestamp);
      }
      pending := pending[key := observation.(count := observation.count + 1)];
    }

    method ReleaseObservation(key: string)
      modifies this
      ensures pending == Released(old(pending), key)
    {
      if key in pending {
        pending := pending[key := pending[key].(count := pending[key].count - 1)];
        if pending[key].count == 0 {
          pending := pending - {key};
        }
      }
    }

    method FindCheckoutForPayment(p: Payment) returns (c: Option<Checkout>)
      ensures c == FindCheckout(store.checkouts, p)
    {
      if p.orderId.Some? {
        var i := Find(store.checkouts, CheckoutKey, p.orderId.value);
        if i < |store.checkouts| && store.checkouts[i].provider.NowPayments? {
          return Some(store.checkouts[i]);
        }
      }
      if p.invoiceId.None? { return None; }
      var i := Find(store.checkouts, InvoiceKey, (NowPayments, p.invoiceId));
      c := if i < |store.checkouts| then Some(store.checkouts[i]) else None;
    }

    method SavePaymentCheckout(c: Checkout, p: Payment, status: CheckoutStatus, now: int)
      modifies store
      ensures store.Snapshot() == SavedCheckout(old(store.Snapshot()), c, p, status, now)
    {
      store.UpsertCryptoCheckout(SpreadCheckout(c).(
        providerPaymentId := Put(OrElse(p.paymentId, c.providerPaymentId)),
        status := status,
        providerOccurredAt := Put(OrElse(Timestamp(p), c.providerOccurredAt)),
        providerStatus := Put(p.status),
        updatedAt := now));
    }

    method GetBillingSubscriptionsForUser(userId: string) returns (listed: seq<Subscription>)
      ensures listed == OwnedBy(store.subscriptions, userId)
    {
      listed := [];
      for i := 0 to |store.subscriptions|
        invariant listed == OwnedBy(store.subscriptions[..i], userId)
      {
        assert store.subscriptions[..i + 1][..i] == store.subscriptions[..i];
        if store.subscriptions[i].userId == Some(userId) {
          listed := listed + [store.subscriptions[i]];
        }
      }
      assert store.subscriptions[..|store.subscriptions|] == store.subscriptions;
    }

    method DeactivateOtherCryptoSubscriptions(userId: string, currentId: string, at: int)
      modifies store
      ensures store.Snapshot() == Deactivated(old(store.Snapshot()), OwnedBy(old(store.subscriptions), userId), currentId, at)
    {
      var listed := GetBillingSubscriptionsForUser(userId);
      for i := 0 to |listed|
        invariant store.Snapshot() == Deactivated(old(store.Snapshot()), listed[..i], currentId, at)
      {
        assert listed[..i + 1][..i] == listed[..i];
        var s := listed[i];
        if s.provider.NowPayments? && s.subscriptionId != currentId && !s.status.Cancelled? {
          var _ := store.UpsertBillingSubscription(CancelPatch(s, at));
        }
      }
      assert listed[..|listed|] == listed;
    }

    method ProcessPaymentFinished(p: Payment, at: int, now: int)
      modifies store
      ensures store.Snapshot() == AfterFinished(old(store.Snapshot()), p, at, now)
    {
      var found := FindCheckoutForPayment(p);
      if found.None? { return; }
      var c := found.value;
      if c.status.CheckoutCompleted? { return; }
      if p.asset != Some(Supported) {
        SavePaymentCheckout(c, p, CheckoutExpired, now);
        return;
      }
      var local := SubscriptionFromPayment(p, c, at);
      var i := Find(store.subscriptions, SubscriptionId, local.subscriptionId);
      if i < |store.subscriptions| && store.subscriptions[i].occurredAt >= at { return; }
      DeactivateOtherCryptoSubscriptions(c.userId, local.subscriptionId, at);
      var _ := store.UpsertBillingSubscription(local);
      SavePaymentCheckout(c, p, CheckoutCompleted, now);
      store.UpsertBillingCharge(
        ChargeFromPayment(p, local.providerPaymentId.Read(), local.subscriptionId, c.userId, ChargeSucceeded, at));
    }

    method ProcessPaymentPending(p: Payment, now: int)
      modifies store
      ensures store.Snapshot() == AfterPending(old(store.Snapshot()), p, now)
    {
      var found := FindCheckoutForPayment(p);
      if found.None? || found.value.status.CheckoutCompleted? { return; }
      SavePaymentCheckout(found.value, p, CheckoutPending, now);
    }

    method ProcessPaymentFailed(p: Payment, at: int, now: int)
      modifies store
      ensures store.Snapshot() == AfterFailed(old(store.Snapshot()), p, at, now)
    {
      var found := FindCheckoutForPayment(p);
      if found.None? { return; }
      var c := found.value;
      if c.status.CheckoutCompleted? {
        if p.status != Some(RefundedPayment) { return; }
        var i := Find(store.subscriptions, SubscriptionId, Prefixed(PaymentId(p, c)));
        var subscription := if i < |store.subscriptions| then Some(store.subscriptions[i]) else None;
        SavePaymentCheckout(c, p, CheckoutCompleted, now);
        if subscription.None? { return; }
        var s := subscription.value;
        store.UpsertBillingCharge(
          ChargeFromPayment(p, s.providerPaymentId, s.subscriptionId, c.userId, ChargeRefunded, at)
          .(failureReason := Put(Some(REFUND_REASON))));
        if s.occurredAt > at { return; }
        var _ := store.UpsertBillingSubscription(RevokePatch(s, at));
        return;
      }
      SavePaymentCheckout(c, p, if p.status == Some(ExpiredPayment) then CheckoutExpired else CheckoutCancelled, now);
    }

    /** One delivery while it holds its key's lock; `fetched` is what the provider answers if it is asked. */
    method ProcessNowPaymentsEventLocked(key: string, e: Event, fetched: Option<Payment>, now: int)
      modifies store
      ensures store.Snapshot() == Handled(old(store.Snapshot()), pending, key, e, fetched, now)
    {
      if e.id.None? { return; }
      var seen := Find(store.events, EventKey, (NowPayments, e.id.value));
      if seen < |store.events| { return; }
      var checkout := FindCheckoutForPayment(e.payment);
      var reconciled := Reconcile(e.payment, checkout, fetched);
      if reconciled.Raised? { return; }
      if reconciled.Use? {
        var p := reconciled.payment;
        var current := FindCheckoutForPayment(p);
        if !IsOlder(p, current) && !Superseded(pending, key, p) {
          var at := EventDate(p, now);
          if p.status == Some(FinishedPayment) {
            ProcessPaymentFinished(p, at, now);
          } else if p.status == Some(FailedPayment) || p.status == Some(ExpiredPayment) || p.status == Some(RefundedPayment) {
            ProcessPaymentFailed(p, at, now);
          } else {
            ProcessPaymentPending(p, now);
          }
        }
      }
      store.RecordBillingEvent(EventRecord(NowPayments, e.id.value, EventDate(e.payment, now), now));
    }
  }
}
