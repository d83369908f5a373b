/** The billing stores (packages/dkrypt/src/billing.ts): records found by key, patched in place with
    Object.assign, and the rules that refuse a stale or backward update. Times are milliseconds. */
module Billing {
  import opened Wrappers
  import opened Keyed

  datatype Provider = Stripe | NowPayments | Legacy

  datatype SubscriptionStatus =
    | Active | Trialing | PastDue | Cancelled | Canceled | Paused | Revoked | OtherStatus(name: string)

  datatype ChargeStatus = ChargePending | ChargeSucceeded | ChargeFailed | ChargeRefunded

  datatype CheckoutStatus = CheckoutPending | CheckoutCompleted | CheckoutExpired | CheckoutCancelled

  /** One optional key of an object passed to Object.assign: not there, or there with a value that may be undefined. */
  datatype Field<+T> = Absent | Put(given: Option<T>) {
    function Read(): Option<T> {
      if Absent? then None else given
    }

    function Over(previous: Option<T>): Option<T> {
      if Absent? then previous else given
    }
  }

  /** A key of `{...record}`: records come back from storage without their undefined keys. */
  function Own<T>(value: Option<T>): Field<T> {
    if value.Some? then Put(value) else Absent
  }

  function OrElse<T>(first: Option<T>, second: Option<T>): Option<T> {
    if first.Some? then first else second
  }

  datatype Customer = Customer(provider: Provider, customerId: string, email: string, userId: Option<string>, updatedAt: int)

  datatype Subscription = Subscription(
    provider: Provider, subscriptionId: string, customerId: string, userId: Option<string>,
    status: SubscriptionStatus, planId: string, providerPaymentId: Option<string>, nextBilledAt: Option<int>,
    lastChargeAt: Option<int>, lastChargeId: Option<string>, lastChargeStatus: Option<ChargeStatus>,
    failureReason: Option<string>, graceUntil: Option<int>, paused: Option<bool>, flagged: Option<bool>,
    occurredAt: int, updatedAt: int)

  datatype SubscriptionPatch = SubscriptionPatch(
    provider: Provider, subscriptionId: string, customerId: string, userId: Option<string>,
    status: SubscriptionStatus, planId: string, providerPaymentId: Field<string>, nextBilledAt: Field<int>,
    lastChargeAt: Field<int>, lastChargeId: Field<string>, lastChargeStatus: Field<ChargeStatus>,
    failureReason: Field<string>, graceUntil: Field<int>, paused: Field<bool>, flagged: Field<bool>,
    occurredAt: int, updatedAt: int)

  datatype Checkout = Checkout(
    provider: Provider, checkoutId: string, providerCheckoutId: Option<string>, providerPaymentId: Option<string>,
    userId: string, planId: string, status: CheckoutStatus, providerOccurredAt: Option<int>,
    providerStatus: Option<PaymentStatus>, updatedAt: int)

  datatype CheckoutPatch = CheckoutPatch(
    provider: Provider, checkoutId: string, providerCheckoutId: Field<string>, providerPaymentId: Field<string>,
    userId: string, planId: string, status: CheckoutStatus, providerOccurredAt: Field<int>,
    providerStatus: Field<PaymentStatus>, updatedAt: int)

  datatype Charge = Charge(chargeId: string, subscriptionId: string, userId: string, status: ChargeStatus,
                           failureReason: Option<string>, occurredAt: int, updatedAt: int)

  datatype ChargePatch = ChargePatch(chargeId: string, subscriptionId: string, userId: string, status: ChargeStatus,
                                     failureReason: Field<string>, occurredAt: int, updatedAt: int)

  /** A provider's payment status, lower-cased. */
  datatype PaymentStatus =
    | FinishedPayment | FailedPayment | ExpiredPayment | RefundedPayment | OtherPayment(name: string)

  datatype EventRecord = EventRecord(provider: Provider, eventId: string, occurredAt: int, processedAt: int)

  datatype EventKind = Grant | Renewal | Pause | Failed | Cancellation | Revocation

  datatype HistoryEntry = HistoryEntry(subscriptionId: string, userId: Option<string>, provider: Provider, planId: string,
                                       kind: EventKind, status: SubscriptionStatus, at: int, detail: Option<string>)

  /** A card checkout begun under an idempotency key. */
  datatype CheckoutAttempt = CheckoutAttempt(userId: string, idempotencyKey: string, requestFingerprint: string,
                                             parametersFingerprint: string, createdAt: int, sessionId: Option<string>)

  datatype Stores = Stores(customers: seq<Customer>, subscriptions: seq<Subscription>, checkouts: seq<Checkout>,
                           charges: seq<Charge>, events: seq<EventRecord>, history: seq<HistoryEntry>,
                           attempts: seq<CheckoutAttempt>)

  const CAP: nat := 5000

  function CustomerKey(c: Customer): (Provider, string) { (c.provider, c.customerId) }
  function SubscriptionKey(s: Subscription): (Provider, string) { (s.provider, s.subscriptionId) }
  function SubscriptionId(s: Subscription): string { s.subscriptionId }
  function CheckoutKey(c: Checkout): string { c.checkoutId }
  function ChargeKey(c: Charge): string { c.chargeId }
  function EventKey(e: EventRecord): (Provider, string) { (e.provider, e.eventId) }

  // ---------------------------------------------------------------- subscriptions

  function SpreadSubscription(s: Subscription): SubscriptionPatch {
    SubscriptionPatch(s.provider, s.subscriptionId, s.customerId, s.userId, s.status, s.planId, Own(s.providerPaymentId),
                      Own(s.nextBilledAt), Own(s.lastChargeAt), Own(s.lastChargeId), Own(s.lastChargeStatus),
                      Own(s.failureReason), Own(s.graceUntil), Own(s.paused), Own(s.flagged), s.occurredAt, s.updatedAt)
  }

  function AssignSubscription(e: Subscription, p: SubscriptionPatch): Subscription {
    Subscription(p.provider, p.subscriptionId, p.customerId, OrElse(p.userId, e.userId), p.status, p.planId,
                 p.providerPaymentId.Over(e.providerPaymentId), p.nextBilledAt.Over(e.nextBilledAt),
                 p.lastChargeAt.Over(e.lastChargeAt), p.lastChargeId.Over(e.lastChargeId),
                 p.lastChargeStatus.Over(e.lastChargeStatus), p.failureReason.Over(e.failureReason),
                 p.graceUntil.Over(e.graceUntil), p.paused.Over(e.paused), p.flagged.Over(e.flagged),
                 p.occurredAt, p.updatedAt)
  }

  function NewSubscription(p: SubscriptionPatch, owner: Option<string>): Subscription {
    Subscription(p.provider, p.subscriptionId, p.customerId, OrElse(p.userId, owner), p.status, p.planId,
                 p.providerPaymentId.Read(), p.nextBilledAt.Read(), p.lastChargeAt.Read(), p.lastChargeId.Read(),
                 p.lastChargeStatus.Read(), p.failureReason.Read(), p.graceUntil.Read(), p.paused.Read(),
                 p.flagged.Read(), p.occurredAt, p.updatedAt)
  }

  function Owner(customers: seq<Customer>, provider: Provider, customerId: string): Option<string> {
    var i := FirstIndex(customers, CustomerKey, (provider, customerId));
    if i < |customers| then customers[i].userId else None
  }

  /** entitlementEventKind: what an accepted update is recorded as. */
  function HistoryKind(previous: Option<Subscription>, next: SubscriptionPatch): Option<EventKind> {
    if previous.None? then Some(Grant)
    else if previous.value.status != next.status && (next.status.Cancelled? || next.status.Canceled?) then Some(Cancellation)
    else if previous.value.status != next.status && (next.status.PastDue? || next.lastChargeStatus.Read() == Some(ChargeFailed)) then Some(Failed)
    else if previous.value.status != next.status && (next.status.Paused? || next.paused.Read() == Some(true)) then Some(Pause)
    else if previous.value.status != next.status && next.status.Active? then Some(Renewal)
    else if previous.value.status != next.status && next.status.Revoked? then Some(Revocation)
    else if previous.value.lastChargeId != next.lastChargeId.Read() && next.lastChargeStatus.Read() == Some(ChargeSucceeded) then Some(Renewal)
    else None
  }

  function Recorded(history: seq<HistoryEntry>, previous: Option<Subscription>, p: SubscriptionPatch): seq<HistoryEntry> {
    var kind := HistoryKind(previous, p);
    if kind.None? then history
    else
      var known := if previous.Some? then previous.value.userId else None;
      Newest(history + [HistoryEntry(p.subscriptionId, OrElse(p.userId, known), p.provider, p.planId, kind.value,
                                     p.status, p.updatedAt, p.failureReason.Read())], CAP)
  }

  function UpsertedSubscription(st: Stores, p: SubscriptionPatch): (Stores, bool) {
    var i := FirstIndex(st.subscriptions, SubscriptionKey, (p.provider, p.subscriptionId));
    if i == |st.subscriptions| then
      var added := NewSubscription(p, Owner(st.customers, p.provider, p.customerId));
      (st.(subscriptions := st.subscriptions + [added], history := Recorded(st.history, None, p)), true)
    else
      var existing := st.subscriptions[i];
      if existing.occurredAt > p.occurredAt then (st, false)
      else
        (st.(subscriptions := st.subscriptions[i := AssignSubscription(existing, p)],
             history := Recorded(st.history, Some(existing), p)), true)
  }

  /** Whether a subscription gives its owner the plan at the time `now`. */
  predicate IsActive(s: Subscription, now: int) {
    match s.provider
    case Stripe => s.status.Active? || s.status.Trialing? || s.status.PastDue?
    case Legacy => false
    case NowPayments =>
      || (s.status.Active? && s.flagged != Some(true) && s.paused != Some(true))
      || (s.status.PastDue? && s.graceUntil.Some? && s.graceUntil.value > now)
  }

  // ---------------------------------------------------------------- checkouts, charges, events

  function SpreadCheckout(c: Checkout): CheckoutPatch {
    CheckoutPatch(c.provider, c.checkoutId, Own(c.providerCheckoutId), Own(c.providerPaymentId), c.userId, c.planId,
                  c.status, Own(c.providerOccurredAt), Own(c.providerStatus), c.updatedAt)
  }

  function AssignCheckout(e: Checkout, p: CheckoutPatch): Checkout {
    Checkout(p.provider, p.checkoutId, p.providerCheckoutId.Over(e.providerCheckoutId),
             p.providerPaymentId.Over(e.providerPaymentId), p.userId, p.planId, p.status,
             p.providerOccurredAt.Over(e.providerOccurredAt), p.providerStatus.Over(e.providerStatus), p.updatedAt)
  }

  function NewCheckout(p: CheckoutPatch): Checkout {
    Checkout(p.provider, p.checkoutId, p.providerCheckoutId.Read(), p.providerPaymentId.Read(), p.userId, p.planId,
             p.status, p.providerOccurredAt.Read(), p.providerStatus.Read(), p.updatedAt)
  }

  /** A completed checkout stays completed, and an older provider time or, short of completion, an older
      local time changes nothing. */
  predicate RefusesCheckout(e: Checkout, p: CheckoutPatch) {
    || (e.status.CheckoutCompleted? && !p.status.CheckoutCompleted?)
    || (e.providerOccurredAt.Some? && p.providerOccurredAt.Read().Some?
        && e.providerOccurredAt.value > p.providerOccurredAt.Read().value)
    || (!p.status.CheckoutCompleted? && e.updatedAt > p.updatedAt)
  }

  function UpsertedCheckout(checkouts: seq<Checkout>, p: CheckoutPatch): seq<Checkout> {
    var i := FirstIndex(checkouts, CheckoutKey, p.checkoutId);
    if i == |checkouts| then checkouts + [NewCheckout(p)]
    else if RefusesCheckout(checkouts[i], p) then checkouts
    else checkouts[i := AssignCheckout(checkouts[i], p)]
  }

  function AssignCharge(e: Charge, p: ChargePatch): Charge {
    Charge(p.chargeId, p.subscriptionId, p.userId, p.status, p.failureReason.Over(e.failureReason), p.occurredAt, p.updatedAt)
  }

  function NewCharge(p: ChargePatch): Charge {
    Charge(p.chargeId, p.subscriptionId, p.userId, p.status, p.failureReason.Read(), p.occurredAt, p.updatedAt)
  }

  predicate RefusesCharge(e: Charge, p: ChargePatch) {
    || (e.status.ChargeRefunded? && !p.status.ChargeRefunded?)
    || (e.status.ChargeSucceeded? && !p.status.ChargeSucceeded? && !p.status.ChargeRefunded?)
    || (!e.status.ChargePending? && e.occurredAt > p.occurredAt)
  }

  function UpsertedCharge(charges: seq<Charge>, p: ChargePatch): seq<Charge> {
    var i := FirstIndex(charges, ChargeKey, p.chargeId);
    if i == |charges| then Newest(charges + [NewCharge(p)], CAP)
    else if RefusesCharge(charges[i], p) then charges
    else Newest(charges[i := AssignCharge(charges[i], p)], CAP)
  }

  function RecordedEvent(events: seq<EventRecord>, e: EventRecord): seq<EventRecord> {
    Newest(if Has(events, EventKey, EventKey(e)) then events else events + [e], CAP)
  }

  // ---------------------------------------------------------------- owners

  /** A subscription of this customer without an owner gets the customer's. */
  function Adopted(s: Subscription, c: Customer): Subscription {
    if c.userId.Some? && s.provider == c.provider && s.customerId == c.customerId && s.userId.None?
    then s.(userId := c.userId) else s
  }

  function UpsertedCustomer(st: Stores, c: Customer): Stores {
    var i := FirstIndex(st.customers, CustomerKey, CustomerKey(c));
    st.(customers := if i == |st.customers| then st.customers + [c]
                     else st.customers[i := c.(userId := OrElse(c.userId, st.customers[i].userId))],
        subscriptions := seq(|st.subscriptions|, k requires 0 <= k < |st.subscriptions| => Adopted(st.subscriptions[k], c)))
  }

  /** An owner after an account changed hands: `from` becomes `to`, anyone else stays. */
  function Moved(owner: Option<string>, from: string, to: Option<string>): Option<string> {
    if owner == Some(from) then to else owner
  }

  function MovedName(owner: string, from: string, to: string): string {
    if owner == from then to else owner
  }

  function Merged(st: Stores, target: string, source: string): Stores {
    if target == source then st
    else st.(
      customers := seq(|st.customers|, k requires 0 <= k < |st.customers| =>
        st.customers[k].(userId := Moved(st.customers[k].userId, source, Some(target)))),
      subscriptions := seq(|st.subscriptions|, k requires 0 <= k < |st.subscriptions| =>
        st.subscriptions[k].(userId := Moved(st.subscriptions[k].userId, source, Some(target)))),
      checkouts := seq(|st.checkouts|, k requires 0 <= k < |st.checkouts| =>
        st.checkouts[k].(userId := MovedName(st.checkouts[k].userId, source, target))),
      charges := seq(|st.charges|, k requires 0 <= k < |st.charges| =>
        st.charges[k].(userId := MovedName(st.charges[k].userId, source, target))),
      attempts := seq(|st.attempts|, k requires 0 <= k < |st.attempts| =>
        st.attempts[k].(userId := MovedName(st.attempts[k].userId, source, target))))
  }

  const DELETED_USER := "deleted-user"

  function Forgotten(c: Customer, user: string, email: string): Customer {
    if c.userId == Some(user) then c.(userId := None, email := email) else c
  }

  function Retained(attempts: seq<CheckoutAttempt>, user: string): seq<CheckoutAttempt> {
    if attempts == [] then []
    else
      var n := |attempts| - 1;
      Retained(attempts[..n], user) + if attempts[n].userId != user then [attempts[n]] else []
  }

  /** anonymizeBillingUser; `email` stands for the address made from a digest of the user id. */
  function Anonymized(st: Stores, user: string, email: string): Stores {
    st.(
      customers := seq(|st.customers|, k requires 0 <= k < |st.customers| => Forgotten(st.customers[k], user, email)),
      subscriptions := seq(|st.subscriptions|, k requires 0 <= k < |st.subscriptions| =>
        st.subscriptions[k].(userId := Moved(st.subscriptions[k].userId, user, None))),
      checkouts := seq(|st.checkouts|, k requires 0 <= k < |st.checkouts| =>
        st.checkouts[k].(userId := MovedName(st.checkouts[k].userId, user, DELETED_USER))),
      charges := seq(|st.charges|, k requires 0 <= k < |st.charges| =>
        st.charges[k].(userId := MovedName(st.charges[k].userId, user, DELETED_USER))),
      history := seq(|st.history|, k requires 0 <= k < |st.history| =>
        st.history[k].(userId := Moved(st.history[k].userId, user, None))),
      attempts := Retained(st.attempts, user))
  }

  /** The module-level `state`, changed in place by the operations of billing.ts. */
  class BillingStore {
    var customers: seq<Customer>
    var subscriptions: seq<Subscription>
    var checkouts: seq<Checkout>
    var charges: seq<Charge>
    var events: seq<EventRecord>
    var history: seq<HistoryEntry>
    var attempts: seq<CheckoutAttempt>

    ghost function Snapshot(): Stores
      reads this
    {
      Stores(customers, subscriptions, checkouts, charges, events, history, attempts)
    }

    constructor (st: Stores)
      ensures Snapshot() == st
    {
      customers, subscriptions, checkouts := st.customers, st.subscriptions, st.checkouts;
      charges, events, history, attempts := st.charges, st.events, st.history, st.attempts;
    }

    method UpsertBillingSubscription(p: SubscriptionPatch) returns (applied: bool)
      modifies this
      ensures (Snapshot(), applied) == UpsertedSubscription(old(Snapshot()), p)
    {
      var i := Find(subscriptions, SubscriptionKey, (p.provider, p.subscriptionId));
      if i < |subscriptions| && subscriptions[i].occurredAt > p.occurredAt {
        return false;
      }
      var previous := if i < |subscriptions| then Some(subscriptions[i]) else None;
      if i < |subscriptions| {
        subscriptions := subscriptions[i := AssignSubscription(subscriptions[i], p)];
      } else {
        var c := Find(customers, CustomerKey, (p.provider, p.customerId));
        var owner := if c < |customers| then customers[c].userId else None;
        subscriptions := subscriptions + [NewSubscription(p, owner)];
      }
      var kind := HistoryKind(previous, p);
      if kind.Some? {
        var known := if previous.Some? then previous.value.userId else None;
        history := Newest(history + [HistoryEntry(p.subscriptionId, OrElse(p.userId, known), p.provider, p.planId,
                                                  kind.value, p.status, p.updatedAt, p.failureReason.Read())], CAP);
      }
      applied := true;
    }

    method UpsertCryptoCheckout(p: CheckoutPatch)
      modifies `checkouts
      ensures checkouts == UpsertedCheckout(old(checkouts), p)
    {
      var i := Find(checkouts, CheckoutKey, p.checkoutId);
      if i < |checkouts| {
        var existing := checkouts[i];
        if existing.status.CheckoutCompleted? && !p.status.CheckoutCompleted? { return; }
        var given := p.providerOccurredAt.Read();
        if existing.providerOccurredAt.Some? && given.Some? && existing.providerOccurredAt.value > given.value { return; }
        if !p.status.CheckoutCompleted? && existing.updatedAt > p.updatedAt { return; }
        checkouts := checkouts[i := AssignCheckout(existing, p)];
      } else {
        checkouts := checkouts + [NewCheckout(p)];
      }
    }

    method UpsertBillingCharge(p: ChargePatch)
      modifies `charges
      ensures charges == UpsertedCharge(old(charges), p)
    {
      var i := Find(charges, ChargeKey, p.chargeId);
      if i < |charges| {
        var existing := charges[i];
        if existing.status.ChargeRefunded? && !p.status.ChargeRefunded? { return; }
        if existing.status.ChargeSucceeded? && !p.status.ChargeSucceeded? && !p.status.ChargeRefunded? { return; }
        if !existing.status.ChargePending? && existing.occurredAt > p.occurredAt { return; }
        charges := charges[i := AssignCharge(existing, p)];
      } else {
        charges := charges + [NewCharge(p)];
      }
      if |charges| > CAP {
        charges := charges[|charges| - CAP..];
      }
    }

    method RecordBillingEvent(e: EventRecord)
      modifies `events
      ensures events == RecordedEvent(old(events), e)
    {
      var i := Find(events, EventKey, EventKey(e));
      if i == |events| {
        events := events + [e];
      }
      if |events| > CAP {
        events := events[|events| - CAP..];
      }
    }

    method UpsertBillingCustomer(c: Customer)
      modifies `customers, `subscriptions
      ensures Snapshot() == UpsertedCustomer(old(Snapshot()), c)
    {
      var i := Find(customers, CustomerKey, CustomerKey(c));
      if i < |customers| {
        customers := customers[i := c.(userId := OrElse(c.userId, customers[i].userId))];
      } else {
        customers := customers + [c];
      }
      if c.userId.Some? {
        var k := 0;
        while k < |subscriptions|
          invariant 0 <= k <= |subscriptions| == |old(subscriptions)|
          invariant forall j | 0 <= j < k :: subscriptions[j] == Adopted(old(subscriptions)[j], c)
          invariant forall j | k <= j < |subscriptions| :: subscriptions[j] == old(subscriptions)[j]
          modifies `subscriptions
        {
          var s := subscriptions[k];
          if s.provider == c.provider && s.customerId == c.customerId && s.userId.None? {
            subscriptions := subscriptions[k := s.(userId := c.userId)];
          }
          k := k + 1;
        }
      }
      assert subscriptions == UpsertedCustomer(old(Snapshot()), c).subscriptions;
    }

    method MergeBillingAccounts(target: string, source: string)
      modifies this
      ensures Snapshot() == Merged(old(Snapshot()), target, source)
    {
      if target == source { return; }
      var k := 0;
      while k < |customers|
        invariant 0 <= k <= |customers| == |old(customers)|
        invariant forall j | 0 <= j < k ::
          customers[j] == old(customers)[j].(userId := Moved(old(customers)[j].userId, source, Some(target)))
        invariant forall j | k <= j < |customers| :: customers[j] == old(customers)[j]
        modifies `customers
      {
        if customers[k].userId == Some(source) {
          customers := customers[k := customers[k].(userId := Some(target))];
        }
        k := k + 1;
      }
      MoveSubscriptions(source, Some(target));
      MoveCheckouts(source, target);
      MoveCharges(source, target);
      MoveAttempts(source, target);
    }

    method MoveAttempts(source: string, target: string)
      modifies `attempts
      ensures |attempts| == |old(attempts)|
      ensures forall j | 0 <= j < |attempts| ::
        attempts[j] == old(attempts)[j].(userId := MovedName(old(attempts)[j].userId, source, target))
    {
      var k := 0;
      while k < |attempts|
        invariant 0 <= k <= |attempts| == |old(attempts)|
        invariant forall j | 0 <= j < k ::
          attempts[j] == old(attempts)[j].(userId := MovedName(old(attempts)[j].userId, source, target))
        invariant forall j | k <= j < |attempts| :: attempts[j] == old(attempts)[j]
      {
        if attempts[k].userId == source {
          attempts := attempts[k := attempts[k].(userId := target)];
        }
        k := k + 1;
      }
    }

    method MoveSubscriptions(source: string, target: Option<string>)
      modifies `subscriptions
      ensures |subscriptions| == |old(subscriptions)|
      ensures forall j | 0 <= j < |subscriptions| ::
        subscriptions[j] == old(subscriptions)[j].(userId := Moved(old(subscriptions)[j].userId, source, target))
    {
      var k := 0;
      while k < |subscriptions|
        invariant 0 <= k <= |subscriptions| == |old(subscriptions)|
        invariant forall j | 0 <= j < k ::
          subscriptions[j] == old(subscriptions)[j].(userId := Moved(old(subscriptions)[j].userId, source, target))
        invariant forall j | k <= j < |subscriptions| :: subscriptions[j] == old(subscriptions)[j]
      {
        if subscriptions[k].userId == Some(source) {
          subscriptions := subscriptions[k := subscriptions[k].(userId := target)];
        }
        k := k + 1;
      }
    }

    method MoveCheckouts(source: string, target: string)
      modifies `checkouts
      ensures |checkouts| == |old(checkouts)|
      ensures forall j | 0 <= j < |checkouts| ::
        checkouts[j] == old(checkouts)[j].(userId := MovedName(old(checkouts)[j].userId, source, target))
    {
      var k := 0;
      while k < |checkouts|
        invariant 0 <= k <= |checkouts| == |old(checkouts)|
        invariant forall j | 0 <= j < k ::
          checkouts[j] == old(checkouts)[j].(userId := MovedName(old(checkouts)[j].userId, source, target))
        invariant forall j | k <= j < |checkouts| :: checkouts[j] == old(checkouts)[j]
      {
        if checkouts[k].userId == source {
          checkouts := checkouts[k := checkouts[k].(userId := target)];
        }
        k := k + 1;
      }
    }

    method MoveCharges(source: string, target: string)
      modifies `charges
      ensures |charges| == |old(charges)|
      ensures forall j | 0 <= j < |charges| ::
        charges[j] == old(charges)[j].(userId := MovedName(old(charges)[j].userId, source, target))
    {
      var k := 0;
      while k < |charges|
        invariant 0 <= k <= |charges| == |old(charges)|
        invariant forall j | 0 <= j < k ::
          charges[j] == old(charges)[j].(userId := MovedName(old(charges)[j].userId, source, target))
        invariant forall j | k <= j < |charges| :: charges[j] == old(charges)[j]
      {
        if charges[k].userId == source {
          charges := charges[k := charges[k].(userId := target)];
        }
        k := k + 1;
      }
    }

    method AnonymizeBillingUser(user: string, email: string)
      modifies this
      ensures Snapshot() == Anonymized(old(Snapshot()), user, email)
    {
      hide Retained;
      ForgetCustomers(user, email);
      MoveSubscriptions(user, None);
      MoveCheckouts(user, DELETED_USER);
      MoveCharges(user, DELETED_USER);
      MoveHistory(user);
      RetainAttempts(user);
    }

    method ForgetCustomers(user: string, email: string)
      modifies `customers
      ensures |customers| == |old(customers)|
      ensures forall j | 0 <= j < |customers| :: customers[j] == Forgotten(old(customers)[j], user, email)
    {
      var k := 0;
      while k < |customers|
        invariant 0 <= k <= |customers| == |old(customers)|
        invariant forall j | 0 <= j < k :: customers[j] == Forgotten(old(customers)[j], user, email)
        invariant forall j | k <= j < |customers| :: customers[j] == old(customers)[j]
      {
        if customers[k].userId == Some(user) {
          customers := customers[k := customers[k].(userId := None, email := email)];
        }
        k := k + 1;
      }
    }

    method RetainAttempts(user: string)
      modifies `attempts
      ensures attempts == Retained(old(attempts), user)
    {
      var retained := [];
      for k := 0 to |attempts|
        invariant retained == Retained(attempts[..k], user)
      {
        assert attempts[..k + 1][..k] == attempts[..k];
        if attempts[k].userId != user {
          retained := retained + [attempts[k]];
        }
      }
      assert attempts[..|attempts|] == attempts;
      attempts := retained;
    }

    method MoveHistory(user: string)
      modifies `history
      ensures |history| == |old(history)|
      ensures forall j | 0 <= j < |history| ::
        history[j] == old(history)[j].(userId := Moved(old(history)[j].userId, user, None))
    {
      var k := 0;
      while k < |history|
        invariant 0 <= k <= |history| == |old(history)|
        invariant forall j | 0 <= j < k ::
          history[j] == old(history)[j].(userId := Moved(old(history)[j].userId, user, None))
        invariant forall j | k <= j < |history| :: history[j] == old(history)[j]
      {
        if history[k].userId == Some(user) {
          history := history[k := history[k].(userId := None)];
        }
        k := k + 1;
      }
    }
  }
}
