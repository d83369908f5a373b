/** What any sequence of store updates keeps (packages/dkrypt/src/billing.ts:331-373, 401-436, 479-513, 587-634). */
module BillingInvariants {
  import opened Wrappers
  import opened Keyed
  import opened Billing

  datatype Update =
    | PutCustomer(customer: Customer)
    | PutSubscription(subscription: SubscriptionPatch)
    | PutCheckout(checkout: CheckoutPatch)
    | PutCharge(charge: ChargePatch)
    | PutEvent(event: EventRecord)
    | Merge(target: string, source: string)
    | Anonymize(user: string, email: string)

  function Apply(st: Stores, u: Update): Stores {
    match u
    case PutCustomer(c) => UpsertedCustomer(st, c)
    case PutSubscription(p) => UpsertedSubscription(st, p).0
    case PutCheckout(p) => st.(checkouts := UpsertedCheckout(st.checkouts, p))
    case PutCharge(p) => st.(charges := UpsertedCharge(st.charges, p))
    case PutEvent(e) => st.(events := RecordedEvent(st.events, e))
    case Merge(target, source) => Merged(st, target, source)
    case Anonymize(user, email) => Anonymized(st, user, email)
  }

  function Run(st: Stores, us: seq<Update>): Stores {
    if us == [] then st else Apply(Run(st, us[..|us| - 1]), us[|us| - 1])
  }

  /** At most one record per key in every store, and no more charges than the cap. */
  ghost predicate Sound(st: Stores) {
    && Unique(st.customers, CustomerKey)
    && Unique(st.subscriptions, SubscriptionKey)
    && Unique(st.checkouts, CheckoutKey)
    && Unique(st.charges, ChargeKey) && |st.charges| <= CAP
    && Unique(st.events, EventKey) && |st.events| <= CAP
  }

  /** Rewriting records one by one without touching their keys changes no lookup's outcome but the record itself. */
  lemma RewriteKeeps<T, K>(s: seq<T>, t: seq<T>, key: T -> K)
    requires |s| == |t| && (forall i | 0 <= i < |s| :: key(t[i]) == key(s[i]))
    ensures Unique(s, key) ==> Unique(t, key)
    ensures forall k :: FirstIndex(t, key, k) == FirstIndex(s, key, k)
  {
  }

  lemma CustomerKept(st: Stores, c: Customer)
    requires Sound(st)
    ensures Sound(UpsertedCustomer(st, c))
  {
  }

  lemma SubscriptionKept(st: Stores, p: SubscriptionPatch)
    requires Sound(st)
    ensures Sound(UpsertedSubscription(st, p).0)
  {
  }

  lemma CheckoutKept(checkouts: seq<Checkout>, p: CheckoutPatch)
    requires Unique(checkouts, CheckoutKey)
    ensures Unique(UpsertedCheckout(checkouts, p), CheckoutKey)
  {
  }

  lemma ChargeKept(charges: seq<Charge>, p: ChargePatch)
    requires Unique(charges, ChargeKey) && |charges| <= CAP
    ensures Unique(UpsertedCharge(charges, p), ChargeKey) && |UpsertedCharge(charges, p)| <= CAP
  {
  }

  lemma EventKept(events: seq<EventRecord>, e: EventRecord)
    requires Unique(events, EventKey)
    ensures Unique(RecordedEvent(events, e), EventKey) && |RecordedEvent(events, e)| <= CAP
  {
  }

  lemma MergeKept(st: Stores, target: string, source: string)
    requires Sound(st)
    ensures Sound(Merged(st, target, source))
  {
  }

  lemma AnonymizeKept(st: Stores, user: string, email: string)
    requires Sound(st)
    ensures Sound(Anonymized(st, user, email))
  {
  }

  lemma UpdateKeepsSound(st: Stores, u: Update)
    requires Sound(st)
    ensures Sound(Apply(st, u))
  {
    hide UpsertedCustomer, UpsertedSubscription, UpsertedCheckout, UpsertedCharge, RecordedEvent, Merged, Anonymized;
    match u
    case PutCustomer(c) => CustomerKept(st, c);
    case PutSubscription(p) => SubscriptionKept(st, p);
      SubscriptionTouchesOnly(st, p);
    case PutCheckout(p) => CheckoutKept(st.checkouts, p);
    case PutCharge(p) => ChargeKept(st.charges, p);
    case PutEvent(e) => EventKept(st.events, e);
    case Merge(target, source) => MergeKept(st, target, source);
    case Anonymize(user, email) => AnonymizeKept(st, user, email);
  }

  lemma SubscriptionTouchesOnly(st: Stores, p: SubscriptionPatch)
    ensures UpsertedSubscription(st, p).0 ==
      st.(subscriptions := UpsertedSubscription(st, p).0.subscriptions, history := UpsertedSubscription(st, p).0.history)
  {
  }

  /** An update of one subscription: that one is patched or added, every other keeps its record. */
  lemma PutEffect(st: Stores, p: SubscriptionPatch)
    requires Sound(st)
    ensures var after, k := UpsertedSubscription(st, p).0, (p.provider, p.subscriptionId);
            && Sound(after)
            && after == st.(subscriptions := after.subscriptions, history := after.history)
            && (forall s | s in after.subscriptions :: s in st.subscriptions || SubscriptionKey(s) == k)
            && (forall other | other != k ::
                  && Has(after.subscriptions, SubscriptionKey, other) == Has(st.subscriptions, SubscriptionKey, other)
                  && (Has(st.subscriptions, SubscriptionKey, other)
                      ==> Get(after.subscriptions, SubscriptionKey, other) == Get(st.subscriptions, SubscriptionKey, other)))
            && Has(after.subscriptions, SubscriptionKey, k)
            && (!Has(st.subscriptions, SubscriptionKey, k)
                ==> Get(after.subscriptions, SubscriptionKey, k) == NewSubscription(p, Owner(st.customers, p.provider, p.customerId)))
            && (Has(st.subscriptions, SubscriptionKey, k) && Get(st.subscriptions, SubscriptionKey, k).occurredAt <= p.occurredAt
                ==> Get(after.subscriptions, SubscriptionKey, k) == AssignSubscription(Get(st.subscriptions, SubscriptionKey, k), p))
  {
    hide Owner, NewSubscription, AssignSubscription, Recorded;
    SubscriptionKept(st, p);
    var i := FirstIndex(st.subscriptions, SubscriptionKey, (p.provider, p.subscriptionId));
    if i == |st.subscriptions| {
      var added := NewSubscription(p, Owner(st.customers, p.provider, p.customerId));
      assert SubscriptionKey(added) == (p.provider, p.subscriptionId) by { Keys(p); }
      AppendKeeps(st.subscriptions, SubscriptionKey, added);
    } else {
      var patched := AssignSubscription(st.subscriptions[i], p);
      assert SubscriptionKey(patched) == (p.provider, p.subscriptionId) by { Keys(p); }
      ReplaceKeeps(st.subscriptions, SubscriptionKey, i, patched);
    }
  }

  lemma Keys(p: SubscriptionPatch)
    ensures forall owner :: SubscriptionKey(NewSubscription(p, owner)) == (p.provider, p.subscriptionId)
    ensures forall e :: SubscriptionKey(AssignSubscription(e, p)) == (p.provider, p.subscriptionId)
  {
  }

  /** Over every sequence of updates there is at most one record per key. */
  lemma {:induction false} RunKeepsSound(st: Stores, us: seq<Update>)
    requires Sound(st)
    ensures Sound(Run(st, us))
  {
    if us == [] {
    } else {
      RunKeepsSound(st, us[..|us| - 1]);
      UpdateKeepsSound(Run(st, us[..|us| - 1]), us[|us| - 1]);
    }
  }

  // ---------------------------------------------------------------- completed checkouts

  predicate Completed(st: Stores, id: string) {
    Has(st.checkouts, CheckoutKey, id) && Get(st.checkouts, CheckoutKey, id).status.CheckoutCompleted?
  }

  lemma UpdateKeepsCompleted(st: Stores, u: Update, id: string)
    requires Sound(st) && Completed(st, id)
    ensures Completed(Apply(st, u), id)
  {
    match u
    case PutCheckout(p) =>
      var i := FirstIndex(st.checkouts, CheckoutKey, p.checkoutId);
      if i == |st.checkouts| {
        AppendKeeps(st.checkouts, CheckoutKey, NewCheckout(p));
      } else {
        ReplaceKeeps(st.checkouts, CheckoutKey, i, AssignCheckout(st.checkouts[i], p));
      }
    case Merge(_, _) => RewriteKeeps(st.checkouts, Apply(st, u).checkouts, CheckoutKey);
    case Anonymize(_, _) => RewriteKeeps(st.checkouts, Apply(st, u).checkouts, CheckoutKey);
    case PutSubscription(p) => SubscriptionTouchesOnly(st, p);
    case _ =>
  }

  /** Over every sequence of updates a completed checkout stays, completed. */
  lemma {:induction false} RunKeepsCompleted(st: Stores, us: seq<Update>, id: string)
    requires Sound(st) && Completed(st, id)
    ensures Completed(Run(st, us), id)
  {
    if us == [] {
    } else {
      var n := |us| - 1;
      RunKeepsSound(st, us[..n]);
      RunKeepsCompleted(st, us[..n], id);
      UpdateKeepsCompleted(Run(st, us[..n]), us[n], id);
    }
  }

  // ---------------------------------------------------------------- charges

  predicate StoredCharge(st: Stores, id: string) {
    Has(st.charges, ChargeKey, id)
  }

  function ChargeOf(st: Stores, id: string): Charge
    requires StoredCharge(st, id)
  {
    Get(st.charges, ChargeKey, id)
  }

  /** The charge is stored before, during and after the run. */
  ghost predicate StaysStored(st: Stores, us: seq<Update>, id: string) {
    forall n | 0 <= n <= |us| :: StoredCharge(Run(st, us[..n]), id)
  }

  /** Refunded charges stay refunded; succeeded ones stay succeeded or become refunded. */
  predicate Forward(before: ChargeStatus, after: ChargeStatus) {
    && (before.ChargeRefunded? ==> after.ChargeRefunded?)
    && (before.ChargeSucceeded? ==> after.ChargeSucceeded? || after.ChargeRefunded?)
  }

  lemma PutChargeLooksUp(charges: seq<Charge>, p: ChargePatch, id: string)
    requires Unique(charges, ChargeKey) && |charges| <= CAP && Has(charges, ChargeKey, id)
    requires Has(UpsertedCharge(charges, p), ChargeKey, id)
    ensures Forward(Get(charges, ChargeKey, id).status, Get(UpsertedCharge(charges, p), ChargeKey, id).status)
  {
  }

  lemma UpdateMovesForward(st: Stores, u: Update, id: string)
    requires Sound(st) && StoredCharge(st, id) && StoredCharge(Apply(st, u), id)
    ensures Forward(ChargeOf(st, id).status, ChargeOf(Apply(st, u), id).status)
  {
    match u
    case PutCharge(p) => PutChargeLooksUp(st.charges, p, id);
    case Merge(_, _) => RewriteKeeps(st.charges, Apply(st, u).charges, ChargeKey);
    case Anonymize(_, _) => RewriteKeeps(st.charges, Apply(st, u).charges, ChargeKey);
    case PutSubscription(p) => SubscriptionTouchesOnly(st, p);
    case _ =>
  }

  /** While a charge stays within the cap, a refunded one stays refunded and a succeeded one only becomes refunded. */
  lemma {:induction false} RunMovesForward(st: Stores, us: seq<Update>, id: string)
    requires Sound(st) && StaysStored(st, us, id)
    ensures StoredCharge(st, id) && StoredCharge(Run(st, us), id)
    ensures Forward(ChargeOf(st, id).status, ChargeOf(Run(st, us), id).status)
  {
    assert us[..0] == [] && us[..|us|] == us;
    assert StoredCharge(Run(st, us[..0]), id);
    if us == [] {
    } else {
      var n := |us| - 1;
      forall m | 0 <= m <= n
        ensures StoredCharge(Run(st, us[..n][..m]), id)
      {
        assert us[..n][..m] == us[..m];
      }
      RunKeepsSound(st, us[..n]);
      RunMovesForward(st, us[..n], id);
      assert StoredCharge(Run(st, us[..|us|]), id);
      UpdateMovesForward(Run(st, us[..n]), us[n], id);
    }
  }

  /** How many records, this one included, were stored since this charge was. */
  function Depth(st: Stores, id: string): nat
    requires StoredCharge(st, id)
  {
    |st.charges| - FirstIndex(st.charges, ChargeKey, id)
  }

  function ChargePuts(us: seq<Update>): nat {
    if us == [] then 0 else ChargePuts(us[..|us| - 1]) + if us[|us| - 1].PutCharge? then 1 else 0
  }

  lemma PutChargeDepth(st: Stores, p: ChargePatch, id: string)
    requires Sound(st) && StoredCharge(st, id) && Depth(st, id) < CAP
    ensures var after := Apply(st, PutCharge(p)); StoredCharge(after, id) && Depth(after, id) <= Depth(st, id) + 1
  {
    var charges := st.charges;
    var i := FirstIndex(charges, ChargeKey, p.chargeId);
    var j := FirstIndex(charges, ChargeKey, id);
    if i == |charges| {
      var grown := charges + [NewCharge(p)];
      var t := Newest(grown, CAP);
      var d := |grown| - |t|;
      assert forall k | 0 <= k < |t| :: t[k] == grown[k + d];
      FirstIndexIs(t, ChargeKey, id, j - d);
    } else {
      FirstIndexIs(charges[i := AssignCharge(charges[i], p)], ChargeKey, id, j);
    }
  }

  lemma UpdateDepth(st: Stores, u: Update, id: string)
    requires Sound(st) && StoredCharge(st, id) && Depth(st, id) + (if u.PutCharge? then 1 else 0) <= CAP
    ensures StoredCharge(Apply(st, u), id)
    ensures Depth(Apply(st, u), id) <= Depth(st, id) + if u.PutCharge? then 1 else 0
  {
    match u
    case PutCharge(p) => PutChargeDepth(st, p, id);
    case Merge(_, _) => RewriteKeeps(st.charges, Apply(st, u).charges, ChargeKey);
    case Anonymize(_, _) => RewriteKeeps(st.charges, Apply(st, u).charges, ChargeKey);
    case PutSubscription(p) => SubscriptionTouchesOnly(st, p);
    case _ =>
  }

  /** A charge is within the cap for as long as fewer than 5000 charges were put after it. */
  lemma {:induction false} RunKeepsCharge(st: Stores, us: seq<Update>, id: string)
    requires Sound(st) && StoredCharge(st, id) && Depth(st, id) + ChargePuts(us) <= CAP
    ensures StaysStored(st, us, id)
    ensures StoredCharge(Run(st, us), id) && Depth(Run(st, us), id) <= Depth(st, id) + ChargePuts(us)
  {
    hide StoredCharge, Depth, Apply, Sound;
    if us != [] {
      var n := |us| - 1;
      RunKeepsCharge(st, us[..n], id);
      RunKeepsSound(st, us[..n]);
      UpdateDepth(Run(st, us[..n]), us[n], id);
      StaysStoredOnce(st, us, id);
    } else {
      assert forall m | 0 <= m <= |us| :: us[..m] == [];
    }
  }

  lemma StaysStoredOnce(st: Stores, us: seq<Update>, id: string)
    requires us != [] && StaysStored(st, us[..|us| - 1], id) && StoredCharge(Run(st, us), id)
    ensures StaysStored(st, us, id)
  {
    hide StoredCharge, Run;
    forall m | 0 <= m <= |us|
      ensures StoredCharge(Run(st, us[..m]), id)
    {
      assert us[..m] == if m < |us| then us[..|us| - 1][..m] else us;
    }
  }

  /** Past the cap the rule ends: with 5000 charges stored, the oldest, refunded, is dropped by the next
      new one and can then be put back as succeeded. */
  lemma RefundedChargeReturns(st: Stores, other: ChargePatch, again: ChargePatch)
    requires Sound(st) && |st.charges| == CAP && st.charges[0].status.ChargeRefunded?
    requires other.chargeId != st.charges[0].chargeId && !StoredCharge(st, other.chargeId)
    requires again.chargeId == st.charges[0].chargeId && again.status.ChargeSucceeded?
    ensures var after := Run(st, [PutCharge(other), PutCharge(again)]);
            StoredCharge(after, again.chargeId) && ChargeOf(after, again.chargeId).status.ChargeSucceeded?
  {
    var first, second := PutCharge(other), PutCharge(again);
    var us := [first, second];
    assert us[..1] == [first] && [first][..0] == [];
    var mid := Apply(st, first);
    assert Run(st, []) == st;
    assert Run(st, [first]) == mid;
    assert Run(st, us) == Apply(mid, second);
    assert mid.charges == st.charges[1..] + [NewCharge(other)];
    UpdateKeepsSound(st, first);
    assert !StoredCharge(mid, again.chargeId);
    AppendKeeps(mid.charges, ChargeKey, NewCharge(again));
    var grown := mid.charges + [NewCharge(again)];
    assert Newest(grown, CAP)[CAP - 1] == NewCharge(again);
    UpdateKeepsSound(mid, second);
    FirstIndexIs(Newest(grown, CAP), ChargeKey, again.chargeId, CAP - 1);
  }

  // ---------------------------------------------------------------- subscriptions

  predicate StoredSubscription(st: Stores, k: (Provider, string)) {
    Has(st.subscriptions, SubscriptionKey, k)
  }

  function SubscriptionOf(st: Stores, k: (Provider, string)): Subscription
    requires StoredSubscription(st, k)
  {
    Get(st.subscriptions, SubscriptionKey, k)
  }

  lemma PutSubscriptionLooksUp(st: Stores, p: SubscriptionPatch, k: (Provider, string))
    requires Sound(st) && StoredSubscription(st, k)
    ensures var after := UpsertedSubscription(st, p).0;
            && StoredSubscription(after, k)
            && SubscriptionOf(st, k).occurredAt <= SubscriptionOf(after, k).occurredAt
            && (SubscriptionOf(st, k).userId.Some? ==> SubscriptionOf(after, k).userId.Some?)
  {
    var i := FirstIndex(st.subscriptions, SubscriptionKey, (p.provider, p.subscriptionId));
    if i == |st.subscriptions| {
      AppendKeeps(st.subscriptions, SubscriptionKey, NewSubscription(p, Owner(st.customers, p.provider, p.customerId)));
    } else {
      ReplaceKeeps(st.subscriptions, SubscriptionKey, i, AssignSubscription(st.subscriptions[i], p));
    }
  }

  lemma UpdateKeepsSubscription(st: Stores, u: Update, k: (Provider, string))
    requires Sound(st) && StoredSubscription(st, k)
    ensures StoredSubscription(Apply(st, u), k)
    ensures SubscriptionOf(st, k).occurredAt <= SubscriptionOf(Apply(st, u), k).occurredAt
    ensures SubscriptionOf(st, k).userId.Some? && !u.Anonymize? ==> SubscriptionOf(Apply(st, u), k).userId.Some?
  {
    match u
    case PutSubscription(p) => PutSubscriptionLooksUp(st, p, k);
    case PutCustomer(_) => RewriteKeeps(st.subscriptions, Apply(st, u).subscriptions, SubscriptionKey);
    case Merge(_, _) => RewriteKeeps(st.subscriptions, Apply(st, u).subscriptions, SubscriptionKey);
    case Anonymize(_, _) => RewriteKeeps(st.subscriptions, Apply(st, u).subscriptions, SubscriptionKey);
    case _ =>
  }

  /** Over every sequence of updates a subscription is never lost and its occurredAt never decreases; and
      unless an account is anonymised on the way, a known owner is never dropped. */
  lemma {:induction false} RunKeepsSubscription(st: Stores, us: seq<Update>, k: (Provider, string))
    requires Sound(st) && StoredSubscription(st, k)
    ensures StoredSubscription(Run(st, us), k)
    ensures SubscriptionOf(st, k).occurredAt <= SubscriptionOf(Run(st, us), k).occurredAt
    ensures SubscriptionOf(st, k).userId.Some? && (forall u | u in us :: !u.Anonymize?)
            ==> SubscriptionOf(Run(st, us), k).userId.Some?
  {
    if us == [] {
    } else {
      var n := |us| - 1;
      RunKeepsSound(st, us[..n]);
      RunKeepsSubscription(st, us[..n], k);
      UpdateKeepsSubscription(Run(st, us[..n]), us[n], k);
    }
  }

  // ---------------------------------------------------------------- who is entitled

  ghost predicate Entitled(st: Stores, user: string, now: int) {
    exists i :: 0 <= i < |st.subscriptions| && st.subscriptions[i].userId == Some(user) && IsActive(st.subscriptions[i], now)
  }

  /** Merging accounts hands the source's entitlement to the target, takes it from the source, and
      touches no one else's. */
  lemma MergeMovesEntitlement(st: Stores, target: string, source: string, user: string, now: int)
    requires target != source
    ensures Entitled(Merged(st, target, source), user, now) <==>
      if user == target then Entitled(st, target, now) || Entitled(st, source, now)
      else user != source && Entitled(st, user, now)
  {
    var after := Merged(st, target, source);
    assert forall i | 0 <= i < |st.subscriptions| ::
      IsActive(after.subscriptions[i], now) == IsActive(st.subscriptions[i], now);
    if user == target {
      assert Entitled(st, source, now) ==> Entitled(after, target, now);
      assert Entitled(st, target, now) ==> Entitled(after, target, now);
    }
  }

  lemma {:induction false} RetainedAre(attempts: seq<CheckoutAttempt>, user: string, a: CheckoutAttempt)
    ensures a in Retained(attempts, user) <==> a in attempts && a.userId != user
  {
    if attempts == [] {
    } else {
      var n := |attempts| - 1;
      assert attempts == attempts[..n] + [attempts[n]];
      RetainedAre(attempts[..n], user, a);
    }
  }

  /** Nothing but a replaced name is left of an anonymised account, and no one else's entitlement changes. */
  lemma AnonymizeForgets(st: Stores, user: string, email: string, other: string, now: int)
    requires user != DELETED_USER
    ensures var after := Anonymized(st, user, email);
            && (forall c | c in after.customers :: c.userId != Some(user))
            && (forall s | s in after.subscriptions :: s.userId != Some(user))
            && (forall c | c in after.checkouts :: c.userId != user)
            && (forall c | c in after.charges :: c.userId != user)
            && (forall h | h in after.history :: h.userId != Some(user))
            && (forall a :: a in after.attempts <==> a in st.attempts && a.userId != user)
            && (Entitled(after, other, now) <==> other != user && Entitled(st, other, now))
  {
    var after := Anonymized(st, user, email);
    assert forall i | 0 <= i < |st.subscriptions| ::
      IsActive(after.subscriptions[i], now) == IsActive(st.subscriptions[i], now);
    forall a
      ensures a in after.attempts <==> a in st.attempts && a.userId != user
    {
      RetainedAre(st.attempts, user, a);
    }
  }
}
