/** Every way of delivering one payment's events: in any order, repeated and overlapping
    (packages/dkrypt/src/cryptoBilling.ts:145-205). Deliveries arrive at any time, wait for their key's
    lock in arrival order, are handled one at a time, and give up their observation some time after. */
module PaymentConvergence {
  import opened Wrappers
  import opened Keyed
  import opened Billing
  import opened BillingInvariants
  import opened CryptoPayments
  import opened PaymentView

  datatype World = World(st: Stores, pending: Pending, waiting: seq<Event>, unreleased: nat, clock: int, seen: set<Event>)

  datatype Action = Arrive(event: Event) | Handle(fetched: Option<Payment>, now: int) | Release

  ghost predicate Enabled(w: World, events: set<Event>, a: Action) {
    match a
    case Arrive(e) => e in events
    case Handle(_, now) => w.waiting != [] && w.clock <= now
    case Release => w.unreleased > 0
  }

  ghost function Next(w: World, c: Subject, events: set<Event>, a: Action): World
    requires Enabled(w, events, a)
  {
    match a
    case Arrive(e) => w.(pending := Observed(w.pending, c.checkoutId, e.payment), waiting := w.waiting + [e])
    case Handle(fetched, now) =>
      w.(st := Handled(w.st, w.pending, c.checkoutId, w.waiting[0], fetched, now), waiting := w.waiting[1..],
         unreleased := w.unreleased + 1, clock := now, seen := w.seen + {w.waiting[0]})
    case Release => w.(pending := Released(w.pending, c.checkoutId), unreleased := w.unreleased - 1)
  }

  ghost predicate Valid(w: World, c: Subject, events: set<Event>, run: seq<Action>)
    decreases |run|
  {
    run != [] ==> Enabled(w, events, run[0]) && Valid(Next(w, c, events, run[0]), c, events, run[1..])
  }

  ghost function After(w: World, c: Subject, events: set<Event>, run: seq<Action>): World
    requires Valid(w, c, events, run)
    decreases |run|
  {
    if run == [] then w else After(Next(w, c, events, run[0]), c, events, run[1..])
  }

  /** Every event was handled at least once and none is waiting. */
  ghost predicate Complete(w: World, events: set<Event>) {
    w.waiting == [] && w.seen == events
  }

  /** A fresh pending checkout, no subscription for the payment yet, nothing delivered or under way. */
  ghost predicate Start(w: World, c: Subject, events: set<Event>) {
    && Story(c, events) && Placed(w.st, c, events)
    && CheckoutOf(w.st, c).status.CheckoutPending? && CheckoutOf(w.st, c).providerOccurredAt.None?
    && CheckoutOf(w.st, c).updatedAt <= w.clock
    && ById(w.st.subscriptions, c.SubscriptionId()).None?
    && (forall e | e in events :: !Has(w.st.events, EventKey, (NowPayments, e.id.value)))
    && c.checkoutId !in w.pending && w.waiting == [] && w.unreleased == 0 && w.seen == {}
  }

  /** The payment's subscription gives its plan at time t. */
  predicate PlanActive(st: Stores, c: Subject, t: int) {
    var s := ById(st.subscriptions, c.SubscriptionId());
    s.Some? && IsActive(s.value, t)
  }

  // ---------------------------------------------------------------- what every run keeps

  ghost predicate Watched(w: World, c: Subject, events: set<Event>) {
    && (c.checkoutId in w.pending <==> |w.waiting| + w.unreleased > 0)
    && (c.checkoutId in w.pending ==>
          var o := w.pending[c.checkoutId];
          && o.count == |w.waiting| + w.unreleased
          && o.latest.Some? && (exists e :: e in events && Time(e) == o.latest.value)
          && (forall e | e in w.waiting :: Time(e) <= o.latest.value))
  }

  ghost predicate Inv(w: World, c: Subject, events: set<Event>) {
    && Story(c, events) && Ready(w.st, c, events, w.clock)
    && (forall e | e in w.waiting :: e in events) && w.seen <= events
    && (forall e | e in events && e !in w.seen :: !Has(w.st.events, EventKey, (NowPayments, e.id.value)))
    && Watched(w, c, events)
  }

  /** The key deliveries queue under is the checkout's id throughout. */
  lemma KeyIsCheckout(w: World, c: Subject, events: set<Event>, e: Event)
    requires Inv(w, c, events) && e in events
    ensures PaymentKey(w.st.checkouts, e) == c.checkoutId
  {
  }

  lemma ArriveKeeps(w: World, c: Subject, events: set<Event>, e: Event)
    requires Inv(w, c, events) && e in events
    ensures Inv(Next(w, c, events, Arrive(e)), c, events)
  {
    hide Ready;
    var after := Next(w, c, events, Arrive(e));
    assert Time(e) == Timestamp(e.payment).value;
    assert forall f | f in after.waiting :: f in w.waiting || f == e;
    assert after.pending[c.checkoutId].latest.value == Time(e)
      || (c.checkoutId in w.pending && after.pending[c.checkoutId].latest == w.pending[c.checkoutId].latest);
  }

  lemma ReleaseKeeps(w: World, c: Subject, events: set<Event>)
    requires Inv(w, c, events) && w.unreleased > 0
    ensures Inv(Next(w, c, events, Release), c, events)
  {
  }

  lemma RecordElsewhere(events: seq<EventRecord>, r: EventRecord, k: (Provider, string))
    requires Unique(events, EventKey) && EventKey(r) != k && !Has(events, EventKey, k)
    ensures !Has(RecordedEvent(events, r), EventKey, k)
  {
  }

  /** One handling moves the view by Step, or, for a repeat, not at all. */
  ghost predicate Moves(w: World, c: Subject, events: set<Event>, v: View)
    requires Inv(w, c, events) && w.waiting != []
  {
    var e := w.waiting[0];
    || v == Step(ViewOf(w.st, c), e, Superseded(w.pending, c.checkoutId, e.payment))
    || (e in w.seen && v == ViewOf(w.st, c))
  }

  lemma HandleKeeps(w: World, c: Subject, events: set<Event>, fetched: Option<Payment>, now: int)
    requires Inv(w, c, events) && w.waiting != [] && w.clock <= now
    ensures var after := Next(w, c, events, Handle(fetched, now));
            Inv(after, c, events) && Moves(w, c, events, ViewOf(after.st, c))
  {
    hide Handled, RecordedEvent, Placed;
    var e := w.waiting[0];
    var after := Next(w, c, events, Handle(fetched, now));
    if Has(w.st.events, EventKey, (NowPayments, e.id.value)) {
      HandledAgain(w.st, w.pending, c.checkoutId, e, fetched, now);
    } else {
      HandledStep(w.st, w.pending, c, events, e, fetched, now);
      var r := EventRecord(NowPayments, e.id.value, Time(e), now);
      forall f | f in events && f !in after.seen
        ensures !Has(after.st.events, EventKey, (NowPayments, f.id.value))
      {
        RecordElsewhere(w.st.events, r, (NowPayments, f.id.value)) by { assert Placed(w.st, c, events); PlacedUnique(w.st, c, events); }
      }
    }
    assert forall f | f in after.waiting :: f in w.waiting;
  }

  lemma PlacedUnique(st: Stores, c: Subject, events: set<Event>)
    requires Placed(st, c, events)
    ensures Unique(st.events, EventKey)
  {
  }

  // ---------------------------------------------------------------- what the last event decides

  ghost predicate Latest(l: Event, events: set<Event>) {
    l in events && forall e | e in events :: Time(e) <= Time(l)
  }

  /** A refund in the story that is later than a payment in it. */
  ghost predicate RefundAfterPayment(events: set<Event>) {
    exists f, r :: f in events && r in events && Pays(f) && Refunds(r) && Time(f) < Time(r)
  }

  ghost predicate Paid(events: set<Event>) {
    exists f :: f in events && Pays(f)
  }

  /** What a story with last event l keeps true of the view, from the start to any point where the events in
      `seen` have been handled. */
  ghost predicate OnCourse(v: View, seen: set<Event>, l: Event, events: set<Event>) {
    if Refunds(l) then
      l in seen ==> v.at == Some(Time(l)) && !v.sub.Live?
    else if Pays(l) then
      && (v.completed ==> v.sub.Live? && v.at.Some? && exists f :: f in events && Pays(f) && Time(f) <= v.at.value)
      && (l in seen ==> v.completed)
    else
      !v.completed
  }

  /** The stories in which the last event decides. */
  ghost predicate Decided(l: Event, events: set<Event>) {
    Refunds(l) || if Pays(l) then !RefundAfterPayment(events) else !Paid(events)
  }

  /** A condition on the view and the events handled so far that every handling keeps; the last event is never
      superseded. */
  ghost predicate Course(course: (View, set<Event>) -> bool, l: Event, events: set<Event>) {
    forall v, seen, e, superseded | Coherent(v, events) && course(v, seen) && e in events && (e == l ==> !superseded) ::
      course(Step(v, e, superseded), seen + {e})
  }

  lemma DecidedIsCourse(c: Subject, events: set<Event>, l: Event)
    requires Story(c, events) && Latest(l, events) && Decided(l, events)
    ensures Course((v, seen) => OnCourse(v, seen, l, events), l, events)
  {
    forall v, seen, e, superseded | Coherent(v, events) && OnCourse(v, seen, l, events) && e in events && (e == l ==> !superseded)
      ensures OnCourse(Step(v, e, superseded), seen + {e}, l, events)
    {
      StepOnCourse(v, seen, e, superseded, l, c, events);
    }
  }

  lemma StepOnCourse(v: View, seen: set<Event>, e: Event, superseded: bool, l: Event, c: Subject, events: set<Event>)
    requires Story(c, events) && Coherent(v, events) && Latest(l, events) && e in events && Decided(l, events)
    requires OnCourse(v, seen, l, events) && (e == l ==> !superseded)
    ensures OnCourse(Step(v, e, superseded), seen + {e}, l, events)
  {
  }

  lemma HandleOnCourse(w: World, c: Subject, events: set<Event>, fetched: Option<Payment>, now: int, l: Event,
                       course: (View, set<Event>) -> bool)
    requires Inv(w, c, events) && w.waiting != [] && w.clock <= now
    requires Latest(l, events) && Course(course, l, events) && course(ViewOf(w.st, c), w.seen)
    ensures var after := Next(w, c, events, Handle(fetched, now));
            Inv(after, c, events) && course(ViewOf(after.st, c), after.seen)
  {
    hide Handled, Placed, Step, Coherent;
    var e := w.waiting[0];
    HandleKeeps(w, c, events, fetched, now);
    assert e in w.waiting;
    var after := Next(w, c, events, Handle(fetched, now));
    if e in w.seen {
      assert w.seen + {e} == w.seen;
    }
  }

  lemma {:induction false} RunOnCourse(w: World, c: Subject, events: set<Event>, run: seq<Action>, l: Event,
                                       course: (View, set<Event>) -> bool)
    requires Inv(w, c, events) && Valid(w, c, events, run)
    requires Latest(l, events) && Course(course, l, events) && course(ViewOf(w.st, c), w.seen)
    ensures var last := After(w, c, events, run); Inv(last, c, events) && course(ViewOf(last.st, c), last.seen)
    decreases |run|
  {
    hide Inv, Course, Latest;
    if run == [] {
    } else {
      var next := Next(w, c, events, run[0]);
      match run[0] {
        case Arrive(e) => ArriveKeeps(w, c, events, e);
        case Release => ReleaseKeeps(w, c, events);
        case Handle(fetched, now) => HandleOnCourse(w, c, events, fetched, now, l, course);
      }
      RunOnCourse(next, c, events, run[1..], l, course);
    }
  }

  lemma {:induction false} RunKeeps(w: World, c: Subject, events: set<Event>, run: seq<Action>)
    requires Inv(w, c, events) && Valid(w, c, events, run)
    ensures Inv(After(w, c, events, run), c, events)
    decreases |run|
  {
    hide Inv;
    if run == [] {
    } else {
      match run[0] {
        case Arrive(e) => ArriveKeeps(w, c, events, e);
        case Release => ReleaseKeeps(w, c, events);
        case Handle(fetched, now) => HandleKeeps(w, c, events, fetched, now);
      }
      RunKeeps(Next(w, c, events, run[0]), c, events, run[1..]);
    }
  }

  lemma StartOnCourse(w: World, c: Subject, events: set<Event>, l: Event)
    requires Start(w, c, events)
    ensures Inv(w, c, events) && OnCourse(ViewOf(w.st, c), w.seen, l, events)
  {
  }

  lemma ViewDecides(st: Stores, c: Subject, events: set<Event>, t: int)
    requires Placed(st, c, events) && !ViewOf(st, c).sub.Graced?
    ensures PlanActive(st, c, t) <==> ViewOf(st, c).sub.Live?
  {
  }

  lemma CompletedIsViewed(st: Stores, c: Subject, events: set<Event>)
    requires Placed(st, c, events)
    ensures Completed(st, c.checkoutId) <==> ViewOf(st, c).completed
  {
  }

  lemma {:induction false} LatestExists(events: set<Event>) returns (l: Event)
    requires events != {}
    ensures Latest(l, events)
    decreases |events|
  {
    var e :| e in events;
    var rest := events - {e};
    if rest == {} {
      l := e;
    } else {
      var m := LatestExists(rest);
      l := if Time(m) <= Time(e) then e else m;
    }
    forall f | f in events
      ensures Time(f) <= Time(l)
    {
      assert f == e || f in rest;
    }
  }

  /** Every complete run leaves the plan active, at every time, or not, as `active` says. */
  ghost predicate Settles(w: World, c: Subject, events: set<Event>, active: bool) {
    forall run, t | Valid(w, c, events, run) && Complete(After(w, c, events, run), events) ::
      PlanActive(After(w, c, events, run).st, c, t) == active
  }

  lemma DecidedRun(w: World, c: Subject, events: set<Event>, run: seq<Action>, l: Event, t: int)
    requires Start(w, c, events) && Latest(l, events) && Decided(l, events)
    requires Valid(w, c, events, run) && Complete(After(w, c, events, run), events)
    ensures PlanActive(After(w, c, events, run).st, c, t) == Pays(l)
    ensures Pays(l) ==> Completed(After(w, c, events, run).st, c.checkoutId)
  {
    StartOnCourse(w, c, events, l);
    DecidedIsCourse(c, events, l);
    hide Start, Placed, PlanActive, Course;
    RunOnCourse(w, c, events, run, l, (v, seen) => OnCourse(v, seen, l, events));
    ViewDecides(After(w, c, events, run).st, c, events, t);
    CompletedIsViewed(After(w, c, events, run).st, c, events);
  }

  lemma DecidedSettles(w: World, c: Subject, events: set<Event>, l: Event)
    requires Start(w, c, events) && Latest(l, events) && Decided(l, events)
    ensures Settles(w, c, events, Pays(l))
  {
    hide Start, PlanActive, Latest, Decided;
    forall run, t | Valid(w, c, events, run) && Complete(After(w, c, events, run), events)
      ensures PlanActive(After(w, c, events, run).st, c, t) == Pays(l)
    {
      DecidedRun(w, c, events, run, l, t);
    }
  }

  /** When the last event is a supported payment and none is a refund, every complete run ends with the
      checkout completed and the plan active. */
  lemma FinishedLast(w: World, c: Subject, events: set<Event>, run: seq<Action>, l: Event, t: int)
    requires Start(w, c, events) && Latest(l, events) && Pays(l) && (forall e | e in events :: !Refunds(e))
    requires Valid(w, c, events, run) && Complete(After(w, c, events, run), events)
    ensures Completed(After(w, c, events, run).st, c.checkoutId)
    ensures PlanActive(After(w, c, events, run).st, c, t)
  {
    DecidedRun(w, c, events, run, l, t);
  }

  /** When the last event is a refund, every complete run ends with no active plan. */
  lemma RefundedLast(w: World, c: Subject, events: set<Event>, run: seq<Action>, l: Event, t: int)
    requires Start(w, c, events) && Latest(l, events) && Refunds(l)
    requires Valid(w, c, events, run) && Complete(After(w, c, events, run), events)
    ensures !PlanActive(After(w, c, events, run).st, c, t)
  {
    DecidedRun(w, c, events, run, l, t);
  }

  /** There are such starting states: a store with one fresh checkout, and any story that names it by order id. */
  lemma StartExists(c: Subject, events: set<Event>, invoice: Option<string>, userId: string, planId: string, created: int)
    requires Story(c, events) && forall e | e in events :: e.payment.orderId == Some(c.checkoutId)
    ensures var co := Checkout(NowPayments, c.checkoutId, invoice, None, userId, planId, CheckoutPending, None, None, created);
            Start(World(Stores([], [], [co], [], [], [], []), map[], [], 0, created, {}), c, events)
  {
    var co := Checkout(NowPayments, c.checkoutId, invoice, None, userId, planId, CheckoutPending, None, None, created);
    FirstIndexIs([co], CheckoutKey, c.checkoutId, 0);
  }
}
