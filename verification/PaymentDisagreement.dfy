/** Runs of PaymentConvergence that end differently, and with them exactly when all runs agree
    (packages/dkrypt/src/cryptoBilling.ts:145-205). */
module PaymentDisagreement {
  import opened Wrappers
  import opened Keyed
  import opened Billing
  import opened CryptoPayments
  import opened PaymentView
  import opened PaymentConvergence

  /** Nothing waiting and nothing under way. */
  ghost predicate Quiet(w: World, c: Subject, events: set<Event>) {
    Inv(w, c, events) && w.waiting == [] && w.unreleased == 0
  }

  function Serial(q: seq<Event>, clock: int): seq<Action> {
    if q == [] then [] else [Arrive(q[0]), Handle(None, clock), Release] + Serial(q[1..], clock)
  }

  /** One event delivered on its own to a quiet world. */
  lemma DeliverOne(w: World, c: Subject, events: set<Event>, e: Event) returns (after: World)
    requires Quiet(w, c, events) && e in events && e !in w.seen
    ensures Enabled(w, events, Arrive(e))
    ensures var w1 := Next(w, c, events, Arrive(e)); Enabled(w1, events, Handle(None, w.clock))
    ensures var w2 := Next(Next(w, c, events, Arrive(e)), c, events, Handle(None, w.clock));
            Enabled(w2, events, Release) && after == Next(w2, c, events, Release)
    ensures Quiet(after, c, events) && after.clock == w.clock && after.seen == w.seen + {e}
    ensures ViewOf(after.st, c) == Step(ViewOf(w.st, c), e, false)
  {
    hide Handled, Ready, Step, ViewOf;
    var w1 := Next(w, c, events, Arrive(e));
    ArriveKeeps(w, c, events, e);
    assert c.checkoutId !in w.pending;
    assert w1.waiting == [e] && w1.pending[c.checkoutId] == Observation(1, Timestamp(e.payment));
    assert Time(e) == Timestamp(e.payment).value;
    HandleKeeps(w1, c, events, None, w.clock);
    var w2 := Next(w1, c, events, Handle(None, w.clock));
    ReleaseKeeps(w2, c, events);
    after := Next(w2, c, events, Release);
    assert w2.waiting == [];
  }

  lemma SerialHead(w: World, c: Subject, events: set<Event>, q: seq<Event>)
    requires Quiet(w, c, events) && q != [] && q[0] in events && q[0] !in w.seen
    requires var w1 := Next(w, c, events, Arrive(q[0]));
             && Enabled(w1, events, Handle(None, w.clock))
             && var w2 := Next(w1, c, events, Handle(None, w.clock));
             && Enabled(w2, events, Release)
             && Valid(Next(w2, c, events, Release), c, events, Serial(q[1..], w.clock))
    ensures Valid(w, c, events, Serial(q, w.clock))
    ensures var w2 := Next(Next(w, c, events, Arrive(q[0])), c, events, Handle(None, w.clock));
            After(w, c, events, Serial(q, w.clock)) == After(Next(w2, c, events, Release), c, events, Serial(q[1..], w.clock))
  {
    hide Inv, Observed, Released, Handled;
    var run := Serial(q, w.clock);
    var w1 := Next(w, c, events, Arrive(q[0]));
    var w2 := Next(w1, c, events, Handle(None, w.clock));
    assert run[0] == Arrive(q[0]) && run[1..][0] == Handle(None, w.clock) && run[1..][1..][0] == Release;
    assert run[1..][1..][1..] == Serial(q[1..], w.clock);
    assert Valid(w2, c, events, run[1..][1..]);
    assert Valid(w1, c, events, run[1..]);
    assert After(w1, c, events, run[1..]) == After(w2, c, events, run[1..][1..]);
  }

  predicate Distinct(q: seq<Event>) {
    forall i, j | 0 <= i < j < |q| :: q[i] != q[j]
  }

  /** Events delivered one after the other keep whatever each step keeps. */
  lemma {:induction false} DeliverAll(w: World, c: Subject, events: set<Event>, q: seq<Event>, keep: View -> bool)
    requires Quiet(w, c, events) && Distinct(q) && (forall e | e in q :: e in events && e !in w.seen)
    requires keep(ViewOf(w.st, c))
    requires forall v, e | keep(v) && e in q :: keep(Step(v, e, false))
    ensures Valid(w, c, events, Serial(q, w.clock))
    ensures var last := After(w, c, events, Serial(q, w.clock));
            && Quiet(last, c, events) && last.clock == w.clock && last.seen == w.seen + (set e | e in q)
            && keep(ViewOf(last.st, c))
    decreases |q|
  {
    hide Inv, ViewOf, Step, Handled, Observed, Released;
    if q == [] {
      assert (set e | e in q) == {};
    } else {
      assert q[0] in q;
      var next := DeliverOne(w, c, events, q[0]);
      forall e | e in q[1..]
        ensures e in events && e !in next.seen
      {
        assert e in q;
      }
      DeliverAll(next, c, events, q[1..], keep);
      SerialHead(w, c, events, q);
      assert (set e | e in q) == {q[0]} + set e | e in q[1..];
    }
  }

  ghost function Listed(events: set<Event>): seq<Event>
    decreases |events|
  {
    if events == {} then []
    else
      var e :| e in events;
      [e] + Listed(events - {e})
  }

  lemma {:induction false} ListedAll(events: set<Event>)
    ensures Distinct(Listed(events)) && (forall e :: e in Listed(events) <==> e in events)
    decreases |events|
  {
    if events == {} {
    } else {
      var q := Listed(events);
      ListedAll(events - {q[0]});
      assert q == [q[0]] + Listed(events - {q[0]});
    }
  }

  lemma {:induction false} AfterConcat(w: World, c: Subject, events: set<Event>, a: seq<Action>, b: seq<Action>)
    requires Valid(w, c, events, a) && Valid(After(w, c, events, a), c, events, b)
    ensures Valid(w, c, events, a + b) && After(w, c, events, a + b) == After(After(w, c, events, a), c, events, b)
    decreases |a|
  {
    if a == [] {
      assert a + b == b;
    } else {
      assert (a + b)[1..] == a[1..] + b && (a + b)[0] == a[0];
      AfterConcat(Next(w, c, events, a[0]), c, events, a[1..], b);
    }
  }

  /** The rest of the story delivered one by one after the world went quiet. */
  lemma DeliverRest(w: World, c: Subject, events: set<Event>, keep: View -> bool) returns (run: seq<Action>)
    requires Quiet(w, c, events) && keep(ViewOf(w.st, c))
    requires forall v, e | keep(v) && e in events && e !in w.seen :: keep(Step(v, e, false))
    ensures Valid(w, c, events, run)
    ensures var last := After(w, c, events, run);
            Quiet(last, c, events) && Complete(last, events) && keep(ViewOf(last.st, c))
  {
    hide Step, ViewOf, Ready;
    var q := Listed(events - w.seen);
    ListedAll(events - w.seen);
    DeliverAll(w, c, events, q, keep);
    run := Serial(q, w.clock);
    assert w.seen + (set e | e in q) == events;
  }

  lemma DeliverHead(w: World, c: Subject, events: set<Event>, e: Event) returns (after: World)
    requires Quiet(w, c, events) && e in events && e !in w.seen
    ensures Valid(w, c, events, Serial([e], w.clock)) && after == After(w, c, events, Serial([e], w.clock))
    ensures Quiet(after, c, events) && after.clock == w.clock && after.seen == w.seen + {e}
    ensures ViewOf(after.st, c) == Step(ViewOf(w.st, c), e, false)
  {
    hide Inv, ViewOf, Step, Handled, Observed, Released;
    after := DeliverOne(w, c, events, e);
    assert [e][1..] == [];
    SerialHead(w, c, events, [e]);
  }

  lemma StartIsQuiet(w: World, c: Subject, events: set<Event>)
    requires Start(w, c, events)
    ensures Quiet(w, c, events) && w.seen == {} && ViewOf(w.st, c) == View(false, None, CheckoutOf(w.st, c).providerStatus, NoSub)
  {
  }

  /** Delivering the last event first: everything after it is out of date, so the plan is as that event left it. */
  lemma LastFirst(w: World, c: Subject, events: set<Event>, l: Event) returns (run: seq<Action>)
    requires Start(w, c, events) && Latest(l, events)
    ensures Valid(w, c, events, run)
    ensures var last := After(w, c, events, run);
            && Quiet(last, c, events) && Complete(last, events)
            && ViewOf(last.st, c).completed == Pays(l)
            && ViewOf(last.st, c).sub == if Pays(l) then PaidAt(Time(l)) else NoSub
  {
    StartIsQuiet(w, c, events);
    var v := Step(ViewOf(w.st, c), l, false);
    assert v.completed == Pays(l) && v.sub == if Pays(l) then PaidAt(Time(l)) else NoSub;
    forall e | e in events && e != l
      ensures Step(v, e, false) == v
    {
      assert Time(e) != Time(l);
    }
    hide Inv, ViewOf, Start, Step, Placed;
    var mid := DeliverHead(w, c, events, l);
    var rest := DeliverRest(mid, c, events, (u: View) => u == v);
    AfterConcat(w, c, events, Serial([l], w.clock), rest);
    run := Serial([l], w.clock) + rest;
  }

  /** A payment first, and then all the rest: the checkout stays completed and takes no other payment. */
  lemma PaymentFirst(w: World, c: Subject, events: set<Event>, f: Event) returns (run: seq<Action>)
    requires Start(w, c, events) && f in events && Pays(f)
    ensures Valid(w, c, events, run)
    ensures var last := After(w, c, events, run);
            Quiet(last, c, events) && Complete(last, events) && PaidOnce(ViewOf(last.st, c), f)
  {
    StartIsQuiet(w, c, events);
    assert PaidOnce(Step(ViewOf(w.st, c), f, false), f);
    forall v: View, e: Event | PaidOnce(v, f)
      ensures PaidOnce(Step(v, e, false), f)
    {
    }
    hide Inv, ViewOf, Start, Step, Placed, After, Valid, Serial, PaidOnce;
    var paid := DeliverHead(w, c, events, f);
    var rest := DeliverRest(paid, c, events, (v: View) => PaidOnce(v, f));
    AfterConcat(w, c, events, Serial([f], w.clock), rest);
    run := Serial([f], w.clock) + rest;
  }

  /** Completed, with the subscription this payment started or one revoked. */
  predicate PaidOnce(v: View, f: Event) {
    v.completed && (v.sub == PaidAt(Time(f)) || v.sub.Dead?)
  }

  /** A payment, then the later refund, then the rest: a completed checkout takes no other payment. */
  lemma PaymentThenRefund(w: World, c: Subject, events: set<Event>, f: Event, r: Event) returns (run: seq<Action>)
    requires Start(w, c, events) && f in events && r in events && Pays(f) && Refunds(r) && Time(f) < Time(r)
    ensures Valid(w, c, events, run)
    ensures var last := After(w, c, events, run);
            Quiet(last, c, events) && Complete(last, events) && !ViewOf(last.st, c).sub.Live?
  {
    StartIsQuiet(w, c, events);
    assert Step(Step(ViewOf(w.st, c), f, false), r, false) == View(true, Some(Time(r)), r.payment.status, Dead(Time(r)));
    forall v: View, e: Event | v.completed && v.sub.Dead?
      ensures Step(v, e, false).completed && Step(v, e, false).sub.Dead?
    {
    }
    hide Inv, ViewOf, Start, Step, Placed, After, Valid, Serial;
    var paid := DeliverHead(w, c, events, f);
    var back := DeliverHead(paid, c, events, r);
    var rest := DeliverRest(back, c, events, (v: View) => v.completed && v.sub.Dead?);
    AfterConcat(paid, c, events, Serial([r], w.clock), rest);
    AfterConcat(w, c, events, Serial([f], w.clock), Serial([r], w.clock) + rest);
    run := Serial([f], w.clock) + (Serial([r], w.clock) + rest);
  }

  function Arrivals(q: seq<Event>): seq<Action> {
    if q == [] then [] else [Arrive(q[0])] + Arrivals(q[1..])
  }

  /** Handling what waits, one delivery after the other, each given up before the next is handled. */
  function Handlings(n: nat, clock: int): seq<Action> {
    if n == 0 then [] else [Handle(None, clock), Release] + Handlings(n - 1, clock)
  }

  lemma ArriveFirst(w: World, c: Subject, events: set<Event>, e: Event, rest: seq<Action>)
    requires e in events && Valid(Next(w, c, events, Arrive(e)), c, events, rest)
    ensures Valid(w, c, events, [Arrive(e)] + rest)
    ensures After(w, c, events, [Arrive(e)] + rest) == After(Next(w, c, events, Arrive(e)), c, events, rest)
  {
    hide Next;
    assert ([Arrive(e)] + rest)[1..] == rest;
  }

  lemma {:induction false} ArriveAll(w: World, c: Subject, events: set<Event>, q: seq<Event>)
    requires Inv(w, c, events) && forall e | e in q :: e in events
    ensures Valid(w, c, events, Arrivals(q))
    ensures var last := After(w, c, events, Arrivals(q));
            Inv(last, c, events) && last == w.(pending := last.pending, waiting := w.waiting + q)
    decreases |q|
  {
    hide Inv, Observed, Handled, Released;
    if q == [] {
      assert w.waiting + q == w.waiting;
    } else {
      assert q[0] in q;
      ArriveKeeps(w, c, events, q[0]);
      var next := Next(w, c, events, Arrive(q[0]));
      ArriveAll(next, c, events, q[1..]);
      ArriveFirst(w, c, events, q[0], Arrivals(q[1..]));
      hide Next;
      assert Arrivals(q) == [Arrive(q[0])] + Arrivals(q[1..]);
      assert next.waiting + q[1..] == w.waiting + q;
    }
  }

  /** While anything waits that arrived together with the last event, the last event's time is held, and every
      other event is superseded and leaves the view alone. */
  lemma {:induction false} HandleAll(w: World, c: Subject, events: set<Event>, l: Event, keep: View -> bool)
    requires Inv(w, c, events) && Latest(l, events) && keep(ViewOf(w.st, c)) && w.unreleased == 0
    requires w.waiting != [] ==> c.checkoutId in w.pending && w.pending[c.checkoutId].latest == Some(Time(l))
    requires forall v | keep(v) :: keep(Step(v, l, false)) && keep(Step(v, l, true))
    ensures Valid(w, c, events, Handlings(|w.waiting|, w.clock))
    ensures var last := After(w, c, events, Handlings(|w.waiting|, w.clock));
            && Quiet(last, c, events) && last.seen == w.seen + (set e | e in w.waiting)
            && keep(ViewOf(last.st, c))
    decreases |w.waiting|
  {
    hide Inv, Handled, ViewOf, Superseded, Latest, Released;
    if w.waiting == [] {
      assert (set e | e in w.waiting) == {};
    } else {
      var e := w.waiting[0];
      HandleOne(w, c, events, l, keep);
      var mid := Next(w, c, events, Handle(None, w.clock));
      var next := Next(mid, c, events, Release);
      HandleAll(next, c, events, l, keep);
      var run := Handlings(|w.waiting|, w.clock);
      assert run[0] == Handle(None, w.clock) && run[1..][0] == Release;
      assert run[1..][1..] == Handlings(|next.waiting|, w.clock);
      assert Valid(mid, c, events, run[1..]);
      assert After(mid, c, events, run[1..]) == After(next, c, events, run[1..][1..]);
      assert w.waiting == [e] + next.waiting;
      assert (set x | x in w.waiting) == {e} + set x | x in next.waiting;
    }
  }

  lemma HandleOne(w: World, c: Subject, events: set<Event>, l: Event, keep: View -> bool)
    requires Inv(w, c, events) && Latest(l, events) && keep(ViewOf(w.st, c)) && w.unreleased == 0
    requires w.waiting != [] && c.checkoutId in w.pending && w.pending[c.checkoutId].latest == Some(Time(l))
    requires forall v | keep(v) :: keep(Step(v, l, false)) && keep(Step(v, l, true))
    ensures var mid := Next(w, c, events, Handle(None, w.clock));
            && mid.unreleased == 1
            && var next := Next(mid, c, events, Release);
            && Inv(next, c, events) && keep(ViewOf(next.st, c)) && next.waiting == w.waiting[1..] && next.unreleased == 0
            && next.seen == w.seen + {w.waiting[0]} && next.clock == w.clock
            && (next.waiting != [] ==> c.checkoutId in next.pending && next.pending[c.checkoutId].latest == Some(Time(l)))
  {
    var e := w.waiting[0];
    assert e in w.waiting;
    OthersSuperseded(w, c, events, e, l);
    StillObserved(w, c, events);
    hide Inv, Handled, ViewOf, Superseded, Latest, Released;
    HandleKeeps(w, c, events, None, w.clock);
    ReleaseKeeps(Next(w, c, events, Handle(None, w.clock)), c, events);
  }

  /** Giving up one observation of several leaves the time noted. */
  lemma StillObserved(w: World, c: Subject, events: set<Event>)
    requires Inv(w, c, events) && |w.waiting| > 0 && w.unreleased == 0
    ensures |w.waiting| > 1 ==>
              && c.checkoutId in Released(w.pending, c.checkoutId)
              && Released(w.pending, c.checkoutId)[c.checkoutId].latest == w.pending[c.checkoutId].latest
  {
  }

  lemma OthersSuperseded(w: World, c: Subject, events: set<Event>, e: Event, l: Event)
    requires Inv(w, c, events) && Latest(l, events) && e in w.waiting
    requires c.checkoutId in w.pending && w.pending[c.checkoutId].latest == Some(Time(l))
    ensures e in events && (e != l ==> Superseded(w.pending, c.checkoutId, e.payment))
  {
    assert e != l ==> Time(e) != Time(l);
  }

  /** A payment, then all the rest at once with the last event in front: refunds are superseded, and the last
      event, no payment and no refund, is ignored. */
  lemma PaymentThenOverlap(w: World, c: Subject, events: set<Event>, f: Event, l: Event) returns (run: seq<Action>)
    requires Start(w, c, events) && Latest(l, events) && f in events && Pays(f) && !Pays(l) && !Refunds(l)
    ensures Valid(w, c, events, run)
    ensures var last := After(w, c, events, run);
            Inv(last, c, events) && Complete(last, events) && ViewOf(last.st, c).sub.Live?
  {
    hide ViewOf, Start, Step, Ready, Inv, Latest, After, Valid, Serial, Complete, Placed, Story;
    PaidStaysLive(w, c, events, f, l);
    var keep := PaidAndLive;
    var paid := DeliverHead(w, c, events, f);
    var q := LastThenOthers(events, f, l);
    var rest := Overlap(paid, c, events, q, l, keep);
    AfterConcat(w, c, events, Serial([f], w.clock), rest);
    run := Serial([f], w.clock) + rest;
    assert w.seen + {f} == {f};
    LivePlan(After(w, c, events, run), c, events, {f} + set e | e in q);
  }

  predicate PaidAndLive(v: View) {
    v.completed && v.sub.Live?
  }

  lemma PaidStaysLive(w: World, c: Subject, events: set<Event>, f: Event, l: Event)
    requires Start(w, c, events) && f in events && Latest(l, events) && Pays(f) && !Pays(l) && !Refunds(l)
    ensures l in events
    ensures Quiet(w, c, events) && w.seen == {}
    ensures PaidAndLive(Step(ViewOf(w.st, c), f, false))
    ensures forall v | PaidAndLive(v) :: PaidAndLive(Step(v, l, false)) && PaidAndLive(Step(v, l, true))
  {
    StartIsQuiet(w, c, events);
  }

  lemma LivePlan(w: World, c: Subject, events: set<Event>, seen: set<Event>)
    requires Inv(w, c, events) && PaidAndLive(ViewOf(w.st, c)) && w.waiting == [] && w.seen == seen == events
    ensures Complete(w, events) && ViewOf(w.st, c).sub.Live?
  {
  }

  lemma LastThenOthers(events: set<Event>, f: Event, l: Event) returns (q: seq<Event>)
    requires l in events && f in events
    ensures q != [] && q[0] == l && (forall e | e in q :: e in events) && {f} + (set e | e in q) == events
  {
    var others := Listed(events - {f, l});
    ListedAll(events - {f, l});
    q := [l] + others;
    forall e | e in events
      ensures e == f || e in q
    {
      assert e == f || e == l || e in events - {f, l};
      assert e in others ==> e in q;
      assert l == q[0];
    }
  }

  /** A queue with the last event in front, all of it arriving before any of it is handled. */
  lemma Overlap(w: World, c: Subject, events: set<Event>, q: seq<Event>, l: Event, keep: View -> bool) returns (run: seq<Action>)
    requires Quiet(w, c, events) && Latest(l, events) && keep(ViewOf(w.st, c))
    requires q != [] && q[0] == l && forall e | e in q :: e in events
    requires forall v | keep(v) :: keep(Step(v, l, false)) && keep(Step(v, l, true))
    ensures Valid(w, c, events, run)
    ensures var last := After(w, c, events, run);
            && Quiet(last, c, events) && last.seen == w.seen + (set e | e in q)
            && keep(ViewOf(last.st, c))
  {
    hide ViewOf, Step, Ready;
    ArriveAll(w, c, events, q);
    var queued := After(w, c, events, Arrivals(q));
    assert queued.waiting == q && l in queued.waiting;
    assert queued.pending[c.checkoutId].latest == Some(Time(l)) by { LastObserved(queued, c, events, l); }
    hide Inv, Latest;
    HandleAll(queued, c, events, l, keep);
    var all := Handlings(|q|, queued.clock);
    AfterConcat(w, c, events, Arrivals(q), all);
    run := Arrivals(q) + all;
  }

  lemma LastObserved(w: World, c: Subject, events: set<Event>, l: Event)
    requires Inv(w, c, events) && Latest(l, events) && l in w.waiting
    ensures c.checkoutId in w.pending && w.pending[c.checkoutId].latest == Some(Time(l))
  {
  }

  lemma RunsDisagree(w: World, c: Subject, events: set<Event>, a: seq<Action>, b: seq<Action>)
    requires Valid(w, c, events, a) && Complete(After(w, c, events, a), events)
    requires Valid(w, c, events, b) && Complete(After(w, c, events, b), events)
    requires PlanActive(After(w, c, events, a).st, c, 0) != PlanActive(After(w, c, events, b).st, c, 0)
    ensures forall active :: !Settles(w, c, events, active)
  {
    hide PlanActive;
  }

  lemma LiveIsActive(w: World, c: Subject, events: set<Event>)
    requires Inv(w, c, events)
    ensures PlanActive(w.st, c, 0) <==> ViewOf(w.st, c).sub.Live?
  {
    ViewDecides(w.st, c, events, 0);
  }

  lemma UndecidedDisagrees(w: World, c: Subject, events: set<Event>, l: Event)
    requires Start(w, c, events) && Latest(l, events) && !Decided(l, events)
    ensures forall active :: !Settles(w, c, events, active)
  {
    var a := LastFirst(w, c, events, l);
    var b;
    if Pays(l) {
      var f, r :| f in events && r in events && Pays(f) && Refunds(r) && Time(f) < Time(r);
      b := PaymentThenRefund(w, c, events, f, r);
    } else {
      var f :| f in events && Pays(f);
      b := PaymentThenOverlap(w, c, events, f, l);
    }
    hide Start, Settles, ViewOf, Inv, Latest, PlanActive, Valid;
    LiveIsActive(After(w, c, events, a), c, events) by { QuietIsInv(After(w, c, events, a), c, events); }
    LiveIsActive(After(w, c, events, b), c, events);
    RunsDisagree(w, c, events, a, b);
  }

  lemma QuietIsInv(w: World, c: Subject, events: set<Event>)
    requires Quiet(w, c, events)
    ensures Inv(w, c, events)
  {
  }

  /** Delivery order, repeats and overlaps make no difference to the plan exactly when the last event decides:
      a refund, or a payment with no refund later than any payment, or anything else when nothing was paid. */
  lemma AgreesExactlyWhenDecided(w: World, c: Subject, events: set<Event>)
    requires Start(w, c, events)
    ensures (exists active :: Settles(w, c, events, active))
            <==> events == {} || exists l :: Latest(l, events) && Decided(l, events)
  {
    hide Start, Settles, Inv;
    if events == {} {
      NothingSettles(w, c);
    } else {
      var l := LatestExists(events);
      if Decided(l, events) {
        DecidedSettles(w, c, events, l);
      } else {
        UndecidedDisagrees(w, c, events, l);
        forall m | Latest(m, events)
          ensures m == l
        {
          assert Time(m) == Time(l);
          OneLatest(w, c, events, l, m);
        }
      }
    }
  }

  lemma OneLatest(w: World, c: Subject, events: set<Event>, l: Event, m: Event)
    requires Start(w, c, events) && l in events && m in events && Time(l) == Time(m)
    ensures l == m
  {
  }

  lemma NothingSettles(w: World, c: Subject)
    requires Start(w, c, {})
    ensures Settles(w, c, {}, false)
  {
    forall run, t | Valid(w, c, {}, run) && Complete(After(w, c, {}, run), {})
      ensures !PlanActive(After(w, c, {}, run).st, c, t)
    {
      assert run == [];
    }
  }
}
