/** What all runs of PaymentConvergence agree on beyond the plan's being active: everything, the subscription with
    its period, or the checkout's completion (packages/dkrypt/src/cryptoBilling.ts:145-205). */
module PaymentAgreement {
  import opened Wrappers
  import opened CryptoPayments
  import opened PaymentView
  import opened PaymentConvergence
  import opened PaymentDisagreement

  /** Every event was handled in this run. */
  ghost predicate Whole(w: World, c: Subject, events: set<Event>, run: seq<Action>) {
    Valid(w, c, events, run) && Complete(After(w, c, events, run), events)
  }

  /** What the stores show of the checkout and its subscription when the run is over. */
  ghost function EndView(w: World, c: Subject, events: set<Event>, run: seq<Action>): View
    requires Start(w, c, events) && Valid(w, c, events, run)
  {
    StartIsQuiet(w, c, events);
    RunKeeps(w, c, events, run);
    ViewOf(After(w, c, events, run).st, c)
  }

  /** Delivery order, repeats and overlaps make no difference to `part` of the outcome. */
  ghost predicate Agree<T>(w: World, c: Subject, events: set<Event>, part: View -> T)
    requires Start(w, c, events)
  {
    forall a, b | Whole(w, c, events, a) && Whole(w, c, events, b) ::
      part(EndView(w, c, events, a)) == part(EndView(w, c, events, b))
  }

  /** Nothing was paid, or the last event is the only payment. */
  ghost predicate PaidOnceLast(events: set<Event>) {
    !Paid(events) || exists l :: Latest(l, events) && Pays(l) && forall f | f in events && Pays(f) :: f == l
  }

  /** Nothing was paid, or the last event is a payment. */
  ghost predicate PaidLast(events: set<Event>) {
    !Paid(events) || exists l :: Latest(l, events) && Pays(l)
  }

  // ---------------------------------------------------------------- what is settled

  /** What the last event leaves when it is the only payment, or nothing was paid. */
  function Final(l: Event): View {
    View(Pays(l), Some(Time(l)), l.payment.status, if Pays(l) then PaidAt(Time(l)) else NoSub)
  }

  /** No other event of the story pays. */
  ghost predicate NoOtherPays(l: Event, events: set<Event>) {
    forall f | f in events && Pays(f) :: f == l
  }

  predicate OnFinalCourse(v: View, seen: set<Event>, l: Event) {
    l in seen || v.completed ==> v == Final(l)
  }

  lemma FinalIsCourse(c: Subject, events: set<Event>, l: Event)
    requires Story(c, events) && Latest(l, events) && NoOtherPays(l, events)
    ensures Course((v, seen) => OnFinalCourse(v, seen, l), l, events)
  {
    forall v, seen, e, superseded | Coherent(v, events) && OnFinalCourse(v, seen, l) && e in events && (e == l ==> !superseded)
      ensures OnFinalCourse(Step(v, e, superseded), seen + {e}, l)
    {
      FinalStep(c, events, l, v, seen, e, superseded);
    }
  }

  lemma FinalStep(c: Subject, events: set<Event>, l: Event, v: View, seen: set<Event>, e: Event, superseded: bool)
    requires Story(c, events) && Latest(l, events) && NoOtherPays(l, events)
    requires Coherent(v, events) && OnFinalCourse(v, seen, l) && e in events && (e == l ==> !superseded)
    ensures OnFinalCourse(Step(v, e, superseded), seen + {e}, l)
  {
    assert e != l ==> Time(e) < Time(l);
  }

  predicate OnCompletedCourse(v: View, seen: set<Event>, l: Event) {
    l in seen ==> v.completed
  }

  lemma CompletedIsCourse(c: Subject, events: set<Event>, l: Event)
    requires Story(c, events) && Latest(l, events) && Pays(l)
    ensures Course((v, seen) => OnCompletedCourse(v, seen, l), l, events)
  {
    forall v, seen, e, superseded | Coherent(v, events) && OnCompletedCourse(v, seen, l) && e in events && (e == l ==> !superseded)
      ensures OnCompletedCourse(Step(v, e, superseded), seen + {e}, l)
    {
    }
  }

  lemma FinalRun(w: World, c: Subject, events: set<Event>, run: seq<Action>, l: Event)
    requires Start(w, c, events) && Whole(w, c, events, run) && Latest(l, events) && NoOtherPays(l, events)
    ensures EndView(w, c, events, run) == Final(l)
  {
    StartIsQuiet(w, c, events);
    FinalIsCourse(c, events, l);
    hide Start, Course;
    RunOnCourse(w, c, events, run, l, (v, seen) => OnFinalCourse(v, seen, l));
  }

  lemma CompletedRun(w: World, c: Subject, events: set<Event>, run: seq<Action>, l: Event)
    requires Start(w, c, events) && Whole(w, c, events, run) && Latest(l, events) && Pays(l)
    ensures EndView(w, c, events, run).completed
  {
    StartIsQuiet(w, c, events);
    CompletedIsCourse(c, events, l);
    hide Start, Course;
    RunOnCourse(w, c, events, run, l, (v, seen) => OnCompletedCourse(v, seen, l));
  }

  lemma EmptyRun(w: World, c: Subject, run: seq<Action>)
    requires Start(w, c, {}) && Whole(w, c, {}, run)
    ensures EndView(w, c, {}, run) == ViewOf(w.st, c)
  {
    assert run == [];
  }

  /** With nothing paid, or only by the last event, every whole run ends in the same view. */
  lemma {:induction false} PaidOnceLastAgrees(w: World, c: Subject, events: set<Event>, a: seq<Action>, b: seq<Action>)
    requires Start(w, c, events) && PaidOnceLast(events) && Whole(w, c, events, a) && Whole(w, c, events, b)
    ensures EndView(w, c, events, a) == EndView(w, c, events, b)
  {
    if events == {} {
      EmptyRun(w, c, a);
      EmptyRun(w, c, b);
    } else {
      var l := LatestExists(events);
      assert NoOtherPays(l, events) by { OneLast(w, c, events, l); }
      hide Start, Whole, Latest;
      FinalRun(w, c, events, a, l);
      FinalRun(w, c, events, b, l);
    }
  }

  lemma OneLast(w: World, c: Subject, events: set<Event>, l: Event)
    requires Start(w, c, events) && PaidOnceLast(events) && Latest(l, events)
    ensures NoOtherPays(l, events)
  {
    if Paid(events) {
      var m :| Latest(m, events) && Pays(m) && forall f | f in events && Pays(f) :: f == m;
      assert Time(l) == Time(m);
    }
  }

  // ---------------------------------------------------------------- what is not

  /** Runs that end apart: the last event first, and a payment that is not the last event first. */
  lemma RunsApart(w: World, c: Subject, events: set<Event>, f: Event, l: Event) returns (a: seq<Action>, b: seq<Action>)
    requires Start(w, c, events) && Latest(l, events) && f in events && Pays(f) && f != l
    ensures Whole(w, c, events, a) && Whole(w, c, events, b)
    ensures EndView(w, c, events, a).sub != EndView(w, c, events, b).sub
    ensures !Pays(l) ==> EndView(w, c, events, a).completed != EndView(w, c, events, b).completed
  {
    assert Time(f) != Time(l);
    hide Start, Latest, Quiet, Valid, After;
    a := LastFirst(w, c, events, l);
    b := PaymentFirst(w, c, events, f);
  }

  lemma NotPaidOnceLast(w: World, c: Subject, events: set<Event>) returns (f: Event, l: Event)
    requires Start(w, c, events) && !PaidOnceLast(events)
    ensures Latest(l, events) && f in events && Pays(f) && f != l
  {
    f :| f in events && Pays(f);
    l := LatestExists(events);
    if f == l {
      f :| f in events && Pays(f) && f != l;
    }
  }

  /** Every run of a story ends with the same outcome as a whole, or with the same subscription and period, exactly
      when nothing was paid or the last event is the only payment. */
  lemma AgreesOnAllExactly(w: World, c: Subject, events: set<Event>)
    requires Start(w, c, events)
    ensures Agree(w, c, events, v => v) <==> PaidOnceLast(events)
    ensures Agree(w, c, events, (v: View) => v.sub) <==> PaidOnceLast(events)
  {
    hide Start, PaidOnceLast, Complete, EndView;
    if PaidOnceLast(events) {
      forall a, b | Whole(w, c, events, a) && Whole(w, c, events, b)
        ensures EndView(w, c, events, a) == EndView(w, c, events, b)
      {
        PaidOnceLastAgrees(w, c, events, a, b);
      }
    } else {
      var f, l := NotPaidOnceLast(w, c, events);
      var a, b := RunsApart(w, c, events, f, l);
      var all, sub := (v: View) => v, (v: View) => v.sub;
      assert all(EndView(w, c, events, a)) != all(EndView(w, c, events, b));
      assert sub(EndView(w, c, events, a)) != sub(EndView(w, c, events, b));
    }
  }

  /** And with the checkout completed in every run or in none exactly when nothing was paid or the last event pays. */
  lemma AgreesOnCompletionExactly(w: World, c: Subject, events: set<Event>)
    requires Start(w, c, events)
    ensures Agree(w, c, events, (v: View) => v.completed) <==> PaidLast(events)
  {
    hide Start, Complete, EndView, Latest;
    if !Paid(events) {
      AgreesOnAllExactly(w, c, events);
    } else if PaidLast(events) {
      var l :| Latest(l, events) && Pays(l);
      forall a | Whole(w, c, events, a)
        ensures EndView(w, c, events, a).completed
      {
        CompletedRun(w, c, events, a, l);
      }
    } else {
      var f :| f in events && Pays(f);
      var l := LatestExists(events);
      var a, b := RunsApart(w, c, events, f, l);
      var completed := (v: View) => v.completed;
      assert completed(EndView(w, c, events, a)) != completed(EndView(w, c, events, b));
    }
  }
}
