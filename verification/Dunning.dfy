/** Renewal of crypto subscriptions by polling (packages/dkrypt/src/cryptoBilling.ts:216-244, 487-507): when a
    renewal is due the subscription becomes past due with a grace period, and after that it is cancelled. */
module Dunning {
  import opened Wrappers
  import opened Keyed
  import opened Billing
  import opened BillingInvariants

  const PAST_DUE_REASON := "crypto renewal is due; a new payment is required"
  const EXPIRED_REASON := "renewal grace period expired"

  function PastDuePatch(s: Subscription, now: int, grace: int): SubscriptionPatch {
    SpreadSubscription(s).(
      status := PastDue, failureReason := Put(Some(PAST_DUE_REASON)),
      graceUntil := Put(Some(if s.graceUntil.Some? && s.graceUntil.value > now then s.graceUntil.value else now + grace)),
      occurredAt := now, updatedAt := now)
  }

  function CancelledPatch(s: Subscription, now: int): SubscriptionPatch {
    SpreadSubscription(s).(status := Cancelled, nextBilledAt := Put(None), failureReason := Put(Some(EXPIRED_REASON)),
                           occurredAt := now, updatedAt := now)
  }

  predicate Expires(s: Subscription, pollNow: int) {
    !s.status.Cancelled? && s.graceUntil.Some? && s.graceUntil.value <= pollNow
  }

  predicate FallsDue(s: Subscription, pollNow: int) {
    s.status.Active? && !Expires(s, pollNow) && s.nextBilledAt.Some? && s.nextBilledAt.value <= pollNow
  }

  /** One listed copy, acted on at the time `now` by a poll that read the clock at `pollNow`. */
  function Acted(st: Stores, s: Subscription, pollNow: int, now: int, grace: int): Stores {
    if Expires(s, pollNow) then UpsertedSubscription(st, CancelledPatch(s, now)).0
    else if FallsDue(s, pollNow) then UpsertedSubscription(st, PastDuePatch(s, now, grace)).0
    else st
  }

  predicate Polls(s: Subscription) {
    s.provider.NowPayments? && s.userId.Some?
  }

  function ListedForPoll(subscriptions: seq<Subscription>): seq<Subscription> {
    if subscriptions == [] then []
    else
      var s := subscriptions[|subscriptions| - 1];
      ListedForPoll(subscriptions[..|subscriptions| - 1]) + if Polls(s) then [s] else []
  }

  function ActedOnAll(st: Stores, listed: seq<Subscription>, pollNow: int, times: seq<int>, grace: int): Stores
    requires |times| == |listed|
  {
    if listed == [] then st
    else
      var n := |listed| - 1;
      Acted(ActedOnAll(st, listed[..n], pollNow, times[..n], grace), listed[n], pollNow, times[n], grace)
  }

  class DunningPoller {
    const store: BillingStore
    const grace: int

    constructor (store: BillingStore, grace: int)
      ensures this.store == store && this.grace == grace
    {
      this.store, this.grace := store, grace;
    }

    method MarkSubscriptionPastDue(s: Subscription, now: int)
      modifies store
      ensures store.Snapshot() == UpsertedSubscription(old(store.Snapshot()), PastDuePatch(s, now, grace)).0
    {
      var graceUntil := now + grace;
      if s.graceUntil.Some? && s.graceUntil.value > now {
        graceUntil := s.graceUntil.value;
      }
      var _ := store.UpsertBillingSubscription(SpreadSubscription(s).(
        status := PastDue, failureReason := Put(Some(PAST_DUE_REASON)), graceUntil := Put(Some(graceUntil)),
        occurredAt := now, updatedAt := now));
    }

    method MarkSubscriptionCancelled(s: Subscription, now: int)
      modifies store
      ensures store.Snapshot() == UpsertedSubscription(old(store.Snapshot()), CancelledPatch(s, now)).0
    {
      var _ := store.UpsertBillingSubscription(CancelledPatch(s, now));
    }

    method List() returns (listed: seq<Subscription>)
      ensures listed == ListedForPoll(store.subscriptions)
    {
      listed := [];
      for i := 0 to |store.subscriptions|
        invariant listed == ListedForPoll(store.subscriptions[..i])
      {
        assert store.subscriptions[..i + 1][..i] == store.subscriptions[..i];
        if store.subscriptions[i].provider.NowPayments? && store.subscriptions[i].userId.Some? {
          listed := listed + [store.subscriptions[i]];
        }
      }
      assert store.subscriptions[..|store.subscriptions|] == store.subscriptions;
    }

    /** The subscription part of a poll that nothing interrupts; `times` are the clock readings on the way. */
    method ReconcileCryptoBilling(pollNow: int, times: seq<int>)
      requires |times| == |ListedForPoll(store.subscriptions)|
      modifies store
      ensures store.Snapshot() == ActedOnAll(old(store.Snapshot()), ListedForPoll(old(store.subscriptions)), pollNow, times, grace)
    {
      var listed := List();
      for i := 0 to |listed|
        invariant store.Snapshot() == ActedOnAll(old(store.Snapshot()), listed[..i], pollNow, times[..i], grace)
      {
        assert listed[..i + 1][..i] == listed[..i] && times[..i + 1][..i] == times[..i];
        var s := listed[i];
        if s.status.Cancelled? { continue; }
        if s.graceUntil.Some? && s.graceUntil.value <= pollNow {
          MarkSubscriptionCancelled(s, times[i]);
          continue;
        }
        if s.nextBilledAt.Some? && s.nextBilledAt.value <= pollNow && s.status.Active? {
          MarkSubscriptionPastDue(s, times[i]);
        }
      }
      assert listed[..|listed|] == listed && times[..|times|] == times;
    }
  }

  // ---------------------------------------------------------------- polls in any interleaving

  predicate Due(s: Subscription, pollNow: int) {
    Expires(s, pollNow) || FallsDue(s, pollNow)
  }

  /** What is left of a poll's copies from the first one it has to do something about. */
  function FromDue(todo: seq<Subscription>, pollNow: int): (rest: seq<Subscription>)
    ensures rest != [] ==> Due(rest[0], pollNow)
  {
    if todo == [] || Due(todo[0], pollNow) then todo else FromDue(todo[1..], pollNow)
  }

  /** A poll that read the clock, and then the copies it has not come to. */
  datatype Poll = Started(at: int) | Listing(at: int, todo: seq<Subscription>)

  datatype World = World(st: Stores, clock: int, polls: map<int, Poll>)

  /** A poll is interrupted only where it awaits: after reading the clock, while it looks at pending checkouts,
      and after a copy it did something about. So `List` also deals with the first such copy of the list, and
      `Act` resumes with the next one. */
  datatype Action = Begin(id: int, now: int) | List(id: int, now: int) | Act(id: int, now: int) | End(id: int)

  predicate Enabled(w: World, a: Action) {
    match a
    case Begin(id, now) => id !in w.polls && w.clock <= now
    case List(id, now) => id in w.polls && w.polls[id].Started? && w.clock <= now
    case Act(id, now) => id in w.polls && w.polls[id].Listing? && w.polls[id].todo != [] && w.clock <= now
    case End(id) => id in w.polls && w.polls[id].Listing? && w.polls[id].todo == []
  }

  /** The copies before a poll that runs on, up to the end or its next await. */
  function Ahead(w: World, a: Action): seq<Subscription>
    requires Enabled(w, a) && (a.List? || a.Act?)
  {
    var poll := w.polls[a.id];
    FromDue(if a.List? then ListedForPoll(w.st.subscriptions) else poll.todo, poll.at)
  }

  function Next(w: World, a: Action, grace: int): World
    requires Enabled(w, a)
  {
    match a
    case Begin(id, now) => w.(clock := now, polls := w.polls[id := Started(now)])
    case End(id) => w.(polls := w.polls - {id})
    case _ =>
      var ahead, at := Ahead(w, a), w.polls[a.id].at;
      if ahead == [] then w.(clock := a.now, polls := w.polls[a.id := Listing(at, [])])
      else World(Acted(w.st, ahead[0], at, a.now, grace), a.now, w.polls[a.id := Listing(at, ahead[1..])])
  }

  predicate Valid(w: World, run: seq<Action>, grace: int)
    decreases |run|
  {
    run != [] ==> Enabled(w, run[0]) && Valid(Next(w, run[0], grace), run[1..], grace)
  }

  type Key = (Provider, string)

  /** The plan is given at time t by what the stores say now. */
  predicate EntitledAt(st: Stores, k: Key, t: int) {
    Has(st.subscriptions, SubscriptionKey, k) && IsActive(Get(st.subscriptions, SubscriptionKey, k), t)
  }

  /** The copy this action does something about, if any. */
  function Subject(w: World, a: Action): Option<Subscription>
    requires Enabled(w, a)
  {
    if (a.List? || a.Act?) && Ahead(w, a) != [] then Some(Ahead(w, a)[0]) else None
  }

  /** This action marks the subscription past due. */
  predicate Marks(w: World, a: Action, k: Key)
    requires Enabled(w, a)
  {
    var c := Subject(w, a);
    c.Some? && SubscriptionKey(c.value) == k && FallsDue(c.value, w.polls[a.id].at)
  }

  /** When the subscription was first marked past due, if it was. */
  function FirstMark(p: Option<int>, w: World, a: Action, k: Key): Option<int>
    requires Enabled(w, a)
  {
    if p.None? && Marks(w, a, k) then Some(a.now) else p
  }

  /** From now on the plan is given exactly until the grace period after the first mark ends. */
  ghost predicate Bounded(w: World, k: Key, p: Option<int>, grace: int) {
    forall t | w.clock <= t :: EntitledAt(w.st, k, t) <==> (p.None? || t < p.value + grace)
  }

  ghost predicate BoundedThroughout(w: World, run: seq<Action>, k: Key, p: Option<int>, grace: int)
    requires Valid(w, run, grace)
    decreases |run|
  {
    && Bounded(w, k, p, grace)
    && (run != [] ==> BoundedThroughout(Next(w, run[0], grace), run[1..], k, FirstMark(p, w, run[0], k), grace))
  }

  /** No poll marks the subscription a second time, at a later moment, from a copy it listed before the first. */
  predicate MarkedOnce(w: World, run: seq<Action>, k: Key, p: Option<int>, grace: int)
    requires Valid(w, run, grace)
    decreases |run|
  {
    run != [] ==>
      && (p.Some? && Marks(w, run[0], k) ==> run[0].now == p.value)
      && MarkedOnce(Next(w, run[0], grace), run[1..], k, FirstMark(p, w, run[0], k), grace)
  }

  /** An active, unflagged, unpaused crypto subscription with an owner and no grace period yet. */
  predicate Renewable(s: Subscription) {
    && Polls(s) && s.status.Active? && s.flagged != Some(true) && s.paused != Some(true) && s.graceUntil.None?
  }

  /** What the stored record or a poll's copy of the subscription can be. */
  predicate Stage(s: Subscription, original: Subscription, p: Option<int>, grace: int) {
    if p.None? then s == original
    else
      && SubscriptionKey(s) == SubscriptionKey(original)
      && (s.status.Cancelled? || (s.status.PastDue? && s.graceUntil == Some(p.value + grace)))
  }

  /** The stored record, with the clock at `clock`. */
  predicate RecordInv(s: Subscription, original: Subscription, p: Option<int>, clock: int, grace: int) {
    && Stage(s, original, p, grace) && s.occurredAt <= clock
    && (p.Some? ==> p.value <= clock && (s.status.Cancelled? ==> p.value + grace <= clock))
  }

  /** What a copy can be: as it was at first, or in a stage reached since. */
  predicate Staged(c: Subscription, original: Subscription, p: Option<int>, grace: int) {
    SubscriptionKey(c) == SubscriptionKey(original) ==> c == original || (p.Some? && Stage(c, original, p, grace))
  }

  /** The polls' copies; before the first mark, every poll for which the subscription is due has yet to come to it. */
  ghost predicate CopiesInv(w: World, original: Subscription, p: Option<int>, grace: int) {
    && (forall id | id in w.polls :: w.polls[id].at <= w.clock)
    && (forall id, c | id in w.polls && w.polls[id].Listing? && c in w.polls[id].todo :: Staged(c, original, p, grace))
    && (p.None? ==> forall id | id in w.polls && w.polls[id].Listing? && FallsDue(original, w.polls[id].at) ::
          original in w.polls[id].todo)
  }

  ghost predicate Inv(w: World, original: Subscription, p: Option<int>, grace: int) {
    var k := SubscriptionKey(original);
    && Sound(w.st) && Renewable(original) && grace > 0
    && Has(w.st.subscriptions, SubscriptionKey, k)
    && RecordInv(Get(w.st.subscriptions, SubscriptionKey, k), original, p, w.clock, grace)
    && CopiesInv(w, original, p, grace)
  }

  lemma InvBounds(w: World, original: Subscription, p: Option<int>, grace: int)
    requires Inv(w, original, p, grace)
    ensures Bounded(w, SubscriptionKey(original), p, grace)
  {
  }

  lemma {:induction false} ListedAreStored(subscriptions: seq<Subscription>)
    ensures forall s | s in ListedForPoll(subscriptions) :: s in subscriptions && Polls(s)
    ensures Unique(subscriptions, SubscriptionKey) ==> Unique(ListedForPoll(subscriptions), SubscriptionKey)
  {
    if subscriptions == [] {
    } else {
      var n := |subscriptions| - 1;
      ListedAreStored(subscriptions[..n]);
      var before := ListedForPoll(subscriptions[..n]);
      if Unique(subscriptions, SubscriptionKey) {
        forall i | 0 <= i < |before|
          ensures SubscriptionKey(before[i]) != SubscriptionKey(subscriptions[n])
        {
          assert before[i] in subscriptions[..n];
        }
      }
    }
  }

  lemma StoredOnce(st: Stores, s: Subscription)
    requires Sound(st) && s in st.subscriptions
    ensures Has(st.subscriptions, SubscriptionKey, SubscriptionKey(s)) && Get(st.subscriptions, SubscriptionKey, SubscriptionKey(s)) == s
  {
  }

  /** What acting on one copy does to the store, seen from any one subscription. */
  lemma ActEffect(st: Stores, s: Subscription, pollNow: int, now: int, grace: int, k: Key)
    requires Sound(st) && Has(st.subscriptions, SubscriptionKey, k)
    ensures var after := Acted(st, s, pollNow, now, grace);
            && Sound(after) && Has(after.subscriptions, SubscriptionKey, k)
            && var e, r := Get(st.subscriptions, SubscriptionKey, k), Get(after.subscriptions, SubscriptionKey, k);
            if SubscriptionKey(s) == k && e.occurredAt <= now then
              if Expires(s, pollNow) then r == AssignSubscription(e, CancelledPatch(s, now))
              else if FallsDue(s, pollNow) then r == AssignSubscription(e, PastDuePatch(s, now, grace))
              else r == e
            else SubscriptionKey(s) != k ==> r == e
  {
    hide Sound, UpsertedSubscription, AssignSubscription;
    PutEffect(st, CancelledPatch(s, now));
    PutEffect(st, PastDuePatch(s, now, grace));
  }

  lemma {:induction false} FromDueKeeps(todo: seq<Subscription>, pollNow: int)
    ensures forall c | c in FromDue(todo, pollNow) :: c in todo
    ensures forall c | c in todo && Due(c, pollNow) :: c in FromDue(todo, pollNow)
    ensures Unique(todo, SubscriptionKey) ==> Unique(FromDue(todo, pollNow), SubscriptionKey)
  {
    if todo == [] || Due(todo[0], pollNow) {
    } else {
      FromDueKeeps(todo[1..], pollNow);
    }
  }

  lemma {:induction false} ListedIfPolled(subscriptions: seq<Subscription>, s: Subscription)
    requires s in subscriptions && Polls(s)
    ensures s in ListedForPoll(subscriptions)
  {
    var n := |subscriptions| - 1;
    if subscriptions[n] == s {
    } else {
      ListedIfPolled(subscriptions[..n], s);
    }
  }

  /** Listed copies are as stored, and the subscription is among them. */
  lemma ListedStaged(w: World, original: Subscription, p: Option<int>, grace: int)
    requires Inv(w, original, p, grace)
    ensures forall c | c in ListedForPoll(w.st.subscriptions) && SubscriptionKey(c) == SubscriptionKey(original) ::
              Stage(c, original, p, grace)
    ensures p.None? ==> original in ListedForPoll(w.st.subscriptions)
  {
    hide Sound, CopiesInv, Stage;
    ListedAreStored(w.st.subscriptions);
    forall c | c in ListedForPoll(w.st.subscriptions) && SubscriptionKey(c) == SubscriptionKey(original)
      ensures Stage(c, original, p, grace)
    {
      StoredOnce(w.st, c);
    }
    if p.None? {
      assert Get(w.st.subscriptions, SubscriptionKey, SubscriptionKey(original)) == original by { StageNone(w, original, grace); }
      ListedIfPolled(w.st.subscriptions, original);
    }
  }

  lemma StageNone(w: World, original: Subscription, grace: int)
    requires Inv(w, original, None, grace)
    ensures Get(w.st.subscriptions, SubscriptionKey, SubscriptionKey(original)) == original
  {
  }

  /** The copies ahead are as the invariant says, and while nothing is marked the subscription is among them if due. */
  lemma AheadStaged(w: World, a: Action, original: Subscription, p: Option<int>, grace: int)
    requires Inv(w, original, p, grace) && Enabled(w, a) && (a.List? || a.Act?)
    ensures forall c | c in Ahead(w, a) :: Staged(c, original, p, grace)
    ensures p.None? && FallsDue(original, w.polls[a.id].at) ==> original in Ahead(w, a)
  {
    hide Sound, RecordInv, FallsDue, Expires, FromDue, ListedForPoll, Stage;
    var at := w.polls[a.id].at;
    ListedStaged(w, original, p, grace);
    FromDueKeeps(if a.List? then ListedForPoll(w.st.subscriptions) else w.polls[a.id].todo, at);
    if p.None? {
      StageIsOriginal(original, grace);
    }
  }

  lemma StageIsOriginal(original: Subscription, grace: int)
    ensures forall c :: Stage(c, original, None, grace) ==> c == original
  {
  }

  /** The copies of all polls after a step. */
  lemma CopiesKept(w: World, a: Action, original: Subscription, p: Option<int>, grace: int)
    requires Inv(w, original, p, grace) && Enabled(w, a)
    ensures CopiesInv(Next(w, a, grace), original, FirstMark(p, w, a, SubscriptionKey(original)), grace)
  {
    hide Sound, RecordInv, Acted, Ahead, Stage, FromDue, Expires, Renewable;
    var q := FirstMark(p, w, a, SubscriptionKey(original));
    StagedLater(original, p, q, grace);
    if a.List? || a.Act? {
      AheadStaged(w, a, original, p, grace);
      var ahead := Ahead(w, a);
      if ahead != [] {
        assert ahead == [ahead[0]] + ahead[1..];
      }
      hide FallsDue, Staged;
      assert Next(w, a, grace).polls == w.polls[a.id := Listing(w.polls[a.id].at, if ahead == [] then [] else ahead[1..])];
    }
  }

  lemma StagedLater(original: Subscription, p: Option<int>, q: Option<int>, grace: int)
    requires p.Some? ==> q == p
    ensures forall c | Staged(c, original, p, grace) :: Staged(c, original, q, grace)
  {
  }

  lemma QuietStepKeeps(w: World, a: Action, original: Subscription, p: Option<int>, grace: int)
    requires Inv(w, original, p, grace) && Enabled(w, a) && Subject(w, a).None?
    ensures Inv(Next(w, a, grace), original, p, grace)
  {
    CopiesKept(w, a, original, p, grace);
    hide Sound, CopiesInv, Stage, Renewable, Ahead;
  }

  lemma ActStepKeeps(w: World, a: Action, original: Subscription, p: Option<int>, grace: int)
    requires Inv(w, original, p, grace) && Enabled(w, a) && Subject(w, a).Some?
    requires p.Some? && Marks(w, a, SubscriptionKey(original)) ==> a.now == p.value
    ensures Inv(Next(w, a, grace), original, FirstMark(p, w, a, SubscriptionKey(original)), grace)
  {
    var poll, ahead := w.polls[a.id], Ahead(w, a);
    var c, k := ahead[0], SubscriptionKey(original);
    hide Sound, Acted, Ahead, CopiesInv, Stage, RecordInv, Expires, FallsDue, Renewable, AssignSubscription, PastDuePatch, CancelledPatch;
    CopiesKept(w, a, original, p, grace);
    AheadStaged(w, a, original, p, grace);
    assert poll.at <= w.clock by { PollsBegan(w, a.id, original, p, grace); }
    ActEffect(w.st, c, poll.at, a.now, grace, k);
    RecordKeeps(Get(w.st.subscriptions, SubscriptionKey, k), c, original, p, poll.at, w.clock, a.now, grace);
  }

  lemma PollsBegan(w: World, id: int, original: Subscription, p: Option<int>, grace: int)
    requires Inv(w, original, p, grace) && id in w.polls
    ensures w.polls[id].at <= w.clock
  {
  }

  /** The stored record after one act on a copy of it, or on another subscription's. */
  lemma RecordKeeps(e: Subscription, c: Subscription, original: Subscription, p: Option<int>, pollNow: int,
                    clock: int, now: int, grace: int)
    requires Renewable(original) && grace > 0 && pollNow <= clock <= now
    requires RecordInv(e, original, p, clock, grace) && Staged(c, original, p, grace)
    requires p.Some? && SubscriptionKey(c) == SubscriptionKey(original) && FallsDue(c, pollNow) ==> now == p.value
    ensures e.occurredAt <= now
    ensures RecordInv(e, original, p, now, grace)
    ensures SubscriptionKey(c) == SubscriptionKey(original) ==>
      var q := if p.None? && FallsDue(c, pollNow) then Some(now) else p;
      var r := if Expires(c, pollNow) then AssignSubscription(e, CancelledPatch(c, now))
               else if FallsDue(c, pollNow) then AssignSubscription(e, PastDuePatch(c, now, grace)) else e;
      RecordInv(r, original, q, now, grace)
  {
  }

  /** A second mark at a later moment extends the plan past the grace period of the first. */
  lemma LateMarkExtends(w: World, a: Action, original: Subscription, p: Option<int>, grace: int)
    requires Inv(w, original, p, grace) && Enabled(w, a) && p.Some?
    requires Marks(w, a, SubscriptionKey(original)) && a.now != p.value
    ensures !Bounded(Next(w, a, grace), SubscriptionKey(original), p, grace)
  {
    hide Sound, Acted, Ahead, CopiesInv;
    var c, k := Ahead(w, a)[0], SubscriptionKey(original);
    AheadStaged(w, a, original, p, grace);
    assert c == original by { assert c in Ahead(w, a); }
    assert !Expires(c, w.polls[a.id].at);
    ActEffect(w.st, c, w.polls[a.id].at, a.now, grace, k);
    var next := Next(w, a, grace);
    var t := if a.now < p.value + grace then p.value + grace else a.now;
    assert EntitledAt(next.st, k, t);
  }

  /** In every interleaving of polls the plan is given exactly until p + grace at every moment, with p the
      first mark, if and only if no poll marks the subscription again from a copy that is out of date. */
  lemma {:induction false} BoundedExactlyWhenMarkedOnce(w: World, run: seq<Action>, original: Subscription, p: Option<int>, grace: int)
    requires Inv(w, original, p, grace) && Valid(w, run, grace)
    ensures BoundedThroughout(w, run, SubscriptionKey(original), p, grace) <==> MarkedOnce(w, run, SubscriptionKey(original), p, grace)
    decreases |run|
  {
    hide Inv, Bounded;
    InvBounds(w, original, p, grace);
    if run == [] {
    } else {
      var a, k := run[0], SubscriptionKey(original);
      var next, q := Next(w, a, grace), FirstMark(p, w, a, k);
      if p.Some? && Marks(w, a, k) && a.now != p.value {
        LateMarkExtends(w, a, original, p, grace);
      } else {
        if Subject(w, a).Some? {
          ActStepKeeps(w, a, original, p, grace);
        } else {
          QuietStepKeeps(w, a, original, p, grace);
        }
        BoundedExactlyWhenMarkedOnce(next, run[1..], original, q, grace);
      }
    }
  }

  // ---------------------------------------------------------------- polls one after another

  /** No poll begins while another is under way. */
  predicate OneAtATime(w: World, run: seq<Action>, grace: int)
    requires Valid(w, run, grace)
    decreases |run|
  {
    run != [] ==> (run[0].Begin? ==> w.polls == map[]) && OneAtATime(Next(w, run[0], grace), run[1..], grace)
  }

  /** At most one poll is under way, and its remaining copies are distinct and as stored. */
  ghost predicate Current(w: World) {
    && (forall i, j | i in w.polls && j in w.polls :: i == j)
    && (forall i | i in w.polls && w.polls[i].Listing? ::
          && Unique(w.polls[i].todo, SubscriptionKey)
          && forall c | c in w.polls[i].todo :: c in w.st.subscriptions)
  }

  /** The copies ahead are distinct and as stored when those of the poll are. */
  lemma AheadCurrent(w: World, a: Action)
    requires Sound(w.st) && Current(w) && Enabled(w, a) && (a.List? || a.Act?)
    ensures Unique(Ahead(w, a), SubscriptionKey) && forall c | c in Ahead(w, a) :: c in w.st.subscriptions
  {
    hide Sound;
    var at := w.polls[a.id].at;
    ListedAreStored(w.st.subscriptions);
    SoundKeys(w.st);
    FromDueKeeps(if a.List? then ListedForPoll(w.st.subscriptions) else w.polls[a.id].todo, at);
  }

  lemma CurrentKept(w: World, a: Action, grace: int)
    requires Sound(w.st) && Current(w) && Enabled(w, a) && (a.Begin? ==> w.polls == map[])
    ensures Current(Next(w, a, grace)) && Sound(Next(w, a, grace).st)
  {
    hide Sound, Acted, Ahead;
    var next := Next(w, a, grace);
    if Subject(w, a).Some? {
      AheadCurrent(w, a);
      var ahead := Ahead(w, a);
      ActKeepsOthers(w.st, ahead[0], w.polls[a.id].at, a.now, grace);
      forall x | x in ahead[1..]
        ensures x in next.st.subscriptions
      {
        var i :| 0 <= i < |ahead[1..]| && ahead[1..][i] == x;
        assert ahead[i + 1] == x && SubscriptionKey(ahead[0]) != SubscriptionKey(ahead[i + 1]);
      }
    }
  }

  lemma SoundKeys(st: Stores)
    requires Sound(st)
    ensures Unique(st.subscriptions, SubscriptionKey)
  {
  }

  lemma ActKeepsOthers(st: Stores, c: Subscription, pollNow: int, now: int, grace: int)
    requires Sound(st)
    ensures var after := Acted(st, c, pollNow, now, grace);
            && Sound(after)
            && forall x | x in st.subscriptions && SubscriptionKey(x) != SubscriptionKey(c) :: x in after.subscriptions
  {
    hide Sound, UpsertedSubscription;
    PutEffect(st, CancelledPatch(c, now));
    PutEffect(st, PastDuePatch(c, now, grace));
    var after := Acted(st, c, pollNow, now, grace);
    forall x | x in st.subscriptions && SubscriptionKey(x) != SubscriptionKey(c)
      ensures x in after.subscriptions
    {
      StoredOnce(st, x);
      assert Get(after.subscriptions, SubscriptionKey, SubscriptionKey(x)) == x;
    }
  }

  lemma CurrentNeverLate(w: World, a: Action, original: Subscription, p: Option<int>, grace: int)
    requires Inv(w, original, p, grace) && Current(w) && Enabled(w, a) && p.Some?
    ensures !Marks(w, a, SubscriptionKey(original))
  {
    hide Ahead;
    if Subject(w, a).Some? {
      AheadCurrent(w, a);
      StoredOnce(w.st, Ahead(w, a)[0]);
    }
  }

  lemma {:induction false} OneAtATimeMarksOnce(w: World, run: seq<Action>, original: Subscription, p: Option<int>, grace: int)
    requires Inv(w, original, p, grace) && Current(w) && Valid(w, run, grace) && OneAtATime(w, run, grace)
    ensures MarkedOnce(w, run, SubscriptionKey(original), p, grace)
    decreases |run|
  {
    hide Inv, Current;
    if run == [] {
    } else {
      var a, k := run[0], SubscriptionKey(original);
      if p.Some? {
        CurrentNeverLate(w, a, original, p, grace);
      }
      InvIsSound(w, original, p, grace);
      CurrentKept(w, a, grace);
      if Subject(w, a).Some? {
        ActStepKeeps(w, a, original, p, grace);
      } else {
        QuietStepKeeps(w, a, original, p, grace);
      }
      OneAtATimeMarksOnce(Next(w, a, grace), run[1..], original, FirstMark(p, w, a, k), grace);
    }
  }

  lemma InvIsSound(w: World, original: Subscription, p: Option<int>, grace: int)
    requires Inv(w, original, p, grace)
    ensures Sound(w.st)
  {
  }

  /** A store holding an active crypto subscription not ahead of the clock, before any poll. */
  ghost predicate Start(w: World, original: Subscription) {
    && Sound(w.st) && w.polls == map[] && Renewable(original)
    && original in w.st.subscriptions && original.occurredAt <= w.clock
  }

  lemma StartInv(w: World, original: Subscription, grace: int)
    requires Start(w, original) && grace > 0
    ensures Inv(w, original, None, grace)
  {
    StoredOnce(w.st, original);
  }

  /** With polls one after another, however many, the plan is given at every moment exactly until the grace
      period after the first mark ends: no poll extends it and none brings a cancelled subscription back. */
  lemma EntitlementIsBounded(w: World, run: seq<Action>, original: Subscription, grace: int)
    requires Start(w, original) && grace > 0 && Valid(w, run, grace) && OneAtATime(w, run, grace)
    ensures BoundedThroughout(w, run, SubscriptionKey(original), None, grace)
  {
    StoredOnce(w.st, original);
    OneAtATimeMarksOnce(w, run, original, None, grace);
    BoundedExactlyWhenMarkedOnce(w, run, original, None, grace);
  }

  lemma FromDueIsDue(w: World, a: Action)
    requires Enabled(w, a) && (a.List? || a.Act?) && Ahead(w, a) != []
    ensures Due(Ahead(w, a)[0], w.polls[a.id].at)
  {
  }

  /** The first mark is made by a poll that began at or after nextBilledAt, when it comes to the subscription. */
  lemma FirstMarkIsDue(w: World, a: Action, original: Subscription, grace: int)
    requires Inv(w, original, None, grace) && Enabled(w, a)
    ensures FirstMark(None, w, a, SubscriptionKey(original)) ==
      if Subject(w, a) == Some(original) && original.nextBilledAt.Some? && original.nextBilledAt.value <= w.polls[a.id].at
      then Some(a.now) else None
  {
    hide Ahead, CopiesInv, RecordInv, Sound;
    if a.List? || a.Act? {
      AheadStaged(w, a, original, None, grace);
      if Ahead(w, a) != [] {
        assert Staged(Ahead(w, a)[0], original, None, grace);
        assert Due(Ahead(w, a)[0], w.polls[a.id].at) by { FromDueIsDue(w, a); }
      }
    }
  }

  /** And no such poll ends before the subscription was marked. */
  lemma DuePollMarks(w: World, id: int, original: Subscription, p: Option<int>, grace: int)
    requires Inv(w, original, p, grace) && Enabled(w, End(id))
    requires original.nextBilledAt.Some? && original.nextBilledAt.value <= w.polls[id].at
    ensures p.Some?
  {
    assert FallsDue(original, w.polls[id].at);
  }

  /** A poll never marks a subscription again as it lists it: only a copy kept over an await is out of date. */
  lemma ListingNeverLate(w: World, a: Action, original: Subscription, p: Option<int>, grace: int)
    requires Inv(w, original, p, grace) && Enabled(w, a) && a.List? && p.Some?
    ensures !Marks(w, a, SubscriptionKey(original))
  {
    ListedStaged(w, original, p, grace);
    FromDueKeeps(ListedForPoll(w.st.subscriptions), w.polls[a.id].at);
    hide Sound, CopiesInv, RecordInv, FromDue, ListedForPoll;
  }
}
