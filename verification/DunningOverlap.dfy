/** Polls for renewals that overlap (packages/dkrypt/src/cryptoBilling.ts:235-244, 249-258): the timer starts one
    without waiting for the one before, but a poll is interrupted only where it awaits. */
module DunningOverlap {
  import opened Wrappers
  import opened Keyed
  import opened Billing
  import opened BillingInvariants
  import opened Dunning

  lemma EndsUnbounded(w: World, k: Key, p: Option<int>, grace: int)
    requires !Bounded(w, k, p, grace)
    ensures Valid(w, [], grace) && !BoundedThroughout(w, [], k, p, grace)
  {
  }

  /** A run that is not bounded throughout stays so with one more action in front. */
  lemma Cons(w: World, a: Action, rest: seq<Action>, k: Key, p: Option<int>, grace: int)
    requires Enabled(w, a) && Valid(Next(w, a, grace), rest, grace)
    requires !BoundedThroughout(Next(w, a, grace), rest, k, FirstMark(p, w, a, k), grace)
    ensures Valid(w, [a] + rest, grace) && !BoundedThroughout(w, [a] + rest, k, p, grace)
  {
  }

  /** Two crypto subscriptions in a store, both due. */
  ghost predicate BothDue(w: World, other: Subscription, original: Subscription, now: int) {
    && Start(w, original) && w.st.subscriptions == [other, original]
    && Renewable(other) && other.occurredAt <= w.clock <= now
    && FallsDue(other, now) && FallsDue(original, now)
  }

  function MarkedAt(s: Subscription, now: int, grace: int): Subscription {
    AssignSubscription(s, PastDuePatch(s, now, grace))
  }

  /** A step of a poll that has `ahead` before it. */
  lemma Proceeds(w: World, a: Action, ahead: seq<Subscription>, grace: int)
    requires Enabled(w, a) && (a.List? || a.Act?) && ahead != []
    requires var at := w.polls[a.id].at;
             FromDue(if a.List? then ListedForPoll(w.st.subscriptions) else w.polls[a.id].todo, at) == ahead
    ensures Subject(w, a) == Some(ahead[0])
    ensures var at := w.polls[a.id].at;
            Next(w, a, grace) == World(Acted(w.st, ahead[0], at, a.now, grace), a.now, w.polls[a.id := Listing(at, ahead[1..])])
  {
    hide FromDue, ListedForPoll, Acted;
  }

  /** A poll that lists two subscriptions of which the second is due. */
  lemma AheadOfBoth(a: Subscription, b: Subscription, pollNow: int)
    requires Polls(a) && Polls(b) && Due(b, pollNow)
    ensures FromDue(ListedForPoll([a, b]), pollNow) == if Due(a, pollNow) then [a, b] else [b]
  {
    hide Polls, Due;
    assert [a, b][..1] == [a] && [a][..0] == [];
    assert ListedForPoll([]) == [];
    assert ListedForPoll([a]) == [a];
    assert ListedForPoll([a, b]) == [a, b];
    assert [a, b][1..] == [b];
    assert FromDue([b], pollNow) == [b];
  }

  lemma FirstBegins(w: World, other: Subscription, original: Subscription, now: int, grace: int)
    requires BothDue(w, other, original, now)
    ensures Enabled(w, Begin(0, now)) && Subject(w, Begin(0, now)).None?
    ensures Next(w, Begin(0, now), grace) == World(w.st, now, map[0 := Started(now)])
    ensures SubscriptionKey(other) != SubscriptionKey(original)
  {
    hide FallsDue, Renewable;
    var s := w.st.subscriptions;
    assert SubscriptionKey(s[0]) != SubscriptionKey(s[1]);
  }

  /** The first poll lists both, marks the other one and awaits. */
  lemma FirstPoll(w1: World, other: Subscription, original: Subscription, now: int, grace: int) returns (w2: World)
    requires Sound(w1.st) && w1.st.subscriptions == [other, original] && w1.clock == now && w1.polls == map[0 := Started(now)]
    requires Polls(other) && Polls(original) && FallsDue(other, now) && FallsDue(original, now) && other.occurredAt <= now
    ensures Enabled(w1, List(0, now)) && Subject(w1, List(0, now)) == Some(other) && w2 == Next(w1, List(0, now), grace)
    ensures w2.st.subscriptions == [MarkedAt(other, now, grace), original] && w2.clock == now
    ensures w2.polls == map[0 := Listing(now, [original])]
  {
    AheadOfBoth(other, original, now);
    MarkStored(w1.st, 0, now, now, grace);
    hide MarkedAt, Acted, Sound, Expires, FallsDue, ListedForPoll, FromDue, Ahead;
    Proceeds(w1, List(0, now), [other, original], grace);
    assert [other, original][1..] == [original];
    w2 := Next(w1, List(0, now), grace);
  }

  lemma MarkStored(st: Stores, i: nat, pollNow: int, now: int, grace: int)
    requires Sound(st) && i < |st.subscriptions|
    requires var s := st.subscriptions[i]; FallsDue(s, pollNow) && s.occurredAt <= now
    ensures var s := st.subscriptions[i];
            Acted(st, s, pollNow, now, grace).subscriptions == st.subscriptions[i := MarkedAt(s, now, grace)]
  {
    FirstIndexIs(st.subscriptions, SubscriptionKey, SubscriptionKey(st.subscriptions[i]), i);
    hide AssignSubscription;
  }

  /** A subscription marked past due is passed over until its grace period ends. */
  lemma MarkedIsPassedOver(s: Subscription, now: int, second: int, grace: int)
    requires Renewable(s) && second < now + grace
    ensures Polls(MarkedAt(s, now, grace)) && !Due(MarkedAt(s, now, grace), second)
  {
  }

  /** The second poll lists both, passes over the other one and marks the subscription, for the first time. */
  lemma SecondPoll(w2: World, other: Subscription, original: Subscription, now: int, second: int, grace: int) returns (w4: World)
    requires w2.st.subscriptions == [MarkedAt(other, now, grace), original] && w2.clock == now
    requires w2.polls == map[0 := Listing(now, [original])]
    requires Renewable(other) && Renewable(original) && FallsDue(original, now) && now <= second < now + grace
    ensures Enabled(w2, Begin(1, second)) && Subject(w2, Begin(1, second)).None?
    ensures var w3 := Next(w2, Begin(1, second), grace);
            && Enabled(w3, List(1, second)) && Subject(w3, List(1, second)) == Some(original)
            && FallsDue(original, w3.polls[1].at)
            && w4 == Next(w3, List(1, second), grace)
    ensures w4.clock == second && 0 in w4.polls && w4.polls[0] == Listing(now, [original])
  {
    var w3 := Next(w2, Begin(1, second), grace);
    MarkedIsPassedOver(other, now, second, grace);
    assert FallsDue(original, second);
    AheadOfBoth(MarkedAt(other, now, grace), original, second);
    hide MarkedAt, Acted, Renewable, Expires, FallsDue, ListedForPoll, FromDue, Ahead;
    Proceeds(w3, List(1, second), [original], grace);
    w4 := Next(w3, List(1, second), grace);
  }

  /** Two polls that overlap do extend a grace period: the first lists two due subscriptions and awaits after it
      marked the other one; the second marks this one; the first, going on, marks it again from its copy. */
  lemma OverlapExtends(w: World, other: Subscription, original: Subscription, now: int, second: int, third: int, grace: int)
    requires BothDue(w, other, original, now) && grace > 0 && now <= second < now + grace && second < third
    ensures var run := [Begin(0, now), List(0, now), Begin(1, second), List(1, second), Act(0, third)];
            Valid(w, run, grace) && !BoundedThroughout(w, run, SubscriptionKey(original), None, grace)
  {
    var k := SubscriptionKey(original);
    hide Bounded, Acted, Inv, Next, Enabled, Ahead, BoundedThroughout, Valid;
    FirstBegins(w, other, original, now, grace);
    var w1 := Next(w, Begin(0, now), grace);
    var w2 := FirstPoll(w1, other, original, now, grace);
    StartInv(w, original, grace);
    QuietStepKeeps(w, Begin(0, now), original, None, grace);
    ActStepKeeps(w1, List(0, now), original, None, grace);
    var w4 := SecondPoll(w2, other, original, now, second, grace);
    var w3 := Next(w2, Begin(1, second), grace);
    QuietStepKeeps(w2, Begin(1, second), original, None, grace);
    ActStepKeeps(w3, List(1, second), original, None, grace);
    Resumes(w4, original, now, third);
    LateMarkExtends(w4, Act(0, third), original, Some(second), grace);
    EndsUnbounded(Next(w4, Act(0, third), grace), k, Some(second), grace);
    Cons(w4, Act(0, third), [], k, Some(second), grace);
    Cons(w3, List(1, second), [Act(0, third)] + [], k, None, grace);
    Cons(w2, Begin(1, second), [List(1, second)] + ([Act(0, third)] + []), k, None, grace);
    Cons(w1, List(0, now), [Begin(1, second)] + ([List(1, second)] + ([Act(0, third)] + [])), k, None, grace);
    var run := [List(0, now)] + ([Begin(1, second)] + ([List(1, second)] + ([Act(0, third)] + [])));
    Cons(w, Begin(0, now), run, k, None, grace);
    assert [Begin(0, now)] + run == [Begin(0, now), List(0, now), Begin(1, second), List(1, second), Act(0, third)];
  }

  lemma Resumes(w: World, original: Subscription, now: int, third: int)
    requires 0 in w.polls && w.polls[0] == Listing(now, [original]) && FallsDue(original, now) && w.clock <= third
    ensures Enabled(w, Act(0, third)) && Marks(w, Act(0, third), SubscriptionKey(original))
  {
  }
}
