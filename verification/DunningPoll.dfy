/** A poll for renewals that nothing interrupts does in steps what the method of `Dunning.DunningPoller` does at once
    (packages/dkrypt/src/cryptoBilling.ts:235-244). */
module DunningPoll {
  import opened Billing
  import opened Dunning

  function After(w: World, run: seq<Action>, grace: int): World
    requires Valid(w, run, grace)
    decreases |run|
  {
    if run == [] then w else After(Next(w, run[0], grace), run[1..], grace)
  }

  /** Clock readings that never go back. */
  predicate Onward(clock: int, times: seq<int>) {
    forall i | 0 <= i < |times| :: clock <= times[i] && forall j | i < j < |times| :: times[i] <= times[j]
  }

  /** Acting on a list begins with its first copy. */
  lemma {:induction false} ActedFirst(st: Stores, todo: seq<Subscription>, pollNow: int, times: seq<int>, grace: int)
    requires todo != [] && |times| == |todo|
    ensures ActedOnAll(st, todo, pollNow, times, grace)
            == ActedOnAll(Acted(st, todo[0], pollNow, times[0], grace), todo[1..], pollNow, times[1..], grace)
    decreases |todo|
  {
    hide Acted;
    var n := |todo| - 1;
    if n == 0 {
    } else {
      ActedFirst(st, todo[..n], pollNow, times[..n], grace);
      assert todo[1..][..n - 1] == todo[..n][1..] && times[1..][..n - 1] == times[..n][1..];
    }
  }

  lemma NotDue(st: Stores, s: Subscription, pollNow: int, now: int, grace: int)
    requires !Due(s, pollNow)
    ensures Acted(st, s, pollNow, now, grace) == st
  {
  }

  /** The world with a poll's copies set. */
  function WithTodo(w: World, id: int, at: int, todo: seq<Subscription>): World {
    w.(polls := w.polls[id := Listing(at, todo)])
  }

  /** Passing over a copy that is not due changes no step. */
  lemma PassesOver(w: World, id: int, at: int, todo: seq<Subscription>, now: int, grace: int)
    requires todo != [] && !Due(todo[0], at) && w.clock <= now
    ensures Enabled(WithTodo(w, id, at, todo), Act(id, now))
    ensures todo[1..] != [] ==> Next(WithTodo(w, id, at, todo), Act(id, now), grace) == Next(WithTodo(w, id, at, todo[1..]), Act(id, now), grace)
    ensures todo[1..] == [] ==> Next(WithTodo(w, id, at, todo), Act(id, now), grace) == WithTodo(w.(clock := now), id, at, [])
  {
    hide Acted;
    var u, v := WithTodo(w, id, at, todo), WithTodo(w, id, at, todo[1..]);
    var ahead := FromDue(todo, at);
    assert ahead == FromDue(todo[1..], at);
    var rest := Listing(at, if ahead == [] then [] else ahead[1..]);
    assert u.polls[id := rest] == w.polls[id := rest] == v.polls[id := rest];
  }

  lemma Proceed(w: World, id: int, at: int, todo: seq<Subscription>, now: int, grace: int)
    requires todo != [] && Due(todo[0], at) && w.clock <= now
    ensures Enabled(WithTodo(w, id, at, todo), Act(id, now))
    ensures Next(WithTodo(w, id, at, todo), Act(id, now), grace)
            == WithTodo(World(Acted(w.st, todo[0], at, now, grace), now, w.polls), id, at, todo[1..])
  {
    hide Acted;
    var rest := Listing(at, todo[1..]);
    assert WithTodo(w, id, at, todo).polls[id := rest] == w.polls[id := rest];
  }

  /** The rest of a poll, step by step and uninterrupted. */
  lemma {:induction false} Walk(w: World, id: int, at: int, todo: seq<Subscription>, times: seq<int>, grace: int) returns (run: seq<Action>)
    requires |times| == |todo| && Onward(w.clock, times)
    ensures Valid(WithTodo(w, id, at, todo), run, grace) && (run == [] <==> todo == [])
    ensures forall a | a in run :: a.Act? && a.id == id && w.clock <= a.now
    ensures var last := After(WithTodo(w, id, at, todo), run, grace);
            last.st == ActedOnAll(w.st, todo, at, times, grace) && last.polls == w.polls[id := Listing(at, [])]
    decreases |todo|
  {
    hide Enabled, Next, Acted, Due;
    if todo == [] {
      run := [];
    } else if Due(todo[0], at) {
      ActedFirst(w.st, todo, at, times, grace);
      Proceed(w, id, at, todo, times[0], grace);
      var next := World(Acted(w.st, todo[0], at, times[0], grace), times[0], w.polls);
      var rest := Walk(next, id, at, todo[1..], times[1..], grace);
      run := [Act(id, times[0])] + rest;
      assert run[1..] == rest;
    } else {
      ActedFirst(w.st, todo, at, times, grace);
      NotDue(w.st, todo[0], at, times[0], grace);
      run := Walk(w, id, at, todo[1..], times[1..], grace);
      if run == [] {
        PassesOver(w, id, at, todo, w.clock, grace);
        run := [Act(id, w.clock)];
        assert run[1..] == [];
      } else {
        assert run[0] in run;
        PassesOver(w, id, at, todo, run[0].now, grace);
      }
    }
  }

  /** Listing is resuming with the whole list. */
  lemma ListIsAct(w: World, id: int, at: int, now: int, grace: int)
    requires id in w.polls && w.polls[id] == Started(at) && w.clock <= now
    ensures Enabled(w, List(id, now))
    ensures var listed := ListedForPoll(w.st.subscriptions);
            Next(w, List(id, now), grace) == if listed == [] then WithTodo(w.(clock := now), id, at, [])
                                             else Next(WithTodo(w, id, at, listed), Act(id, now), grace)
  {
    hide Acted;
    var listed := ListedForPoll(w.st.subscriptions);
    var ahead := FromDue(listed, at);
    var rest := Listing(at, if ahead == [] then [] else ahead[1..]);
    assert WithTodo(w, id, at, listed).polls[id := rest] == w.polls[id := rest];
  }

  /** A poll that nothing interrupts acts on every copy it listed, in turn. */
  lemma PollActsOnAll(w: World, id: int, at: int, times: seq<int>, grace: int) returns (run: seq<Action>)
    requires id in w.polls && w.polls[id] == Started(at)
    requires |times| == |ListedForPoll(w.st.subscriptions)| && Onward(w.clock, times)
    ensures Valid(w, run, grace) && forall a | a in run :: (a.List? || a.Act?) && a.id == id
    ensures After(w, run, grace).st == ActedOnAll(w.st, ListedForPoll(w.st.subscriptions), at, times, grace)
    ensures After(w, run, grace).polls == w.polls[id := Listing(at, [])]
  {
    hide Enabled, Next, Acted, ListedForPoll;
    var listed := ListedForPoll(w.st.subscriptions);
    var walk := Walk(w, id, at, listed, times, grace);
    if walk == [] {
      ListIsAct(w, id, at, w.clock, grace);
      run := [List(id, w.clock)];
      assert run[1..] == [];
    } else {
      assert walk[0] in walk;
      ListIsAct(w, id, at, walk[0].now, grace);
      run := [List(id, walk[0].now)] + walk[1..];
      assert run[1..] == walk[1..];
    }
  }
}
