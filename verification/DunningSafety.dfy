/** Which stored subscriptions every overlap of polls leaves within their grace period
    (packages/dkrypt/src/cryptoBilling.ts:235-244, 249-258): those that never fall due, and those a poll always comes
    to before its first await. */
module DunningSafety {
  import opened Wrappers
  import opened Keyed
  import opened Billing
  import opened BillingInvariants
  import opened Dunning
  import opened DunningPoll

  /** A record no poll ever does anything about. */
  predicate Idle(s: Subscription) {
    s.status.Cancelled? || (s.graceUntil.None? && !(s.status.Active? && s.nextBilledAt.Some?))
  }

  /** The i-th record never falls due, or no poll ever awaits before it comes to it. */
  predicate Sheltered(subscriptions: seq<Subscription>, i: nat)
    requires i < |subscriptions|
  {
    subscriptions[i].nextBilledAt.None? || forall j | 0 <= j < i && Polls(subscriptions[j]) :: Idle(subscriptions[j])
  }

  lemma IdleNeverDue(s: Subscription, pollNow: int)
    requires Idle(s)
    ensures !Due(s, pollNow)
  {
  }

  // ---------------------------------------------------------------- no poll keeps a due copy

  lemma {:induction false} FromDueSkips(before: seq<Subscription>, rest: seq<Subscription>, pollNow: int)
    requires forall c | c in before :: !Due(c, pollNow)
    ensures FromDue(before + rest, pollNow) == FromDue(rest, pollNow)
  {
    if before == [] {
      assert before + rest == rest;
    } else {
      assert (before + rest)[1..] == before[1..] + rest && before[0] in before;
      FromDueSkips(before[1..], rest, pollNow);
    }
  }

  lemma {:induction false} ListedSplit(subscriptions: seq<Subscription>, i: nat)
    requires i <= |subscriptions|
    ensures ListedForPoll(subscriptions) == ListedForPoll(subscriptions[..i]) + ListedForPoll(subscriptions[i..])
    decreases |subscriptions|
  {
    if i == |subscriptions| {
      assert subscriptions[..i] == subscriptions;
    } else {
      var n := |subscriptions| - 1;
      ListedSplit(subscriptions[..n], i);
      assert subscriptions[..n][..i] == subscriptions[..i] && subscriptions[..n][i..] == subscriptions[i..][..n - i];
    }
  }

  /** A polled record is listed first among itself and those after it. */
  lemma {:induction false} ListedFirst(subscriptions: seq<Subscription>)
    requires subscriptions != [] && Polls(subscriptions[0])
    ensures ListedForPoll(subscriptions) != [] && ListedForPoll(subscriptions)[0] == subscriptions[0]
  {
    var n := |subscriptions| - 1;
    if n == 0 {
      assert ListedForPoll(subscriptions[..n]) == [];
    } else {
      ListedFirst(subscriptions[..n]);
    }
  }

  /** After the first due copy of such a list, none of the subscription's is due. */
  lemma TailNotDue(listed: seq<Subscription>, pollNow: int, k: Key)
    requires Unique(listed, SubscriptionKey) && forall c | c in listed && SubscriptionKey(c) == k :: c == listed[0]
    ensures var ahead := FromDue(listed, pollNow);
            ahead != [] ==> forall c | c in ahead[1..] && SubscriptionKey(c) == k :: !Due(c, pollNow)
  {
    var ahead := FromDue(listed, pollNow);
    FromDueKeeps(listed, pollNow);
    if ahead != [] {
      TailApart(ahead);
      assert forall c | c in ahead[1..] :: c in ahead && c in listed;
    }
  }

  lemma TailApart(listed: seq<Subscription>)
    requires Unique(listed, SubscriptionKey) && listed != []
    ensures forall c | c in listed[1..] :: SubscriptionKey(c) != SubscriptionKey(listed[0])
  {
    forall c | c in listed[1..]
      ensures SubscriptionKey(c) != SubscriptionKey(listed[0])
    {
      var j :| 0 <= j < |listed[1..]| && listed[1..][j] == c;
      assert listed[j + 1] == c;
    }
  }

  /** A copy held by a poll: one of an earlier record is as that record is, and one of the subscription is not due. */
  predicate CopySafe(c: Subscription, before: seq<Subscription>, k: Key, pollNow: int) {
    && Polls(c)
    && (c in before || forall j | 0 <= j < |before| :: SubscriptionKey(before[j]) != SubscriptionKey(c))
    && (SubscriptionKey(c) == k ==> !Due(c, pollNow))
  }

  /** The records before the subscription's are as they were, and polls hold safe copies only. */
  ghost predicate Safe(w: World, before: seq<Subscription>, k: Key) {
    && |before| < |w.st.subscriptions| && w.st.subscriptions[..|before|] == before
    && SubscriptionKey(w.st.subscriptions[|before|]) == k
    && forall id, c | id in w.polls && w.polls[id].Listing? && c in w.polls[id].todo ::
         CopySafe(c, before, k, w.polls[id].at)
  }

  /** All records before the subscription's that polls list are idle. */
  predicate AllIdle(before: seq<Subscription>) {
    forall j | 0 <= j < |before| && Polls(before[j]) :: Idle(before[j])
  }

  /** What a listing poll has ahead of it: nothing of the earlier records, and after the first copy nothing due of
      the subscription. */
  lemma ListAheadSafe(w: World, a: Action, before: seq<Subscription>, k: Key)
    requires Sound(w.st) && Safe(w, before, k) && AllIdle(before) && Enabled(w, a) && a.List?
    ensures forall c | c in Ahead(w, a) :: c in w.st.subscriptions && Polls(c)
    ensures Ahead(w, a) != [] ==> forall c | c in Ahead(w, a)[1..] && SubscriptionKey(c) == k :: !Due(c, w.polls[a.id].at)
  {
    hide Sound, Due, Idle;
    var s, i, at := w.st.subscriptions, |before|, w.polls[a.id].at;
    var early, late := ListedForPoll(s[..i]), ListedForPoll(s[i..]);
    SoundKeys(w.st);
    ListedSplit(s, i);
    ListedAreStored(s[..i]);
    ListedAreStored(s[i..]);
    forall c | c in early
      ensures !Due(c, at)
    {
      var j :| 0 <= j < i && s[..i][j] == c;
      IdleNeverDue(before[j], at);
    }
    FromDueSkips(early, late, at);
    FromDueKeeps(late, at);
    LateFirst(s, i, k);
    TailNotDue(late, at, k);
  }

  lemma LateFirst(s: seq<Subscription>, i: nat, k: Key)
    requires Unique(s, SubscriptionKey) && i < |s| && SubscriptionKey(s[i]) == k
    ensures var late := ListedForPoll(s[i..]);
            Unique(late, SubscriptionKey) && forall c | c in late && SubscriptionKey(c) == k :: c == late[0]
  {
    ListedAreStored(s[i..]);
    forall c | c in ListedForPoll(s[i..]) && SubscriptionKey(c) == k
      ensures c == ListedForPoll(s[i..])[0]
    {
      var j :| 0 <= j < |s[i..]| && s[i..][j] == c;
      assert s[i + j] == c && j == 0;
      ListedFirst(s[i..]);
    }
  }

  /** Acting on a record that is not among the first i leaves those, and every record's key. */
  lemma ActedPrefix(st: Stores, c: Subscription, pollNow: int, now: int, grace: int, i: nat)
    requires i < |st.subscriptions| && forall j | 0 <= j < i :: SubscriptionKey(st.subscriptions[j]) != SubscriptionKey(c)
    ensures var after := Acted(st, c, pollNow, now, grace).subscriptions;
            && |after| > i && after[..i] == st.subscriptions[..i]
            && SubscriptionKey(after[i]) == SubscriptionKey(st.subscriptions[i])
  {
    hide Expires, FallsDue;
  }

  /** The safe copies a step leaves behind. */
  lemma AheadSafe(w: World, a: Action, before: seq<Subscription>, k: Key)
    requires Sound(w.st) && Safe(w, before, k) && AllIdle(before) && Enabled(w, a) && (a.List? || a.Act?) && Ahead(w, a) != []
    ensures var ahead, at := Ahead(w, a), w.polls[a.id].at;
            && (forall j | 0 <= j < |before| :: SubscriptionKey(before[j]) != SubscriptionKey(ahead[0]))
            && (forall c | c in ahead[1..] :: CopySafe(c, before, k, at))
            && (a.Act? ==> SubscriptionKey(ahead[0]) != k)
  {
    hide Sound;
    var ahead, at := Ahead(w, a), w.polls[a.id].at;
    if a.List? {
      ListAheadSafe(w, a, before, k);
      forall c | c in ahead
        ensures c in before || forall j | 0 <= j < |before| :: SubscriptionKey(before[j]) != SubscriptionKey(c)
      {
        StoredApart(w.st, before, c);
      }
    } else {
      FromDueKeeps(w.polls[a.id].todo, at);
    }
    assert ahead[0] in ahead;
    FromDueIsDue(w, a);
    forall c | c in before && Polls(c)
      ensures !Due(c, at)
    {
      IdleNeverDue(c, at);
    }
  }

  lemma StoredApart(st: Stores, before: seq<Subscription>, c: Subscription)
    requires Sound(st) && |before| <= |st.subscriptions| && st.subscriptions[..|before|] == before && c in st.subscriptions
    ensures c in before || forall j | 0 <= j < |before| :: SubscriptionKey(before[j]) != SubscriptionKey(c)
  {
    SoundKeys(st);
    hide Sound;
    var n :| 0 <= n < |st.subscriptions| && st.subscriptions[n] == c;
    if n < |before| {
      assert before[n] == c;
    } else {
      assert forall j | 0 <= j < |before| :: before[j] == st.subscriptions[j];
    }
  }

  lemma SafeKept(w: World, a: Action, before: seq<Subscription>, k: Key, grace: int)
    requires Sound(w.st) && Safe(w, before, k) && AllIdle(before) && Enabled(w, a)
    ensures Safe(Next(w, a, grace), before, k)
  {
    hide Sound, Acted, Ahead, CopySafe, AllIdle;
    if (a.List? || a.Act?) && Ahead(w, a) != [] {
      AheadSafe(w, a, before, k);
      ActedPrefix(w.st, Ahead(w, a)[0], w.polls[a.id].at, a.now, grace, |before|);
    }
  }

  /** No poll marks the subscription from a copy it kept. */
  lemma SafeNeverLate(w: World, a: Action, before: seq<Subscription>, original: Subscription, p: Option<int>, grace: int)
    requires Inv(w, original, p, grace) && Safe(w, before, SubscriptionKey(original)) && AllIdle(before) && Enabled(w, a) && p.Some?
    ensures !Marks(w, a, SubscriptionKey(original))
  {
    hide Ahead;
    InvIsSound(w, original, p, grace);
    if a.List? {
      ListingNeverLate(w, a, original, p, grace);
    } else if Subject(w, a).Some? {
      AheadSafe(w, a, before, SubscriptionKey(original));
    }
  }

  lemma {:induction false} SafeMarksOnce(w: World, run: seq<Action>, before: seq<Subscription>, original: Subscription,
                                         p: Option<int>, grace: int)
    requires Inv(w, original, p, grace) && Safe(w, before, SubscriptionKey(original)) && AllIdle(before) && Valid(w, run, grace)
    ensures MarkedOnce(w, run, SubscriptionKey(original), p, grace)
    decreases |run|
  {
    hide Inv, Safe, AllIdle;
    if run == [] {
    } else {
      var a := run[0];
      if p.Some? {
        SafeNeverLate(w, a, before, original, p, grace);
      }
      InvIsSound(w, original, p, grace);
      SafeKept(w, a, before, SubscriptionKey(original), grace);
      StepKeeps(w, a, original, p, grace);
      SafeMarksOnce(Next(w, a, grace), run[1..], before, original, FirstMark(p, w, a, SubscriptionKey(original)), grace);
    }
  }

  lemma StepKeeps(w: World, a: Action, original: Subscription, p: Option<int>, grace: int)
    requires Inv(w, original, p, grace) && Enabled(w, a)
    requires p.Some? && Marks(w, a, SubscriptionKey(original)) ==> a.now == p.value
    ensures Inv(Next(w, a, grace), original, FirstMark(p, w, a, SubscriptionKey(original)), grace)
  {
    hide Inv;
    if Subject(w, a).Some? {
      ActStepKeeps(w, a, original, p, grace);
    } else {
      QuietStepKeeps(w, a, original, p, grace);
    }
  }

  // ---------------------------------------------------------------- what never falls due

  lemma {:induction false} NeverMarked(w: World, run: seq<Action>, original: Subscription, grace: int)
    requires Inv(w, original, None, grace) && original.nextBilledAt.None? && Valid(w, run, grace)
    ensures MarkedOnce(w, run, SubscriptionKey(original), None, grace)
    decreases |run|
  {
    hide Inv;
    if run == [] {
    } else {
      FirstMarkIsDue(w, run[0], original, grace);
      StepKeeps(w, run[0], original, None, grace);
      NeverMarked(Next(w, run[0], grace), run[1..], original, grace);
    }
  }

  // ---------------------------------------------------------------- where an overlap does harm

  function MarkAfter(w: World, run: seq<Action>, k: Key, p: Option<int>, grace: int): Option<int>
    requires Valid(w, run, grace)
    decreases |run|
  {
    if run == [] then p else MarkAfter(Next(w, run[0], grace), run[1..], k, FirstMark(p, w, run[0], k), grace)
  }

  lemma {:induction false} Join(w: World, a: seq<Action>, b: seq<Action>, k: Key, p: Option<int>, grace: int)
    requires Valid(w, a, grace) && Valid(After(w, a, grace), b, grace)
    ensures Valid(w, a + b, grace) && After(w, a + b, grace) == After(After(w, a, grace), b, grace)
    ensures MarkAfter(w, a + b, k, p, grace) == MarkAfter(After(w, a, grace), b, k, MarkAfter(w, a, k, p, grace), grace)
    ensures MarkedOnce(w, a + b, k, p, grace) ==>
              MarkedOnce(w, a, k, p, grace) && MarkedOnce(After(w, a, grace), b, k, MarkAfter(w, a, k, p, grace), grace)
    decreases |a|
  {
    hide Next, Enabled, Marks, FirstMark;
    if a == [] {
      assert a + b == b;
    } else {
      assert (a + b)[0] == a[0] && (a + b)[1..] == a[1..] + b;
      Join(Next(w, a[0], grace), a[1..], b, k, FirstMark(p, w, a[0], k), grace);
    }
  }

  lemma {:induction false} InvAfter(w: World, run: seq<Action>, original: Subscription, p: Option<int>, grace: int)
    requires Inv(w, original, p, grace) && Valid(w, run, grace) && MarkedOnce(w, run, SubscriptionKey(original), p, grace)
    ensures Inv(After(w, run, grace), original, MarkAfter(w, run, SubscriptionKey(original), p, grace), grace)
    decreases |run|
  {
    hide Inv, Next, Enabled, Marks, FirstMark;
    if run == [] {
    } else {
      StepKeeps(w, run[0], original, p, grace);
      InvAfter(Next(w, run[0], grace), run[1..], original, FirstMark(p, w, run[0], SubscriptionKey(original)), grace);
    }
  }

  lemma {:induction false} FromDueEarly(early: seq<Subscription>, late: seq<Subscription>, pollNow: int)
    requires exists c :: c in early && Due(c, pollNow)
    ensures FromDue(early, pollNow) != [] && FromDue(early + late, pollNow) == FromDue(early, pollNow) + late
  {
    assert (early + late)[1..] == early[1..] + late;
    if Due(early[0], pollNow) {
    } else {
      var c :| c in early && Due(c, pollNow);
      assert c in early[1..];
      FromDueEarly(early[1..], late, pollNow);
    }
  }

  /** When a record that is not idle is due. */
  function DueBy(s: Subscription): int
    requires !Idle(s)
  {
    if s.graceUntil.Some? then s.graceUntil.value else s.nextBilledAt.value
  }

  lemma DueThen(s: Subscription, pollNow: int)
    requires !Idle(s) && DueBy(s) <= pollNow
    ensures Due(s, pollNow)
  {
  }

  /** Listed: what comes from before the i-th record, the first of it due, and the rest with the record itself. */
  lemma ListedAround(s: seq<Subscription>, i: nat, j: nat, pollNow: int) returns (early: seq<Subscription>, late: seq<Subscription>)
    requires j < i < |s| && Polls(s[j]) && Due(s[j], pollNow) && Polls(s[i])
    ensures ListedForPoll(s) == early + late
    ensures FromDue(ListedForPoll(s), pollNow) == FromDue(early, pollNow) + late && FromDue(early, pollNow) != []
    ensures (forall c | c in early :: c in s[..i]) && s[i] in late
  {
    hide Due, Polls;
    early, late := ListedForPoll(s[..i]), ListedForPoll(s[i..]);
    ListedSplit(s, i);
    assert s[..i][j] in s[..i] && s[i..][0] in s[i..];
    ListedIfPolled(s[..i], s[j]);
    ListedIfPolled(s[i..], s[i]);
    FromDueEarly(early, late, pollNow);
    ListedAreStored(s[..i]);
  }

  /** A poll that lists a due record before the subscription deals with an earlier one first and keeps a copy. */
  lemma KeepsCopy(s: seq<Subscription>, i: nat, j: nat, pollNow: int)
    requires Unique(s, SubscriptionKey) && j < i < |s| && Polls(s[j]) && Due(s[j], pollNow) && Polls(s[i])
    ensures var ahead := FromDue(ListedForPoll(s), pollNow);
            && ahead != [] && SubscriptionKey(ahead[0]) != SubscriptionKey(s[i])
            && s[i] in ahead[1..] && Unique(ahead[1..], SubscriptionKey)
  {
    var early, late := ListedAround(s, i, j, pollNow);
    FromDueKeeps(early, pollNow);
    ListedAreStored(s);
    FromDueKeeps(ListedForPoll(s), pollNow);
    hide ListedForPoll, FromDue, Due, Polls;
    var ahead := FromDue(ListedForPoll(s), pollNow);
    UniqueRest(ahead);
    assert ahead[0] in s[..i] by { assert ahead[0] == FromDue(early, pollNow)[0]; }
    EarlierKey(s, i, ahead[0]);
    assert s[i] in ahead;
  }

  lemma EarlierKey(s: seq<Subscription>, i: nat, c: Subscription)
    requires Unique(s, SubscriptionKey) && i < |s| && c in s[..i]
    ensures SubscriptionKey(c) != SubscriptionKey(s[i])
  {
    var n :| 0 <= n < i && s[..i][n] == c;
    assert s[n] == c;
  }

  /** A poll that holds a due copy of a subscription another has marked meanwhile marks it again, at a later moment. */
  lemma {:induction false} Resumed(w: World, id: int, original: Subscription, p: Option<int>, grace: int) returns (run: seq<Action>)
    requires Inv(w, original, p, grace) && p.Some? && id in w.polls && w.polls[id].Listing?
    requires original in w.polls[id].todo && Unique(w.polls[id].todo, SubscriptionKey) && FallsDue(original, w.polls[id].at)
    ensures Valid(w, run, grace) && !MarkedOnce(w, run, SubscriptionKey(original), p, grace)
    decreases if id in w.polls && w.polls[id].Listing? then |w.polls[id].todo| else 0
  {
    var a, k := Act(id, w.clock + 1), SubscriptionKey(original);
    var poll := w.polls[id];
    FromDueKeeps(poll.todo, poll.at);
    FromDueShorter(poll.todo, poll.at);
    ClockPast(w, original, p, grace);
    hide Inv, FromDue, FallsDue, Expires, Acted;
    var ahead := Ahead(w, a);
    var next := Next(w, a, grace);
    if ahead[0] == original {
      run := [a];
    } else {
      assert SubscriptionKey(ahead[0]) != k by { UniqueKey(ahead, ahead[0], original); }
      StepKeeps(w, a, original, p, grace);
      UniqueRest(ahead);
      var rest := Resumed(next, id, original, p, grace);
      run := [a] + rest;
      assert run[1..] == rest;
    }
  }

  lemma ClockPast(w: World, original: Subscription, p: Option<int>, grace: int)
    requires Inv(w, original, p, grace) && p.Some?
    ensures p.value <= w.clock
  {
  }

  lemma UniqueKey(s: seq<Subscription>, a: Subscription, b: Subscription)
    requires Unique(s, SubscriptionKey) && a in s && b in s && a != b
    ensures SubscriptionKey(a) != SubscriptionKey(b)
  {
    var i :| 0 <= i < |s| && s[i] == a;
    var j :| 0 <= j < |s| && s[j] == b;
    assert i < j || j < i;
  }

  lemma UniqueRest(s: seq<Subscription>)
    requires Unique(s, SubscriptionKey) && s != []
    ensures Unique(s[1..], SubscriptionKey) && forall c | c in s && c != s[0] :: c in s[1..]
  {
    assert s == [s[0]] + s[1..];
  }

  lemma {:induction false} FromDueShorter(todo: seq<Subscription>, pollNow: int)
    ensures |FromDue(todo, pollNow)| <= |todo|
  {
    if todo == [] {
    } else {
      FromDueShorter(todo[1..], pollNow);
    }
  }

  /** The first of two polls lists, deals with an earlier record and awaits, holding a copy of the subscription. */
  lemma FirstAwaits(w: World, original: Subscription, i: nat, j: nat, at: int, grace: int) returns (w2: World)
    requires Start(w, original) && grace > 0 && j < i < |w.st.subscriptions| && w.st.subscriptions[i] == original
    requires Polls(w.st.subscriptions[j]) && Due(w.st.subscriptions[j], at) && w.clock <= at
    ensures var run, k := [Begin(0, at), List(0, at)], SubscriptionKey(original);
            && Valid(w, run, grace) && w2 == After(w, run, grace) && MarkAfter(w, run, k, None, grace) == None
    ensures Inv(w2, original, None, grace) && w2.clock == at && 1 !in w2.polls
    ensures 0 in w2.polls && w2.polls[0].Listing? && w2.polls[0].at == at
    ensures original in w2.polls[0].todo && Unique(w2.polls[0].todo, SubscriptionKey)
  {
    var k := SubscriptionKey(original);
    SoundKeys(w.st);
    KeepsCopy(w.st.subscriptions, i, j, at);
    StartInv(w, original, grace);
    hide Inv, FromDue, ListedForPoll, Acted, Due;
    var w1 := Next(w, Begin(0, at), grace);
    StepKeeps(w, Begin(0, at), original, None, grace);
    var ahead := Ahead(w1, List(0, at));
    StepKeeps(w1, List(0, at), original, None, grace);
    w2 := Next(w1, List(0, at), grace);
    TwoSteps(w, Begin(0, at), List(0, at), k, None, grace);
  }

  lemma OneStep(w: World, a: Action, k: Key, p: Option<int>, grace: int)
    requires Enabled(w, a)
    ensures Valid(w, [a], grace) && After(w, [a], grace) == Next(w, a, grace)
    ensures MarkAfter(w, [a], k, p, grace) == FirstMark(p, w, a, k)
  {
    hide Next, Enabled, FirstMark;
    assert [a][1..] == [];
  }

  lemma TwoSteps(w: World, a: Action, b: Action, k: Key, p: Option<int>, grace: int)
    requires Enabled(w, a) && Enabled(Next(w, a, grace), b)
    ensures Valid(w, [a, b], grace) && After(w, [a, b], grace) == Next(Next(w, a, grace), b, grace)
    ensures MarkAfter(w, [a, b], k, p, grace) == FirstMark(FirstMark(p, w, a, k), Next(w, a, grace), b, k)
  {
    hide Next, Enabled, FirstMark;
    OneStep(Next(w, a, grace), b, k, FirstMark(p, w, a, k), grace);
    assert [a, b][0] == a && [a, b][1..] == [b];
  }

  /** The second poll goes through without an interruption, and the first then marks the subscription again, unless
      that happened before. */
  lemma SecondAndResumed(w: World, original: Subscription, at: int, grace: int) returns (run: seq<Action>)
    requires Inv(w, original, None, grace) && w.clock == at && 1 !in w.polls && FallsDue(original, at)
    requires 0 in w.polls && w.polls[0].Listing? && w.polls[0].at == at
    requires original in w.polls[0].todo && Unique(w.polls[0].todo, SubscriptionKey)
    ensures Valid(w, run, grace) && !MarkedOnce(w, run, SubscriptionKey(original), None, grace)
  {
    var k := SubscriptionKey(original);
    StepKeeps(w, Begin(1, at), original, None, grace);
    OneStep(w, Begin(1, at), k, None, grace);
    var w3 := Next(w, Begin(1, at), grace);
    hide Inv, ListedForPoll, FallsDue, Next;
    var times := seq(|ListedForPoll(w3.st.subscriptions)|, _ => at);
    var poll := PollActsOnAll(w3, 1, at, times, grace);
    var rest := AfterSecond(w3, original, at, poll, grace);
    Join(w, [Begin(1, at)], rest, k, None, grace);
    run := [Begin(1, at)] + rest;
  }

  lemma AfterSecond(w3: World, original: Subscription, at: int, poll: seq<Action>, grace: int) returns (run: seq<Action>)
    requires Inv(w3, original, None, grace) && FallsDue(original, at) && Valid(w3, poll, grace)
    requires After(w3, poll, grace).polls == w3.polls[1 := Listing(at, [])]
    requires 0 in w3.polls && w3.polls[0].Listing? && w3.polls[0].at == at
    requires original in w3.polls[0].todo && Unique(w3.polls[0].todo, SubscriptionKey)
    ensures Valid(w3, run, grace) && !MarkedOnce(w3, run, SubscriptionKey(original), None, grace)
  {
    var k := SubscriptionKey(original);
    if !MarkedOnce(w3, poll, k, None, grace) {
      run := poll;
    } else {
      var w4, p := After(w3, poll, grace), MarkAfter(w3, poll, k, None, grace);
      InvAfter(w3, poll, original, None, grace);
      DuePollMarks(w4, 1, original, p, grace);
      hide Inv, Next, Enabled, FallsDue;
      var again := Resumed(w4, 0, original, p, grace);
      Join(w3, poll, again, k, None, grace);
      run := poll + again;
    }
  }

  /** Before a subscription with an earlier record that is not idle, two polls can overlap to its harm. */
  lemma HarmfulRun(w: World, original: Subscription, i: nat, grace: int) returns (run: seq<Action>)
    requires Start(w, original) && grace > 0 && i < |w.st.subscriptions| && w.st.subscriptions[i] == original
    requires !Sheltered(w.st.subscriptions, i)
    ensures Valid(w, run, grace) && !MarkedOnce(w, run, SubscriptionKey(original), None, grace)
  {
    var s := w.st.subscriptions;
    var j :| 0 <= j < i && Polls(s[j]) && !Idle(s[j]);
    var due := if DueBy(s[j]) < original.nextBilledAt.value then original.nextBilledAt.value else DueBy(s[j]);
    var at := if due < w.clock then w.clock else due;
    DueThen(s[j], at);
    var w2 := FirstAwaits(w, original, i, j, at, grace);
    assert FallsDue(original, at);
    hide Start, Inv, Valid, MarkedOnce, MarkAfter, After, Due, FallsDue;
    var rest := SecondAndResumed(w2, original, at, grace);
    var first := [Begin(0, at), List(0, at)];
    Join(w, first, rest, SubscriptionKey(original), None, grace);
    run := first + rest;
  }

  // ---------------------------------------------------------------- exactly which

  lemma ShelteredRun(w: World, run: seq<Action>, original: Subscription, i: nat, grace: int)
    requires Start(w, original) && grace > 0 && i < |w.st.subscriptions| && w.st.subscriptions[i] == original
    requires Sheltered(w.st.subscriptions, i) && Valid(w, run, grace)
    ensures MarkedOnce(w, run, SubscriptionKey(original), None, grace)
  {
    StartInv(w, original, grace);
    if original.nextBilledAt.None? {
      NeverMarked(w, run, original, grace);
    } else {
      SafeMarksOnce(w, run, w.st.subscriptions[..i], original, None, grace);
    }
  }

  /** Every interleaving of polls, whatever their clocks, leaves a subscription its plan exactly until the grace
      period after its first mark ends, if and only if the subscription never falls due or all crypto
      subscriptions stored before it are idle. */
  lemma BoundedExactlyWhenSheltered(w: World, original: Subscription, i: nat, grace: int)
    requires Start(w, original) && grace > 0 && i < |w.st.subscriptions| && w.st.subscriptions[i] == original
    ensures (forall run | Valid(w, run, grace) :: BoundedThroughout(w, run, SubscriptionKey(original), None, grace))
            <==> Sheltered(w.st.subscriptions, i)
  {
    hide Start, Sheltered, BoundedThroughout, MarkedOnce, Valid, Inv;
    StartInv(w, original, grace);
    if Sheltered(w.st.subscriptions, i) {
      forall run | Valid(w, run, grace)
        ensures BoundedThroughout(w, run, SubscriptionKey(original), None, grace)
      {
        ShelteredRun(w, run, original, i, grace);
        BoundedExactlyWhenMarkedOnce(w, run, original, None, grace);
      }
    } else {
      var run := HarmfulRun(w, original, i, grace);
      BoundedExactlyWhenMarkedOnce(w, run, original, None, grace);
    }
  }

  /** With a single subscription stored, no overlap of polls does harm. */
  lemma SoleIsBounded(w: World, run: seq<Action>, original: Subscription, grace: int)
    requires Start(w, original) && grace > 0 && Valid(w, run, grace) && |w.st.subscriptions| == 1
    ensures BoundedThroughout(w, run, SubscriptionKey(original), None, grace)
  {
    assert w.st.subscriptions[0] == original && Sheltered(w.st.subscriptions, 0);
    hide Start, Sheltered, BoundedThroughout, Valid;
    BoundedExactlyWhenSheltered(w, original, 0, grace);
  }
}
