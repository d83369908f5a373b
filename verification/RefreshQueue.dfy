/** The coalescing refresh queue (packages/dkrypt/src/deviceHealth.ts:454-489), as the synchronous pieces its
    asynchronous code runs in: a request, the end of waiting for another poll, a refresh settling, the loop going
    on after it, and the removal of the finished entry. */
module RefreshQueue {

  /** Where the loop of an entry stands. Its `running` flag is set in all phases but the first. */
  datatype Phase = AwaitingOther | Refreshing | Settled(ok: bool) | Finishing(ok: bool)

  /** An entry of the `active` map; the generation tells its shared promise from earlier and later ones. */
  datatype Entry = Entry(generation: nat, phase: Phase, rerun: bool)

  /** What happened, in order. A request is late when it arrives after its entry's last look at `rerun`. */
  datatype Mark =
    | Requested(device: string, generation: nat, late: bool)
    | Started(device: string, generation: nat)
    | Ended(device: string, generation: nat, ok: bool)
    | PromiseSettled(device: string, generation: nat, ok: bool)

  datatype Queue = Queue(active: map<string, Entry>, next: nat, log: seq<Mark>)

  datatype Action =
    | Request(device: string, waits: bool)
    | WaitOver(device: string)
    | Settle(device: string, ok: bool)
    | Resume(device: string)
    | Remove(device: string)

  predicate Enabled(q: Queue, a: Action) {
    a.Request? || (a.device in q.active && match a
                                           case WaitOver(d) => q.active[d].phase.AwaitingOther?
                                           case Settle(d, _) => q.active[d].phase.Refreshing?
                                           case Resume(d) => q.active[d].phase.Settled?
                                           case _ => q.active[a.device].phase.Finishing?)
  }

  function Next(q: Queue, a: Action): Queue
    requires Enabled(q, a)
  {
    match a
    case Request(d, waits) =>
      if d in q.active then
        var e := q.active[d];
        Queue(q.active[d := if e.phase.AwaitingOther? then e else e.(rerun := true)], q.next,
              q.log + [Requested(d, e.generation, e.phase.Finishing?)])
      else if waits then
        Queue(q.active[d := Entry(q.next, AwaitingOther, false)], q.next + 1, q.log + [Requested(d, q.next, false)])
      else
        Queue(q.active[d := Entry(q.next, Refreshing, false)], q.next + 1,
              q.log + [Requested(d, q.next, false)] + [Started(d, q.next)])
    case WaitOver(d) =>
      var e := q.active[d];
      q.(active := q.active[d := Entry(e.generation, Refreshing, false)], log := q.log + [Started(d, e.generation)])
    case Settle(d, ok) =>
      var e := q.active[d];
      q.(active := q.active[d := e.(phase := Settled(ok))], log := q.log + [Ended(d, e.generation, ok)])
    case Resume(d) =>
      var e := q.active[d];
      if e.rerun then
        q.(active := q.active[d := Entry(e.generation, Refreshing, false)], log := q.log + [Started(d, e.generation)])
      else
        q.(active := q.active[d := e.(phase := Finishing(e.phase.ok))])
    case Remove(d) =>
      var e := q.active[d];
      q.(active := q.active - {d}, log := q.log + [PromiseSettled(d, e.generation, e.phase.ok)])
  }

  predicate Valid(q: Queue, run: seq<Action>)
    decreases |run|
  {
    run != [] ==> Enabled(q, run[0]) && Valid(Next(q, run[0]), run[1..])
  }

  function After(q: Queue, run: seq<Action>): Queue
    requires Valid(q, run)
    decreases |run|
  {
    if run == [] then q else After(Next(q, run[0]), run[1..])
  }

  const EMPTY := Queue(map[], 0, [])

  /** The queue object: `request` and the pieces of its loop. */
  class DeviceHealthRefreshQueue {
    var active: map<string, Entry>
    var next: nat
    ghost var log: seq<Mark>

    ghost function View(): Queue
      reads this
    {
      Queue(active, next, log)
    }

    constructor ()
      ensures View() == EMPTY
    {
      active, next, log := map[], 0, [];
    }

    /** Returns the generation of the promise the caller shares. */
    method RequestRefresh(device: string, waits: bool) returns (generation: nat)
      modifies this
      ensures View() == Next(old(View()), Request(device, waits))
      ensures device in active && generation == active[device].generation
    {
      if device in active {
        var current := active[device];
        log := log + [Requested(device, current.generation, current.phase.Finishing?)];
        if !current.phase.AwaitingOther? {
          current := current.(rerun := true);
        }
        active := active[device := current];
        return current.generation;
      }
      generation := next;
      next := next + 1;
      log := log + [Requested(device, generation, false)];
      if waits {
        active := active[device := Entry(generation, AwaitingOther, false)];
      } else {
        active := active[device := Entry(generation, Refreshing, false)];
        log := log + [Started(device, generation)];
      }
    }

    method BeginRefresh(device: string)
      requires Enabled(View(), WaitOver(device))
      modifies this
      ensures View() == Next(old(View()), WaitOver(device))
    {
      log := log + [Started(device, active[device].generation)];
      active := active[device := Entry(active[device].generation, Refreshing, false)];
    }

    method RefreshSettled(device: string, ok: bool)
      requires Enabled(View(), Settle(device, ok))
      modifies this
      ensures View() == Next(old(View()), Settle(device, ok))
    {
      log := log + [Ended(device, active[device].generation, ok)];
      active := active[device := active[device].(phase := Settled(ok))];
    }

    method ContinueLoop(device: string)
      requires Enabled(View(), Resume(device))
      modifies this
      ensures View() == Next(old(View()), Resume(device))
    {
      var entry := active[device];
      if entry.rerun {
        log := log + [Started(device, entry.generation)];
        active := active[device := Entry(entry.generation, Refreshing, false)];
      } else {
        active := active[device := entry.(phase := Finishing(entry.phase.ok))];
      }
    }

    method RemoveEntry(device: string) returns (ok: bool)
      requires Enabled(View(), Remove(device))
      modifies this
      ensures View() == Next(old(View()), Remove(device)) && ok == old(active)[device].phase.ok
    {
      ok := active[device].phase.ok;
      log := log + [PromiseSettled(device, active[device].generation, ok)];
      active := active - {device};
    }
  }

  // ---------------------------------------------------------------- no two refreshes at once

  /** Refreshes of a device under way: started and not ended. */
  function UnderWay(log: seq<Mark>, d: string): int {
    if log == [] then 0
    else
      UnderWay(log[..|log| - 1], d)
      + match log[|log| - 1]
        case Started(x, _) => if x == d then 1 else 0
        case Ended(x, _, _) => if x == d then -1 else 0
        case _ => 0
  }

  /** Exactly the devices in the refreshing phase have a refresh under way, and they have one. */
  ghost predicate OneAtATime(q: Queue) {
    forall d :: UnderWay(q.log, d) == if Runs(q, d) then 1 else 0
  }

  lemma UnderWayNext(log: seq<Mark>, m: Mark, d: string)
    ensures UnderWay(log + [m], d) == UnderWay(log, d) + match m
                                                         case Started(x, _) => if x == d then 1 else 0
                                                         case Ended(x, _, _) => if x == d then -1 else 0
                                                         case _ => 0
  {
  }

  predicate Runs(q: Queue, d: string) {
    d in q.active && q.active[d].phase.Refreshing?
  }

  lemma StepUnderWay(q: Queue, a: Action, d: string)
    requires Enabled(q, a) && UnderWay(q.log, d) == if Runs(q, d) then 1 else 0
    ensures UnderWay(Next(q, a).log, d) == if Runs(Next(q, a), d) then 1 else 0
  {
    hide UnderWay;
    match a
    case Request(x, waits) =>
      if x in q.active {
        UnderWayNext(q.log, Requested(x, q.active[x].generation, q.active[x].phase.Finishing?), d);
      } else {
        UnderWayNext(q.log, Requested(x, q.next, false), d);
        UnderWayNext(q.log + [Requested(x, q.next, false)], Started(x, q.next), d);
      }
    case WaitOver(x) => UnderWayNext(q.log, Started(x, q.active[x].generation), d);
    case Settle(x, ok) => UnderWayNext(q.log, Ended(x, q.active[x].generation, ok), d);
    case Resume(x) => UnderWayNext(q.log, Started(x, q.active[x].generation), d);
    case Remove(x) => UnderWayNext(q.log, PromiseSettled(x, q.active[x].generation, q.active[x].phase.ok), d);
  }

  lemma StepOneAtATime(q: Queue, a: Action)
    requires OneAtATime(q) && Enabled(q, a)
    ensures OneAtATime(Next(q, a))
  {
    hide Next, UnderWay;
    forall d
      ensures UnderWay(Next(q, a).log, d) == if Runs(Next(q, a), d) then 1 else 0
    {
      assert UnderWay(q.log, d) == if Runs(q, d) then 1 else 0;
      StepUnderWay(q, a, d);
    }
  }

  /** In every run, at every moment, at most one refresh of a device is under way. */
  lemma {:induction false} NeverTwoRefreshes(q: Queue, run: seq<Action>, d: string)
    requires OneAtATime(q) && Valid(q, run)
    ensures OneAtATime(After(q, run)) && 0 <= UnderWay(After(q, run).log, d) <= 1
    decreases |run|
  {
    hide Next, Enabled;
    if run == [] {
    } else {
      StepOneAtATime(q, run[0]);
      NeverTwoRefreshes(Next(q, run[0]), run[1..], d);
    }
  }

  // ---------------------------------------------------------------- which requests are covered

  /** A refresh for the request's own promise starts after the request. */
  predicate Covered(log: seq<Mark>, i: nat)
    requires i < |log| && log[i].Requested?
  {
    exists j :: i < j < |log| && log[j] == Started(log[i].device, log[i].generation)
  }

  predicate Open(q: Queue, d: string, g: nat) {
    d in q.active && q.active[d].generation == g
  }

  /** A request is answered, or will be by a refresh its entry is still bound to start. */
  predicate Promised(q: Queue, i: nat)
    requires i < |q.log| && q.log[i].Requested?
  {
    var m := q.log[i];
    if Open(q, m.device, m.generation) && !q.active[m.device].phase.Finishing? then
      !m.late && (q.active[m.device].phase.AwaitingOther? || q.active[m.device].rerun || Covered(q.log, i))
    else
      Covered(q.log, i) <==> !m.late
  }

  ghost predicate Inv(q: Queue) {
    && (forall d | d in q.active :: q.active[d].generation < q.next)
    && (forall i | 0 <= i < |q.log| :: q.log[i].generation < q.next)
    && (forall i | 0 <= i < |q.log| && q.log[i].Requested? :: Promised(q, i))
  }

  lemma CoveredGrows(log: seq<Mark>, more: seq<Mark>, i: nat)
    requires i < |log| && log[i].Requested?
    ensures (log + more)[i] == log[i]
    ensures Covered(log + more, i) <==> Covered(log, i) || Started(log[i].device, log[i].generation) in more
  {
    var all := log + more;
    if Covered(log, i) {
      var j :| i < j < |log| && log[j] == Started(log[i].device, log[i].generation);
      assert all[j] == log[j];
    }
    if Started(log[i].device, log[i].generation) in more {
      var j :| 0 <= j < |more| && more[j] == Started(log[i].device, log[i].generation);
      assert all[|log| + j] == more[j];
    }
  }

  function Added(q: Queue, a: Action): seq<Mark>
    requires Enabled(q, a)
    ensures Next(q, a).log == q.log + Added(q, a)
  {
    var n := Next(q, a);
    assert n.log[..|q.log|] == q.log;
    n.log[|q.log|..]
  }

  lemma StepPromised(q: Queue, a: Action, i: nat)
    requires Inv(q) && Enabled(q, a) && i < |q.log| && q.log[i].Requested?
    ensures Next(q, a).log[i] == q.log[i] && Promised(Next(q, a), i)
  {
    CoveredGrows(q.log, Added(q, a), i);
    assert Promised(q, i);
    assert q.log[i].generation < q.next;
  }

  lemma NewPromised(q: Queue, a: Action, i: nat)
    requires Inv(q) && Enabled(q, a) && |q.log| <= i < |Next(q, a).log| && Next(q, a).log[i].Requested?
    ensures Promised(Next(q, a), i)
  {
    var n := Next(q, a);
    assert a.Request? && i == |q.log|;
    if a.device !in q.active && !a.waits {
      assert n.log[i + 1] == Started(a.device, q.next);
    }
  }

  lemma StepKeeps(q: Queue, a: Action)
    requires Inv(q) && Enabled(q, a)
    ensures Inv(Next(q, a))
  {
    var n := Next(q, a);
    forall i | 0 <= i < |n.log| && n.log[i].Requested?
      ensures Promised(n, i)
    {
      if i < |q.log| {
        assert n.log[i] == (q.log + Added(q, a))[i];
        StepPromised(q, a, i);
      } else {
        NewPromised(q, a, i);
      }
    }
    assert n.log == q.log + Added(q, a);
  }

  lemma {:induction false} RunKeeps(q: Queue, run: seq<Action>)
    requires Inv(q) && Valid(q, run)
    ensures Inv(After(q, run))
    decreases |run|
  {
    hide Inv, Next, Enabled;
    if run == [] {
    } else {
      StepKeeps(q, run[0]);
      RunKeeps(Next(q, run[0]), run[1..]);
    }
  }

  /** Once a request's entry is gone, a refresh for its promise started after it exactly when it was not late:
      it arrived before the loop's last look at `rerun`. */
  lemma CoveredExactlyWhenNotLate(run: seq<Action>, i: nat)
    requires Valid(EMPTY, run)
    requires var q := After(EMPTY, run);
             i < |q.log| && q.log[i].Requested? && !Open(q, q.log[i].device, q.log[i].generation)
    ensures var q := After(EMPTY, run); Covered(q.log, i) <==> !q.log[i].late
  {
    RunKeeps(EMPTY, run);
    assert Promised(After(EMPTY, run), i);
  }

  /** A request between the last look at `rerun` and the removal is lost: its promise settles with no refresh
      after it. */
  lemma LateRequestIsLost(d: string)
    ensures var run := [Request(d, false), Settle(d, true), Resume(d), Request(d, false), Remove(d)];
            && Valid(EMPTY, run)
            && var log := After(EMPTY, run).log;
            && |log| == 5 && log[3] == Requested(d, 0, true) && log[4] == PromiseSettled(d, 0, true) && !Covered(log, 3)
  {
    var q1 := Next(EMPTY, Request(d, false));
    var q2 := Next(q1, Settle(d, true));
    var q3 := Next(q2, Resume(d));
    var q4 := Next(q3, Request(d, false));
    var q5 := Next(q4, Remove(d));
    assert q5.log == [Requested(d, 0, false), Started(d, 0), Ended(d, 0, true), Requested(d, 0, true), PromiseSettled(d, 0, true)];
    hide Next, Enabled;
    var run := [Request(d, false), Settle(d, true), Resume(d), Request(d, false), Remove(d)];
    var r1, r2, r3, r4 := run[1..], run[1..][1..], run[1..][1..][1..], run[1..][1..][1..][1..];
    assert r4 == [Remove(d)] && r4[1..] == [];
    assert Valid(q4, r4) && Valid(q3, r3) && Valid(q2, r2) && Valid(q1, r1);
    assert After(EMPTY, run) == After(q1, r1) == After(q2, r2) == After(q3, r3) == After(q4, r4) == Next(q4, Remove(d));
  }

  // ---------------------------------------------------------------- what the promise carries

  /** The outcome of the promise's last refresh, if one ended. */
  predicate LastOutcome(log: seq<Mark>, n: nat, d: string, g: nat, ok: bool)
    requires n <= |log|
  {
    exists i :: 0 <= i < n && log[i] == Ended(d, g, ok)
                && forall j | i < j < n :: !(log[j].device == d && log[j].generation == g && (log[j].Ended? || log[j].Started?))
  }

  ghost predicate OutcomeInv(q: Queue) {
    && (forall d | d in q.active && (q.active[d].phase.Settled? || q.active[d].phase.Finishing?) ::
          LastOutcome(q.log, |q.log|, d, q.active[d].generation, q.active[d].phase.ok))
    && (forall n | 0 <= n < |q.log| && q.log[n].PromiseSettled? ::
          LastOutcome(q.log, n, q.log[n].device, q.log[n].generation, q.log[n].ok))
  }

  lemma OutcomeGrows(log: seq<Mark>, more: seq<Mark>, n: nat, d: string, g: nat, ok: bool)
    requires n <= |log| && LastOutcome(log, n, d, g, ok)
    ensures LastOutcome(log + more, n, d, g, ok)
    ensures n == |log| && (forall m | m in more :: !(m.device == d && m.generation == g && (m.Ended? || m.Started?)))
            ==> LastOutcome(log + more, |log + more|, d, g, ok)
  {
    var all := log + more;
    var i :| 0 <= i < n && log[i] == Ended(d, g, ok)
             && forall j | i < j < n :: !(log[j].device == d && log[j].generation == g && (log[j].Ended? || log[j].Started?));
    assert all[i] == log[i] && forall j | 0 <= j < n :: all[j] == log[j];
    assert forall j | |log| <= j < |all| :: all[j] in more;
  }

  lemma StepSettledOutcome(q: Queue, a: Action, k: nat)
    requires OutcomeInv(q) && Enabled(q, a) && k < |Next(q, a).log| && Next(q, a).log[k].PromiseSettled?
    ensures var log := Next(q, a).log; LastOutcome(log, k, log[k].device, log[k].generation, log[k].ok)
  {
    var n, more := Next(q, a), Added(q, a);
    hide LastOutcome;
    if k < |q.log| {
      assert n.log[k] == q.log[k];
      OutcomeGrows(q.log, more, k, q.log[k].device, q.log[k].generation, q.log[k].ok);
    } else {
      assert a.Remove?;
      var e := q.active[a.device];
      OutcomeGrows(q.log, more, |q.log|, a.device, e.generation, e.phase.ok);
    }
  }

  /** An entry whose last refresh has ended is left so by every step but the end of a refresh of its own. */
  lemma PendingStays(q: Queue, a: Action, d: string)
    requires Enabled(q, a) && d in Next(q, a).active && !(a.Settle? && a.device == d)
    requires Next(q, a).active[d].phase.Settled? || Next(q, a).active[d].phase.Finishing?
    ensures d in q.active && (q.active[d].phase.Settled? || q.active[d].phase.Finishing?)
    ensures q.active[d].generation == Next(q, a).active[d].generation && q.active[d].phase.ok == Next(q, a).active[d].phase.ok
    ensures forall m | m in Added(q, a) :: !(m.device == d && (m.Ended? || m.Started?))
  {
  }

  lemma StepPendingOutcome(q: Queue, a: Action, d: string)
    requires OutcomeInv(q) && Enabled(q, a) && d in Next(q, a).active
    requires Next(q, a).active[d].phase.Settled? || Next(q, a).active[d].phase.Finishing?
    ensures var n := Next(q, a); LastOutcome(n.log, |n.log|, d, n.active[d].generation, n.active[d].phase.ok)
  {
    var n, more := Next(q, a), Added(q, a);
    if a.Settle? && d == a.device {
      assert n.log[|q.log|] == Ended(d, n.active[d].generation, a.ok);
    } else {
      PendingStays(q, a, d);
      hide LastOutcome, Next, Enabled, Added;
      OutcomeGrows(q.log, more, |q.log|, d, q.active[d].generation, q.active[d].phase.ok);
    }
  }

  lemma StepOutcome(q: Queue, a: Action)
    requires OutcomeInv(q) && Enabled(q, a)
    ensures OutcomeInv(Next(q, a))
  {
    hide Next, LastOutcome;
    var n := Next(q, a);
    forall k | 0 <= k < |n.log| && n.log[k].PromiseSettled?
      ensures LastOutcome(n.log, k, n.log[k].device, n.log[k].generation, n.log[k].ok)
    {
      StepSettledOutcome(q, a, k);
    }
    forall d | d in n.active && (n.active[d].phase.Settled? || n.active[d].phase.Finishing?)
      ensures LastOutcome(n.log, |n.log|, d, n.active[d].generation, n.active[d].phase.ok)
    {
      StepPendingOutcome(q, a, d);
    }
  }

  /** The shared promise carries the outcome of its last refresh. */
  lemma {:induction false} PromiseCarriesLastOutcome(q: Queue, run: seq<Action>)
    requires OutcomeInv(q) && Valid(q, run)
    ensures OutcomeInv(After(q, run))
    decreases |run|
  {
    hide OutcomeInv, Next, Enabled;
    if run == [] {
    } else {
      StepOutcome(q, run[0]);
      PromiseCarriesLastOutcome(Next(q, run[0]), run[1..]);
    }
  }

  /** From an empty queue, in every interleaving of requests and loop steps: never two refreshes of one device at
      once, and every settled promise carries the outcome of its own last refresh. */
  lemma QueueIsSafe(run: seq<Action>, d: string, n: nat)
    requires Valid(EMPTY, run)
    ensures var log := After(EMPTY, run).log;
            && 0 <= UnderWay(log, d) <= 1
            && (n < |log| && log[n].PromiseSettled? ==> LastOutcome(log, n, log[n].device, log[n].generation, log[n].ok))
  {
    NeverTwoRefreshes(EMPTY, run, d);
    PromiseCarriesLastOutcome(EMPTY, run);
  }
}
