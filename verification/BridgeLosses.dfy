/** The two ways a shutdown of the device bridge can leave a tunnel's task behind (packages/device-bridge/src/main.rs:
    795-851, 1107-1143), as runs from a fresh bridge. */
module BridgeLosses {
  import opened BridgeTunnels
  import opened BridgeShutdown

  lemma Cons(b: Bridge, a: Action, rest: seq<Action>)
    requires Enabled(b, a) && Valid(Next(b, a), rest)
    ensures Valid(b, [a] + rest) && After(b, [a] + rest) == After(Next(b, a), rest)
  {
  }

  lemma {:induction false} Join(b: Bridge, first: seq<Action>, second: seq<Action>)
    requires Valid(b, first) && Valid(After(b, first), second)
    ensures Valid(b, first + second) && After(b, first + second) == After(After(b, first), second)
    decreases |first|
  {
    hide Next, Enabled;
    if first == [] {
      assert first + second == second;
    } else {
      Join(Next(b, first[0]), first[1..], second);
      assert first + second == [first[0]] + (first[1..] + second);
      Cons(b, first[0], first[1..] + second);
    }
  }

  /** Still accepting, with the given clients and tasks. */
  function Serving(clients: map<int, Client>, tasks: map<int, Task>): Bridge {
    Bridge(false, Accepting, clients, tasks, false)
  }

  lemma One(b: Bridge, a: Action)
    requires Enabled(b, a)
    ensures Valid(b, [a]) && After(b, [a]) == Next(b, a)
  {
    hide Next, Enabled;
    assert [a] == [a] + [];
    Cons(b, a, []);
  }

  /** An idle client gets a request admitted and started. */
  lemma Starts(clients: map<int, Client>, tasks: map<int, Task>, c: int, o: Operation) returns (run: seq<Action>)
    requires c in clients && clients[c] == Idle && (o.Opening? || o.CloseRequested?)
    ensures Valid(Serving(clients, tasks), run)
    ensures After(Serving(clients, tasks), run) == Serving(clients[c := Executing(o)], tasks)
  {
    var b := Serving(clients, tasks);
    var waiting := Serving(clients[c := Waiting], tasks);
    var admitted := Serving(clients[c := Admitted], tasks);
    assert clients[c := Waiting][c := Admitted] == clients[c := Admitted];
    assert clients[c := Admitted][c := Executing(o)] == clients[c := Executing(o)];
    assert Enabled(b, Request(c)) && Next(b, Request(c)) == waiting;
    assert Enabled(waiting, Admit(c)) && Next(waiting, Admit(c)) == admitted;
    assert Enabled(admitted, Start(c, o)) && Next(admitted, Start(c, o)) == Serving(clients[c := Executing(o)], tasks);
    hide Next, Enabled;
    One(admitted, Start(c, o));
    Cons(waiting, Admit(c), [Start(c, o)]);
    Cons(b, Request(c), [Admit(c)] + [Start(c, o)]);
    run := [Request(c)] + ([Admit(c)] + [Start(c, o)]);
  }

  /** An idle client opens a tunnel as far as spawning its task. */
  lemma Spawns(clients: map<int, Client>, tasks: map<int, Task>, c: int, t: int) returns (run: seq<Action>)
    requires c in clients && clients[c] == Idle && t !in tasks
    ensures Valid(Serving(clients, tasks), run)
    ensures After(Serving(clients, tasks), run)
            == Serving(clients[c := Executing(Spawned(t))], tasks[t := Task(false, false, WithOpener(c))])
  {
    var opening := Serving(clients[c := Executing(Opening)], tasks);
    assert clients[c := Executing(Opening)][c := Executing(Spawned(t))] == clients[c := Executing(Spawned(t))];
    assert Enabled(opening, Spawn(c, t));
    var start := Starts(clients, tasks, c, Opening);
    One(opening, Spawn(c, t));
    Join(Serving(clients, tasks), start, [Spawn(c, t)]);
    run := start + [Spawn(c, t)];
  }

  /** And all the way. */
  lemma Opens(clients: map<int, Client>, tasks: map<int, Task>, c: int, t: int) returns (run: seq<Action>)
    requires c in clients && clients[c] == Idle && t !in tasks
    ensures Valid(Serving(clients, tasks), run)
    ensures After(Serving(clients, tasks), run) == Serving(clients, tasks[t := Task(false, false, InMap)])
  {
    var after := tasks[t := Task(false, false, WithOpener(c))];
    var spawned := Serving(clients[c := Executing(Spawned(t))], after);
    assert clients[c := Executing(Spawned(t))][c := Idle] == clients;
    assert after[t := Task(false, false, InMap)] == tasks[t := Task(false, false, InMap)];
    assert Enabled(spawned, Register(c)) && Next(spawned, Register(c)) == Serving(clients, tasks[t := Task(false, false, InMap)]);
    var spawn := Spawns(clients, tasks, c, t);
    hide Next, Enabled;
    One(spawned, Register(c));
    Join(Serving(clients, tasks), spawn, [Register(c)]);
    run := spawn + [Register(c)];
  }

  lemma WindUpEmpty(b: Bridge) returns (run: seq<Action>)
    requires b.server.Accepting? && b.clients == map[] && Tunnels(b) == {}
    ensures Valid(b, run) && After(b, run).server.Returned? && After(b, run).tasks == b.tasks
  {
    var b1 := Next(b, StopAccepting);
    var b2 := Next(b1, GateWon);
    assert Tunnels(b2) == Tunnels(b);
    var b3 := Next(b2, ClientsJoined);
    hide Tunnels;
    One(b3, Return);
    Cons(b2, ClientsJoined, [Return]);
    Cons(b1, GateWon, [ClientsJoined] + [Return]);
    Cons(b, StopAccepting, [GateWon] + ([ClientsJoined] + [Return]));
    run := [StopAccepting] + ([GateWon] + ([ClientsJoined] + [Return]));
  }

  /** With both clients idle and nothing in the map, serving can end. */
  lemma WindUp(b: Bridge) returns (run: seq<Action>)
    requires b.server.Accepting? && Tunnels(b) == {} && b.clients == map[0 := Idle, 1 := Idle]
    ensures Valid(b, run) && After(b, run).server.Returned? && After(b, run).tasks == b.tasks
  {
    var b1 := Next(b, Leave(0));
    assert b1.clients == map[1 := Idle];
    var b2 := Next(b1, Leave(1));
    assert b2.clients == map[] && Tunnels(b2) == Tunnels(b);
    run := WindUpEmpty(b2);
    Cons(b1, Leave(1), run);
    Cons(b, Leave(0), [Leave(1)] + run);
    run := [Leave(0)] + ([Leave(1)] + run);
  }

  /** Two clients connect. */
  lemma Connected(b: Bridge) returns (run: seq<Action>)
    requires Fresh(b) && !b.shutdown
    ensures Valid(b, run) && After(b, run) == Serving(map[0 := Idle, 1 := Idle], map[])
  {
    var b1 := Next(b, Accept(0));
    assert Next(b1, Accept(1)) == Serving(map[0 := Idle, 1 := Idle], map[]);
    One(b1, Accept(1));
    Cons(b, Accept(0), [Accept(1)]);
    run := [Accept(0)] + [Accept(1)];
  }

  /** Client 1 closes the tunnel 5 and awaits its task, holding the tunnel map meanwhile. */
  lemma Closes() returns (run: seq<Action>)
    ensures Valid(Serving(map[0 := Idle, 1 := Idle], map[5 := Task(false, false, InMap)]), run)
    ensures After(Serving(map[0 := Idle, 1 := Idle], map[5 := Task(false, false, InMap)]), run)
            == Serving(map[0 := Idle, 1 := Executing(AwaitingTask(5))], map[5 := Task(true, false, WithCloser(1))])
  {
    var clients, tasks := map[0 := Idle, 1 := Idle], map[5 := Task(false, false, InMap)];
    var asked := Serving(clients[1 := Executing(CloseRequested(5))], tasks);
    assert 5 in Tunnels(asked);
    var closing := Serving(map[0 := Idle, 1 := Executing(AwaitingTask(5))], map[5 := Task(true, false, WithCloser(1))]);
    assert Enabled(asked, Remove(1)) && Next(asked, Remove(1)) == closing;
    hide Next, Enabled;
    var start := Starts(clients, tasks, 1, CloseRequested(5));
    One(asked, Remove(1));
    Join(Serving(clients, tasks), start, [Remove(1)]);
    run := start + [Remove(1)];
  }

  /** A client is dropped between spawning a tunnel's task and getting hold of the map. */
  lemma Drops(clients: map<int, Client>, tasks: map<int, Task>, c: int, t: int) returns (run: seq<Action>)
    requires c in clients && clients[c] == Idle && t !in tasks
    ensures Valid(Serving(clients, tasks), run)
    ensures After(Serving(clients, tasks), run) == Serving(clients, tasks[t := Task(false, false, DroppedByOpener)])
  {
    var after := tasks[t := Task(false, false, WithOpener(c))];
    var spawned := Serving(clients[c := Executing(Spawned(t))], after);
    assert clients[c := Executing(Spawned(t))][c := Idle] == clients;
    assert after[t := Task(false, false, DroppedByOpener)] == tasks[t := Task(false, false, DroppedByOpener)];
    assert Enabled(spawned, Drop(c)) && Next(spawned, Drop(c)) == Serving(clients, tasks[t := Task(false, false, DroppedByOpener)]);
    var spawn := Spawns(clients, tasks, c, t);
    hide Next, Enabled;
    One(spawned, Drop(c));
    Join(Serving(clients, tasks), spawn, [Drop(c)]);
    run := spawn + [Drop(c)];
  }

  /** The task a closer awaits ends, and the closer with it. */
  lemma Finishes(clients: map<int, Client>, tasks: map<int, Task>, c: int, t: int) returns (run: seq<Action>)
    requires c in clients && clients[c] == Executing(AwaitingTask(t)) && t in tasks && tasks[t] == Task(true, false, WithCloser(c))
    ensures Valid(Serving(clients, tasks), run)
    ensures After(Serving(clients, tasks), run) == Serving(clients[c := Idle], tasks[t := Task(true, true, Awaited)])
  {
    var ended := Serving(clients, tasks[t := Task(true, true, WithCloser(c))]);
    assert tasks[t := Task(true, true, WithCloser(c))][t := Task(true, true, Awaited)] == tasks[t := Task(true, true, Awaited)];
    assert Enabled(Serving(clients, tasks), TaskEnds(t)) && Next(Serving(clients, tasks), TaskEnds(t)) == ended;
    assert Enabled(ended, TaskJoined(c));
    One(ended, TaskJoined(c));
    Cons(Serving(clients, tasks), TaskEnds(t), [TaskJoined(c)]);
    run := [TaskEnds(t)] + [TaskJoined(c)];
  }

  /** A tunnel whose opener is dropped waiting for the tunnel map, which a closer holds while it awaits another
      tunnel's task, outlives serving and is never cancelled. */
  lemma OrphanOutlives(b: Bridge) returns (run: seq<Action>)
    requires Fresh(b) && !b.shutdown
    ensures Valid(b, run) && After(b, run).server.Returned?
    ensures 7 in After(b, run).tasks && !After(b, run).tasks[7].cancelled && !After(b, run).tasks[7].ended
  {
    var idle, held := map[0 := Idle, 1 := Idle], map[0 := Idle, 1 := Executing(AwaitingTask(5))];
    var closing := map[5 := Task(true, false, WithCloser(1))];
    var both := closing[7 := Task(false, false, DroppedByOpener)];
    var last := both[5 := Task(true, true, Awaited)];
    assert held[1 := Idle] == idle;
    var windUp := WindUp(Serving(idle, last));
    hide Next, Enabled, Serving, Tunnels;
    var connect := Connected(b);
    var open := Opens(idle, map[], 1, 5);
    assert map[][5 := Task(false, false, InMap)] == map[5 := Task(false, false, InMap)];
    var close := Closes();
    var drop := Drops(held, closing, 0, 7);
    var finish := Finishes(held, both, 1, 5);
    Join(b, connect, open);
    Join(b, connect + open, close);
    Join(b, connect + open + close, drop);
    Join(b, connect + open + close + drop, finish);
    Join(b, connect + open + close + drop + finish, windUp);
    run := connect + open + close + drop + finish + windUp;
  }

  /** A tunnel in the map when shutdown is signalled, whose closer is then dropped while it awaits the task, is
      cancelled but never awaited. */
  lemma ClosingCanDetach(b: Bridge) returns (before: seq<Action>, run: seq<Action>)
    requires Fresh(b) && !b.shutdown
    ensures Valid(b, before) && After(b, before).shutdown && 7 in Tunnels(After(b, before))
    ensures var b1 := After(b, before);
            && Valid(b1, run) && After(b1, run).server.Returned?
            && 7 in After(b1, run).tasks && After(b1, run).tasks[7].handle.DroppedByCloser? && !After(b1, run).tasks[7].ended
  {
    var idle, tasks := map[0 := Idle, 1 := Idle], map[7 := Task(false, false, InMap)];
    var asked := Serving(idle[0 := Executing(CloseRequested(7))], tasks);
    var signalled := Next(asked, SignalShutdown);
    assert 7 in Tunnels(signalled);
    run := Detaches(signalled);
    hide Next, Enabled, Serving, Tunnels;
    var connect := Connected(b);
    var open := Opens(idle, map[], 0, 7);
    assert map[][7 := Task(false, false, InMap)] == tasks;
    var start := Starts(idle, tasks, 0, CloseRequested(7));
    assert Enabled(asked, SignalShutdown) by { AlwaysSignals(asked); }
    One(asked, SignalShutdown);
    Join(b, connect, open);
    Join(b, connect + open, start);
    Join(b, connect + open + start, [SignalShutdown]);
    before := connect + open + start + [SignalShutdown];
  }

  lemma AlwaysSignals(b: Bridge)
    ensures Enabled(b, SignalShutdown)
  {
  }

  lemma Detaches(b: Bridge) returns (run: seq<Action>)
    requires b == Bridge(true, Accepting, map[0 := Executing(CloseRequested(7)), 1 := Idle], map[7 := Task(false, false, InMap)], false)
    ensures Valid(b, run) && After(b, run).server.Returned?
    ensures 7 in After(b, run).tasks && After(b, run).tasks[7].handle.DroppedByCloser? && !After(b, run).tasks[7].ended
  {
    var b1 := Next(b, Remove(0));
    var b2 := Next(b1, Drop(0));
    assert b2.clients == map[0 := Idle, 1 := Idle] && b2.tasks == map[7 := Task(true, false, DroppedByCloser)];
    var tail := WindUp(b2);
    Cons(b1, Drop(0), tail);
    Cons(b, Remove(0), [Drop(0)] + tail);
    run := [Remove(0)] + ([Drop(0)] + tail);
  }
}
