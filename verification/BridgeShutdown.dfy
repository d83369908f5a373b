/** Serving and shutting down the device bridge (packages/device-bridge/src/main.rs:784-864, 1068-1201).
    Client tasks, tunnel tasks and the server interleave; any operation can be dropped while it awaits, by a
    deadline, a cancel request or an abort of its client. */
module BridgeShutdown {
  import opened Wrappers
  import opened BridgeTunnels

  /** What an admitted operation is doing. */
  datatype Operation =
    | Plain
    | Opening
    | Spawned(tunnel: int)
    | CloseRequested(tunnel: int)
    | AwaitingTask(tunnel: int)

  /** A client task: between requests, waiting for the gate, past it but before the shutdown test, executing,
      or following events. The gate is held in Admitted and Executing. */
  datatype Client = Idle | Waiting | Admitted | Executing(operation: Operation) | Following

  datatype Server =
    | Accepting
    | Draining
    | JoiningClients
    | AbortingClients
    | ClosingTunnels(todo: set<int>, current: Option<int>)
    | Returned

  /** The bridge; `passed` is true once the drain is behind. */
  datatype Bridge = Bridge(shutdown: bool, server: Server, clients: map<int, Client>, tasks: map<int, Task>, passed: bool)

  /** The keys of the tunnel map. */
  function Tunnels(b: Bridge): set<int> {
    set t | t in b.tasks && b.tasks[t].handle.InMap?
  }

  datatype Action =
    | SignalShutdown
    | Accept(client: int)
    | StopAccepting
    | GateWon
    | GateTimeout
    | ClientsJoined
    | JoinTimeout
    | CloseNext(tunnel: int)
    | CurrentJoined
    | Return
    | Request(client: int)
    | Follow(client: int)
    | Admit(client: int)
    | Start(client: int, operation: Operation)
    | Spawn(client: int, tunnel: int)
    | Register(client: int)
    | Remove(client: int)
    | TaskJoined(client: int)
    | Complete(client: int)
    | Drop(client: int)
    | Leave(client: int)
    | Abort(client: int)
    | TaskEnds(tunnel: int)

  predicate Holds(c: Client) {
    c.Admitted? || c.Executing?
  }

  predicate At(b: Bridge, client: int, c: Client) {
    client in b.clients && b.clients[client] == c
  }

  predicate Executes(b: Bridge, client: int) {
    client in b.clients && b.clients[client].Executing?
  }

  predicate Enabled(b: Bridge, a: Action) {
    match a
    case SignalShutdown => true
    case Accept(c) => b.server.Accepting? && !b.shutdown && c !in b.clients
    case StopAccepting => b.server.Accepting?
    case GateWon => b.server.Draining? && forall c | c in b.clients :: !Holds(b.clients[c])
    case GateTimeout => b.server.Draining?
    case ClientsJoined => (b.server.JoiningClients? || b.server.AbortingClients?) && b.clients == map[]
    case JoinTimeout => b.server.JoiningClients?
    case CloseNext(t) => b.server.ClosingTunnels? && b.server.current.None? && t in b.server.todo
    case CurrentJoined =>
      && b.server.ClosingTunnels? && b.server.current.Some?
      && b.server.current.value in b.tasks && b.tasks[b.server.current.value].ended
    case Return => b.server == ClosingTunnels({}, None)
    case Request(c) => At(b, c, Idle)
    case Follow(c) => At(b, c, Idle)
    case Admit(c) => At(b, c, Waiting)
    case Start(c, o) => At(b, c, Admitted) && (o.Plain? || o.Opening? || o.CloseRequested?)
    case Spawn(c, t) => At(b, c, Executing(Opening)) && t !in b.tasks
    case Register(c) => Executes(b, c) && b.clients[c].operation.Spawned?
    case Remove(c) => Executes(b, c) && b.clients[c].operation.CloseRequested?
    case TaskJoined(c) =>
      && Executes(b, c) && b.clients[c].operation.AwaitingTask?
      && b.clients[c].operation.tunnel in b.tasks && b.tasks[b.clients[c].operation.tunnel].ended
    case Complete(c) => At(b, c, Executing(Plain)) || At(b, c, Executing(Opening))
    case Drop(c) => Executes(b, c)
    case Leave(c) => At(b, c, Idle) || At(b, c, Following)
    case Abort(c) => b.server.AbortingClients? && c in b.clients
    case TaskEnds(t) => t in b.tasks
  }

  /** A task whose handle moves on. */
  function Handed(b: Bridge, t: int, handle: Handle): map<int, Task> {
    if t in b.tasks then b.tasks[t := b.tasks[t].(handle := handle)] else b.tasks
  }

  /** A closed tunnel: out of the map and cancelled, its task still to be awaited. */
  function Closed(b: Bridge, t: int, handle: Handle): map<int, Task>
    requires t in b.tasks
  {
    b.tasks[t := b.tasks[t].(cancelled := true, handle := handle)]
  }

  /** The tasks after a client's operation, if it has one, is dropped where it stands. */
  function Dropped(b: Bridge, c: Client): map<int, Task> {
    match c
    case Executing(Spawned(t)) => Handed(b, t, DroppedByOpener)
    case Executing(AwaitingTask(t)) => Handed(b, t, DroppedByCloser)
    case _ => b.tasks
  }

  function Next(b: Bridge, a: Action): Bridge
    requires Enabled(b, a)
  {
    match a
    case SignalShutdown => b.(shutdown := true)
    case Accept(c) => b.(clients := b.clients[c := Idle])
    case StopAccepting => b.(shutdown := true, server := Draining)
    case GateWon => b.(server := JoiningClients, passed := true)
    case GateTimeout => b.(server := AbortingClients)
    case JoinTimeout => b.(server := AbortingClients)
    case ClientsJoined => b.(server := ClosingTunnels(Tunnels(b), None), passed := true)
    case CloseNext(t) =>
      if t in Tunnels(b) then b.(tasks := Closed(b, t, WithServer), server := ClosingTunnels(b.server.todo - {t}, Some(t)))
      else b.(server := ClosingTunnels(b.server.todo - {t}, None))
    case CurrentJoined => b.(tasks := Handed(b, b.server.current.value, Awaited), server := b.server.(current := None))
    case Return => b.(server := Returned)
    case Request(c) => b.(clients := b.clients[c := Waiting])
    case Follow(c) => b.(clients := b.clients[c := Following])
    case Admit(c) => b.(clients := b.clients[c := Admitted])
    case Start(c, o) => b.(clients := if b.shutdown then b.clients - {c} else b.clients[c := Executing(o)])
    case Spawn(c, t) => b.(tasks := b.tasks[t := Task(false, false, WithOpener(c))], clients := b.clients[c := Executing(Spawned(t))])
    case Register(c) => b.(tasks := Handed(b, b.clients[c].operation.tunnel, InMap), clients := b.clients[c := Idle])
    case Remove(c) =>
      var t := b.clients[c].operation.tunnel;
      if t in Tunnels(b) then b.(tasks := Closed(b, t, WithCloser(c)), clients := b.clients[c := Executing(AwaitingTask(t))])
      else b.(clients := b.clients[c := Idle])
    case TaskJoined(c) => b.(tasks := Handed(b, b.clients[c].operation.tunnel, Awaited), clients := b.clients[c := Idle])
    case Complete(c) => b.(clients := b.clients[c := Idle])
    case Drop(c) => b.(tasks := Dropped(b, b.clients[c]), clients := b.clients[c := Idle])
    case Leave(c) => b.(clients := b.clients - {c})
    case Abort(c) => b.(tasks := Dropped(b, b.clients[c]), clients := b.clients - {c})
    case TaskEnds(t) => b.(tasks := b.tasks[t := b.tasks[t].(ended := true)])
  }

  predicate Valid(b: Bridge, run: seq<Action>)
    decreases |run|
  {
    run != [] ==> Enabled(b, run[0]) && Valid(Next(b, run[0]), run[1..])
  }

  function After(b: Bridge, run: seq<Action>): Bridge
    requires Valid(b, run)
    decreases |run|
  {
    if run == [] then b else After(Next(b, run[0]), run[1..])
  }

  /** Serving has begun and nothing has happened. */
  predicate Fresh(b: Bridge) {
    b == Bridge(b.shutdown, Accepting, map[], map[], false)
  }

  // ---------------------------------------------------------------- what every interleaving keeps

  /** The gate: once passed, shutdown is set and nothing executes. */
  ghost predicate GateInv(b: Bridge) {
    && (!b.server.Accepting? ==> b.shutdown)
    && (b.passed ==> b.shutdown && forall c | c in b.clients :: !b.clients[c].Executing?)
    && (b.server.JoiningClients? ==> b.passed)
    && (b.server.ClosingTunnels? || b.server.Returned? ==> b.passed && b.clients == map[])
    && (b.passed ==> b.server.JoiningClients? || b.server.AbortingClients? || b.server.ClosingTunnels? || b.server.Returned?)
  }

  /** A task is cancelled and ended as its handle's place says, and the holder named there holds it. */
  predicate TaskInv(b: Bridge, t: int)
    requires t in b.tasks
  {
    var task := b.tasks[t];
    match task.handle
    case WithOpener(c) => !task.cancelled && At(b, c, Executing(Spawned(t)))
    case InMap => !task.cancelled
    case WithCloser(c) => task.cancelled && At(b, c, Executing(AwaitingTask(t)))
    case WithServer => task.cancelled && b.server.ClosingTunnels? && b.server.current == Some(t)
    case DroppedByOpener => !task.cancelled
    case DroppedByCloser => task.cancelled
    case Awaited => task.cancelled && task.ended
  }

  predicate ClientInv(b: Bridge, c: int)
    requires c in b.clients
  {
    match b.clients[c]
    case Executing(Spawned(t)) => t in b.tasks && b.tasks[t].handle == WithOpener(c)
    case Executing(AwaitingTask(t)) => t in b.tasks && b.tasks[t].handle == WithCloser(c)
    case _ => true
  }

  predicate ServerInv(b: Bridge) {
    && (b.server.ClosingTunnels? ==> Tunnels(b) == b.server.todo)
    && (b.server.ClosingTunnels? && b.server.current.Some? ==>
          b.server.current.value in b.tasks && b.tasks[b.server.current.value].handle.WithServer?)
    && (b.server.Returned? ==> Tunnels(b) == {})
  }

  ghost predicate Inv(b: Bridge) {
    && GateInv(b) && ServerInv(b)
    && (forall t | t in b.tasks :: TaskInv(b, t))
    && (forall c | c in b.clients :: ClientInv(b, c))
  }

  lemma FreshInv(b: Bridge)
    requires Fresh(b)
    ensures Inv(b)
  {
  }

  lemma GateKeeps(b: Bridge, a: Action)
    requires GateInv(b) && Enabled(b, a)
    ensures GateInv(Next(b, a))
  {
    hide Handed, Closed, Dropped, Tunnels;
  }

  lemma TaskKeepsServer(b: Bridge, a: Action, t: int)
    requires Inv(b) && Enabled(b, a) && t in b.tasks
    requires a.SignalShutdown? || a.StopAccepting? || a.GateWon? || a.GateTimeout? || a.ClientsJoined? || a.JoinTimeout?
          || a.CloseNext? || a.CurrentJoined? || a.Return? || a.TaskEnds?
    ensures TaskInv(Next(b, a), t)
  {
  }

  lemma TaskKeepsDrop(b: Bridge, a: Action, t: int)
    requires Inv(b) && Enabled(b, a) && t in b.tasks && (a.Drop? || a.Abort?)
    ensures TaskInv(Next(b, a), t)
  {
  }

  lemma TaskKeepsClient(b: Bridge, a: Action, t: int)
    requires Inv(b) && Enabled(b, a) && t in Next(b, a).tasks
    requires a.Accept? || a.Request? || a.Follow? || a.Admit? || a.Start? || a.Spawn? || a.Register? || a.Remove?
          || a.TaskJoined? || a.Complete? || a.Leave?
    ensures TaskInv(Next(b, a), t)
  {
    hide GateInv, ServerInv;
    if t in b.tasks {
      assert TaskInv(b, t);
    }
    if a.Register? || a.TaskJoined? {
      assert ClientInv(b, a.client);
    }
  }

  lemma TaskKeeps(b: Bridge, a: Action, t: int)
    requires Inv(b) && Enabled(b, a) && t in Next(b, a).tasks
    ensures TaskInv(Next(b, a), t)
  {
    hide Inv, TaskInv, Enabled, Closed, Handed, Dropped, Tunnels;
    match a
    case Drop(_) => assert t in b.tasks by { DropKeepsTasks(b, a); } TaskKeepsDrop(b, a, t);
    case Abort(_) => assert t in b.tasks by { DropKeepsTasks(b, a); } TaskKeepsDrop(b, a, t);
    case SignalShutdown => TaskKeepsServer(b, a, t);
    case StopAccepting => TaskKeepsServer(b, a, t);
    case GateWon => TaskKeepsServer(b, a, t);
    case GateTimeout => TaskKeepsServer(b, a, t);
    case JoinTimeout => TaskKeepsServer(b, a, t);
    case ClientsJoined => TaskKeepsServer(b, a, t);
    case CloseNext(_) => assert t in b.tasks by { DropKeepsTasks(b, a); } TaskKeepsServer(b, a, t);
    case CurrentJoined => assert t in b.tasks by { DropKeepsTasks(b, a); } TaskKeepsServer(b, a, t);
    case Return => TaskKeepsServer(b, a, t);
    case TaskEnds(_) => assert t in b.tasks by { DropKeepsTasks(b, a); } TaskKeepsServer(b, a, t);
    case _ => TaskKeepsClient(b, a, t);
  }

  lemma DropKeepsTasks(b: Bridge, a: Action)
    requires Enabled(b, a) && !a.Spawn?
    ensures Next(b, a).tasks.Keys == b.tasks.Keys
  {
  }

  /** A step that is not this client's own leaves what it holds. */
  lemma ClientKeepsOthers(b: Bridge, a: Action, c: int)
    requires Inv(b) && Enabled(b, a) && c in b.clients && c in Next(b, a).clients && Next(b, a).clients[c] == b.clients[c]
    ensures ClientInv(Next(b, a), c)
  {
    assert ClientInv(b, c);
    match b.clients[c]
    case Executing(Spawned(t)) => HandleStays(b, a, c, t);
    case Executing(AwaitingTask(t)) => HandleStays(b, a, c, t);
    case _ =>
  }

  lemma HandleStays(b: Bridge, a: Action, c: int, t: int)
    requires Inv(b) && Enabled(b, a) && c in b.clients && c in Next(b, a).clients && Next(b, a).clients[c] == b.clients[c]
    requires t in b.tasks && b.clients[c].Executing?
    requires (b.clients[c].operation == Spawned(t) && b.tasks[t].handle == WithOpener(c))
          || (b.clients[c].operation == AwaitingTask(t) && b.tasks[t].handle == WithCloser(c))
    ensures t in Next(b, a).tasks && Next(b, a).tasks[t].handle == b.tasks[t].handle
  {
  }

  lemma ClientKeeps(b: Bridge, a: Action, c: int)
    requires Inv(b) && Enabled(b, a) && c in Next(b, a).clients
    ensures ClientInv(Next(b, a), c)
  {
    if c in b.clients && Next(b, a).clients[c] == b.clients[c] {
      ClientKeepsOthers(b, a, c);
    } else {
      hide Inv, Dropped, Tunnels;
    }
  }

  lemma ServerKeeps(b: Bridge, a: Action)
    requires Inv(b) && Enabled(b, a)
    ensures ServerInv(Next(b, a))
  {
  }

  lemma StepKeeps(b: Bridge, a: Action)
    requires Inv(b) && Enabled(b, a)
    ensures Inv(Next(b, a))
  {
    GateKeeps(b, a);
    ServerKeeps(b, a);
    forall t | t in Next(b, a).tasks ensures TaskInv(Next(b, a), t) { TaskKeeps(b, a, t); }
    forall c | c in Next(b, a).clients ensures ClientInv(Next(b, a), c) { ClientKeeps(b, a, c); }
  }

  lemma {:induction false} RunKeeps(b: Bridge, run: seq<Action>)
    requires Inv(b) && Valid(b, run)
    ensures Inv(After(b, run))
    decreases |run|
  {
    hide Inv, Next, Enabled;
    if run == [] {
    } else {
      StepKeeps(b, run[0]);
      RunKeeps(Next(b, run[0]), run[1..]);
    }
  }

  // ---------------------------------------------------------------- after the drain nothing executes

  /** In every interleaving, once the drain is passed no operation is executing and none ever starts again. */
  lemma {:induction false} NothingExecutesAfterDrain(b: Bridge, run: seq<Action>)
    requires Inv(b) && Valid(b, run) && b.passed
    ensures After(b, run).passed && forall c | c in After(b, run).clients :: !After(b, run).clients[c].Executing?
    decreases |run|
  {
    hide Next, Enabled, TaskInv, ClientInv, ServerInv;
    if run == [] {
    } else {
      StepKeeps(b, run[0]);
      PassedStays(b, run[0]);
      NothingExecutesAfterDrain(Next(b, run[0]), run[1..]);
    }
  }

  lemma PassedStays(b: Bridge, a: Action)
    requires b.passed && Enabled(b, a)
    ensures Next(b, a).passed
  {
  }

  /** The drain is passed only by winning the gate or with every client gone, and in neither case does anything execute. */
  lemma DrainIsSafe(b: Bridge, a: Action)
    requires Inv(b) && Enabled(b, a) && !b.passed && Next(b, a).passed
    ensures (a.GateWon? || (a.ClientsJoined? && b.clients == map[]))
    ensures forall c | c in Next(b, a).clients :: !Next(b, a).clients[c].Executing?
  {
  }

  // ---------------------------------------------------------------- what return leaves behind

  /** A step that drops an operation between spawning a tunnel's task and registering it. */
  predicate DropsOpener(b: Bridge, a: Action) {
    (a.Drop? || a.Abort?) && Executes(b, a.client) && b.clients[a.client].operation.Spawned?
  }

  /** A step that drops an operation between cancelling a tunnel and its task's end. */
  predicate DropsCloser(b: Bridge, a: Action) {
    (a.Drop? || a.Abort?) && Executes(b, a.client) && b.clients[a.client].operation.AwaitingTask?
  }

  predicate NoOpenerDropped(b: Bridge, run: seq<Action>)
    requires Valid(b, run)
    decreases |run|
  {
    run != [] ==> !DropsOpener(b, run[0]) && NoOpenerDropped(Next(b, run[0]), run[1..])
  }

  predicate NoCloserDropped(b: Bridge, run: seq<Action>)
    requires Valid(b, run)
    decreases |run|
  {
    run != [] ==> !DropsCloser(b, run[0]) && NoCloserDropped(Next(b, run[0]), run[1..])
  }

  ghost predicate SomeHandle(b: Bridge, handle: Handle) {
    exists t :: t in b.tasks && b.tasks[t].handle == handle
  }

  /** A dropped handle is never held again, and handles are dropped by nothing else. */
  lemma LostExactly(b: Bridge, a: Action)
    requires Inv(b) && Enabled(b, a)
    ensures SomeHandle(Next(b, a), DroppedByOpener) <==> SomeHandle(b, DroppedByOpener) || DropsOpener(b, a)
    ensures SomeHandle(Next(b, a), DroppedByCloser) <==> SomeHandle(b, DroppedByCloser) || DropsCloser(b, a)
  {
    hide Inv, Next, Enabled, DropsOpener, DropsCloser;
    forall t | t in b.tasks
      ensures t in Next(b, a).tasks
      ensures b.tasks[t].handle.DroppedByOpener? ==> Next(b, a).tasks[t].handle.DroppedByOpener?
      ensures b.tasks[t].handle.DroppedByCloser? ==> Next(b, a).tasks[t].handle.DroppedByCloser?
    {
      LostStays(b, a, t);
    }
    DropLoses(b, a);
    forall t | t in Next(b, a).tasks
      ensures Next(b, a).tasks[t].handle.DroppedByOpener? ==> (t in b.tasks && b.tasks[t].handle.DroppedByOpener?) || DropsOpener(b, a)
      ensures Next(b, a).tasks[t].handle.DroppedByCloser? ==> (t in b.tasks && b.tasks[t].handle.DroppedByCloser?) || DropsCloser(b, a)
    {
      DroppedOnlyThere(b, a, t);
    }
  }

  lemma DropLoses(b: Bridge, a: Action)
    requires Inv(b) && Enabled(b, a)
    ensures DropsOpener(b, a) ==> SomeHandle(Next(b, a), DroppedByOpener)
    ensures DropsCloser(b, a) ==> SomeHandle(Next(b, a), DroppedByCloser)
  {
    if DropsOpener(b, a) || DropsCloser(b, a) {
      var t := b.clients[a.client].operation.tunnel;
      assert ClientInv(b, a.client);
      assert t in Next(b, a).tasks;
    }
  }

  lemma LostStays(b: Bridge, a: Action, t: int)
    requires Inv(b) && Enabled(b, a) && t in b.tasks
    ensures t in Next(b, a).tasks
    ensures b.tasks[t].handle.DroppedByOpener? ==> Next(b, a).tasks[t].handle.DroppedByOpener?
    ensures b.tasks[t].handle.DroppedByCloser? ==> Next(b, a).tasks[t].handle.DroppedByCloser?
  {
    hide GateInv;
    if a.Register? || a.TaskJoined? || a.Drop? || a.Abort? {
      assert ClientInv(b, a.client);
    }
  }

  lemma DroppedOnlyThere(b: Bridge, a: Action, t: int)
    requires Enabled(b, a) && t in Next(b, a).tasks
    ensures Next(b, a).tasks[t].handle.DroppedByOpener? ==> (t in b.tasks && b.tasks[t].handle.DroppedByOpener?) || DropsOpener(b, a)
    ensures Next(b, a).tasks[t].handle.DroppedByCloser? ==> (t in b.tasks && b.tasks[t].handle.DroppedByCloser?) || DropsCloser(b, a)
  {
  }

  lemma {:induction false} RunLosesExactly(b: Bridge, run: seq<Action>)
    requires Inv(b) && Valid(b, run)
    ensures SomeHandle(After(b, run), DroppedByOpener) <==> SomeHandle(b, DroppedByOpener) || !NoOpenerDropped(b, run)
    ensures SomeHandle(After(b, run), DroppedByCloser) <==> SomeHandle(b, DroppedByCloser) || !NoCloserDropped(b, run)
    decreases |run|
  {
    hide Inv, Next, Enabled, SomeHandle, DropsOpener, DropsCloser;
    if run == [] {
    } else {
      StepKeeps(b, run[0]);
      LostExactly(b, run[0]);
      RunLosesExactly(Next(b, run[0]), run[1..]);
    }
  }

  /** When serving returns, no client is left and the tunnel map is empty. Every tunnel ever opened was then
      cancelled if and only if no opener was dropped between spawning and registering, and every one was awaited
      to its end if and only if, besides, no closer was dropped while it waited. */
  lemma ReturnedExactly(b: Bridge, run: seq<Action>)
    requires Fresh(b) && Valid(b, run) && After(b, run).server.Returned?
    ensures var last := After(b, run);
            && last.clients == map[] && Tunnels(last) == {}
            && ((forall t | t in last.tasks :: last.tasks[t].cancelled) <==> NoOpenerDropped(b, run))
            && ((forall t | t in last.tasks :: last.tasks[t].ended && last.tasks[t].handle.Awaited?)
                <==> NoOpenerDropped(b, run) && NoCloserDropped(b, run))
  {
    hide Next, Enabled, NoOpenerDropped, NoCloserDropped;
    FreshInv(b);
    RunKeeps(b, run);
    RunLosesExactly(b, run);
    var last := After(b, run);
    forall t | t in last.tasks
      ensures last.tasks[t].handle.DroppedByOpener? || last.tasks[t].handle.DroppedByCloser? || last.tasks[t].handle.Awaited?
    {
      assert TaskInv(last, t);
      assert last.tasks[t].handle.InMap? ==> t in Tunnels(last);
    }
  }

  // ---------------------------------------------------------------- the tunnels held at shutdown

  /** Out of its opener's hands without being lost there. */
  predicate Reached(task: Task) {
    !task.handle.WithOpener? && !task.handle.DroppedByOpener?
  }

  lemma ReachedStays(b: Bridge, a: Action, t: int)
    requires Inv(b) && Enabled(b, a) && t in b.tasks && Reached(b.tasks[t])
    ensures t in Next(b, a).tasks && Reached(Next(b, a).tasks[t])
  {
    hide GateInv;
    assert TaskInv(b, t);
    if a.Register? || a.Drop? || a.Abort? {
      assert ClientInv(b, a.client);
    }
  }

  /** A tunnel that is in the map at any moment, the moment of shutdown included, is cancelled when serving
      returns, and its task was awaited unless its closer was dropped. */
  lemma {:induction false} HeldIsClosed(b: Bridge, run: seq<Action>, t: int)
    requires Inv(b) && Valid(b, run) && After(b, run).server.Returned? && t in b.tasks && Reached(b.tasks[t])
    ensures var last := After(b, run);
            && t in last.tasks && last.tasks[t].cancelled
            && (last.tasks[t].handle.DroppedByCloser? || (last.tasks[t].handle.Awaited? && last.tasks[t].ended))
    decreases |run|
  {
    hide Next, Enabled;
    if run != [] {
      StepKeeps(b, run[0]);
      ReachedStays(b, run[0], t);
      HeldIsClosed(Next(b, run[0]), run[1..], t);
    } else {
      assert TaskInv(b, t);
      assert b.tasks[t].handle.InMap? ==> t in Tunnels(b);
    }
  }

  predicate OnItsWay(task: Task) {
    task.handle.InMap? || task.handle.WithServer? || task.handle.Awaited?
  }

  lemma OnItsWayStays(b: Bridge, a: Action, t: int)
    requires Inv(b) && Enabled(b, a) && b.passed && t in b.tasks && OnItsWay(b.tasks[t])
    ensures t in Next(b, a).tasks && OnItsWay(Next(b, a).tasks[t])
  {
    if a.Register? || a.TaskJoined? || a.Drop? || a.Abort? || a.Remove? {
      assert a.client in b.clients && !b.clients[a.client].Executing?;
    }
  }

  /** A tunnel still in the map when the drain is passed is always cancelled and awaited before serving returns. */
  lemma {:induction false} HeldAtDrainIsAwaited(b: Bridge, run: seq<Action>, t: int)
    requires Inv(b) && Valid(b, run) && b.passed && After(b, run).server.Returned? && t in b.tasks && OnItsWay(b.tasks[t])
    ensures var last := After(b, run);
            t in last.tasks && last.tasks[t].cancelled && last.tasks[t].ended && last.tasks[t].handle.Awaited?
    decreases |run|
  {
    hide Next, Enabled;
    if run != [] {
      StepKeeps(b, run[0]);
      PassedStays(b, run[0]);
      OnItsWayStays(b, run[0], t);
      HeldAtDrainIsAwaited(Next(b, run[0]), run[1..], t);
    } else {
      assert TaskInv(b, t);
      assert b.tasks[t].handle.InMap? ==> t in Tunnels(b);
    }
  }
}
