/** Tunnel tasks and the tunnel map of the device bridge (packages/device-bridge/src/main.rs:843-864). */
module BridgeTunnels {

  /** Where the one handle to a tunnel's task is: with the operation that spawned it, in the tunnel map, with the
      operation or the server closing it, dropped by either operation, or used up by awaiting the task's end. */
  datatype Handle =
    | WithOpener(client: int)
    | InMap
    | WithCloser(client: int)
    | WithServer
    | DroppedByOpener
    | DroppedByCloser
    | Awaited

  datatype Task = Task(cancelled: bool, ended: bool, handle: Handle)

  /** The tunnel map and the tasks, as close_tunnel and close_all_tunnels change them with no one else at work. */
  class TunnelRegistry {
    var tasks: map<int, Task>

    constructor (tasks: map<int, Task>)
      ensures this.tasks == tasks
    {
      this.tasks := tasks;
    }

    /** Awaiting a cancelled task: it ends, and its handle is used up. */
    method Await(tunnel: int)
      requires tunnel in tasks && tasks[tunnel].cancelled
      modifies this
      ensures tasks == old(tasks)[tunnel := Task(true, true, Awaited)]
    {
      tasks := tasks[tunnel := Task(true, true, Awaited)];
    }

    method CloseTunnel(tunnel: int) returns (closed: bool)
      modifies this
      ensures closed == (tunnel in old(tasks) && old(tasks)[tunnel].handle.InMap?)
      ensures tasks == if closed then old(tasks)[tunnel := Task(true, true, Awaited)] else old(tasks)
    {
      closed := tunnel in tasks && tasks[tunnel].handle.InMap?;
      if closed {
        tasks := tasks[tunnel := tasks[tunnel].(cancelled := true, handle := WithServer)];
        Await(tunnel);
      }
    }

    /** `ids` is the key list of the map, in the map's own order. */
    method CloseAllTunnels(ids: seq<int>)
      requires forall t :: t in ids <==> t in tasks && tasks[t].handle.InMap?
      modifies this
      ensures tasks.Keys == old(tasks).Keys
      ensures forall t | t in tasks ::
        tasks[t] == if old(tasks)[t].handle.InMap? then Task(true, true, Awaited) else old(tasks)[t]
    {
      for i := 0 to |ids|
        invariant tasks.Keys == old(tasks).Keys
        invariant forall t | t in tasks ::
          tasks[t] == if old(tasks)[t].handle.InMap? && t in ids[..i] then Task(true, true, Awaited) else old(tasks)[t]
      {
        assert ids[i] in ids && ids[..i + 1] == ids[..i] + [ids[i]];
        var _ := CloseTunnel(ids[i]);
      }
      assert ids[..|ids|] == ids;
    }
  }
}
