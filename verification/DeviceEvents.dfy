/** The device bridge's event stream (packages/device-bridge/src/main.rs:228-230, 423-542, 544-574). */
module DeviceEvents {
  import opened Wrappers

  datatype Transport = Usb | Wifi | UnknownTransport

  datatype Device = Device(deviceId: nat, udid: string, transport: Transport)

  /** What the stream meets, in order: no connection to the mux daemon or no inventory from it, an inventory read
      after subscribing, a device coming or going, or the loss of the subscription. */
  datatype Input =
    | Unavailable
    | Inventory(records: seq<Device>)
    | Attached(device: Device)
    | Detached(id: nat)
    | Lost

  datatype Kind = DeviceSnapshot | DeviceConnected(id: nat) | DeviceDisconnected(id: nat) | Reconnecting

  datatype Message = Message(kind: Kind, sequence: nat, devices: map<nat, Device>)

  /** Devices come and go only while subscribed, which an inventory begins and a loss ends. */
  predicate Possible(inputs: seq<Input>) {
    inputs != [] ==>
      var before := inputs[..|inputs| - 1];
      Possible(before) && match inputs[|inputs| - 1]
                          case Unavailable => !Listening(before)
                          case Inventory(_) => !Listening(before)
                          case _ => Listening(before)
  }

  predicate Listening(inputs: seq<Input>) {
    inputs != [] && match inputs[|inputs| - 1]
                    case Unavailable => false
                    case Lost => false
                    case _ => true
  }

  function ById(records: seq<Device>): map<nat, Device> {
    if records == [] then map[]
    else ById(records[..|records| - 1])[records[|records| - 1].deviceId := records[|records| - 1]]
  }

  /** The last inventory folded with everything since. */
  function Folded(inputs: seq<Input>): map<nat, Device> {
    if inputs == [] then map[]
    else
      var before := Folded(inputs[..|inputs| - 1]);
      match inputs[|inputs| - 1]
      case Inventory(records) => ById(records)
      case Attached(d) => before[d.deviceId := d]
      case Detached(id) => before - {id}
      case _ => before
  }

  function KindOf(i: Input): Kind {
    match i
    case Inventory(_) => DeviceSnapshot
    case Attached(d) => DeviceConnected(d.deviceId)
    case Detached(id) => DeviceDisconnected(id)
    case _ => Reconnecting
  }

  /** The counter all streams of a bridge share. */
  class EventCounter {
    var value: nat

    constructor ()
      ensures value == 0
    {
      value := 0;
    }

    method Next() returns (n: nat)
      modifies this
      ensures n == value == old(value) + 1
    {
      value := value + 1;
      n := value;
    }

    /** Other streams and snapshots drawing numbers in between. */
    method DrawnElsewhere(n: nat)
      modifies this
      ensures value == old(value) + n
    {
      value := value + n;
    }
  }

  /** One message per input so far, each with the list its inputs fold to and a number above all before it. */
  ghost predicate Faithful(emitted: seq<Message>, inputs: seq<Input>, low: nat, high: nat) {
    && |emitted| <= |inputs| && low <= high
    && (forall k | 0 <= k < |emitted| :: emitted[k].kind == KindOf(inputs[k]) && emitted[k].devices == Folded(inputs[..k + 1]))
    && (forall k | 0 <= k < |emitted| :: low < emitted[k].sequence <= high)
    && (forall j, k | 0 <= j < k < |emitted| :: emitted[j].sequence < emitted[k].sequence)
  }

  lemma StaysFaithful(emitted: seq<Message>, inputs: seq<Input>, low: nat, high: nat, m: Message)
    requires Faithful(emitted, inputs, low, high) && |emitted| < |inputs| && high < m.sequence
    requires m.kind == KindOf(inputs[|emitted|]) && m.devices == Folded(inputs[..|emitted| + 1])
    ensures Faithful(emitted + [m], inputs, low, m.sequence)
  {
  }

  lemma FoldStep(inputs: seq<Input>, i: nat)
    requires Possible(inputs) && i < |inputs|
    ensures Possible(inputs[..i + 1])
    ensures match inputs[i]
            case Unavailable => !Listening(inputs[..i]) && !Listening(inputs[..i + 1])
            case Inventory(_) => !Listening(inputs[..i]) && Listening(inputs[..i + 1])
            case Lost => Listening(inputs[..i]) && !Listening(inputs[..i + 1])
            case _ => Listening(inputs[..i]) && Listening(inputs[..i + 1])
    ensures Folded(inputs[..i + 1]) ==
            match inputs[i]
            case Inventory(records) => ById(records)
            case Attached(d) => Folded(inputs[..i])[d.deviceId := d]
            case Detached(id) => Folded(inputs[..i]) - {id}
            case _ => Folded(inputs[..i])
  {
    PossiblePrefix(inputs, i + 1);
    assert inputs[..i + 1][..i] == inputs[..i];
  }

  /** The device event loop over all it meets; `elsewhere` says how many numbers others draw before each message. */
  method StreamNativeDeviceEvents(counter: EventCounter, inputs: seq<Input>, elsewhere: seq<nat>) returns (emitted: seq<Message>)
    requires Possible(inputs) && |elsewhere| == |inputs|
    modifies counter
    ensures |emitted| == |inputs| && Faithful(emitted, inputs, old(counter.value), counter.value)
  {
    hide Faithful, Folded, Possible, Listening;
    emitted := [];
    StartsFaithful(inputs, counter.value);
    var devices: map<nat, Device> := map[];
    var i := 0;
    while i < |inputs|
      invariant 0 <= i <= |inputs| && |emitted| == i && devices == Folded(inputs[..i])
      invariant i < |inputs| ==> !Listening(inputs[..i])
      invariant Faithful(emitted, inputs, old(counter.value), counter.value)
    {
      FoldStep(inputs, i);
      ghost var before := counter.value;
      counter.DrawnElsewhere(elsewhere[i]);
      var n := counter.Next();
      if inputs[i].Unavailable? {
        StaysFaithful(emitted, inputs, old(counter.value), before, Message(Reconnecting, n, devices));
        emitted := emitted + [Message(Reconnecting, n, devices)];
        i := i + 1;
        continue;
      }
      devices := CollectRecords(inputs[i].records);
      StaysFaithful(emitted, inputs, old(counter.value), before, Message(DeviceSnapshot, n, devices));
      emitted := emitted + [Message(DeviceSnapshot, n, devices)];
      i := i + 1;
      var listening := true;
      while i < |inputs| && listening
        invariant 0 <= i <= |inputs| && |emitted| == i && devices == Folded(inputs[..i])
        invariant listening == Listening(inputs[..i])
        invariant Faithful(emitted, inputs, old(counter.value), counter.value)
      {
        FoldStep(inputs, i);
        before := counter.value;
        counter.DrawnElsewhere(elsewhere[i]);
        n := counter.Next();
        var kind := Reconnecting;
        match inputs[i] {
          case Attached(d) =>
            devices := devices[d.deviceId := d];
            kind := DeviceConnected(d.deviceId);
          case Detached(id) =>
            devices := devices - {id};
            kind := DeviceDisconnected(id);
          case _ =>
            listening := false;
        }
        StaysFaithful(emitted, inputs, old(counter.value), before, Message(kind, n, devices));
        emitted := emitted + [Message(kind, n, devices)];
        i := i + 1;
      }
    }
  }

  lemma StartsFaithful(inputs: seq<Input>, low: nat)
    ensures Faithful([], inputs, low, low) && Folded(inputs[..0]) == map[] && !Listening(inputs[..0])
  {
  }

  method CollectRecords(records: seq<Device>) returns (m: map<nat, Device>)
    ensures m == ById(records)
  {
    m := map[];
    for i := 0 to |records|
      invariant m == ById(records[..i])
    {
      assert records[..i + 1][..i] == records[..i];
      m := m[records[i].deviceId := records[i]];
    }
    assert records[..|records|] == records;
  }

  lemma {:induction false} PossiblePrefix(inputs: seq<Input>, n: nat)
    requires Possible(inputs) && n <= |inputs|
    ensures Possible(inputs[..n])
    decreases |inputs|
  {
    if n < |inputs| {
      PossiblePrefix(inputs[..|inputs| - 1], n);
      assert inputs[..|inputs| - 1][..n] == inputs[..n];
    } else {
      assert inputs[..n] == inputs;
    }
  }

  // ---------------------------------------------------------------- what the fold means, one device at a time

  /** What an input says about one device id: nothing, that it is there with a record, or that it is not. */
  datatype Word = Silent | Present(device: Device) | Gone

  function Says(i: Input, id: nat): Word {
    match i
    case Inventory(records) => if id in ById(records) then Present(ById(records)[id]) else Gone
    case Attached(d) => if d.deviceId == id then Present(d) else Silent
    case Detached(x) => if x == id then Gone else Silent
    case _ => Silent
  }

  /** The k-th input is the last to say anything about the id, and says it is there with this record. */
  ghost predicate LastSaid(inputs: seq<Input>, id: nat, d: Device, k: nat) {
    && k < |inputs| && Says(inputs[k], id) == Present(d)
    && forall j | k < j < |inputs| :: Says(inputs[j], id) == Silent
  }

  /** One more input: a silent one changes nothing, any other has the last word. */
  lemma LastSaidNext(inputs: seq<Input>, i: Input, id: nat, d: Device, k: nat)
    ensures LastSaid(inputs + [i], id, d, k) <==>
      if Says(i, id) == Silent then LastSaid(inputs, id, d, k) else k == |inputs| && Says(i, id) == Present(d)
  {
    var all := inputs + [i];
    assert all[|inputs|] == i && forall j | 0 <= j < |inputs| :: all[j] == inputs[j];
  }

  lemma FoldedNext(inputs: seq<Input>, i: Input, id: nat, d: Device)
    ensures (id in Folded(inputs + [i]) && Folded(inputs + [i])[id] == d) <==>
      if Says(i, id) == Silent then id in Folded(inputs) && Folded(inputs)[id] == d else Says(i, id) == Present(d)
  {
    assert (inputs + [i])[..|inputs|] == inputs;
  }

  /** A device is listed exactly when the last input to say anything about its id said it was there, and it is
      listed with that input's record. */
  lemma {:induction false} ListedByLastWord(inputs: seq<Input>, id: nat, d: Device)
    ensures (id in Folded(inputs) && Folded(inputs)[id] == d) <==> exists k :: LastSaid(inputs, id, d, k)
  {
    if inputs == [] {
    } else {
      var before, i := inputs[..|inputs| - 1], inputs[|inputs| - 1];
      ListedByLastWord(before, id, d);
      assert inputs == before + [i];
      FoldedNext(before, i, id, d);
      hide Folded, Says, LastSaid;
      forall k: nat
        ensures LastSaid(inputs, id, d, k) <==>
          if Says(i, id) == Silent then LastSaid(before, id, d, k) else k == |before| && Says(i, id) == Present(d)
      {
        LastSaidNext(before, i, id, d, k);
      }
      if Says(i, id) == Present(d) {
        assert LastSaid(inputs, id, d, |before|);
      }
    }
  }
}
