/** The consumer of the bridge's events that counts USB disconnects and reconnects
    (packages/dkrypt/src/deviceBridgeEvents.ts:14-55). */
module DeviceEventTracker {
  import opened Wrappers
  import opened DeviceEvents

  /** A device as received: a key that is not a string counts as missing. */
  datatype Summary = Summary(id: Option<string>, udid: Option<string>, usb: bool)

  function UsbId(s: Summary): Option<string> {
    var id := if s.id.Some? then s.id else s.udid;
    if id.Some? && id.value != "" && s.usb then id else None
  }

  function UsbIds(devices: seq<Summary>): set<string> {
    set s | s in devices && UsbId(s).Some? :: UsbId(s).value
  }

  datatype Tracked = Tracked(current: Option<set<string>>, seen: set<string>, last: Option<int>, disconnects: nat, reconnects: nat)

  /** One recorded event: who left is a disconnect, who came and had been seen before is a reconnect. */
  function Recorded(t: Tracked, sequence: int, ids: set<string>): Tracked {
    if t.last == Some(sequence) then t
    else if t.current.None? then t.(current := Some(ids), seen := t.seen + ids, last := Some(sequence))
    else Tracked(Some(ids), t.seen + ids, Some(sequence), t.disconnects + |t.current.value - ids|,
                 t.reconnects + |(ids - t.current.value) * t.seen|)
  }

  predicate NoDuplicates(s: seq<string>) {
    forall i, j | 0 <= i < j < |s| :: s[i] != s[j]
  }

  function Members(s: seq<string>): set<string> {
    set x | x in s
  }

  class RustDeviceEventMetricTracker {
    /** The ids last seen, in the order they were listed. */
    var current: Option<seq<string>>
    var seen: set<string>
    var last: Option<int>
    var disconnects: nat
    var reconnects: nat

    predicate Valid()
      reads this
    {
      current.Some? ==> NoDuplicates(current.value)
    }

    function View(): Tracked
      reads this
    {
      Tracked(if current.Some? then Some(Members(current.value)) else None, seen, last, disconnects, reconnects)
    }

    constructor ()
      ensures Valid() && View() == Tracked(None, {}, None, 0, 0)
    {
      current, seen, last, disconnects, reconnects := None, {}, None, 0, 0;
    }

    method Record(sequence: int, devices: seq<Summary>)
      requires Valid()
      modifies this
      ensures Valid() && View() == Recorded(old(View()), sequence, UsbIds(devices))
    {
      hide Members, UsbIds, NoDuplicates;
      if last == Some(sequence) { return; }
      last := Some(sequence);
      var ids := UsbDeviceIds(devices);
      if current.Some? {
        var left := CountIn(current.value, Members(current.value) - Members(ids));
        var back := CountIn(ids, (Members(ids) - Members(current.value)) * seen);
        disconnects := disconnects + left;
        reconnects := reconnects + back;
      }
      seen := seen + Members(ids);
      current := Some(ids);
    }
  }

  /** new Set(usbDeviceIds(devices)), in insertion order. */
  method UsbDeviceIds(devices: seq<Summary>) returns (ids: seq<string>)
    ensures NoDuplicates(ids) && Members(ids) == UsbIds(devices)
  {
    ids := [];
    for i := 0 to |devices|
      invariant NoDuplicates(ids) && Members(ids) == UsbIds(devices[..i])
    {
      assert devices[..i + 1] == devices[..i] + [devices[i]];
      assert UsbIds(devices[..i + 1]) == UsbIds(devices[..i]) + if UsbId(devices[i]).Some? then {UsbId(devices[i]).value} else {};
      var id := UsbId(devices[i]);
      if id.Some? && id.value !in ids {
        assert Members(ids + [id.value]) == Members(ids) + {id.value};
        ids := ids + [id.value];
      }
    }
    assert devices[..|devices|] == devices;
  }

  /** Counting the listed ids that meet a condition, one by one. */
  method CountIn(ids: seq<string>, wanted: set<string>) returns (n: nat)
    requires NoDuplicates(ids) && wanted <= Members(ids)
    ensures n == |wanted|
  {
    hide Members, NoDuplicates;
    n := 0;
    MembersEnds(ids);
    assert wanted * {} == {};
    for i := 0 to |ids|
      invariant n == |wanted * Members(ids[..i])|
    {
      MembersNext(ids, i);
      CountNext(wanted, Members(ids[..i]), ids[i]);
      if ids[i] in wanted {
        n := n + 1;
      }
    }
    assert wanted * Members(ids) == wanted;
  }

  lemma MembersEnds(ids: seq<string>)
    ensures Members(ids[..0]) == {} && ids[..|ids|] == ids
  {
  }

  lemma MembersNext(ids: seq<string>, i: nat)
    requires NoDuplicates(ids) && i < |ids|
    ensures Members(ids[..i + 1]) == Members(ids[..i]) + {ids[i]} && ids[i] !in Members(ids[..i])
  {
  }

  lemma CountNext<T>(wanted: set<T>, before: set<T>, x: T)
    requires x !in before
    ensures |wanted * (before + {x})| == |wanted * before| + if x in wanted then 1 else 0
  {
    if x in wanted {
      assert wanted * (before + {x}) == wanted * before + {x};
    } else {
      assert wanted * (before + {x}) == wanted * before;
    }
  }

  // ---------------------------------------------------------------- conservation

  datatype Event = Event(sequence: int, ids: set<string>)

  function Run(t: Tracked, events: seq<Event>): Tracked {
    if events == [] then t
    else
      var e := events[|events| - 1];
      Recorded(Run(t, events[..|events| - 1]), e.sequence, e.ids)
  }

  /** Present devices and disconnects balance devices ever seen and reconnects. */
  predicate Balanced(t: Tracked) {
    if t.current.None? then t.seen == {} && t.disconnects == t.reconnects == 0 && t.last.None?
    else t.current.value <= t.seen && |t.current.value| + t.disconnects == |t.seen| + t.reconnects
  }

  lemma Split<T>(a: set<T>, b: set<T>)
    ensures |a| == |a * b| + |a - b|
  {
  }

  /** Replacing the present set c by ids, with s ever seen. */
  lemma Exchange<T>(c: set<T>, ids: set<T>, s: set<T>)
    requires c <= s
    ensures |ids| + |c - ids| == |c| + |ids - c|
    ensures |ids - c| == |(ids - c) * s| + |ids - s|
    ensures |s + ids| == |s| + |ids - s|
  {
    Split(c, ids);
    Split(ids, c);
    assert c * ids == ids * c;
    Split(ids - c, s);
    assert (ids - c) - s == ids - s;
    Split(s + ids, s);
    assert (s + ids) * s == s;
    assert (s + ids) - s == ids - s;
  }

  lemma RecordBalances(t: Tracked, sequence: int, ids: set<string>)
    requires Balanced(t)
    ensures Balanced(Recorded(t, sequence, ids))
  {
    if t.current.Some? {
      Exchange(t.current.value, ids, t.seen);
    }
  }

  /** After any non-empty run of events: present + disconnects == ever seen + reconnects. */
  lemma {:induction false} RunBalances(t: Tracked, events: seq<Event>)
    requires Balanced(t)
    ensures Balanced(Run(t, events))
    ensures events != [] ==> Run(t, events).current.Some?
  {
    if events == [] {
    } else {
      var n := |events| - 1;
      RunBalances(t, events[..n]);
      RecordBalances(Run(t, events[..n]), events[n].sequence, events[n].ids);
      assert Run(t, events[..n]).last.Some? ==> Run(t, events[..n]).current.Some?;
    }
  }

  // ---------------------------------------------------------------- from the bridge to the consumer

  /** The USB ids of a device list as the consumer reads them; both id and udid carry the udid. */
  function UsbOf(devices: map<nat, Device>): set<string> {
    set k | k in devices && devices[k].transport.Usb? && devices[k].udid != "" :: devices[k].udid
  }

  function Received(emitted: seq<Message>): seq<Event> {
    seq(|emitted|, k requires 0 <= k < |emitted| => Event(emitted[k].sequence, UsbOf(emitted[k].devices)))
  }

  /** A consumer that follows a bridge stream from its start skips nothing: after every message its devices are
      the USB devices of the last inventory folded with what happened since. */
  lemma {:induction false} FollowsTheBridge(t: Tracked, inputs: seq<Input>, emitted: seq<Message>, low: nat, high: nat, n: nat)
    requires Faithful(emitted, inputs, low, high) && 0 < n <= |emitted|
    requires t.last.Some? ==> t.last.value <= low
    ensures var after := Run(t, Received(emitted)[..n]);
            && after.current == Some(UsbOf(Folded(inputs[..n])))
            && after.last == Some(emitted[n - 1].sequence)
  {
    hide Folded, UsbOf, KindOf;
    var events := Received(emitted);
    assert events[..n][..n - 1] == events[..n - 1];
    assert events[n - 1] == Event(emitted[n - 1].sequence, UsbOf(Folded(inputs[..n])));
    if n > 1 {
      FollowsTheBridge(t, inputs, emitted, low, high, n - 1);
      assert emitted[n - 2].sequence < emitted[n - 1].sequence;
    } else {
      assert events[..0] == [];
    }
    assert Run(t, events[..n]) == Recorded(Run(t, events[..n - 1]), events[n - 1].sequence, events[n - 1].ids);
  }
}
