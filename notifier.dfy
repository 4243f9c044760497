/**
 * Fan-out of a stored change to the peripheral's ports. Every port's `on_property_change` is
 * called in port order; an exception raised by one handler is caught and logged, and the loop
 * goes on with the next port. A port is seen here only through its id and whether its handler
 * raises for a given notification; what a handler does inside its port is not modelled.
 */
module Notifier {
  import opened Wrappers
  import opened PyValues
  import opened OrderedDicts
  import opened PropertyStore

  /** The arguments of `on_property_change(type, id, property, old_value, new_value)`. */
  datatype Notification = Notification(kind: string, id: Value, property: Value, oldValue: Slot, newValue: Value)

  /** A port: its id and whether its `on_property_change` raises for a notification. */
  datatype Observer = Observer(portId: string, raises: Notification -> bool)

  /** One handler call: which port was called and whether its handler raised (and was logged). */
  datatype Delivery = Delivery(portId: string, notification: Notification, failed: bool)

  /** The notification a stored change produces, with the id it was stored under (None when flat). */
  function NotificationOf(c: Change, id: Value): (n: Notification)
    ensures n.kind == c.kind && n.id == id && n.property == c.property
    ensures n.oldValue == c.oldValue && n.newValue == c.newValue
  {
    Notification(c.kind, id, c.property, c.oldValue, c.newValue)
  }

  /**
   * The handler calls of one fan-out: every port is called exactly once, in order, with the
   * same notification, whether or not the ports before it raised.
   */
  function Notify(ports: seq<Observer>, n: Notification): (r: seq<Delivery>)
    ensures |r| == |ports|
    ensures forall i :: 0 <= i < |ports| ==>
      r[i].portId == ports[i].portId && r[i].notification == n && r[i].failed == ports[i].raises(n)
  {
    if |ports| == 0 then []
    else [Delivery(ports[0].portId, n, ports[0].raises(n))] + Notify(ports[1..], n)
  }

  /** The `for port in self.get_ports(): try ... except` loop. */
  method FanOut(ports: seq<Observer>, n: Notification) returns (log: seq<Delivery>)
    ensures log == Notify(ports, n)
  {
    log := [];
    var i := 0;
    while i < |ports|
      invariant 0 <= i <= |ports|
      invariant |log| == i
      invariant forall k :: 0 <= k < i ==> log[k] == Delivery(ports[k].portId, n, ports[k].raises(n))
    {
      var failed := ports[i].raises(n);
      log := log + [Delivery(ports[i].portId, n, failed)];
      i := i + 1;
    }
    assert log == Notify(ports, n);
  }

  /** A failing port costs only its own delivery: the ports after it are still called. */
  lemma {:induction false} FailureContained(ports: seq<Observer>, n: Notification, i: nat)
    requires i < |ports| && ports[i].raises(n)
    ensures Notify(ports, n)[i + 1..] == Notify(ports[i + 1..], n)
  {
    var r := Notify(ports, n);
    var tail := Notify(ports[i + 1..], n);
    assert |r[i + 1..]| == |tail|;
    forall m | 0 <= m < |tail|
      ensures r[i + 1..][m] == tail[m]
    {
      assert ports[i + 1..][m] == ports[i + 1 + m];
    }
  }

  /** `PAIPort.on_property_change`: the base handler does nothing and never raises. */
  function BasePort(portId: string): (o: Observer)
    ensures o.portId == portId
    ensures forall n :: !o.raises(n)
  {
    Observer(portId, (n: Notification) => false)
  }

  /** Ports that keep the base handler never fail a delivery. */
  lemma BasePortsNeverFail(ids: seq<string>, n: Notification)
    ensures var ports := seq(|ids|, i requires 0 <= i < |ids| => BasePort(ids[i]));
      forall d :: d in Notify(ports, n) ==> !d.failed
  {
    var ports := seq(|ids|, i requires 0 <= i < |ids| => BasePort(ids[i]));
    forall d | d in Notify(ports, n)
      ensures !d.failed
    {
      var i :| 0 <= i < |ports| && Notify(ports, n)[i] == d;
    }
  }

  /** What a call of `handle_paradox_property_change` did: the store after it, the handler calls made, the exception it raised. */
  datatype Outcome = Outcome(store: Store, log: seq<Delivery>, error: Option<PyError>)

  /**
   * `handle_paradox_property_change`: the store step, then, when it did not raise, one
   * notification with the resolved id to every port. An exception of the store step propagates
   * before any port is called.
   */
  function HandleChange(s: Store, snap: Snapshot, c: Change, ports: seq<Observer>): Outcome {
    var a := ApplyChange(s, snap, c);
    match a.resolved
    case Err(e) => Outcome(a.store, [], Some(e))
    case Ok(id) => Outcome(a.store, Notify(ports, NotificationOf(c, id)), None)
  }

  /**
   * A change whose snapshot record has an id and a label is stored under that id and reaches every
   * port with that id; a change without an id record is stored flat and reaches every port with
   * None; a change of a type the snapshot lacks raises KeyError, changes nothing and reaches no port.
   * When the id holds a single value the handler raises TypeError with the store unchanged; when
   * the record has no label it raises KeyError after writing the property. Neither reaches a port.
   */
  lemma HandleChangeDelivers(s: Store, snap: Snapshot, c: Change, ports: seq<Observer>)
    ensures Get(snap, c.kind).None? ==> HandleChange(s, snap, c, ports) == Outcome(s, [], Some(KeyError))
    ensures ResolveId(snap, c).Some? && HoldsScalar(s, c.kind, ResolveId(snap, c).value) ==>
      HandleChange(s, snap, c, ports) == Outcome(s, [], Some(TypeError))
    ensures ResolveId(snap, c).Some? && LABEL_FIELD !in snap.vals[c.kind].vals[c.key] && !HoldsScalar(s, c.kind, ResolveId(snap, c).value) ==>
      HandleChange(s, snap, c, ports).error == Some(KeyError) &&
      HandleChange(s, snap, c, ports).log == [] &&
      EntityProp(HandleChange(s, snap, c, ports).store, c.kind, ResolveId(snap, c).value, c.property) == Some(c.newValue)
    ensures ResolveId(snap, c).Some? && LABEL_FIELD in snap.vals[c.kind].vals[c.key] && !HoldsScalar(s, c.kind, ResolveId(snap, c).value) ==>
      HandleChange(s, snap, c, ports).error.None? &&
      HandleChange(s, snap, c, ports).log == Notify(ports, NotificationOf(c, ResolveId(snap, c).value))
    ensures Get(snap, c.kind).Some? && ResolveId(snap, c).None? ==>
      HandleChange(s, snap, c, ports).error.None? &&
      HandleChange(s, snap, c, ports).log == Notify(ports, NotificationOf(c, VNone))
  {
    if ResolveId(snap, c).Some? && LABEL_FIELD in snap.vals[c.kind].vals[c.key] && !HoldsScalar(s, c.kind, ResolveId(snap, c).value) {
      ApplyChangeToRecord(s, snap, c, ResolveId(snap, c).value);
    }
    if ResolveId(snap, c).Some? && LABEL_FIELD !in snap.vals[c.kind].vals[c.key] && !HoldsScalar(s, c.kind, ResolveId(snap, c).value) {
      ApplyChangeWithoutLabel(s, snap, c, ResolveId(snap, c).value);
    }
  }
}
