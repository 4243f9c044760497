/**
 * The peripheral of the newest revision (`qtoggleserver/paradox/paradoxalarm.py`): the property
 * store as a field, filled by `parse_labels`, by pushed changes and by the diff pass, each
 * method proved against the store functions it implements.
 */
module ParadoxAlarm {
  import opened Wrappers
  import opened PyValues
  import opened OrderedDicts
  import opened PropertyStore
  import opened LabelSeeding
  import opened Notifier
  import opened StoreDiff

  /** The outcome `o` of the rest of a run, after the handler calls `log` already made. */
  function Prefixed(log: seq<Delivery>, o: Outcome): Outcome {
    Outcome(o.store, log + o.log, o.error)
  }

  lemma ThenEmpty(r: Changes)
    ensures Then([], r) == r
  {
    if r.Ok? {
      assert [] + r.value == r.value;
    }
  }

  lemma ThenThen(a: seq<Change>, b: seq<Change>, r: Changes)
    ensures Then(a, Then(b, r)) == Then(a + b, r)
  {
    if r.Ok? {
      assert a + (b + r.value) == (a + b) + r.value;
    }
  }

  /** The inner loop of an id-keyed type: `for prop, old_value in props.items()`, appending to the list. */
  method CollectPropChanges(kind: string, id: Value, props: ODict<Value, Value>, info: Record, acc: seq<Change>)
    returns (r: Changes)
    ensures r == Then(acc, PropChanges(kind, id, props, info, 0))
  {
    var found := acc;
    var k := 0;
    while k < |props.keys|
      invariant 0 <= k <= |props.keys|
      invariant Then(acc, PropChanges(kind, id, props, info, 0)) == Then(found, PropChanges(kind, id, props, info, k))
    {
      var prop := props.keys[k];
      if prop !in info {
        return Err(KeyError);
      }
      var stored := ValueAt(props, k);
      var here := if stored != info[prop] then [Change(kind, id, prop, Scalar(stored), info[prop])] else [];
      ThenThen(found, here, PropChanges(kind, id, props, info, k + 1));
      found := found + here;
      k := k + 1;
    }
    assert found + [] == found;
    r := Ok(found);
  }

  /** The nested loops of an id-keyed type: `for id_, props in properties.items()`. */
  method CollectEntityChanges(kind: string, td: TypeDict, records: Records) returns (r: Changes)
    ensures r == EntityChanges(kind, td, records, 0)
  {
    var found: seq<Change> := [];
    var j := 0;
    ThenEmpty(EntityChanges(kind, td, records, 0));
    while j < |td.keys|
      invariant 0 <= j <= |td.keys|
      invariant EntityChanges(kind, td, records, 0) == Then(found, EntityChanges(kind, td, records, j))
    {
      var id := td.keys[j];
      if id in records.vals {
        var slot := ValueAt(td, j);
        if slot.Scalar? {
          return Err(AttributeError);
        }
        var here := CollectPropChanges(kind, id, slot.props, records.vals[id], []);
        ThenEmpty(PropChanges(kind, id, slot.props, records.vals[id], 0));
        if here.Err? {
          return here;
        }
        ThenThen(found, here.value, EntityChanges(kind, td, records, j + 1));
        found := found + here.value;
      }
      j := j + 1;
    }
    assert found + [] == found;
    r := Ok(found);
  }

  /** `for _, props in type_info.items(): new_properties.update(props)`. */
  method MergeRecords(records: Records) returns (merged: map<Value, Value>)
    ensures merged == MergeUpTo(records, |records.keys|)
  {
    merged := map[];
    var n := 0;
    while n < |records.keys|
      invariant 0 <= n <= |records.keys|
      invariant merged == MergeUpTo(records, n)
    {
      merged := merged + ValueAt(records, n);
      n := n + 1;
    }
  }

  /** The loop of a flat type: `for prop, old_value in properties.items()`. */
  method CollectFlatChanges(kind: string, td: TypeDict, merged: map<Value, Value>) returns (found: seq<Change>)
    ensures found == FlatChanges(kind, td, merged, 0)
  {
    found := [];
    var j := 0;
    while j < |td.keys|
      invariant 0 <= j <= |td.keys|
      invariant FlatChanges(kind, td, merged, 0) == found + FlatChanges(kind, td, merged, j)
    {
      var prop := td.keys[j];
      var stored := ValueAt(td, j);
      var snapValue := if prop in merged then merged[prop] else VNone;
      if snapValue != VNone && stored != Scalar(snapValue) {
        found := found + [Change(kind, VNone, prop, stored, snapValue)];
      }
      j := j + 1;
    }
  }

  /** The comparison of one stored type, shaped by its first stored value. */
  method CollectTypeChanges(kind: string, td: TypeDict, records: Records) returns (r: Changes)
    ensures r == TypeChanges(kind, td, records)
  {
    if |td.keys| == 0 {
      return Err(StopIteration);
    }
    var first := ValueAt(td, 0);
    if first.Props? {
      r := CollectEntityChanges(kind, td, records);
    } else {
      var merged := MergeRecords(records);
      var found := CollectFlatChanges(kind, td, merged);
      r := Ok(found);
    }
  }

  lemma PrefixedPrefixed(a: seq<Delivery>, b: seq<Delivery>, o: Outcome)
    ensures Prefixed(a, Prefixed(b, o)) == Prefixed(a + b, o)
  {
    assert a + (b + o.log) == (a + b) + o.log;
  }

  class ParadoxAlarm {
    /** `self._properties`. */
    var properties: Store

    constructor ()
      ensures properties == Empty()
    {
      properties := Empty();
    }

    /** `get_property`. */
    function GetPropertyOf(kind: string, id: Value, name: Value): Result<Slot, PyError>
      reads this
    {
      GetProperty(properties, kind, id, name)
    }

    /** `get_properties`. */
    function GetPropertiesOf(kind: string, id: Value): Properties
      reads this
    {
      GetProperties(properties, kind, id)
    }

    /** `parse_labels`, which skips entries without a `label`. */
    method ParseLabels(snap: Snapshot) returns (error: Option<PyError>)
      modifies this
      ensures Seeded(properties, error) == LabelSeeding.ParseLabels(old(properties), snap, true)
    {
      var r := SeedLabels(properties, snap, true);
      properties := r.store;
      error := r.error;
    }

    /** `handle_paradox_property_change`: the store step, then the fan-out to every port. */
    method HandlePropertyChange(snap: Snapshot, c: Change, ports: seq<Observer>) returns (log: seq<Delivery>, error: Option<PyError>)
      modifies this
      ensures Outcome(properties, log, error) == HandleChange(old(properties), snap, c, ports)
    {
      var a := ApplyChange(properties, snap, c);
      properties := a.store;
      if a.resolved.Err? {
        return [], Some(a.resolved.error);
      }
      log := FanOut(ports, NotificationOf(c, a.resolved.value));
      error := None;
    }

    /** `_update_properties`: compare each stored type with the snapshot and dispatch the list of changes. */
    method UpdateProperties(snap: Snapshot, ports: seq<Observer>) returns (log: seq<Delivery>, error: Option<PyError>)
      modifies this
      ensures Outcome(properties, log, error) == StoreDiff.UpdateProperties(old(properties), snap, ports)
    {
      var kinds := properties.keys;
      var pending: seq<Change> := [];
      log := [];
      var i := 0;
      while i < |kinds|
        invariant 0 <= i <= |kinds|
        invariant StoreDiff.UpdateProperties(old(properties), snap, ports) ==
          Prefixed(log, UpdateTypes(properties, snap, kinds, i, pending, ports))
      {
        var kind := kinds[i];
        if kind in snap.vals {
          var found := CollectTypeChanges(kind, TypeDictOf(properties, kind), snap.vals[kind]);
          if found.Err? {
            return log, Some(found.error);
          }
          var all := pending + found.value;
          var l, e := DispatchAll(snap, all, ports);
          if e.Some? {
            return log + l, e;
          }
          PrefixedPrefixed(log, l, UpdateTypes(properties, snap, kinds, i + 1, all, ports));
          log := log + l;
          pending := all;
        }
        i := i + 1;
      }
      error := None;
    }

    /** `for change in changes: self.handle_paradox_property_change(change)`. */
    method DispatchAll(snap: Snapshot, all: seq<Change>, ports: seq<Observer>) returns (log: seq<Delivery>, error: Option<PyError>)
      modifies this
      ensures Outcome(properties, log, error) == Dispatch(old(properties), snap, all, ports)
    {
      log := [];
      var k := 0;
      while k < |all|
        invariant 0 <= k <= |all|
        invariant Dispatch(old(properties), snap, all, ports) == Prefixed(log, Dispatch(properties, snap, all[k..], ports))
      {
        var l, e := HandlePropertyChange(snap, all[k], ports);
        assert all[k..][1..] == all[k + 1..];
        if e.Some? {
          return log + l, e;
        }
        PrefixedPrefixed(log, l, Dispatch(properties, snap, all[k + 1..], ports));
        log := log + l;
        k := k + 1;
      }
      error := None;
    }
  }
}
