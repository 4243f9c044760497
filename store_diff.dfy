/**
 * The diff pass of the newest revision (`_update_properties`): for every stored type that the
 * panel client's snapshot also has, compare the stored values with the snapshot and collect a
 * change per differing value, then push the changes collected so far through the same path as
 * a live change (store, then fan-out).
 *
 * A type whose first stored value is a record is compared entity by entity; any other type is
 * flat, and is compared against all of the type's snapshot records merged in order.
 */
module StoreDiff {
  import opened Wrappers
  import opened PyValues
  import opened OrderedDicts
  import opened PropertyStore
  import opened Notifier

  /** The changes a comparison collects, or the exception that stopped it. */
  type Changes = Result<seq<Change>, PyError>

  /** `acc` followed by the outcome `r` of the rest of a comparison. */
  function Then(acc: seq<Change>, r: Changes): (t: Changes)
    ensures r.Err? ==> t == r
    ensures r.Ok? ==> t == Ok(acc + r.value)
  {
    if r.Err? then r else Ok(acc + r.value)
  }

  // ---------------------------------------------------------------------------------------
  // Types keyed by id

  /** `c` reports that stored property `c.property` of `props` differs from the snapshot record `info`. */
  predicate PropDiffers(props: ODict<Value, Value>, info: Record, c: Change) {
    && c.property in props.vals
    && c.property in info
    && c.oldValue == Scalar(props.vals[c.property])
    && c.newValue == info[c.property]
    && props.vals[c.property] != info[c.property]
  }

  /**
   * `for prop, old_value in props.items(): new_value = id_info[prop]`, from the j-th stored
   * property on: a change per property whose snapshot value differs, KeyError for a stored
   * property the snapshot record lacks.
   */
  function PropChanges(kind: string, id: Value, props: ODict<Value, Value>, info: Record, j: nat): Changes
    requires j <= |props.keys|
    decreases |props.keys| - j
  {
    if j == |props.keys| then Ok([])
    else
      var prop := props.keys[j];
      if prop !in info then Err(KeyError)
      else
        var stored := ValueAt(props, j);
        var here := if stored != info[prop] then [Change(kind, id, prop, Scalar(stored), info[prop])] else [];
        Then(here, PropChanges(kind, id, props, info, j + 1))
  }

  /** The entity's comparison raises exactly when a stored property from position j on is missing from the record. */
  lemma {:induction false} PropChangesError(kind: string, id: Value, props: ODict<Value, Value>, info: Record, j: nat)
    requires j <= |props.keys|
    ensures PropChanges(kind, id, props, info, j).Err? <==> exists m :: j <= m < |props.keys| && props.keys[m] !in info
    ensures PropChanges(kind, id, props, info, j).Err? ==> PropChanges(kind, id, props, info, j).error == KeyError
    decreases |props.keys| - j
  {
    if j < |props.keys| {
      PropChangesError(kind, id, props, info, j + 1);
      if props.keys[j] in info && PropChanges(kind, id, props, info, j + 1).Ok? {
        forall m | j <= m < |props.keys|
          ensures props.keys[m] in info
        {
          if m > j {
            assert j + 1 <= m;
          }
        }
      }
    }
  }

  /** When it completes, the entity's comparison reports exactly the differing properties from position j on. */
  lemma {:induction false} PropChangesExact(kind: string, id: Value, props: ODict<Value, Value>, info: Record, j: nat)
    requires j <= |props.keys|
    requires PropChanges(kind, id, props, info, j).Ok?
    ensures forall c :: c in PropChanges(kind, id, props, info, j).value <==>
      c.kind == kind && c.key == id && c.property in props.keys[j..] && PropDiffers(props, info, c)
    decreases |props.keys| - j
  {
    if j < |props.keys| {
      PropChangesExact(kind, id, props, info, j + 1);
      assert props.keys[j..] == [props.keys[j]] + props.keys[j + 1..];
    }
  }

  /** `c` reports a difference between the stored entity `c.key` of an id-keyed type dict and its snapshot record. */
  predicate IsEntityChange(kind: string, td: TypeDict, records: Records, c: Change) {
    && c.kind == kind
    && c.key in td.vals
    && c.key in records.vals
    && td.vals[c.key].Props?
    && PropDiffers(td.vals[c.key].props, records.vals[c.key], c)
  }

  /**
   * `for id_, props in properties.items()`, from the j-th stored key on: keys the snapshot lacks
   * are skipped; a key that holds a single value has no `.items()`.
   */
  function EntityChanges(kind: string, td: TypeDict, records: Records, j: nat): Changes
    requires j <= |td.keys|
    decreases |td.keys| - j
  {
    if j == |td.keys| then Ok([])
    else
      var id := td.keys[j];
      if id !in records.vals then EntityChanges(kind, td, records, j + 1)
      else
        match ValueAt(td, j)
        case Scalar(_) => Err(AttributeError)
        case Props(p) =>
          var here := PropChanges(kind, id, p, records.vals[id], 0);
          if here.Err? then here else Then(here.value, EntityChanges(kind, td, records, j + 1))
  }

  /** The m-th stored entity, when the snapshot has it, is a record all of whose properties the snapshot record has. */
  predicate EntityComparable(td: TypeDict, records: Records, m: nat)
    requires m < |td.keys|
  {
    td.keys[m] in records.vals ==>
      && ValueAt(td, m).Props?
      && forall n :: 0 <= n < |ValueAt(td, m).props.keys| ==> ValueAt(td, m).props.keys[n] in records.vals[td.keys[m]]
  }

  /** The comparison of an id-keyed type from position j on can complete: every entity from there on is comparable. */
  predicate EntitiesComparable(td: TypeDict, records: Records, j: nat)
    requires j <= |td.keys|
  {
    forall m :: j <= m < |td.keys| ==> EntityComparable(td, records, m)
  }

  lemma {:induction false} EntityChangesError(kind: string, td: TypeDict, records: Records, j: nat)
    requires j <= |td.keys|
    ensures EntityChanges(kind, td, records, j).Ok? <==> EntitiesComparable(td, records, j)
    decreases |td.keys| - j
  {
    if j < |td.keys| {
      EntityChangesError(kind, td, records, j + 1);
      var id := td.keys[j];
      if id in records.vals && ValueAt(td, j).Props? {
        PropChangesError(kind, id, ValueAt(td, j).props, records.vals[id], 0);
      }
      if EntitiesComparable(td, records, j + 1) && EntityComparable(td, records, j) {
        forall m | j <= m < |td.keys|
          ensures EntityComparable(td, records, m)
        {
          if m > j {
            assert j + 1 <= m;
          }
        }
      }
    }
  }

  /** When it completes, the comparison of an id-keyed type reports exactly the differing stored values. */
  lemma {:induction false} EntityChangesExact(kind: string, td: TypeDict, records: Records, j: nat)
    requires j <= |td.keys|
    requires EntityChanges(kind, td, records, j).Ok?
    ensures forall c :: c in EntityChanges(kind, td, records, j).value <==>
      c.key in td.keys[j..] && IsEntityChange(kind, td, records, c)
    decreases |td.keys| - j
  {
    if j < |td.keys| {
      var id := td.keys[j];
      var here := EntityHere(kind, td, records, j);
      EntityChangesExact(kind, td, records, j + 1);
      var rest := EntityChanges(kind, td, records, j + 1).value;
      assert EntityChanges(kind, td, records, j).value == here + rest;
      assert td.keys[j..] == [id] + td.keys[j + 1..];
      forall c: Change
        ensures c in here <==> c.key == id && IsEntityChange(kind, td, records, c)
      {
        EntityHereExact(kind, td, records, j, c);
      }
    }
  }

  /** The changes the j-th stored entity contributes, in a comparison that completes. */
  function EntityHere(kind: string, td: TypeDict, records: Records, j: nat): (here: seq<Change>)
    requires j < |td.keys|
    requires EntityChanges(kind, td, records, j).Ok?
    ensures EntityChanges(kind, td, records, j + 1).Ok?
    ensures EntityChanges(kind, td, records, j).value == here + EntityChanges(kind, td, records, j + 1).value
  {
    var id := td.keys[j];
    if id !in records.vals then []
    else PropChanges(kind, id, ValueAt(td, j).props, records.vals[id], 0).value
  }

  /** A change is among those of the j-th entity exactly when it reports a difference of that entity. */
  lemma EntityHereExact(kind: string, td: TypeDict, records: Records, j: nat, c: Change)
    requires j < |td.keys|
    requires EntityChanges(kind, td, records, j).Ok?
    ensures c in EntityHere(kind, td, records, j) <==> c.key == td.keys[j] && IsEntityChange(kind, td, records, c)
  {
    var id := td.keys[j];
    if id in records.vals {
      var p := ValueAt(td, j).props;
      assert td.vals[id] == Props(p);
      PropChangesExact(kind, id, p, records.vals[id], 0);
      assert p.keys[0..] == p.keys;
      if c.key == id && c.kind == kind && PropDiffers(p, records.vals[id], c) {
        InKeys(p, c.property);
      }
    }
  }

  // ---------------------------------------------------------------------------------------
  // Flat types

  /** `new_properties.update(props)` over the first n snapshot records: later records overwrite earlier ones. */
  function MergeUpTo(records: Records, n: nat): map<Value, Value>
    requires n <= |records.keys|
  {
    if n == 0 then map[] else MergeUpTo(records, n - 1) + ValueAt(records, n - 1)
  }

  /** A name is in the merge exactly when some merged record has it. */
  lemma {:induction false} MergeHas(records: Records, n: nat, k: Value)
    requires n <= |records.keys|
    ensures k in MergeUpTo(records, n) <==> exists m :: 0 <= m < n && k in ValueAt(records, m)
  {
    if n > 0 {
      MergeHas(records, n - 1, k);
      if k in ValueAt(records, n - 1) {
        assert 0 <= n - 1 < n && k in ValueAt(records, n - 1);
      } else if exists m :: 0 <= m < n && k in ValueAt(records, m) {
        var m :| 0 <= m < n && k in ValueAt(records, m);
        assert m < n - 1;
      }
    }
  }

  /** The merge holds, for each name, the value of the last merged record that has it. */
  lemma {:induction false} MergeLastWins(records: Records, n: nat, k: Value, m: nat)
    requires m < n <= |records.keys|
    requires k in ValueAt(records, m)
    requires forall m' :: m < m' < n ==> k !in ValueAt(records, m')
    ensures k in MergeUpTo(records, n) && MergeUpTo(records, n)[k] == ValueAt(records, m)[k]
  {
    if m < n - 1 {
      assert k !in ValueAt(records, n - 1);
      MergeLastWins(records, n - 1, k, m);
    }
  }

  /** `c` reports a flat stored value that differs from a non-None merged snapshot value. */
  predicate IsFlatChange(kind: string, td: TypeDict, merged: map<Value, Value>, c: Change) {
    && c.kind == kind
    && c.key == VNone
    && c.property in td.vals
    && c.oldValue == td.vals[c.property]
    && c.property in merged
    && merged[c.property] != VNone
    && c.newValue == merged[c.property]
    && c.oldValue != Scalar(c.newValue)
  }

  /**
   * `for prop, old_value in properties.items()`, from the j-th stored key on: a merged value that
   * is None or absent is skipped, any other produces a change when it differs (a stored record
   * differs from every single value).
   */
  function FlatChanges(kind: string, td: TypeDict, merged: map<Value, Value>, j: nat): seq<Change>
    requires j <= |td.keys|
    decreases |td.keys| - j
  {
    if j == |td.keys| then []
    else
      var prop := td.keys[j];
      var stored := ValueAt(td, j);
      var snapValue := if prop in merged then merged[prop] else VNone;
      var here := if snapValue != VNone && stored != Scalar(snapValue) then [Change(kind, VNone, prop, stored, snapValue)] else [];
      here + FlatChanges(kind, td, merged, j + 1)
  }

  lemma {:induction false} FlatChangesExact(kind: string, td: TypeDict, merged: map<Value, Value>, j: nat)
    requires j <= |td.keys|
    ensures forall c :: c in FlatChanges(kind, td, merged, j) <==>
      c.property in td.keys[j..] && IsFlatChange(kind, td, merged, c)
    decreases |td.keys| - j
  {
    if j < |td.keys| {
      FlatChangesExact(kind, td, merged, j + 1);
      assert td.keys[j..] == [td.keys[j]] + td.keys[j + 1..];
    }
  }

  // ---------------------------------------------------------------------------------------
  // One type

  /**
   * The comparison of one stored type with its snapshot records. The shape is decided by the
   * first stored value (`next(iter(...))`, StopIteration on an empty type dict).
   */
  function TypeChanges(kind: string, td: TypeDict, records: Records): Changes {
    var first: Option<Slot> := First(td);
    match first
    case None => Err(StopIteration)
    case Some(Props(_)) => EntityChanges(kind, td, records, 0)
    case Some(Scalar(_)) => Ok(FlatChanges(kind, td, MergeUpTo(records, |records.keys|), 0))
  }

  /**
   * Exactness of a type's comparison: an id-keyed type reports exactly the stored (id, property)
   * pairs whose snapshot value differs, and raises exactly when a stored entity present in the
   * snapshot is not a record or has a property the snapshot record lacks; a flat type reports
   * exactly the stored names whose merged snapshot value is set and differs, and never raises.
   * Stored ids and names the snapshot lacks produce nothing and are not deleted.
   */
  lemma TypeChangesExact(kind: string, td: TypeDict, records: Records)
    ensures First(td).None? ==> TypeChanges(kind, td, records) == Err(StopIteration)
    ensures First(td).Some? && First(td).value.Props? ==>
      (TypeChanges(kind, td, records).Ok? <==> EntitiesComparable(td, records, 0))
    ensures First(td).Some? && First(td).value.Props? && TypeChanges(kind, td, records).Ok? ==>
      forall c :: c in TypeChanges(kind, td, records).value <==> IsEntityChange(kind, td, records, c)
    ensures First(td).Some? && First(td).value.Scalar? ==>
      TypeChanges(kind, td, records).Ok? &&
      forall c :: c in TypeChanges(kind, td, records).value <==>
        IsFlatChange(kind, td, MergeUpTo(records, |records.keys|), c)
  {
    assert td.keys[0..] == td.keys;
    EntityChangesError(kind, td, records, 0);
    if First(td).Some? && First(td).value.Props? && TypeChanges(kind, td, records).Ok? {
      EntityChangesExact(kind, td, records, 0);
      forall c | IsEntityChange(kind, td, records, c)
        ensures c.key in td.keys
      {
        InKeys(td, c.key);
      }
    }
    FlatChangesExact(kind, td, MergeUpTo(records, |records.keys|), 0);
    forall c | IsFlatChange(kind, td, MergeUpTo(records, |records.keys|), c)
      ensures c.property in td.keys
    {
      InKeys(td, c.property);
    }
  }

  // ---------------------------------------------------------------------------------------
  // The whole pass

  /** `for change in changes: self.handle_paradox_property_change(change)`, stopping at the first exception. */
  function Dispatch(s: Store, snap: Snapshot, cs: seq<Change>, ports: seq<Observer>): Outcome
    decreases |cs|
  {
    if |cs| == 0 then Outcome(s, [], None)
    else
      var h := HandleChange(s, snap, cs[0], ports);
      if h.error.Some? then h
      else
        var rest := Dispatch(h.store, snap, cs[1..], ports);
        Outcome(rest.store, h.log + rest.log, rest.error)
  }

  /** `self._properties[type_]` of a type the store has. */
  function TypeDictOf(s: Store, kind: string): TypeDict {
    Get(s, kind).GetOr(Empty())
  }

  /**
   * The types `kinds[i..]` of the outer loop. A type the snapshot lacks is passed over; otherwise
   * its changes are appended to `pending`, the list created once before the loop, and the whole
   * list is dispatched, so the changes of earlier types are dispatched again.
   */
  function UpdateTypes(s: Store, snap: Snapshot, kinds: seq<string>, i: nat, pending: seq<Change>, ports: seq<Observer>): Outcome
    requires i <= |kinds|
    decreases |kinds| - i
  {
    if i == |kinds| then Outcome(s, [], None)
    else
      var kind := kinds[i];
      if kind !in snap.vals then UpdateTypes(s, snap, kinds, i + 1, pending, ports)
      else
        match TypeChanges(kind, TypeDictOf(s, kind), snap.vals[kind])
        case Err(e) => Outcome(s, [], Some(e))
        case Ok(cs) =>
          var d := Dispatch(s, snap, pending + cs, ports);
          if d.error.Some? then d
          else
            var rest := UpdateTypes(d.store, snap, kinds, i + 1, pending + cs, ports);
            Outcome(rest.store, d.log + rest.log, rest.error)
  }

  /** `_update_properties`: the outer loop over the store's types, in the store's order. */
  function UpdateProperties(s: Store, snap: Snapshot, ports: seq<Observer>): Outcome {
    UpdateTypes(s, snap, s.keys, 0, [], ports)
  }

  /** Every change a type's comparison reports belongs to that type. */
  lemma TypeChangesKind(kind: string, td: TypeDict, records: Records)
    ensures TypeChanges(kind, td, records).Ok? ==> forall c :: c in TypeChanges(kind, td, records).value ==> c.kind == kind
  {
    TypeChangesExact(kind, td, records);
  }

  /** Dispatching changes of stored types never deletes a slot and never adds or reorders a type. */
  lemma {:induction false} DispatchKeepsTypes(s: Store, snap: Snapshot, cs: seq<Change>, ports: seq<Observer>)
    requires forall c :: c in cs ==> c.kind in s.vals
    ensures Grows(s, Dispatch(s, snap, cs, ports).store)
    ensures Dispatch(s, snap, cs, ports).store.keys == s.keys
    decreases |cs|
  {
    if |cs| > 0 {
      var h := HandleChange(s, snap, cs[0], ports);
      ApplyChangeGrows(s, snap, cs[0]);
      if h.error.None? {
        forall t | t in h.store.vals
          ensures t in s.vals
        {
          InKeys(h.store, t);
          InKeys(s, t);
        }
        forall c | c in cs[1..]
          ensures c.kind in h.store.vals
        {
          InKeys(h.store, c.kind);
          InKeys(s, c.kind);
        }
        DispatchKeepsTypes(h.store, snap, cs[1..], ports);
        GrowsTrans(s, h.store, Dispatch(h.store, snap, cs[1..], ports).store);
      }
    }
  }

  /**
   * The diff pass never deletes: every slot the store held before is still there after, types and
   * ids the snapshot lacks included. It never adds or reorders a type either, so the outer loop
   * over the live store sees exactly the types it started with.
   */
  lemma {:induction false} UpdateTypesKeepsTypes(s: Store, snap: Snapshot, kinds: seq<string>, i: nat, pending: seq<Change>, ports: seq<Observer>)
    requires i <= |kinds|
    requires forall t :: t in kinds ==> t in s.vals
    requires forall c :: c in pending ==> c.kind in s.vals
    ensures Grows(s, UpdateTypes(s, snap, kinds, i, pending, ports).store)
    ensures UpdateTypes(s, snap, kinds, i, pending, ports).store.keys == s.keys
    decreases |kinds| - i
  {
    if i < |kinds| {
      var kind := kinds[i];
      if kind !in snap.vals {
        UpdateTypesKeepsTypes(s, snap, kinds, i + 1, pending, ports);
      } else {
        var r := TypeChanges(kind, TypeDictOf(s, kind), snap.vals[kind]);
        if r.Ok? {
          TypeChangesKind(kind, TypeDictOf(s, kind), snap.vals[kind]);
          var all := pending + r.value;
          assert forall c :: c in all ==> c.kind in s.vals;
          DispatchKeepsTypes(s, snap, all, ports);
          var d := Dispatch(s, snap, all, ports);
          if d.error.None? {
            forall t | t in d.store.vals
              ensures t in s.vals
            {
              InKeys(d.store, t);
              InKeys(s, t);
            }
            forall t | t in s.vals
              ensures t in d.store.vals
            {
              InKeys(d.store, t);
              InKeys(s, t);
            }
            UpdateTypesKeepsTypes(d.store, snap, kinds, i + 1, all, ports);
            GrowsTrans(s, d.store, UpdateTypes(d.store, snap, kinds, i + 1, all, ports).store);
          }
        } else {
          assert Grows(s, s);
        }
      }
    } else {
      assert Grows(s, s);
    }
  }

  lemma UpdatePropertiesKeepsTypes(s: Store, snap: Snapshot, ports: seq<Observer>)
    ensures Grows(s, UpdateProperties(s, snap, ports).store)
    ensures UpdateProperties(s, snap, ports).store.keys == s.keys
  {
    forall t | t in s.keys
      ensures t in s.vals
    {
      InKeys(s, t);
    }
    UpdateTypesKeepsTypes(s, snap, s.keys, 0, [], ports);
  }

  /** A dispatched list touches only slots of types the snapshot has. */
  lemma {:induction false} DispatchTouches(s: Store, snap: Snapshot, cs: seq<Change>, ports: seq<Observer>, t: string, k: Value)
    requires TypeSlot(Dispatch(s, snap, cs, ports).store, t, k) != TypeSlot(s, t, k)
    ensures t in snap.vals
    decreases |cs|
  {
    var h := HandleChange(s, snap, cs[0], ports);
    ApplyChangeTouches(s, snap, cs[0]);
    if h.error.None? && TypeSlot(h.store, t, k) == TypeSlot(s, t, k) {
      DispatchTouches(h.store, snap, cs[1..], ports, t, k);
    }
  }

  /** The outer loop from type i on touches only slots of types the snapshot has. */
  lemma {:induction false} UpdateTypesTouches(s: Store, snap: Snapshot, kinds: seq<string>, i: nat, pending: seq<Change>, ports: seq<Observer>, t: string, k: Value)
    requires i <= |kinds|
    requires TypeSlot(UpdateTypes(s, snap, kinds, i, pending, ports).store, t, k) != TypeSlot(s, t, k)
    ensures t in snap.vals
    decreases |kinds| - i
  {
    var kind := kinds[i];
    if kind !in snap.vals {
      UpdateTypesTouches(s, snap, kinds, i + 1, pending, ports, t, k);
    } else {
      var r := TypeChanges(kind, TypeDictOf(s, kind), snap.vals[kind]);
      var all := pending + r.value;
      var d := Dispatch(s, snap, all, ports);
      if TypeSlot(d.store, t, k) != TypeSlot(s, t, k) {
        DispatchTouches(s, snap, all, ports, t, k);
      } else {
        UpdateTypesTouches(d.store, snap, kinds, i + 1, all, ports, t, k);
      }
    }
  }

  /** A diff pass leaves every slot of a type the snapshot lacks exactly as it was. */
  lemma UpdatePropertiesSkipsAbsent(s: Store, snap: Snapshot, ports: seq<Observer>)
    ensures forall t, k :: t !in snap.vals ==> TypeSlot(UpdateProperties(s, snap, ports).store, t, k) == TypeSlot(s, t, k)
  {
    forall t, k | TypeSlot(UpdateProperties(s, snap, ports).store, t, k) != TypeSlot(s, t, k)
      ensures t in snap.vals
    {
      UpdateTypesTouches(s, snap, s.keys, 0, [], ports, t, k);
    }
  }
}
