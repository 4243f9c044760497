/**
 * The property store every revision of the integration keeps: a nested dict
 * `type -> id -> name -> value`, where the singleton type "system" is read flat as
 * `type -> name -> value`. One Python dict per type may hold both shapes at once: an entity
 * record under its id and, after a change whose record has no id, a single value under the
 * property name. `Slot` is what one key of a type dict holds.
 *
 * This module gives the store's values, the read operations (`get_property`,
 * `get_properties`) and the push-apply step (the store half of
 * `handle_paradox_property_change`), with the properties the rest of the model relies on.
 */
module PropertyStore {
  import opened Wrappers
  import opened PyValues
  import opened OrderedDicts

  datatype Slot = Props(props: ODict<Value, Value>) | Scalar(value: Value)

  type TypeDict = ODict<Value, Slot>
  type Store = ODict<string, TypeDict>

  /** One record of the panel client's snapshot (`storage.data[type][key]`). */
  type Record = map<Value, Value>
  type Records = ODict<Value, Record>
  type Snapshot = ODict<string, Records>

  const SYSTEM: string := "system"
  const ID_FIELD: Value := VStr("id")
  const LABEL_FIELD: Value := VStr("label")

  /** A change event: the panel client's key of the entity, the property, old and new value. */
  datatype Change = Change(kind: string, key: Value, property: Value, oldValue: Slot, newValue: Value)

  /** The result of a store step: the new store and, when it raised, the exception. */
  datatype Applied = Applied(store: Store, resolved: Result<Value, PyError>)

  /** `get_properties`: a whole flat type dict for "system", one entity slot otherwise. */
  datatype Properties = TypeLevel(entries: TypeDict) | EntityLevel(slot: Slot)

  /** What the store holds under `store[kind][key]`, if anything. */
  function TypeSlot(s: Store, kind: string, key: Value): Option<Slot> {
    if kind in s.vals && key in s.vals[kind].vals then Some(s.vals[kind].vals[key]) else None
  }

  /** What the store holds under `store[kind][id][name]`, if `store[kind][id]` is a record. */
  function EntityProp(s: Store, kind: string, id: Value, name: Value): Option<Value> {
    match TypeSlot(s, kind, id)
    case Some(Props(p)) => Get(p, name)
    case _ => None
  }

  /**
   * `get_property(type, id, name)`. For "system" the id plays no part and the flat entry
   * `store[type][name]` is returned; otherwise `store[type][id][name]`. A missing level reads
   * as None; an id that holds a single value instead of a record has no `.get` and raises.
   */
  function GetProperty(s: Store, kind: string, id: Value, name: Value): (r: Result<Slot, PyError>)
    ensures kind == SYSTEM ==> r == Ok(TypeSlot(s, kind, name).GetOr(Scalar(VNone)))
    ensures kind != SYSTEM ==>
      (r.Err? <==> TypeSlot(s, kind, id).Some? && TypeSlot(s, kind, id).value.Scalar?)
    ensures kind != SYSTEM && r.Ok? ==> r == Ok(Scalar(EntityProp(s, kind, id, name).GetOr(VNone)))
  {
    var td: TypeDict := Get(s, kind).GetOr(Empty());
    if kind == SYSTEM then
      Ok(Get(td, name).GetOr(Scalar(VNone)))
    else
      var slot: Option<Slot> := Get(td, id);
      match slot
      case None => Ok(Scalar(VNone))
      case Some(Props(p)) => Ok(Scalar(Get(p, name).GetOr(VNone)))
      case Some(Scalar(_)) => Err(AttributeError)
  }

  /** `get_properties(type, id)`: the flat dict for "system", the entity record otherwise, `{}` when missing. */
  function GetProperties(s: Store, kind: string, id: Value): (r: Properties)
    ensures kind == SYSTEM ==> r.TypeLevel? && (kind !in s.vals ==> r.entries.keys == [])
    ensures kind == SYSTEM && kind in s.vals ==> r.entries == s.vals[kind]
    ensures kind != SYSTEM ==> r.EntityLevel?
    ensures kind != SYSTEM ==> r.slot == TypeSlot(s, kind, id).GetOr(Props(Empty()))
  {
    var td: TypeDict := Get(s, kind).GetOr(Empty());
    if kind == SYSTEM then TypeLevel(td) else EntityLevel(Get(td, id).GetOr(Props(Empty())))
  }

  /** The id under which a change is stored: the `id` field of its snapshot record, when there is one. */
  function ResolveId(snap: Snapshot, c: Change): Option<Value> {
    match Get(snap, c.kind)
    case None => None
    case Some(records) =>
      match Get(records, c.key)
      case Some(info) => if ID_FIELD in info then Some(info[ID_FIELD]) else None
      case None => None
  }

  /** `store[kind][key] = slot`, creating `store[kind]` when it is missing (`setdefault`). */
  function PutSlot(s: Store, kind: string, key: Value, slot: Slot): (r: Store)
    ensures TypeSlot(r, kind, key) == Some(slot)
  {
    Put(s, kind, Put(Get(s, kind).GetOr(Empty()), key, slot))
  }

  /** `store[kind][key] = slot` leaves every other slot of the store as it was. */
  lemma PutSlotFrame(s: Store, kind: string, key: Value, slot: Slot)
    ensures forall t, k :: (t, k) != (kind, key) ==> TypeSlot(PutSlot(s, kind, key, slot), t, k) == TypeSlot(s, t, k)
  {
  }

  /**
   * The store half of `handle_paradox_property_change`. The change's type must be in the
   * snapshot (else KeyError). When its record exists and has an `id`, the property and then
   * the record's `label` are written under that id (the property is already written when a
   * missing `label` raises; an id holding a single value cannot take item assignment).
   * Otherwise the property is written flat under the type and the resolved id is None.
   */
  function ApplyChange(s: Store, snap: Snapshot, c: Change): (a: Applied)
    ensures Get(snap, c.kind).None? ==> a == Applied(s, Err(KeyError))
  {
    match Get(snap, c.kind)
    case None => Applied(s, Err(KeyError))
    case Some(records) =>
      var info := Get(records, c.key);
      if info.Some? && ID_FIELD in info.value then
        var id := info.value[ID_FIELD];
        if HoldsScalar(s, c.kind, id) then Applied(s, Err(TypeError))
        else
          var written := Put(RecordAt(s, c.kind, id), c.property, c.newValue);
          if LABEL_FIELD in info.value then
            Applied(PutSlot(s, c.kind, id, Props(Put(written, LABEL_FIELD, info.value[LABEL_FIELD]))), Ok(id))
          else
            Applied(PutSlot(s, c.kind, id, Props(written)), Err(KeyError))
      else
        Applied(PutSlot(s, c.kind, c.property, Scalar(c.newValue)), Ok(VNone))
  }

  /** `store[kind][key]` holds a single value rather than a record. */
  predicate HoldsScalar(s: Store, kind: string, key: Value) {
    TypeSlot(s, kind, key).Some? && TypeSlot(s, kind, key).value.Scalar?
  }

  /** The record under `store[kind][id]`, `{}` when there is none (what `setdefault(id, {})` yields). */
  function RecordAt(s: Store, kind: string, id: Value): (p: ODict<Value, Value>)
    ensures TypeSlot(s, kind, id).Some? && TypeSlot(s, kind, id).value.Props? ==> p == TypeSlot(s, kind, id).value.props
    ensures TypeSlot(s, kind, id).None? ==> p.keys == []
  {
    match TypeSlot(s, kind, id)
    case Some(Props(p)) => p
    case _ => Empty()
  }

  /** Store steps only ever add or overwrite: a key present before is present after. */
  ghost predicate Grows(s: Store, s': Store) {
    forall t, k :: TypeSlot(s, t, k).Some? ==> TypeSlot(s', t, k).Some?
  }

  lemma GrowsTrans(s: Store, s1: Store, s2: Store)
    requires Grows(s, s1) && Grows(s1, s2)
    ensures Grows(s, s2)
  {
  }

  /** Applying a change never deletes an entity or a flat property. */
  lemma ApplyChangeGrows(s: Store, snap: Snapshot, c: Change)
    ensures Grows(s, ApplyChange(s, snap, c).store)
    ensures c.kind in s.vals ==> ApplyChange(s, snap, c).store.keys == s.keys
  {
    match Get(snap, c.kind)
    case None =>
    case Some(records) =>
      var info := Get(records, c.key);
      if info.Some? && ID_FIELD in info.value {
        var id := info.value[ID_FIELD];
        if !HoldsScalar(s, c.kind, id) {
          var written := Put(RecordAt(s, c.kind, id), c.property, c.newValue);
          if LABEL_FIELD in info.value {
            PutSlotGrows(s, c.kind, id, Props(Put(written, LABEL_FIELD, info.value[LABEL_FIELD])));
          } else {
            PutSlotGrows(s, c.kind, id, Props(written));
          }
        }
      } else {
        PutSlotGrows(s, c.kind, c.property, Scalar(c.newValue));
      }
  }

  /** A change touches slots of its own type only, and none at all when the snapshot lacks the type. */
  lemma ApplyChangeTouches(s: Store, snap: Snapshot, c: Change)
    ensures forall t, k :: TypeSlot(ApplyChange(s, snap, c).store, t, k) != TypeSlot(s, t, k) ==>
      t == c.kind && t in snap.vals
  {
    match Get(snap, c.kind)
    case None =>
    case Some(records) =>
      var info := Get(records, c.key);
      if info.Some? && ID_FIELD in info.value {
        var id := info.value[ID_FIELD];
        if !HoldsScalar(s, c.kind, id) {
          var written := Put(RecordAt(s, c.kind, id), c.property, c.newValue);
          if LABEL_FIELD in info.value {
            PutSlotFrame(s, c.kind, id, Props(Put(written, LABEL_FIELD, info.value[LABEL_FIELD])));
          } else {
            PutSlotFrame(s, c.kind, id, Props(written));
          }
        }
      } else {
        PutSlotFrame(s, c.kind, c.property, Scalar(c.newValue));
      }
  }

  /** Writing one slot removes nothing, and keeps the type order when the type was there. */
  lemma PutSlotGrows(s: Store, kind: string, key: Value, slot: Slot)
    ensures Grows(s, PutSlot(s, kind, key, slot))
    ensures kind in s.vals ==> PutSlot(s, kind, key, slot).keys == s.keys
  {
    PutSlotFrame(s, kind, key, slot);
  }

  /**
   * A change whose record has an id and a label: the property reads back as the new value
   * (the label when the property is `label` itself), the label is the record's, and every
   * other slot of the store, including the entity's other properties, is unchanged.
   */
  lemma ApplyChangeToRecord(s: Store, snap: Snapshot, c: Change, id: Value)
    requires ResolveId(snap, c) == Some(id)
    requires LABEL_FIELD in Get(snap, c.kind).value.vals[c.key]
    requires !(TypeSlot(s, c.kind, id).Some? && TypeSlot(s, c.kind, id).value.Scalar?)
    ensures var a := ApplyChange(s, snap, c);
      var labelValue := Get(snap, c.kind).value.vals[c.key][LABEL_FIELD];
      && a.resolved == Ok(id)
      && EntityProp(a.store, c.kind, id, LABEL_FIELD) == Some(labelValue)
      && EntityProp(a.store, c.kind, id, c.property) == Some(if c.property == LABEL_FIELD then labelValue else c.newValue)
      && (forall n :: n != c.property && n != LABEL_FIELD ==>
            EntityProp(a.store, c.kind, id, n) == EntityProp(s, c.kind, id, n))
      && (forall t, k :: (t, k) != (c.kind, id) ==> TypeSlot(a.store, t, k) == TypeSlot(s, t, k))
  {
    var labelValue := Get(snap, c.kind).value.vals[c.key][LABEL_FIELD];
    var final := Put(Put(RecordAt(s, c.kind, id), c.property, c.newValue), LABEL_FIELD, labelValue);
    assert ApplyChange(s, snap, c) == Applied(PutSlot(s, c.kind, id, Props(final)), Ok(id));
    WriteRecordEffect(s, c.kind, id, c.property, c.newValue, labelValue);
  }

  /**
   * A change whose record has an id that holds a single value: item assignment on it raises
   * TypeError before anything is written, so the store is unchanged.
   */
  lemma ApplyChangeScalarId(s: Store, snap: Snapshot, c: Change, id: Value)
    requires ResolveId(snap, c) == Some(id)
    requires HoldsScalar(s, c.kind, id)
    ensures ApplyChange(s, snap, c) == Applied(s, Err(TypeError))
  {
  }

  /**
   * A change whose record has an id but no label: the property is already written under the
   * id when reading the missing label raises KeyError; the entity's other properties and every
   * other slot of the store are unchanged.
   */
  lemma ApplyChangeWithoutLabel(s: Store, snap: Snapshot, c: Change, id: Value)
    requires ResolveId(snap, c) == Some(id)
    requires LABEL_FIELD !in Get(snap, c.kind).value.vals[c.key]
    requires !HoldsScalar(s, c.kind, id)
    ensures var a := ApplyChange(s, snap, c);
      && a.resolved == Err(KeyError)
      && EntityProp(a.store, c.kind, id, c.property) == Some(c.newValue)
      && (forall n :: n != c.property ==> EntityProp(a.store, c.kind, id, n) == EntityProp(s, c.kind, id, n))
      && (forall t, k :: (t, k) != (c.kind, id) ==> TypeSlot(a.store, t, k) == TypeSlot(s, t, k))
  {
    var written := Put(RecordAt(s, c.kind, id), c.property, c.newValue);
    assert ApplyChange(s, snap, c) == Applied(PutSlot(s, c.kind, id, Props(written)), Err(KeyError));
    WritePropEffect(s, c.kind, id, c.property, c.newValue);
  }

  /** `record[property] = value` alone on the record under `store[kind][id]`. */
  lemma WritePropEffect(s: Store, kind: string, id: Value, property: Value, value: Value)
    requires !HoldsScalar(s, kind, id)
    ensures var s' := PutSlot(s, kind, id, Props(Put(RecordAt(s, kind, id), property, value)));
      && EntityProp(s', kind, id, property) == Some(value)
      && (forall n :: n != property ==> EntityProp(s', kind, id, n) == EntityProp(s, kind, id, n))
      && (forall t, k :: (t, k) != (kind, id) ==> TypeSlot(s', t, k) == TypeSlot(s, t, k))
  {
    var written := Put(RecordAt(s, kind, id), property, value);
    assert TypeSlot(PutSlot(s, kind, id, Props(written)), kind, id) == Some(Props(written));
    PutSlotFrame(s, kind, id, Props(written));
  }

  /** `record[property] = value` then `record['label'] = label` on the record under `store[kind][id]`. */
  lemma WriteRecordEffect(s: Store, kind: string, id: Value, property: Value, value: Value, labelValue: Value)
    requires !HoldsScalar(s, kind, id)
    ensures var s' := PutSlot(s, kind, id, Props(Put(Put(RecordAt(s, kind, id), property, value), LABEL_FIELD, labelValue)));
      && EntityProp(s', kind, id, LABEL_FIELD) == Some(labelValue)
      && EntityProp(s', kind, id, property) == Some(if property == LABEL_FIELD then labelValue else value)
      && (forall n :: n != property && n != LABEL_FIELD ==> EntityProp(s', kind, id, n) == EntityProp(s, kind, id, n))
      && (forall t, k :: (t, k) != (kind, id) ==> TypeSlot(s', t, k) == TypeSlot(s, t, k))
  {
    var p := RecordAt(s, kind, id);
    var final := Put(Put(p, property, value), LABEL_FIELD, labelValue);
    assert TypeSlot(PutSlot(s, kind, id, Props(final)), kind, id) == Some(Props(final));
    PutPutReads(p, property, value, labelValue);
    PutSlotFrame(s, kind, id, Props(final));
  }

  /** The record after `record[property] = value; record['label'] = label`, key by key. */
  lemma PutPutReads(p: ODict<Value, Value>, property: Value, value: Value, labelValue: Value)
    ensures var final := Put(Put(p, property, value), LABEL_FIELD, labelValue);
      && Get(final, LABEL_FIELD) == Some(labelValue)
      && Get(final, property) == Some(if property == LABEL_FIELD then labelValue else value)
      && forall n :: n != property && n != LABEL_FIELD ==> Get(final, n) == Get(p, n)
  {
  }

  /**
   * A change without an id record is stored flat: `store[type][property]` holds the new value,
   * the resolved id is None, and every other slot is unchanged. So for "system" the value
   * reads back through `get_property` whatever id the reader passes.
   */
  lemma ApplyChangeFlat(s: Store, snap: Snapshot, c: Change, anyId: Value)
    requires Get(snap, c.kind).Some? && ResolveId(snap, c).None?
    ensures var a := ApplyChange(s, snap, c);
      && a.resolved == Ok(VNone)
      && TypeSlot(a.store, c.kind, c.property) == Some(Scalar(c.newValue))
      && (forall t, k :: (t, k) != (c.kind, c.property) ==> TypeSlot(a.store, t, k) == TypeSlot(s, t, k))
      && (c.kind == SYSTEM ==> GetProperty(a.store, SYSTEM, anyId, c.property) == Ok(Scalar(c.newValue)))
  {
  }

  /**
   * Applying a change is an overwrite, so applying it a second time leaves the store exactly
   * as the first application left it, whatever the first application raised.
   */
  lemma ApplyChangeIdempotent(s: Store, snap: Snapshot, c: Change)
    ensures var s1 := ApplyChange(s, snap, c).store;
      ApplyChange(s1, snap, c).store == s1
  {
    var s1 := ApplyChange(s, snap, c).store;
    match Get(snap, c.kind)
    case None =>
    case Some(records) =>
      var info := Get(records, c.key);
      if info.Some? && ID_FIELD in info.value {
        var id := info.value[ID_FIELD];
        if !HoldsScalar(s, c.kind, id) {
          var written := Put(RecordAt(s, c.kind, id), c.property, c.newValue);
          if LABEL_FIELD in info.value {
            var final := Put(written, LABEL_FIELD, info.value[LABEL_FIELD]);
            assert RecordAt(s1, c.kind, id) == final;
            RewriteRecordStable(RecordAt(s, c.kind, id), c.property, c.newValue, info.value[LABEL_FIELD]);
            PutSlotSame(s1, c.kind, id);
          } else {
            assert RecordAt(s1, c.kind, id) == written;
            PutSame(written, c.property);
            PutSlotSame(s1, c.kind, id);
          }
        }
      } else {
        PutSlotSame(s1, c.kind, c.property);
      }
  }

  /** Writing back what a key already holds leaves the store as it was. */
  lemma PutSlotSame(s: Store, kind: string, key: Value)
    requires TypeSlot(s, kind, key).Some?
    ensures PutSlot(s, kind, key, TypeSlot(s, kind, key).value) == s
  {
    var td := s.vals[kind];
    PutSame(td, key);
    PutSame(s, kind);
  }

  /** Writing the property and then the label into a record that already holds both changes nothing. */
  lemma RewriteRecordStable(p: ODict<Value, Value>, prop: Value, v: Value, l: Value)
    ensures var final := Put(Put(p, prop, v), LABEL_FIELD, l);
      Put(Put(final, prop, v), LABEL_FIELD, l) == final
  {
    var final := Put(Put(p, prop, v), LABEL_FIELD, l);
    assert final.vals[prop := v][LABEL_FIELD := l] == final.vals;
  }
}
