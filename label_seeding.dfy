/**
 * `parse_labels`: after connecting, every revision copies the `label` of each snapshot entry
 * into the store under `(type, entry['id'])`. The two newer revisions skip entries without a
 * `label`; the oldest one subscripts `entry['label']` unconditionally and raises KeyError.
 * Before seeding, all revisions log every area, zone and output, which raises KeyError when
 * one of those three types is missing from the snapshot or one of their entries lacks `id`
 * or `label`.
 */
module LabelSeeding {
  import opened Wrappers
  import opened PyValues
  import opened OrderedDicts
  import opened PropertyStore

  /** The store after a seeding step and the exception that stopped it, if one did. */
  datatype Seeded = Seeded(store: Store, error: Option<PyError>)

  const LOGGED_TYPES: seq<string> := ["partition", "zone", "pgm"]

  /** The debug loop over one logged type completes: the type exists and each entry has `id` and `label`. */
  predicate LoggableType(snap: Snapshot, kind: string) {
    && kind in snap.vals
    && forall k :: k in snap.vals[kind].vals ==> ID_FIELD in snap.vals[kind].vals[k] && LABEL_FIELD in snap.vals[kind].vals[k]
  }

  /** The debug loops over areas, zones and outputs complete without a KeyError. */
  predicate LabelsLoggable(snap: Snapshot) {
    forall t :: t in LOGGED_TYPES ==> LoggableType(snap, t)
  }

  /**
   * One entry: `store.setdefault(type, {}).setdefault(entry['id'], {})['label'] = entry['label']`.
   * Python evaluates `entry['label']` first (KeyError without one), then creates the type dict,
   * then reads `entry['id']` (KeyError without one); an id holding a single value cannot take
   * an item (TypeError).
   */
  function SeedEntry(s: Store, kind: string, entry: Record): (r: Seeded)
    ensures LABEL_FIELD !in entry ==> r == Seeded(s, Some(KeyError))
    ensures LABEL_FIELD in entry ==> (r.error.None? <==> ID_FIELD in entry && !HoldsScalar(s, kind, entry[ID_FIELD]))
    ensures r.error.None? ==>
      LABEL_FIELD in entry && ID_FIELD in entry && EntityProp(r.store, kind, entry[ID_FIELD], LABEL_FIELD) == Some(entry[LABEL_FIELD])
  {
    if LABEL_FIELD !in entry then Seeded(s, Some(KeyError))
    else
      var s1 := WithType(s, kind);
      if ID_FIELD !in entry then Seeded(s1, Some(KeyError))
      else
        var id := entry[ID_FIELD];
        if HoldsScalar(s1, kind, id) then Seeded(s1, Some(TypeError))
        else Seeded(PutLabel(s1, kind, id, entry[LABEL_FIELD]), None)
  }

  /** The `'label' in entry` guard of the newer revisions passes over this entry. */
  predicate Skipped(entry: Record, guarded: bool) {
    guarded && LABEL_FIELD !in entry
  }

  /** `store.setdefault(type, {})`: the store with the type present, an empty dict if it was missing. */
  function WithType(s: Store, kind: string): (r: Store)
    ensures kind in r.vals
  {
    if kind in s.vals then s else Put(s, kind, Empty())
  }

  /** `.setdefault(id, {})['label'] = v` on a store that has the type. */
  function PutLabel(s: Store, kind: string, id: Value, v: Value): Store {
    PutSlot(s, kind, id, Props(Put(RecordAt(s, kind, id), LABEL_FIELD, v)))
  }

  /** The entries `records.keys[j..]` of one type, in order, stopping at the first exception. */
  function SeedEntries(s: Store, kind: string, records: Records, j: nat, guarded: bool): Seeded
    requires j <= |records.keys|
    decreases |records.keys| - j
  {
    if j == |records.keys| then Seeded(s, None)
    else if Skipped(ValueAt(records, j), guarded) then SeedEntries(s, kind, records, j + 1, guarded)
    else
      var r := SeedEntry(s, kind, ValueAt(records, j));
      if r.error.Some? then r else SeedEntries(r.store, kind, records, j + 1, guarded)
  }

  /** The types `snap.keys[i..]`, in order, stopping at the first exception. */
  function SeedTypes(s: Store, snap: Snapshot, i: nat, guarded: bool): Seeded
    requires i <= |snap.keys|
    decreases |snap.keys| - i
  {
    if i == |snap.keys| then Seeded(s, None)
    else
      var kind := snap.keys[i];
      var r := SeedEntries(s, kind, ValueAt(snap, i), 0, guarded);
      if r.error.Some? then r else SeedTypes(r.store, snap, i + 1, guarded)
  }

  /** `parse_labels` as a whole: the logging pass, then the seeding pass. */
  function ParseLabels(s: Store, snap: Snapshot, guarded: bool): Seeded {
    if !LabelsLoggable(snap) then Seeded(s, Some(KeyError)) else SeedTypes(s, snap, 0, guarded)
  }

  /** `storage.data[type]`, empty when the snapshot has no such type. */
  function TypeRecords(snap: Snapshot, kind: string): Records {
    Get(snap, kind).GetOr(Empty())
  }

  /** The label the last entry of `records.keys[j..]` with this id carries, if any entry does. */
  function LastLabel(records: Records, id: Value, j: nat): Option<Value>
    requires j <= |records.keys|
    decreases |records.keys| - j
  {
    if j == |records.keys| then None
    else
      var later := LastLabel(records, id, j + 1);
      var entry := ValueAt(records, j);
      if later.Some? then later
      else if LABEL_FIELD in entry && ID_FIELD in entry && entry[ID_FIELD] == id then Some(entry[LABEL_FIELD])
      else None
  }

  /**
   * Seeding changes labels and nothing else: no slot disappears, no property other than
   * `label` changes, and a slot that changes was absent or a record and is a record after.
   */
  ghost predicate LabelsOnly(s: Store, s': Store) {
    && Grows(s, s')
    && (forall t, k, n {:trigger EntityProp(s', t, k, n)} :: n != LABEL_FIELD ==> EntityProp(s', t, k, n) == EntityProp(s, t, k, n))
    && (forall t, k {:trigger TypeSlot(s', t, k)} :: TypeSlot(s', t, k) != TypeSlot(s, t, k) ==>
          !HoldsScalar(s, t, k) && TypeSlot(s', t, k).Some? && TypeSlot(s', t, k).value.Props?)
  }

  /** The expected labels after seeding one type: the last entry's label where there is one. */
  ghost predicate LabelsSeeded(s: Store, s': Store, kind: string, records: Records, j: nat)
    requires j <= |records.keys|
  {
    forall t, k :: EntityProp(s', t, k, LABEL_FIELD) ==
      if t == kind && LastLabel(records, k, j).Some? then LastLabel(records, k, j) else EntityProp(s, t, k, LABEL_FIELD)
  }

  /** `setdefault(type, {})` adds at most an empty type dict, which holds no slot. */
  lemma SetDefaultTypeSlots(s: Store, kind: string)
    ensures forall t, k :: TypeSlot(WithType(s, kind), t, k) == TypeSlot(s, t, k)
  {
  }

  /** Stores that hold the same slots satisfy `LabelsOnly` towards the same successors. */
  lemma SameSlotsLabelsOnly(s: Store, s1: Store, s2: Store)
    requires forall t, k :: TypeSlot(s1, t, k) == TypeSlot(s, t, k)
    requires LabelsOnly(s1, s2)
    ensures LabelsOnly(s, s2)
  {
    assert forall t, k, n :: EntityProp(s1, t, k, n) == EntityProp(s, t, k, n);
    assert forall t, k :: HoldsScalar(s1, t, k) == HoldsScalar(s, t, k);
  }

  /** Writing a label into a record (or a fresh one) leaves every other property of every entity alone. */
  lemma PutLabelKeepsOther(s: Store, kind: string, id: Value, v: Value, t: string, k: Value, n: Value)
    requires !HoldsScalar(s, kind, id) && n != LABEL_FIELD
    ensures EntityProp(PutLabel(s, kind, id, v), t, k, n) == EntityProp(s, t, k, n)
  {
    var p := RecordAt(s, kind, id);
    var p' := Put(p, LABEL_FIELD, v);
    if t == kind && k == id {
      assert TypeSlot(PutLabel(s, kind, id, v), kind, id) == Some(Props(p'));
      assert Get(p', n) == Get(p, n);
      assert EntityProp(s, kind, id, n) == Get(p, n);
    } else {
      PutSlotFrame(s, kind, id, Props(p'));
      assert TypeSlot(PutLabel(s, kind, id, v), t, k) == TypeSlot(s, t, k);
    }
  }

  /** Writing a label into a record (or a fresh one) changes that label and nothing else. */
  lemma PutLabelEffect(s: Store, kind: string, id: Value, v: Value)
    requires !HoldsScalar(s, kind, id)
    ensures LabelsOnly(s, PutLabel(s, kind, id, v))
    ensures forall t, k ::
      EntityProp(PutLabel(s, kind, id, v), t, k, LABEL_FIELD) == (if t == kind && k == id then Some(v) else EntityProp(s, t, k, LABEL_FIELD))
  {
    PutSlotFrame(s, kind, id, Props(Put(RecordAt(s, kind, id), LABEL_FIELD, v)));
    forall t, k, n | n != LABEL_FIELD
      ensures EntityProp(PutLabel(s, kind, id, v), t, k, n) == EntityProp(s, t, k, n)
    {
      PutLabelKeepsOther(s, kind, id, v, t, k, n);
    }
  }

  /** One entry: labels only, and the entry's own label when it completes. */
  lemma SeedEntryEffect(s: Store, kind: string, entry: Record)
    ensures var r := SeedEntry(s, kind, entry);
      && LabelsOnly(s, r.store)
      && (r.error.None? ==>
            forall t, k :: EntityProp(r.store, t, k, LABEL_FIELD) ==
              (if t == kind && entry[ID_FIELD] == k then Some(entry[LABEL_FIELD]) else EntityProp(s, t, k, LABEL_FIELD)))
  {
    if LABEL_FIELD in entry {
      var s1 := WithType(s, kind);
      SetDefaultTypeSlots(s, kind);
      if ID_FIELD in entry && !HoldsScalar(s1, kind, entry[ID_FIELD]) {
        PutLabelEffect(s1, kind, entry[ID_FIELD], entry[LABEL_FIELD]);
        SameSlotsLabelsOnly(s, s1, PutLabel(s1, kind, entry[ID_FIELD], entry[LABEL_FIELD]));
        assert forall t, k :: EntityProp(s1, t, k, LABEL_FIELD) == EntityProp(s, t, k, LABEL_FIELD);
      } else {
        assert LabelsOnly(s1, s1);
        SameSlotsLabelsOnly(s, s1, s1);
      }
    } else {
      assert LabelsOnly(s, s);
    }
  }

  /** Seeding a range of entries of one type changes labels only. */
  lemma {:induction false} SeedEntriesLabelsOnly(s: Store, kind: string, records: Records, j: nat, guarded: bool)
    requires j <= |records.keys|
    ensures LabelsOnly(s, SeedEntries(s, kind, records, j, guarded).store)
    decreases |records.keys| - j
  {
    if j == |records.keys| {
      assert LabelsOnly(s, s);
    } else if Skipped(ValueAt(records, j), guarded) {
      SeedEntriesLabelsOnly(s, kind, records, j + 1, guarded);
    } else {
      var r1 := SeedEntry(s, kind, ValueAt(records, j));
      SeedEntryEffect(s, kind, ValueAt(records, j));
      if r1.error.None? {
        SeedEntriesLabelsOnly(r1.store, kind, records, j + 1, guarded);
        LabelsOnlyTrans(s, r1.store, SeedEntries(r1.store, kind, records, j + 1, guarded).store);
      }
    }
  }

  /** Seeding a range of entries of one type that completes leaves exactly the last labels of that range. */
  lemma {:induction false} SeedEntriesLabels(s: Store, kind: string, records: Records, j: nat, guarded: bool)
    requires j <= |records.keys|
    ensures var r := SeedEntries(s, kind, records, j, guarded);
      r.error.None? ==> LabelsSeeded(s, r.store, kind, records, j)
    decreases |records.keys| - j
  {
    if j == |records.keys| {
    } else if Skipped(ValueAt(records, j), guarded) {
      SeedEntriesLabels(s, kind, records, j + 1, guarded);
      var r := SeedEntries(s, kind, records, j + 1, guarded);
      if r.error.None? {
        LabelsSeededStep(s, s, r.store, kind, records, j);
      }
    } else {
      var r1 := SeedEntry(s, kind, ValueAt(records, j));
      SeedEntryEffect(s, kind, ValueAt(records, j));
      if r1.error.None? {
        var r2 := SeedEntries(r1.store, kind, records, j + 1, guarded);
        SeedEntriesLabels(r1.store, kind, records, j + 1, guarded);
        if r2.error.None? {
          LabelsSeededStep(s, r1.store, r2.store, kind, records, j);
        }
      }
    }
  }

  /**
   * One entry, then the rest: the entry's write (or none, when it has no label) followed by
   * the last labels of the later entries gives the last labels from this entry on.
   */
  lemma LabelsSeededStep(s: Store, s1: Store, s2: Store, kind: string, records: Records, j: nat)
    requires j < |records.keys|
    requires forall t, k ::
      EntityProp(s1, t, k, LABEL_FIELD) ==
        if t == kind && LABEL_FIELD in ValueAt(records, j) && ID_FIELD in ValueAt(records, j) && ValueAt(records, j)[ID_FIELD] == k
        then Some(ValueAt(records, j)[LABEL_FIELD]) else EntityProp(s, t, k, LABEL_FIELD)
    requires LabelsSeeded(s1, s2, kind, records, j + 1)
    ensures LabelsSeeded(s, s2, kind, records, j)
  {
  }

  /** Changing labels only, twice over, changes labels only. */
  lemma LabelsOnlyTrans(s: Store, s1: Store, s2: Store)
    requires LabelsOnly(s, s1) && LabelsOnly(s1, s2)
    ensures LabelsOnly(s, s2)
  {
    forall t, k | TypeSlot(s2, t, k) != TypeSlot(s, t, k)
      ensures !HoldsScalar(s, t, k) && TypeSlot(s2, t, k).Some? && TypeSlot(s2, t, k).value.Props?
    {
      if TypeSlot(s1, t, k) != TypeSlot(s, t, k) {
        assert TypeSlot(s1, t, k).value.Props?;
      }
    }
  }

  /** The type at a position of the snapshot's order appears at no later position. */
  lemma TypeNotLater(snap: Snapshot, i: nat)
    requires i < |snap.keys|
    ensures snap.keys[i] !in snap.keys[i + 1..]
    ensures forall t :: t in snap.keys[i..] <==> t == snap.keys[i] || t in snap.keys[i + 1..]
  {
    forall m | i < m < |snap.keys|
      ensures snap.keys[m] != snap.keys[i]
    {
      KeysDistinct(snap, i, m);
    }
    assert snap.keys[i..] == [snap.keys[i]] + snap.keys[i + 1..];
  }

  /** Seeding the types from position i on: labels only, and the last labels of exactly those types. */
  lemma {:induction false} SeedTypesEffect(s: Store, snap: Snapshot, i: nat, guarded: bool)
    requires i <= |snap.keys|
    ensures var r := SeedTypes(s, snap, i, guarded);
      && LabelsOnly(s, r.store)
      && (r.error.None? ==>
            forall t, k :: EntityProp(r.store, t, k, LABEL_FIELD) ==
              (if t in snap.keys[i..] && LastLabel(TypeRecords(snap, t), k, 0).Some? then LastLabel(TypeRecords(snap, t), k, 0)
               else EntityProp(s, t, k, LABEL_FIELD)))
    decreases |snap.keys| - i
  {
    if i < |snap.keys| {
      var kind := snap.keys[i];
      var records := ValueAt(snap, i);
      assert records == TypeRecords(snap, kind);
      var r1 := SeedEntries(s, kind, records, 0, guarded);
      SeedEntriesLabelsOnly(s, kind, records, 0, guarded);
      SeedEntriesLabels(s, kind, records, 0, guarded);
      if r1.error.None? {
        var r2 := SeedTypes(r1.store, snap, i + 1, guarded);
        SeedTypesEffect(r1.store, snap, i + 1, guarded);
        LabelsOnlyTrans(s, r1.store, r2.store);
        TypeNotLater(snap, i);
      }
    } else {
      assert LabelsOnly(s, s);
    }
  }

  /**
   * One entry touches at most one slot, `(kind, entry['id'])`, and only when the entry has
   * both a label and an id; the `setdefault(type, {})` before an exception adds no slot.
   */
  lemma SeedEntrySlots(s: Store, kind: string, entry: Record)
    ensures var r := SeedEntry(s, kind, entry);
      forall t, k :: TypeSlot(r.store, t, k) != TypeSlot(s, t, k) ==>
        t == kind && LABEL_FIELD in entry && ID_FIELD in entry && k == entry[ID_FIELD]
  {
    if LABEL_FIELD in entry {
      var s1 := WithType(s, kind);
      SetDefaultTypeSlots(s, kind);
      if ID_FIELD in entry && !HoldsScalar(s1, kind, entry[ID_FIELD]) {
        PutSlotFrame(s1, kind, entry[ID_FIELD], Props(Put(RecordAt(s1, kind, entry[ID_FIELD]), LABEL_FIELD, entry[LABEL_FIELD])));
      }
    }
  }

  /**
   * Seeding a range of entries of one type, whether it completes or stops at an exception,
   * touches only slots of that type whose id some labelled entry of the range carries.
   */
  lemma SeedEntriesSlots(s: Store, kind: string, records: Records, j: nat, guarded: bool)
    requires j <= |records.keys|
    ensures var r := SeedEntries(s, kind, records, j, guarded);
      forall t, k :: TypeSlot(r.store, t, k) != TypeSlot(s, t, k) ==> t == kind && LastLabel(records, k, j).Some?
  {
    forall t, k | TypeSlot(SeedEntries(s, kind, records, j, guarded).store, t, k) != TypeSlot(s, t, k)
      ensures t == kind && LastLabel(records, k, j).Some?
    {
      SeedEntriesSlot(s, kind, records, j, guarded, t, k);
    }
  }

  /** `SeedEntriesSlots` for one slot, by induction on the range. */
  lemma {:induction false} SeedEntriesSlot(s: Store, kind: string, records: Records, j: nat, guarded: bool, t: string, k: Value)
    requires j <= |records.keys|
    requires TypeSlot(SeedEntries(s, kind, records, j, guarded).store, t, k) != TypeSlot(s, t, k)
    ensures t == kind && LastLabel(records, k, j).Some?
    decreases |records.keys| - j
  {
    var entry := ValueAt(records, j);
    if Skipped(entry, guarded) {
      SeedEntriesSlot(s, kind, records, j + 1, guarded, t, k);
      LastLabelLater(records, k, j);
    } else {
      var r1 := SeedEntry(s, kind, entry);
      SeedEntrySlots(s, kind, entry);
      if r1.error.None? && TypeSlot(r1.store, t, k) == TypeSlot(s, t, k) {
        SeedEntriesSlot(r1.store, kind, records, j + 1, guarded, t, k);
        LastLabelLater(records, k, j);
      } else {
        assert LastLabel(records, entry[ID_FIELD], j).Some?;
      }
    }
  }

  /** An id that a later entry labels is labelled from any earlier position too. */
  lemma LastLabelLater(records: Records, k: Value, j: nat)
    requires j < |records.keys|
    requires LastLabel(records, k, j + 1).Some?
    ensures LastLabel(records, k, j).Some?
  {
  }

  /**
   * Seeding the types from position i on touches only slots `(type, id)` of those types where
   * some entry with that id carries a label, whether it completes or not.
   */
  lemma {:induction false} SeedTypesSlots(s: Store, snap: Snapshot, i: nat, guarded: bool)
    requires i <= |snap.keys|
    ensures var r := SeedTypes(s, snap, i, guarded);
      forall t, k :: TypeSlot(r.store, t, k) != TypeSlot(s, t, k) ==>
        t in snap.keys[i..] && LastLabel(TypeRecords(snap, t), k, 0).Some?
    decreases |snap.keys| - i
  {
    if i < |snap.keys| {
      var kind := snap.keys[i];
      var records := ValueAt(snap, i);
      assert records == TypeRecords(snap, kind);
      var r1 := SeedEntries(s, kind, records, 0, guarded);
      SeedEntriesSlots(s, kind, records, 0, guarded);
      if r1.error.None? {
        var r2 := SeedTypes(r1.store, snap, i + 1, guarded);
        SeedTypesSlots(r1.store, snap, i + 1, guarded);
        TypeNotLater(snap, i);
        forall t, k | TypeSlot(r2.store, t, k) != TypeSlot(s, t, k)
          ensures t in snap.keys[i..] && LastLabel(TypeRecords(snap, t), k, 0).Some?
        {
          if TypeSlot(r1.store, t, k) != TypeSlot(s, t, k) {
            assert t == kind;
          }
        }
      }
    }
  }

  /**
   * A `parse_labels` that completes writes, for every type and id of the snapshot, the label of
   * the last entry with that id that carries one, leaves every other label alone, and changes
   * nothing but labels. Completed or not, it touches no slot but those `(type, id)` where a
   * snapshot entry with that id carries a label.
   */
  lemma ParseLabelsExact(s: Store, snap: Snapshot, guarded: bool)
    ensures var r := ParseLabels(s, snap, guarded);
      && LabelsOnly(s, r.store)
      && (forall t, k :: TypeSlot(r.store, t, k) != TypeSlot(s, t, k) ==>
            t in snap.keys && LastLabel(TypeRecords(snap, t), k, 0).Some?)
      && (r.error.None? ==>
            forall t, k :: EntityProp(r.store, t, k, LABEL_FIELD) ==
              (if t in snap.keys && LastLabel(TypeRecords(snap, t), k, 0).Some? then LastLabel(TypeRecords(snap, t), k, 0)
               else EntityProp(s, t, k, LABEL_FIELD)))
  {
    if LabelsLoggable(snap) {
      SeedTypesEffect(s, snap, 0, guarded);
      SeedTypesSlots(s, snap, 0, guarded);
      assert snap.keys[0..] == snap.keys;
    }
  }

  /**
   * The revisions differ on an entry without a `label`: the newer ones pass over it and go on
   * with the next entry, the oldest one stops there with a KeyError and the store unchanged.
   */
  lemma EntryWithoutLabel(s: Store, kind: string, records: Records, j: nat)
    requires j < |records.keys| && LABEL_FIELD !in ValueAt(records, j)
    ensures SeedEntries(s, kind, records, j, false) == Seeded(s, Some(KeyError))
    ensures SeedEntries(s, kind, records, j, true) == SeedEntries(s, kind, records, j + 1, true)
  {
  }

  /** One debug loop: `for entry in storage.data[kind].values(): entry['id'], entry['label']`. */
  method CheckLoggableType(snap: Snapshot, kind: string) returns (ok: bool)
    ensures ok == LoggableType(snap, kind)
  {
    if kind !in snap.vals {
      return false;
    }
    var records := snap.vals[kind];
    var j := 0;
    while j < |records.keys|
      invariant 0 <= j <= |records.keys|
      invariant forall m :: 0 <= m < j ==> ID_FIELD in ValueAt(records, m) && LABEL_FIELD in ValueAt(records, m)
    {
      var entry := ValueAt(records, j);
      if ID_FIELD !in entry || LABEL_FIELD !in entry {
        assert records.keys[j] in records.vals && records.vals[records.keys[j]] == entry;
        return false;
      }
      j := j + 1;
    }
    forall k | k in records.vals
      ensures ID_FIELD in records.vals[k] && LABEL_FIELD in records.vals[k]
    {
      InKeys(records, k);
      var m :| 0 <= m < |records.keys| && records.keys[m] == k;
      assert ValueAt(records, m) == records.vals[k];
    }
    return true;
  }

  /** The entries of one type, in order: `for entry in entries.values(): ...`. */
  method SeedTypeEntries(s: Store, kind: string, records: Records, guarded: bool) returns (r: Seeded)
    ensures r == SeedEntries(s, kind, records, 0, guarded)
  {
    var cur := s;
    var j := 0;
    while j < |records.keys|
      invariant 0 <= j <= |records.keys|
      invariant SeedEntries(s, kind, records, 0, guarded) == SeedEntries(cur, kind, records, j, guarded)
    {
      var entry := ValueAt(records, j);
      if !Skipped(entry, guarded) {
        var step := SeedEntry(cur, kind, entry);
        if step.error.Some? {
          return step;
        }
        cur := step.store;
      }
      j := j + 1;
    }
    r := Seeded(cur, None);
  }

  /**
   * `parse_labels` as the loops run it: the three debug loops, then the nested loop over the
   * snapshot's types and entries, stopping at the first exception.
   */
  method SeedLabels(s: Store, snap: Snapshot, guarded: bool) returns (r: Seeded)
    ensures r == ParseLabels(s, snap, guarded)
  {
    var t := 0;
    while t < |LOGGED_TYPES|
      invariant 0 <= t <= |LOGGED_TYPES|
      invariant forall u :: 0 <= u < t ==> LoggableType(snap, LOGGED_TYPES[u])
    {
      var ok := CheckLoggableType(snap, LOGGED_TYPES[t]);
      if !ok {
        assert LOGGED_TYPES[t] in LOGGED_TYPES;
        return Seeded(s, Some(KeyError));
      }
      t := t + 1;
    }

    var cur := s;
    var i := 0;
    while i < |snap.keys|
      invariant 0 <= i <= |snap.keys|
      invariant SeedTypes(s, snap, 0, guarded) == SeedTypes(cur, snap, i, guarded)
    {
      var step := SeedTypeEntries(cur, snap.keys[i], ValueAt(snap, i), guarded);
      if step.error.Some? {
        return step;
      }
      cur := step.store;
      i := i + 1;
    }
    r := Seeded(cur, None);
  }
}
