/**
 * The read-only ports derived from the store: zone ports (open, alarm, trouble, tamper) in the
 * newest revision (`qtoggleserver/paradox/zone.py`, zone looked up by the decimal string of
 * its number) and in the middle one (`qtoggleserver/paradox/ports/zone.py`, looked up by the
 * number itself), output ports on type `pgm` and the system trouble port
 * (`qtoggleserver/paradox/ports/output.py`, `qtoggleserver/paradox/ports/system.py`).
 */
module DerivedPorts {
  import opened Wrappers
  import opened PyValues
  import opened OrderedDicts
  import opened PropertyStore
  import opened PortReads

  const ZONE: string := "zone"
  const PGM: string := "pgm"
  const TROUBLE_SUFFIX: string := "_trouble"

  /** The newest revision looks a zone up by `str(zone)`. */
  function ZoneKey(zone: int): (k: Value)
    ensures k.VStr? && ParseInt(k.s) == Ok(zone)
  {
    IntStrRoundTrip(zone);
    VStr(IntStr(zone))
  }

  /** The middle revision looks a zone up by the number itself. */
  function LegacyZoneKey(zone: int): (k: Value)
    ensures k.VInt? && k.i == zone
  {
    VInt(zone)
  }

  /** Different zones have different keys in either revision, and the two revisions' keys never meet. */
  lemma ZoneKeysDistinct(z1: int, z2: int)
    ensures ZoneKey(z1) == ZoneKey(z2) <==> z1 == z2
    ensures ZoneKey(z1) != LegacyZoneKey(z2)
  {
    if ZoneKey(z1) == ZoneKey(z2) {
      IntStrInjective(z1, z2);
    }
  }

  /** `make_id` of the zone ports: `zone{N}.open`, `.alarm`, `.trouble`, `.tamper`. */
  function ZonePortId(zone: int, suffix: string): (r: string)
    ensures r == PortId("zone", zone, suffix)
    ensures StartsWith(r, "zone") && EndsWith(r, "." + suffix)
  {
    PortId("zone", zone, suffix)
  }

  /** `make_id` of the output ports: `output{N}.trouble`, `.tamper`. */
  function OutputPortId(output: int, suffix: string): (r: string)
    ensures r == PortId("output", output, suffix)
    ensures StartsWith(r, "output") && EndsWith(r, "." + suffix)
  {
    PortId("output", output, suffix)
  }

  /**
   * Zone ports share an id exactly when number and suffix agree, so do output ports, and a
   * zone port never shares an id with an output port.
   */
  lemma DerivedPortIdsDistinct(n1: int, s1: string, n2: int, s2: string)
    ensures ZonePortId(n1, s1) == ZonePortId(n2, s2) <==> n1 == n2 && s1 == s2
    ensures OutputPortId(n1, s1) == OutputPortId(n2, s2) <==> n1 == n2 && s1 == s2
    ensures ZonePortId(n1, s1) != OutputPortId(n2, s2)
  {
    if ZonePortId(n1, s1) == ZonePortId(n2, s2) {
      PortIdInjective("zone", n1, n2, s1, s2);
    }
    if OutputPortId(n1, s1) == OutputPortId(n2, s2) {
      PortIdInjective("output", n1, n2, s1, s2);
    }
    assert ZonePortId(n1, s1)[0] == 'z' != 'o' == OutputPortId(n2, s2)[0];
  }

  /** `SystemPort.make_id`: `system.trouble`. */
  function SystemPortId(suffix: string): (r: string)
    ensures StartsWith(r, "system.") && r[|"system."|..] == suffix
  {
    "system." + suffix
  }

  /** `get_zone_label`: the stored label, or `Zone {N}`. */
  function ZoneLabel(s: Store, key: Value, zone: int): (r: Result<Value, PyError>)
    ensures r.Err? <==> HoldsScalar(s, ZONE, key)
    ensures r.Ok? ==> r.value == LabelOr(EntityProp(s, ZONE, key, LABEL_FIELD).GetOr(VNone), "Zone", zone)
  {
    var stored := ReadProperty(s, ZONE, key, "label");
    if stored.Err? then Err(stored.error) else Ok(LabelOr(stored.value, "Zone", zone))
  }

  /** `get_output_label`: the stored label, or `Output {N}`. */
  function OutputLabel(s: Store, output: int): (r: Result<Value, PyError>)
    ensures r.Err? <==> HoldsScalar(s, PGM, VInt(output))
    ensures r.Ok? ==> r.value == LabelOr(EntityProp(s, PGM, VInt(output), LABEL_FIELD).GetOr(VNone), "Output", output)
  {
    var stored := ReadProperty(s, PGM, VInt(output), "label");
    if stored.Err? then Err(stored.error) else Ok(LabelOr(stored.value, "Output", output))
  }

  /** `read_value` of the open, alarm and tamper zone ports: the stored property as it is, None when missing. */
  function ZoneProperty(s: Store, key: Value, name: string): (r: Result<Value, PyError>)
    ensures r.Err? <==> HoldsScalar(s, ZONE, key)
    ensures r.Ok? ==> r.value == EntityProp(s, ZONE, key, VStr(name)).GetOr(VNone)
  {
    ReadProperty(s, ZONE, key, name)
  }

  /** `OutputTamperPort.read_value`: the stored `tamper` property, None when missing. */
  function OutputTamper(s: Store, output: int): (r: Result<Value, PyError>)
    ensures r.Err? <==> HoldsScalar(s, PGM, VInt(output))
    ensures r.Ok? ==> r.value == EntityProp(s, PGM, VInt(output), VStr("tamper")).GetOr(VNone)
  {
    ReadProperty(s, PGM, VInt(output), "tamper")
  }

  /**
   * `SystemTroublePort.read_value`: `get_property('system', None, 'trouble')`, which reads the
   * flat system dict; the id passed plays no part.
   */
  function SystemTrouble(s: Store): (r: Slot)
    ensures r == TypeSlot(s, SYSTEM, VStr("trouble")).GetOr(Scalar(VNone))
    ensures forall id :: GetProperty(s, SYSTEM, id, VStr("trouble")) == Ok(r)
  {
    GetProperty(s, SYSTEM, VNone, VStr("trouble")).value
  }

  /** `SystemPort.get_properties`: the whole flat system dict, empty when there is none. */
  function SystemProperties(s: Store): (r: TypeDict)
    ensures SYSTEM in s.vals ==> r == s.vals[SYSTEM]
    ensures SYSTEM !in s.vals ==> r.keys == []
  {
    GetProperties(s, SYSTEM, VNone).entries
  }

  /** A pushed system `trouble` change without an id record is what the system port reads next. */
  lemma SystemTroubleSeesChange(s: Store, snap: Snapshot, c: Change)
    requires c.kind == SYSTEM && c.property == VStr("trouble")
    requires Get(snap, c.kind).Some? && ResolveId(snap, c).None?
    ensures SystemTrouble(ApplyChange(s, snap, c).store) == Scalar(c.newValue)
  {
    ApplyChangeFlat(s, snap, c, VNone);
  }

  /** Key `k` of a record is a set trouble flag: a string name ending in `_trouble` with a truthy value. */
  predicate IsTroubleFlag(p: ODict<Value, Value>, k: Value) {
    k in p.vals && k.VStr? && EndsWith(k.s, TROUBLE_SUFFIX) && Truthy(p.vals[k])
  }

  /**
   * The trouble loop over `p.keys[j..]`: true at the first set trouble flag; a name that is not
   * a string has no `endswith` and raises first; false when the loop runs out.
   */
  function TroubleFrom(p: ODict<Value, Value>, j: nat): Result<bool, PyError>
    requires j <= |p.keys|
    decreases |p.keys| - j
  {
    if j == |p.keys| then Ok(false)
    else
      var name := p.keys[j];
      if !name.VStr? then Err(AttributeError)
      else if EndsWith(name.s, TROUBLE_SUFFIX) && Truthy(ValueAt(p, j)) then Ok(true)
      else TroubleFrom(p, j + 1)
  }

  /**
   * `read_value` of the zone and output trouble ports on what `get_properties()` returned: a
   * single value instead of a record has no `.items()`.
   */
  function Trouble(slot: Slot): (r: Result<bool, PyError>)
    ensures slot.Scalar? ==> r == Err(AttributeError)
    ensures slot.Props? && slot.props.keys == [] ==> r == Ok(false)
  {
    match slot
    case Scalar(_) => Err(AttributeError)
    case Props(p) => TroubleFrom(p, 0)
  }

  /**
   * When every name from position j on is a string, the loop answers whether one of them is
   * a set trouble flag; when it raises, a name that is not a string comes before every flag.
   */
  lemma {:induction false} TroubleFromExact(p: ODict<Value, Value>, j: nat)
    requires j <= |p.keys|
    ensures (forall m :: j <= m < |p.keys| ==> p.keys[m].VStr?) ==>
      TroubleFrom(p, j) == Ok(exists m :: j <= m < |p.keys| && IsTroubleFlag(p, p.keys[m]))
    ensures TroubleFrom(p, j) == Ok(true) ==> exists m :: j <= m < |p.keys| && IsTroubleFlag(p, p.keys[m])
    ensures TroubleFrom(p, j).Err? ==> TroubleFrom(p, j) == Err(AttributeError)
    ensures TroubleFrom(p, j).Err? ==>
      exists m :: j <= m < |p.keys| && !p.keys[m].VStr? && forall l :: j <= l < m ==> !IsTroubleFlag(p, p.keys[l])
    decreases |p.keys| - j
  {
    if j < |p.keys| {
      TroubleFromExact(p, j + 1);
      var name := p.keys[j];
      var v := ValueAt(p, j);
      if name.VStr? && !IsTroubleFlag(p, name) && TroubleFrom(p, j + 1).Err? {
        var m :| j + 1 <= m < |p.keys| && !p.keys[m].VStr? &&
          forall l :: j + 1 <= l < m ==> !IsTroubleFlag(p, p.keys[l]);
        assert forall l :: j <= l < m ==> !IsTroubleFlag(p, p.keys[l]);
      }
    }
  }

  /**
   * The trouble port of a record whose names are all strings reads true exactly when some
   * property whose name ends in `_trouble` is truthy, and false for an empty record.
   */
  lemma TroubleExact(p: ODict<Value, Value>)
    requires forall k :: k in p.vals ==> k.VStr?
    ensures Trouble(Props(p)) == Ok(exists k :: IsTroubleFlag(p, k))
  {
    forall m | 0 <= m < |p.keys|
      ensures p.keys[m].VStr?
    {
      InKeys(p, p.keys[m]);
    }
    TroubleFromExact(p, 0);
    if exists k :: IsTroubleFlag(p, k) {
      var k :| IsTroubleFlag(p, k);
      InKeys(p, k);
      var m :| 0 <= m < |p.keys| && p.keys[m] == k;
    }
  }

  /** The loop of the trouble ports: `for name, value in self.get_properties().items()`. */
  method ScanTrouble(slot: Slot) returns (r: Result<bool, PyError>)
    ensures r == Trouble(slot)
  {
    if slot.Scalar? {
      return Err(AttributeError);
    }
    var p := slot.props;
    var j := 0;
    while j < |p.keys|
      invariant 0 <= j <= |p.keys|
      invariant TroubleFrom(p, 0) == TroubleFrom(p, j)
    {
      var name := p.keys[j];
      if !name.VStr? {
        return Err(AttributeError);
      }
      if EndsWith(name.s, TROUBLE_SUFFIX) && Truthy(ValueAt(p, j)) {
        return Ok(true);
      }
      j := j + 1;
    }
    r := Ok(false);
  }

  /** `ZoneTroublePort.read_value` in either revision, given the zone's key. */
  method ZoneTrouble(s: Store, key: Value) returns (r: Result<bool, PyError>)
    ensures r == Trouble(TypeSlot(s, ZONE, key).GetOr(Props(Empty())))
  {
    r := ScanTrouble(GetProperties(s, ZONE, key).slot);
  }

  /** `OutputTroublePort.read_value`. */
  method OutputTrouble(s: Store, output: int) returns (r: Result<bool, PyError>)
    ensures r == Trouble(TypeSlot(s, PGM, VInt(output)).GetOr(Props(Empty())))
  {
    r := ScanTrouble(GetProperties(s, PGM, VInt(output)).slot);
  }
}
