/**
 * The area ports of the newest revision (`qtoggleserver/paradox/area.py`). The armed port
 * reconciles what the user asked for with what the panel reports: it remembers the requested
 * value, the last reported state and the last state that was not a transitional one, folds
 * each observed state into them, and reads as a signed code (positive: the panel is in that
 * state; negative: a change towards that state is in flight).
 */
module AreaPorts {
  import opened Wrappers
  import opened PyValues
  import opened OrderedDicts
  import opened PropertyStore
  import opened PortReads

  const PARTITION: string := "partition"
  const DEFAULT_STATE: Value := VStr("disarmed")

  /** The arming modes `set_area_armed_mode` sends to the panel. */
  datatype ArmedMode = Disarm | Arm | ArmSleep | ArmStay

  /** `make_id`: `area{N}.armed` or `area{N}.alarm`. */
  function AreaPortId(area: int, suffix: string): (r: string)
    ensures r == PortId("area", area, suffix)
    ensures StartsWith(r, "area") && EndsWith(r, "." + suffix)
  {
    PortId("area", area, suffix)
  }

  /** Two area ports share an id exactly when they have the same area and the same suffix. */
  lemma AreaPortIdsDistinct(a1: int, s1: string, a2: int, s2: string)
    ensures AreaPortId(a1, s1) == AreaPortId(a2, s2) <==> a1 == a2 && s1 == s2
  {
    if AreaPortId(a1, s1) == AreaPortId(a2, s2) {
      PortIdInjective("area", a1, a2, s1, s2);
    }
  }

  /** `get_area_label`: the stored label, or `Area {N}` when it is missing or empty. */
  function AreaLabel(s: Store, area: int): (r: Result<Value, PyError>)
    ensures r.Err? <==> HoldsScalar(s, PARTITION, VInt(area))
    ensures r.Ok? ==> r.value == LabelOr(EntityProp(s, PARTITION, VInt(area), LABEL_FIELD).GetOr(VNone), "Area", area)
  {
    var stored := ReadProperty(s, PARTITION, VInt(area), "label");
    if stored.Err? then Err(stored.error) else Ok(LabelOr(stored.value, "Area", area))
  }

  /**
   * `_ARMED_STATE_MAPPING`, a single dict used in both directions: state names to codes
   * 1..5 and codes 1..5 back to names. Any other key is missing.
   */
  function StateMapping(key: Value): (r: Option<Value>)
    ensures r.Some? && key.VStr? ==> r.value.VInt? && 1 <= r.value.i <= 5
    ensures r.Some? && key.VInt? ==> r.value.VStr? && 1 <= key.i <= 5
    ensures r.Some? ==> key.VStr? || key.VInt?
  {
    match key
    case VStr(name) =>
      if name == "disarmed" then Some(VInt(1))
      else if name == "armed_away" then Some(VInt(2))
      else if name == "armed_night" then Some(VInt(3))
      else if name == "armed_home" then Some(VInt(4))
      else if name == "triggered" then Some(VInt(5))
      else None
    case VInt(code) =>
      if code == 1 then Some(VStr("disarmed"))
      else if code == 2 then Some(VStr("armed_away"))
      else if code == 3 then Some(VStr("armed_night"))
      else if code == 4 then Some(VStr("armed_home"))
      else if code == 5 then Some(VStr("triggered"))
      else None
    case _ => None
  }

  /** The two directions of the mapping are inverse: every code names a state whose code it is. */
  lemma StateMappingInverse(code: int)
    requires 1 <= code <= 5
    ensures StateMapping(VInt(code)).Some?
    ensures StateMapping(StateMapping(VInt(code)).value) == Some(VInt(code))
  {
  }

  /** The five states the mapping names, the ones that are not transitional. */
  predicate IsSettled(state: Value) {
    state.VStr? && StateMapping(state).Some?
  }

  /** The two transitional states. */
  predicate IsPending(state: Value) {
    state == VStr("pending") || state == VStr("arming")
  }

  /** The states the panel reports for an area. */
  predicate IsKnown(state: Value) {
    IsSettled(state) || IsPending(state)
  }

  /**
   * `_OPPOSITE_ARMED_STATE_MAPPING.get(state, state)`: disarmed goes to armed_away, the three
   * armed states go to disarmed, anything else to itself.
   */
  function OppositeState(state: Value): (r: Value)
    ensures state == VStr("disarmed") ==> r == VStr("armed_away")
    ensures state in {VStr("armed_away"), VStr("armed_night"), VStr("armed_home")} ==> r == VStr("disarmed")
    ensures state !in {VStr("disarmed"), VStr("armed_away"), VStr("armed_night"), VStr("armed_home")} ==> r == state
  {
    if state == VStr("disarmed") then VStr("armed_away")
    else if state == VStr("armed_away") || state == VStr("armed_night") || state == VStr("armed_home") then VStr("disarmed")
    else state
  }

  /** `_ARMED_MODE_MAPPING`: codes 1..4 to the mode commands. */
  function ModeMapping(code: int): (r: Option<ArmedMode>)
    ensures r.Some? <==> 1 <= code <= 4
  {
    if code == 1 then Some(Disarm)
    else if code == 2 then Some(Arm)
    else if code == 3 then Some(ArmSleep)
    else if code == 4 then Some(ArmStay)
    else None
  }

  /** The three fields of the armed port: `_requested_value`, `_last_state`, `_last_non_pending_state`. */
  datatype ArmedState = ArmedState(requested: Option<int>, lastState: Value, lastNonPending: Value)

  /** What a read did: the fields after it and the value it returned or the exception it raised. */
  datatype ReadOutcome = ReadOutcome(state: ArmedState, value: Result<Value, PyError>)

  /** `abs(v)`. */
  function Abs(v: int): nat {
    if v < 0 then -v else v
  }

  /**
   * The fields after construction as `__init__` sets them: the stored `current_state` (or the
   * default) becomes both the last state and the last settled state, even when it is a
   * transitional one.
   */
  function InitialAsWritten(current: Value): (st: ArmedState)
    ensures st.requested.None?
    ensures st.lastState == st.lastNonPending
    ensures Truthy(current) ==> st.lastState == current
    ensures !Truthy(current) ==> st.lastState == DEFAULT_STATE
  {
    var state := Or(current, DEFAULT_STATE);
    ArmedState(None, state, state)
  }

  /**
   * The fields after construction, with a transitional starting state not taken for a settled
   * one: the last settled state is then the default state.
   */
  function Initial(current: Value): (st: ArmedState)
    ensures st.requested.None?
    ensures st.lastState == Or(current, DEFAULT_STATE)
    ensures !IsPending(st.lastState) ==> st.lastNonPending == st.lastState
    ensures IsPending(st.lastState) ==> st.lastNonPending == DEFAULT_STATE
  {
    var state := Or(current, DEFAULT_STATE);
    ArmedState(None, state, if IsPending(state) then DEFAULT_STATE else state)
  }

  /**
   * The first half of `read_value`: fold the observed state into the fields. Only a
   * transition changes anything; a transition into a settled state records it and ends any
   * outstanding request, whose mapping lookup raises KeyError (after the two states are
   * recorded and before the request is cleared) when the requested code names no state.
   */
  function Observe(st: ArmedState, current: Value): (r: ReadOutcome)
  {
    if current == st.lastState then ReadOutcome(st, Ok(VNone))
    else if IsPending(current) then ReadOutcome(st.(lastState := current), Ok(VNone))
    else
      var recorded := st.(lastState := current, lastNonPending := current);
      if recorded.requested.None? then ReadOutcome(recorded, Ok(VNone))
      else if StateMapping(VInt(recorded.requested.value)).None? then ReadOutcome(recorded, Err(KeyError))
      else ReadOutcome(recorded.(requested := None), Ok(VNone))
  }

  /**
   * The second half of `read_value`: an outstanding request reads as its negation; a
   * transitional state without one reads as the negated code of the opposite of the last
   * settled state; any other state reads as its own code.
   */
  function Decide(st: ArmedState, current: Value): (r: Result<Value, PyError>)
  {
    if st.requested.Some? then Ok(VInt(-st.requested.value))
    else if IsPending(current) then
      match StateMapping(OppositeState(st.lastNonPending))
      case None => Err(KeyError)
      case Some(code) => if code.VInt? then Ok(VInt(-code.i)) else Err(TypeError)
    else
      match StateMapping(current)
      case None => Err(KeyError)
      case Some(code) => Ok(code)
  }

  /** `read_value` on the fields, given what `get_property('current_state')` returned. */
  function Read(st: ArmedState, stored: Result<Value, PyError>): ReadOutcome {
    match stored
    case Err(e) => ReadOutcome(st, Err(e))
    case Ok(v) =>
      var current := Or(v, DEFAULT_STATE);
      var observed := Observe(st, current);
      if observed.value.Err? then observed
      else ReadOutcome(observed.state, Decide(observed.state, current))
  }

  /** A read that sees no transition leaves the fields as they were. */
  lemma ReadWithoutTransition(st: ArmedState, v: Value)
    requires Or(v, DEFAULT_STATE) == st.lastState
    ensures Read(st, Ok(v)).state == st
  {
  }

  /**
   * A transition into a settled state records it as both the last and the last settled state
   * and ends the outstanding request, whether the panel reached the requested state or not.
   * Only a request whose code names no state survives, with a KeyError.
   */
  lemma ReadSettledTransition(st: ArmedState, v: Value)
    requires Or(v, DEFAULT_STATE) != st.lastState && !IsPending(Or(v, DEFAULT_STATE))
    ensures var r := Read(st, Ok(v));
      && r.state.lastState == Or(v, DEFAULT_STATE)
      && r.state.lastNonPending == Or(v, DEFAULT_STATE)
      && (st.requested.None? || 1 <= st.requested.value <= 5 ==> r.state.requested.None?)
      && (st.requested.Some? && !(1 <= st.requested.value <= 5) ==> r.state.requested == st.requested && r.value == Err(KeyError))
  {
  }

  /** A transition into `pending` or `arming` records only the last state. */
  lemma ReadPendingTransition(st: ArmedState, v: Value)
    requires Or(v, DEFAULT_STATE) != st.lastState && IsPending(Or(v, DEFAULT_STATE))
    ensures Read(st, Ok(v)).state == st.(lastState := Or(v, DEFAULT_STATE))
  {
  }

  /** While a request is outstanding after the fold, the read is its negation. */
  lemma ReadOutstanding(st: ArmedState, v: Value)
    requires Read(st, Ok(v)).state.requested.Some?
    requires Read(st, Ok(v)).value != Err(KeyError)
    ensures Read(st, Ok(v)).value == Ok(VInt(-Read(st, Ok(v)).state.requested.value))
  {
  }

  /**
   * With no request and a transitional state, the read is the negated code of the state the
   * area is presumably heading to: arming from disarmed, disarming from any armed state, and
   * the last settled state itself otherwise.
   */
  lemma ReadExternalPending(st: ArmedState, v: Value)
    requires IsPending(Or(v, DEFAULT_STATE)) && st.requested.None?
    ensures var r := Read(st, Ok(v));
      && (st.lastNonPending == VStr("disarmed") ==> r.value == Ok(VInt(-2)))
      && (st.lastNonPending in {VStr("armed_away"), VStr("armed_night"), VStr("armed_home")} ==> r.value == Ok(VInt(-1)))
      && (st.lastNonPending == VStr("triggered") ==> r.value == Ok(VInt(-5)))
      && (!IsSettled(st.lastNonPending) && !st.lastNonPending.VInt? ==> r.value == Err(KeyError))
  {
  }

  /** With no request and a settled state, the read is that state's code. */
  lemma ReadSettledCode(st: ArmedState, v: Value)
    requires !IsPending(Or(v, DEFAULT_STATE))
    requires Read(st, Ok(v)).state.requested.None? && Read(st, Ok(v)).value.Ok?
    ensures var current := Or(v, DEFAULT_STATE);
      && (current == VStr("disarmed") ==> Read(st, Ok(v)).value == Ok(VInt(1)))
      && (current == VStr("armed_away") ==> Read(st, Ok(v)).value == Ok(VInt(2)))
      && (current == VStr("armed_night") ==> Read(st, Ok(v)).value == Ok(VInt(3)))
      && (current == VStr("armed_home") ==> Read(st, Ok(v)).value == Ok(VInt(4)))
      && (current == VStr("triggered") ==> Read(st, Ok(v)).value == Ok(VInt(5)))
  {
  }

  /**
   * The fields a port can be in without a read ever raising on a state the panel reports:
   * a request, if any, names a state, and the last settled state is one.
   */
  predicate WellFormed(st: ArmedState) {
    && (st.requested.None? || 1 <= st.requested.value <= 5)
    && IsSettled(st.lastNonPending)
  }

  /**
   * From well-formed fields, a read of a state the panel reports never raises, keeps the
   * fields well-formed and returns a code of magnitude 1 to 5 whose sign says whether a
   * change is in flight.
   */
  lemma ReadTotal(st: ArmedState, v: Value)
    requires WellFormed(st) && IsKnown(Or(v, DEFAULT_STATE))
    ensures var r := Read(st, Ok(v));
      && WellFormed(r.state)
      && r.value.Ok? && r.value.value.VInt?
      && 1 <= Abs(r.value.value.i) <= 5
      && (r.value.value.i < 0 <==> r.state.requested.Some? || IsPending(Or(v, DEFAULT_STATE)))
  {
  }

  /**
   * `write_value` on the fields as written: the value itself, negative or not, is recorded as
   * the request before anything can fail.
   */
  function WriteAsWritten(st: ArmedState, value: int): (r: ArmedState)
    ensures r.requested == Some(value) && r.lastState == st.lastState && r.lastNonPending == st.lastNonPending
  {
    st.(requested := Some(value))
  }

  /**
   * `write_value` on the fields with the request recorded as the code of the mode sent,
   * `abs(value)`, so that writing one of the negative choices requests the same state as the
   * positive one. The request is recorded before anything can fail.
   */
  function Write(st: ArmedState, value: int): (r: ArmedState)
    ensures r.requested == Some(Abs(value)) && r.lastState == st.lastState && r.lastNonPending == st.lastNonPending
    ensures value >= 0 ==> r == WriteAsWritten(st, value)
  {
    st.(requested := Some(Abs(value)))
  }

  /** The mode command a write sends, when `_ARMED_MODE_MAPPING[abs(value)]` exists. */
  function WriteCommand(value: int): (r: Option<ArmedMode>)
    ensures r.Some? <==> 1 <= Abs(value) <= 4
  {
    ModeMapping(Abs(value))
  }

  /**
   * Writing any of the eight choices keeps the fields well-formed, and until the panel settles
   * the port reads the negated code of the mode that was sent.
   */
  lemma WriteKeepsWellFormed(st: ArmedState, value: int, v: Value)
    requires WellFormed(st) && 1 <= Abs(value) <= 4
    requires IsPending(Or(v, DEFAULT_STATE))
    ensures WellFormed(Write(st, value)) && WriteCommand(value).Some?
    ensures Read(Write(st, value), Ok(v)).value == Ok(VInt(-(Abs(value) as int)))
  {
  }

  /**
   * Constructed from any state the panel reports, the fields are well-formed, so no read of a
   * reported state raises (`ReadTotal`).
   */
  lemma InitialWellFormed(current: Value)
    requires IsKnown(Or(current, DEFAULT_STATE))
    ensures WellFormed(Initial(current))
    ensures !IsPending(Or(current, DEFAULT_STATE)) ==> Initial(current) == InitialAsWritten(current)
  {
  }

  /**
   * As written, a port constructed while the panel is arming takes `arming` for the last
   * settled state; every read until the panel settles then looks up `arming` in the state
   * mapping and raises KeyError, leaving the fields as they were. Constructed with the
   * default as the last settled state, the same read is -2.
   */
  lemma PendingAtStart()
    ensures var r := Read(InitialAsWritten(VStr("arming")), Ok(VStr("arming")));
      r.value == Err(KeyError) && r.state == InitialAsWritten(VStr("arming"))
    ensures !WellFormed(InitialAsWritten(VStr("arming")))
    ensures Read(Initial(VStr("arming")), Ok(VStr("arming"))).value == Ok(VInt(-2))
  {
  }

  /**
   * As written, writing the choice -2 (Arming) records -2: while the panel arms the port reads
   * 2 (armed); the settled transition then raises KeyError on the lookup of -2 and keeps the
   * request, so after the panel disarms again the port still reads 2. Recording `abs(value)`
   * reads -2 while arming and 2 once armed, with the request ended.
   */
  lemma NegativeWriteSticks()
    ensures var st0 := WriteAsWritten(Initial(VStr("disarmed")), -2);
      var r1 := Read(st0, Ok(VStr("arming")));
      var r2 := Read(r1.state, Ok(VStr("armed_away")));
      var r3 := Read(r2.state, Ok(VStr("disarmed")));
      var r4 := Read(r3.state, Ok(VStr("disarmed")));
      && r1.value == Ok(VInt(2))
      && r2.value == Err(KeyError) && r2.state.requested == Some(-2)
      && r3.value == Err(KeyError)
      && r4.value == Ok(VInt(2))
    ensures var st0 := Write(Initial(VStr("disarmed")), -2);
      var r1 := Read(st0, Ok(VStr("arming")));
      var r2 := Read(r1.state, Ok(VStr("armed_away")));
      && r1.value == Ok(VInt(-2))
      && r2.value == Ok(VInt(2)) && r2.state.requested.None?
  {
  }

  class AreaArmedPort {
    const area: int
    var requested: Option<int>
    var lastState: Value
    var lastNonPending: Value

    /** The fields as one value. */
    function State(): ArmedState
      reads this
    {
      ArmedState(requested, lastState, lastNonPending)
    }

    /** `__init__`, given what `get_property('current_state')` returned (a transitional state is not taken for a settled one). */
    constructor (area: int, current: Value)
      ensures this.area == area && State() == Initial(current)
    {
      this.area := area;
      requested := None;
      var state := Or(current, DEFAULT_STATE);
      lastState := state;
      lastNonPending := if IsPending(state) then DEFAULT_STATE else state;
    }

    /** `read_value`. */
    method ReadValue(s: Store) returns (r: Result<Value, PyError>)
      modifies this
      ensures ReadOutcome(State(), r) == Read(old(State()), ReadProperty(s, PARTITION, VInt(area), "current_state"))
    {
      var stored := ReadProperty(s, PARTITION, VInt(area), "current_state");
      if stored.Err? {
        return Err(stored.error);
      }
      var current := Or(stored.value, DEFAULT_STATE);
      if current != lastState {
        lastState := current;
        if !IsPending(current) {
          lastNonPending := current;
          if requested.Some? {
            var requestedState := StateMapping(VInt(requested.value));
            if requestedState.None? {
              return Err(KeyError);
            }
            requested := None;
          }
        }
      }
      if requested.Some? {
        return Ok(VInt(-requested.value));
      }
      if IsPending(current) {
        var code := StateMapping(OppositeState(lastNonPending));
        if code.None? {
          return Err(KeyError);
        }
        if !code.value.VInt? {
          return Err(TypeError);
        }
        return Ok(VInt(-code.value.i));
      }
      var code := StateMapping(current);
      if code.None? {
        return Err(KeyError);
      }
      r := Ok(code.value);
    }

    /**
     * `write_value`: record the request (as `abs(value)`), look up the mode (KeyError for a code outside 1..4)
     * and send it; `accepted` is whether the panel accepted the command (CommandError if not).
     * The request stays recorded whatever fails.
     */
    method WriteValue(value: int, accepted: bool) returns (sent: Option<ArmedMode>, error: Option<PyError>)
      modifies this
      ensures State() == Write(old(State()), value)
      ensures sent == WriteCommand(value)
      ensures error == (if sent.None? then Some(KeyError) else if !accepted then Some(CommandError) else None)
    {
      requested := Some(Abs(value));
      sent := ModeMapping(Abs(value));
      if sent.None? {
        return sent, Some(KeyError);
      }
      error := if accepted then None else Some(CommandError);
    }
  }

  /** Construction reads `current_state` first, so an id holding a single value raises there. */
  method NewAreaArmedPort(s: Store, area: int) returns (p: AreaArmedPort?, error: Option<PyError>)
    ensures error.Some? <==> HoldsScalar(s, PARTITION, VInt(area))
    ensures error.Some? ==> p == null
    ensures error.None? ==> p != null && fresh(p) && p.area == area
    ensures error.None? ==> p.State() == Initial(EntityProp(s, PARTITION, VInt(area), VStr("current_state")).GetOr(VNone))
  {
    var current := ReadProperty(s, PARTITION, VInt(area), "current_state");
    if current.Err? {
      return null, Some(current.error);
    }
    p := new AreaArmedPort(area, current.value);
    error := None;
  }

  /** `AreaAlarmPort.read_value`: the stored `alarm` property as it is. */
  function AlarmValue(s: Store, area: int): (r: Result<Value, PyError>)
    ensures r.Err? <==> HoldsScalar(s, PARTITION, VInt(area))
    ensures r.Ok? ==> r.value == EntityProp(s, PARTITION, VInt(area), VStr("alarm")).GetOr(VNone)
  {
    ReadProperty(s, PARTITION, VInt(area), "alarm")
  }

  /** A pushed `alarm` change for an area's record is what the alarm port reads next. */
  lemma AlarmSeesChange(s: Store, snap: Snapshot, c: Change, area: int)
    requires c.kind == PARTITION && c.property == VStr("alarm")
    requires ResolveId(snap, c) == Some(VInt(area))
    requires LABEL_FIELD in Get(snap, c.kind).value.vals[c.key]
    requires !HoldsScalar(s, PARTITION, VInt(area))
    ensures AlarmValue(ApplyChange(s, snap, c).store, area) == Ok(c.newValue)
  {
    ApplyChangeToRecord(s, snap, c, VInt(area));
  }

  /** A user arms the area: while the panel is arming the port reads -2, once armed it reads 2. */
  lemma ArmScenario(area: int)
    ensures var st0 := Write(Initial(VStr("disarmed")), 2);
      var r1 := Read(st0, Ok(VStr("arming")));
      var r2 := Read(r1.state, Ok(VStr("armed_away")));
      && WriteCommand(2) == Some(Arm)
      && r1.value == Ok(VInt(-2))
      && r2.value == Ok(VInt(2)) && r2.state.requested.None?
  {
  }

  /** A request the panel does not fulfil is dropped at the next settled state, which the port then reports. */
  lemma UnfulfilledScenario()
    ensures var st0 := Write(Initial(VStr("disarmed")), 2);
      var r1 := Read(st0, Ok(VStr("arming")));
      var r2 := Read(r1.state, Ok(VStr("disarmed")));
      r2.value == Ok(VInt(1)) && r2.state.requested.None?
  {
  }

  /** Disarming from a keypad while armed away reads -1 until the panel settles. */
  lemma ExternalDisarmScenario()
    ensures var r1 := Read(Initial(VStr("armed_away")), Ok(VStr("pending")));
      r1.value == Ok(VInt(-1)) && r1.state.requested.None?
  {
  }
}
