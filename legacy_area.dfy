/**
 * The armed port of the middle revision (`qtoggleserver/paradox/ports/area.py`), before the
 * reconciliation state machine: it remembers only the last value written successfully and
 * reads `pending` as that value negated. Its ids, label and alarm port are those of
 * `AreaPorts`.
 */
module LegacyAreaPorts {
  import opened Wrappers
  import opened PyValues
  import opened OrderedDicts
  import opened PropertyStore
  import opened PortReads
  import AreaPorts

  /**
   * `_ARMED_STATE_MAPPING.get(key)`: the four non-alarm states to codes 1..4 and back; any
   * other key, `triggered` and `arming` included, reads as None.
   */
  function StateLookup(key: Value): (r: Value)
    ensures key.VStr? && r != VNone ==> r.VInt? && 1 <= r.i <= 4
    ensures key.VInt? && r != VNone ==> r.VStr? && 1 <= key.i <= 4
    ensures !key.VStr? && !key.VInt? ==> r == VNone
  {
    match key
    case VStr(name) =>
      if name == "disarmed" then VInt(1)
      else if name == "armed_away" then VInt(2)
      else if name == "armed_night" then VInt(3)
      else if name == "armed_home" then VInt(4)
      else VNone
    case VInt(code) =>
      if code == 1 then VStr("disarmed")
      else if code == 2 then VStr("armed_away")
      else if code == 3 then VStr("armed_night")
      else if code == 4 then VStr("armed_home")
      else VNone
    case _ => VNone
  }

  /** `read_value` given the written target and what `get_property('current_state')` returned. */
  function ReadArmed(target: Option<int>, stored: Result<Value, PyError>): (r: Result<Value, PyError>)
    ensures stored.Err? ==> r == stored
    ensures stored == Ok(VStr("pending")) && target.None? ==> r == Err(TypeError)
    ensures stored == Ok(VStr("pending")) && target.Some? ==> r == Ok(VInt(-target.value))
    ensures stored.Ok? && stored.value != VStr("pending") ==> r.Ok?
  {
    match stored
    case Err(e) => Err(e)
    case Ok(state) =>
      if state == VStr("pending") then
        if target.None? then Err(TypeError) else Ok(VInt(-target.value))
      else Ok(StateLookup(state))
  }

  /** The states and what a read reports for each, with no pending state involved. */
  lemma ReadSettled(target: Option<int>)
    ensures ReadArmed(target, Ok(VStr("disarmed"))) == Ok(VInt(1))
    ensures ReadArmed(target, Ok(VStr("armed_away"))) == Ok(VInt(2))
    ensures ReadArmed(target, Ok(VStr("armed_night"))) == Ok(VInt(3))
    ensures ReadArmed(target, Ok(VStr("armed_home"))) == Ok(VInt(4))
    ensures ReadArmed(target, Ok(VStr("triggered"))) == Ok(VNone)
    ensures ReadArmed(target, Ok(VStr("arming"))) == Ok(VNone)
    ensures ReadArmed(target, Ok(VNone)) == Ok(VNone)
  {
  }

  class AreaArmedPort {
    const area: int
    /** `self._target_value`. */
    var target: Option<int>

    constructor (area: int)
      ensures this.area == area && target.None?
    {
      this.area := area;
      target := None;
    }

    /** `read_value`. */
    function ReadValue(s: Store): Result<Value, PyError>
      reads this
    {
      ReadArmed(target, ReadProperty(s, AreaPorts.PARTITION, VInt(area), "current_state"))
    }

    /**
     * `write_value`: look up the mode (KeyError for a value outside 1..4, nothing sent), send
     * it (`accepted` is the panel's answer, CommandError if it refused) and only then record
     * the target.
     */
    method WriteValue(value: int, accepted: bool) returns (sent: Option<AreaPorts.ArmedMode>, error: Option<PyError>)
      modifies this
      ensures sent == AreaPorts.ModeMapping(value)
      ensures sent.None? ==> error == Some(KeyError)
      ensures sent.Some? && !accepted ==> error == Some(CommandError)
      ensures sent.Some? && accepted ==> error.None?
      ensures target == (if error.None? then Some(value) else old(target))
    {
      sent := AreaPorts.ModeMapping(value);
      if sent.None? {
        return sent, Some(KeyError);
      }
      if !accepted {
        return sent, Some(CommandError);
      }
      target := Some(value);
      error := None;
    }
  }

  /**
   * Only accepted writes of 1..4 set the target, so once one has succeeded a `pending` read is
   * one of -1..-4; before any has, it raises.
   */
  lemma PendingAfterWrite(target: Option<int>)
    requires target.None? || 1 <= target.value <= 4
    ensures target.Some? ==>
      (ReadArmed(target, Ok(VStr("pending"))).Ok? && -4 <= ReadArmed(target, Ok(VStr("pending"))).value.i <= -1)
    ensures target.None? ==> ReadArmed(target, Ok(VStr("pending"))) == Err(TypeError)
  {
  }
}
