/**
 * The remote-control button ports (`qtoggleserver/paradox/remote.py`). The panel reports the
 * last button a remote sent; a port turns that into "pressed recently": it remembers the last
 * non-zero value it saw and when it changed, and reads true while no more than `timeout`
 * milliseconds have passed since. The aggregate port does the same per remote over a list of
 * remotes and reads true when any of them was pressed recently. The clock is the `now`
 * parameter (milliseconds).
 */
module Remotes {
  import opened Wrappers
  import opened PyValues
  import opened OrderedDicts
  import opened PropertyStore
  import opened PortReads

  const USER: string := "user"

  /** The store property holding a button's value: `button_{b}`. */
  function ButtonProperty(button: string): string {
    "button_" + button
  }

  /** `RemoteButtonPort.make_id`: `remote{N}.button_{b}`. */
  function RemoteButtonId(remote: int, button: string): (r: string)
    ensures r == PortId("remote", remote, ButtonProperty(button))
  {
    PortId("remote", remote, "button") + "_" + button
  }

  /** `AnyRemoteButtonPort.make_id`: `remote.button_{b}`. */
  function AnyRemoteButtonId(button: string): (r: string)
    ensures StartsWith(r, "remote.") && r[|"remote."|..] == ButtonProperty(button)
  {
    "remote." + "button" + "_" + button
  }

  /** Single-remote ids differ from one another and from every aggregate id. */
  lemma RemoteIdsDistinct(r1: int, b1: string, r2: int, b2: string, b3: string)
    ensures RemoteButtonId(r1, b1) == RemoteButtonId(r2, b2) ==> r1 == r2 && b1 == b2
    ensures RemoteButtonId(r1, b1) != AnyRemoteButtonId(b3)
  {
    if RemoteButtonId(r1, b1) == RemoteButtonId(r2, b2) {
      PortIdInjective("remote", r1, r2, ButtonProperty(b1), ButtonProperty(b2));
      assert b1 == ButtonProperty(b1)[7..];
    }
    IntStrChars(r1);
    assert RemoteButtonId(r1, b1)[6] != '.';
  }

  /** `get_remote_label`: the stored label, or `Remote {N}` when it is missing or empty. */
  function RemoteLabel(s: Store, remote: int): (r: Result<Value, PyError>)
    ensures r.Err? <==> HoldsScalar(s, USER, VInt(remote))
    ensures r.Ok? ==> r.value == LabelOr(EntityProp(s, USER, VInt(remote), LABEL_FIELD).GetOr(VNone), "Remote", remote)
  {
    var stored := ReadProperty(s, USER, VInt(remote), "label");
    if stored.Err? then Err(stored.error) else Ok(LabelOr(stored.value, "Remote", remote))
  }

  /** `RemoteButtonPort.get_button_value`: the stored value, 0 when it is missing or falsy. */
  function ButtonValue(s: Store, remote: int, button: string): (r: Result<Value, PyError>)
    ensures r.Err? <==> HoldsScalar(s, USER, VInt(remote))
    ensures r.Ok? ==> r.value == Or(EntityProp(s, USER, VInt(remote), VStr(ButtonProperty(button))).GetOr(VNone), VInt(0))
  {
    var stored := ReadProperty(s, USER, VInt(remote), ButtonProperty(button));
    if stored.Err? then stored else Ok(Or(stored.value, VInt(0)))
  }

  /** `AnyRemoteButtonPort.get_button_value`: the stored value as it is, None when missing. */
  function RawButtonValue(s: Store, remote: int, button: string): (r: Result<Value, PyError>)
    ensures r.Err? <==> HoldsScalar(s, USER, VInt(remote))
    ensures r.Ok? ==> r.value == EntityProp(s, USER, VInt(remote), VStr(ButtonProperty(button))).GetOr(VNone)
  {
    ReadProperty(s, USER, VInt(remote), ButtonProperty(button))
  }

  /** What is remembered of one remote: the last button value seen and when it changed. */
  datatype Tracker = Tracker(last: Value, timestamp: int)

  /** Both start at 0. */
  const INITIAL: Tracker := Tracker(VInt(0), 0)

  /**
   * One observation: a truthy value different from the remembered one is remembered with the
   * time it was seen; a falsy or repeated value changes nothing.
   */
  function Track(t: Tracker, value: Value, now: int): (r: Tracker)
    ensures r == t || r == Tracker(value, now)
    ensures r != t ==> Truthy(value)
    ensures Truthy(r.last) || r.last == t.last
  {
    if Truthy(value) && value != t.last then Tracker(value, now) else t
  }

  /** Seeing the same value twice counts once: the timestamp stays at the first sighting. */
  lemma TrackTwice(t: Tracker, value: Value, n1: int, n2: int)
    ensures Track(Track(t, value, n1), value, n2) == Track(t, value, n1)
  {
  }

  /** A falsy value (the button released) leaves the tracker as it was. */
  lemma TrackFalsy(t: Tracker, value: Value, now: int)
    requires !Truthy(value)
    ensures Track(t, value, now) == t
  {
  }

  /** A press, a release and the same press again do not restart the window: 5, 0, 5 is one press. */
  lemma PressReleasePress(t: Tracker, n1: int, n2: int, n3: int)
    ensures Track(Track(Track(t, VInt(5), n1), VInt(0), n2), VInt(5), n3) == Track(t, VInt(5), n1)
  {
    TrackFalsy(Track(t, VInt(5), n1), VInt(0), n2);
    TrackTwice(t, VInt(5), n1, n3);
  }

  /** `now - change_timestamp <= timeout`: the bound is inclusive. */
  predicate Recent(t: Tracker, now: int, timeout: int) {
    now - t.timestamp <= timeout
  }

  /**
   * After a new press seen at `seen`, the port reads true at every later time up to and
   * including `seen + timeout` and false after, as long as no other press arrives.
   */
  lemma PressWindow(t: Tracker, value: Value, seen: int, later: int, timeout: int)
    requires Truthy(value) && value != t.last
    ensures Recent(Track(t, value, seen), later, timeout) <==> later <= seen + timeout
  {
  }

  class RemoteButtonPort {
    const remote: int
    const button: string
    const timeout: int
    var lastButtonValue: Value
    var changeTimestamp: int

    function Tracked(): Tracker
      reads this
    {
      Tracker(lastButtonValue, changeTimestamp)
    }

    constructor (remote: int, button: string, timeout: int)
      ensures this.remote == remote && this.button == button && this.timeout == timeout
      ensures Tracked() == INITIAL
    {
      this.remote := remote;
      this.button := button;
      this.timeout := timeout;
      lastButtonValue := VInt(0);
      changeTimestamp := 0;
    }

    /** `read_value` at time `now`. */
    method ReadValue(s: Store, now: int) returns (r: Result<bool, PyError>)
      modifies this
      ensures ButtonValue(s, remote, button).Err? ==> Tracked() == old(Tracked()) && r == Err(AttributeError)
      ensures ButtonValue(s, remote, button).Ok? ==>
        && Tracked() == Track(old(Tracked()), ButtonValue(s, remote, button).value, now)
        && r == Ok(Recent(Tracked(), now, timeout))
    {
      var value := ButtonValue(s, remote, button);
      if value.Err? {
        return Err(value.error);
      }
      if Truthy(value.value) && value.value != lastButtonValue {
        lastButtonValue := value.value;
        changeTimestamp := now;
      }
      r := Ok(now - changeTimestamp <= timeout);
    }
  }

  /** The aggregate port's two dicts, `last_button_values` and `change_timestamps`. */
  datatype Trackers = Trackers(lastValues: map<int, Value>, timestamps: map<int, int>)

  /** One remote's entries, 0 where the dicts have none (`.get(remote, 0)`). */
  function At(ts: Trackers, remote: int): Tracker {
    Tracker(if remote in ts.lastValues then ts.lastValues[remote] else VInt(0),
            if remote in ts.timestamps then ts.timestamps[remote] else 0)
  }

  /** One remote's step of the first loop: both entries are written only when the value is new. */
  function TrackAt(ts: Trackers, remote: int, value: Value, now: int): (r: Trackers)
    ensures At(r, remote) == Track(At(ts, remote), value, now)
    ensures forall q :: q != remote ==> At(r, q) == At(ts, q)
  {
    var t := At(ts, remote);
    if Truthy(value) && value != t.last then
      Trackers(ts.lastValues[remote := value], ts.timestamps[remote := now])
    else ts
  }

  /** The dicts after the first loop and the exception that stopped it, if one did. */
  datatype Tracked = Tracked(trackers: Trackers, error: Option<PyError>)

  /** The first loop of `read_value`, over the remotes in order, stopping at a raising lookup. */
  function TrackRemotes(s: Store, remotes: seq<int>, button: string, ts: Trackers, now: int): Tracked
    decreases |remotes|
  {
    if |remotes| == 0 then Tracked(ts, None)
    else
      match RawButtonValue(s, remotes[0], button)
      case Err(e) => Tracked(ts, Some(e))
      case Ok(v) => TrackRemotes(s, remotes[1..], button, TrackAt(ts, remotes[0], v, now), now)
  }

  /** No remote of the list is stored as a single value, so no lookup raises. */
  predicate AllReadable(s: Store, remotes: seq<int>) {
    forall k :: 0 <= k < |remotes| ==> !HoldsScalar(s, USER, VInt(remotes[k]))
  }

  /**
   * The aggregate tracks every listed remote exactly as a single-remote port would (a remote
   * listed twice is seen twice, to the same effect) and leaves every other remote alone.
   */
  lemma {:induction false} TrackRemotesIndependent(s: Store, remotes: seq<int>, button: string, ts: Trackers, now: int, q: int)
    requires AllReadable(s, remotes)
    ensures TrackRemotes(s, remotes, button, ts, now).error.None?
    ensures At(TrackRemotes(s, remotes, button, ts, now).trackers, q) ==
      if q in remotes then Track(At(ts, q), RawButtonValue(s, q, button).value, now) else At(ts, q)
    decreases |remotes|
  {
    if |remotes| > 0 {
      var r0 := remotes[0];
      assert !HoldsScalar(s, USER, VInt(r0));
      var v0 := RawButtonValue(s, r0, button).value;
      var ts1 := TrackAt(ts, r0, v0, now);
      assert AllReadable(s, remotes[1..]) by {
        forall k | 0 <= k < |remotes[1..]|
          ensures !HoldsScalar(s, USER, VInt(remotes[1..][k]))
        {
          assert remotes[1..][k] == remotes[k + 1];
        }
      }
      TrackRemotesIndependent(s, remotes[1..], button, ts1, now, q);
      assert q in remotes <==> q == r0 || q in remotes[1..] by {
        assert remotes == [r0] + remotes[1..];
      }
      if q == r0 && q in remotes[1..] {
        TrackTwice(At(ts, q), v0, now, now);
      }
    }
  }

  /** The single port and the aggregate read the same stored value the same way: `or 0` changes nothing a tracker sees. */
  lemma RawAndDefaultedAgree(s: Store, remote: int, button: string, t: Tracker, now: int)
    requires !HoldsScalar(s, USER, VInt(remote))
    ensures Track(t, RawButtonValue(s, remote, button).value, now) == Track(t, ButtonValue(s, remote, button).value, now)
  {
  }

  /** The second loop's test: some listed remote changed no more than `timeout` ms ago. */
  predicate AnyRecent(ts: Trackers, remotes: seq<int>, now: int, timeout: int) {
    exists k :: 0 <= k < |remotes| && Recent(At(ts, remotes[k]), now, timeout)
  }

  class AnyRemoteButtonPort {
    const remotes: seq<int>
    const button: string
    const timeout: int
    var lastButtonValues: map<int, Value>
    var changeTimestamps: map<int, int>

    function Current(): Trackers
      reads this
    {
      Trackers(lastButtonValues, changeTimestamps)
    }

    constructor (remotes: seq<int>, button: string, timeout: int)
      ensures this.remotes == remotes && this.button == button && this.timeout == timeout
      ensures lastButtonValues == map[] && changeTimestamps == map[]
    {
      this.remotes := remotes;
      this.button := button;
      this.timeout := timeout;
      lastButtonValues := map[];
      changeTimestamps := map[];
    }

    /**
     * `read_value` at time `now`: update every listed remote, then read true when any of them
     * is recent (false for an empty list). A raising lookup stops the update part-way.
     */
    method ReadValue(s: Store, now: int) returns (r: Result<bool, PyError>)
      modifies this
      ensures Current() == TrackRemotes(s, remotes, button, old(Current()), now).trackers
      ensures TrackRemotes(s, remotes, button, old(Current()), now).error.Some? ==>
        r == Err(TrackRemotes(s, remotes, button, old(Current()), now).error.value)
      ensures TrackRemotes(s, remotes, button, old(Current()), now).error.None? ==>
        r == Ok(AnyRecent(Current(), remotes, now, timeout))
    {
      var i := 0;
      while i < |remotes|
        invariant 0 <= i <= |remotes|
        invariant TrackRemotes(s, remotes, button, old(Current()), now) == TrackRemotes(s, remotes[i..], button, Current(), now)
      {
        var remote := remotes[i];
        var value := RawButtonValue(s, remote, button);
        assert remotes[i..][0] == remote && remotes[i..][1..] == remotes[i + 1..];
        if value.Err? {
          return Err(value.error);
        }
        var last := if remote in lastButtonValues then lastButtonValues[remote] else VInt(0);
        if Truthy(value.value) && value.value != last {
          lastButtonValues := lastButtonValues[remote := value.value];
          changeTimestamps := changeTimestamps[remote := now];
        }
        i := i + 1;
      }
      r := AnyRecentOf(now);
    }

    /** The second loop: the first recent remote answers true. */
    method AnyRecentOf(now: int) returns (r: Result<bool, PyError>)
      ensures r == Ok(AnyRecent(Current(), remotes, now, timeout))
      ensures remotes == [] ==> r == Ok(false)
    {
      var i := 0;
      while i < |remotes|
        invariant 0 <= i <= |remotes|
        invariant forall k :: 0 <= k < i ==> !Recent(At(Current(), remotes[k]), now, timeout)
      {
        var remote := remotes[i];
        var ts := if remote in changeTimestamps then changeTimestamps[remote] else 0;
        if now - ts <= timeout {
          return Ok(true);
        }
        i := i + 1;
      }
      r := Ok(false);
    }
  }
}
