/**
 * The peripheral of the oldest revision (`qtoggleserverparadox/base.py`): a serial-only
 * address `"<device>:<baud>"` formatted by the ports and split again by the peripheral, the
 * connection test, and a property store filled by unguarded label seeding and by push-apply
 * without any port notification.
 */
module LegacyPeripheral {
  import opened Wrappers
  import opened PyValues
  import opened OrderedDicts
  import opened PropertyStore
  import opened LabelSeeding

  /** `make_address(serial_port, serial_baud)`: `'{}:{}'.format(...)` of the two settings. */
  function MakeAddress(serialPort: string, serialBaud: string): (r: string)
    ensures |r| == |serialPort| + 1 + |serialBaud|
    ensures r[..|serialPort|] == serialPort && r[|serialPort|] == ':' && r[|serialPort| + 1..] == serialBaud
  {
    serialPort + ":" + serialBaud
  }

  /** `spit_address(address)`: `address.split(':')`. */
  function SplitAddress(address: string): (r: seq<string>)
    ensures |r| == multiset(address)[':'] + 1
    ensures Join(r, ':') == address
  {
    SplitLength(address, ':');
    JoinSplit(address, ':');
    Split(address, ':')
  }

  /**
   * `self._serial_port, self._serial_baud = self.spit_address(address)`: the unpack succeeds
   * exactly when the address holds one ':'; the baud stays a string.
   */
  function SerialSettings(address: string): (r: Result<(string, string), PyError>)
    ensures r.Ok? <==> multiset(address)[':'] == 1
    ensures r.Err? ==> r.error == ValueError
    ensures r.Ok? ==> MakeAddress(r.value.0, r.value.1) == address
  {
    var parts := SplitAddress(address);
    if |parts| == 2 then
      assert Join(parts[1..], ':') == parts[1];
      Ok((parts[0], parts[1]))
    else Err(ValueError)
  }

  /** Splitting a formatted address gives back the two settings when neither holds a ':'. */
  lemma AddressRoundTrip(serialPort: string, serialBaud: string)
    requires ':' !in serialPort && ':' !in serialBaud
    ensures SplitAddress(MakeAddress(serialPort, serialBaud)) == [serialPort, serialBaud]
    ensures SerialSettings(MakeAddress(serialPort, serialBaud)) == Ok((serialPort, serialBaud))
  {
    SplitAfterPiece(serialPort, ':', serialBaud);
    SplitNoSeparator(serialBaud, ':');
  }

  /** A port built with an int baud round-trips to its decimal form, which `int()` reads back. */
  lemma IntBaudRoundTrip(serialPort: string, baud: int)
    requires ':' !in serialPort
    ensures SerialSettings(MakeAddress(serialPort, IntStr(baud))) == Ok((serialPort, IntStr(baud)))
    ensures ParseInt(IntStr(baud)) == Ok(baud)
  {
    IntStrChars(baud);
    AddressRoundTrip(serialPort, IntStr(baud));
    IntStrRoundTrip(baud);
  }

  /** A device name with a ':' makes the peripheral's unpack fail. */
  lemma ColonInPortFails(serialPort: string, serialBaud: string)
    requires ':' in serialPort
    ensures SerialSettings(MakeAddress(serialPort, serialBaud)) == Err(ValueError)
  {
    var a := MakeAddress(serialPort, serialBaud);
    assert a == serialPort + ([':'] + serialBaud);
    assert multiset(a)[':'] == multiset(serialPort)[':'] + multiset([':'] + serialBaud)[':'];
    assert multiset([':'] + serialBaud)[':'] == 1 + multiset(serialBaud)[':'];
  }

  /** What the peripheral holds of the panel client: whether it has a panel and its connection, if any. */
  datatype Client = Client(hasPanel: bool, connection: Option<ClientConnection>)

  /** The client's connection object; `connected` is whatever value it reports. */
  datatype ClientConnection = ClientConnection(connected: Value)

  class PAIPeripheral {
    /** `self._serial_port`, `self._serial_baud`. */
    const serialPort: string
    const serialBaud: string
    /** `self._paradox`: the panel client, None while disconnected. */
    var client: Option<Client>
    /** Whether `self._panel_task` is set. */
    var panelTask: bool
    /** `self._properties`. */
    var properties: Store

    constructor (serialPort: string, serialBaud: string)
      ensures this.serialPort == serialPort && this.serialBaud == serialBaud
      ensures client.None? && !panelTask && properties == Empty()
    {
      this.serialPort := serialPort;
      this.serialBaud := serialBaud;
      client := None;
      panelTask := false;
      properties := Empty();
    }

    /**
     * `is_connected`: false without a client, without a panel or without a panel task;
     * otherwise the truth of the connection's `connected` (a missing connection has no such
     * attribute).
     */
    function IsConnected(): (r: Result<bool, PyError>)
      reads this
      ensures r == Ok(true) <==>
        client.Some? && client.value.hasPanel && panelTask &&
        client.value.connection.Some? && Truthy(client.value.connection.value.connected)
      ensures r.Err? <==> client.Some? && client.value.hasPanel && panelTask && client.value.connection.None?
      ensures r.Err? ==> r.error == AttributeError
    {
      match client
      case None => Ok(false)
      case Some(c) =>
        if !c.hasPanel then Ok(false)
        else if !panelTask then Ok(false)
        else
          match c.connection
          case None => Err(AttributeError)
          case Some(conn) => Ok(Truthy(conn.connected))
    }

    /** `get_property`. */
    function GetPropertyOf(kind: string, id: Value, name: Value): Result<Slot, PyError>
      reads this
    {
      GetProperty(properties, kind, id, name)
    }

    /** `parse_labels`, which subscripts `entry['label']` for every entry. */
    method ParseLabels(snap: Snapshot) returns (error: Option<PyError>)
      modifies this
      ensures Seeded(properties, error) == LabelSeeding.ParseLabels(old(properties), snap, false)
      ensures client == old(client) && panelTask == old(panelTask)
    {
      var r := SeedLabels(properties, snap, false);
      properties := r.store;
      error := r.error;
    }

    /** `handle_paradox_property_change`: the store step alone; no port is notified. */
    method HandlePropertyChange(snap: Snapshot, c: Change) returns (error: Option<PyError>)
      modifies this
      ensures properties == ApplyChange(old(properties), snap, c).store
      ensures error.Some? <==> ApplyChange(old(properties), snap, c).resolved.Err?
      ensures error.Some? ==> error.value == ApplyChange(old(properties), snap, c).resolved.error
      ensures client == old(client) && panelTask == old(panelTask)
    {
      var a := ApplyChange(properties, snap, c);
      properties := a.store;
      error := if a.resolved.Err? then Some(a.resolved.error) else None;
    }
  }

  /** The constructor: the address is unpacked first, so a malformed one raises before anything is set up. */
  method NewPeripheral(address: string) returns (p: PAIPeripheral?, error: Option<PyError>)
    ensures error.None? <==> SerialSettings(address).Ok?
    ensures error.Some? ==> p == null && error.value == ValueError
    ensures error.None? ==> p != null && fresh(p) && p.client.None? && !p.panelTask && p.properties == Empty()
    ensures error.None? ==> (p.serialPort, p.serialBaud) == SerialSettings(address).value
  {
    var settings := SerialSettings(address);
    if settings.Err? {
      return null, Some(settings.error);
    }
    p := new PAIPeripheral(settings.value.0, settings.value.1);
    error := None;
  }
}
