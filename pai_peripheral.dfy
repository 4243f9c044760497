/**
 * The peripheral of the middle revision (`qtoggleserver/paradox/ports/base.py`): the panel
 * address it parses into connection settings, and the property store it keeps with the same
 * seeding and push-apply steps as the newest revision, but without the diff pass.
 */
module PaiPeripheral {
  import opened Wrappers
  import opened PyValues
  import opened OrderedDicts
  import opened PropertyStore
  import opened LabelSeeding
  import opened Notifier

  const DEFAULT_SERIAL_BAUD: int := 9600
  const DEFAULT_IP_PORT: int := 10000
  const DEFAULT_IP_PASSWORD: string := "paradox"

  /** The connection settings `make_paradox` writes into the panel client's configuration. */
  datatype Connection =
    | Serial(serialPort: string, baud: int)
    | IP(host: string, port: int, password: seq<Byte>)

  /**
   * The address parsing of `make_paradox`. The address is split on ':'. A first segment that
   * starts with '/' names a serial device, whose baud is the second segment read as an int
   * (9600 without one). Any other first segment is an IP host: the port is the second segment
   * read as an int (10000 without one), the password the third segment ("paradox" without one),
   * encoded to bytes. Segments past the ones read are ignored; a segment `int()` rejects raises
   * ValueError.
   */
  function ParseAddress(address: string): (r: Result<Connection, PyError>)
    ensures r.Err? ==> r.error == ValueError
    ensures r.Err? <==> |Split(address, ':')| > 1 && ParseInt(Split(address, ':')[1]).Err?
    ensures r.Ok? ==> (r.value.Serial? <==> StartsWith(Split(address, ':')[0], "/"))
    ensures r.Ok? && r.value.Serial? ==> r.value.serialPort == Split(address, ':')[0]
    ensures r.Ok? && r.value.IP? ==> r.value.host == Split(address, ':')[0]
  {
    var parts := Split(address, ':');
    if StartsWith(parts[0], "/") then
      if |parts| > 1 then
        match ParseInt(parts[1])
        case Err(e) => Err(e)
        case Ok(baud) => Ok(Serial(parts[0], baud))
      else Ok(Serial(parts[0], DEFAULT_SERIAL_BAUD))
    else
      var password := if |parts| > 2 then parts[2] else DEFAULT_IP_PASSWORD;
      if |parts| > 1 then
        match ParseInt(parts[1])
        case Err(e) => Err(e)
        case Ok(port) => Ok(IP(parts[0], port, Utf8Encode(password)))
      else Ok(IP(parts[0], DEFAULT_IP_PORT, Utf8Encode(password)))
  }

  /** The decimal form of an int holds no ':', so it stays one segment. */
  lemma IntStrNoColon(i: int)
    ensures ':' !in IntStr(i)
  {
    IntStrChars(i);
  }

  /** `"<device>:<baud>"` parses back to that device and baud. */
  lemma SerialRoundTrip(device: string, baud: int)
    requires StartsWith(device, "/") && ':' !in device
    ensures ParseAddress(device + ":" + IntStr(baud)) == Ok(Serial(device, baud))
  {
    IntStrNoColon(baud);
    SplitAfterPiece(device, ':', IntStr(baud));
    SplitNoSeparator(IntStr(baud), ':');
    IntStrRoundTrip(baud);
  }

  /** Segments after the baud are ignored. */
  lemma SerialExtraSegments(device: string, baud: int, rest: string)
    requires StartsWith(device, "/") && ':' !in device
    ensures ParseAddress(device + ":" + IntStr(baud) + ":" + rest) == Ok(Serial(device, baud))
  {
    IntStrNoColon(baud);
    SplitAfterPiece(device, ':', IntStr(baud) + ":" + rest);
    SplitAfterPiece(IntStr(baud), ':', rest);
    assert device + ":" + IntStr(baud) + ":" + rest == device + [':'] + (IntStr(baud) + [':'] + rest);
    IntStrRoundTrip(baud);
  }

  /** A bare device path connects at 9600 baud. */
  lemma SerialDefaultBaud(device: string)
    requires StartsWith(device, "/") && ':' !in device
    ensures ParseAddress(device) == Ok(Serial(device, 9600))
  {
    SplitNoSeparator(device, ':');
  }

  /** `"<host>:<port>:<password>"` parses back to that host, port and the password's UTF-8 bytes. */
  lemma IPRoundTrip(host: string, port: int, password: string)
    requires !StartsWith(host, "/") && ':' !in host && ':' !in password
    ensures ParseAddress(host + ":" + IntStr(port) + ":" + password) == Ok(IP(host, port, Utf8Encode(password)))
  {
    var rest := IntStr(port) + [':'] + password;
    assert host + ":" + IntStr(port) + ":" + password == host + [':'] + rest;
    IntStrNoColon(port);
    SplitAfterPiece(host, ':', rest);
    SplitAfterPiece(IntStr(port), ':', password);
    SplitNoSeparator(password, ':');
    assert Split(host + [':'] + rest, ':') == [host, IntStr(port), password];
    IntStrRoundTrip(port);
  }

  /** `"<host>:<port>"` keeps the default password. */
  lemma IPDefaultPassword(host: string, port: int)
    requires !StartsWith(host, "/") && ':' !in host
    ensures ParseAddress(host + ":" + IntStr(port)) == Ok(IP(host, port, Utf8Encode("paradox")))
  {
    IntStrNoColon(port);
    SplitAfterPiece(host, ':', IntStr(port));
    SplitNoSeparator(IntStr(port), ':');
    IntStrRoundTrip(port);
  }

  /** A bare host connects to port 10000 with the password "paradox", sent as its ASCII bytes. */
  lemma IPDefaults(host: string)
    requires !StartsWith(host, "/") && ':' !in host
    ensures ParseAddress(host) == Ok(IP(host, 10000, Utf8Encode("paradox")))
    ensures Utf8Encode("paradox") == [0x70, 0x61, 0x72, 0x61, 0x64, 0x6F, 0x78]
  {
    SplitNoSeparator(host, ':');
    Utf8Ascii("paradox");
  }

  /** A second segment that is not an integer makes the whole address fail, serial or IP alike. */
  lemma BadNumber(first: string, segment: string, rest: string)
    requires ':' !in first && ':' !in segment && ParseInt(segment).Err?
    ensures ParseAddress(first + ":" + segment) == Err(ValueError)
    ensures ParseAddress(first + ":" + segment + ":" + rest) == Err(ValueError)
  {
    SplitAfterPiece(first, ':', segment);
    SplitNoSeparator(segment, ':');
    SplitAfterPiece(first, ':', segment + ":" + rest);
    SplitAfterPiece(segment, ':', rest);
    assert first + ":" + segment + ":" + rest == first + [':'] + (segment + [':'] + rest);
  }

  class PAIPeripheral {
    /** The peripheral's address as configured. */
    const address: string
    /** `self._properties`. */
    var properties: Store

    constructor (address: string)
      ensures this.address == address && properties == Empty()
    {
      this.address := address;
      properties := Empty();
    }

    /** The connection `make_paradox` configures for this peripheral's address. */
    function ConnectionOf(): (r: Result<Connection, PyError>)
    {
      ParseAddress(address)
    }

    /** `get_property`. */
    function GetPropertyOf(kind: string, id: Value, name: Value): Result<Slot, PyError>
      reads this
    {
      GetProperty(properties, kind, id, name)
    }

    /** `get_properties`. */
    function GetPropertiesOf(kind: string, id: Value): Properties
      reads this
    {
      GetProperties(properties, kind, id)
    }

    /** `parse_labels`, which skips entries without a `label`. */
    method ParseLabels(snap: Snapshot) returns (error: Option<PyError>)
      modifies this
      ensures Seeded(properties, error) == LabelSeeding.ParseLabels(old(properties), snap, true)
    {
      var r := SeedLabels(properties, snap, true);
      properties := r.store;
      error := r.error;
    }

    /** `handle_paradox_property_change`: the store step, then every port is notified. */
    method HandlePropertyChange(snap: Snapshot, c: Change, ports: seq<Observer>) returns (log: seq<Delivery>, error: Option<PyError>)
      modifies this
      ensures Outcome(properties, log, error) == HandleChange(old(properties), snap, c, ports)
    {
      var a := ApplyChange(properties, snap, c);
      properties := a.store;
      if a.resolved.Err? {
        return [], Some(a.resolved.error);
      }
      log := FanOut(ports, NotificationOf(c, a.resolved.value));
      error := None;
    }
  }
}
