/**
 * What every port of the integration does with the peripheral's store: read one property of
 * its own entity through `get_property(type, id, name)`, build its id from an entity number,
 * and fall back to a generated display label when the stored one is missing or empty.
 */
module PortReads {
  import opened Wrappers
  import opened PyValues
  import opened OrderedDicts
  import opened PropertyStore

  /**
   * `peripheral.get_property(kind, id, name)` for an entity type: the stored value, None when
   * any level is missing, AttributeError when the id holds a single value instead of a record.
   */
  function ReadProperty(s: Store, kind: string, id: Value, name: string): (r: Result<Value, PyError>)
    requires kind != SYSTEM
    ensures r.Err? <==> HoldsScalar(s, kind, id)
    ensures r.Err? ==> r.error == AttributeError
    ensures r.Ok? ==> r.value == EntityProp(s, kind, id, VStr(name)).GetOr(VNone)
  {
    var g := GetProperty(s, kind, id, VStr(name));
    if g.Err? then Err(g.error) else Ok(g.value.value)
  }

  /** `f'{prefix}{n}.{suffix}'`, the shape of every numbered port id. */
  function PortId(prefix: string, n: int, suffix: string): (r: string)
    ensures |r| == |prefix| + |IntStr(n)| + 1 + |suffix|
    ensures r[..|prefix|] == prefix && r[|r| - |suffix|..] == suffix
  {
    prefix + IntStr(n) + "." + suffix
  }

  /**
   * Ports of one kind with different numbers or different suffixes get different ids: the
   * number is read back from the text up to the first '.'.
   */
  lemma PortIdInjective(prefix: string, n: int, m: int, x: string, y: string)
    requires PortId(prefix, n, x) == PortId(prefix, m, y)
    ensures n == m && x == y
  {
    var a := PortId(prefix, n, x);
    var t := a[|prefix|..];
    assert t == IntStr(n) + ['.'] + x;
    assert t == IntStr(m) + ['.'] + y;
    IntStrNoDot(n);
    IntStrNoDot(m);
    SplitAfterPiece(IntStr(n), '.', x);
    SplitAfterPiece(IntStr(m), '.', y);
    assert IntStr(n) == Split(t, '.')[0] == IntStr(m);
    IntStrInjective(n, m);
    assert x == t[|IntStr(n)| + 1..] == y;
  }

  /** The decimal form of an int holds no '.'. */
  lemma IntStrNoDot(i: int)
    ensures '.' !in IntStr(i)
  {
    IntStrChars(i);
    assert !IsDigit('.');
  }

  /**
   * `self.get_property('label') or f'{noun} {n}'`: the stored label when it is truthy, the
   * generated one otherwise (missing, None or empty).
   */
  function LabelOr(stored: Value, noun: string, n: int): (r: Value)
    ensures Truthy(stored) ==> r == stored
    ensures !Truthy(stored) ==> r == VStr(noun + " " + IntStr(n))
    ensures Truthy(r)
  {
    Or(stored, VStr(noun + " " + IntStr(n)))
  }
}
