/**
 * The Python values the panel integration stores and compares, Python's truthiness and `or`,
 * the exceptions its code raises, and the string operations it uses: `str(int)`, `int(str)`,
 * `str.split`, `str.startswith` and `str.endswith`.
 */
module PyValues {
  import opened Wrappers

  /** A scalar Python value as the panel client reports it: None, a bool, an int or a str. */
  datatype Value = VNone | VBool(b: bool) | VInt(i: int) | VStr(s: string)

  /** The exceptions raised by the modelled code (`CommandError` is the integration's own). */
  datatype PyError = KeyError | TypeError | AttributeError | ValueError | StopIteration | CommandError

  /** Python's `bool(v)`. */
  predicate Truthy(v: Value) {
    match v
    case VNone => false
    case VBool(b) => b
    case VInt(i) => i != 0
    case VStr(s) => s != ""
  }

  /** Python's `v or default`: the first operand when it is truthy, the second otherwise. */
  function Or(v: Value, default: Value): (r: Value)
    ensures Truthy(v) ==> r == v
    ensures !Truthy(v) ==> r == default
  {
    if Truthy(v) then v else default
  }

  predicate StartsWith(s: string, prefix: string) {
    |prefix| <= |s| && s[..|prefix|] == prefix
  }

  predicate EndsWith(s: string, suffix: string) {
    |suffix| <= |s| && s[|s| - |suffix|..] == suffix
  }

  predicate IsDigit(c: char) {
    '0' <= c <= '9'
  }

  function DigitChar(d: nat): (c: char)
    requires d < 10
    ensures IsDigit(c)
  {
    ['0', '1', '2', '3', '4', '5', '6', '7', '8', '9'][d]
  }

  function DigitValue(c: char): (d: nat)
    requires IsDigit(c)
    ensures d < 10
  {
    (c as int - '0' as int) as nat
  }

  /** `str(n)` for a non-negative n: decimal digits, no leading zero. */
  function NatStr(n: nat): (s: string)
    decreases n
  {
    if n < 10 then [DigitChar(n)] else NatStr(n / 10) + [DigitChar(n % 10)]
  }

  /** Python's `str(i)` for an int. */
  function IntStr(i: int): string {
    if i < 0 then "-" + NatStr(-i) else NatStr(i)
  }

  /** The value of a string of decimal digits, read left to right. */
  function DigitsValue(s: string): nat
    requires forall k :: 0 <= k < |s| ==> IsDigit(s[k])
  {
    if |s| == 0 then 0 else 10 * DigitsValue(s[..|s| - 1]) + DigitValue(s[|s| - 1])
  }

  predicate AllDigits(s: string) {
    forall k :: 0 <= k < |s| ==> IsDigit(s[k])
  }

  /**
   * Python's `int(s)` on the forms the address parser meets: an optional sign followed by one
   * or more ASCII digits. Anything else is the ValueError that `int()` raises.
   */
  function ParseInt(s: string): (r: Result<int, PyError>)
    ensures r.Ok? <==> (|s| > 0 && (
      if s[0] == '-' || s[0] == '+' then |s| > 1 && AllDigits(s[1..]) else AllDigits(s)))
  {
    if |s| == 0 then Err(ValueError)
    else if s[0] == '-' || s[0] == '+' then
      if |s| > 1 && AllDigits(s[1..]) then
        Ok(if s[0] == '-' then 0 - DigitsValue(s[1..]) as int else DigitsValue(s[1..]))
      else Err(ValueError)
    else if AllDigits(s) then Ok(DigitsValue(s))
    else Err(ValueError)
  }

  /** Python's `s.split(sep)`: never empty; adjacent separators give empty pieces. */
  function Split(s: string, sep: char): (r: seq<string>)
    ensures |r| >= 1
    ensures forall k :: 0 <= k < |r| ==> sep !in r[k]
    decreases |s|
  {
    if |s| == 0 then [""]
    else
      var rest := Split(s[1..], sep);
      if s[0] == sep then [""] + rest
      else [[s[0]] + rest[0]] + rest[1..]
  }

  /** Python's `sep.join(parts)`. */
  function Join(parts: seq<string>, sep: char): string
    requires |parts| >= 1
  {
    if |parts| == 1 then parts[0] else parts[0] + [sep] + Join(parts[1..], sep)
  }

  lemma {:induction false} NatStrDigits(n: nat)
    ensures |NatStr(n)| >= 1 && AllDigits(NatStr(n))
    decreases n
  {
    if n >= 10 {
      NatStrDigits(n / 10);
    }
  }

  /** `int(str(n)) == n` for a non-negative n: reading back the digits gives the number. */
  lemma {:induction false} DigitsValueNatStr(n: nat)
    ensures AllDigits(NatStr(n)) && DigitsValue(NatStr(n)) == n
    decreases n
  {
    NatStrDigits(n);
    if n >= 10 {
      var s := NatStr(n);
      DigitsValueNatStr(n / 10);
      assert s[..|s| - 1] == NatStr(n / 10);
    }
  }

  /** Every character of `str(i)` is a digit or the leading minus sign. */
  lemma IntStrChars(i: int)
    ensures |IntStr(i)| >= 1
    ensures forall k :: 0 <= k < |IntStr(i)| ==> IsDigit(IntStr(i)[k]) || (k == 0 && IntStr(i)[k] == '-')
  {
    if i < 0 { NatStrDigits(-i); } else { NatStrDigits(i); }
  }

  /** `int(str(i)) == i`: Python's integer formatting and parsing are inverse. */
  lemma IntStrRoundTrip(i: int)
    ensures ParseInt(IntStr(i)) == Ok(i)
  {
    var s := IntStr(i);
    if i < 0 {
      DigitsValueNatStr(-i);
      assert s[0] == '-' && s[1..] == NatStr(-i);
      assert AllDigits(s[1..]) && DigitsValue(s[1..]) == -i;
    } else {
      DigitsValueNatStr(i);
      assert s == NatStr(i) && |s| >= 1;
      assert IsDigit(s[0]);
      assert s[0] != '-' && s[0] != '+';
    }
  }

  /** Different ints have different decimal forms. */
  lemma IntStrInjective(i: int, j: int)
    requires IntStr(i) == IntStr(j)
    ensures i == j
  {
    IntStrRoundTrip(i);
    IntStrRoundTrip(j);
  }

  /** Splitting `p + sep + q` where p holds no separator yields p followed by the pieces of q. */
  lemma {:induction false} SplitAfterPiece(p: string, sep: char, q: string)
    requires sep !in p
    ensures Split(p + [sep] + q, sep) == [p] + Split(q, sep)
    decreases |p|
  {
    if |p| == 0 {
      assert p + [sep] + q == [sep] + q;
      assert ([sep] + q)[1..] == q;
    } else {
      var s := p + [sep] + q;
      assert s[1..] == p[1..] + [sep] + q;
      SplitAfterPiece(p[1..], sep, q);
      assert [p[0]] + p[1..] == p;
    }
  }

  /** A string without the separator splits into itself alone. */
  lemma {:induction false} SplitNoSeparator(s: string, sep: char)
    requires sep !in s
    ensures Split(s, sep) == [s]
    decreases |s|
  {
    if |s| > 0 {
      SplitNoSeparator(s[1..], sep);
      assert [s[0]] + s[1..] == s;
    }
  }

  /** `sep.join(s.split(sep)) == s`: splitting loses nothing. */
  lemma {:induction false} JoinSplit(s: string, sep: char)
    ensures Join(Split(s, sep), sep) == s
    decreases |s|
  {
    if |s| > 0 {
      var rest := Split(s[1..], sep);
      JoinSplit(s[1..], sep);
      if s[0] == sep {
        assert ([""] + rest)[1..] == rest;
      } else {
        var r := [[s[0]] + rest[0]] + rest[1..];
        if |rest| == 1 {
          assert [s[0]] + s[1..] == s;
        } else {
          assert r[1..] == rest[1..];
          assert Join(rest, sep) == rest[0] + [sep] + Join(rest[1..], sep);
          assert [s[0]] + s[1..] == s;
        }
      }
    }
  }

  /** `s.split(sep)` has one piece more than `s` has separators. */
  lemma {:induction false} SplitLength(s: string, sep: char)
    ensures |Split(s, sep)| == multiset(s)[sep] + 1
    decreases |s|
  {
    if |s| > 0 {
      SplitLength(s[1..], sep);
      assert s == [s[0]] + s[1..];
      assert multiset(s) == multiset([s[0]]) + multiset(s[1..]);
    }
  }

  /** A byte of a Python `bytes` value. */
  type Byte = b: int | 0 <= b < 256

  /** The UTF-8 encoding of one character (`str.encode()` with the default codec). */
  function CharUtf8(c: char): (r: seq<Byte>)
    ensures 1 <= |r| <= 4
    ensures (c as int) < 0x80 <==> |r| == 1
  {
    var cp := c as int;
    var b0: Byte := cp % 0x40;
    var b1: Byte := (cp / 0x40) % 0x40;
    var b2: Byte := (cp / 0x1000) % 0x40;
    if cp < 0x80 then [cp]
    else if cp < 0x800 then [0xC0 + cp / 0x40, 0x80 + b0]
    else if cp < 0x1_0000 then [0xE0 + cp / 0x1000, 0x80 + b1, 0x80 + b0]
    else [0xF0 + cp / 0x4_0000, 0x80 + b2, 0x80 + b1, 0x80 + b0]
  }

  /** `s.encode()`: the UTF-8 bytes of a string, character by character. */
  function Utf8Encode(s: string): seq<Byte> {
    if |s| == 0 then [] else CharUtf8(s[0]) + Utf8Encode(s[1..])
  }

  /** The code point a UTF-8 sequence of 1 to 4 bytes starting with a lead byte stands for. */
  function CharFromUtf8(b: seq<Byte>): int
    requires 1 <= |b| <= 4
  {
    if |b| == 1 then b[0]
    else if |b| == 2 then (b[0] as int - 0xC0) * 0x40 + (b[1] as int - 0x80)
    else if |b| == 3 then (b[0] as int - 0xE0) * 0x1000 + (b[1] as int - 0x80) * 0x40 + (b[2] as int - 0x80)
    else (b[0] as int - 0xF0) * 0x4_0000 + (b[1] as int - 0x80) * 0x1000 + (b[2] as int - 0x80) * 0x40 + (b[3] as int - 0x80)
  }

  /** How many bytes the sequence led by byte `lead` takes. */
  function Utf8Width(lead: Byte): nat {
    if lead < 0x80 then 1 else if lead < 0xE0 then 2 else if lead < 0xF0 then 3 else 4
  }

  /** `b.decode()` on well-formed UTF-8: inverse of `Utf8Encode` (see `Utf8RoundTrip`). */
  function Utf8Decode(b: seq<Byte>): seq<int>
    decreases |b|
  {
    if |b| == 0 then []
    else
      var w := Utf8Width(b[0]);
      if w > |b| then [] else [CharFromUtf8(b[..w])] + Utf8Decode(b[w..])
  }

  lemma CharUtf8RoundTrip(c: char)
    ensures Utf8Width(CharUtf8(c)[0]) == |CharUtf8(c)|
    ensures CharFromUtf8(CharUtf8(c)) == c as int
  {
    var cp := c as int;
    var b0 := cp % 0x40;
    var b1 := (cp / 0x40) % 0x40;
    var b2 := (cp / 0x1000) % 0x40;
    if cp < 0x80 {
    } else if cp < 0x800 {
      assert cp == (cp / 0x40) * 0x40 + b0;
    } else if cp < 0x1_0000 {
      assert cp / 0x40 == (cp / 0x1000) * 0x40 + b1;
      assert cp == (cp / 0x40) * 0x40 + b0;
    } else {
      assert cp / 0x1000 == (cp / 0x4_0000) * 0x40 + b2;
      assert cp / 0x40 == (cp / 0x1000) * 0x40 + b1;
      assert cp == (cp / 0x40) * 0x40 + b0;
    }
  }

  /** Decoding the UTF-8 encoding of a string gives back its code points. */
  lemma {:induction false} Utf8RoundTrip(s: string)
    ensures Utf8Decode(Utf8Encode(s)) == seq(|s|, k requires 0 <= k < |s| => s[k] as int)
  {
    if |s| > 0 {
      var e := CharUtf8(s[0]);
      var rest := Utf8Encode(s[1..]);
      CharUtf8RoundTrip(s[0]);
      assert (e + rest)[0] == e[0];
      assert (e + rest)[..|e|] == e;
      assert (e + rest)[|e|..] == rest;
      Utf8RoundTrip(s[1..]);
    }
  }

  /** ASCII text encodes to its own character codes, one byte each. */
  lemma {:induction false} Utf8Ascii(s: string)
    requires forall k :: 0 <= k < |s| ==> (s[k] as int) < 0x80
    ensures Utf8Encode(s) == seq(|s|, k requires 0 <= k < |s| => s[k] as int)
  {
    if |s| > 0 {
      Utf8Ascii(s[1..]);
    }
  }
}
