/**
 * Byte-level helpers shared by both proxies: the `>H` big-endian port encoding of
 * `struct.pack`/`struct.unpack`, and the dotted-decimal text that `socket.inet_ntoa`
 * produces for an IPv4 address (then `.encode()`d to ASCII bytes).
 */
module Bytes {
  import opened Wrappers

  newtype byte = x: int | 0 <= x < 256

  /** Appending is associative; stated once so that callers need not prove it by extensionality. */
  lemma AppendAssociative<T>(a: seq<T>, b: seq<T>, c: seq<T>)
    ensures a + b + c == a + (b + c)
  {
  }

  // ---------------------------------------------------------------------------
  // Big-endian 16-bit ports
  // ---------------------------------------------------------------------------

  /** `struct.pack('>H', port)`. */
  function BigEndian16(port: nat): (b: seq<byte>)
    requires port < 0x1_0000
    ensures |b| == 2
  {
    [(port / 256) as byte, (port % 256) as byte]
  }

  /** `struct.unpack('>H', b)[0]`: the port whose big-endian form is `b`. */
  function PortOf(b: seq<byte>): (port: nat)
    requires |b| == 2
    ensures port < 0x1_0000
  {
    b[0] as nat * 256 + b[1] as nat
  }

  lemma PortOfBigEndian16(port: nat)
    requires port < 0x1_0000
    ensures PortOf(BigEndian16(port)) == port
  {
  }

  /** Two port bytes survive unpacking and re-packing unchanged. */
  lemma BigEndian16PortOf(b: seq<byte>)
    requires |b| == 2
    ensures BigEndian16(PortOf(b)) == b
  {
    var p := PortOf(b);
    assert p / 256 == b[0] as nat && p % 256 == b[1] as nat;
  }

  // ---------------------------------------------------------------------------
  // Decimal text of a byte, as ASCII
  // ---------------------------------------------------------------------------

  const Dot: byte := 46        // '.'
  const Zero: byte := 48       // '0'

  predicate IsDigit(c: byte) {
    Zero <= c < Zero + 10
  }

  predicate AllDigits(s: seq<byte>) {
    forall i :: 0 <= i < |s| ==> IsDigit(s[i])
  }

  /** `str(n).encode()`: the shortest decimal spelling of `n`. */
  function DecimalText(n: nat): (s: seq<byte>)
    ensures 1 <= |s|
    ensures AllDigits(s)
    ensures n < 10 <==> |s| == 1
    ensures |s| > 1 ==> s[0] != Zero
    ensures n < 100 ==> |s| <= 2
    ensures n < 1000 ==> |s| <= 3
  {
    if n < 10 then [(Zero as int + n) as byte]
    else DecimalText(n / 10) + [(Zero as int + n % 10) as byte]
  }

  /** The number a string of decimal digits spells (the inverse of `DecimalText`). */
  function DecimalValue(s: seq<byte>): nat
    requires AllDigits(s)
  {
    if s == [] then 0
    else DecimalValue(s[..|s| - 1]) * 10 + (s[|s| - 1] - Zero) as nat
  }

  lemma {:induction false} DecimalValueOfText(n: nat)
    ensures DecimalValue(DecimalText(n)) == n
  {
    if n >= 10 {
      var s := DecimalText(n);
      assert s[..|s| - 1] == DecimalText(n / 10);
      DecimalValueOfText(n / 10);
    }
  }

  // ---------------------------------------------------------------------------
  // Dotted-decimal IPv4 text and its parser
  // ---------------------------------------------------------------------------

  /** `b'.'.join(fields)`. */
  function Join(fields: seq<seq<byte>>): seq<byte>
    requires |fields| >= 1
  {
    if |fields| == 1 then fields[0] else fields[0] + [Dot] + Join(fields[1..])
  }

  /** The decimal text of each byte of `raw`, in order. */
  function DecimalFields(raw: seq<byte>): seq<seq<byte>> {
    seq(|raw|, i requires 0 <= i < |raw| => DecimalText(raw[i] as nat))
  }

  /** `socket.inet_ntoa(raw).encode()` for the 4 raw bytes of an IPv4 address. */
  function Dotted(raw: seq<byte>): seq<byte>
    requires |raw| == 4
  {
    Join(DecimalFields(raw))
  }

  lemma DottedLength(raw: seq<byte>)
    requires |raw| == 4
    ensures 7 <= |Dotted(raw)| <= 15
  {
    var fields := DecimalFields(raw);
    assert Join(fields[3..]) == fields[3];
    assert Join(fields[2..]) == fields[2] + [Dot] + fields[3];
    assert Join(fields[1..]) == fields[1] + [Dot] + Join(fields[2..]);
  }

  /** The fields of `s` between dots, `s.split(b'.')`. */
  function Fields(s: seq<byte>): (fs: seq<seq<byte>>)
    ensures |fs| >= 1
  {
    if s == [] then [[]]
    else
      var rest := Fields(s[1..]);
      if s[0] == Dot then [[]] + rest
      else [[s[0]] + rest[0]] + rest[1..]
  }

  predicate IsOctetText(f: seq<byte>) {
    1 <= |f| <= 3 && AllDigits(f) && DecimalValue(f) < 256
  }

  /** Reads dotted-decimal text back into 4 raw address bytes. */
  function ParseDotted(s: seq<byte>): Option<seq<byte>> {
    var fs := Fields(s);
    if |fs| == 4 && IsOctetText(fs[0]) && IsOctetText(fs[1]) && IsOctetText(fs[2]) && IsOctetText(fs[3])
    then Some([DecimalValue(fs[0]) as byte, DecimalValue(fs[1]) as byte,
               DecimalValue(fs[2]) as byte, DecimalValue(fs[3]) as byte])
    else None
  }

  lemma {:induction false} FieldsOfDotFree(x: seq<byte>)
    requires Dot !in x
    ensures Fields(x) == [x]
  {
    if x != [] {
      FieldsOfDotFree(x[1..]);
      assert [x[0]] + x[1..] == x;
    }
  }

  lemma {:induction false} FieldsSplitAtDot(x: seq<byte>, y: seq<byte>)
    requires Dot !in x
    ensures Fields(x + [Dot] + y) == [x] + Fields(y)
  {
    if x == [] {
      assert x + [Dot] + y == [Dot] + y;
      assert ([Dot] + y)[1..] == y;
    } else {
      var s := x + [Dot] + y;
      assert s[1..] == x[1..] + [Dot] + y;
      FieldsSplitAtDot(x[1..], y);
      assert [x[0]] + x[1..] == x;
    }
  }

  /** Splitting a join of dot-free fields gives the fields back. */
  lemma {:induction false} FieldsOfJoin(fields: seq<seq<byte>>)
    requires |fields| >= 1
    requires forall i :: 0 <= i < |fields| ==> Dot !in fields[i]
    ensures Fields(Join(fields)) == fields
  {
    if |fields| == 1 {
      FieldsOfDotFree(fields[0]);
    } else {
      FieldsOfJoin(fields[1..]);
      FieldsSplitAtDot(fields[0], Join(fields[1..]));
      assert [fields[0]] + fields[1..] == fields;
    }
  }

  lemma DecimalTextIsDotFree(n: nat)
    ensures Dot !in DecimalText(n)
  {
  }

  /** Dotted-decimal text determines the address it was made from. */
  lemma ParseDottedOfDotted(raw: seq<byte>)
    requires |raw| == 4
    ensures ParseDotted(Dotted(raw)) == Some(raw)
  {
    var fields := DecimalFields(raw);
    forall i | 0 <= i < 4
      ensures Dot !in fields[i] && DecimalValue(fields[i]) == raw[i] as nat
    {
      DecimalTextIsDotFree(raw[i] as nat);
      DecimalValueOfText(raw[i] as nat);
    }
    FieldsOfJoin(fields);
    assert [raw[0], raw[1], raw[2], raw[3]] == raw;
  }

  lemma DottedInjective(a: seq<byte>, b: seq<byte>)
    requires |a| == 4 && |b| == 4
    ensures Dotted(a) == Dotted(b) <==> a == b
  {
    if Dotted(a) == Dotted(b) {
      ParseDottedOfDotted(a);
      ParseDottedOfDotted(b);
    }
  }
}
