/**
 * SOCKS5 wire frames (RFC 1928, sections 3, 4 and 6) as both proxies build them,
 * the upstream target header of the holosocks proxy, and, as reference definitions,
 * the parsers a SOCKS5 client or the upstream relay would apply to them and the
 * encoders a well-behaved SOCKS5 client sends.
 */
module Frames {
  import opened Wrappers
  import opened Bytes

  const Version: byte := 5
  const MethodNoAuth: byte := 0
  const MethodNoneAcceptable: byte := 0xFF
  const CmdConnect: byte := 1
  const AtypIPv4: byte := 1
  const AtypDomain: byte := 3
  const AtypIPv6: byte := 4
  const RepSucceeded: byte := 0
  const RepCommandNotSupported: byte := 7
  const RepAddressTypeNotSupported: byte := 8

  /** Bound address 0.0.0.0 (`inet_aton('0.0.0.0')`) and :: (`inet_pton(AF_INET6, '::')`). */
  function Zeros(n: nat): (z: seq<byte>)
    ensures |z| == n && forall i :: 0 <= i < n ==> z[i] == 0
  {
    seq(n, i => 0)
  }

  /**
   * The 4-byte bound address is the one `inet_ntoa` spells `0.0.0.0`, and that text
   * reads back as it: `inet_aton('0.0.0.0')` is `Zeros(4)`.
   */
  lemma ZerosAnyIPv4()
    ensures Dotted(Zeros(4)) == [Zero, Dot, Zero, Dot, Zero, Dot, Zero]
    ensures ParseDotted([Zero, Dot, Zero, Dot, Zero, Dot, Zero]) == Some(Zeros(4))
  {
    var z := Zeros(4);
    assert DecimalFields(z) == [[Zero], [Zero], [Zero], [Zero]];
    ParseDottedOfDotted(z);
  }

  // ---------------------------------------------------------------------------
  // Server -> client frames
  // ---------------------------------------------------------------------------

  /** Method-selection reply `VER METHOD`. */
  function MethodReply(chosen: byte): seq<byte> {
    [Version, chosen]
  }

  /** Reply `VER REP RSV ATYP BND.ADDR BND.PORT`. */
  function Reply(rep: byte, atyp: byte, bound: seq<byte>, port: nat): (r: seq<byte>)
    requires port < 0x1_0000
    ensures |r| == 6 + |bound|
  {
    [Version, rep, 0, atyp] + bound + BigEndian16(port)
  }

  /** Failure reply of the holosocks proxy: `rep`, bound to 0.0.0.0 port 0. */
  function ErrorReply(rep: byte): seq<byte> {
    Reply(rep, AtypIPv4, Zeros(4), 0)
  }

  /**
   * Success reply of the holosocks proxy: bound to 0.0.0.0:0 unless the client gave an
   * IPv6 destination, in which case to [::]:0.
   */
  function SuccessReply(atyp: byte): seq<byte> {
    if atyp != AtypIPv6 then Reply(RepSucceeded, AtypIPv4, Zeros(4), 0)
    else Reply(RepSucceeded, AtypIPv6, Zeros(16), 0)
  }

  datatype ReplyFields = ReplyFields(rep: byte, atyp: byte, bound: seq<byte>, port: nat)

  /** How a SOCKS5 client reads one complete reply frame. */
  function ParseReply(r: seq<byte>): Option<ReplyFields> {
    if |r| < 4 || r[0] != Version || r[2] != 0 then None
    else if r[3] == AtypIPv4 && |r| == 10 then Some(ReplyFields(r[1], r[3], r[4..8], PortOf(r[8..])))
    else if r[3] == AtypIPv6 && |r| == 22 then Some(ReplyFields(r[1], r[3], r[4..20], PortOf(r[20..])))
    else None
  }

  lemma ParseReplyOfReply(rep: byte, atyp: byte, bound: seq<byte>, port: nat)
    requires port < 0x1_0000
    requires (atyp == AtypIPv4 && |bound| == 4) || (atyp == AtypIPv6 && |bound| == 16)
    ensures ParseReply(Reply(rep, atyp, bound, port)) == Some(ReplyFields(rep, atyp, bound, port))
  {
    var r := Reply(rep, atyp, bound, port);
    assert r[4..4 + |bound|] == bound;
    assert r[4 + |bound|..] == BigEndian16(port);
    PortOfBigEndian16(port);
  }

  /** The holosocks error replies are 10 bytes: `05 rep 00 01`, then 0.0.0.0 and port 0. */
  lemma ErrorReplyMeaning(rep: byte)
    ensures ErrorReply(rep) == [5, rep, 0, 1, 0, 0, 0, 0, 0, 0]
    ensures ParseReply(ErrorReply(rep)) == Some(ReplyFields(rep, AtypIPv4, [0, 0, 0, 0], 0))
  {
    ParseReplyOfReply(rep, AtypIPv4, Zeros(4), 0);
    assert Zeros(4) == [0, 0, 0, 0];
  }

  /** The success reply reports REP 0 and an all-zero bound address of the right family. */
  lemma SuccessReplyMeaning(atyp: byte)
    ensures var f := if atyp != AtypIPv6 then ReplyFields(0, AtypIPv4, Zeros(4), 0)
                     else ReplyFields(0, AtypIPv6, Zeros(16), 0);
            ParseReply(SuccessReply(atyp)) == Some(f)
    ensures atyp != AtypIPv6 ==> SuccessReply(atyp) == [5, 0, 0, 1, 0, 0, 0, 0, 0, 0]
    ensures atyp == AtypIPv6 ==> SuccessReply(atyp) == [5, 0, 0, 4] + Zeros(16) + [0, 0]
  {
    if atyp != AtypIPv6 {
      ParseReplyOfReply(0, AtypIPv4, Zeros(4), 0);
      assert Zeros(4) == [0, 0, 0, 0];
    } else {
      ParseReplyOfReply(0, AtypIPv6, Zeros(16), 0);
    }
  }

  // ---------------------------------------------------------------------------
  // The holosocks upstream target header
  // ---------------------------------------------------------------------------

  datatype HeaderFields = HeaderFields(addr: seq<byte>, port: nat)

  /** `pack('>B', len(addr)) + addr + _port`: the header the remote relay receives. */
  function TargetHeader(addr: seq<byte>, portBytes: seq<byte>): (h: seq<byte>)
    requires |addr| < 256 && |portBytes| == 2
    ensures |h| == 3 + |addr| && h[0] as nat == |addr|
    ensures h[1..1 + |addr|] == addr && h[1 + |addr|..] == portBytes
  {
    [|addr| as byte] + addr + portBytes
  }

  /** How the remote relay reads a target header. */
  function ParseHeader(h: seq<byte>): Option<HeaderFields> {
    if |h| == 0 || |h| != 3 + h[0] as nat then None
    else Some(HeaderFields(h[1..1 + h[0] as nat], PortOf(h[1 + h[0] as nat..])))
  }

  lemma ParseHeaderOfTargetHeader(addr: seq<byte>, port: nat)
    requires |addr| < 256 && port < 0x1_0000
    ensures ParseHeader(TargetHeader(addr, BigEndian16(port))) == Some(HeaderFields(addr, port))
  {
    PortOfBigEndian16(port);
  }

  // ---------------------------------------------------------------------------
  // What a SOCKS5 client sends
  // ---------------------------------------------------------------------------

  datatype Address = IPv4(raw: seq<byte>) | DomainName(name: seq<byte>) | IPv6(raw: seq<byte>)

  predicate ValidAddress(a: Address) {
    match a
    case IPv4(raw) => |raw| == 4
    case DomainName(name) => |name| < 256
    case IPv6(raw) => |raw| == 16
  }

  function AtypOf(a: Address): byte {
    match a
    case IPv4(_) => AtypIPv4
    case DomainName(_) => AtypDomain
    case IPv6(_) => AtypIPv6
  }

  /** `ATYP DST.ADDR`. */
  function AddressField(a: Address): (f: seq<byte>)
    requires ValidAddress(a)
    ensures |f| >= 1 && f[0] == AtypOf(a)
  {
    match a
    case IPv4(raw) => [AtypIPv4] + raw
    case DomainName(name) => [AtypDomain, |name| as byte] + name
    case IPv6(raw) => [AtypIPv6] + raw
  }

  /** Version/method-selection message `VER NMETHODS METHODS`. */
  function ClientGreeting(methods: seq<byte>): seq<byte>
    requires |methods| < 256
  {
    [Version, |methods| as byte] + methods
  }

  /** Request `VER CMD RSV ATYP DST.ADDR DST.PORT`. */
  function ClientRequest(cmd: byte, a: Address, port: nat): seq<byte>
    requires ValidAddress(a) && port < 0x1_0000
  {
    [Version, cmd, 0] + AddressField(a) + BigEndian16(port)
  }
}
