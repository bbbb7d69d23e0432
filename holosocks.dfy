/**
 * The asyncio proxy `holosocks/sslocal.py`: the SOCKS5 CONNECT handshake of
 * `Server.handle`, the upstream preamble it sends, the one-direction pump
 * `Server.relay`, and `Server.close_transport`.
 *
 * `Negotiate` is the specification of `handle` as a function of everything the
 * client sends; `Server.Handle` follows the source step by step and is proved to
 * agree with it. The lemmas below state what the handshake promises.
 */
module Holosocks {
  import opened Wrappers
  import opened Bytes
  import opened Streams
  import opened Cipher
  import opened Frames

  datatype Rejection = BadVersion | NoAcceptableAuth | UnsupportedCommand | UnsupportedAddressType

  /** The destination as the handshake read it: ATYP, the address put in the header, the raw port bytes. */
  datatype Target = Target(atyp: byte, addr: seq<byte>, portBytes: seq<byte>)

  predicate WellFormed(t: Target) {
    |t.addr| < 256 && |t.portBytes| == 2
  }

  /** The target header sent (encrypted) to the upstream relay. */
  function Header(t: Target): seq<byte>
    requires WellFormed(t)
  {
    TargetHeader(t.addr, t.portBytes)
  }

  /**
   * How `handle` ends: a protocol rejection (reply, if any, written and connection
   * closed), a failed dial of the relay host (connection closed), a working tunnel,
   * or an exception escaping the coroutine because the client's bytes ran out (or
   * an IPv6 text longer than one length byte can hold); nothing is closed then.
   */
  datatype Outcome =
    | Rejected(reason: Rejection)
    | DialFailed(target: Target)
    | Connected(target: Target)
    | Aborted

  /** The outcome, all bytes written to the client, whether `handle` closed it, and how many bytes it read. */
  datatype Session = Session(outcome: Outcome, reply: seq<byte>, closed: bool, consumed: nat)

  /** `socket.inet_ntop(AF_INET6, raw).encode()`, a library call left opaque. */
  type Formatter = seq<byte> -> seq<byte>

  datatype AddressRead = Parsed(addr: seq<byte>, next: nat) | Truncated(next: nat) | Unsupported

  /** Reading DST.ADDR at offset `p` according to ATYP. */
  function ReadAddress(input: seq<byte>, p: nat, atyp: byte, ntop: Formatter): AddressRead {
    if atyp == AtypIPv4 then
      var raw := Take(input, p, 4);
      if |raw| != 4 then Truncated(p + |raw|) else Parsed(Dotted(raw), p + 4)
    else if atyp == AtypDomain then
      var len := Take(input, p, 1);
      if |len| == 0 then Truncated(p)
      else
        var name := Take(input, p + 1, len[0] as nat);
        Parsed(name, p + 1 + |name|)
    else if atyp == AtypIPv6 then
      var raw := Take(input, p, 16);
      if |raw| != 16 then Truncated(p + |raw|) else Parsed(ntop(raw), p + 16)
    else Unsupported
  }

  /** How the request phase ends once the dial of the relay host is tried for `t`. */
  function Dialled(t: Target, dialOk: bool, next: nat): Session {
    if dialOk then Session(Connected(t), SuccessReply(t.atyp), false, next)
    else Session(DialFailed(t), [], true, next)
  }

  /** The request phase, from offset `p`, after the client was told `05 00`. */
  function Request(input: seq<byte>, p: nat, dialOk: bool, ntop: Formatter): Session {
    var data := Take(input, p, 4);
    var p1 := p + |data|;
    if |data| != 4 then Session(Aborted, [], false, p1)
    else if data[1] != CmdConnect then
      Session(Rejected(UnsupportedCommand), ErrorReply(RepCommandNotSupported), true, p1)
    else
      match ReadAddress(input, p1, data[3], ntop)
      case Unsupported =>
        Session(Rejected(UnsupportedAddressType), ErrorReply(RepAddressTypeNotSupported), true, p1)
      case Truncated(p2) => Session(Aborted, [], false, p2)
      case Parsed(addr, p2) =>
        var portBytes := Take(input, p2, 2);
        var p3 := p2 + |portBytes|;
        if |portBytes| != 2 || |addr| > 255 then Session(Aborted, [], false, p3)
        else
          Dialled(Target(data[3], addr, portBytes), dialOk, p3)
  }

  /** How the version/method-selection phase ends: at offset `next` with `05 00` sent, or with `session`. */
  datatype Greeting = Accepted(next: nat) | Refused(session: Session)

  /** The version/method-selection phase. */
  function Greet(input: seq<byte>): Greeting {
    var request := Take(input, 0, 2);
    if |request| == 0 then Refused(Session(Aborted, [], false, 0))
    else if request[0] != Version then Refused(Session(Rejected(BadVersion), [], true, |request|))
    else if |request| < 2 then Refused(Session(Aborted, [], false, |request|))
    else
      var methods := Take(input, 2, request[1] as nat);
      if MethodNoAuth !in methods then
        Refused(Session(Rejected(NoAcceptableAuth), MethodReply(MethodNoneAcceptable), true, 2 + |methods|))
      else Accepted(2 + |methods|)
  }

  /** The whole handshake of one connection whose client sends `input`. */
  function Negotiate(input: seq<byte>, dialOk: bool, ntop: Formatter): Session {
    match Greet(input)
    case Refused(s) => s
    case Accepted(p) =>
      var s := Request(input, p, dialOk, ntop);
      s.(reply := MethodReply(MethodNoAuth) + s.reply)
  }

  /** The first bytes sent upstream: the IV in the clear, then the enciphered header. */
  function Preamble(engine: Engine, seed: Seed, header: seq<byte>): seq<byte> {
    seed.iv + engine(seed, [], Call(Encipher, header))
  }

  // ---------------------------------------------------------------------------
  // The relay pump
  // ---------------------------------------------------------------------------

  datatype Mode = S2R | R2S

  /**
   * What one iteration of the pump sees: a read returning `data` (empty at end of
   * stream) whose forwarded result then did or did not drain, or a read that raised.
   */
  datatype Round = Received(data: seq<byte>, drained: bool) | ReadFailed

  /** A round after which the pump does not read again. */
  predicate Halts(r: Round) {
    r.ReadFailed? || r.data == [] || !r.drained
  }

  /** The chunks the pump transforms and forwards, in read order. */
  function Chunks(rounds: seq<Round>): seq<seq<byte>> {
    if rounds == [] then []
    else match rounds[0]
      case ReadFailed => []
      case Received(data, drained) =>
        if data == [] then []
        else if !drained then [data]
        else [data] + Chunks(rounds[1..])
  }

  /** One step of `Chunks`, as the pump loop takes it. */
  lemma ChunksStep(rounds: seq<Round>, i: nat)
    requires i < |rounds|
    ensures Chunks(rounds[i..]) == (if Halts(rounds[i]) then (if rounds[i].ReadFailed? || rounds[i].data == [] then [] else [rounds[i].data])
                                    else [rounds[i].data] + Chunks(rounds[i + 1..]))
  {
    assert rounds[i..][1..] == rounds[i + 1..];
  }

  function CallOf(mode: Mode, data: seq<byte>): Call {
    if mode == S2R then Call(Encipher, data) else Call(Decipher, data)
  }

  function CallsFor(mode: Mode, chunks: seq<seq<byte>>): seq<Call> {
    seq(|chunks|, i requires 0 <= i < |chunks| => CallOf(mode, chunks[i]))
  }

  lemma CallsForSnoc(mode: Mode, chunks: seq<seq<byte>>, d: seq<byte>)
    ensures CallsFor(mode, chunks + [d]) == CallsFor(mode, chunks) + [CallOf(mode, d)]
  {
  }

  /** Exactly what `Chunks` forwards: the non-empty data of the leading rounds, up to the first that halts. */
  lemma {:induction false} ChunksMeaning(rounds: seq<Round>)
    ensures var c := Chunks(rounds);
            && |c| <= |rounds|
            && (forall k :: 0 <= k < |c| ==> rounds[k].Received? && rounds[k].data != [] && c[k] == rounds[k].data)
            && (forall k :: 0 <= k < |c| - 1 ==> !Halts(rounds[k]))
            && (|c| == |rounds| || (|c| > 0 && Halts(rounds[|c| - 1]))
                || rounds[|c|].ReadFailed? || rounds[|c|].data == [])
  {
    if rounds != [] && rounds[0].Received? && rounds[0].data != [] && rounds[0].drained {
      ChunksMeaning(rounds[1..]);
      var c := Chunks(rounds);
      assert c == [rounds[0].data] + Chunks(rounds[1..]);
      forall k | 1 <= k < |c|
        ensures rounds[k].Received? && rounds[k].data != [] && c[k] == rounds[k].data
      {
        assert rounds[1..][k - 1] == rounds[k];
      }
      forall k | 1 <= k < |c| - 1
        ensures !Halts(rounds[k])
      {
        assert rounds[1..][k - 1] == rounds[k];
      }
      if |c| < |rounds| {
        assert rounds[1..][|c| - 1] == rounds[|c|];
        assert |c| > 1 ==> rounds[1..][|c| - 2] == rounds[|c| - 1];
      }
    }
  }

  /** Nothing after a halting round is read: later rounds never influence the pump. */
  lemma {:induction false} ChunksIgnoreLaterRounds(rounds: seq<Round>, i: nat, more: seq<Round>)
    requires i < |rounds| && Halts(rounds[i])
    ensures Chunks(rounds + more) == Chunks(rounds)
  {
    assert (rounds + more)[0] == rounds[0];
    if i > 0 && rounds[0].Received? && rounds[0].data != [] && rounds[0].drained {
      assert (rounds + more)[1..] == rounds[1..] + more;
      assert rounds[1..][i - 1] == rounds[i];
      ChunksIgnoreLaterRounds(rounds[1..], i - 1, more);
    }
  }

  /** The address text that ends up in the target header for a client address. */
  function AddressText(a: Address, ntop: Formatter): seq<byte>
    requires ValidAddress(a)
  {
    match a
    case IPv4(raw) => Dotted(raw)
    case DomainName(name) => name
    case IPv6(raw) => ntop(raw)
  }

  /** `05` then any second byte: the greeting phase reads exactly `2 + NMETHODS` bytes and accepts iff `00` is offered. */
  lemma GreetClientGreeting(methods: seq<byte>, request: seq<byte>, rest: seq<byte>)
    requires |methods| < 256
    ensures var g := Greet(ClientGreeting(methods) + request + rest);
            && (g.Accepted? <==> MethodNoAuth in methods)
            && (g.Accepted? ==> g.next == |ClientGreeting(methods)| == 2 + |methods|)
            && (g.Refused? ==> g.session == Session(Rejected(NoAcceptableAuth), [5, 0xFF], true, 2 + |methods|))
  {
    var greeting := ClientGreeting(methods);
    var input := greeting + request + rest;
    assert input[0..2] == [Version, |methods| as byte];
    assert input[2..2 + |methods|] == methods;
  }

  /** A first byte other than 5 is refused with no reply and the connection closed. */
  lemma NegotiateBadVersion(input: seq<byte>, dialOk: bool, ntop: Formatter)
    requires |input| > 0 && input[0] != Version
    ensures Negotiate(input, dialOk, ntop)
         == Session(Rejected(BadVersion), [], true, if |input| < 2 then |input| else 2)
  {
  }

  /**
   * A client whose bytes end inside METHODS without offering 00 does not make `handle`
   * raise: the short read is taken as the list, refused with `05 FF` and closed.
   */
  lemma ShortMethodsRefused(nmethods: byte, methods: seq<byte>, dialOk: bool, ntop: Formatter)
    requires |methods| < nmethods as nat && MethodNoAuth !in methods
    ensures Negotiate([Version, nmethods] + methods, dialOk, ntop)
         == Session(Rejected(NoAcceptableAuth), MethodReply(MethodNoneAcceptable), true, 2 + |methods|)
  {
    var input := [Version, nmethods] + methods;
    assert Take(input, 0, 2) == [Version, nmethods];
    assert Take(input, 2, nmethods as nat) == methods;
  }

  /** A read that stays inside the part `mid` of the input sees that part. */
  lemma TakeInside(prefix: seq<byte>, mid: seq<byte>, rest: seq<byte>, k: nat, n: nat)
    requires k + n <= |mid|
    ensures Take(prefix + mid + rest, |prefix| + k, n) == mid[k..k + n]
  {
    assert (prefix + mid + rest)[|prefix| + k..|prefix| + k + n] == mid[k..k + n];
  }

  /** Where a request `05 01 00 ATYP DST.ADDR DST.PORT` that follows `prefix` puts its fixed fields and port. */
  lemma RequestFields(prefix: seq<byte>, a: Address, port: nat, rest: seq<byte>)
    requires ValidAddress(a) && port < 0x1_0000
    ensures var request := ClientRequest(CmdConnect, a, port);
            var input := prefix + request + rest;
            && Take(input, |prefix|, 4) == [Version, CmdConnect, 0, AtypOf(a)]
            && Take(input, |prefix| + |request| - 2, 2) == BigEndian16(port)
  {
    var request := ClientRequest(CmdConnect, a, port);
    TakeInside(prefix, request, rest, 0, 4);
    assert request[..4] == [Version, CmdConnect, 0, AtypOf(a)];
    TakeInside(prefix, request, rest, |request| - 2, 2);
    assert request[|request| - 2..] == BigEndian16(port);
  }

  lemma ReadIPv4(prefix: seq<byte>, raw: seq<byte>, port: nat, rest: seq<byte>, ntop: Formatter)
    requires |raw| == 4 && port < 0x1_0000
    ensures var input := prefix + ClientRequest(CmdConnect, IPv4(raw), port) + rest;
            ReadAddress(input, |prefix| + 4, AtypIPv4, ntop) == Parsed(Dotted(raw), |prefix| + 8)
  {
    var request := ClientRequest(CmdConnect, IPv4(raw), port);
    assert request[4..8] == raw;
    TakeInside(prefix, request, rest, 4, 4);
  }

  lemma ReadDomain(prefix: seq<byte>, name: seq<byte>, port: nat, rest: seq<byte>, ntop: Formatter)
    requires |name| < 256 && port < 0x1_0000
    ensures var input := prefix + ClientRequest(CmdConnect, DomainName(name), port) + rest;
            ReadAddress(input, |prefix| + 4, AtypDomain, ntop) == Parsed(name, |prefix| + 5 + |name|)
  {
    var request := ClientRequest(CmdConnect, DomainName(name), port);
    assert request[4..5] == [|name| as byte];
    assert request[5..5 + |name|] == name;
    TakeInside(prefix, request, rest, 4, 1);
    TakeInside(prefix, request, rest, 5, |name|);
  }

  lemma ReadIPv6(prefix: seq<byte>, raw: seq<byte>, port: nat, rest: seq<byte>, ntop: Formatter)
    requires |raw| == 16 && port < 0x1_0000
    ensures var input := prefix + ClientRequest(CmdConnect, IPv6(raw), port) + rest;
            ReadAddress(input, |prefix| + 4, AtypIPv6, ntop) == Parsed(ntop(raw), |prefix| + 20)
  {
    var request := ClientRequest(CmdConnect, IPv6(raw), port);
    assert request[4..20] == raw;
    TakeInside(prefix, request, rest, 4, 16);
  }

  /** The request phase ends in the dial once the CONNECT header, the address and the port were read. */
  lemma RequestDials(input: seq<byte>, p: nat, atyp: byte, addr: seq<byte>, p2: nat, dialOk: bool, ntop: Formatter)
    requires |Take(input, p, 4)| == 4 && Take(input, p, 4)[1] == CmdConnect && Take(input, p, 4)[3] == atyp
    requires ReadAddress(input, p + 4, atyp, ntop) == Parsed(addr, p2)
    requires |Take(input, p2, 2)| == 2 && |addr| < 256
    ensures Request(input, p, dialOk, ntop) == Dialled(Target(atyp, addr, Take(input, p2, 2)), dialOk, p2 + 2)
  {
  }

  /** After a greeting that offers `00`, the handshake is `05 00` and then the request phase. */
  lemma NegotiateAccepted(methods: seq<byte>, request: seq<byte>, rest: seq<byte>, dialOk: bool, ntop: Formatter)
    requires |methods| < 256 && MethodNoAuth in methods
    ensures var input := ClientGreeting(methods) + request + rest;
            var s := Request(input, |ClientGreeting(methods)|, dialOk, ntop);
            Negotiate(input, dialOk, ntop) == s.(reply := MethodReply(MethodNoAuth) + s.reply)
  {
    GreetClientGreeting(methods, request, rest);
  }

  /** A CONNECT request for an IPv4 address after `prefix` dials the dotted-decimal text of the address. */
  lemma RequestIPv4(prefix: seq<byte>, raw: seq<byte>, port: nat, rest: seq<byte>, dialOk: bool, ntop: Formatter)
    requires |raw| == 4 && port < 0x1_0000
    ensures var request := ClientRequest(CmdConnect, IPv4(raw), port);
            Request(prefix + request + rest, |prefix|, dialOk, ntop)
              == Dialled(Target(AtypIPv4, Dotted(raw), BigEndian16(port)), dialOk, |prefix| + |request|)
  {
    var request := ClientRequest(CmdConnect, IPv4(raw), port);
    assert |request| == 10;
    DottedLength(raw);
    RequestFields(prefix, IPv4(raw), port, rest);
    ReadIPv4(prefix, raw, port, rest, ntop);
    RequestDials(prefix + request + rest, |prefix|, AtypIPv4, Dotted(raw), |prefix| + 8, dialOk, ntop);
  }

  /**
   * The whole CONNECT handshake of a well-behaved client that offers method `00` and
   * names an IPv4 address: exactly the greeting and the request are read, `05 00` is
   * sent, then success or the close, and the header names the dotted-decimal text of
   * the address and the port as sent.
   */
  lemma NegotiateConnectIPv4(methods: seq<byte>, raw: seq<byte>, port: nat, rest: seq<byte>, dialOk: bool, ntop: Formatter)
    requires |methods| < 256 && MethodNoAuth in methods
    requires |raw| == 4 && port < 0x1_0000
    ensures var greeting, request := ClientGreeting(methods), ClientRequest(CmdConnect, IPv4(raw), port);
            var t := Target(AtypIPv4, Dotted(raw), BigEndian16(port));
            var s := Dialled(t, dialOk, |greeting| + |request|);
            && WellFormed(t)
            && Negotiate(greeting + request + rest, dialOk, ntop) == s.(reply := MethodReply(MethodNoAuth) + s.reply)
            && ParseHeader(Header(t)) == Some(HeaderFields(Dotted(raw), port))
  {
    var greeting, request := ClientGreeting(methods), ClientRequest(CmdConnect, IPv4(raw), port);
    DottedLength(raw);
    RequestIPv4(greeting, raw, port, rest, dialOk, ntop);
    NegotiateAccepted(methods, request, rest, dialOk, ntop);
    ParseHeaderOfTargetHeader(Dotted(raw), port);
  }

  /** A CONNECT request for a domain name after `prefix` dials the domain bytes exactly as sent. */
  lemma RequestDomain(prefix: seq<byte>, name: seq<byte>, port: nat, rest: seq<byte>, dialOk: bool, ntop: Formatter)
    requires |name| < 256 && port < 0x1_0000
    ensures var request := ClientRequest(CmdConnect, DomainName(name), port);
            Request(prefix + request + rest, |prefix|, dialOk, ntop)
              == Dialled(Target(AtypDomain, name, BigEndian16(port)), dialOk, |prefix| + |request|)
  {
    var request := ClientRequest(CmdConnect, DomainName(name), port);
    var p2 := |prefix| + |request| - 2;
    assert |request| == 7 + |name| && p2 == |prefix| + 5 + |name|;
    RequestFields(prefix, DomainName(name), port, rest);
    ReadDomain(prefix, name, port, rest, ntop);
    RequestDials(prefix + request + rest, |prefix|, AtypDomain, name, p2, dialOk, ntop);
  }

  /** The same for a domain name: the header names the domain bytes exactly as sent. */
  lemma NegotiateConnectDomain(methods: seq<byte>, name: seq<byte>, port: nat, rest: seq<byte>, dialOk: bool, ntop: Formatter)
    requires |methods| < 256 && MethodNoAuth in methods
    requires |name| < 256 && port < 0x1_0000
    ensures var greeting, request := ClientGreeting(methods), ClientRequest(CmdConnect, DomainName(name), port);
            var t := Target(AtypDomain, name, BigEndian16(port));
            var s := Dialled(t, dialOk, |greeting| + |request|);
            && WellFormed(t)
            && Negotiate(greeting + request + rest, dialOk, ntop) == s.(reply := MethodReply(MethodNoAuth) + s.reply)
            && ParseHeader(Header(t)) == Some(HeaderFields(name, port))
  {
    var greeting, request := ClientGreeting(methods), ClientRequest(CmdConnect, DomainName(name), port);
    assert |request| == 7 + |name|;
    RequestDomain(greeting, name, port, rest, dialOk, ntop);
    NegotiateAccepted(methods, request, rest, dialOk, ntop);
    ParseHeaderOfTargetHeader(name, port);
  }

  /** A CONNECT request for an IPv6 address after `prefix` dials the `inet_ntop` text of the address. */
  lemma RequestIPv6(prefix: seq<byte>, raw: seq<byte>, port: nat, rest: seq<byte>, dialOk: bool, ntop: Formatter)
    requires |raw| == 16 && port < 0x1_0000 && |ntop(raw)| < 256
    ensures var request := ClientRequest(CmdConnect, IPv6(raw), port);
            Request(prefix + request + rest, |prefix|, dialOk, ntop)
              == Dialled(Target(AtypIPv6, ntop(raw), BigEndian16(port)), dialOk, |prefix| + |request|)
  {
    var request := ClientRequest(CmdConnect, IPv6(raw), port);
    assert |request| == 22;
    RequestFields(prefix, IPv6(raw), port, rest);
    ReadIPv6(prefix, raw, port, rest, ntop);
    RequestDials(prefix + request + rest, |prefix|, AtypIPv6, ntop(raw), |prefix| + 20, dialOk, ntop);
  }

  /** The same for an IPv6 address: the header names the `inet_ntop` text of the address. */
  lemma NegotiateConnectIPv6(methods: seq<byte>, raw: seq<byte>, port: nat, rest: seq<byte>, dialOk: bool, ntop: Formatter)
    requires |methods| < 256 && MethodNoAuth in methods
    requires |raw| == 16 && port < 0x1_0000 && |ntop(raw)| < 256
    ensures var greeting, request := ClientGreeting(methods), ClientRequest(CmdConnect, IPv6(raw), port);
            var t := Target(AtypIPv6, ntop(raw), BigEndian16(port));
            var s := Dialled(t, dialOk, |greeting| + |request|);
            && WellFormed(t)
            && Negotiate(greeting + request + rest, dialOk, ntop) == s.(reply := MethodReply(MethodNoAuth) + s.reply)
            && ParseHeader(Header(t)) == Some(HeaderFields(ntop(raw), port))
  {
    var greeting, request := ClientGreeting(methods), ClientRequest(CmdConnect, IPv6(raw), port);
    RequestIPv6(greeting, raw, port, rest, dialOk, ntop);
    NegotiateAccepted(methods, request, rest, dialOk, ntop);
    ParseHeaderOfTargetHeader(ntop(raw), port);
  }

  /** How the version/method-selection phase can end, and what it writes then. */
  lemma GreetReplies(input: seq<byte>)
    ensures match Greet(input)
            case Accepted(p) => p <= |input|
            case Refused(s) =>
              && s.consumed <= |input|
              && (s.outcome.Rejected? ==> s.closed && s.outcome.reason in {BadVersion, NoAcceptableAuth})
              && (s.outcome == Rejected(BadVersion) ==> s.reply == [])
              && (s.outcome == Rejected(NoAcceptableAuth) ==> s.reply == [5, 0xFF])
              && (s.outcome.Aborted? ==> !s.closed && s.reply == [])
              && !s.outcome.DialFailed? && !s.outcome.Connected?
  {
  }

  /** How the request phase from offset `p` can end, and what it writes then. */
  lemma RequestReplies(input: seq<byte>, p: nat, dialOk: bool, ntop: Formatter)
    requires p <= |input|
    ensures var s := Request(input, p, dialOk, ntop);
            && s.consumed <= |input|
            && (s.outcome.Rejected? ==> s.closed && s.outcome.reason in {UnsupportedCommand, UnsupportedAddressType})
            && (s.outcome == Rejected(UnsupportedCommand) ==> s.reply == [5, 7, 0, 1, 0, 0, 0, 0, 0, 0])
            && (s.outcome == Rejected(UnsupportedAddressType) ==> s.reply == [5, 8, 0, 1, 0, 0, 0, 0, 0, 0])
            && (s.outcome.DialFailed? ==> !dialOk && s.closed && s.reply == [] && WellFormed(s.outcome.target))
            && (s.outcome.Connected? ==>
                  && dialOk && !s.closed && WellFormed(s.outcome.target)
                  && s.outcome.target.atyp in {AtypIPv4, AtypDomain, AtypIPv6}
                  && s.reply == SuccessReply(s.outcome.target.atyp)
                  && ParseReply(s.reply).Some? && ParseReply(s.reply).value.rep == RepSucceeded)
            && (s.outcome.Aborted? ==> !s.closed && s.reply == [])
  {
    var s := Request(input, p, dialOk, ntop);
    ErrorReplyMeaning(RepCommandNotSupported);
    ErrorReplyMeaning(RepAddressTypeNotSupported);
    if s.outcome.Connected? {
      SuccessReplyMeaning(s.outcome.target.atyp);
    }
  }

  /**
   * A command other than CONNECT in the four request bytes at `p`, and only that, gets
   * the 10-byte `05 07` reply and the close, with nothing read after those four bytes.
   */
  lemma RequestCommandRefusal(input: seq<byte>, p: nat, dialOk: bool, ntop: Formatter)
    ensures var data, s := Take(input, p, 4), Request(input, p, dialOk, ntop);
            && (s.outcome == Rejected(UnsupportedCommand) <==> |data| == 4 && data[1] != CmdConnect)
            && (|data| == 4 && data[1] != CmdConnect ==>
                  s == Session(Rejected(UnsupportedCommand), [5, 7, 0, 1, 0, 0, 0, 0, 0, 0], true, p + 4))
  {
    ErrorReplyMeaning(RepCommandNotSupported);
  }

  /**
   * A CONNECT whose ATYP is none of 1, 3 and 4, and only that, gets the 10-byte `05 08`
   * reply and the close, with nothing read after the four request bytes.
   */
  lemma RequestAddressTypeRefusal(input: seq<byte>, p: nat, dialOk: bool, ntop: Formatter)
    ensures var data, s := Take(input, p, 4), Request(input, p, dialOk, ntop);
            && (s.outcome == Rejected(UnsupportedAddressType) <==>
                  |data| == 4 && data[1] == CmdConnect && data[3] !in {AtypIPv4, AtypDomain, AtypIPv6})
            && (|data| == 4 && data[1] == CmdConnect && data[3] !in {AtypIPv4, AtypDomain, AtypIPv6} ==>
                  s == Session(Rejected(UnsupportedAddressType), [5, 8, 0, 1, 0, 0, 0, 0, 0, 0], true, p + 4))
  {
    ErrorReplyMeaning(RepAddressTypeNotSupported);
  }

  /** The same refusals after an accepted greeting: `05 00`, then the error reply, then the close. */
  lemma NegotiateRefusals(input: seq<byte>, dialOk: bool, ntop: Formatter)
    requires Greet(input).Accepted?
    ensures var p := Greet(input).next;
            var data, s := Take(input, p, 4), Negotiate(input, dialOk, ntop);
            && (|data| == 4 && data[1] != CmdConnect ==>
                  s == Session(Rejected(UnsupportedCommand), [5, 0, 5, 7, 0, 1, 0, 0, 0, 0, 0, 0], true, p + 4))
            && (|data| == 4 && data[1] == CmdConnect && data[3] !in {AtypIPv4, AtypDomain, AtypIPv6} ==>
                  s == Session(Rejected(UnsupportedAddressType), [5, 0, 5, 8, 0, 1, 0, 0, 0, 0, 0, 0], true, p + 4))
  {
    var p := Greet(input).next;
    RequestCommandRefusal(input, p, dialOk, ntop);
    RequestAddressTypeRefusal(input, p, dialOk, ntop);
    assert [5, 0] + [5, 7, 0, 1, 0, 0, 0, 0, 0, 0] == [5, 0, 5, 7, 0, 1, 0, 0, 0, 0, 0, 0];
    assert [5, 0] + [5, 8, 0, 1, 0, 0, 0, 0, 0, 0] == [5, 0, 5, 8, 0, 1, 0, 0, 0, 0, 0, 0];
  }

  /** What each kind of ending writes to the client, read the way a SOCKS5 client reads it. */
  lemma NegotiateReplies(input: seq<byte>, dialOk: bool, ntop: Formatter)
    ensures var s := Negotiate(input, dialOk, ntop);
            && s.consumed <= |input|
            && (s.outcome.Rejected? ==> s.closed)
            && (s.outcome == Rejected(BadVersion) ==> s.reply == [])
            && (s.outcome == Rejected(NoAcceptableAuth) ==> s.reply == [5, 0xFF])
            && (s.outcome == Rejected(UnsupportedCommand) ==> s.reply == [5, 0, 5, 7, 0, 1, 0, 0, 0, 0, 0, 0])
            && (s.outcome == Rejected(UnsupportedAddressType) ==> s.reply == [5, 0, 5, 8, 0, 1, 0, 0, 0, 0, 0, 0])
            && (s.outcome.DialFailed? ==> !dialOk && s.closed && s.reply == [5, 0] && WellFormed(s.outcome.target))
            && (s.outcome.Connected? ==>
                  && dialOk && !s.closed && WellFormed(s.outcome.target)
                  && s.outcome.target.atyp in {AtypIPv4, AtypDomain, AtypIPv6}
                  && s.reply == [5, 0] + SuccessReply(s.outcome.target.atyp)
                  && s.reply[..2] == [5, 0]
                  && ParseReply(s.reply[2..]).Some? && ParseReply(s.reply[2..]).value.rep == RepSucceeded)
            && (s.outcome.Aborted? ==> !s.closed && (s.reply == [] || s.reply == [5, 0]))
  {
    GreetReplies(input);
    match Greet(input)
    case Refused(_) =>
    case Accepted(p) =>
      RequestReplies(input, p, dialOk, ntop);
      var r := Request(input, p, dialOk, ntop);
      assert ([5, 0] + r.reply)[..2] == [5, 0] && ([5, 0] + r.reply)[2..] == r.reply;
      assert [5, 0] + [5, 7, 0, 1, 0, 0, 0, 0, 0, 0] == [5, 0, 5, 7, 0, 1, 0, 0, 0, 0, 0, 0];
      assert [5, 0] + [5, 8, 0, 1, 0, 0, 0, 0, 0, 0] == [5, 0, 5, 8, 0, 1, 0, 0, 0, 0, 0, 0];
  }

  /** Whether the relay host answers changes only Connected into DialFailed, for the same target. */
  lemma NegotiateDial(input: seq<byte>, ntop: Formatter)
    ensures var up, down := Negotiate(input, true, ntop), Negotiate(input, false, ntop);
            && up.consumed == down.consumed
            && (up.outcome.Connected? <==> down.outcome.DialFailed?)
            && (up.outcome.Connected? ==> down.outcome.target == up.outcome.target)
            && (!up.outcome.Connected? ==> up == down)
  {
  }

  /**
   * The relay host receives one cipher stream: the IV, then the output of one
   * encrypting object over the header followed by every chunk the client pump forwards.
   */
  lemma UpstreamStream(engine: Engine, seed: Seed, header: seq<byte>, chunks: seq<seq<byte>>)
    ensures Preamble(engine, seed, header)
              + Outputs(engine, seed, [Call(Encipher, header)], CallsFor(S2R, chunks))
         == seed.iv + Outputs(engine, seed, [], [Call(Encipher, header)] + CallsFor(S2R, chunks))
  {
    var first := [Call(Encipher, header)];
    OutputsAppend(engine, seed, [], first, CallsFor(S2R, chunks));
    assert [] + first == first;
    assert Outputs(engine, seed, [], first) == engine(seed, [], Call(Encipher, header)) + [];
  }

  class Server {
    const server: string
    const serverPort: nat
    const key: seq<byte>

    constructor (server: string, serverPort: nat, key: seq<byte>)
      ensures this.server == server && this.serverPort == serverPort && this.key == key
    {
      this.server := server;
      this.serverPort := serverPort;
      this.key := key;
    }

    /**
     * The cipher pair of a new tunnel to `target`: both keyed with `key` and `iv`, the
     * encrypting one having enciphered the target header, the decrypting one unused.
     */
    ghost predicate Tunnel(engine: Engine, iv: seq<byte>, target: Target, encrypt: StreamCipher, decrypt: StreamCipher)
      reads encrypt, decrypt
    {
      && WellFormed(target)
      && encrypt.engine == engine && decrypt.engine == engine
      && encrypt.seed == Seed(key, iv) && decrypt.seed == encrypt.seed
      && encrypt.calls == [Call(Encipher, Header(target))] && decrypt.calls == []
    }

    /**
     * The client connection after a handshake that ended as `s`: `s.reply` written after
     * `sent`, closed if it was or if `s` says so, and `s.consumed` bytes read.
     */
    ghost predicate Served(reader: Reader, writer: Writer, sent: seq<byte>, closed: bool, s: Session)
      reads reader, writer
    {
      && reader.Valid()
      && writer.sent == sent + s.reply
      && writer.closed == (closed || s.closed)
      && reader.pos == s.consumed
    }

    /**
     * `handle(reader, writer)`. Dialling `server:serverPort` is not modelled: `dialOk`
     * says whether it succeeded and `upstream` is the writer of that connection.
     * `iv` is what the random source gives the new encrypting cipher.
     */
    method Handle(reader: Reader, writer: Writer, upstream: Writer, dialOk: bool, iv: seq<byte>,
                  engine: Engine, ntop: Formatter)
      returns (outcome: Outcome, encrypt: StreamCipher?, decrypt: StreamCipher?)
      requires reader.Valid() && reader.pos == 0 && writer != upstream
      requires |iv| == IvLength
      modifies reader, writer, upstream
      ensures outcome == Negotiate(reader.input, dialOk, ntop).outcome
      ensures Served(reader, writer, old(writer.sent), old(writer.closed), Negotiate(reader.input, dialOk, ntop))
      ensures (outcome.Connected? || outcome.DialFailed?) ==> WellFormed(outcome.target)
      ensures outcome.Connected? ==>
                && encrypt != null && decrypt != null && fresh(encrypt) && fresh(decrypt)
                && Tunnel(engine, iv, outcome.target, encrypt, decrypt)
                && upstream.sent == old(upstream.sent) + Preamble(engine, Seed(key, iv), Header(outcome.target))
      ensures !outcome.Connected? ==> encrypt == null && decrypt == null && upstream.sent == old(upstream.sent)
      ensures upstream.closed == old(upstream.closed)
    {
      encrypt, decrypt := null, null;
      var accepted := HandleGreeting(reader, writer);
      if !accepted {
        outcome := Greet(reader.input).session.outcome;
      } else {
        ghost var s := Request(reader.input, reader.pos, dialOk, ntop);
        outcome, encrypt, decrypt := HandleRequest(reader, writer, upstream, dialOk, iv, engine, ntop);
        AppendAssociative(old(writer.sent), MethodReply(MethodNoAuth), s.reply);
      }
    }

    /** The start of `handle`: the version byte and the method selection. */
    method HandleGreeting(reader: Reader, writer: Writer) returns (accepted: bool)
      requires reader.Valid() && reader.pos == 0
      modifies reader, writer
      ensures reader.Valid()
      ensures accepted == Greet(reader.input).Accepted?
      ensures accepted ==> reader.pos == Greet(reader.input).next
                           && writer.sent == old(writer.sent) + MethodReply(MethodNoAuth)
                           && writer.closed == old(writer.closed)
      ensures !accepted ==> Served(reader, writer, old(writer.sent), old(writer.closed), Greet(reader.input).session)
    {
      var request := reader.Read(2);
      if |request| == 0 {
        // request[0] raises IndexError
        return false;
      }
      if request[0] != Version {
        writer.Close();
        return false;
      }
      if |request| < 2 {
        // request[1] raises IndexError
        return false;
      }
      var nmethods := request[1];
      var methods := reader.Read(nmethods as nat);
      if MethodNoAuth in methods {
        writer.Write(MethodReply(MethodNoAuth));
        accepted := true;
      } else {
        writer.Write(MethodReply(MethodNoneAcceptable));
        writer.Close();
        accepted := false;
      }
    }

    /** The part of `handle` after `05 00` was sent: the request, the dial and the preamble. */
    method HandleRequest(reader: Reader, writer: Writer, upstream: Writer, dialOk: bool, iv: seq<byte>,
                         engine: Engine, ntop: Formatter)
      returns (outcome: Outcome, encrypt: StreamCipher?, decrypt: StreamCipher?)
      requires reader.Valid() && writer != upstream
      requires |iv| == IvLength
      modifies reader, writer, upstream
      ensures outcome == Request(reader.input, old(reader.pos), dialOk, ntop).outcome
      ensures Served(reader, writer, old(writer.sent), old(writer.closed), Request(reader.input, old(reader.pos), dialOk, ntop))
      ensures (outcome.Connected? || outcome.DialFailed?) ==> WellFormed(outcome.target)
      ensures outcome.Connected? ==>
                && encrypt != null && decrypt != null && fresh(encrypt) && fresh(decrypt)
                && Tunnel(engine, iv, outcome.target, encrypt, decrypt)
                && upstream.sent == old(upstream.sent) + Preamble(engine, Seed(key, iv), Header(outcome.target))
      ensures !outcome.Connected? ==> encrypt == null && decrypt == null && upstream.sent == old(upstream.sent)
      ensures upstream.closed == old(upstream.closed)
    {
      encrypt, decrypt := null, null;
      ghost var input, p := reader.input, reader.pos;
      ghost var spec := Request(input, p, dialOk, ntop);
      var data := reader.Read(4);
      if |data| != 4 {
        // unpacking `ver, cmd, rsv, atyp` raises ValueError
        assert spec == Session(Aborted, [], false, reader.pos);
        outcome := Aborted;
        return;
      }
      var cmd, atyp := data[1], data[3];
      if cmd != CmdConnect {
        writer.Write(ErrorReply(RepCommandNotSupported));
        writer.Close();
        assert spec == Session(Rejected(UnsupportedCommand), ErrorReply(RepCommandNotSupported), true, reader.pos);
        outcome := Rejected(UnsupportedCommand);
        return;
      }
      var read := ReadDestination(reader, atyp, ntop);
      if read.Unsupported? {
        writer.Write(ErrorReply(RepAddressTypeNotSupported));
        writer.Close();
        assert spec == Session(Rejected(UnsupportedAddressType), ErrorReply(RepAddressTypeNotSupported), true, reader.pos);
        outcome := Rejected(UnsupportedAddressType);
        return;
      }
      if read.Truncated? {
        assert spec == Session(Aborted, [], false, reader.pos);
        outcome := Aborted;
        return;
      }
      var addr := read.addr;
      var portBytes := reader.Read(2);
      if |portBytes| != 2 || |addr| > 255 {
        // struct.unpack('>H') or struct.pack('>B') raises struct.error
        assert spec == Session(Aborted, [], false, reader.pos);
        outcome := Aborted;
        return;
      }
      var target := Target(atyp, addr, portBytes);
      assert spec == (if dialOk then Session(Connected(target), SuccessReply(atyp), false, reader.pos)
                      else Session(DialFailed(target), [], true, reader.pos));
      outcome, encrypt, decrypt := Open(writer, upstream, dialOk, iv, engine, target);
    }

    /** The end of `handle`: the dial outcome, the success reply, the cipher pair and the preamble. */
    method Open(writer: Writer, upstream: Writer, dialOk: bool, iv: seq<byte>, engine: Engine, target: Target)
      returns (outcome: Outcome, encrypt: StreamCipher?, decrypt: StreamCipher?)
      requires writer != upstream && WellFormed(target)
      requires |iv| == IvLength
      modifies writer, upstream
      ensures outcome == (if dialOk then Connected(target) else DialFailed(target))
      ensures writer.sent == old(writer.sent) + (if dialOk then SuccessReply(target.atyp) else [])
      ensures writer.closed == (old(writer.closed) || !dialOk)
      ensures outcome.Connected? ==>
                && encrypt != null && decrypt != null && fresh(encrypt) && fresh(decrypt)
                && Tunnel(engine, iv, outcome.target, encrypt, decrypt)
                && upstream.sent == old(upstream.sent) + Preamble(engine, Seed(key, iv), Header(outcome.target))
      ensures !outcome.Connected? ==> encrypt == null && decrypt == null && upstream.sent == old(upstream.sent)
      ensures upstream.closed == old(upstream.closed)
    {
      if !dialOk {
        writer.Close();
        return DialFailed(target), null, null;
      }
      writer.Write(SuccessReply(target.atyp));
      encrypt := new StreamCipher(engine, key, iv);
      decrypt := new StreamCipher(engine, key, encrypt.seed.iv);
      upstream.Write(iv);
      var sealed := encrypt.Encrypt(Header(target));
      upstream.Write(sealed);
      AppendAssociative(old(upstream.sent), iv, sealed);
      outcome := Connected(target);
    }

    /** The `if atyp == ...` chain of `handle` that reads DST.ADDR. */
    method ReadDestination(reader: Reader, atyp: byte, ntop: Formatter) returns (read: AddressRead)
      requires reader.Valid()
      modifies reader
      ensures reader.Valid()
      ensures read == ReadAddress(reader.input, old(reader.pos), atyp, ntop)
      ensures !read.Unsupported? ==> reader.pos == read.next
      ensures read.Unsupported? ==> reader.pos == old(reader.pos)
    {
      if atyp == AtypIPv4 {
        var raw := reader.Read(4);
        if |raw| != 4 {
          // inet_ntoa raises OSError
          return Truncated(reader.pos);
        }
        read := Parsed(Dotted(raw), reader.pos);
      } else if atyp == AtypDomain {
        var addrLen := reader.Read(1);
        if |addrLen| == 0 {
          // ord(b'') raises TypeError
          return Truncated(reader.pos);
        }
        var addr := reader.Read(addrLen[0] as nat);
        read := Parsed(addr, reader.pos);
      } else if atyp == AtypIPv6 {
        var raw := reader.Read(16);
        if |raw| != 16 {
          // inet_ntop raises ValueError
          return Truncated(reader.pos);
        }
        read := Parsed(ntop(raw), reader.pos);
      } else {
        read := Unsupported;
      }
    }

    /**
     * The pump has forwarded the chunks `done`: each went through `cipher` in order
     * after `history`, and the results are on `writer` after `before`.
     */
    ghost predicate Pumped(writer: Writer, cipher: StreamCipher, mode: Mode,
                           history: seq<Call>, before: seq<byte>, done: seq<seq<byte>>)
      reads writer, cipher
    {
      && cipher.calls == history + CallsFor(mode, done)
      && writer.sent == before + Outputs(cipher.engine, cipher.seed, history, CallsFor(mode, done))
    }

    /**
     * `relay(reader, writer, cipher, mode)`: one direction of the tunnel. The reads
     * are given as `rounds`; reading past them is the end of the stream.
     */
    method Relay(rounds: seq<Round>, writer: Writer, cipher: StreamCipher, mode: Mode)
      modifies writer, cipher
      ensures cipher.calls == old(cipher.calls) + CallsFor(mode, Chunks(rounds))
      ensures writer.sent == old(writer.sent)
                + Outputs(cipher.engine, cipher.seed, old(cipher.calls), CallsFor(mode, Chunks(rounds)))
      ensures writer.closed == old(writer.closed)
    {
      ghost var history, before := cipher.calls, writer.sent;
      ghost var done: seq<seq<byte>> := [];
      var i, stop := 0, false;
      while i < |rounds| && !stop
        invariant 0 <= i <= |rounds|
        invariant Chunks(rounds) == done + (if stop then [] else Chunks(rounds[i..]))
        invariant Pumped(writer, cipher, mode, history, before, done)
        invariant writer.closed == old(writer.closed)
      {
        stop, done := PumpRound(rounds, i, writer, cipher, mode, history, before, done);
        i := i + 1;
      }
      assert !stop ==> rounds[i..] == [];
      assert done + [] == done;
    }

    /** One iteration of the `while True` loop of `relay`; `stop` when it breaks out. */
    method PumpRound(rounds: seq<Round>, i: nat, writer: Writer, cipher: StreamCipher, mode: Mode,
                     ghost history: seq<Call>, ghost before: seq<byte>, ghost done: seq<seq<byte>>)
      returns (stop: bool, ghost done': seq<seq<byte>>)
      requires i < |rounds|
      requires Pumped(writer, cipher, mode, history, before, done)
      modifies writer, cipher
      ensures done + Chunks(rounds[i..]) == done' + (if stop then [] else Chunks(rounds[i + 1..]))
      ensures Pumped(writer, cipher, mode, history, before, done')
      ensures writer.closed == old(writer.closed)
    {
      var r := rounds[i];
      ChunksStep(rounds, i);
      if r.ReadFailed? || r.data == [] {
        // the read raised, or `if not data: break`
        return true, done;
      }
      Forward(writer, cipher, mode, r.data, history, before, done);
      done' := done + [r.data];
      // `await writer.drain()` raising ends the pump as well
      stop := !r.drained;
    }

    /** One forwarded chunk: `writer.write(cipher transform of data)`, extending the pump's running totals. */
    method Forward(writer: Writer, cipher: StreamCipher, mode: Mode, data: seq<byte>,
                   ghost history: seq<Call>, ghost before: seq<byte>, ghost done: seq<seq<byte>>)
      requires Pumped(writer, cipher, mode, history, before, done)
      modifies writer, cipher
      ensures Pumped(writer, cipher, mode, history, before, done + [data])
      ensures writer.closed == old(writer.closed)
    {
      ghost var calls := CallsFor(mode, done);
      var out := Transform(cipher, mode, data);
      writer.Write(out);
      OutputsSnoc(cipher.engine, cipher.seed, history, calls, CallOf(mode, data));
      CallsForSnoc(mode, done, data);
    }

    /** `cipher.encrypt(data)` in the S2R direction, `cipher.decrypt(data)` in the R2S one. */
    method Transform(cipher: StreamCipher, mode: Mode, data: seq<byte>) returns (out: seq<byte>)
      modifies cipher
      ensures out == cipher.engine(cipher.seed, old(cipher.calls), CallOf(mode, data))
      ensures cipher.calls == old(cipher.calls) + [CallOf(mode, data)]
    {
      if mode == S2R {
        out := cipher.Encrypt(data);
      } else {
        out := cipher.Decrypt(data);
      }
    }

    /** `close_transport`: the done-callback of both pumps closes both writers. */
    method CloseTransport(writer: Writer, remoteWriter: Writer)
      modifies writer, remoteWriter
      ensures writer.closed && remoteWriter.closed
      ensures writer.sent == old(writer.sent) && remoteWriter.sent == old(remoteWriter.sent)
    {
      writer.Close();
      remoteWriter.Close();
    }
  }
}
