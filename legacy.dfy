/**
 * The older threaded proxy `sslocal.py`: `Socks5Server.handle`, which reads a fixed
 * 3-byte greeting, copies the raw request address into the upstream header, answers
 * with a fixed reply bound to port 3389 before it connects upstream, and then runs
 * `tcp_relay`, a `select` loop that ends when a `send` reports no bytes.
 *
 * `Negotiate` specifies `handle` as a function of what the client sends and
 * `Exchange` specifies `tcp_relay` as a function of what `select` reports; the
 * methods of `Socks5Server` follow the source and are proved to agree with them.
 */
module Legacy {
  import opened Wrappers
  import opened Bytes
  import opened Streams
  import opened Cipher
  import opened Frames
  import Holosocks

  /** `socket.inet_aton('0.0.0.0') + struct.pack('>H', 3389)`: the bind information of the reply. */
  const BindPort: nat := 3389

  /** The reply written once the request is read, before anything is dialled. */
  function BoundReply(): seq<byte> {
    Reply(RepSucceeded, AtypIPv4, Zeros(4), BindPort)
  }

  lemma BoundReplyBytes()
    ensures BoundReply() == [5, 0, 0, 1, 0, 0, 0, 0, 0x0D, 0x3D]
  {
    assert Zeros(4) == [0, 0, 0, 0];
  }

  /**
   * How `handle` ends: it returned early on a protocol check (reply, if any, already
   * written), `remote.connect` raised `socket.error` after the reply was sent, the
   * relay ran, or an exception other than `socket.error` escaped because the client's
   * bytes ran out. `header` is `data_to_send`.
   */
  datatype Ending =
    | Refused(reason: Holosocks.Rejection)
    | ConnectFailed(header: seq<byte>)
    | Tunnelled(header: seq<byte>)
    | Aborted

  /** The ending, every byte written to the client before the relay, and how many bytes were read. */
  datatype Handshake = Handshake(ending: Ending, reply: seq<byte>, consumed: nat)

  /** How the greeting ends: accepted with `next` bytes read, or the whole handshake. */
  datatype Opening = Proceed(next: nat) | Stop(handshake: Handshake)

  /** `client_ask = self.rfile.read(3)` and its two checks. */
  function Greet(input: seq<byte>): Opening {
    var ask := Take(input, 0, 3);
    if |ask| == 0 then Stop(Handshake(Aborted, [], 0))
    else if ask[0] != Version then Stop(Handshake(Refused(Holosocks.BadVersion), [], |ask|))
    else if ask[|ask| - 1] != MethodNoAuth then Stop(Handshake(Refused(Holosocks.NoAcceptableAuth), [], |ask|))
    else Proceed(|ask|)
  }

  /** What follows ATYP in `data_to_send`, read at offset `p`. */
  datatype AddressPart = Copied(bytes: seq<byte>, next: nat) | Missing(next: nat) | Unknown

  function Destination(input: seq<byte>, p: nat, atyp: byte): AddressPart {
    if atyp == AtypIPv4 then
      var ip := Take(input, p, 4);
      Copied(ip, p + |ip|)
    else if atyp == AtypDomain then
      var len := Take(input, p, 1);
      if |len| == 0 then Missing(p)
      else
        var name := Take(input, p + 1, len[0] as nat);
        Copied(len + name, p + 1 + |name|)
    else Unknown
  }

  /** The request phase from offset `p`, after `05 00` was written. */
  function Request(input: seq<byte>, p: nat, connectOk: bool): Handshake {
    var data := Take(input, p, 4);
    var p1 := p + |data|;
    if |data| < 2 then Handshake(Aborted, [], p1)
    else if data[1] != CmdConnect then
      Handshake(Refused(Holosocks.UnsupportedCommand), ErrorReply(RepCommandNotSupported), p1)
    else if |data| < 4 then Handshake(Aborted, [], p1)
    else
      match Destination(input, p1, data[3])
      case Unknown => Handshake(Refused(Holosocks.UnsupportedAddressType), [], p1)
      case Missing(p2) => Handshake(Aborted, [], p2)
      case Copied(addr, p2) =>
        var port := Take(input, p2, 2);
        var header := [data[3]] + addr + port;
        Handshake(if connectOk then Tunnelled(header) else ConnectFailed(header), BoundReply(), p2 + |port|)
  }

  /** The whole handshake of `handle` for a client that sends `input`. */
  function Negotiate(input: seq<byte>, connectOk: bool): Handshake {
    match Greet(input)
    case Stop(h) => h
    case Proceed(p) =>
      var h := Request(input, p, connectOk);
      h.(reply := MethodReply(MethodNoAuth) + h.reply)
  }

  // ---------------------------------------------------------------------------
  // tcp_relay
  // ---------------------------------------------------------------------------

  /**
   * One `select` result: what `sock.recv(4096)` returned if the client socket was
   * readable, and what `remote.recv(4096)` returned if the remote one was.
   */
  datatype Ready = Ready(fromClient: Option<seq<byte>>, fromRemote: Option<seq<byte>>)

  /** A cipher object's engine and seed. */
  datatype Keying = Keying(engine: Engine, seed: Seed)

  /** The relay so far: the calls made on each cipher, the bytes sent each way, and whether it broke out. */
  datatype Traffic = Traffic(encCalls: seq<Call>, decCalls: seq<Call>, toRemote: seq<byte>, toClient: seq<byte>, broke: bool)

  /** One iteration of the `while True` loop: client to remote first, then remote to client. */
  function Turn(enc: Keying, dec: Keying, t: Traffic, r: Ready): Traffic {
    var t1 :=
      match r.fromClient
      case None => t
      case Some(data) =>
        var out := enc.engine(enc.seed, t.encCalls, Call(Encipher, data));
        t.(encCalls := t.encCalls + [Call(Encipher, data)], toRemote := t.toRemote + out, broke := |out| == 0);
    if t1.broke then t1
    else
      match r.fromRemote
      case None => t1
      case Some(data) =>
        var out := dec.engine(dec.seed, t1.decCalls, Call(Decipher, data));
        t1.(decCalls := t1.decCalls + [Call(Decipher, data)], toClient := t1.toClient + out, broke := |out| == 0)
  }

  /** The relay from `t` over the `select` results `rounds`, up to the first `send` that reports 0. */
  function Exchange(enc: Keying, dec: Keying, t: Traffic, rounds: seq<Ready>): Traffic
    decreases |rounds|
  {
    if rounds == [] || t.broke then t
    else Exchange(enc, dec, Turn(enc, dec, t, rounds[0]), rounds[1..])
  }

  /** The relay's state when it starts on cipher objects with earlier calls `encCalls` and `decCalls`. */
  function Start(encCalls: seq<Call>, decCalls: seq<Call>): Traffic {
    Traffic(encCalls, decCalls, [], [], false)
  }

  /** Relaying over `a` and then over `b` is relaying over `a + b`. */
  lemma {:induction false} ExchangeAppend(enc: Keying, dec: Keying, t: Traffic, a: seq<Ready>, b: seq<Ready>)
    ensures Exchange(enc, dec, t, a + b) == Exchange(enc, dec, Exchange(enc, dec, t, a), b)
    decreases |a|
  {
    if a == [] {
      assert a + b == b;
    } else if t.broke {
      assert a + b != [];
    } else {
      assert (a + b)[0] == a[0];
      assert (a + b)[1..] == a[1..] + b;
      ExchangeAppend(enc, dec, Turn(enc, dec, t, a[0]), a[1..], b);
    }
  }

  /** Once a `send` reported 0 the loop is left: no later `select` result changes anything. */
  lemma ExchangeStopsAtBreak(enc: Keying, dec: Keying, t: Traffic, a: seq<Ready>, r: Ready, b: seq<Ready>)
    requires !Exchange(enc, dec, t, a).broke
    requires Turn(enc, dec, Exchange(enc, dec, t, a), r).broke
    ensures Exchange(enc, dec, t, a + [r] + b) == Turn(enc, dec, Exchange(enc, dec, t, a), r)
  {
    ExchangeAppend(enc, dec, t, a + [r], b);
    ExchangeAppend(enc, dec, t, a, [r]);
    assert [r][1..] == [];
  }

  /**
   * `t` extends a relay that began with the calls `h1` and `h2`: the remote got the
   * encrypting object's outputs for its new (enciphering) calls, the client the
   * decrypting object's outputs for its new (deciphering) calls, in order.
   */
  ghost predicate Carried(enc: Keying, dec: Keying, h1: seq<Call>, h2: seq<Call>, t: Traffic) {
    && |h1| <= |t.encCalls| && t.encCalls[..|h1|] == h1
    && |h2| <= |t.decCalls| && t.decCalls[..|h2|] == h2
    && (forall i :: |h1| <= i < |t.encCalls| ==> t.encCalls[i].dir == Encipher)
    && (forall i :: |h2| <= i < |t.decCalls| ==> t.decCalls[i].dir == Decipher)
    && t.toRemote == Outputs(enc.engine, enc.seed, h1, t.encCalls[|h1|..])
    && t.toClient == Outputs(dec.engine, dec.seed, h2, t.decCalls[|h2|..])
  }

  lemma TurnCarried(enc: Keying, dec: Keying, h1: seq<Call>, h2: seq<Call>, t: Traffic, r: Ready)
    requires Carried(enc, dec, h1, h2, t)
    ensures Carried(enc, dec, h1, h2, Turn(enc, dec, t, r))
  {
    var t1 := t;
    if r.fromClient.Some? {
      var c := Call(Encipher, r.fromClient.value);
      t1 := t.(encCalls := t.encCalls + [c],
               toRemote := t.toRemote + enc.engine(enc.seed, t.encCalls, c),
               broke := |enc.engine(enc.seed, t.encCalls, c)| == 0);
      SnocCarried(enc.engine, enc.seed, h1, t.encCalls, c);
    }
    if !t1.broke && r.fromRemote.Some? {
      var c := Call(Decipher, r.fromRemote.value);
      SnocCarried(dec.engine, dec.seed, h2, t1.decCalls, c);
    }
  }

  /** One more call on a cipher object, seen against the calls it had when the relay began. */
  lemma SnocCarried(engine: Engine, seed: Seed, h: seq<Call>, calls: seq<Call>, c: Call)
    requires |h| <= |calls| && calls[..|h|] == h
    ensures (calls + [c])[..|h|] == h
    ensures (calls + [c])[|h|..] == calls[|h|..] + [c]
    ensures Outputs(engine, seed, h, (calls + [c])[|h|..])
         == Outputs(engine, seed, h, calls[|h|..]) + engine(seed, calls, c)
  {
    assert (calls + [c])[|h|..] == calls[|h|..] + [c];
    OutputsSnoc(engine, seed, h, calls[|h|..], c);
    assert h + calls[|h|..] == calls;
  }

  lemma {:induction false} ExchangeCarried(enc: Keying, dec: Keying, h1: seq<Call>, h2: seq<Call>, t: Traffic, rounds: seq<Ready>)
    requires Carried(enc, dec, h1, h2, t)
    ensures Carried(enc, dec, h1, h2, Exchange(enc, dec, t, rounds))
    decreases |rounds|
  {
    if rounds != [] && !t.broke {
      TurnCarried(enc, dec, h1, h2, t, rounds[0]);
      ExchangeCarried(enc, dec, h1, h2, Turn(enc, dec, t, rounds[0]), rounds[1..]);
    }
  }

  /**
   * What `tcp_relay` sends each way is one cipher stream per direction: the remote
   * gets the encrypting object's output over the client's data, and the client the
   * decrypting object's output over the remote's data, each in the order received.
   */
  lemma ExchangeStreams(enc: Keying, dec: Keying, h1: seq<Call>, h2: seq<Call>, rounds: seq<Ready>)
    ensures var t := Exchange(enc, dec, Start(h1, h2), rounds);
            && |h1| <= |t.encCalls| && t.encCalls[..|h1|] == h1
            && |h2| <= |t.decCalls| && t.decCalls[..|h2|] == h2
            && (forall i :: |h1| <= i < |t.encCalls| ==> t.encCalls[i].dir == Encipher)
            && (forall i :: |h2| <= i < |t.decCalls| ==> t.decCalls[i].dir == Decipher)
            && t.toRemote == Outputs(enc.engine, enc.seed, h1, t.encCalls[|h1|..])
            && t.toClient == Outputs(dec.engine, dec.seed, h2, t.decCalls[|h2|..])
  {
    assert h1[|h1|..] == [] && h2[|h2|..] == [];
    assert h1[..|h1|] == h1 && h2[..|h2|] == h2;
    ExchangeCarried(enc, dec, h1, h2, Start(h1, h2), rounds);
  }

  /** The enciphering call a `select` result asks for: one per chunk received from the client. */
  function ClientCall(r: Ready): seq<Call> {
    match r.fromClient
    case None => []
    case Some(data) => [Call(Encipher, data)]
  }

  /** The deciphering call a `select` result asks for: one per chunk received from the remote. */
  function RemoteCall(r: Ready): seq<Call> {
    match r.fromRemote
    case None => []
    case Some(data) => [Call(Decipher, data)]
  }

  /** Reference definition: every chunk the client sent, enciphered in the order received. */
  function ClientCalls(rounds: seq<Ready>): (calls: seq<Call>)
    ensures |calls| <= |rounds|
  {
    if rounds == [] then [] else ClientCall(rounds[0]) + ClientCalls(rounds[1..])
  }

  /** Reference definition: every chunk the remote sent, deciphered in the order received. */
  function RemoteCalls(rounds: seq<Ready>): (calls: seq<Call>)
    ensures |calls| <= |rounds|
  {
    if rounds == [] then [] else RemoteCall(rounds[0]) + RemoteCalls(rounds[1..])
  }

  /** A turn that did not break made exactly the calls its `select` result asks for. */
  lemma TurnCalls(enc: Keying, dec: Keying, t: Traffic, r: Ready)
    requires !Turn(enc, dec, t, r).broke
    ensures Turn(enc, dec, t, r).encCalls == t.encCalls + ClientCall(r)
    ensures Turn(enc, dec, t, r).decCalls == t.decCalls + RemoteCall(r)
  {
    assert t.encCalls + [] == t.encCalls && t.decCalls + [] == t.decCalls;
  }

  /**
   * A relay that never broke enciphered exactly the client's chunks and deciphered
   * exactly the remote's, each in the order `select` delivered them.
   */
  lemma {:induction false} ExchangeData(enc: Keying, dec: Keying, t: Traffic, rounds: seq<Ready>)
    requires !t.broke
    ensures var u := Exchange(enc, dec, t, rounds);
            !u.broke ==> u.encCalls == t.encCalls + ClientCalls(rounds) && u.decCalls == t.decCalls + RemoteCalls(rounds)
    decreases |rounds|
  {
    if rounds == [] {
      assert t.encCalls + [] == t.encCalls && t.decCalls + [] == t.decCalls;
    } else {
      var t' := Turn(enc, dec, t, rounds[0]);
      if !t'.broke {
        TurnCalls(enc, dec, t, rounds[0]);
        ExchangeData(enc, dec, t', rounds[1..]);
        AppendAssociative(t.encCalls, ClientCall(rounds[0]), ClientCalls(rounds[1..]));
        AppendAssociative(t.decCalls, RemoteCall(rounds[0]), RemoteCalls(rounds[1..]));
      }
    }
  }

  /**
   * A relay that broke did so in round `i`: the rounds before it ran without breaking,
   * and the relay's end state is what round `i` left.
   */
  lemma {:induction false} ExchangeCut(enc: Keying, dec: Keying, t: Traffic, rounds: seq<Ready>) returns (i: nat)
    requires !t.broke && Exchange(enc, dec, t, rounds).broke
    ensures i < |rounds|
    ensures !Exchange(enc, dec, t, rounds[..i]).broke
    ensures Exchange(enc, dec, t, rounds) == Turn(enc, dec, Exchange(enc, dec, t, rounds[..i]), rounds[i])
    decreases |rounds|
  {
    var t' := Turn(enc, dec, t, rounds[0]);
    if t'.broke {
      i := 0;
      assert rounds[..0] == [];
    } else {
      var j := ExchangeCut(enc, dec, t', rounds[1..]);
      i := j + 1;
      assert rounds[..i][0] == rounds[0] && rounds[..i][1..] == rounds[1..][..j];
      assert rounds[i] == rounds[1..][j];
    }
  }

  /**
   * What `tcp_relay` sends each way before any `send` reports 0: the remote gets the
   * encrypting object's output over exactly the client's chunks, and the client the
   * decrypting object's output over exactly the remote's chunks, in arrival order.
   */
  lemma ExchangeCarriesData(enc: Keying, dec: Keying, h1: seq<Call>, h2: seq<Call>, rounds: seq<Ready>)
    ensures var t := Exchange(enc, dec, Start(h1, h2), rounds);
            !t.broke ==>
              && t.toRemote == Outputs(enc.engine, enc.seed, h1, ClientCalls(rounds))
              && t.toClient == Outputs(dec.engine, dec.seed, h2, RemoteCalls(rounds))
  {
    ExchangeStreams(enc, dec, h1, h2, rounds);
    ExchangeData(enc, dec, Start(h1, h2), rounds);
    assert (h1 + ClientCalls(rounds))[|h1|..] == ClientCalls(rounds);
    assert (h2 + RemoteCalls(rounds))[|h2|..] == RemoteCalls(rounds);
  }

  // ---------------------------------------------------------------------------
  // What the handshake writes, and how it differs from the current proxy's
  // ---------------------------------------------------------------------------

  /** How the request phase from offset `p` can end, and what it writes then. */
  lemma RequestReplies(input: seq<byte>, p: nat, connectOk: bool)
    requires p <= |input|
    ensures var h := Request(input, p, connectOk);
            && h.consumed <= |input|
            && (h.ending.Refused? ==> h.ending.reason in {Holosocks.UnsupportedCommand, Holosocks.UnsupportedAddressType})
            && (h.ending == Refused(Holosocks.UnsupportedCommand) ==> h.reply == [5, 7, 0, 1, 0, 0, 0, 0, 0, 0])
            && (h.ending == Refused(Holosocks.UnsupportedAddressType) ==> h.reply == [])
            && (h.ending.Tunnelled? || h.ending.ConnectFailed? ==>
                  && h.reply == [5, 0, 0, 1, 0, 0, 0, 0, 0x0D, 0x3D]
                  && h.ending.header[0] in {AtypIPv4, AtypDomain})
            && (h.ending.Tunnelled? ==> connectOk) && (h.ending.ConnectFailed? ==> !connectOk)
            && (h.ending.Aborted? ==> h.reply == [])
  {
    BoundReplyBytes();
    ErrorReplyMeaning(RepCommandNotSupported);
    var data := Take(input, p, 4);
    if |data| >= 4 && data[1] == CmdConnect {
      var d := Destination(input, p + 4, data[3]);
      if d.Copied? {
        assert data[3] in {AtypIPv4, AtypDomain};
      }
    }
  }

  /**
   * A command other than CONNECT, and only that, gets the 10-byte `05 07` reply; it is
   * checked once two request bytes are there, before the length of the read is.
   */
  lemma RequestCommandRefusal(input: seq<byte>, p: nat, connectOk: bool)
    ensures var data, h := Take(input, p, 4), Request(input, p, connectOk);
            && (h.ending == Refused(Holosocks.UnsupportedCommand) <==> |data| >= 2 && data[1] != CmdConnect)
            && (|data| >= 2 && data[1] != CmdConnect ==>
                  h == Handshake(Refused(Holosocks.UnsupportedCommand), [5, 7, 0, 1, 0, 0, 0, 0, 0, 0], p + |data|))
  {
    ErrorReplyMeaning(RepCommandNotSupported);
  }

  /**
   * A CONNECT whose ATYP is neither 1 nor 3 (IPv6 included), and only that, is refused
   * with nothing written and nothing read after the four request bytes.
   */
  lemma RequestAddressTypeRefusal(input: seq<byte>, p: nat, connectOk: bool)
    ensures var data, h := Take(input, p, 4), Request(input, p, connectOk);
            && (h.ending == Refused(Holosocks.UnsupportedAddressType) <==>
                  |data| == 4 && data[1] == CmdConnect && data[3] !in {AtypIPv4, AtypDomain})
            && (|data| == 4 && data[1] == CmdConnect && data[3] !in {AtypIPv4, AtypDomain} ==>
                  h == Handshake(Refused(Holosocks.UnsupportedAddressType), [], p + 4))
  {
  }

  /** The same refusals after an accepted greeting: `05 00`, then the `05 07` reply or nothing. */
  lemma NegotiateRefusals(input: seq<byte>, connectOk: bool)
    requires Greet(input).Proceed?
    ensures var p := Greet(input).next;
            var data, h := Take(input, p, 4), Negotiate(input, connectOk);
            && (|data| >= 2 && data[1] != CmdConnect ==>
                  h == Handshake(Refused(Holosocks.UnsupportedCommand), [5, 0, 5, 7, 0, 1, 0, 0, 0, 0, 0, 0], p + |data|))
            && (|data| == 4 && data[1] == CmdConnect && data[3] !in {AtypIPv4, AtypDomain} ==>
                  h == Handshake(Refused(Holosocks.UnsupportedAddressType), [5, 0], p + 4))
  {
    var p := Greet(input).next;
    RequestCommandRefusal(input, p, connectOk);
    RequestAddressTypeRefusal(input, p, connectOk);
    assert [5, 0] + [5, 7, 0, 1, 0, 0, 0, 0, 0, 0] == [5, 0, 5, 7, 0, 1, 0, 0, 0, 0, 0, 0];
    assert [5, 0] + [] == [5, 0];
  }

  /** What each kind of ending writes to the client; the fixed reply is written before any connect. */
  lemma NegotiateReplies(input: seq<byte>, connectOk: bool)
    ensures var h := Negotiate(input, connectOk);
            && h.consumed <= |input|
            && (h.ending == Refused(Holosocks.BadVersion) || h.ending == Refused(Holosocks.NoAcceptableAuth) ==>
                  h.reply == [] && h.consumed == |Take(input, 0, 3)|)
            && (h.ending == Refused(Holosocks.UnsupportedCommand) ==> h.reply == [5, 0, 5, 7, 0, 1, 0, 0, 0, 0, 0, 0])
            && (h.ending == Refused(Holosocks.UnsupportedAddressType) ==> h.reply == [5, 0])
            && (h.ending.Tunnelled? || h.ending.ConnectFailed? ==>
                  && h.reply == [5, 0, 5, 0, 0, 1, 0, 0, 0, 0, 0x0D, 0x3D]
                  && h.ending.header[0] in {AtypIPv4, AtypDomain})
            && (h.ending.Tunnelled? ==> connectOk) && (h.ending.ConnectFailed? ==> !connectOk)
            && (h.ending.Aborted? ==> h.reply == [] || h.reply == [5, 0])
  {
    match Greet(input)
    case Stop(_) =>
    case Proceed(p) =>
      RequestReplies(input, p, connectOk);
  }

  /** Of a greeting of at least 3 bytes, exactly 3 are read, and only bytes 0 and 2 are looked at. */
  lemma GreetThreeBytes(input: seq<byte>)
    requires |input| >= 3
    ensures Greet(input).Proceed? <==> input[0] == Version && input[2] == MethodNoAuth
    ensures Greet(input).Proceed? ==> Greet(input).next == 3
    ensures Greet(input).Stop? ==> Greet(input).handshake.reply == [] && Greet(input).handshake.consumed == 3
  {
    assert Take(input, 0, 3) == input[..3];
  }

  /**
   * A greeting offering methods 1 and 0 is accepted by the current proxy, which looks
   * for 0 among all offered methods, and refused here, where byte 2 is the first method.
   */
  lemma GreetingsDisagree()
    ensures Holosocks.Greet(ClientGreeting([1, 0])) == Holosocks.Accepted(4)
    ensures Greet(ClientGreeting([1, 0])) == Stop(Handshake(Refused(Holosocks.NoAcceptableAuth), [], 3))
  {
    var g := ClientGreeting([1, 0]);
    assert g == [5, 2, 1, 0];
    assert Take(g, 0, 2) == [5, 2] && Take(g, 2, 2) == [1, 0] && Take(g, 0, 3) == [5, 2, 1];
  }

  /** The usual one-method greeting `05 01 00` is accepted with 3 bytes read. */
  lemma GreetNoAuth(request: seq<byte>, rest: seq<byte>)
    ensures Greet(ClientGreeting([MethodNoAuth]) + request + rest) == Proceed(3)
  {
    var input := ClientGreeting([MethodNoAuth]) + request + rest;
    assert input[0..3] == [5, 1, 0];
  }

  lemma DestinationIPv4(prefix: seq<byte>, raw: seq<byte>, port: nat, rest: seq<byte>)
    requires |raw| == 4 && port < 0x1_0000
    ensures var input := prefix + ClientRequest(CmdConnect, IPv4(raw), port) + rest;
            Destination(input, |prefix| + 4, AtypIPv4) == Copied(raw, |prefix| + 8)
  {
    var request := ClientRequest(CmdConnect, IPv4(raw), port);
    assert request[4..8] == raw;
    Holosocks.TakeInside(prefix, request, rest, 4, 4);
  }

  lemma DestinationDomain(prefix: seq<byte>, name: seq<byte>, port: nat, rest: seq<byte>)
    requires |name| < 256 && port < 0x1_0000
    ensures var input := prefix + ClientRequest(CmdConnect, DomainName(name), port) + rest;
            Destination(input, |prefix| + 4, AtypDomain) == Copied([|name| as byte] + name, |prefix| + 5 + |name|)
  {
    var request := ClientRequest(CmdConnect, DomainName(name), port);
    assert request[4..5] == [|name| as byte];
    assert request[5..5 + |name|] == name;
    Holosocks.TakeInside(prefix, request, rest, 4, 1);
    Holosocks.TakeInside(prefix, request, rest, 5, |name|);
  }

  /** The request phase when the four fixed bytes, the address part and the port bytes are as given. */
  lemma RequestCopies(input: seq<byte>, p: nat, connectOk: bool, atyp: byte, addr: seq<byte>, p2: nat)
    requires |Take(input, p, 4)| == 4 && Take(input, p, 4)[1] == CmdConnect && Take(input, p, 4)[3] == atyp
    requires Destination(input, p + 4, atyp) == Copied(addr, p2)
    ensures var pb := Take(input, p2, 2);
            var header := [atyp] + addr + pb;
            Request(input, p, connectOk)
              == Handshake(if connectOk then Tunnelled(header) else ConnectFailed(header), BoundReply(), p2 + |pb|)
  {
  }

  /** The handshake after `05 01 00` once the request phase is known. */
  lemma NegotiateNoAuth(request: seq<byte>, rest: seq<byte>, connectOk: bool)
    ensures var input := ClientGreeting([MethodNoAuth]) + request + rest;
            var h := Request(input, 3, connectOk);
            Negotiate(input, connectOk) == h.(reply := MethodReply(MethodNoAuth) + h.reply)
  {
    GreetNoAuth(request, rest);
  }

  lemma RequestIPv4(raw: seq<byte>, port: nat, rest: seq<byte>, connectOk: bool)
    requires |raw| == 4 && port < 0x1_0000
    ensures var greeting, request := ClientGreeting([MethodNoAuth]), ClientRequest(CmdConnect, IPv4(raw), port);
            var input := greeting + request + rest;
            var header := [AtypIPv4] + raw + BigEndian16(port);
            Request(input, 3, connectOk)
              == Handshake(if connectOk then Tunnelled(header) else ConnectFailed(header), BoundReply(), 3 + |request|)
  {
    var greeting := ClientGreeting([MethodNoAuth]);
    assert |greeting| == 3;
    Holosocks.RequestFields(greeting, IPv4(raw), port, rest);
    DestinationIPv4(greeting, raw, port, rest);
    RequestCopies(greeting + ClientRequest(CmdConnect, IPv4(raw), port) + rest, 3, connectOk, AtypIPv4, raw, 11);
  }

  lemma RequestDomain(name: seq<byte>, port: nat, rest: seq<byte>, connectOk: bool)
    requires |name| < 256 && port < 0x1_0000
    ensures var greeting, request := ClientGreeting([MethodNoAuth]), ClientRequest(CmdConnect, DomainName(name), port);
            var input := greeting + request + rest;
            var header := [AtypDomain] + ([|name| as byte] + name) + BigEndian16(port);
            Request(input, 3, connectOk)
              == Handshake(if connectOk then Tunnelled(header) else ConnectFailed(header), BoundReply(), 3 + |request|)
  {
    var greeting := ClientGreeting([MethodNoAuth]);
    assert |greeting| == 3;
    Holosocks.RequestFields(greeting, DomainName(name), port, rest);
    DestinationDomain(greeting, name, port, rest);
    RequestCopies(greeting + ClientRequest(CmdConnect, DomainName(name), port) + rest, 3, connectOk,
                  AtypDomain, [|name| as byte] + name, 8 + |name|);
  }

  /**
   * A CONNECT for an IPv4 address after the usual one-method greeting: the header is
   * ATYP 1, the 4 address bytes exactly as the client sent them, and the port bytes.
   */
  lemma NegotiateConnectIPv4(raw: seq<byte>, port: nat, rest: seq<byte>, connectOk: bool)
    requires |raw| == 4 && port < 0x1_0000
    ensures var request := ClientRequest(CmdConnect, IPv4(raw), port);
            var header := [AtypIPv4] + raw + BigEndian16(port);
            Negotiate(ClientGreeting([MethodNoAuth]) + request + rest, connectOk)
              == Handshake(if connectOk then Tunnelled(header) else ConnectFailed(header),
                           MethodReply(MethodNoAuth) + BoundReply(), 3 + |request|)
  {
    NegotiateNoAuth(ClientRequest(CmdConnect, IPv4(raw), port), rest, connectOk);
    RequestIPv4(raw, port, rest, connectOk);
  }

  /**
   * A CONNECT for a domain name after the usual one-method greeting: the header is
   * ATYP 3, the length byte and the name exactly as the client sent them, and the port bytes.
   */
  lemma NegotiateConnectDomain(name: seq<byte>, port: nat, rest: seq<byte>, connectOk: bool)
    requires |name| < 256 && port < 0x1_0000
    ensures var request := ClientRequest(CmdConnect, DomainName(name), port);
            var header := [AtypDomain] + ([|name| as byte] + name) + BigEndian16(port);
            Negotiate(ClientGreeting([MethodNoAuth]) + request + rest, connectOk)
              == Handshake(if connectOk then Tunnelled(header) else ConnectFailed(header),
                           MethodReply(MethodNoAuth) + BoundReply(), 3 + |request|)
  {
    NegotiateNoAuth(ClientRequest(CmdConnect, DomainName(name), port), rest, connectOk);
    RequestDomain(name, port, rest, connectOk);
  }

  /**
   * The two headers for the same destination: a domain header here is the current one
   * behind an ATYP byte; an IPv4 header here carries the raw bytes where the current
   * one carries their dotted-decimal text, which reads back to those bytes.
   */
  lemma HeadersCompared(a: Address, port: nat, ntop: Holosocks.Formatter)
    requires ValidAddress(a) && !a.IPv6? && port < 0x1_0000
    ensures |Holosocks.AddressText(a, ntop)| < 256
    ensures var here := AddressField(a) + BigEndian16(port);
            var current := Holosocks.Header(Holosocks.Target(AtypOf(a), Holosocks.AddressText(a, ntop), BigEndian16(port)));
            && here[|here| - 2..] == current[|current| - 2..] == BigEndian16(port)
            && (a.DomainName? ==> here == [AtypDomain] + current)
            && (a.IPv4? ==> here[..5] == [AtypIPv4] + a.raw
                            && ParseDotted(current[1..|current| - 2]) == Some(a.raw))
  {
    var text := Holosocks.AddressText(a, ntop);
    if a.IPv4? {
      DottedLength(a.raw);
      ParseDottedOfDotted(a.raw);
    }
    var current := Holosocks.Header(Holosocks.Target(AtypOf(a), text, BigEndian16(port)));
    assert current[1..|current| - 2] == text;
  }

  /**
   * An IPv6 CONNECT is refused here after `05 00`, with nothing more written and no
   * header built, while the current proxy tunnels it.
   */
  lemma IPv6Refused(raw: seq<byte>, port: nat, rest: seq<byte>, connectOk: bool, ntop: Holosocks.Formatter)
    requires |raw| == 16 && port < 0x1_0000 && |ntop(raw)| < 256
    ensures var input := ClientGreeting([MethodNoAuth]) + ClientRequest(CmdConnect, IPv6(raw), port) + rest;
            && Negotiate(input, connectOk) == Handshake(Refused(Holosocks.UnsupportedAddressType), MethodReply(MethodNoAuth), 7)
            && Holosocks.Negotiate(input, true, ntop).outcome.Connected?
  {
    var greeting, request := ClientGreeting([MethodNoAuth]), ClientRequest(CmdConnect, IPv6(raw), port);
    var input := greeting + request + rest;
    assert |greeting| == 3;
    NegotiateNoAuth(request, rest, connectOk);
    Holosocks.RequestFields(greeting, IPv6(raw), port, rest);
    assert Request(input, 3, connectOk) == Handshake(Refused(Holosocks.UnsupportedAddressType), [], 7);
    Holosocks.NegotiateConnectIPv6([MethodNoAuth], raw, port, rest, true, ntop);
  }

  /**
   * A client whose bytes end inside the IPv4 address or the port still gets the fixed
   * reply, and the bytes it did send go upstream as a truncated header.
   */
  lemma TruncatedIPv4Forwarded(nmethods: byte, ver: byte, rsv: byte, partial: seq<byte>, connectOk: bool)
    requires |partial| < 6
    ensures var input := [Version, nmethods, MethodNoAuth] + [ver, CmdConnect, rsv, AtypIPv4] + partial;
            var header := [AtypIPv4] + partial;
            Negotiate(input, connectOk)
              == Handshake(if connectOk then Tunnelled(header) else ConnectFailed(header),
                           MethodReply(MethodNoAuth) + BoundReply(), |input|)
  {
    var input := [Version, nmethods, MethodNoAuth] + [ver, CmdConnect, rsv, AtypIPv4] + partial;
    assert Take(input, 0, 3) == [Version, nmethods, MethodNoAuth];
    assert Take(input, 3, 4) == [ver, CmdConnect, rsv, AtypIPv4];
    var ip := Take(input, 7, 4);
    assert ip == partial[..|ip|];
    assert Take(input, 7 + |ip|, 2) == partial[|ip|..];
    assert ip + partial[|ip|..] == partial;
    RequestCopies(input, 3, connectOk, AtypIPv4, ip, 7 + |ip|);
    AppendAssociative([AtypIPv4], ip, partial[|ip|..]);
  }

  // ---------------------------------------------------------------------------
  // The handler
  // ---------------------------------------------------------------------------

  class Socks5Server {
    const key: seq<byte>
    var encryptState: StreamCipher?
    var decryptState: StreamCipher?

    /** A handler for one connection, before `handle` assigned `_encrypt` and `_decrypt`. */
    constructor (key: seq<byte>)
      ensures this.key == key && encryptState == null && decryptState == null
    {
      this.key := key;
      encryptState, decryptState := null, null;
    }

    /** The cipher fields that `handle` assigns: both keyed with `key` and `iv`. */
    ghost predicate Keyed(engine: Engine, iv: seq<byte>)
      reads this
    {
      && encryptState != null && decryptState != null && encryptState != decryptState
      && encryptState.engine == engine && decryptState.engine == engine
      && encryptState.seed == Seed(key, iv) && decryptState.seed == Seed(key, iv)
    }

    /** The handshake read `h.consumed` bytes and wrote `h.reply` after `sent`. */
    ghost predicate Answered(reader: Reader, client: Writer, sent: seq<byte>, h: Handshake)
      reads reader, client
    {
      && reader.Valid()
      && reader.pos == h.consumed
      && client.sent == sent + h.reply
    }

    /**
     * After `handle` connected and relayed over `rounds`: the remote got the preamble
     * and then the relay's bytes, the client the relay's bytes after `clientBefore`, and
     * the cipher objects made exactly the calls of the header and the relay.
     */
    ghost predicate Relayed(engine: Engine, iv: seq<byte>, header: seq<byte>, rounds: seq<Ready>,
                            client: Writer, remote: Writer, clientBefore: seq<byte>, remoteBefore: seq<byte>)
      reads this, encryptState, decryptState, client, remote
    {
      && encryptState != null && decryptState != null
      && var k := Keying(engine, Seed(key, iv));
         var t := Exchange(k, k, Start([Call(Encipher, header)], []), rounds);
         && encryptState.calls == t.encCalls && decryptState.calls == t.decCalls
         && remote.sent == remoteBefore + Holosocks.Preamble(engine, Seed(key, iv), header) + t.toRemote
         && client.sent == clientBefore + t.toClient
    }

    /**
     * `handle()`. `connectOk` says whether `remote.connect` succeeded and `remote` is
     * that socket; `iv` is what the random source gives the encrypting object;
     * `rounds` are the `select` results the relay then sees.
     */
    method Handle(reader: Reader, client: Writer, remote: Writer, connectOk: bool, iv: seq<byte>,
                  engine: Engine, rounds: seq<Ready>)
      returns (ending: Ending)
      requires reader.Valid() && reader.pos == 0 && client != remote
      requires |iv| == IvLength
      modifies this, reader, client, remote
      ensures ending == Negotiate(reader.input, connectOk).ending
      ensures reader.Valid() && reader.pos == Negotiate(reader.input, connectOk).consumed
      ensures !ending.Tunnelled? ==> client.sent == old(client.sent) + Negotiate(reader.input, connectOk).reply
      ensures !ending.Tunnelled? ==> remote.sent == old(remote.sent)
      ensures !(ending.Tunnelled? || ending.ConnectFailed?) ==>
                encryptState == old(encryptState) && decryptState == old(decryptState)
      ensures (ending.Tunnelled? || ending.ConnectFailed?) ==>
                Keyed(engine, iv) && fresh(encryptState) && fresh(decryptState)
      ensures ending.ConnectFailed? ==> encryptState.calls == [] && decryptState.calls == []
      ensures ending.Tunnelled? ==>
                Relayed(engine, iv, ending.header, rounds, client, remote,
                        old(client.sent) + Negotiate(reader.input, connectOk).reply, old(remote.sent))
      ensures client.closed == old(client.closed) && remote.closed == old(remote.closed)
    {
      var accepted := HandleGreeting(reader, client);
      if !accepted {
        ending := Greet(reader.input).handshake.ending;
      } else {
        ghost var greeted := client.sent;
        ghost var h := Request(reader.input, reader.pos, connectOk);
        ending := HandleRequest(reader, client, connectOk);
        AppendAssociative(old(client.sent), MethodReply(MethodNoAuth), h.reply);
        if ending.Tunnelled? || ending.ConnectFailed? {
          Connect(client, remote, connectOk, iv, engine, ending.header, rounds);
        }
      }
    }

    /** The end of `handle`: the cipher fields, `remote.connect`, the preamble and `tcp_relay`. */
    method Connect(client: Writer, remote: Writer, connectOk: bool, iv: seq<byte>, engine: Engine,
                   header: seq<byte>, rounds: seq<Ready>)
      requires client != remote
      modifies this, client, remote
      ensures Keyed(engine, iv) && fresh(encryptState) && fresh(decryptState)
      ensures !connectOk ==> encryptState.calls == [] && decryptState.calls == []
                             && client.sent == old(client.sent) && remote.sent == old(remote.sent)
      ensures connectOk ==> Relayed(engine, iv, header, rounds, client, remote, old(client.sent), old(remote.sent))
      ensures client.closed == old(client.closed) && remote.closed == old(remote.closed)
    {
      encryptState := new StreamCipher(engine, key, iv);
      decryptState := new StreamCipher(engine, key, encryptState.seed.iv);
      if !connectOk {
        // `remote.connect` raised socket.error
        return;
      }
      var count := remote.Send(iv);
      var sealed := encryptState.Encrypt(header);
      count := remote.Send(sealed);
      ghost var k := Keying(engine, Seed(key, iv));
      ghost var preamble := remote.sent;
      AppendAssociative(old(remote.sent), iv, sealed);
      assert preamble == old(remote.sent) + Holosocks.Preamble(engine, Seed(key, iv), header);
      assert Start(encryptState.calls, decryptState.calls) == Start([Call(Encipher, header)], []);
      TcpRelay(rounds, client, remote);
      ghost var t := Exchange(k, k, Start([Call(Encipher, header)], []), rounds);
      assert remote.sent == preamble + t.toRemote;
    }

    /** `client_ask = self.rfile.read(3)`, its checks and `05 00`. */
    method HandleGreeting(reader: Reader, client: Writer) returns (accepted: bool)
      requires reader.Valid() && reader.pos == 0
      modifies reader, client
      ensures accepted == Greet(reader.input).Proceed?
      ensures accepted ==> reader.Valid() && reader.pos == Greet(reader.input).next
                           && client.sent == old(client.sent) + MethodReply(MethodNoAuth)
      ensures !accepted ==> Answered(reader, client, old(client.sent), Greet(reader.input).handshake)
      ensures client.closed == old(client.closed)
    {
      var ask := reader.Read(3);
      if |ask| == 0 {
        // client_ask[0] raises IndexError
        return false;
      }
      if ask[0] != Version || ask[|ask| - 1] != MethodNoAuth {
        return false;
      }
      client.Write(MethodReply(MethodNoAuth));
      accepted := true;
    }

    /** `data = self.rfile.read(4)` up to the reply: builds `data_to_send`. */
    method HandleRequest(reader: Reader, client: Writer, connectOk: bool) returns (ending: Ending)
      requires reader.Valid()
      modifies reader, client
      ensures ending == Request(reader.input, old(reader.pos), connectOk).ending
      ensures Answered(reader, client, old(client.sent), Request(reader.input, old(reader.pos), connectOk))
      ensures client.closed == old(client.closed)
    {
      ghost var spec := Request(reader.input, reader.pos, connectOk);
      var data := reader.Read(4);
      if |data| < 2 {
        // data[1] raises IndexError
        assert spec == Handshake(Aborted, [], reader.pos);
        return Aborted;
      }
      if data[1] != CmdConnect {
        client.Write(ErrorReply(RepCommandNotSupported));
        assert spec == Handshake(Refused(Holosocks.UnsupportedCommand), ErrorReply(RepCommandNotSupported), reader.pos);
        return Refused(Holosocks.UnsupportedCommand);
      }
      if |data| < 4 {
        // data[3] raises IndexError
        assert spec == Handshake(Aborted, [], reader.pos);
        return Aborted;
      }
      var addrType := data[3];
      var dataToSend := [addrType];
      var part := ReadAddressPart(reader, addrType);
      if part.Unknown? {
        assert spec == Handshake(Refused(Holosocks.UnsupportedAddressType), [], reader.pos);
        return Refused(Holosocks.UnsupportedAddressType);
      }
      if part.Missing? {
        // ord(b'') raises TypeError
        assert spec == Handshake(Aborted, [], reader.pos);
        return Aborted;
      }
      dataToSend := dataToSend + part.bytes;
      var addrPort := reader.Read(2);
      dataToSend := dataToSend + addrPort;
      client.Write(BoundReply());
      ending := if connectOk then Tunnelled(dataToSend) else ConnectFailed(dataToSend);
      assert spec == Handshake(ending, BoundReply(), reader.pos);
    }

    /** The `if addr_type == 1 / elif addr_type == 3` chain. */
    method ReadAddressPart(reader: Reader, addrType: byte) returns (part: AddressPart)
      requires reader.Valid()
      modifies reader
      ensures reader.Valid()
      ensures part == Destination(reader.input, old(reader.pos), addrType)
      ensures !part.Unknown? ==> reader.pos == part.next
      ensures part.Unknown? ==> reader.pos == old(reader.pos)
    {
      if addrType == AtypIPv4 {
        var ip := reader.Read(4);
        part := Copied(ip, reader.pos);
      } else if addrType == AtypDomain {
        var addrLen := reader.Read(1);
        if |addrLen| == 0 {
          return Missing(reader.pos);
        }
        var addr := reader.Read(addrLen[0] as nat);
        part := Copied(addrLen + addr, reader.pos);
      } else {
        part := Unknown;
      }
    }

    /** The two cipher objects and the bytes sent each way agree with the relay state `t`. */
    ghost predicate Relaying(sock: Writer, remote: Writer, sockBefore: seq<byte>, remoteBefore: seq<byte>, t: Traffic)
      reads this, encryptState, decryptState, sock, remote
    {
      && encryptState != null && decryptState != null
      && encryptState.calls == t.encCalls && decryptState.calls == t.decCalls
      && remote.sent == remoteBefore + t.toRemote && sock.sent == sockBefore + t.toClient
    }

    /** `tcp_relay(sock, remote)` over the `select` results `rounds`; the loop is left at the first `send` that reports 0. */
    method TcpRelay(rounds: seq<Ready>, sock: Writer, remote: Writer)
      requires encryptState != null && decryptState != null && encryptState != decryptState
      requires sock != remote
      modifies sock, remote, encryptState, decryptState
      ensures var t := Exchange(Keying(encryptState.engine, encryptState.seed),
                                Keying(decryptState.engine, decryptState.seed),
                                Start(old(encryptState.calls), old(decryptState.calls)), rounds);
              && encryptState.calls == t.encCalls && decryptState.calls == t.decCalls
              && remote.sent == old(remote.sent) + t.toRemote && sock.sent == old(sock.sent) + t.toClient
      ensures sock.closed == old(sock.closed) && remote.closed == old(remote.closed)
    {
      ghost var enc := Keying(encryptState.engine, encryptState.seed);
      ghost var dec := Keying(decryptState.engine, decryptState.seed);
      ghost var start := Start(encryptState.calls, decryptState.calls);
      ghost var sockBefore, remoteBefore := sock.sent, remote.sent;
      ghost var t := start;
      assert sockBefore + [] == sockBefore && remoteBefore + [] == remoteBefore;
      var i := 0;
      while i < |rounds|
        invariant 0 <= i <= |rounds|
        invariant !t.broke
        invariant Exchange(enc, dec, start, rounds) == Exchange(enc, dec, t, rounds[i..])
        invariant Relaying(sock, remote, sockBefore, remoteBefore, t)
        invariant sock.closed == old(sock.closed) && remote.closed == old(remote.closed)
      {
        assert rounds[i..][1..] == rounds[i + 1..];
        var broke;
        broke, t := RelayTurn(rounds[i], sock, remote, sockBefore, remoteBefore, t);
        if broke {
          return;
        }
        i := i + 1;
      }
    }

    /** One pass through the body of the `while True` loop, given what `select` reported. */
    method RelayTurn(r: Ready, sock: Writer, remote: Writer, ghost sockBefore: seq<byte>,
                     ghost remoteBefore: seq<byte>, ghost t: Traffic)
      returns (broke: bool, ghost t': Traffic)
      requires encryptState != null && decryptState != null && encryptState != decryptState
      requires sock != remote
      requires !t.broke && Relaying(sock, remote, sockBefore, remoteBefore, t)
      modifies sock, remote, encryptState, decryptState
      ensures t' == Turn(Keying(encryptState.engine, encryptState.seed),
                         Keying(decryptState.engine, decryptState.seed), t, r)
      ensures broke == t'.broke
      ensures Relaying(sock, remote, sockBefore, remoteBefore, t')
      ensures sock.closed == old(sock.closed) && remote.closed == old(remote.closed)
    {
      ghost var enc := Keying(encryptState.engine, encryptState.seed);
      ghost var dec := Keying(decryptState.engine, decryptState.seed);
      t' := t;
      if r.fromClient.Some? {
        var payload := encryptState.Encrypt(r.fromClient.value);
        var count := remote.Send(payload);
        t' := t.(encCalls := t.encCalls + [Call(Encipher, r.fromClient.value)],
                 toRemote := t.toRemote + payload, broke := |payload| == 0);
        if count <= 0 {
          return true, t';
        }
      }
      if r.fromRemote.Some? {
        var payload := decryptState.Decrypt(r.fromRemote.value);
        var count := sock.Send(payload);
        t' := t'.(decCalls := t'.decCalls + [Call(Decipher, r.fromRemote.value)],
                  toClient := t'.toClient + payload, broke := |payload| == 0);
        if count <= 0 {
          return true, t';
        }
      }
      broke := false;
    }
  }
}
