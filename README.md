# holosocks local proxy: a verified model of the SOCKS5 front end

This project models the client-side ("local") half of a small shadowsocks-style tunnel. A local program speaks SOCKS5 (RFC 1928) to the proxy. The proxy reads the destination the program asks for and dials a remote relay host. It sends that host a fresh 16-byte IV in the clear, followed by the enciphered destination header. It then pumps bytes both ways through a pair of stream-cipher objects keyed from a passphrase.

Two generations of the proxy are modelled:

- `holosocks.dfy` is the current asyncio proxy, `holosocks/sslocal.py`.
  - The `Negotiate` function specifies the whole handshake as a function of the bytes the client sends.
  - The class `Server` follows `handle`, `relay` and `close_transport` step by step over a byte cursor and output buffers. It is proved to agree with `Negotiate` and with `Chunks`.
- `legacy.dfy` is the older threaded proxy, `sslocal.py`.
  - Its handshake differs: a fixed 3-byte greeting, a header that starts with ATYP and carries raw IPv4 bytes, no IPv6, and a fixed reply bound to port 3389.
  - It has its own specification functions `Negotiate` and `Exchange` (the `tcp_relay` loop), and the class `Socks5Server` proved against them.
  - It also holds comparison lemmas that set the two handshakes side by side on the same client bytes.
- `encrypt.dfy` covers the helpers in `encrypt.py`: the padding pair `pkcs7_encode`/`pkcs7_decode`, and the IV framing of `aes_cfb.encrypt`/`decrypt`.

Shared modules:

| File | Contents |
|---|---|
| `frames.dfy` | The SOCKS5 frames and the upstream header, with the parsers a client or the relay host applies to them. |
| `bytes.dfy` | The big-endian port encoding and the dotted-decimal text of an IPv4 address, with its parser. |
| `streams.dfy` | A read cursor and a write buffer. |
| `cipher.dfy` | An abstract stateful stream cipher. One call's output is given by an opaque `Engine` of the seed `(key, iv)`, the object's earlier calls and the call itself. |
| `wrappers.dfy` | `Option`. |

## Model

| member | source | states |
|---|---|---|
| Bytes.PortOfBigEndian16 | holosocks/sslocal.py:86-87 | Unpacking the two big-endian bytes of a port gives the port back. |
| Bytes.BigEndian16PortOf | holosocks/sslocal.py:86-91 | The two port bytes the client sent reach the header unchanged: packing the unpacked port gives the same bytes. |
| Bytes.BigEndian16 | holosocks/sslocal.py:58 | `struct.pack('>H', port)` is two bytes, high byte first. `PortOfBigEndian16` proves that unpacking them gives the port back. |
| Bytes.PortOf | holosocks/sslocal.py:86-87 | `struct.unpack('>H', b)[0]` is below 65536. `BigEndian16PortOf` proves that packing it again gives the same two bytes. |
| Bytes.DecimalText | holosocks/sslocal.py:65-66 | The decimal text of an address byte is one to three ASCII digits with no leading zero. |
| Bytes.DottedLength | holosocks/sslocal.py:65-66 | `inet_ntoa` text of 4 bytes is 7 to 15 bytes long, so its length always fits the header's length byte. |
| Bytes.ParseDottedOfDotted | holosocks/sslocal.py:65-66 | The dotted-decimal text of an IPv4 address parses back to exactly its 4 raw bytes. |
| Bytes.DottedInjective | holosocks/sslocal.py:65-66 | Two IPv4 addresses get the same dotted text if and only if they are equal. |
| Bytes.Dotted | holosocks/sslocal.py:65-66 | The `inet_ntoa` text of 4 address bytes: their decimal texts joined by dots. `ParseDottedOfDotted`, `DottedLength` and `DottedInjective` state what it means. |
| Streams.TakeMeaning | holosocks/sslocal.py:34-42 | A read of up to `n` bytes returns the next bytes of the input, at most `n`, and fewer only at the end of the input. |
| Streams.Reader.Read | holosocks/sslocal.py:52 | A read returns the next chunk of the input and advances the cursor by exactly its length. |
| Streams.Writer.Write | holosocks/sslocal.py:44 | Writing appends the data to what the peer receives and leaves the connection's open/closed state alone. |
| Streams.Writer.Send | sslocal.py:33-38 | `send` appends the whole payload and reports its length. |
| Streams.Writer.Close | holosocks/sslocal.py:180-182 | After a close the writer is closed whatever it was before, and nothing more was sent, so a second close changes nothing. |
| Cipher.OutputsAppend | holosocks/sslocal.py:130-141 | The outputs of one cipher object over two call sequences in a row are the outputs over their concatenation. |
| Cipher.StreamCipher.constructor | holosocks/sslocal.py:130-132 | A new cipher object is seeded with `(key, iv)` and has made no calls. |
| Cipher.StreamCipher.Encrypt | holosocks/sslocal.py:135 | `encrypt` returns the engine's output for this call after all earlier calls, and records the call. |
| Cipher.StreamCipher.Decrypt | holosocks/sslocal.py:164 | `decrypt` returns the engine's output for this call after all earlier calls, and records the call. |
| Frames.Zeros | holosocks/sslocal.py:57 | Builds the `n` zero bytes that every reply of the current proxy carries as its bound address. `ZerosAnyIPv4` proves that the 4-byte form is `0.0.0.0`. `ErrorReplyMeaning` and `SuccessReplyMeaning` give the replies it appears in. |
| Frames.ZerosAnyIPv4 | holosocks/sslocal.py:57 | `inet_ntoa` spells the 4 zero bytes as `0.0.0.0`, and that text parses back to them, so `inet_aton('0.0.0.0')` is `Zeros(4)`. |
| Frames.MethodReply | holosocks/sslocal.py:44-47 | The method-selection reply `05 METHOD`. `Negotiate` puts `05 00` in front of every accepted request, and `GreetReplies` shows `05 FF` for a refusal. |
| Frames.Reply | holosocks/sslocal.py:113-118 | A reply frame is 6 bytes longer than its bound address. |
| Frames.ParseReplyOfReply | holosocks/sslocal.py:112-128 | A client's reply parser reads back exactly the REP, ATYP, bound address and port that went into an IPv4-form or IPv6-form reply. |
| Frames.ErrorReplyMeaning | holosocks/sslocal.py:55-59 | An error reply is the 10 bytes `05 rep 00 01 00 00 00 00 00 00`, which a client reads as `rep` bound to 0.0.0.0:0. |
| Frames.SuccessReplyMeaning | holosocks/sslocal.py:112-128 | The success reply is `05 00 00 01` with 0.0.0.0:0 unless ATYP is 4, and then `05 00 00 04` with 16 zero bytes and port 0. A client reads REP 0 from it. |
| Frames.ErrorReply | holosocks/sslocal.py:55-59 | The failure reply bound to 0.0.0.0 port 0. `ErrorReplyMeaning` gives its 10 bytes and what a client parses from it. |
| Frames.SuccessReply | holosocks/sslocal.py:112-128 | The success reply: bound to 0.0.0.0:0, or to [::]:0 for an IPv6 destination. `SuccessReplyMeaning` gives its bytes and what a client parses from it. |
| Frames.TargetHeader | holosocks/sslocal.py:90-91 | Builds the header the relay host receives: the address length byte, the address, then the raw port bytes. `ParseHeaderOfTargetHeader` proves that the relay host's parser recovers the address and the port number. The `NegotiateConnect…` lemmas show which address text each ATYP puts in it. |
| Frames.ParseHeaderOfTargetHeader | holosocks/sslocal.py:86-91 | The relay host's header parser recovers the address text and the port number. |
| Encrypt.PadLength | encrypt.py:14-15 | Between 1 and 16 padding elements are added, never 0, and the padded length is a multiple of 16. |
| Encrypt.Ascending | encrypt.py:16 | Builds the padding `1, 2, ..., k`. `Pkcs7EncodeShape` and `Pkcs7AgainstRfc5652` state what it makes of the padded text. |
| Encrypt.Pkcs7Encode | encrypt.py:13-17 | The data followed by `1, 2, ..., k` for the padding length `k`. `Pkcs7EncodeShape` and `Pkcs7AgainstRfc5652` state its shape. |
| Encrypt.Pkcs7Decode | encrypt.py:19-21 | Drops as many trailing elements as the last one says, with Python's slice rules, and has no result on empty input. `Pkcs7DecodeMeaning` and `Pkcs7DecodeEdges` cover every case. |
| Encrypt.Pkcs7EncodeShape | encrypt.py:13-17 | The padded text has a length that is a multiple of 16, is 1 to 16 elements longer, and keeps the data as its prefix. Its tail is `1..k` and its last element is `k`. A block-aligned input gets a full 16-element block. |
| Encrypt.Pkcs7DecodeMeaning | encrypt.py:19-21 | When `0 < data[-1] <= len(data)`, decoding removes exactly `data[-1]` trailing elements and keeps the rest. |
| Encrypt.Pkcs7DecodeEdges | encrypt.py:19-21 | An empty input has no last element to read. A last element of 0 (`data[:-0]` is `data[:0]`), or one at least the length, leaves nothing. |
| Encrypt.Pkcs7RoundTrip | encrypt.py:13-21 | For every sequence of code values, decoding the encoding gives the input back. |
| Encrypt.Pkcs7AgainstRfc5652 | encrypt.py:16-21 | The encoder writes RFC 5652 section 6.3 padding if and only if one element is added. The decoder still undoes RFC 5652 padding. |
| Encrypt.DropIv | encrypt.py:26-28 | `data[16:]`. `DropIvOfFramed` and `DropIvIgnoresPrefix` state that only what follows the first 16 elements is kept. |
| Encrypt.DropIvOfFramed | encrypt.py:26-29 | `decrypt` deciphers only what follows the first 16 elements, whatever those are. |
| Encrypt.DropIvIgnoresPrefix | encrypt.py:28-29 | Two messages that differ only in their first 16 elements are deciphered alike. |
| Encrypt.FramingRoundTrip | encrypt.py:23-29 | `encrypt` output starts with the IV, and what `decrypt` deciphers from it is exactly the cipher body. |
| Encrypt.AesCfb.constructor | encrypt.py:8-11 | The key depends only on the passphrase. The IV is the 16 bytes from the random source. The cipher is seeded with both. |
| Encrypt.AesCfb.Encrypt | encrypt.py:23-24 | The result is the IV followed by the cipher's output for the data. |
| Encrypt.AesCfb.Decrypt | encrypt.py:26-29 | The result is the cipher's output for the data after its first 16 elements. |
| Holosocks.Greet | holosocks/sslocal.py:34-50 | The method phase over the client's bytes. `GreetClientGreeting` and `GreetReplies` state its endings. |
| Holosocks.ReadAddress | holosocks/sslocal.py:64-84 | The ATYP dispatch over DST.ADDR. `ReadIPv4`, `ReadDomain` and `ReadIPv6` state what each kind reads and yields. |
| Holosocks.Request | holosocks/sslocal.py:52-128 | The request phase from an offset, with the dial's result as a parameter. `RequestDials`, the `Request…` lemmas and `RequestReplies` state what each request gets. |
| Holosocks.Negotiate | holosocks/sslocal.py:31-128 | The whole handshake as a function of the client's bytes. `NegotiateReplies`, `NegotiateRefusals` and the `NegotiateConnect…` lemmas state its endings. |
| Holosocks.Preamble | holosocks/sslocal.py:130-136 | The IV in the clear, then the encrypting object's output for its first call, on the header. `UpstreamStream` places it at the head of the upstream stream. |
| Holosocks.Chunks | holosocks/sslocal.py:152-178 | The chunks the pump forwards. `ChunksMeaning` and `ChunksIgnoreLaterRounds` state which they are. |
| Holosocks.GreetClientGreeting | holosocks/sslocal.py:34-50 | For `05 NMETHODS METHODS`, the method phase accepts if and only if `00` is offered. It reads exactly `2 + NMETHODS` bytes. On refusal it writes `05 FF` and closes. |
| Holosocks.NegotiateBadVersion | holosocks/sslocal.py:34-38 | A first byte other than 5 closes the connection with nothing written and nothing more read. |
| Holosocks.ShortMethodsRefused | holosocks/sslocal.py:40-50 | A client whose bytes end inside METHODS without offering 00 is not aborted. The short list is refused with `05 FF`, and the connection is closed. |
| Holosocks.GreetReplies | holosocks/sslocal.py:34-50 | The method phase ends accepted, refused for a bad version (no reply) or for no acceptable method (`05 FF`), both closed, or aborted with nothing written. |
| Holosocks.ReadIPv4 | holosocks/sslocal.py:64-66 | ATYP 1 reads 4 bytes and yields their dotted-decimal text. |
| Holosocks.ReadDomain | holosocks/sslocal.py:68-70 | ATYP 3 reads a length byte and then exactly that many name bytes. |
| Holosocks.ReadIPv6 | holosocks/sslocal.py:72-74 | ATYP 4 reads 16 bytes and yields their `inet_ntop` text. |
| Holosocks.RequestDials | holosocks/sslocal.py:52-128 | Whatever the VER and RSV bytes are, once a header with CONNECT, the address and two port bytes are read, the request phase ends in the dial. With the relay host up it is a success reply, left open. Otherwise nothing is written and the connection is closed. |
| Holosocks.NegotiateAccepted | holosocks/sslocal.py:42-52 | After a greeting that offers `00`, the client gets `05 00` and then whatever the request phase writes. |
| Holosocks.RequestIPv4 | holosocks/sslocal.py:52-128 | A CONNECT to an IPv4 address dials the dotted text of the address and the port as sent, having read exactly the request. |
| Holosocks.RequestDomain | holosocks/sslocal.py:52-128 | A CONNECT to a domain name dials the name bytes and the port as sent, having read exactly the request. |
| Holosocks.RequestIPv6 | holosocks/sslocal.py:52-128 | A CONNECT to an IPv6 address dials its `inet_ntop` text and the port as sent, having read exactly the request. |
| Holosocks.NegotiateConnectIPv4 | holosocks/sslocal.py:31-128 | For a well-behaved greeting and request, the whole handshake reads exactly those bytes and writes `05 00` and then the success reply, or closes on a failed dial. The header names the dotted text and the port. |
| Holosocks.NegotiateConnectDomain | holosocks/sslocal.py:31-128 | The same for a domain name: the header names the domain bytes as sent and the port. |
| Holosocks.NegotiateConnectIPv6 | holosocks/sslocal.py:31-128 | The same for an IPv6 address: the header names its `inet_ntop` text and the port. |
| Holosocks.RequestCommandRefusal | holosocks/sslocal.py:52-62 | The four request bytes carry a command other than CONNECT if and only if the request phase is refused for it. It then writes exactly `05 07 00 01 00 00 00 00 00 00`, closes, and reads nothing more. |
| Holosocks.RequestAddressTypeRefusal | holosocks/sslocal.py:52-84 | A CONNECT whose ATYP is none of 1, 3 and 4 is refused for its address type, and only such a request is. It writes exactly `05 08 00 01 00 00 00 00 00 00`, closes, and reads nothing more. |
| Holosocks.NegotiateRefusals | holosocks/sslocal.py:31-84 | After an accepted greeting, a non-CONNECT command or an unknown ATYP leaves the client with exactly `05 00` and then the matching error reply, closed. |
| Holosocks.RequestReplies | holosocks/sslocal.py:52-128 | The request phase writes exactly `05 07 00 01 00...00` on a non-CONNECT command and exactly `05 08 00 01 00...00` on an unknown ATYP, closing both times. It writes nothing and closes on a failed dial. The success reply for the ATYP, which a client reads as REP 0, follows only a successful dial. Nothing is written on a short read. |
| Holosocks.NegotiateReplies | holosocks/sslocal.py:31-128 | What every kind of ending of `handle` has written to the client, byte for byte, and which endings close it. A tunnel gets `05 00` and then the success reply for its ATYP. |
| Holosocks.NegotiateDial | holosocks/sslocal.py:93-128 | Whether the relay host answers changes only Connected into DialFailed for the same target and the same bytes read. |
| Holosocks.UpstreamStream | holosocks/sslocal.py:130-166 | The relay host receives the IV and then one cipher stream: the output of the encrypting object over the header followed by every chunk the client-side pump forwards. |
| Holosocks.ChunksMeaning | holosocks/sslocal.py:152-178 | The pump forwards exactly the data of the leading non-empty reads, in order. It stops at the first empty read or read error, forwarding nothing for it, or at the first failed drain, whose own chunk is forwarded. Nothing read after that is forwarded. |
| Holosocks.ChunksIgnoreLaterRounds | holosocks/sslocal.py:153-178 | Once a round ends the pump, later rounds never influence what it forwards. |
| Holosocks.Server.constructor | holosocks/sslocal.py:26-29 | The server keeps the relay host, its port and the key. |
| Holosocks.Server.Handle | holosocks/sslocal.py:31-136 | The outcome, bytes written, close and bytes read are those of `Negotiate`. On success the relay host got `iv + E(header)`. The encrypting and decrypting objects are both seeded with the key and that IV, and the decrypting one is unused. Otherwise nothing goes upstream. |
| Holosocks.Server.HandleGreeting | holosocks/sslocal.py:34-50 | The method phase agrees with `Greet`: writes `05 00` when accepted, or the refusal's bytes and close. |
| Holosocks.Server.HandleRequest | holosocks/sslocal.py:52-136 | The request phase agrees with `Request`, including the dial, the reply and the preamble. |
| Holosocks.Server.Open | holosocks/sslocal.py:93-136 | On a failed dial it only closes the client. Otherwise it writes the success reply for the ATYP, makes the cipher pair, and sends the IV and then the enciphered header. |
| Holosocks.Server.ReadDestination | holosocks/sslocal.py:64-84 | The ATYP dispatch agrees with `ReadAddress` and reads nothing for an unknown ATYP. |
| Holosocks.Server.Relay | holosocks/sslocal.py:152-178 | The writer receives, in order, the cipher transform of each chunk in `Chunks(rounds)`, and the cipher made exactly those calls. |
| Holosocks.Server.PumpRound | holosocks/sslocal.py:154-178 | One pass of the loop either breaks, forwarding nothing, or forwards one chunk and keeps the running totals. |
| Holosocks.Server.Forward | holosocks/sslocal.py:160-166 | A forwarded chunk appends its transform to the writer right after the previous ones. |
| Holosocks.Server.Transform | holosocks/sslocal.py:161-164 | S2R enciphers and R2S deciphers the chunk on the direction's own cipher object. |
| Holosocks.Server.CloseTransport | holosocks/sslocal.py:180-182 | Both writers end up closed and nothing more is sent, however many times it runs. |
| Legacy.BoundReply | sslocal.py:88-89 | The fixed success reply. `BoundReplyBytes` gives its 10 bytes. |
| Legacy.Greet | sslocal.py:43-56 | The 3-byte greeting and its two checks. `GreetThreeBytes` states when it is accepted. |
| Legacy.Destination | sslocal.py:66-83 | The address part of `data_to_send`. `DestinationIPv4` and `DestinationDomain` state what each ATYP copies. |
| Legacy.Request | sslocal.py:58-90 | The legacy request phase, with the connect's result as a parameter. `RequestCopies`, the `Request…` lemmas and `RequestReplies` state what each request gets. |
| Legacy.Negotiate | sslocal.py:40-90 | The whole legacy handshake as a function of the client's bytes. `NegotiateReplies`, `NegotiateRefusals` and the `NegotiateConnect…` lemmas state its endings. |
| Legacy.Turn | sslocal.py:30-38 | One pass of the relay loop. `TurnCalls` states which cipher calls it adds. |
| Legacy.Exchange | sslocal.py:29-38 | The relay loop over the `select` results. `ExchangeAppend`, `ExchangeStopsAtBreak`, `ExchangeCut` and `ExchangeCarriesData` state what it does. |
| Legacy.ClientCalls | sslocal.py:32-33 | Reference definition: one Encipher call for each `select` result in which the client was readable, on what `sock.recv` returned, in order. It has at most one call per result. |
| Legacy.RemoteCalls | sslocal.py:36-37 | Reference definition: one Decipher call for each `select` result in which the remote was readable, on what `remote.recv` returned, in order. It has at most one call per result. |
| Legacy.BoundReplyBytes | sslocal.py:88-89 | The fixed reply is `05 00 00 01 00 00 00 00 0D 3D`, bound to 0.0.0.0:3389. |
| Legacy.GreetThreeBytes | sslocal.py:43-56 | Of a greeting of at least 3 bytes exactly 3 are read. It is accepted if and only if byte 0 is 5 and byte 2 is 0, and a refusal writes nothing. |
| Legacy.GreetingsDisagree | sslocal.py:43-53 | A greeting offering methods 1 and 0 is accepted by the current proxy but refused by this one. |
| Legacy.GreetNoAuth | sslocal.py:43-49 | The one-method greeting `05 01 00` is accepted with 3 bytes read. |
| Legacy.NegotiateNoAuth | sslocal.py:43-58 | After `05 01 00` the client gets `05 00` and then whatever the request phase writes. |
| Legacy.DestinationIPv4 | sslocal.py:70-73 | ATYP 1 copies the 4 raw address bytes. |
| Legacy.DestinationDomain | sslocal.py:75-79 | ATYP 3 copies the length byte and exactly that many name bytes. |
| Legacy.RequestCopies | sslocal.py:58-90 | Whatever the VER and RSV bytes are, once a CONNECT's four request bytes and its address part are read, the header is ATYP, the address part and the port bytes as read, even if that read ended early. The fixed reply is written whether or not the connect will succeed. |
| Legacy.RequestIPv4 | sslocal.py:58-90 | For an IPv4 CONNECT the request phase builds `[1] + raw + port` and writes the fixed reply. |
| Legacy.RequestDomain | sslocal.py:58-90 | For a domain CONNECT the request phase builds `[3] + [len] + name + port` and writes the fixed reply. |
| Legacy.NegotiateConnectIPv4 | sslocal.py:40-90 | The whole legacy handshake for an IPv4 CONNECT: `05 00` then the fixed reply, with header `[1] + raw + port`. |
| Legacy.NegotiateConnectDomain | sslocal.py:40-90 | The whole legacy handshake for a domain CONNECT: `05 00` then the fixed reply, with header `[3] + [len] + name + port`. |
| Legacy.RequestCommandRefusal | sslocal.py:58-64 | Once two request bytes are read, a command other than CONNECT, and only that, is refused. The refusal writes exactly `05 07 00 01 00 00 00 00 00 00`. |
| Legacy.RequestAddressTypeRefusal | sslocal.py:58-83 | A CONNECT whose ATYP is neither 1 nor 3, IPv6 included, is refused, and only such a request is. It writes nothing and reads nothing after the four request bytes. |
| Legacy.NegotiateRefusals | sslocal.py:40-83 | After an accepted greeting, a non-CONNECT command leaves the client with exactly `05 00` and the `05 07` reply. An unsupported ATYP leaves it with `05 00` alone. |
| Legacy.RequestReplies | sslocal.py:58-90 | A non-CONNECT command gets exactly `05 07 00 01 00...00`. An unknown ATYP gets nothing. Every read request gets the fixed reply before the connect. Headers start with ATYP 1 or 3. |
| Legacy.NegotiateReplies | sslocal.py:40-90 | What every kind of ending of the legacy `handle` has written to the client, byte for byte. A refused greeting writes nothing after reading 3 bytes. |
| Legacy.HeadersCompared | sslocal.py:68-86 | For the same destination, the legacy domain header is the current header behind an ATYP byte. The legacy IPv4 header carries the raw bytes where the current one carries text that parses back to them. Both end in the same port bytes. |
| Legacy.IPv6Refused | sslocal.py:81-83 | An IPv6 CONNECT is refused after `05 00` with nothing more written, while the current proxy tunnels it. |
| Legacy.TruncatedIPv4Forwarded | sslocal.py:70-90 | Whatever the VER and RSV bytes are, a client whose bytes end inside the IPv4 address or the port gets `05 00` and the fixed reply. The header is ATYP 1 and the bytes it did send. |
| Legacy.ExchangeAppend | sslocal.py:29-38 | Relaying over two runs of `select` results in a row is relaying over their concatenation. |
| Legacy.ExchangeStopsAtBreak | sslocal.py:29-38 | Once a `send` reports no bytes, the loop is left and later `select` results change nothing. |
| Legacy.ExchangeStreams | sslocal.py:26-38 | The bytes sent to the remote are the encrypting object's output over the Encipher calls the relay made on it, and the bytes sent to the client are the decrypting object's output over its Decipher calls. `ExchangeCarriesData` says which data those calls carry. |
| Legacy.TurnCalls | sslocal.py:30-38 | A pass that does not break enciphers what the client sent, if it was readable, and deciphers what the remote sent, if it was readable. |
| Legacy.ExchangeData | sslocal.py:29-38 | A relay that has not broken has enciphered exactly `ClientCalls(rounds)` and deciphered exactly `RemoteCalls(rounds)` after the earlier calls. |
| Legacy.ExchangeCut | sslocal.py:29-38 | A relay that breaks does so in one pass: the passes before it did not break, and that pass's `send` of 0 bytes ends the loop. |
| Legacy.ExchangeCarriesData | sslocal.py:26-38 | Until a `send` reports 0 bytes, the remote gets the encrypting object's output over the client's data, and the client gets the decrypting object's output over the remote's data. Each is in arrival order. |
| Legacy.Socks5Server.constructor | sslocal.py:19-24 | A handler starts with the key and without cipher objects. The `key` field stands for the module global `KEY` that `handle` reads. |
| Legacy.Socks5Server.Handle | sslocal.py:40-106 | The ending, bytes read and bytes written agree with `Negotiate`. When the handshake reaches the connect, both cipher objects are keyed with the key and the encrypting IV. After a successful connect the remote gets `iv + E(header)` and then the relay's traffic, as `Exchange` says. |
| Legacy.Socks5Server.Connect | sslocal.py:92-103 | Creates the cipher pair before connecting. A failed connect sends nothing. Otherwise it sends the preamble and relays. |
| Legacy.Socks5Server.HandleGreeting | sslocal.py:43-56 | The 3-byte greeting agrees with `Greet`: `05 00` when accepted, nothing otherwise. |
| Legacy.Socks5Server.HandleRequest | sslocal.py:58-90 | The request phase agrees with `Request` and builds `data_to_send`. |
| Legacy.Socks5Server.ReadAddressPart | sslocal.py:70-83 | The ATYP dispatch agrees with `Destination` and reads nothing for an unknown ATYP. |
| Legacy.Socks5Server.TcpRelay | sslocal.py:26-38 | The loop's calls and the bytes sent each way are those of `Exchange` over the `select` results. |
| Legacy.Socks5Server.RelayTurn | sslocal.py:30-38 | One pass of the loop is one `Turn`: client to remote, then remote to client, breaking at the first `send` of 0 bytes. |

The two proxies call cipher constructors that `encrypt.py` does not define. One is `aes_cfb(key, iv)` in holosocks/sslocal.py:132; the others are `.new()` and `.new(iv)` in sslocal.py:93-95. Against these, `aes_cfb.__init__` takes only a key. So the proxies use the abstract `Cipher.StreamCipher` seeded by `(key, iv)`, which adds no IV prefix of its own. `Encrypt.AesCfb` models the constructor, `encrypt` and `decrypt` of that class as `encrypt.py` defines them.

Points where the source departs from RFC 1928 or from what a reader might expect:

- The request's VER and RSV bytes are read but never checked.
- The current proxy dials the relay host before it writes the success reply.
- The IPv4 and IPv6 addresses in the current proxy's header are text (`inet_ntoa` and `inet_ntop`), not raw bytes.
- When the client's bytes run out where `handle` indexes, unpacks or converts them, `handle` raises without a close. The model calls this `Aborted`.
  - In the current proxy this happens at VER and NMETHODS, the four request bytes, an IPv4 or IPv6 address, the domain length byte and the port.
  - In the legacy proxy it happens at the first greeting byte, CMD, ATYP and the domain length byte.
- The current proxy uses a short METHODS read as it came. A list that ends early without 00 is refused with `05 FF` and a close (`Holosocks.ShortMethodsRefused`).
- The legacy proxy forwards a truncated header. A client that stops inside the address or the port still gets the fixed reply, and the bytes read so far go upstream (`Legacy.TruncatedIPv4Forwarded`).
- The legacy proxy writes its success reply before it connects upstream. Its refusals of a greeting or of an address type write nothing.

## Left out

- Sockets, `asyncio.open_connection`, `select.select`, `connect`, `setsockopt` and `drain` are not modelled as I/O. Their result is a parameter: `dialOk`/`connectOk`, the `drained` flag of a relay round, or the `select` results of `tcp_relay`.
- The `drain` calls of the handshake (holosocks/sslocal.py:45, 119, 128 and 136) are taken to succeed and have no parameter. A failure there would raise out of `handle`.
- The concurrency between the two relay futures, and their done-callbacks, are left out because they are scheduling. Each direction's pump is modelled on its own, and `close_transport` as a state change that is idempotent.
- AES-CFB, SHA-256 and the random source are parameters (`Engine`, `digest`, `iv`/`entropy`). So no property of the ciphertext is proved, in particular not that deciphering undoes enciphering.
- `socket.inet_ntop` is the opaque parameter `ntop`. An answer longer than 255 bytes is treated like the `struct.error` it would raise.
- Streams.TakeMeaning: a read returns fewer bytes than asked only at the end of the client's input. Short reads in mid-stream are not modelled.
- Streams.Writer.Send: always sends the whole payload. Partial sends are not modelled.
- Holosocks.Server.Relay: the 8192-byte bound on one read is not modelled. A round's data can be any length.
- Legacy.Socks5Server.TcpRelay: a `recv` or a `send` that raises (sslocal.py:33 and 37, caught at sslocal.py:105) is not modelled. Each `select` result carries what `recv` returned, and each `send` returns a count.
- Legacy.Socks5Server.Handle: closing the connection once `handle` returns belongs to `socketserver` and is not modelled.
- Encrypt.Pkcs7EncodeShape: elements are modelled as their code values. This does not capture that the Python encoder appends `str` characters.
- Encrypt.Pkcs7RoundTrip: proved over code values only. In the source the composition raises TypeError on every input, because the two helpers take different element types. `pkcs7_encode` joins `str` characters onto its input, so it fails on `bytes`. `pkcs7_decode` negates `data[-1]`, which fails on a `str`.
- The handlers' logging, `main()` in both proxies, JSON config loading, argument parsing and the `__main__` self-test of `encrypt.py` are left out because they are start-up and diagnostics plumbing.
