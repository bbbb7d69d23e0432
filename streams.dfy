/**
 * The two ends of a connection as the handlers see them. A `Reader` is a cursor
 * over everything the peer sends (`reader.read(n)` / `rfile.read(n)`); a `Writer`
 * collects what is written to the peer and whether the handler closed it.
 */
module Streams {
  import opened Bytes

  /**
   * What a read of up to `n` bytes at offset `pos` returns: `n` bytes, or fewer
   * only because the peer's input ends there.
   */
  function Take(input: seq<byte>, pos: nat, n: nat): seq<byte> {
    if pos >= |input| then []
    else if pos + n <= |input| then input[pos..pos + n]
    else input[pos..]
  }

  /** A read returns the next bytes of the input, at most `n`, and fewer only at its end. */
  lemma TakeMeaning(input: seq<byte>, pos: nat, n: nat)
    ensures var chunk := Take(input, pos, n);
            && |chunk| <= n
            && (pos <= |input| ==> pos + |chunk| <= |input| && chunk == input[pos..pos + |chunk|])
            && (|chunk| < n ==> pos + |chunk| >= |input|)
  {
  }

  class Reader {
    const input: seq<byte>
    var pos: nat

    ghost predicate Valid()
      reads this
    {
      pos <= |input|
    }

    constructor (input: seq<byte>)
      ensures Valid() && this.input == input && pos == 0
    {
      this.input := input;
      pos := 0;
    }

    method Read(n: nat) returns (chunk: seq<byte>)
      requires Valid()
      modifies this
      ensures Valid()
      ensures chunk == Take(input, old(pos), n)
      ensures pos == old(pos) + |chunk|
    {
      chunk := if pos + n <= |input| then input[pos..pos + n] else input[pos..];
      pos := pos + |chunk|;
    }
  }

  class Writer {
    var sent: seq<byte>
    var closed: bool

    constructor ()
      ensures sent == [] && !closed
    {
      sent := [];
      closed := false;
    }

    method Write(data: seq<byte>)
      modifies this
      ensures sent == old(sent) + data && closed == old(closed)
    {
      sent := sent + data;
    }

    /** `socket.send(data)`, taken to send everything: it reports `|data|` bytes sent. */
    method Send(data: seq<byte>) returns (count: nat)
      modifies this
      ensures count == |data|
      ensures sent == old(sent) + data && closed == old(closed)
    {
      sent := sent + data;
      count := |data|;
    }

    /** Closing twice is the same as closing once. */
    method Close()
      modifies this
      ensures closed && sent == old(sent)
    {
      closed := true;
    }
  }
}
