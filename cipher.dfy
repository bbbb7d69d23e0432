/**
 * The per-connection stream cipher, abstracted. Both proxies construct two cipher
 * objects from the same `(key, iv)` and call `encrypt` on one and `decrypt` on the
 * other; each call advances that object's feedback state. AES-CFB itself is not
 * modelled: an `Engine` says what one call returns given the seed, every call made
 * on the object before, and the call itself. Nothing is assumed about it.
 */
module Cipher {
  import opened Bytes

  const IvLength: nat := 16      // AES.block_size

  datatype Seed = Seed(key: seq<byte>, iv: seq<byte>)

  datatype Direction = Encipher | Decipher

  datatype Call = Call(dir: Direction, input: seq<byte>)

  /** The output of one call, given the seed and the object's earlier calls. */
  type Engine = (Seed, seq<Call>, Call) -> seq<byte>

  /** The concatenated outputs of `calls`, made in order after `history`. */
  function Outputs(engine: Engine, seed: Seed, history: seq<Call>, calls: seq<Call>): seq<byte>
    decreases |calls|
  {
    if calls == [] then []
    else engine(seed, history, calls[0]) + Outputs(engine, seed, history + [calls[0]], calls[1..])
  }

  /** Running two call sequences back to back is running their concatenation. */
  lemma {:induction false} OutputsAppend(engine: Engine, seed: Seed, history: seq<Call>, a: seq<Call>, b: seq<Call>)
    ensures Outputs(engine, seed, history, a + b)
         == Outputs(engine, seed, history, a) + Outputs(engine, seed, history + a, b)
    decreases |a|
  {
    if a == [] {
      assert a + b == b;
      assert history + a == history;
    } else {
      assert (a + b)[0] == a[0];
      assert (a + b)[1..] == a[1..] + b;
      assert history + [a[0]] + a[1..] == history + a;
      OutputsAppend(engine, seed, history + [a[0]], a[1..], b);
    }
  }

  /** One more call appends its own output at the end. */
  lemma OutputsSnoc(engine: Engine, seed: Seed, history: seq<Call>, calls: seq<Call>, c: Call)
    ensures Outputs(engine, seed, history, calls + [c])
         == Outputs(engine, seed, history, calls) + engine(seed, history + calls, c)
  {
    OutputsAppend(engine, seed, history, calls, [c]);
    assert Outputs(engine, seed, history + calls, [c]) == engine(seed, history + calls, c) + [];
  }

  /** A cipher object `aes_cfb(key, iv)` as the proxies use it. */
  class StreamCipher {
    const engine: Engine
    const seed: Seed
    var calls: seq<Call>

    constructor (engine: Engine, key: seq<byte>, iv: seq<byte>)
      ensures this.engine == engine && seed == Seed(key, iv) && calls == []
    {
      this.engine := engine;
      seed := Seed(key, iv);
      calls := [];
    }

    method Encrypt(data: seq<byte>) returns (out: seq<byte>)
      modifies this
      ensures out == engine(seed, old(calls), Call(Encipher, data))
      ensures calls == old(calls) + [Call(Encipher, data)]
    {
      out := engine(seed, calls, Call(Encipher, data));
      calls := calls + [Call(Encipher, data)];
    }

    method Decrypt(data: seq<byte>) returns (out: seq<byte>)
      modifies this
      ensures out == engine(seed, old(calls), Call(Decipher, data))
      ensures calls == old(calls) + [Call(Decipher, data)]
    {
      out := engine(seed, calls, Call(Decipher, data));
      calls := calls + [Call(Decipher, data)];
    }
  }
}
