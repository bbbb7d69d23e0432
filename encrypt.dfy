/**
 * `encrypt.py`: the padding helpers `pkcs7_encode`/`pkcs7_decode` and the class
 * `aes_cfb`, whose `encrypt` puts its IV in front of the cipher output and whose
 * `decrypt` drops the first 16 elements before deciphering. AES-CFB, SHA-256 and
 * the random source are parameters; the cipher object is `Cipher.StreamCipher`.
 */
module Encrypt {
  import opened Wrappers
  import opened Bytes
  import opened Cipher

  // ---------------------------------------------------------------------------
  // Padding
  // ---------------------------------------------------------------------------

  const BlockSize: nat := 16

  /** `padd_len = block_size - len(data) % block_size`. */
  function PadLength(n: nat): (k: nat)
    ensures 1 <= k <= BlockSize
    ensures (n + k) % BlockSize == 0
  {
    BlockSize - n % BlockSize
  }

  /** `''.join(chr(i) for i in range(1, k + 1))`: the elements `1, 2, ..., k`. */
  function Ascending(k: nat): (pad: seq<nat>)
    ensures |pad| == k
    ensures forall i :: 0 <= i < k ==> pad[i] == i + 1
  {
    seq(k, i => i + 1)
  }

  /** `pkcs7_encode(data)`, with the elements of `data` as their code values. */
  function Pkcs7Encode(data: seq<nat>): seq<nat> {
    data + Ascending(PadLength(|data|))
  }

  /** `pkcs7_decode(data)`: drop as many trailing elements as the last one says; `None` where `data[-1]` raises. */
  function Pkcs7Decode(data: seq<nat>): Option<seq<nat>> {
    if data == [] then None
    else
      var k := data[|data| - 1];
      // data[:-0] is data[:0], and data[:-k] is empty once k reaches the length
      if k == 0 || k >= |data| then Some([])
      else Some(data[..|data| - k])
  }

  /**
   * The padded text fills whole blocks, is 1 to 16 elements longer, keeps the data
   * as its prefix, and ends in `1, 2, ..., k` where `k` is how much was added.
   */
  lemma Pkcs7EncodeShape(data: seq<nat>)
    ensures var padded := Pkcs7Encode(data);
            var k := |padded| - |data|;
            && |padded| % BlockSize == 0
            && |data| < |padded| <= |data| + BlockSize
            && (|data| % BlockSize == 0 ==> k == BlockSize)
            && padded[..|data|] == data
            && (forall i :: |data| <= i < |padded| ==> padded[i] == i - |data| + 1)
            && padded[|padded| - 1] == k
  {
    var padded := Pkcs7Encode(data);
    var k := PadLength(|data|);
    assert padded[..|data|] == data;
    assert forall i :: |data| <= i < |padded| ==> padded[i] == Ascending(k)[i - |data|];
  }

  /** Decoding removes exactly `data[-1]` trailing elements, when there are that many. */
  lemma Pkcs7DecodeMeaning(data: seq<nat>)
    requires data != [] && 0 < data[|data| - 1] <= |data|
    ensures var k := data[|data| - 1];
            Pkcs7Decode(data) == Some(data[..|data| - k])
            && Pkcs7Decode(data).value + data[|data| - k..] == data
  {
  }

  /**
   * The edges of `pkcs7_decode`: an empty input has no `data[-1]`, and a last element
   * of 0 (`data[:-0]` is `data[:0]`) or of at least the length leaves nothing.
   */
  lemma Pkcs7DecodeEdges(data: seq<nat>)
    ensures data == [] ==> Pkcs7Decode(data) == None
    ensures data != [] && (data[|data| - 1] == 0 || data[|data| - 1] >= |data|) ==> Pkcs7Decode(data) == Some([])
  {
  }

  lemma Pkcs7RoundTrip(data: seq<nat>)
    ensures Pkcs7Decode(Pkcs7Encode(data)) == Some(data)
  {
    var padded := Pkcs7Encode(data);
    var k := PadLength(|data|);
    assert padded[|padded| - 1] == Ascending(k)[k - 1] == k;
    if data == [] {
      assert k == BlockSize == |padded|;
    } else {
      assert padded[..|padded| - k] == data;
    }
  }

  /** The padding RFC 5652 section 6.3 specifies: `k` copies of the value `k`. */
  function Rfc5652Pad(data: seq<nat>): seq<nat> {
    var k := PadLength(|data|);
    data + seq(k, _ => k)
  }

  /**
   * `pkcs7_encode` writes RFC 5652 padding only when a single element is added, yet
   * `pkcs7_decode` reads the RFC form back too, since both end in `k`.
   */
  lemma Pkcs7AgainstRfc5652(data: seq<nat>)
    ensures Pkcs7Encode(data) == Rfc5652Pad(data) <==> PadLength(|data|) == 1
    ensures Pkcs7Decode(Rfc5652Pad(data)) == Some(data)
  {
    var k := PadLength(|data|);
    var ours, rfc := Pkcs7Encode(data), Rfc5652Pad(data);
    if k == 1 {
      assert ours == rfc;
    } else {
      assert ours[|data|] == 1 && rfc[|data|] == k;
    }
    assert rfc[|rfc| - 1] == k;
    if data == [] {
      assert k == |rfc|;
    } else {
      assert rfc[..|rfc| - k] == data;
    }
  }

  // ---------------------------------------------------------------------------
  // IV framing
  // ---------------------------------------------------------------------------

  /** `data[16:]`: empty when `data` is no longer than the IV. */
  function DropIv(data: seq<byte>): seq<byte> {
    if |data| <= IvLength then [] else data[IvLength..]
  }

  /** Whatever the first 16 elements are, `decrypt` deciphers only what follows them. */
  lemma DropIvOfFramed(prefix: seq<byte>, body: seq<byte>)
    requires |prefix| == IvLength
    ensures DropIv(prefix + body) == body
  {
    if body == [] {
      assert |prefix + body| == IvLength;
    } else {
      assert (prefix + body)[IvLength..] == body;
    }
  }

  /** Two messages that differ only in their first 16 elements are deciphered alike. */
  lemma DropIvIgnoresPrefix(a: seq<byte>, b: seq<byte>)
    requires |a| == |b| && (|a| > IvLength ==> a[IvLength..] == b[IvLength..])
    ensures DropIv(a) == DropIv(b)
  {
  }

  /** `aes_cfb(key)` and the calls on it. */
  class AesCfb {
    const key: seq<byte>
    const iv: seq<byte>
    const cipher: StreamCipher

    /**
     * `__init__(self, key)`: the key is the SHA-256 digest of the encoded passphrase
     * (`digest` stands for `SHA256.new(key.encode()).digest()`), the IV is the 16
     * bytes `entropy` read from the random source, and `AES.new` is `engine`.
     */
    constructor (passphrase: string, digest: string -> seq<byte>, entropy: seq<byte>, engine: Engine)
      requires |entropy| == IvLength
      ensures key == digest(passphrase) && iv == entropy && |iv| == IvLength
      ensures fresh(cipher) && cipher.engine == engine && cipher.seed == Seed(key, iv) && cipher.calls == []
    {
      key := digest(passphrase);
      iv := entropy;
      cipher := new StreamCipher(engine, digest(passphrase), entropy);
    }

    /** `encrypt(data)`: the IV, then the cipher's output for `data`. */
    method Encrypt(data: seq<byte>) returns (out: seq<byte>)
      modifies cipher
      ensures out == iv + cipher.engine(cipher.seed, old(cipher.calls), Call(Encipher, data))
      ensures cipher.calls == old(cipher.calls) + [Call(Encipher, data)]
    {
      var body := cipher.Encrypt(data);
      out := iv + body;
    }

    /** `decrypt(data)`: the cipher's output for `data[16:]`. */
    method Decrypt(data: seq<byte>) returns (out: seq<byte>)
      modifies cipher
      ensures out == cipher.engine(cipher.seed, old(cipher.calls), Call(Decipher, DropIv(data)))
      ensures cipher.calls == old(cipher.calls) + [Call(Decipher, DropIv(data))]
    {
      var rest := DropIv(data);
      out := cipher.Decrypt(rest);
    }
  }

  /**
   * The framing of `encrypt` and `decrypt` fits together: what `decrypt` hands to the
   * cipher from a message `encrypt` produced is exactly the ciphertext body, and the
   * message begins with the IV.
   */
  lemma FramingRoundTrip(iv: seq<byte>, body: seq<byte>)
    requires |iv| == IvLength
    ensures (iv + body)[..IvLength] == iv
    ensures DropIv(iv + body) == body
  {
    DropIvOfFramed(iv, body);
  }
}
