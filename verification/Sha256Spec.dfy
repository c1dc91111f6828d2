/** SHA-256 as a mathematical function, after sections 4 to 6 of RFC 6234. */
module Sha256Spec {

  type Bytes = seq<bv8>

  const BLOCK: nat := 64

  /******* Words *******/

  /** Addition modulo 2^32. */
  function Add(x: bv32, y: bv32): bv32 { x + y }

  function Rotr(n: bv6, w: bv32): bv32
    requires 0 < n < 32
  {
    (w >> n) | (w << (32 - n))
  }

  function BigSigma0(w: bv32): bv32 { Rotr(2, w) ^ Rotr(13, w) ^ Rotr(22, w) }

  function BigSigma1(w: bv32): bv32 { Rotr(6, w) ^ Rotr(11, w) ^ Rotr(25, w) }

  function Sigma0(w: bv32): bv32 { Rotr(7, w) ^ Rotr(18, w) ^ (w >> 3) }

  function Sigma1(w: bv32): bv32 { Rotr(17, w) ^ Rotr(19, w) ^ (w >> 10) }

  function Ch(x: bv32, y: bv32, z: bv32): bv32 { (x & y) ^ (!x & z) }

  function Maj(x: bv32, y: bv32, z: bv32): bv32 { (x & y) ^ (x & z) ^ (y & z) }

  /** Four bytes as a word, the most significant first. */
  function Word(a: bv8, b: bv8, c: bv8, d: bv8): bv32 {
    ((a as bv32) << 24) | ((b as bv32) << 16) | ((c as bv32) << 8) | (d as bv32)
  }

  /** Byte `k` of a word, the most significant first. */
  function WordByte(w: bv32, k: nat): bv8
    requires k < 4
  {
    if k == 0 then ((w >> 24) & 0xFF) as bv8
    else if k == 1 then ((w >> 16) & 0xFF) as bv8
    else if k == 2 then ((w >> 8) & 0xFF) as bv8
    else (w & 0xFF) as bv8
  }

  /******* Compressing one block *******/

  const K0: seq<bv32> :=
    [0x428a2f98, 0x71374491, 0xb5c0fbcf, 0xe9b5dba5, 0x3956c25b, 0x59f111f1, 0x923f82a4, 0xab1c5ed5]
  const K1: seq<bv32> :=
    [0xd807aa98, 0x12835b01, 0x243185be, 0x550c7dc3, 0x72be5d74, 0x80deb1fe, 0x9bdc06a7, 0xc19bf174]
  const K2: seq<bv32> :=
    [0xe49b69c1, 0xefbe4786, 0x0fc19dc6, 0x240ca1cc, 0x2de92c6f, 0x4a7484aa, 0x5cb0a9dc, 0x76f988da]
  const K3: seq<bv32> :=
    [0x983e5152, 0xa831c66d, 0xb00327c8, 0xbf597fc7, 0xc6e00bf3, 0xd5a79147, 0x06ca6351, 0x14292967]
  const K4: seq<bv32> :=
    [0x27b70a85, 0x2e1b2138, 0x4d2c6dfc, 0x53380d13, 0x650a7354, 0x766a0abb, 0x81c2c92e, 0x92722c85]
  const K5: seq<bv32> :=
    [0xa2bfe8a1, 0xa81a664b, 0xc24b8b70, 0xc76c51a3, 0xd192e819, 0xd6990624, 0xf40e3585, 0x106aa070]
  const K6: seq<bv32> :=
    [0x19a4c116, 0x1e376c08, 0x2748774c, 0x34b0bcb5, 0x391c0cb3, 0x4ed8aa4a, 0x5b9cca4f, 0x682e6ff3]
  const K7: seq<bv32> :=
    [0x748f82ee, 0x78a5636f, 0x84c87814, 0x8cc70208, 0x90befffa, 0xa4506ceb, 0xbef9a3f7, 0xc67178f2]
  const K: seq<bv32> := K0 + K1 + K2 + K3 + K4 + K5 + K6 + K7

  datatype Vars = Vars(a: bv32, b: bv32, c: bv32, d: bv32, e: bv32, f: bv32, g: bv32, h: bv32)

  const H0: Vars := Vars(0x6a09e667, 0xbb67ae85, 0x3c6ef372, 0xa54ff53a, 0x510e527f, 0x9b05688c, 0x1f83d9ab, 0x5be0cd19)

  /** The first `n` words of the message schedule of a block. */
  function Schedule(block: Bytes, n: nat): (w: seq<bv32>)
    requires |block| == BLOCK && n <= |K|
    ensures |w| == n
  {
    if n == 0 then []
    else
      var w := Schedule(block, n - 1);
      w + [if n <= 16 then BlockWord(block, n - 1) else NextWord(w)]
  }

  function BlockWord(block: Bytes, t: nat): bv32
    requires |block| == BLOCK && t < 16
  {
    Word(block[4 * t], block[4 * t + 1], block[4 * t + 2], block[4 * t + 3])
  }

  function NextWord(w: seq<bv32>): bv32
    requires |w| >= 16
  {
    Expand(w[|w| - 2], w[|w| - 7], w[|w| - 15], w[|w| - 16])
  }

  function Expand(a: bv32, b: bv32, c: bv32, d: bv32): bv32 {
    Add(Add(Add(Sigma1(a), b), Sigma0(c)), d)
  }

  function Temp1(e: bv32, f: bv32, g: bv32, h: bv32, k: bv32, w: bv32): bv32 {
    Add(Add(Add(Add(h, BigSigma1(e)), Ch(e, f, g)), k), w)
  }

  function Temp2(a: bv32, b: bv32, c: bv32): bv32 { Add(BigSigma0(a), Maj(a, b, c)) }

  function Round(v: Vars, k: bv32, w: bv32): Vars {
    var t1 := Temp1(v.e, v.f, v.g, v.h, k, w);
    var t2 := Temp2(v.a, v.b, v.c);
    Vars(Add(t1, t2), v.a, v.b, v.c, Add(v.d, t1), v.e, v.f, v.g)
  }

  function Rounds(v: Vars, w: seq<bv32>, n: nat): Vars
    requires n <= |w| == |K|
  {
    if n == 0 then v else Round(Rounds(v, w, n - 1), K[n - 1], w[n - 1])
  }

  function Sum(u: Vars, v: Vars): Vars {
    Vars(Add(u.a, v.a), Add(u.b, v.b), Add(u.c, v.c), Add(u.d, v.d), Add(u.e, v.e), Add(u.f, v.f), Add(u.g, v.g),
        Add(u.h, v.h))
  }

  /** The hash after one more block; anything but a whole block is ignored. */
  function Compress(v: Vars, block: Bytes): Vars {
    if |block| == BLOCK then Sum(v, Rounds(v, Schedule(block, |K|), |K|)) else v
  }

  /******* Messages *******/

  type Step = (Vars, Bytes) -> Vars

  /** Apply a step to block after block; what is less than a block at the end is ignored. */
  function Fold(step: Step, v: Vars, s: Bytes): Vars
    decreases |s|
  {
    if |s| < BLOCK then v else Fold(step, step(v, s[..BLOCK]), s[BLOCK..])
  }

  lemma {:induction false} FoldAppend(step: Step, v: Vars, s: Bytes, t: Bytes)
    requires |s| % BLOCK == 0
    ensures Fold(step, v, s + t) == Fold(step, Fold(step, v, s), t)
    decreases |s|
  {
    if s == [] {
      assert s + t == t;
    } else {
      assert (s + t)[..BLOCK] == s[..BLOCK];
      assert (s + t)[BLOCK..] == s[BLOCK..] + t;
      FoldAppend(step, step(v, s[..BLOCK]), s[BLOCK..], t);
    }
  }

  lemma FoldOne(step: Step, v: Vars, b: Bytes)
    requires |b| == BLOCK
    ensures Fold(step, v, b) == step(v, b)
  {
    assert b[..BLOCK] == b && b[BLOCK..] == [];
  }

  function Zeros(n: nat): (r: Bytes)
    ensures |r| == n
  {
    seq(n, _ => 0)
  }

  /** The least significant byte. */
  function LowByte(x: nat): bv8 { ByteOf(x % 256) }

  /** The byte with value `x`, counted up from zero. */
  function ByteOf(x: nat): bv8
    requires x < 256
  {
    if x == 0 then 0 else ByteOf(x - 1) + 1
  }

  /** The length in bits as a 64-bit number, the most significant byte first. */
  function LengthBytes(bits: nat): Bytes {
    [LowByte(bits / 0x100_0000_0000_0000), LowByte(bits / 0x1_0000_0000_0000),
     LowByte(bits / 0x100_0000_0000), LowByte(bits / 0x1_0000_0000),
     LowByte(bits / 0x100_0000), LowByte(bits / 0x1_0000), LowByte(bits / 0x100), LowByte(bits)]
  }

  /** How many zero bytes follow the first byte of padding: the least number that fills a block. */
  function PadZeros(n: nat): (z: nat)
    ensures (n + 1 + z + 8) % BLOCK == 0 && z < BLOCK
  {
    (55 - n) % BLOCK
  }

  /** `s`, a first byte of padding, zeros, and the length in bits of the message. */
  function PadWith(s: Bytes, first: bv8, bits: nat): (r: Bytes)
    ensures |r| % BLOCK == 0 && s <= r
  {
    s + [first] + Zeros(PadZeros(|s|)) + LengthBytes(bits)
  }

  /** Padding the part after a whole number of blocks is padding the message. */
  lemma PadSuffix(s: Bytes, t: Bytes, first: bv8, bits: nat)
    requires |s| % BLOCK == 0
    ensures PadWith(s + t, first, bits) == s + PadWith(t, first, bits)
  {
    assert PadZeros(|s + t|) == PadZeros(|t|);
  }

  function DigestOf(v: Vars): (r: Bytes)
    ensures |r| == 32
  {
    WordBytes(v.a) + WordBytes(v.b) + WordBytes(v.c) + WordBytes(v.d)
    + WordBytes(v.e) + WordBytes(v.f) + WordBytes(v.g) + WordBytes(v.h)
  }

  function WordBytes(w: bv32): (r: Bytes)
    ensures |r| == 4
  {
    [WordByte(w, 0), WordByte(w, 1), WordByte(w, 2), WordByte(w, 3)]
  }

  /** The hash of `s`, a first byte of padding and a length in bits. */
  function Finish(step: Step, s: Bytes, first: bv8, bits: nat): Vars {
    Fold(step, H0, PadWith(s, first, bits))
  }

  /** The digest of a message of whole bytes. */
  function Sha256(msg: Bytes): (r: Bytes)
    ensures |r| == 32
  {
    DigestOf(Finish(Compress, msg, 0x80, 8 * |msg|))
  }

  /** The last byte of a message that ends in `n` more bits: the bits, a one, and zeros. */
  function LastByte(bits: bv8, n: nat): bv8
    requires 0 < n < 8
  {
    if n == 1 then (bits & 0x80) | 0x40
    else if n == 2 then (bits & 0xC0) | 0x20
    else if n == 3 then (bits & 0xE0) | 0x10
    else if n == 4 then (bits & 0xF0) | 0x08
    else if n == 5 then (bits & 0xF8) | 0x04
    else if n == 6 then (bits & 0xFC) | 0x02
    else (bits & 0xFE) | 0x01
  }

  /** The upper `n` bits are those of the message, and the others a one and zeros. */
  lemma LastByteBits(bits: bv8, n: nat)
    requires 0 < n < 8
    ensures LastByte(bits, n) >> (8 - n) == bits >> (8 - n)
    ensures LastByte(bits, n) << n == 0x80
  {
    if n == 1 {
    } else if n == 2 {
    } else if n == 3 {
    } else if n == 4 {
    } else if n == 5 {
    } else if n == 6 {
    } else {
      assert n == 7;
    }
  }

  /** The digest of a message that ends in the `n` upper bits of `bits`. */
  function Sha256Bits(msg: Bytes, bits: bv8, n: nat): (r: Bytes)
    requires 0 < n < 8
    ensures |r| == 32
  {
    DigestOf(Finish(Compress, msg, LastByte(bits, n), 8 * |msg| + n))
  }
}
