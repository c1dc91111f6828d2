/** The parts of SHA-256 by what they do: where each bit goes, and what is selected. */
module Sha256Parts {
  import opened Sha256Spec

  /** Wherever `x` has a one, the choice is that of `y`, and elsewhere that of `z`. */
  lemma ChSelects(x: bv32, y: bv32, z: bv32)
    ensures Ch(x, y, z) & x == y & x && Ch(x, y, z) & !x == z & !x
  {
  }

  /** Wherever two of three agree, the majority agrees with them. */
  lemma MajAgrees(x: bv32, y: bv32, z: bv32)
    ensures Maj(x, y, z) & !(x ^ y) == x & !(x ^ y)
    ensures Maj(x, y, z) == Maj(y, z, x) == Maj(y, x, z)
  {
  }

  /** Rotations move the upper bits down and put the lowest on top. */
  lemma Rotr2(w: bv32)
    ensures Rotr(2, w) & 0x3fffffff == w >> 2 && Rotr(2, w) >> 30 == w & 0x3
  {
  }

  lemma Rotr6(w: bv32)
    ensures Rotr(6, w) & 0x3ffffff == w >> 6 && Rotr(6, w) >> 26 == w & 0x3f
  {
  }

  lemma Rotr7(w: bv32)
    ensures Rotr(7, w) & 0x1ffffff == w >> 7 && Rotr(7, w) >> 25 == w & 0x7f
  {
  }

  lemma Rotr11(w: bv32)
    ensures Rotr(11, w) & 0x1fffff == w >> 11 && Rotr(11, w) >> 21 == w & 0x7ff
  {
  }

  lemma Rotr13(w: bv32)
    ensures Rotr(13, w) & 0x7ffff == w >> 13 && Rotr(13, w) >> 19 == w & 0x1fff
  {
  }

  lemma Rotr17(w: bv32)
    ensures Rotr(17, w) & 0x7fff == w >> 17 && Rotr(17, w) >> 15 == w & 0x1ffff
  {
  }

  lemma Rotr18(w: bv32)
    ensures Rotr(18, w) & 0x3fff == w >> 18 && Rotr(18, w) >> 14 == w & 0x3ffff
  {
  }

  lemma Rotr19(w: bv32)
    ensures Rotr(19, w) & 0x1fff == w >> 19 && Rotr(19, w) >> 13 == w & 0x7ffff
  {
  }

  lemma Rotr22(w: bv32)
    ensures Rotr(22, w) & 0x3ff == w >> 22 && Rotr(22, w) >> 10 == w & 0x3fffff
  {
  }

  lemma Rotr25(w: bv32)
    ensures Rotr(25, w) & 0x7f == w >> 25 && Rotr(25, w) >> 7 == w & 0x1ffffff
  {
  }

  /** What the four functions make of `w`. */
  predicate Become(w: bv32, a: bv32, b: bv32, c: bv32, d: bv32) {
    BigSigma0(w) == a && BigSigma1(w) == b && Sigma0(w) == c && Sigma1(w) == d
  }

  /** Where each single bit goes. */
  lemma SingleBits()
    ensures Become(0x00000001, 0x40080400, 0x04200080, 0x02004000, 0x0000a000)
    ensures Become(0x00000002, 0x80100800, 0x08400100, 0x04008000, 0x00014000)
    ensures Become(0x00000004, 0x00201001, 0x10800200, 0x08010000, 0x00028000)
    ensures Become(0x00000008, 0x00402002, 0x21000400, 0x10020001, 0x00050000)
    ensures Become(0x00000010, 0x00804004, 0x42000800, 0x20040002, 0x000a0000)
    ensures Become(0x00000020, 0x01008008, 0x84001000, 0x40080004, 0x00140000)
    ensures Become(0x00000040, 0x02010010, 0x08002001, 0x80100008, 0x00280000)
    ensures Become(0x00000080, 0x04020020, 0x10004002, 0x00200011, 0x00500000)
    ensures Become(0x00000100, 0x08040040, 0x20008004, 0x00400022, 0x00a00000)
    ensures Become(0x00000200, 0x10080080, 0x40010008, 0x00800044, 0x01400000)
    ensures Become(0x00000400, 0x20100100, 0x80020010, 0x01000088, 0x02800001)
    ensures Become(0x00000800, 0x40200200, 0x00040021, 0x02000110, 0x05000002)
    ensures Become(0x00001000, 0x80400400, 0x00080042, 0x04000220, 0x0a000004)
    ensures Become(0x00002000, 0x00800801, 0x00100084, 0x08000440, 0x14000008)
    ensures Become(0x00004000, 0x01001002, 0x00200108, 0x10000880, 0x28000010)
    ensures Become(0x00008000, 0x02002004, 0x00400210, 0x20001100, 0x50000020)
    ensures Become(0x00010000, 0x04004008, 0x00800420, 0x40002200, 0xa0000040)
    ensures Become(0x00020000, 0x08008010, 0x01000840, 0x80004400, 0x40000081)
    ensures Become(0x00040000, 0x10010020, 0x02001080, 0x00008801, 0x80000102)
    ensures Become(0x00080000, 0x20020040, 0x04002100, 0x00011002, 0x00000205)
    ensures Become(0x00100000, 0x40040080, 0x08004200, 0x00022004, 0x0000040a)
    ensures Become(0x00200000, 0x80080100, 0x10008400, 0x00044008, 0x00000814)
    ensures Become(0x00400000, 0x00100201, 0x20010800, 0x00088010, 0x00001028)
    ensures Become(0x00800000, 0x00200402, 0x40021000, 0x00110020, 0x00002050)
    ensures Become(0x01000000, 0x00400804, 0x80042000, 0x00220040, 0x000040a0)
    ensures Become(0x02000000, 0x00801008, 0x00084001, 0x00440080, 0x00008140)
    ensures Become(0x04000000, 0x01002010, 0x00108002, 0x00880100, 0x00010280)
    ensures Become(0x08000000, 0x02004020, 0x00210004, 0x01100200, 0x00020500)
    ensures Become(0x10000000, 0x04008040, 0x00420008, 0x02200400, 0x00040a00)
    ensures Become(0x20000000, 0x08010080, 0x00840010, 0x04400800, 0x00081400)
    ensures Become(0x40000000, 0x10020100, 0x01080020, 0x08801000, 0x00102800)
    ensures Become(0x80000000, 0x20040200, 0x02100040, 0x11002000, 0x00205000)
  {
  }

  /** Words and their bytes determine each other. */
  lemma WordBytesRoundTrip(a: bv8, b: bv8, c: bv8, d: bv8, w: bv32)
    ensures WordBytes(Word(a, b, c, d)) == [a, b, c, d]
    ensures Word(WordByte(w, 0), WordByte(w, 1), WordByte(w, 2), WordByte(w, 3)) == w
  {
  }

  /******* Lengths *******/

  lemma {:induction false} ByteValue(x: nat)
    requires x < 256
    ensures ByteOf(x) as int == x
  {
    if x > 0 { ByteValue(x - 1); }
  }

  /** The number that bytes stand for, the most significant first. */
  function Value(s: Bytes): nat {
    if s == [] then 0 else 256 * Value(s[..|s| - 1]) + (s[|s| - 1] as int)
  }

  /** The lowest `n` bytes of a number, the most significant first. */
  function Big(x: nat, n: nat): (s: Bytes)
    ensures |s| == n
  {
    if n == 0 then [] else Big(x / 256, n - 1) + [LowByte(x)]
  }

  function Power256(n: nat): nat { if n == 0 then 1 else 256 * Power256(n - 1) }

  lemma {:induction false} BigValue(x: nat, n: nat)
    requires x < Power256(n)
    ensures Value(Big(x, n)) == x
  {
    if n > 0 {
      BigValue(x / 256, n - 1);
      ByteValue(x % 256);
      assert Big(x, n)[..n - 1] == Big(x / 256, n - 1);
    }
  }

  lemma LengthIsBig(bits: nat)
    ensures LengthBytes(bits) == Big(bits, 8)
  {
    var b1, b2, b3, b4 := bits / 0x100, bits / 0x1_0000, bits / 0x100_0000, bits / 0x1_0000_0000;
    var b5, b6, b7 := bits / 0x100_0000_0000, bits / 0x1_0000_0000_0000, bits / 0x100_0000_0000_0000;
    assert b1 / 256 == b2 && b2 / 256 == b3 && b3 / 256 == b4 && b4 / 256 == b5 && b5 / 256 == b6 && b6 / 256 == b7;
    assert Big(b7, 1) == [LowByte(b7)];
    assert Big(b6, 2) == [LowByte(b7), LowByte(b6)];
    assert Big(b5, 3) == [LowByte(b7), LowByte(b6), LowByte(b5)];
    assert Big(b4, 4) == Big(b5, 3) + [LowByte(b4)];
    assert Big(b3, 5) == Big(b4, 4) + [LowByte(b3)];
    assert Big(b2, 6) == Big(b3, 5) + [LowByte(b2)];
    assert Big(b1, 7) == Big(b2, 6) + [LowByte(b1)];
    assert Big(bits, 8) == Big(b1, 7) + [LowByte(bits)];
  }

  /** The last eight bytes of a padded message are its length in bits. */
  lemma LengthValue(bits: nat)
    requires bits < 0x1_0000_0000_0000_0000
    ensures |LengthBytes(bits)| == 8 && Value(LengthBytes(bits)) == bits
  {
    LengthIsBig(bits);
    assert Power256(8) == 0x1_0000_0000_0000_0000;
    BigValue(bits, 8);
  }
}
