/** The example of FIPS 180-2, appendix B.1: the digest of "abc", word by word and round by round. */
module Sha256Example {
  import opened Sha256Spec

  const ABC: Bytes := [0x61, 0x62, 0x63]

  /** The one block of the padded message. */
  ghost predicate AbcBlock(block: Bytes) {
    && |block| == BLOCK && block[0] == 0x61 && block[1] == 0x62 && block[2] == 0x63 && block[3] == 0x80
    && (forall i | 4 <= i < 63 :: block[i] == 0) && block[63] == 24
  }

  lemma AbcPadded()
    ensures AbcBlock(PadWith(ABC, 0x80, 24))
  {
    assert PadZeros(3) == 52;
    ByteOf24();
    ShortLength(24, 0, 24);
  }

  lemma NoHigherBytes(bits: nat)
    requires bits < 256
    ensures bits / 0x100 == bits / 0x1_0000 == bits / 0x100_0000 == bits / 0x1_0000_0000 == 0
    ensures bits / 0x100_0000_0000 == bits / 0x1_0000_0000_0000 == bits / 0x100_0000_0000_0000 == 0
  {
  }

  lemma ShortLength(bits: nat, zero: bv8, last: bv8)
    requires bits < 256 && LowByte(0) == zero && LowByte(bits) == last
    ensures LengthBytes(bits) == [zero, zero, zero, zero, zero, zero, zero, last]
  {
    NoHigherBytes(bits);
  }

  lemma ByteOf24()
    ensures LowByte(24) == 24
  {
    assert ByteOf(8) == 8;
    assert ByteOf(16) == 16;
  }

  const W0: seq<bv32> :=
    [0x61626380, 0x00000000, 0x00000000, 0x00000000, 0x00000000, 0x00000000, 0x00000000, 0x00000000]
  const W1: seq<bv32> :=
    [0x00000000, 0x00000000, 0x00000000, 0x00000000, 0x00000000, 0x00000000, 0x00000000, 0x00000018]
  const W2: seq<bv32> :=
    [0x61626380, 0x000f0000, 0x7da86405, 0x600003c6, 0x3e9d7b78, 0x0183fc00, 0x12dcbfdb, 0xe2e2c38e]
  const W3: seq<bv32> :=
    [0xc8215c1a, 0xb73679a2, 0xe5bc3909, 0x32663c5b, 0x9d209d67, 0xec8726cb, 0x702138a4, 0xd3b7973b]
  const W4: seq<bv32> :=
    [0x93f5997f, 0x3b68ba73, 0xaff4ffc1, 0xf10a5c62, 0x0a8b3996, 0x72af830a, 0x9409e33e, 0x24641522]
  const W5: seq<bv32> :=
    [0x9f47bf94, 0xf0a64f5a, 0x3e246a79, 0x27333ba3, 0x0c4763f2, 0x840abf27, 0x7a290d5d, 0x065c43da]
  const W6: seq<bv32> :=
    [0xfb3e89cb, 0xcc7617db, 0xb9e66c34, 0xa9993667, 0x84badedd, 0xc21462bc, 0x1487472c, 0xb20f7a99]
  const W7: seq<bv32> :=
    [0xef57b9cd, 0xebe6b238, 0x9fe3095e, 0x78bc8d4b, 0xa43fcf15, 0x668b2ff8, 0xeeaba2cc, 0x12b1edeb]

  const WORDS: seq<bv32> := W0 + W1 + W2 + W3 + W4 + W5 + W6 + W7

  /** `w` are the first words of the schedule. */
  ghost predicate Words(block: Bytes, w: seq<bv32>) {
    |block| == BLOCK && |w| <= |K| && Schedule(block, |w|) == w
  }

  lemma FirstWord(block: Bytes)
    requires AbcBlock(block)
    ensures Words(block, [0x61626380])
  {
    assert Schedule(block, 1) == Schedule(block, 0) + [BlockWord(block, 0)];
  }

  lemma BlockMore(block: Bytes, w: seq<bv32>)
    requires Words(block, w) && |w| < 16
    ensures Words(block, w + [BlockWord(block, |w|)])
  {
  }

  lemma {:induction false} ZeroWords(block: Bytes, n: nat)
    requires AbcBlock(block) && n <= 14
    ensures Words(block, [0x61626380] + seq(n, _ => 0))
  {
    if n == 0 {
      FirstWord(block);
      assert [0x61626380] + seq(0, _ => 0 as bv32) == [0x61626380];
    } else {
      ZeroWords(block, n - 1);
      var w := [0x61626380] + seq(n - 1, _ => 0);
      BlockMore(block, w);
      assert BlockWord(block, n) == 0;
      assert w + [0] == [0x61626380] + seq(n, _ => 0);
    }
  }

  lemma FirstWords(block: Bytes)
    requires AbcBlock(block)
    ensures Words(block, W0 + W1)
  {
    var w := [0x61626380] + seq(14, _ => 0);
    ZeroWords(block, 14);
    BlockMore(block, w);
    assert BlockWord(block, 15) == 24;
    assert W0 + W1 == w + [24];
  }

  /** Word `t` follows from four earlier ones. */
  predicate Follows(w: seq<bv32>, t: nat)
    requires 16 <= t < |w|
  {
    Expand(w[t - 2], w[t - 7], w[t - 15], w[t - 16]) == w[t]
  }

  lemma Word(w: seq<bv32>, t: nat, a: bv32, b: bv32, c: bv32, d: bv32, x: bv32)
    requires 16 <= t < |w| && Expand(a, b, c, d) == x && w[t] == x
    requires w[t - 2] == a && w[t - 7] == b && w[t - 15] == c && w[t - 16] == d
    ensures Follows(w, t)
  {
  }

  lemma Words16(w: seq<bv32>)
    requires |w| == |K| && w[0..8] == W0 && w[8..16] == W1 && w[16..24] == W2
    ensures forall t: nat | 16 <= t < 20 :: Follows(w, t)
  {
    Word(w, 16, 0x00000000, 0x00000000, 0x00000000, 0x61626380, 0x61626380);
    Word(w, 17, 0x00000018, 0x00000000, 0x00000000, 0x00000000, 0x000f0000);
    Word(w, 18, 0x61626380, 0x00000000, 0x00000000, 0x00000000, 0x7da86405);
    Word(w, 19, 0x000f0000, 0x00000000, 0x00000000, 0x00000000, 0x600003c6);
  }

  lemma Words20(w: seq<bv32>)
    requires |w| == |K| && w[0..8] == W0 && w[8..16] == W1 && w[16..24] == W2
    ensures forall t: nat | 20 <= t < 24 :: Follows(w, t)
  {
    Word(w, 20, 0x7da86405, 0x00000000, 0x00000000, 0x00000000, 0x3e9d7b78);
    Word(w, 21, 0x600003c6, 0x00000000, 0x00000000, 0x00000000, 0x0183fc00);
    Word(w, 22, 0x3e9d7b78, 0x00000018, 0x00000000, 0x00000000, 0x12dcbfdb);
    Word(w, 23, 0x0183fc00, 0x61626380, 0x00000000, 0x00000000, 0xe2e2c38e);
  }

  lemma Words24(w: seq<bv32>)
    requires |w| == |K| && w[8..16] == W1 && w[16..24] == W2 && w[24..32] == W3
    ensures forall t: nat | 24 <= t < 28 :: Follows(w, t)
  {
    Word(w, 24, 0x12dcbfdb, 0x000f0000, 0x00000000, 0x00000000, 0xc8215c1a);
    Word(w, 25, 0xe2e2c38e, 0x7da86405, 0x00000000, 0x00000000, 0xb73679a2);
    Word(w, 26, 0xc8215c1a, 0x600003c6, 0x00000000, 0x00000000, 0xe5bc3909);
    Word(w, 27, 0xb73679a2, 0x3e9d7b78, 0x00000000, 0x00000000, 0x32663c5b);
  }

  lemma Words28(w: seq<bv32>)
    requires |w| == |K| && w[8..16] == W1 && w[16..24] == W2 && w[24..32] == W3
    ensures forall t: nat | 28 <= t < 32 :: Follows(w, t)
  {
    Word(w, 28, 0xe5bc3909, 0x0183fc00, 0x00000000, 0x00000000, 0x9d209d67);
    Word(w, 29, 0x32663c5b, 0x12dcbfdb, 0x00000000, 0x00000000, 0xec8726cb);
    Word(w, 30, 0x9d209d67, 0xe2e2c38e, 0x00000018, 0x00000000, 0x702138a4);
    Word(w, 31, 0xec8726cb, 0xc8215c1a, 0x61626380, 0x00000018, 0xd3b7973b);
  }

  lemma Words32(w: seq<bv32>)
    requires |w| == |K| && w[16..24] == W2 && w[24..32] == W3 && w[32..40] == W4
    ensures forall t: nat | 32 <= t < 36 :: Follows(w, t)
  {
    Word(w, 32, 0x702138a4, 0xb73679a2, 0x000f0000, 0x61626380, 0x93f5997f);
    Word(w, 33, 0xd3b7973b, 0xe5bc3909, 0x7da86405, 0x000f0000, 0x3b68ba73);
    Word(w, 34, 0x93f5997f, 0x32663c5b, 0x600003c6, 0x7da86405, 0xaff4ffc1);
    Word(w, 35, 0x3b68ba73, 0x9d209d67, 0x3e9d7b78, 0x600003c6, 0xf10a5c62);
  }

  lemma Words36(w: seq<bv32>)
    requires |w| == |K| && w[16..24] == W2 && w[24..32] == W3 && w[32..40] == W4
    ensures forall t: nat | 36 <= t < 40 :: Follows(w, t)
  {
    Word(w, 36, 0xaff4ffc1, 0xec8726cb, 0x0183fc00, 0x3e9d7b78, 0x0a8b3996);
    Word(w, 37, 0xf10a5c62, 0x702138a4, 0x12dcbfdb, 0x0183fc00, 0x72af830a);
    Word(w, 38, 0x0a8b3996, 0xd3b7973b, 0xe2e2c38e, 0x12dcbfdb, 0x9409e33e);
    Word(w, 39, 0x72af830a, 0x93f5997f, 0xc8215c1a, 0xe2e2c38e, 0x24641522);
  }

  lemma Words40(w: seq<bv32>)
    requires |w| == |K| && w[24..32] == W3 && w[32..40] == W4 && w[40..48] == W5
    ensures forall t: nat | 40 <= t < 44 :: Follows(w, t)
  {
    Word(w, 40, 0x9409e33e, 0x3b68ba73, 0xb73679a2, 0xc8215c1a, 0x9f47bf94);
    Word(w, 41, 0x24641522, 0xaff4ffc1, 0xe5bc3909, 0xb73679a2, 0xf0a64f5a);
    Word(w, 42, 0x9f47bf94, 0xf10a5c62, 0x32663c5b, 0xe5bc3909, 0x3e246a79);
    Word(w, 43, 0xf0a64f5a, 0x0a8b3996, 0x9d209d67, 0x32663c5b, 0x27333ba3);
  }

  lemma Words44(w: seq<bv32>)
    requires |w| == |K| && w[24..32] == W3 && w[32..40] == W4 && w[40..48] == W5
    ensures forall t: nat | 44 <= t < 48 :: Follows(w, t)
  {
    Word(w, 44, 0x3e246a79, 0x72af830a, 0xec8726cb, 0x9d209d67, 0x0c4763f2);
    Word(w, 45, 0x27333ba3, 0x9409e33e, 0x702138a4, 0xec8726cb, 0x840abf27);
    Word(w, 46, 0x0c4763f2, 0x24641522, 0xd3b7973b, 0x702138a4, 0x7a290d5d);
    Word(w, 47, 0x840abf27, 0x9f47bf94, 0x93f5997f, 0xd3b7973b, 0x065c43da);
  }

  lemma Words48(w: seq<bv32>)
    requires |w| == |K| && w[32..40] == W4 && w[40..48] == W5 && w[48..56] == W6
    ensures forall t: nat | 48 <= t < 52 :: Follows(w, t)
  {
    Word(w, 48, 0x7a290d5d, 0xf0a64f5a, 0x3b68ba73, 0x93f5997f, 0xfb3e89cb);
    Word(w, 49, 0x065c43da, 0x3e246a79, 0xaff4ffc1, 0x3b68ba73, 0xcc7617db);
    Word(w, 50, 0xfb3e89cb, 0x27333ba3, 0xf10a5c62, 0xaff4ffc1, 0xb9e66c34);
    Word(w, 51, 0xcc7617db, 0x0c4763f2, 0x0a8b3996, 0xf10a5c62, 0xa9993667);
  }

  lemma Words52(w: seq<bv32>)
    requires |w| == |K| && w[32..40] == W4 && w[40..48] == W5 && w[48..56] == W6
    ensures forall t: nat | 52 <= t < 56 :: Follows(w, t)
  {
    Word(w, 52, 0xb9e66c34, 0x840abf27, 0x72af830a, 0x0a8b3996, 0x84badedd);
    Word(w, 53, 0xa9993667, 0x7a290d5d, 0x9409e33e, 0x72af830a, 0xc21462bc);
    Word(w, 54, 0x84badedd, 0x065c43da, 0x24641522, 0x9409e33e, 0x1487472c);
    Word(w, 55, 0xc21462bc, 0xfb3e89cb, 0x9f47bf94, 0x24641522, 0xb20f7a99);
  }

  lemma Words56(w: seq<bv32>)
    requires |w| == |K| && w[40..48] == W5 && w[48..56] == W6 && w[56..64] == W7
    ensures forall t: nat | 56 <= t < 60 :: Follows(w, t)
  {
    Word(w, 56, 0x1487472c, 0xcc7617db, 0xf0a64f5a, 0x9f47bf94, 0xef57b9cd);
    Word(w, 57, 0xb20f7a99, 0xb9e66c34, 0x3e246a79, 0xf0a64f5a, 0xebe6b238);
    Word(w, 58, 0xef57b9cd, 0xa9993667, 0x27333ba3, 0x3e246a79, 0x9fe3095e);
    Word(w, 59, 0xebe6b238, 0x84badedd, 0x0c4763f2, 0x27333ba3, 0x78bc8d4b);
  }

  lemma Words60(w: seq<bv32>)
    requires |w| == |K| && w[40..48] == W5 && w[48..56] == W6 && w[56..64] == W7
    ensures forall t: nat | 60 <= t < 64 :: Follows(w, t)
  {
    Word(w, 60, 0x9fe3095e, 0xc21462bc, 0x840abf27, 0x0c4763f2, 0xa43fcf15);
    Word(w, 61, 0x78bc8d4b, 0x1487472c, 0x7a290d5d, 0x840abf27, 0x668b2ff8);
    Word(w, 62, 0xa43fcf15, 0xb20f7a99, 0x065c43da, 0x7a290d5d, 0xeeaba2cc);
    Word(w, 63, 0x668b2ff8, 0xef57b9cd, 0xfb3e89cb, 0x065c43da, 0x12b1edeb);
  }

  lemma AllFollow()
    ensures |WORDS| == |K| && forall t: nat | 16 <= t < |WORDS| :: Follows(WORDS, t)
  {
    Words16(WORDS);
    Words20(WORDS);
    Words24(WORDS);
    Words28(WORDS);
    Words32(WORDS);
    Words36(WORDS);
    Words40(WORDS);
    Words44(WORDS);
    Words48(WORDS);
    Words52(WORDS);
    Words56(WORDS);
    Words60(WORDS);
  }

  lemma OneMore(block: Bytes, w: seq<bv32>)
    requires Words(block, w) && 16 <= |w| < |K|
    ensures Words(block, w + [NextWord(w)])
  {
  }

  lemma {:induction false} WordsUpTo(block: Bytes, w: seq<bv32>, n: nat)
    requires 16 <= n <= |K| == |w| && Words(block, w[..16]) && forall t: nat | 16 <= t < |w| :: Follows(w, t)
    ensures Words(block, w[..n])
  {
    if n > 16 {
      WordsUpTo(block, w, n - 1);
      OneMore(block, w[..n - 1]);
      NextIs(w, n - 1);
    }
  }

  lemma NextIs(w: seq<bv32>, t: nat)
    requires 16 <= t < |w| && Follows(w, t)
    ensures w[..t + 1] == w[..t] + [NextWord(w[..t])]
  {
  }

  /** The working variables after `t` rounds. */
  ghost predicate Reaches(w: seq<bv32>, t: nat, v: Vars) { t <= |w| == |K| && Rounds(H0, w, t) == v }

  /** The constant and the word of round `t`. */
  ghost predicate Input(w: seq<bv32>, t: nat, k: bv32, x: bv32) { t < |w| == |K| && K[t] == k && w[t] == x }

  /** One more round: `k` and `x` are its constant and its word, `a` and `e` the two new values. */
  lemma Turn(w: seq<bv32>, t: nat, v: Vars, k: bv32, x: bv32, a: bv32, e: bv32) returns (v': Vars)
    requires Reaches(w, t, v) && Input(w, t, k, x)
    requires Add(Temp1(v.e, v.f, v.g, v.h, k, x), Temp2(v.a, v.b, v.c)) == a
    requires Add(v.d, Temp1(v.e, v.f, v.g, v.h, k, x)) == e
    ensures v' == Vars(a, v.a, v.b, v.c, e, v.e, v.f, v.g) && Reaches(w, t + 1, v')
  {
    v' := Round(v, k, x);
  }

  lemma Inputs0(w: seq<bv32>)
    requires w == WORDS && |w| == |K|
    ensures Input(w, 0, 0x428a2f98, 0x61626380)
    ensures Input(w, 1, 0x71374491, 0x00000000)
    ensures Input(w, 2, 0xb5c0fbcf, 0x00000000)
    ensures Input(w, 3, 0xe9b5dba5, 0x00000000)
    ensures Input(w, 4, 0x3956c25b, 0x00000000)
    ensures Input(w, 5, 0x59f111f1, 0x00000000)
    ensures Input(w, 6, 0x923f82a4, 0x00000000)
    ensures Input(w, 7, 0xab1c5ed5, 0x00000000)
  {
  }

  lemma Rounds0(w: seq<bv32>, u: Vars) returns (v: Vars)
    requires w == WORDS && Reaches(w, 0, u)
    requires u == Vars(0x6a09e667, 0xbb67ae85, 0x3c6ef372, 0xa54ff53a, 0x510e527f, 0x9b05688c, 0x1f83d9ab, 0x5be0cd19)
    ensures Reaches(w, 8, v)
    ensures v == Vars(0x85a07b5f, 0xe5030380, 0x2b4209f5, 0x04409a6a, 0x0c657a79, 0x9b27a401, 0x714260ad, 0x43ada245)
  {
    Inputs0(w);
    v := u;
    v := Turn(w, 0, v, 0x428a2f98, 0x61626380, 0x5d6aebcd, 0xfa2a4622);
    v := Turn(w, 1, v, 0x71374491, 0x00000000, 0x5a6ad9ad, 0x78ce7989);
    v := Turn(w, 2, v, 0xb5c0fbcf, 0x00000000, 0xc8c347a7, 0xf92939eb);
    v := Turn(w, 3, v, 0xe9b5dba5, 0x00000000, 0xd550f666, 0x24e00850);
    v := Turn(w, 4, v, 0x3956c25b, 0x00000000, 0x04409a6a, 0x43ada245);
    v := Turn(w, 5, v, 0x59f111f1, 0x00000000, 0x2b4209f5, 0x714260ad);
    v := Turn(w, 6, v, 0x923f82a4, 0x00000000, 0xe5030380, 0x9b27a401);
    v := Turn(w, 7, v, 0xab1c5ed5, 0x00000000, 0x85a07b5f, 0x0c657a79);
  }

  lemma Inputs1(w: seq<bv32>)
    requires w == WORDS && |w| == |K|
    ensures Input(w, 8, 0xd807aa98, 0x00000000)
    ensures Input(w, 9, 0x12835b01, 0x00000000)
    ensures Input(w, 10, 0x243185be, 0x00000000)
    ensures Input(w, 11, 0x550c7dc3, 0x00000000)
    ensures Input(w, 12, 0x72be5d74, 0x00000000)
    ensures Input(w, 13, 0x80deb1fe, 0x00000000)
    ensures Input(w, 14, 0x9bdc06a7, 0x00000000)
    ensures Input(w, 15, 0xc19bf174, 0x00000018)
  {
  }

  lemma Rounds1(w: seq<bv32>, u: Vars) returns (v: Vars)
    requires w == WORDS && Reaches(w, 8, u)
    requires u == Vars(0x85a07b5f, 0xe5030380, 0x2b4209f5, 0x04409a6a, 0x0c657a79, 0x9b27a401, 0x714260ad, 0x43ada245)
    ensures Reaches(w, 16, v)
    ensures v == Vars(0xb0fa238e, 0xc0645fde, 0xd932eb16, 0x87912990, 0x07590dcd, 0x0b92f20c, 0x745a48de, 0x1e578218)
  {
    Inputs1(w);
    v := u;
    v := Turn(w, 8, v, 0xd807aa98, 0x00000000, 0x8e04ecb9, 0x32ca2d8c);
    v := Turn(w, 9, v, 0x12835b01, 0x00000000, 0x8c87346b, 0x1cc92596);
    v := Turn(w, 10, v, 0x243185be, 0x00000000, 0x4798a3f4, 0x436b23e8);
    v := Turn(w, 11, v, 0x550c7dc3, 0x00000000, 0xf71fc5a9, 0x816fd6e9);
    v := Turn(w, 12, v, 0x72be5d74, 0x00000000, 0x87912990, 0x1e578218);
    v := Turn(w, 13, v, 0x80deb1fe, 0x00000000, 0xd932eb16, 0x745a48de);
    v := Turn(w, 14, v, 0x9bdc06a7, 0x00000000, 0xc0645fde, 0x0b92f20c);
    v := Turn(w, 15, v, 0xc19bf174, 0x00000018, 0xb0fa238e, 0x07590dcd);
  }

  lemma Inputs2(w: seq<bv32>)
    requires w == WORDS && |w| == |K|
    ensures Input(w, 16, 0xe49b69c1, 0x61626380)
    ensures Input(w, 17, 0xefbe4786, 0x000f0000)
    ensures Input(w, 18, 0x0fc19dc6, 0x7da86405)
    ensures Input(w, 19, 0x240ca1cc, 0x600003c6)
    ensures Input(w, 20, 0x2de92c6f, 0x3e9d7b78)
    ensures Input(w, 21, 0x4a7484aa, 0x0183fc00)
    ensures Input(w, 22, 0x5cb0a9dc, 0x12dcbfdb)
    ensures Input(w, 23, 0x76f988da, 0xe2e2c38e)
  {
  }

  lemma Rounds2(w: seq<bv32>, u: Vars) returns (v: Vars)
    requires w == WORDS && Reaches(w, 16, u)
    requires u == Vars(0xb0fa238e, 0xc0645fde, 0xd932eb16, 0x87912990, 0x07590dcd, 0x0b92f20c, 0x745a48de, 0x1e578218)
    ensures Reaches(w, 24, v)
    ensures v == Vars(0xc5d53d8d, 0xa7a3623f, 0xc2606d6d, 0x9dc68b63, 0xaa47c347, 0x49f5114a, 0xe1257970, 0x8ada8930)
  {
    Inputs2(w);
    v := u;
    v := Turn(w, 16, v, 0xe49b69c1, 0x61626380, 0x21da9a9b, 0x8034229c);
    v := Turn(w, 17, v, 0xefbe4786, 0x000f0000, 0xc2fbd9d1, 0x846ee454);
    v := Turn(w, 18, v, 0x0fc19dc6, 0x7da86405, 0xfe777bbf, 0xcc899961);
    v := Turn(w, 19, v, 0x240ca1cc, 0x600003c6, 0xe1f20c33, 0xb0638179);
    v := Turn(w, 20, v, 0x2de92c6f, 0x3e9d7b78, 0x9dc68b63, 0x8ada8930);
    v := Turn(w, 21, v, 0x4a7484aa, 0x0183fc00, 0xc2606d6d, 0xe1257970);
    v := Turn(w, 22, v, 0x5cb0a9dc, 0x12dcbfdb, 0xa7a3623f, 0x49f5114a);
    v := Turn(w, 23, v, 0x76f988da, 0xe2e2c38e, 0xc5d53d8d, 0xaa47c347);
  }

  lemma Inputs3(w: seq<bv32>)
    requires w == WORDS && |w| == |K|
    ensures Input(w, 24, 0x983e5152, 0xc8215c1a)
    ensures Input(w, 25, 0xa831c66d, 0xb73679a2)
    ensures Input(w, 26, 0xb00327c8, 0xe5bc3909)
    ensures Input(w, 27, 0xbf597fc7, 0x32663c5b)
    ensures Input(w, 28, 0xc6e00bf3, 0x9d209d67)
    ensures Input(w, 29, 0xd5a79147, 0xec8726cb)
    ensures Input(w, 30, 0x06ca6351, 0x702138a4)
    ensures Input(w, 31, 0x14292967, 0xd3b7973b)
  {
  }

  lemma Rounds3(w: seq<bv32>, u: Vars) returns (v: Vars)
    requires w == WORDS && Reaches(w, 24, u)
    requires u == Vars(0xc5d53d8d, 0xa7a3623f, 0xc2606d6d, 0x9dc68b63, 0xaa47c347, 0x49f5114a, 0xe1257970, 0x8ada8930)
    ensures Reaches(w, 32, v)
    ensures v == Vars(0x73b33bf5, 0xea992a22, 0xa0060b30, 0x363482c9, 0xba591112, 0x0109ab3a, 0xade79437, 0x6112a3b7)
  {
    Inputs3(w);
    v := u;
    v := Turn(w, 24, v, 0x983e5152, 0xc8215c1a, 0x1c2c2838, 0x2823ef91);
    v := Turn(w, 25, v, 0xa831c66d, 0xb73679a2, 0xcde8037d, 0x14383d8e);
    v := Turn(w, 26, v, 0xb00327c8, 0xe5bc3909, 0xb62ec4bc, 0xc74c6516);
    v := Turn(w, 27, v, 0xbf597fc7, 0x32663c5b, 0x77d37528, 0xedffbff8);
    v := Turn(w, 28, v, 0xc6e00bf3, 0x9d209d67, 0x363482c9, 0x6112a3b7);
    v := Turn(w, 29, v, 0xd5a79147, 0xec8726cb, 0xa0060b30, 0xade79437);
    v := Turn(w, 30, v, 0x06ca6351, 0x702138a4, 0xea992a22, 0x0109ab3a);
    v := Turn(w, 31, v, 0x14292967, 0xd3b7973b, 0x73b33bf5, 0xba591112);
  }

  lemma Inputs4(w: seq<bv32>)
    requires w == WORDS && |w| == |K|
    ensures Input(w, 32, 0x27b70a85, 0x93f5997f)
    ensures Input(w, 33, 0x2e1b2138, 0x3b68ba73)
    ensures Input(w, 34, 0x4d2c6dfc, 0xaff4ffc1)
    ensures Input(w, 35, 0x53380d13, 0xf10a5c62)
    ensures Input(w, 36, 0x650a7354, 0x0a8b3996)
    ensures Input(w, 37, 0x766a0abb, 0x72af830a)
    ensures Input(w, 38, 0x81c2c92e, 0x9409e33e)
    ensures Input(w, 39, 0x92722c85, 0x24641522)
  {
  }

  lemma Rounds4(w: seq<bv32>, u: Vars) returns (v: Vars)
    requires w == WORDS && Reaches(w, 32, u)
    requires u == Vars(0x73b33bf5, 0xea992a22, 0xa0060b30, 0x363482c9, 0xba591112, 0x0109ab3a, 0xade79437, 0x6112a3b7)
    ensures Reaches(w, 40, v)
    ensures v == Vars(0x79ea687a, 0x6dc57a8a, 0x34df1604, 0x41a65cb1, 0x1efbc0a0, 0xf0781bc8, 0xa507a53d, 0x0772a26b)
  {
    Inputs4(w);
    v := u;
    v := Turn(w, 32, v, 0x27b70a85, 0x93f5997f, 0x98e12507, 0x9cd9f5f6);
    v := Turn(w, 33, v, 0x2e1b2138, 0x3b68ba73, 0xfe604df5, 0x59249dd3);
    v := Turn(w, 34, v, 0x4d2c6dfc, 0xaff4ffc1, 0xa9a7738c, 0x085f3833);
    v := Turn(w, 35, v, 0x53380d13, 0xf10a5c62, 0x65a0cfe4, 0xf4b002d6);
    v := Turn(w, 36, v, 0x650a7354, 0x0a8b3996, 0x41a65cb1, 0x0772a26b);
    v := Turn(w, 37, v, 0x766a0abb, 0x72af830a, 0x34df1604, 0xa507a53d);
    v := Turn(w, 38, v, 0x81c2c92e, 0x9409e33e, 0x6dc57a8a, 0xf0781bc8);
    v := Turn(w, 39, v, 0x92722c85, 0x24641522, 0x79ea687a, 0x1efbc0a0);
  }

  lemma Inputs5(w: seq<bv32>)
    requires w == WORDS && |w| == |K|
    ensures Input(w, 40, 0xa2bfe8a1, 0x9f47bf94)
    ensures Input(w, 41, 0xa81a664b, 0xf0a64f5a)
    ensures Input(w, 42, 0xc24b8b70, 0x3e246a79)
    ensures Input(w, 43, 0xc76c51a3, 0x27333ba3)
    ensures Input(w, 44, 0xd192e819, 0x0c4763f2)
    ensures Input(w, 45, 0xd6990624, 0x840abf27)
    ensures Input(w, 46, 0xf40e3585, 0x7a290d5d)
    ensures Input(w, 47, 0x106aa070, 0x065c43da)
  {
  }

  lemma Rounds5(w: seq<bv32>, u: Vars) returns (v: Vars)
    requires w == WORDS && Reaches(w, 40, u)
    requires u == Vars(0x79ea687a, 0x6dc57a8a, 0x34df1604, 0x41a65cb1, 0x1efbc0a0, 0xf0781bc8, 0xa507a53d, 0x0772a26b)
    ensures Reaches(w, 48, v)
    ensures v == Vars(0x4172328d, 0xa14c14b0, 0x72ab4b91, 0x26628815, 0xfecf0bc6, 0xd57b94a9, 0xb7755da1, 0xa80f11f0)
  {
    Inputs5(w);
    v := u;
    v := Turn(w, 40, v, 0xa2bfe8a1, 0x9f47bf94, 0xd6670766, 0x26352d63);
    v := Turn(w, 41, v, 0xa81a664b, 0xf0a64f5a, 0xdf46652f, 0x838b2711);
    v := Turn(w, 42, v, 0xc24b8b70, 0x3e246a79, 0x17aa0dfe, 0xdecd4715);
    v := Turn(w, 43, v, 0xc76c51a3, 0x27333ba3, 0x9d4baf93, 0xfda24c2e);
    v := Turn(w, 44, v, 0xd192e819, 0x0c4763f2, 0x26628815, 0xa80f11f0);
    v := Turn(w, 45, v, 0xd6990624, 0x840abf27, 0x72ab4b91, 0xb7755da1);
    v := Turn(w, 46, v, 0xf40e3585, 0x7a290d5d, 0xa14c14b0, 0xd57b94a9);
    v := Turn(w, 47, v, 0x106aa070, 0x065c43da, 0x4172328d, 0xfecf0bc6);
  }

  lemma Inputs6(w: seq<bv32>)
    requires w == WORDS && |w| == |K|
    ensures Input(w, 48, 0x19a4c116, 0xfb3e89cb)
    ensures Input(w, 49, 0x1e376c08, 0xcc7617db)
    ensures Input(w, 50, 0x2748774c, 0xb9e66c34)
    ensures Input(w, 51, 0x34b0bcb5, 0xa9993667)
    ensures Input(w, 52, 0x391c0cb3, 0x84badedd)
    ensures Input(w, 53, 0x4ed8aa4a, 0xc21462bc)
    ensures Input(w, 54, 0x5b9cca4f, 0x1487472c)
    ensures Input(w, 55, 0x682e6ff3, 0xb20f7a99)
  {
  }

  lemma Rounds6(w: seq<bv32>, u: Vars) returns (v: Vars)
    requires w == WORDS && Reaches(w, 48, u)
    requires u == Vars(0x4172328d, 0xa14c14b0, 0x72ab4b91, 0x26628815, 0xfecf0bc6, 0xd57b94a9, 0xb7755da1, 0xa80f11f0)
    ensures Reaches(w, 56, v)
    ensures v == Vars(0x38cc9913, 0x3ec45cdb, 0xf5702fdb, 0x101fd28f, 0x54cb266b, 0xe50e1b4f, 0x9f4787c3, 0x529e7d00)
  {
    Inputs6(w);
    v := u;
    v := Turn(w, 48, v, 0x19a4c116, 0xfb3e89cb, 0x05757ceb, 0xbd714038);
    v := Turn(w, 49, v, 0x1e376c08, 0xcc7617db, 0xf11bfaa8, 0x6e5c390c);
    v := Turn(w, 50, v, 0x2748774c, 0xb9e66c34, 0x7a0508a1, 0x52f1ccf7);
    v := Turn(w, 51, v, 0x34b0bcb5, 0xa9993667, 0x886e7a22, 0x49231c1e);
    v := Turn(w, 52, v, 0x391c0cb3, 0x84badedd, 0x101fd28f, 0x529e7d00);
    v := Turn(w, 53, v, 0x4ed8aa4a, 0xc21462bc, 0xf5702fdb, 0x9f4787c3);
    v := Turn(w, 54, v, 0x5b9cca4f, 0x1487472c, 0x3ec45cdb, 0xe50e1b4f);
    v := Turn(w, 55, v, 0x682e6ff3, 0xb20f7a99, 0x38cc9913, 0x54cb266b);
  }

  lemma Inputs7(w: seq<bv32>)
    requires w == WORDS && |w| == |K|
    ensures Input(w, 56, 0x748f82ee, 0xef57b9cd)
    ensures Input(w, 57, 0x78a5636f, 0xebe6b238)
    ensures Input(w, 58, 0x84c87814, 0x9fe3095e)
    ensures Input(w, 59, 0x8cc70208, 0x78bc8d4b)
    ensures Input(w, 60, 0x90befffa, 0xa43fcf15)
    ensures Input(w, 61, 0xa4506ceb, 0x668b2ff8)
    ensures Input(w, 62, 0xbef9a3f7, 0xeeaba2cc)
    ensures Input(w, 63, 0xc67178f2, 0x12b1edeb)
  {
  }

  lemma Rounds7(w: seq<bv32>, u: Vars) returns (v: Vars)
    requires w == WORDS && Reaches(w, 56, u)
    requires u == Vars(0x38cc9913, 0x3ec45cdb, 0xf5702fdb, 0x101fd28f, 0x54cb266b, 0xe50e1b4f, 0x9f4787c3, 0x529e7d00)
    ensures Reaches(w, 64, v)
    ensures v == Vars(0x506e3058, 0xd39a2165, 0x04d24d6c, 0xb85e2ce9, 0x5ef50f24, 0xfb121210, 0x948d25b6, 0x961f4894)
  {
    Inputs7(w);
    v := u;
    v := Turn(w, 56, v, 0x748f82ee, 0xef57b9cd, 0xfcd1887b, 0x9b5e906c);
    v := Turn(w, 57, v, 0x78a5636f, 0xebe6b238, 0xc062d46f, 0x7e44008e);
    v := Turn(w, 58, v, 0x84c87814, 0x9fe3095e, 0xffb70472, 0x6d83bfc6);
    v := Turn(w, 59, v, 0x8cc70208, 0x78bc8d4b, 0xb6ae8fff, 0xb21bad3d);
    v := Turn(w, 60, v, 0x90befffa, 0xa43fcf15, 0xb85e2ce9, 0x961f4894);
    v := Turn(w, 61, v, 0xa4506ceb, 0x668b2ff8, 0x04d24d6c, 0x948d25b6);
    v := Turn(w, 62, v, 0xbef9a3f7, 0xeeaba2cc, 0xd39a2165, 0xfb121210);
    v := Turn(w, 63, v, 0xc67178f2, 0x12b1edeb, 0x506e3058, 0x5ef50f24);
  }

  lemma AllRounds(w: seq<bv32>) returns (v: Vars)
    requires w == WORDS && |w| == |K|
    ensures Reaches(w, |K|, v)
    ensures v == Vars(0x506e3058, 0xd39a2165, 0x04d24d6c, 0xb85e2ce9, 0x5ef50f24, 0xfb121210, 0x948d25b6, 0x961f4894)
  {
    v := H0;
    v := Rounds0(w, v);
    v := Rounds1(w, v);
    v := Rounds2(w, v);
    v := Rounds3(w, v);
    v := Rounds4(w, v);
    v := Rounds5(w, v);
    v := Rounds6(w, v);
    v := Rounds7(w, v);
  }

  lemma AbcHash()
    ensures Finish(Compress, ABC, 0x80, 24)
            == Vars(0xba7816bf, 0x8f01cfea, 0x414140de, 0x5dae2223, 0xb00361a3, 0x96177a9c, 0xb410ff61, 0xf20015ad)
  {
    var block := PadWith(ABC, 0x80, 24);
    AbcPadded();
    AllFollow();
    FirstWords(block);
    assert WORDS[..16] == W0 + W1 && WORDS[..|K|] == WORDS;
    WordsUpTo(block, WORDS, |K|);
    var v := AllRounds(WORDS);
    FoldOne(Compress, H0, block);
  }

  lemma DigestWords()
    ensures WordBytes(0xba7816bf) == [0xba, 0x78, 0x16, 0xbf]
    ensures WordBytes(0x8f01cfea) == [0x8f, 0x01, 0xcf, 0xea]
    ensures WordBytes(0x414140de) == [0x41, 0x41, 0x40, 0xde]
    ensures WordBytes(0x5dae2223) == [0x5d, 0xae, 0x22, 0x23]
    ensures WordBytes(0xb00361a3) == [0xb0, 0x03, 0x61, 0xa3]
    ensures WordBytes(0x96177a9c) == [0x96, 0x17, 0x7a, 0x9c]
    ensures WordBytes(0xb410ff61) == [0xb4, 0x10, 0xff, 0x61]
    ensures WordBytes(0xf20015ad) == [0xf2, 0x00, 0x15, 0xad]
  {
  }

  /** The digest of "abc". */
  lemma AbcDigest()
    ensures Sha256(ABC) ==
            [0xba, 0x78, 0x16, 0xbf] + [0x8f, 0x01, 0xcf, 0xea] + [0x41, 0x41, 0x40, 0xde] + [0x5d, 0xae, 0x22, 0x23] +
            [0xb0, 0x03, 0x61, 0xa3] + [0x96, 0x17, 0x7a, 0x9c] + [0xb4, 0x10, 0xff, 0x61] + [0xf2, 0x00, 0x15, 0xad]
  {
    AbcHash();
    DigestWords();
  }
}
