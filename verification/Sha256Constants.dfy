/** The constants of SHA-256: the fractions of the square roots of the first eight primes, and of the
    cube roots of the first sixty-four. */
module Sha256Constants {
  import opened Sha256Spec

  /** `w` are the first 32 bits of the fraction of the square root of `p`; `s` is the whole number before it. */
  predicate SquareRoot(p: nat, s: nat, w: bv32) { SquareBelow(p, 0x1_0000_0000 * s + (w as int)) }

  predicate SquareBelow(p: nat, r: nat) { r * r <= p * 0x1_0000_0000_0000_0000 < (r + 1) * (r + 1) }

  /** The same of the cube root. */
  predicate CubeRoot(p: nat, s: nat, w: bv32) { CubeBelow(p, 0x1_0000_0000 * s + (w as int)) }

  predicate CubeBelow(p: nat, r: nat) {
    r * r * r <= p * 0x1_0000_0000_0000_0000_0000_0000 < (r + 1) * (r + 1) * (r + 1)
  }

  lemma OneSquareRoot(p: nat, s: nat, w: bv32, n: nat)
    requires w as int == n && SquareBelow(p, 0x1_0000_0000 * s + n)
    ensures SquareRoot(p, s, w)
  {
  }

  lemma FirstRoots()
    ensures SquareRoot(2, 1, H0.a) && SquareRoot(3, 1, H0.b) && SquareRoot(5, 2, H0.c) && SquareRoot(7, 2, H0.d)
  {
    OneSquareRoot(2, 1, 0x6a09e667, 0x6a09e667);
    OneSquareRoot(3, 1, 0xbb67ae85, 0xbb67ae85);
    OneSquareRoot(5, 2, 0x3c6ef372, 0x3c6ef372);
    OneSquareRoot(7, 2, 0xa54ff53a, 0xa54ff53a);
  }

  lemma SecondRoots()
    ensures SquareRoot(11, 3, H0.e) && SquareRoot(13, 3, H0.f) && SquareRoot(17, 4, H0.g) && SquareRoot(19, 4, H0.h)
  {
    OneSquareRoot(11, 3, 0x510e527f, 0x510e527f);
    OneSquareRoot(13, 3, 0x9b05688c, 0x9b05688c);
    OneSquareRoot(17, 4, 0x1f83d9ab, 0x1f83d9ab);
    OneSquareRoot(19, 4, 0x5be0cd19, 0x5be0cd19);
  }

  /** The first hash value: the square roots of the first eight primes. */
  lemma HashConstants()
    ensures SquareRoot(2, 1, H0.a) && SquareRoot(3, 1, H0.b) && SquareRoot(5, 2, H0.c) && SquareRoot(7, 2, H0.d)
    ensures SquareRoot(11, 3, H0.e) && SquareRoot(13, 3, H0.f) && SquareRoot(17, 4, H0.g) && SquareRoot(19, 4, H0.h)
  {
    FirstRoots();
    SecondRoots();
  }

  lemma OneCubeRoot(p: nat, s: nat, w: bv32, n: nat)
    requires w as int == n && CubeBelow(p, 0x1_0000_0000 * s + n)
    ensures CubeRoot(p, s, w)
  {
  }

  /** The constants of the rounds: the cube roots of the first sixty-four primes. */
  lemma Row0()
    ensures CubeRoot(2, 1, K0[0]) && CubeRoot(3, 1, K0[1])
    ensures CubeRoot(5, 1, K0[2]) && CubeRoot(7, 1, K0[3])
    ensures CubeRoot(11, 2, K0[4]) && CubeRoot(13, 2, K0[5])
    ensures CubeRoot(17, 2, K0[6]) && CubeRoot(19, 2, K0[7])
  {
    OneCubeRoot(2, 1, 0x428a2f98, 0x428a2f98);
    OneCubeRoot(3, 1, 0x71374491, 0x71374491);
    OneCubeRoot(5, 1, 0xb5c0fbcf, 0xb5c0fbcf);
    OneCubeRoot(7, 1, 0xe9b5dba5, 0xe9b5dba5);
    OneCubeRoot(11, 2, 0x3956c25b, 0x3956c25b);
    OneCubeRoot(13, 2, 0x59f111f1, 0x59f111f1);
    OneCubeRoot(17, 2, 0x923f82a4, 0x923f82a4);
    OneCubeRoot(19, 2, 0xab1c5ed5, 0xab1c5ed5);
  }

  lemma Row1()
    ensures CubeRoot(23, 2, K1[0]) && CubeRoot(29, 3, K1[1])
    ensures CubeRoot(31, 3, K1[2]) && CubeRoot(37, 3, K1[3])
    ensures CubeRoot(41, 3, K1[4]) && CubeRoot(43, 3, K1[5])
    ensures CubeRoot(47, 3, K1[6]) && CubeRoot(53, 3, K1[7])
  {
    OneCubeRoot(23, 2, 0xd807aa98, 0xd807aa98);
    OneCubeRoot(29, 3, 0x12835b01, 0x12835b01);
    OneCubeRoot(31, 3, 0x243185be, 0x243185be);
    OneCubeRoot(37, 3, 0x550c7dc3, 0x550c7dc3);
    OneCubeRoot(41, 3, 0x72be5d74, 0x72be5d74);
    OneCubeRoot(43, 3, 0x80deb1fe, 0x80deb1fe);
    OneCubeRoot(47, 3, 0x9bdc06a7, 0x9bdc06a7);
    OneCubeRoot(53, 3, 0xc19bf174, 0xc19bf174);
  }

  lemma Row2()
    ensures CubeRoot(59, 3, K2[0]) && CubeRoot(61, 3, K2[1])
    ensures CubeRoot(67, 4, K2[2]) && CubeRoot(71, 4, K2[3])
    ensures CubeRoot(73, 4, K2[4]) && CubeRoot(79, 4, K2[5])
    ensures CubeRoot(83, 4, K2[6]) && CubeRoot(89, 4, K2[7])
  {
    OneCubeRoot(59, 3, 0xe49b69c1, 0xe49b69c1);
    OneCubeRoot(61, 3, 0xefbe4786, 0xefbe4786);
    OneCubeRoot(67, 4, 0x0fc19dc6, 0x0fc19dc6);
    OneCubeRoot(71, 4, 0x240ca1cc, 0x240ca1cc);
    OneCubeRoot(73, 4, 0x2de92c6f, 0x2de92c6f);
    OneCubeRoot(79, 4, 0x4a7484aa, 0x4a7484aa);
    OneCubeRoot(83, 4, 0x5cb0a9dc, 0x5cb0a9dc);
    OneCubeRoot(89, 4, 0x76f988da, 0x76f988da);
  }

  lemma Row3()
    ensures CubeRoot(97, 4, K3[0]) && CubeRoot(101, 4, K3[1])
    ensures CubeRoot(103, 4, K3[2]) && CubeRoot(107, 4, K3[3])
    ensures CubeRoot(109, 4, K3[4]) && CubeRoot(113, 4, K3[5])
    ensures CubeRoot(127, 5, K3[6]) && CubeRoot(131, 5, K3[7])
  {
    OneCubeRoot(97, 4, 0x983e5152, 0x983e5152);
    OneCubeRoot(101, 4, 0xa831c66d, 0xa831c66d);
    OneCubeRoot(103, 4, 0xb00327c8, 0xb00327c8);
    OneCubeRoot(107, 4, 0xbf597fc7, 0xbf597fc7);
    OneCubeRoot(109, 4, 0xc6e00bf3, 0xc6e00bf3);
    OneCubeRoot(113, 4, 0xd5a79147, 0xd5a79147);
    OneCubeRoot(127, 5, 0x06ca6351, 0x06ca6351);
    OneCubeRoot(131, 5, 0x14292967, 0x14292967);
  }

  lemma Row4()
    ensures CubeRoot(137, 5, K4[0]) && CubeRoot(139, 5, K4[1])
    ensures CubeRoot(149, 5, K4[2]) && CubeRoot(151, 5, K4[3])
    ensures CubeRoot(157, 5, K4[4]) && CubeRoot(163, 5, K4[5])
    ensures CubeRoot(167, 5, K4[6]) && CubeRoot(173, 5, K4[7])
  {
    OneCubeRoot(137, 5, 0x27b70a85, 0x27b70a85);
    OneCubeRoot(139, 5, 0x2e1b2138, 0x2e1b2138);
    OneCubeRoot(149, 5, 0x4d2c6dfc, 0x4d2c6dfc);
    OneCubeRoot(151, 5, 0x53380d13, 0x53380d13);
    OneCubeRoot(157, 5, 0x650a7354, 0x650a7354);
    OneCubeRoot(163, 5, 0x766a0abb, 0x766a0abb);
    OneCubeRoot(167, 5, 0x81c2c92e, 0x81c2c92e);
    OneCubeRoot(173, 5, 0x92722c85, 0x92722c85);
  }

  lemma Row5()
    ensures CubeRoot(179, 5, K5[0]) && CubeRoot(181, 5, K5[1])
    ensures CubeRoot(191, 5, K5[2]) && CubeRoot(193, 5, K5[3])
    ensures CubeRoot(197, 5, K5[4]) && CubeRoot(199, 5, K5[5])
    ensures CubeRoot(211, 5, K5[6]) && CubeRoot(223, 6, K5[7])
  {
    OneCubeRoot(179, 5, 0xa2bfe8a1, 0xa2bfe8a1);
    OneCubeRoot(181, 5, 0xa81a664b, 0xa81a664b);
    OneCubeRoot(191, 5, 0xc24b8b70, 0xc24b8b70);
    OneCubeRoot(193, 5, 0xc76c51a3, 0xc76c51a3);
    OneCubeRoot(197, 5, 0xd192e819, 0xd192e819);
    OneCubeRoot(199, 5, 0xd6990624, 0xd6990624);
    OneCubeRoot(211, 5, 0xf40e3585, 0xf40e3585);
    OneCubeRoot(223, 6, 0x106aa070, 0x106aa070);
  }

  lemma Row6()
    ensures CubeRoot(227, 6, K6[0]) && CubeRoot(229, 6, K6[1])
    ensures CubeRoot(233, 6, K6[2]) && CubeRoot(239, 6, K6[3])
    ensures CubeRoot(241, 6, K6[4]) && CubeRoot(251, 6, K6[5])
    ensures CubeRoot(257, 6, K6[6]) && CubeRoot(263, 6, K6[7])
  {
    OneCubeRoot(227, 6, 0x19a4c116, 0x19a4c116);
    OneCubeRoot(229, 6, 0x1e376c08, 0x1e376c08);
    OneCubeRoot(233, 6, 0x2748774c, 0x2748774c);
    OneCubeRoot(239, 6, 0x34b0bcb5, 0x34b0bcb5);
    OneCubeRoot(241, 6, 0x391c0cb3, 0x391c0cb3);
    OneCubeRoot(251, 6, 0x4ed8aa4a, 0x4ed8aa4a);
    OneCubeRoot(257, 6, 0x5b9cca4f, 0x5b9cca4f);
    OneCubeRoot(263, 6, 0x682e6ff3, 0x682e6ff3);
  }

  lemma Row7()
    ensures CubeRoot(269, 6, K7[0]) && CubeRoot(271, 6, K7[1])
    ensures CubeRoot(277, 6, K7[2]) && CubeRoot(281, 6, K7[3])
    ensures CubeRoot(283, 6, K7[4]) && CubeRoot(293, 6, K7[5])
    ensures CubeRoot(307, 6, K7[6]) && CubeRoot(311, 6, K7[7])
  {
    OneCubeRoot(269, 6, 0x748f82ee, 0x748f82ee);
    OneCubeRoot(271, 6, 0x78a5636f, 0x78a5636f);
    OneCubeRoot(277, 6, 0x84c87814, 0x84c87814);
    OneCubeRoot(281, 6, 0x8cc70208, 0x8cc70208);
    OneCubeRoot(283, 6, 0x90befffa, 0x90befffa);
    OneCubeRoot(293, 6, 0xa4506ceb, 0xa4506ceb);
    OneCubeRoot(307, 6, 0xbef9a3f7, 0xbef9a3f7);
    OneCubeRoot(311, 6, 0xc67178f2, 0xc67178f2);
  }
}
