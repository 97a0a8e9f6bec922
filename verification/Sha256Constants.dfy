/** The constants of sha256.c, against sections 4.2.2 and 5.3.3 of FIPS 180-4: the first 32 bits of the
    fractional parts of the cube roots of the first 64 primes, and of the square roots of the first 8. */
module Sha256Constants {
  import opened Sha256

  const PRIMES: seq<nat> :=
    [2, 3, 5, 7, 11, 13, 17, 19] +
    [23, 29, 31, 37, 41, 43, 47, 53] +
    [59, 61, 67, 71, 73, 79, 83, 89] +
    [97, 101, 103, 107, 109, 113, 127, 131] +
    [137, 139, 149, 151, 157, 163, 167, 173] +
    [179, 181, 191, 193, 197, 199, 211, 223] +
    [227, 229, 233, 239, 241, 251, 257, 263] +
    [269, 271, 277, 281, 283, 293, 307, 311]

  /** 2^32 times the cube root of `p`, rounded down. */
  predicate IsCubeRoot(p: nat, x: nat) {
    x * x * x <= p * 0x1_0000_0000_0000_0000_0000_0000 < (x + 1) * (x + 1) * (x + 1)
  }

  /** 2^32 times the square root of `p`, rounded down. */
  predicate IsSquareRoot(p: nat, x: nat) {
    x * x <= p * 0x1_0000_0000_0000_0000 < (x + 1) * (x + 1)
  }

  ghost predicate CubeRootBits(p: nat, k: bv32) {
    exists x: nat :: IsCubeRoot(p, x) && x % 0x1_0000_0000 == k as nat
  }

  ghost predicate SquareRootBits(p: nat, h: bv32) {
    exists x: nat :: IsSquareRoot(p, x) && x % 0x1_0000_0000 == h as nat
  }

  lemma CubeRoot(p: nat, x: nat, k: bv32)
    requires IsCubeRoot(p, x) && x % 0x1_0000_0000 == k as nat
    ensures CubeRootBits(p, k)
  {
  }

  lemma SquareRoot(p: nat, x: nat, h: bv32)
    requires IsSquareRoot(p, x) && x % 0x1_0000_0000 == h as nat
    ensures SquareRootBits(p, h)
  {
  }

  lemma CubeRoots0()
    ensures forall t :: 0 <= t < 8 ==> CubeRootBits(PRIMES[t], K[t])
  {
    hide CubeRootBits;
    CubeRoot(2, 0x1_428a2f98, 0x428a2f98);
    CubeRoot(3, 0x1_71374491, 0x71374491);
    CubeRoot(5, 0x1_b5c0fbcf, 0xb5c0fbcf);
    CubeRoot(7, 0x1_e9b5dba5, 0xe9b5dba5);
    CubeRoot(11, 0x2_3956c25b, 0x3956c25b);
    CubeRoot(13, 0x2_59f111f1, 0x59f111f1);
    CubeRoot(17, 0x2_923f82a4, 0x923f82a4);
    CubeRoot(19, 0x2_ab1c5ed5, 0xab1c5ed5);
  }

  lemma CubeRoots1()
    ensures forall t :: 8 <= t < 16 ==> CubeRootBits(PRIMES[t], K[t])
  {
    hide CubeRootBits;
    CubeRoot(23, 0x2_d807aa98, 0xd807aa98);
    CubeRoot(29, 0x3_12835b01, 0x12835b01);
    CubeRoot(31, 0x3_243185be, 0x243185be);
    CubeRoot(37, 0x3_550c7dc3, 0x550c7dc3);
    CubeRoot(41, 0x3_72be5d74, 0x72be5d74);
    CubeRoot(43, 0x3_80deb1fe, 0x80deb1fe);
    CubeRoot(47, 0x3_9bdc06a7, 0x9bdc06a7);
    CubeRoot(53, 0x3_c19bf174, 0xc19bf174);
  }

  lemma CubeRoots2()
    ensures forall t :: 16 <= t < 24 ==> CubeRootBits(PRIMES[t], K[t])
  {
    hide CubeRootBits;
    CubeRoot(59, 0x3_e49b69c1, 0xe49b69c1);
    CubeRoot(61, 0x3_efbe4786, 0xefbe4786);
    CubeRoot(67, 0x4_0fc19dc6, 0x0fc19dc6);
    CubeRoot(71, 0x4_240ca1cc, 0x240ca1cc);
    CubeRoot(73, 0x4_2de92c6f, 0x2de92c6f);
    CubeRoot(79, 0x4_4a7484aa, 0x4a7484aa);
    CubeRoot(83, 0x4_5cb0a9dc, 0x5cb0a9dc);
    CubeRoot(89, 0x4_76f988da, 0x76f988da);
  }

  lemma CubeRoots3()
    ensures forall t :: 24 <= t < 32 ==> CubeRootBits(PRIMES[t], K[t])
  {
    hide CubeRootBits;
    CubeRoot(97, 0x4_983e5152, 0x983e5152);
    CubeRoot(101, 0x4_a831c66d, 0xa831c66d);
    CubeRoot(103, 0x4_b00327c8, 0xb00327c8);
    CubeRoot(107, 0x4_bf597fc7, 0xbf597fc7);
    CubeRoot(109, 0x4_c6e00bf3, 0xc6e00bf3);
    CubeRoot(113, 0x4_d5a79147, 0xd5a79147);
    CubeRoot(127, 0x5_06ca6351, 0x06ca6351);
    CubeRoot(131, 0x5_14292967, 0x14292967);
  }

  lemma CubeRoots4()
    ensures forall t :: 32 <= t < 40 ==> CubeRootBits(PRIMES[t], K[t])
  {
    hide CubeRootBits;
    CubeRoot(137, 0x5_27b70a85, 0x27b70a85);
    CubeRoot(139, 0x5_2e1b2138, 0x2e1b2138);
    CubeRoot(149, 0x5_4d2c6dfc, 0x4d2c6dfc);
    CubeRoot(151, 0x5_53380d13, 0x53380d13);
    CubeRoot(157, 0x5_650a7354, 0x650a7354);
    CubeRoot(163, 0x5_766a0abb, 0x766a0abb);
    CubeRoot(167, 0x5_81c2c92e, 0x81c2c92e);
    CubeRoot(173, 0x5_92722c85, 0x92722c85);
  }

  lemma CubeRoots5()
    ensures forall t :: 40 <= t < 48 ==> CubeRootBits(PRIMES[t], K[t])
  {
    hide CubeRootBits;
    CubeRoot(179, 0x5_a2bfe8a1, 0xa2bfe8a1);
    CubeRoot(181, 0x5_a81a664b, 0xa81a664b);
    CubeRoot(191, 0x5_c24b8b70, 0xc24b8b70);
    CubeRoot(193, 0x5_c76c51a3, 0xc76c51a3);
    CubeRoot(197, 0x5_d192e819, 0xd192e819);
    CubeRoot(199, 0x5_d6990624, 0xd6990624);
    CubeRoot(211, 0x5_f40e3585, 0xf40e3585);
    CubeRoot(223, 0x6_106aa070, 0x106aa070);
  }

  lemma CubeRoots6()
    ensures forall t :: 48 <= t < 56 ==> CubeRootBits(PRIMES[t], K[t])
  {
    hide CubeRootBits;
    CubeRoot(227, 0x6_19a4c116, 0x19a4c116);
    CubeRoot(229, 0x6_1e376c08, 0x1e376c08);
    CubeRoot(233, 0x6_2748774c, 0x2748774c);
    CubeRoot(239, 0x6_34b0bcb5, 0x34b0bcb5);
    CubeRoot(241, 0x6_391c0cb3, 0x391c0cb3);
    CubeRoot(251, 0x6_4ed8aa4a, 0x4ed8aa4a);
    CubeRoot(257, 0x6_5b9cca4f, 0x5b9cca4f);
    CubeRoot(263, 0x6_682e6ff3, 0x682e6ff3);
  }

  lemma CubeRoots7()
    ensures forall t :: 56 <= t < 64 ==> CubeRootBits(PRIMES[t], K[t])
  {
    hide CubeRootBits;
    CubeRoot(269, 0x6_748f82ee, 0x748f82ee);
    CubeRoot(271, 0x6_78a5636f, 0x78a5636f);
    CubeRoot(277, 0x6_84c87814, 0x84c87814);
    CubeRoot(281, 0x6_8cc70208, 0x8cc70208);
    CubeRoot(283, 0x6_90befffa, 0x90befffa);
    CubeRoot(293, 0x6_a4506ceb, 0xa4506ceb);
    CubeRoot(307, 0x6_bef9a3f7, 0xbef9a3f7);
    CubeRoot(311, 0x6_c67178f2, 0xc67178f2);
  }

  /** K. */
  lemma RoundConstants()
    ensures |K| == |PRIMES| == 64
    ensures forall t :: 0 <= t < 64 ==> CubeRootBits(PRIMES[t], K[t])
  {
    hide CubeRootBits;
    CubeRoots0();
    CubeRoots1();
    CubeRoots2();
    CubeRoots3();
    CubeRoots4();
    CubeRoots5();
    CubeRoots6();
    CubeRoots7();
  }

  /** H(0). */
  lemma InitialHash()
    ensures |H0| == 8 && forall t :: 0 <= t < 8 ==> SquareRootBits(PRIMES[t], H0[t])
  {
    SquareRoot(2, 0x1_6a09e667, 0x6a09e667);
    SquareRoot(3, 0x1_bb67ae85, 0xbb67ae85);
    SquareRoot(5, 0x2_3c6ef372, 0x3c6ef372);
    SquareRoot(7, 0x2_a54ff53a, 0xa54ff53a);
    SquareRoot(11, 0x3_510e527f, 0x510e527f);
    SquareRoot(13, 0x3_9b05688c, 0x9b05688c);
    SquareRoot(17, 0x4_1f83d9ab, 0x1f83d9ab);
    SquareRoot(19, 0x4_5be0cd19, 0x5be0cd19);
  }
}
