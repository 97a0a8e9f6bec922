/** sha256.c, against sections 4.1.2, 5.1.1, 5.2.1, 5.3.3 and 6.2.2 of FIPS 180-4. */
module Sha256 {
  import opened Bytes

  type Words = seq<bv32>

  /* Section 4.1.2. */

  /** ROTR (section 3.2). */
  function Turned(x: bv32, n: nat): bv32
    requires n <= 32
  {
    x.RotateRight(n)
  }

  function Ch(x: bv32, y: bv32, z: bv32): bv32 { (x & y) ^ (!x & z) }
  function Maj(x: bv32, y: bv32, z: bv32): bv32 { (x & y) ^ (x & z) ^ (y & z) }
  function BigSigma0(x: bv32): bv32 { Turned(x, 2) ^ Turned(x, 13) ^ Turned(x, 22) }
  function BigSigma1(x: bv32): bv32 { Turned(x, 6) ^ Turned(x, 11) ^ Turned(x, 25) }
  function SmallSigma0(x: bv32): bv32 { Turned(x, 7) ^ Turned(x, 18) ^ (x >> 3) }
  function SmallSigma1(x: bv32): bv32 { Turned(x, 17) ^ Turned(x, 19) ^ (x >> 10) }

  /* Section 4.2.2. */

  const K: Words :=
    [0x428a2f98, 0x71374491, 0xb5c0fbcf, 0xe9b5dba5, 0x3956c25b, 0x59f111f1, 0x923f82a4, 0xab1c5ed5] +
    [0xd807aa98, 0x12835b01, 0x243185be, 0x550c7dc3, 0x72be5d74, 0x80deb1fe, 0x9bdc06a7, 0xc19bf174] +
    [0xe49b69c1, 0xefbe4786, 0x0fc19dc6, 0x240ca1cc, 0x2de92c6f, 0x4a7484aa, 0x5cb0a9dc, 0x76f988da] +
    [0x983e5152, 0xa831c66d, 0xb00327c8, 0xbf597fc7, 0xc6e00bf3, 0xd5a79147, 0x06ca6351, 0x14292967] +
    [0x27b70a85, 0x2e1b2138, 0x4d2c6dfc, 0x53380d13, 0x650a7354, 0x766a0abb, 0x81c2c92e, 0x92722c85] +
    [0xa2bfe8a1, 0xa81a664b, 0xc24b8b70, 0xc76c51a3, 0xd192e819, 0xd6990624, 0xf40e3585, 0x106aa070] +
    [0x19a4c116, 0x1e376c08, 0x2748774c, 0x34b0bcb5, 0x391c0cb3, 0x4ed8aa4a, 0x5b9cca4f, 0x682e6ff3] +
    [0x748f82ee, 0x78a5636f, 0x84c87814, 0x8cc70208, 0x90befffa, 0xa4506ceb, 0xbef9a3f7, 0xc67178f2]

  /* Section 5.3.3. */

  const H0: Words := [
    0x6a09e667, 0xbb67ae85, 0x3c6ef372, 0xa54ff53a, 0x510e527f, 0x9b05688c, 0x1f83d9ab, 0x5be0cd19]

  /** Big-endian bytes to a word. */
  function Word(a: byte, b: byte, c: byte, d: byte): bv32 {
    0x100_0000 * Wide(a) + 0x1_0000 * Wide(b) + 0x100 * Wide(c) + Wide(d)
  }

  /** M, the sixteen words of a block (section 5.2.1). */
  function BlockWord(block: Bytes, t: nat): bv32
    requires |block| == 64 && t < 16
  {
    Word(block[4 * t], block[4 * t + 1], block[4 * t + 2], block[4 * t + 3])
  }

  /* Section 6.2.2. */

  /** Addition modulo 2^32. */
  function Add(x: bv32, y: bv32): bv32 { x + y }

  function Sum4(x: bv32, y: bv32, z: bv32, u: bv32): bv32 { x + y + z + u }

  function T1(h: bv32, e: bv32, f: bv32, g: bv32, k: bv32, w: bv32): bv32 {
    Add(Add(Add(Add(h, BigSigma1(e)), Ch(e, f, g)), k), w)
  }

  function T2(a: bv32, b: bv32, c: bv32): bv32 { Add(BigSigma0(a), Maj(a, b, c)) }

  /** Step 1: W. */
  function W(block: Bytes, t: nat): bv32
    requires |block| == 64 && t < 64
  {
    if t < 16 then BlockWord(block, t)
    else Sum4(SmallSigma1(W(block, t - 2)), W(block, t - 7), SmallSigma0(W(block, t - 15)), W(block, t - 16))
  }

  datatype Vars = Vars(a: bv32, b: bv32, c: bv32, d: bv32, e: bv32, f: bv32, g: bv32, h: bv32)

  /** Step 3, once. */
  function Round(v: Vars, k: bv32, w: bv32): Vars {
    var t1 := T1(v.h, v.e, v.f, v.g, k, w);
    var t2 := T2(v.a, v.b, v.c);
    Vars(Add(t1, t2), v.a, v.b, v.c, Add(v.d, t1), v.e, v.f, v.g)
  }

  /** Steps 2 and 3: the working variables after `t` rounds. */
  function Rounds(h: Words, block: Bytes, t: nat): Vars
    requires |h| == 8 && |block| == 64 && t <= 64
  {
    if t == 0 then Vars(h[0], h[1], h[2], h[3], h[4], h[5], h[6], h[7])
    else Round(Rounds(h, block, t - 1), K[t - 1], W(block, t - 1))
  }

  /** Step 4: the next intermediate hash value. */
  function Compress(h: Words, block: Bytes): (r: Words)
    requires |h| == 8 && |block| == 64
    ensures |r| == 8
  {
    var v := Rounds(h, block, 64);
    [Add(v.a, h[0]), Add(v.b, h[1]), Add(v.c, h[2]), Add(v.d, h[3]),
     Add(v.e, h[4]), Add(v.f, h[5]), Add(v.g, h[6]), Add(v.h, h[7])]
  }

  /** All blocks in turn. */
  function HashBlocks(h: Words, m: Bytes): (r: Words)
    requires |h| == 8 && |m| % 64 == 0
    ensures |r| == 8
    decreases |m|
  {
    if m == [] then h else HashBlocks(Compress(h, m[..64]), m[64..])
  }

  function Octet(v: nat): byte { v % 256 }

  /** The last `w` bytes of `v`, most significant first. */
  function BigEndian(v: nat, w: nat): (b: Bytes)
    ensures |b| == w
  {
    if w == 0 then [] else BigEndian(v / 256, w - 1) + [Octet(v)]
  }

  /** Section 5.1.1: the zero bytes, least so that the whole is a multiple of 64 with eight bytes for the length. */
  function ZeroCount(len: nat): (k: nat)
    ensures k < 64 && (len + 1 + k) % 64 == 56
  {
    (119 - len % 64) % 64
  }

  function Padding(len: nat): (p: Bytes)
    ensures |p| == 1 + ZeroCount(len) + 8
  {
    [0x80] + Zeros(ZeroCount(len)) + BigEndian(8 * len % 0x1_0000_0000_0000_0000, 8)
  }

  lemma Multiple(len: nat, k: nat)
    requires (len + 1 + k) % 64 == 56
    ensures (len + (1 + k + 8)) % 64 == 0
  {
  }

  function Padded(m: Bytes): (p: Bytes)
    ensures |p| % 64 == 0
  {
    Multiple(|m|, ZeroCount(|m|));
    m + Padding(|m|)
  }

  /** A value of one octet. */
  function Small(x: bv32): byte { ((x % 0x100) as bv8) as int }

  function WordOctets(x: bv32): (o: Bytes)
    ensures |o| == 4
  {
    [Small(x / 0x100_0000), Small(x / 0x1_0000), Small(x / 0x100), Small(x)]
  }

  function Digest(h: Words): (d: Bytes)
    ensures |d| == 4 * |h|
  {
    if h == [] then [] else Digest(h[..|h| - 1]) + WordOctets(h[|h| - 1])
  }

  /** SHA-256 of a message of fewer than 2^61 bytes. */
  function Sha256(m: Bytes): Bytes {
    Digest(HashBlocks(H0, Padded(m)))
  }

  /** No fewer zeros would do. */
  lemma ZeroCountIsLeast(len: nat, k: nat)
    requires (len + 1 + k) % 64 == 56
    ensures ZeroCount(len) <= k
  {
    var r := len % 64;
    assert (r + 1 + k) % 64 == 56;
  }

  lemma {:induction false} BigEndianInjective(x: nat, y: nat, w: nat)
    requires x < Pow256(w) && y < Pow256(w) && BigEndian(x, w) == BigEndian(y, w)
    ensures x == y
  {
    if w > 0 {
      var b, c := BigEndian(x, w), BigEndian(y, w);
      assert b[w - 1] == Octet(x) && c[w - 1] == Octet(y);
      assert b[..w - 1] == BigEndian(x / 256, w - 1) && c[..w - 1] == BigEndian(y / 256, w - 1);
      assert x % 256 == y % 256;
      BigEndianInjective(x / 256, y / 256, w - 1);
    }
  }

  /** Two messages of fewer than 2^61 bytes are padded alike only if they are the same. */
  lemma PaddingInjective(m: Bytes, n: Bytes)
    requires |m| < 0x2000_0000_0000_0000 && |n| < 0x2000_0000_0000_0000
    requires Padded(m) == Padded(n)
    ensures m == n
  {
    hide BigEndian, Octet;
    var p := Padded(m);
    var x, y := BigEndian(8 * |m|, 8), BigEndian(8 * |n|, 8);
    assert p[|p| - 8..] == x;
    assert Padded(n)[|p| - 8..] == y;
    Pow256Values();
    BigEndianInjective(8 * |m|, 8 * |n|, 8);
    assert p[..|m|] == m && Padded(n)[..|n|] == n;
  }

  /* The code. */

  /** rotr. */
  function Rotr(x: bv32, n: nat): bv32
    requires n <= 32
  {
    (x >> n) | (x << (32 - n))
  }

  /** (unsigned char)x */
  function Low(x: bv32): byte { ((x & 0xff) as bv8) as int }

  /** rotr(x, i) ^ rotr(x, j) ^ rotr(x, k) */
  function ThreeTurns(x: bv32, i: nat, j: nat, k: nat): bv32
    requires i <= 32 && j <= 32 && k <= 32
  {
    Rotr(x, i) ^ Rotr(x, j) ^ Rotr(x, k)
  }

  /** rotr(x, i) ^ rotr(x, j) ^ (x >> k) */
  function TwoTurns(x: bv32, i: nat, j: nat, k: nat): bv32
    requires i <= 32 && j <= 32 && k <= 32
  {
    Rotr(x, i) ^ Rotr(x, j) ^ (x >> k)
  }

  function Choice(e: bv32, f: bv32, g: bv32): bv32 { (e & f) ^ (!e & g) }
  function Majority(a: bv32, b: bv32, c: bv32): bv32 { (a & b) ^ (a & c) ^ (b & c) }

  /** Four octets shifted into a word. */
  function Shifted(a: byte, b: byte, c: byte, d: byte): bv32 {
    (Wide(a) << 24) | (Wide(b) << 16) | (Wide(c) << 8) | Wide(d)
  }

  /** The four octets of a word, by shifts. */
  function Octets(x: bv32): (o: Bytes)
    ensures |o| == 4
  {
    [Low(x >> 24), Low(x >> 16), Low(x >> 8), Low(x)]
  }

  lemma Turns(x: bv32)
    ensures Rotr(x, 2) == Turned(x, 2) && Rotr(x, 13) == Turned(x, 13) && Rotr(x, 22) == Turned(x, 22)
    ensures Rotr(x, 6) == Turned(x, 6) && Rotr(x, 11) == Turned(x, 11) && Rotr(x, 25) == Turned(x, 25)
    ensures Rotr(x, 7) == Turned(x, 7) && Rotr(x, 18) == Turned(x, 18)
    ensures Rotr(x, 17) == Turned(x, 17) && Rotr(x, 19) == Turned(x, 19)
  {
  }

  lemma SameXor(a: bv32, b: bv32, c: bv32, p: bv32, q: bv32, r: bv32)
    requires a == p && b == q && c == r
    ensures a ^ b ^ c == p ^ q ^ r
  {
  }

  lemma Sigma0Is(x: bv32)
    ensures ThreeTurns(x, 2, 13, 22) == BigSigma0(x)
  {
    hide Rotr, Turned;
    Turns(x);
    SameXor(Rotr(x, 2), Rotr(x, 13), Rotr(x, 22), Turned(x, 2), Turned(x, 13), Turned(x, 22));
  }

  lemma Sigma1Is(x: bv32)
    ensures ThreeTurns(x, 6, 11, 25) == BigSigma1(x)
  {
    hide Rotr, Turned;
    Turns(x);
    SameXor(Rotr(x, 6), Rotr(x, 11), Rotr(x, 25), Turned(x, 6), Turned(x, 11), Turned(x, 25));
  }

  lemma Small0Is(x: bv32)
    ensures TwoTurns(x, 7, 18, 3) == SmallSigma0(x)
  {
    hide Rotr, Turned;
    Turns(x);
    SameXor(Rotr(x, 7), Rotr(x, 18), x >> 3, Turned(x, 7), Turned(x, 18), x >> 3);
  }

  lemma Small1Is(x: bv32)
    ensures TwoTurns(x, 17, 19, 10) == SmallSigma1(x)
  {
    hide Rotr, Turned;
    Turns(x);
    SameXor(Rotr(x, 17), Rotr(x, 19), x >> 10, Turned(x, 17), Turned(x, 19), x >> 10);
  }

  lemma Sigmas(x: bv32)
    ensures ThreeTurns(x, 2, 13, 22) == BigSigma0(x) && ThreeTurns(x, 6, 11, 25) == BigSigma1(x)
    ensures TwoTurns(x, 7, 18, 3) == SmallSigma0(x) && TwoTurns(x, 17, 19, 10) == SmallSigma1(x)
  {
    hide ThreeTurns, TwoTurns, BigSigma0, BigSigma1, SmallSigma0, SmallSigma1;
    Sigma0Is(x);
    Sigma1Is(x);
    Small0Is(x);
    Small1Is(x);
  }

  lemma Choices(e: bv32, f: bv32, g: bv32)
    ensures Choice(e, f, g) == Ch(e, f, g) && Majority(e, f, g) == Maj(e, f, g)
  {
  }

  lemma WordShifts(a: byte, b: byte, c: byte, d: byte)
    ensures Word(a, b, c, d) == Shifted(a, b, c, d)
  {
  }

  lemma OctetShifts(x: bv32)
    ensures WordOctets(x) == Octets(x)
  {
  }

  lemma AddOrder(x: bv32, y: bv32)
    ensures Add(x, y) == Add(y, x)
  {
  }

  /** The schedule's sum in the order of the code and in the order of the standard. */
  lemma ScheduleOrder(s1: bv32, w7: bv32, s0: bv32, w16: bv32)
    ensures Sum4(w16, s0, w7, s1) == Sum4(s1, w7, s0, w16)
  {
  }

  lemma WStart(block: Bytes, t: nat)
    requires |block| == 64 && t < 16
    ensures W(block, t) == Shifted(block[4 * t], block[4 * t + 1], block[4 * t + 2], block[4 * t + 3])
  {
    hide Word, Shifted;
    WordShifts(block[4 * t], block[4 * t + 1], block[4 * t + 2], block[4 * t + 3]);
  }

  lemma WStep(block: Bytes, t: nat)
    requires |block| == 64 && 16 <= t < 64
    ensures W(block, t) == Sum4(W(block, t - 16), TwoTurns(W(block, t - 15), 7, 18, 3), W(block, t - 7),
                                TwoTurns(W(block, t - 2), 17, 19, 10))
  {
    hide Sum4, SmallSigma0, SmallSigma1, BlockWord, TwoTurns;
    Sigmas(W(block, t - 15));
    Sigmas(W(block, t - 2));
    ScheduleOrder(SmallSigma1(W(block, t - 2)), W(block, t - 7), SmallSigma0(W(block, t - 15)), W(block, t - 16));
  }

  /** The message schedule, in place. */
  method FillSchedule(block: Bytes) returns (w: array<bv32>)
    requires |block| == 64
    ensures fresh(w) && w.Length == 64 && forall t :: 0 <= t < 64 ==> w[t] == W(block, t)
  {
    hide W, Sum4, TwoTurns, Shifted;
    w := new bv32[64];
    for i := 0 to 16
      invariant forall t :: 0 <= t < i ==> w[t] == W(block, t)
    {
      WStart(block, i);
      w[i] := Shifted(block[i * 4 + 0], block[i * 4 + 1], block[i * 4 + 2], block[i * 4 + 3]);
    }
    for i := 16 to 64
      invariant forall t :: 0 <= t < i ==> w[t] == W(block, t)
    {
      var s0 := TwoTurns(w[i - 15], 7, 18, 3);
      var s1 := TwoTurns(w[i - 2], 17, 19, 10);
      WStep(block, i);
      w[i] := Sum4(w[i - 16], s0, w[i - 7], s1);
    }
  }

  lemma RoundStep(h: Words, block: Bytes, t: nat)
    requires |h| == 8 && |block| == 64 && t < 64
    ensures Rounds(h, block, t + 1) == Round(Rounds(h, block, t), K[t], W(block, t))
  {
    hide Round, W;
  }

  /** The two sums as the code has them. */
  lemma RoundSums(v: Vars, k: bv32, w: bv32)
    ensures var temp1 := Add(Add(Add(Add(v.h, ThreeTurns(v.e, 6, 11, 25)), Choice(v.e, v.f, v.g)), k), w);
            var temp2 := Add(ThreeTurns(v.a, 2, 13, 22), Majority(v.a, v.b, v.c));
            Round(v, k, w) == Vars(Add(temp1, temp2), v.a, v.b, v.c, Add(v.d, temp1), v.e, v.f, v.g)
  {
    hide Add, ThreeTurns, Choice, Majority, BigSigma0, BigSigma1, Ch, Maj;
    Sigmas(v.e);
    Sigmas(v.a);
    Choices(v.e, v.f, v.g);
    Choices(v.a, v.b, v.c);
  }

  /** The sixty-four rounds over the working variables. */
  method RunRounds(h: Words, block: Bytes, w: array<bv32>) returns (v: Vars)
    requires |h| == 8 && |block| == 64 && w.Length == 64 && forall t :: 0 <= t < 64 ==> w[t] == W(block, t)
    ensures v == Rounds(h, block, 64)
  {
    hide W, Add, Rounds, Round, ThreeTurns, Choice, Majority;
    var a, b, c, d := h[0], h[1], h[2], h[3];
    var e, f, g, hh := h[4], h[5], h[6], h[7];
    RoundsStart(h, block);
    for i := 0 to 64
      invariant Vars(a, b, c, d, e, f, g, hh) == Rounds(h, block, i)
    {
      RoundStep(h, block, i);
      RoundSums(Vars(a, b, c, d, e, f, g, hh), K[i], w[i]);
      var s1 := ThreeTurns(e, 6, 11, 25);
      var ch := Choice(e, f, g);
      var temp1 := Add(Add(Add(Add(hh, s1), ch), K[i]), w[i]);
      var s0 := ThreeTurns(a, 2, 13, 22);
      var maj := Majority(a, b, c);
      var temp2 := Add(s0, maj);
      hh := g;
      g := f;
      f := e;
      e := Add(d, temp1);
      d := c;
      c := b;
      b := a;
      a := Add(temp1, temp2);
    }
    return Vars(a, b, c, d, e, f, g, hh);
  }

  lemma RoundsStart(h: Words, block: Bytes)
    requires |h| == 8 && |block| == 64
    ensures Rounds(h, block, 0) == Vars(h[0], h[1], h[2], h[3], h[4], h[5], h[6], h[7])
  {
  }

  /** sha256_block: `h` in place becomes the next intermediate hash value. */
  method Sha256Block(h: array<bv32>, block: Bytes)
    requires h.Length == 8 && |block| == 64
    modifies h
    ensures h[..] == Compress(old(h[..]), block)
  {
    hide W, Add, Rounds, Compress;
    ghost var h0 := h[..];
    var w := FillSchedule(block);
    var v := RunRounds(h[..], block, w);
    CompressIs(h0, block, v);
    h[0] := Add(h[0], v.a);
    h[1] := Add(h[1], v.b);
    h[2] := Add(h[2], v.c);
    h[3] := Add(h[3], v.d);
    h[4] := Add(h[4], v.e);
    h[5] := Add(h[5], v.f);
    h[6] := Add(h[6], v.g);
    h[7] := Add(h[7], v.h);
    assert h[..] == Compress(h0, block);
  }

  /** The last sums in the order of the code. */
  lemma CompressIs(h: Words, block: Bytes, v: Vars)
    requires |h| == 8 && |block| == 64 && v == Rounds(h, block, 64)
    ensures Compress(h, block) == [Add(h[0], v.a), Add(h[1], v.b), Add(h[2], v.c), Add(h[3], v.d),
                                   Add(h[4], v.e), Add(h[5], v.f), Add(h[6], v.g), Add(h[7], v.h)]
  {
    hide Rounds, Add;
    AddOrder(h[0], v.a);
    AddOrder(h[1], v.b);
    AddOrder(h[2], v.c);
    AddOrder(h[3], v.d);
    AddOrder(h[4], v.e);
    AddOrder(h[5], v.f);
    AddOrder(h[6], v.g);
    AddOrder(h[7], v.h);
  }

  lemma HashUnroll(h: Words, m: Bytes)
    requires |h| == 8 && |m| % 64 == 0
    ensures if m == [] then HashBlocks(h, m) == h
            else |m| >= 64 && HashBlocks(h, m) == HashBlocks(Compress(h, m[..64]), m[64..])
  {
    hide Compress;
  }

  lemma {:induction false} HashSplit(h: Words, m: Bytes, n: Bytes)
    requires |h| == 8 && |m| % 64 == 0 && |n| % 64 == 0
    ensures |m + n| % 64 == 0 && HashBlocks(h, m + n) == HashBlocks(HashBlocks(h, m), n)
    decreases |m|
  {
    hide Compress, HashBlocks;
    HashUnroll(h, m);
    if m == [] {
      assert m + n == n;
    } else {
      assert (m + n)[..64] == m[..64] && (m + n)[64..] == m[64..] + n;
      HashUnroll(h, m + n);
      HashSplit(Compress(h, m[..64]), m[64..], n);
    }
  }

  lemma HashOne(h: Words, m: Bytes)
    requires |h| == 8 && |m| == 64
    ensures HashBlocks(h, m) == Compress(h, m)
  {
    hide Compress;
    assert m[..64] == m && m[64..] == [];
  }

  /** Byte `j` of the big-endian form. */
  lemma {:induction false} BigEndianAt(v: nat, w: nat, i: nat)
    requires i < w
    ensures BigEndian(v, w)[w - 1 - i] == Octet(v / Pow256(i))
    decreases i
  {
    hide Octet;
    if i > 0 {
      BigEndianAt(v / 256, w - 1, i - 1);
      DivDiv(v, Pow256(i - 1));
    }
  }

  lemma DivDiv(v: nat, p: nat)
    requires p > 0
    ensures (v / 256) / p == v / (256 * p)
  {
    var q, r := v / 256, v % 256;
    var a, b := q / p, q % p;
    assert v == 256 * (a * p + b) + r == (256 * p) * a + (256 * b + r);
    assert 0 <= 256 * b + r < 256 * p;
    Quotient(v, 256 * p, a, 256 * b + r);
  }

  lemma MulFar(d: nat, x: int)
    ensures x >= 1 ==> d * x >= d
    ensures x <= -1 ==> d * x <= 0 - d
  {
  }

  lemma Quotient(v: nat, d: nat, q: nat, r: nat)
    requires d > 0 && v == d * q + r && r < d
    ensures v / d == q
  {
    var x := v / d - q;
    assert d * (v / d) + v % d == d * q + r;
    assert d * x == r - v % d;
    MulFar(d, x);
  }

  /** The rest of the message, 0x80 and the zeros: what memset, memcpy and one store leave in the tail. */
  method FillTail(data: Bytes, rem: nat) returns (tail: array<byte>)
    requires rem < 64 && rem <= |data|
    ensures fresh(tail) && tail.Length == 128
    ensures tail[..] == data[|data| - rem..] + [0x80] + Zeros(127 - rem)
  {
    tail := new byte[128];
    for i := 0 to 128
      invariant forall k :: 0 <= k < i ==> tail[k] == 0
    {
      tail[i] := 0;
    }
    for i := 0 to rem
      invariant forall k :: 0 <= k < i ==> tail[k] == data[|data| - rem + k]
      invariant forall k :: i <= k < 128 ==> tail[k] == 0
    {
      tail[i] := data[|data| - rem + i];
    }
    tail[rem] := 0x80;
  }

  /** The length, backwards from the end. */
  method StoreLength(tail: array<byte>, total: nat, bits: nat)
    requires 8 <= total <= tail.Length
    modifies tail
    ensures tail[..total - 8] == old(tail[..total - 8]) && tail[total - 8..total] == BigEndian(bits, 8)
    ensures tail[total..] == old(tail[total..])
  {
    hide Octet, BigEndian, Pow256;
    ghost var before := tail[..];
    ghost var be := BigEndian(bits, 8);
    for i := 0 to 8
      invariant forall k :: 0 <= k < total - 8 || total <= k < tail.Length ==> tail[k] == before[k]
      invariant forall k :: total - i <= k < total ==> tail[k] == be[k + 8 - total]
    {
      BigEndianAt(bits, 8, i);
      tail[total - 1 - i] := Octet(bits / Pow256(i));
    }
    SliceIs(tail[..], be, total - 8);
  }

  lemma SliceIs(s: Bytes, piece: Bytes, at: nat)
    requires at + |piece| <= |s| && forall k :: at <= k < at + |piece| ==> s[k] == piece[k - at]
    ensures s[at..at + |piece|] == piece
  {
  }

  lemma TailIs(len: nat, rem: nat, total: nat)
    requires rem == len % 64 && total == if rem < 56 then 64 else 128
    ensures rem + 1 + ZeroCount(len) + 8 == total
  {
  }

  /** The final block or two. */
  method BuildTail(data: Bytes) returns (tail: array<byte>, total: nat)
    requires |data| < 0x1_0000_0000_0000_0000
    ensures fresh(tail) && tail.Length == 128 && (total == 64 || total == 128)
    ensures tail[..total] == data[|data| / 64 * 64..] + Padding(|data|)
  {
    hide BigEndian, Octet;
    var full := |data| / 64;
    var rem := |data| - full * 64;
    tail := FillTail(data, rem);
    total := if rem < 56 then 64 else 128;
    TailIs(|data|, rem, total);
    var bits := |data| * 8 % 0x1_0000_0000_0000_0000;
    StoreLength(tail, total, bits);
    var z := ZeroCount(|data|);
    assert Zeros(127 - rem)[..z] == Zeros(z);
    assert tail[..total] == tail[..total - 8] + tail[total - 8..total];
    assert tail[..total - 8] == data[|data| - rem..] + [0x80] + Zeros(z);
  }

  method StoreDigest(h: array<bv32>) returns (out: array<byte>)
    requires h.Length == 8
    ensures fresh(out) && out.Length == 32 && out[..] == Digest(h[..])
  {
    hide WordOctets, Octets;
    out := new byte[32];
    assert out[..0] == Digest(h[..0]);
    for i := 0 to 8
      invariant out[..4 * i] == Digest(h[..i])
    {
      OctetShifts(h[i]);
      var w := Octets(h[i]);
      ghost var before := out[..4 * i];
      out[i * 4 + 0] := w[0];
      out[i * 4 + 1] := w[1];
      out[i * 4 + 2] := w[2];
      out[i * 4 + 3] := w[3];
      assert out[..4 * i] == before;
      assert out[..4 * (i + 1)] == before + w;
      assert h[..i + 1][..i] == h[..i];
    }
    assert out[..32] == out[..] && h[..8] == h[..];
  }

  /** The whole blocks of the message, one at a time. */
  method HashFull(h: array<bv32>, data: Bytes)
    requires h.Length == 8
    modifies h
    ensures h[..] == HashBlocks(old(h[..]), data[..|data| / 64 * 64])
  {
    hide Compress, HashBlocks;
    ghost var h0 := h[..];
    HashNone(h0);
    assert data[..0] == [];
    for i := 0 to |data| / 64
      invariant h[..] == HashBlocks(h0, data[..i * 64])
    {
      HashNext(h0, data, i);
      Sha256Block(h, data[i * 64..i * 64 + 64]);
    }
  }

  lemma HashNone(h: Words)
    requires |h| == 8
    ensures HashBlocks(h, []) == h
  {
  }

  lemma HashNext(h: Words, data: Bytes, i: nat)
    requires |h| == 8 && i * 64 + 64 <= |data|
    ensures HashBlocks(h, data[..i * 64 + 64]) == Compress(HashBlocks(h, data[..i * 64]), data[i * 64..i * 64 + 64])
  {
    hide Compress, HashBlocks;
    assert data[..i * 64 + 64] == data[..i * 64] + data[i * 64..i * 64 + 64];
    HashSplit(h, data[..i * 64], data[i * 64..i * 64 + 64]);
    HashOne(HashBlocks(h, data[..i * 64]), data[i * 64..i * 64 + 64]);
  }

  lemma PaddedCut(data: Bytes)
    ensures var n := |data| / 64 * 64;
            Padded(data) == data[..n] + (data[n..] + Padding(|data|)) && |data[n..] + Padding(|data|)| % 64 == 0
  {
    hide Padding;
    var n := |data| / 64 * 64;
    assert Padded(data) == data[..n] + (data[n..] + Padding(|data|));
    assert |Padded(data)| % 64 == 0;
  }

  /** nw_sha256 is SHA-256, for every message. */
  method NwSha256(data: Bytes) returns (out: array<byte>)
    requires |data| < 0x1_0000_0000_0000_0000
    ensures out[..] == Sha256(data)
  {
    hide Compress, HashBlocks, Digest, Padding, Padded;
    var h := new bv32[8];
    for i := 0 to 8
      invariant h[..i] == H0[..i]
    {
      h[i] := H0[i];
    }
    assert h[..] == H0;
    HashFull(h, data);
    ghost var n := |data| / 64 * 64;
    ghost var h1 := h[..];
    var tail, total := BuildTail(data);
    PaddedCut(data);
    HashSplit(H0, data[..n], tail[..total]);
    HashTail(h1, tail[..total]);
    ghost var t := tail[..total];
    assert t[..64] == tail[..64] && (total == 128 ==> t[64..] == tail[64..128]);
    Sha256Block(h, tail[..64]);
    if total == 128 {
      Sha256Block(h, tail[64..128]);
    }
    out := StoreDigest(h);
  }

  lemma HashTail(h: Words, t: Bytes)
    requires |h| == 8 && (|t| == 64 || |t| == 128)
    ensures HashBlocks(h, t) == if |t| == 64 then Compress(h, t[..64]) else Compress(Compress(h, t[..64]), t[64..])
  {
    hide Compress, HashBlocks;
    if |t| == 64 {
      assert t[..64] == t;
      HashOne(h, t);
    } else {
      assert t == t[..64] + t[64..];
      HashSplit(h, t[..64], t[64..]);
      HashOne(h, t[..64]);
      HashOne(Compress(h, t[..64]), t[64..]);
    }
  }
}
