/** nwcheck.c: the CRC-32 of a header and a body, one bit at a time. */
module Crc {
  import opened Bytes

  /** Feeding a byte string to a register, whatever the register's step is. */
  function Feed<C>(step: (C, byte) -> C, c: C, s: Bytes): C
    decreases |s|
  {
    if s == [] then c else Feed(step, step(c, s[0]), s[1..])
  }

  lemma {:induction false} FeedSplit<C>(step: (C, byte) -> C, c: C, a: Bytes, b: Bytes)
    ensures Feed(step, c, a + b) == Feed(step, Feed(step, c, a), b)
    decreases |a|
  {
    if a == [] {
      assert a + b == b;
    } else {
      FeedSplit(step, step(c, a[0]), a[1..], b);
      assert (a + b)[1..] == a[1..] + b;
    }
  }

  lemma {:induction false} FeedAgrees<C(!new)>(f: (C, byte) -> C, g: (C, byte) -> C, c: C, s: Bytes)
    requires forall d, b :: f(d, b) == g(d, b)
    ensures Feed(f, c, s) == Feed(g, c, s)
    decreases |s|
  {
    if s != [] {
      FeedAgrees(f, g, f(c, s[0]), s[1..]);
    }
  }

  const POLY: bv32 := 0xedb8_8320
  const ALL_ONES: bv32 := 0xffff_ffff

  /** One bit: `(c >> 1) ^ (POLY & -(c & 1))`. */
  function Step(c: bv32): bv32 {
    (c >> 1) ^ (POLY & (0 - (c & 1)))
  }

  function Step8(c: bv32): bv32 {
    Step(Step(Step(Step(Step(Step(Step(Step(c))))))))
  }

  function Absorb(c: bv32, b: byte): bv32 {
    Step8(c ^ Wide(b))
  }

  function Crc32(s: Bytes): bv32 {
    Feed(Absorb, ALL_ONES, s) ^ ALL_ONES
  }

  method AbsorbByte(c0: bv32, b: byte) returns (c: bv32)
    ensures c == Absorb(c0, b)
  {
    c := c0 ^ Wide(b);
    ghost var start := c;
    for k := 0 to 8
      invariant c == NthStep(start, k)
    {
      c := (c >> 1) ^ (POLY & (0 - (c & 1)));
    }
  }

  function NthStep(c: bv32, k: nat): bv32
    decreases k
  {
    if k == 0 then c else Step(NthStep(c, k - 1))
  }

  method FeedRegion(c0: bv32, s: Bytes) returns (c: bv32)
    ensures c == Feed(Absorb, c0, s)
  {
    c := c0;
    for i := 0 to |s|
      invariant Feed(Absorb, c, s[i..]) == Feed(Absorb, c0, s)
    {
      assert s[i..][0] == s[i] && s[i..][1..] == s[i + 1..];
      c := AbsorbByte(c, s[i]);
    }
  }

  /** nw_crc32_split: only the concatenation of the two regions matters. */
  method Crc32Split(a: Bytes, b: Bytes) returns (c: bv32)
    ensures c == Crc32(a + b)
  {
    c := FeedRegion(ALL_ONES, a);
    c := FeedRegion(c, b);
    FeedSplit(Absorb, ALL_ONES, a, b);
    c := c ^ ALL_ONES;
  }
}
