/** A shift register fed with bytes, over any carrier: what follows from its step alone. */
module CrcAlgebra {
  import opened Bytes
  import opened Crc

  /** `turn` is the register's step for one byte, `xor` how the byte enters it. The three
      predicates bound how high the set bits of a word reach: 8, 16 or 24 places. */
  datatype Register<!W> = Register(turn: W -> W, xor: (W, W) -> W, zero: W, word: byte -> W,
                                   low8: W -> bool, low16: W -> bool, low24: W -> bool)
  {
    function Mix(c: W, b: byte): W {
      turn(xor(c, word(b)))
    }

    ghost predicate Splits(p: W, q: W) {
      turn(xor(p, q)) == xor(turn(p), turn(q))
    }

    ghost predicate Swaps(c: W, d: W, x: W, y: W) {
      xor(xor(c, x), xor(d, y)) == xor(xor(c, d), xor(x, y))
    }

    ghost predicate Cancels(x: W, y: W) {
      && (xor(x, y) == zero <==> x == y)
      && xor(zero, x) == x
    }

    ghost predicate Tells(b: byte, c: byte) {
      low8(xor(word(b), word(c))) && (word(b) == word(c) ==> b == c)
    }

    /** A turn carries set bits down by at most eight places. */
    ghost predicate Vanishes(d: W, e: W) {
      turn(xor(d, e)) == zero ==> d == e
    }

    ghost predicate Rises(d: W) {
      (low8(d) ==> low16(d)) && (low16(d) ==> low24(d))
    }

    ghost predicate Falls8(d: W, e: W) {
      low8(e) && low8(turn(xor(d, e))) ==> low16(d)
    }

    ghost predicate Falls16(d: W, e: W) {
      low8(e) && low16(turn(xor(d, e))) ==> low24(d)
    }

    ghost predicate Falls24(e: W) {
      low8(e) && low24(turn(e)) ==> e == zero
    }
  }

  ghost predicate Lawful<W(!new)>(r: Register<W>) {
    && (forall p, q :: r.Splits(p, q))
    && (forall c, d, x, y :: r.Swaps(c, d, x, y))
    && (forall x, y :: r.Cancels(x, y))
    && (forall b, c :: r.Tells(b, c))
    && (forall d, e :: r.Vanishes(d, e))
    && (forall d :: r.Rises(d))
    && (forall d, e :: r.Falls8(d, e))
    && (forall d, e :: r.Falls16(d, e))
    && (forall e :: r.Falls24(e))
    && r.turn(r.zero) == r.zero && r.low8(r.zero)
  }

  lemma MixInjective<W(!new)>(r: Register<W>, c: W, d: W, b: byte)
    requires Lawful(r) && r.Mix(c, b) == r.Mix(d, b)
    ensures c == d
  {
    var x := r.word(b);
    var p, q := r.xor(c, x), r.xor(d, x);
    assert r.Splits(p, q) && r.Cancels(r.turn(p), r.turn(q)) && r.Vanishes(p, q);
    assert p == q;
    assert r.Swaps(c, d, x, x) && r.Cancels(p, q) && r.Cancels(x, x);
    assert r.xor(r.xor(c, d), r.zero) == r.zero;
    assert r.Cancels(r.xor(c, d), r.zero) && r.Cancels(c, d);
  }

  lemma {:induction false} FeedInjective<W(!new)>(r: Register<W>, mix: (W, byte) -> W, c: W, d: W, s: Bytes)
    requires Lawful(r) && forall e, b :: mix(e, b) == r.Mix(e, b)
    requires Feed(mix, c, s) == Feed(mix, d, s)
    ensures c == d
    decreases |s|
  {
    if s != [] {
      FeedInjective(r, mix, mix(c, s[0]), mix(d, s[0]), s[1..]);
      MixInjective(r, c, d, s[0]);
    }
  }

  /** The difference of two registers after one more byte each. */
  lemma MixDiff<W(!new)>(r: Register<W>, c: W, d: W, b: byte, b': byte)
    requires Lawful(r)
    ensures r.xor(r.Mix(c, b), r.Mix(d, b')) == r.turn(r.xor(r.xor(c, d), r.xor(r.word(b), r.word(b'))))
  {
    var x, y := r.word(b), r.word(b');
    assert r.Splits(r.xor(c, x), r.xor(d, y)) && r.Swaps(c, d, x, y);
  }

  /** Four differences fed to a register whose own difference starts and ends at zero. */
  lemma FourDiffs<W(!new)>(r: Register<W>, e0: W, e1: W, e2: W, e3: W, d1: W, d2: W, d3: W)
    requires Lawful(r) && r.low8(e0) && r.low8(e1) && r.low8(e2) && r.low8(e3)
    requires d1 == r.turn(r.xor(r.zero, e0)) && d2 == r.turn(r.xor(d1, e1)) && d3 == r.turn(r.xor(d2, e2))
    requires r.turn(r.xor(d3, e3)) == r.zero
    ensures e0 == r.zero && e1 == r.zero && e2 == r.zero && e3 == r.zero
  {
    assert r.Vanishes(d3, e3) && r.Falls8(d2, e2) && r.Falls16(d1, e1);
    assert r.low8(d3) && r.low16(d2) && r.low24(d1);
    assert r.Cancels(e0, e0) && r.Falls24(e0);
    assert e0 == r.zero && d1 == r.zero;
    assert r.Cancels(e1, e1) && r.Falls24(e1) && r.Rises(d2);
    assert e1 == r.zero && d2 == r.zero;
    assert r.Cancels(e2, e2) && r.Falls24(e2) && r.Rises(d3);
    assert e2 == r.zero && d3 == r.zero;
  }

  /** Four bytes fed to equal registers leave them equal only if the bytes are equal. */
  lemma FourBytes<W(!new)>(r: Register<W>, c: W, v: Bytes, w: Bytes)
    requires Lawful(r) && |v| == |w| == 4
    requires r.Mix(r.Mix(r.Mix(r.Mix(c, v[0]), v[1]), v[2]), v[3])
          == r.Mix(r.Mix(r.Mix(r.Mix(c, w[0]), w[1]), w[2]), w[3])
    ensures v == w
  {
    var c1, d1 := r.Mix(c, v[0]), r.Mix(c, w[0]);
    var c2, d2 := r.Mix(c1, v[1]), r.Mix(d1, w[1]);
    var c3, d3 := r.Mix(c2, v[2]), r.Mix(d2, w[2]);
    MixDiff(r, c, c, v[0], w[0]);
    MixDiff(r, c1, d1, v[1], w[1]);
    MixDiff(r, c2, d2, v[2], w[2]);
    MixDiff(r, c3, d3, v[3], w[3]);
    assert r.Cancels(c, c) && r.Cancels(r.Mix(c3, v[3]), r.Mix(d3, w[3]));
    var e := k requires 0 <= k < 4 => r.xor(r.word(v[k]), r.word(w[k]));
    assert r.Tells(v[0], w[0]) && r.Tells(v[1], w[1]) && r.Tells(v[2], w[2]) && r.Tells(v[3], w[3]);
    FourDiffs(r, e(0), e(1), e(2), e(3), r.xor(c1, d1), r.xor(c2, d2), r.xor(c3, d3));
    forall k | 0 <= k < 4 ensures v[k] == w[k] {
      assert r.Cancels(r.word(v[k]), r.word(w[k]));
      assert e(k) == r.zero;
    }
  }

  /** Two strings of one length that differ only within bytes i..i+3. */
  ghost predicate DifferWithin(s: Bytes, t: Bytes, i: nat) {
    |s| == |t| && i + 4 <= |s| && s[..i] == t[..i] && s[i + 4..] == t[i + 4..]
  }

  lemma FeedFour<W>(mix: (W, byte) -> W, c: W, s: Bytes)
    requires |s| == 4
    ensures Feed(mix, c, s) == mix(mix(mix(mix(c, s[0]), s[1]), s[2]), s[3])
  {
    var c1 := mix(c, s[0]);
    var c2 := mix(c1, s[1]);
    var c3 := mix(c2, s[2]);
    assert s[1..][0] == s[1] && s[1..][1..] == s[2..];
    assert s[2..][0] == s[2] && s[2..][1..] == s[3..];
    assert s[3..][0] == s[3] && s[3..][1..] == [];
    assert Feed(mix, c, s) == Feed(mix, c1, s[1..]) == Feed(mix, c2, s[2..]) == Feed(mix, c3, s[3..]);
    assert Feed(mix, c3, s[3..]) == Feed(mix, mix(c3, s[3]), []);
  }

  lemma FeedThree<W>(mix: (W, byte) -> W, c: W, s: Bytes, i: nat)
    requires i + 4 <= |s|
    ensures Feed(mix, c, s) == Feed(mix, Feed(mix, Feed(mix, c, s[..i]), s[i..i + 4]), s[i + 4..])
  {
    FeedSplit(mix, c, s[..i], s[i..]);
    assert s == s[..i] + s[i..];
    FeedSplit(mix, Feed(mix, c, s[..i]), s[i..i + 4], s[i + 4..]);
    assert s[i..] == s[i..i + 4] + s[i + 4..];
  }

  lemma BurstShows<W(!new)>(r: Register<W>, mix: (W, byte) -> W, c: W, s: Bytes, t: Bytes, i: nat)
    requires Lawful(r) && forall e, b :: mix(e, b) == r.Mix(e, b)
    requires DifferWithin(s, t, i) && Feed(mix, c, s) == Feed(mix, c, t)
    ensures s == t
  {
    FeedThree(mix, c, s, i);
    FeedThree(mix, c, t, i);
    var d := Feed(mix, c, s[..i]);
    var v, w := s[i..i + 4], t[i..i + 4];
    FeedInjective(r, mix, Feed(mix, d, v), Feed(mix, d, w), s[i + 4..]);
    FeedFour(mix, d, v);
    FeedFour(mix, d, w);
    FourBytes(r, d, v, w);
    assert s == s[..i] + v + s[i + 4..] && t == t[..i] + w + t[i + 4..];
  }
}
