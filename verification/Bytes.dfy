/** Byte strings: little-endian numbers, NUL-padded text, and cutting a record into fields. */
module Bytes {
  type byte = x: int | 0 <= x < 256
  type Bytes = seq<byte>

  /** An unsigned char as it joins a 32-bit word. */
  function Wide(b: byte): bv32 {
    (b as bv8) as bv32
  }

  function Pow256(w: nat): (p: nat)
    ensures p > 0
  {
    if w == 0 then 1 else 256 * Pow256(w - 1)
  }

  lemma Pow256Values()
    ensures Pow256(1) == 0x100 && Pow256(2) == 0x1_0000
    ensures Pow256(4) == 0x1_0000_0000 && Pow256(8) == 0x1_0000_0000_0000_0000
  {
    assert Pow256(3) == 256 * Pow256(2);
    assert Pow256(5) == 256 * Pow256(4);
    assert Pow256(6) == 256 * Pow256(5);
    assert Pow256(7) == 256 * Pow256(6);
  }

  /** `v` in `w` bytes, least significant first. */
  function Le(v: nat, w: nat): (b: Bytes)
    ensures |b| == w
  {
    if w == 0 then [] else [v % 256] + Le(v / 256, w - 1)
  }

  function LeVal(b: Bytes): nat {
    if b == [] then 0 else b[0] + 256 * LeVal(b[1..])
  }

  lemma {:induction false} LeValLe(v: nat, w: nat)
    requires v < Pow256(w)
    ensures LeVal(Le(v, w)) == v
  {
    if w > 0 {
      LeValLe(v / 256, w - 1);
      assert Le(v, w)[1..] == Le(v / 256, w - 1);
    }
  }

  lemma LowByte(x: byte, v: nat, w: nat)
    requires w > 0
    ensures Le(x as nat + 256 * v, w) == [x] + Le(v, w - 1)
    ensures v < Pow256(w - 1) ==> x as nat + 256 * v < Pow256(w)
  {
    hide LeVal;
    assert (x as nat + 256 * v) % 256 == x as nat && (x as nat + 256 * v) / 256 == v;
  }

  lemma {:induction false} LeLeVal(b: Bytes)
    ensures LeVal(b) < Pow256(|b|) && Le(LeVal(b), |b|) == b
  {
    if b != [] {
      LeLeVal(b[1..]);
      hide Le, Pow256;
      LowByte(b[0], LeVal(b[1..]), |b|);
      assert b == [b[0]] + b[1..];
    }
  }

  function Zeros(n: nat): (z: Bytes)
    ensures |z| == n
  {
    seq(n, _ => 0)
  }

  /** A C string's bytes: up to the first NUL, or all of them. */
  function CStr(f: Bytes): (s: Bytes) {
    if f == [] || f[0] == 0 then [] else [f[0]] + CStr(f[1..])
  }

  predicate NoNul(s: Bytes) {
    forall i :: 0 <= i < |s| ==> s[i] != 0
  }

  function Pad(s: Bytes, n: nat): (f: Bytes)
    requires |s| <= n
    ensures |f| == n
  {
    s + Zeros(n - |s|)
  }

  /** CStr is the longest NUL-free prefix. */
  lemma {:induction false} CStrPrefix(f: Bytes)
    ensures |CStr(f)| <= |f| && f[..|CStr(f)|] == CStr(f) && NoNul(CStr(f))
    ensures |CStr(f)| < |f| ==> f[|CStr(f)|] == 0
  {
    if f != [] && f[0] != 0 {
      CStrPrefix(f[1..]);
      var n := |CStr(f[1..])|;
      assert f[..n + 1] == [f[0]] + f[1..][..n];
    }
  }

  lemma {:induction false} CStrIs(f: Bytes, n: nat)
    requires n <= |f| && NoNul(f[..n]) && (n < |f| ==> f[n] == 0)
    ensures CStr(f) == f[..n]
  {
    if n > 0 {
      assert f[..n][0] == f[0];
      var g := f[1..][..n - 1];
      forall i | 0 <= i < |g| ensures g[i] != 0 {
        assert g[i] == f[..n][i + 1];
      }
      CStrIs(f[1..], n - 1);
      assert f[..n] == [f[0]] + f[1..][..n - 1];
    }
  }

  lemma {:induction false} CStrCovers(f: Bytes, n: nat)
    requires n < |f| && NoNul(f[..n]) && f[n] != 0
    ensures n < |CStr(f)| && CStr(f)[n] == f[n]
  {
    if n > 0 {
      assert f[..n][0] == f[0];
      var g := f[1..][..n - 1];
      forall i | 0 <= i < |g| ensures g[i] != 0 {
        assert g[i] == f[..n][i + 1];
      }
      CStrCovers(f[1..], n - 1);
    }
  }

  lemma CStrPad(s: Bytes, n: nat)
    requires NoNul(s) && |s| <= n
    ensures CStr(Pad(s, n)) == s
  {
    assert Pad(s, n)[..|s|] == s;
    CStrIs(Pad(s, n), |s|);
  }

  /** Everything after the string is NUL: the field is the string's own padding. */
  lemma PadCStr(f: Bytes)
    requires forall i :: |CStr(f)| <= i < |f| ==> f[i] == 0
    ensures |CStr(f)| <= |f| && f == Pad(CStr(f), |f|)
  {
    CStrPrefix(f);
    var s := CStr(f);
    assert f == f[..|s|] + f[|s|..];
    assert f[|s|..] == Zeros(|f| - |s|);
  }

  lemma SliceOfSlice(b: Bytes, at: nat, end: nat, i: nat, j: nat)
    requires i <= j && at + j <= end <= |b|
    ensures b[at..end][i..j] == b[at + i..at + j]
  {
    var x, y := b[at..end][i..j], b[at + i..at + j];
    assert |x| == |y|;
    forall m | 0 <= m < |x| ensures x[m] == y[m] {
      assert x[m] == b[at..end][i + m];
    }
  }

  lemma SliceBefore(a: Bytes, b: Bytes)
    ensures (a + b)[0..|a|] == a
  {
  }

  lemma SliceAfter(a: Bytes, b: Bytes, i: nat, j: nat)
    requires i <= j <= |b|
    ensures (a + b)[|a| + i..|a| + j] == b[i..j]
  {
  }

  function Join(fs: seq<Bytes>): Bytes {
    if fs == [] then [] else fs[0] + Join(fs[1..])
  }

  /** `cuts` are the borders of consecutive pieces of a string of length `len`. */
  ghost predicate Borders(cuts: seq<nat>, len: nat) {
    && |cuts| > 0 && cuts[0] == 0 && cuts[|cuts| - 1] == len
    && (forall k :: 0 <= k < |cuts| - 1 ==> cuts[k] <= cuts[k + 1])
  }

  lemma {:induction false} BordersRise(cuts: seq<nat>, len: nat, k: nat)
    requires Borders(cuts, len) && k < |cuts|
    ensures cuts[k] <= len
    decreases |cuts| - k
  {
    if k < |cuts| - 1 {
      BordersRise(cuts, len, k + 1);
    }
  }

  /** The pieces of `b` between `cuts[k..]`. */
  ghost function Pieces(b: Bytes, cuts: seq<nat>, k: nat): (fs: seq<Bytes>)
    requires Borders(cuts, |b|) && k < |cuts|
    ensures |fs| == |cuts| - 1 - k
    decreases |cuts| - k
  {
    if k == |cuts| - 1 then []
    else
      BordersRise(cuts, |b|, k + 1);
      [b[cuts[k]..cuts[k + 1]]] + Pieces(b, cuts, k + 1)
  }

  lemma NextPiece(b: Bytes, cuts: seq<nat>, k: nat, i: nat)
    requires Borders(cuts, |b|) && k < |cuts| && i < |cuts| - 1 - k
    ensures cuts[k] <= cuts[k + 1] <= |b|
    ensures Pieces(b, cuts, k)[i] == if i == 0 then b[cuts[k]..cuts[k + 1]] else Pieces(b, cuts, k + 1)[i - 1]
  {
    BordersRise(cuts, |b|, k + 1);
  }

  lemma {:induction false} PieceAt(b: Bytes, cuts: seq<nat>, k: nat, i: nat)
    requires Borders(cuts, |b|) && k < |cuts| && i < |cuts| - 1 - k
    ensures cuts[k + i] <= cuts[k + i + 1] <= |b|
    ensures Pieces(b, cuts, k)[i] == b[cuts[k + i]..cuts[k + i + 1]]
    decreases i
  {
    hide Pieces, Borders;
    NextPiece(b, cuts, k, i);
    if i > 0 {
      PieceAt(b, cuts, k + 1, i - 1);
    }
  }

  /** Cutting and joining again gives the string back. */
  lemma {:induction false} JoinPieces(b: Bytes, cuts: seq<nat>, k: nat)
    requires Borders(cuts, |b|) && k < |cuts|
    ensures cuts[k] <= |b| && Join(Pieces(b, cuts, k)) == b[cuts[k]..]
    decreases |cuts| - k
  {
    BordersRise(cuts, |b|, k);
    if k < |cuts| - 1 {
      JoinPieces(b, cuts, k + 1);
      var fs := Pieces(b, cuts, k);
      assert fs[1..] == Pieces(b, cuts, k + 1);
      assert b[cuts[k]..] == b[cuts[k]..cuts[k + 1]] + b[cuts[k + 1]..];
    }
  }

  /** The cuts are where the fields end. */
  ghost predicate Fits(fs: seq<Bytes>, cuts: seq<nat>) {
    |cuts| == |fs| + 1 && forall k :: 0 <= k < |fs| ==> cuts[k + 1] == cuts[k] + |fs[k]|
  }

  /** Each field of a joined record lies between its two borders. */
  lemma {:induction false} FieldAt(fs: seq<Bytes>, cuts: seq<nat>, k: nat)
    requires Fits(fs, cuts) && k < |fs|
    ensures cuts[0] <= cuts[k] <= cuts[k + 1] <= cuts[0] + |Join(fs)|
    ensures Join(fs)[cuts[k] - cuts[0]..cuts[k + 1] - cuts[0]] == fs[k]
    decreases k
  {
    if k == 0 {
    } else {
      FieldAt(fs[1..], cuts[1..], k - 1);
    }
  }

  lemma {:induction false} JoinLength(fs: seq<Bytes>, cuts: seq<nat>)
    requires Fits(fs, cuts)
    ensures cuts[|fs|] == cuts[0] + |Join(fs)|
  {
    if fs != [] {
      JoinLength(fs[1..], cuts[1..]);
    }
  }
}
