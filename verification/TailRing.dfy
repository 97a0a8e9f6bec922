/** pid1.c: the logger's ring of the last bytes of a house, and flush_tail. */
module TailRing {
  import opened Bytes

  /** NW_EVIDENCE_TAIL_MAX */
  const TAIL_MAX: nat := 4096
  /** sizeof buf */
  const CHUNK_MAX: nat := 256

  /** The last bytes of a stream. */
  function Last(s: Bytes): (t: Bytes)
    ensures |t| == if |s| < TAIL_MAX then |s| else TAIL_MAX
  {
    if |s| <= TAIL_MAX then s else s[|s| - TAIL_MAX..]
  }

  /** Bytes added at the end of at most TAIL_MAX, and as many dropped at the start as there are too many. */
  function Grown(t: Bytes, b: Bytes): Bytes
    requires |t| <= TAIL_MAX && |b| <= TAIL_MAX
  {
    if |t| + |b| <= TAIL_MAX then t + b else t[|t| + |b| - TAIL_MAX..] + b
  }

  lemma DropLeft(s: Bytes, b: Bytes, k: nat)
    requires k <= |s|
    ensures (s + b)[k..] == s[k..] + b
  {
  }

  lemma DropDrop(s: Bytes, i: nat, j: nat)
    requires i + j <= |s|
    ensures s[i..][j..] == s[i + j..]
  {
  }

  lemma LastOf(s: Bytes)
    requires |s| > TAIL_MAX
    ensures Last(s) == s[|s| - TAIL_MAX..]
  {
  }

  lemma GrownOf(t: Bytes, b: Bytes)
    requires |t| <= TAIL_MAX && |b| <= TAIL_MAX < |t| + |b|
    ensures Grown(t, b) == t[|t| + |b| - TAIL_MAX..] + b
  {
  }

  lemma NothingAdded(s: Bytes)
    ensures Last(s + []) == Grown(Last(s), [])
  {
    assert s + [] == s && Last(s) + [] == Last(s);
  }

  lemma StillShort(s: Bytes, b: Bytes)
    requires |s| + |b| <= TAIL_MAX
    ensures Last(s + b) == Grown(Last(s), b)
  {
  }

  lemma NowTooLong(s: Bytes, b: Bytes)
    requires |s| <= TAIL_MAX && |b| <= TAIL_MAX < |s| + |b|
    ensures Last(s + b) == Grown(s, b)
  {
    hide Last, Grown;
    LastOf(s + b);
    GrownOf(s, b);
    DropLeft(s, b, |s| + |b| - TAIL_MAX);
  }

  lemma AlreadyLong(s: Bytes, b: Bytes)
    requires |s| > TAIL_MAX && 0 < |b| <= TAIL_MAX
    ensures Last(s + b) == Grown(Last(s), b)
  {
    hide Last, Grown;
    LastOf(s);
    LastOf(s + b);
    GrownOf(Last(s), b);
    DropLeft(s, b, |s| + |b| - TAIL_MAX);
    DropDrop(s, |s| - TAIL_MAX, |b|);
  }

  lemma LastAdds(s: Bytes, b: Bytes)
    requires |b| <= TAIL_MAX
    ensures Last(s + b) == Grown(Last(s), b)
  {
    hide Grown;
    if b == [] {
      NothingAdded(s);
    } else if |s| + |b| <= TAIL_MAX {
      StillShort(s, b);
    } else if |s| <= TAIL_MAX {
      NowTooLong(s, b);
    } else {
      AlreadyLong(s, b);
    }
  }

  /** A file's bytes after a write: a gap reads as zeros, what lies beyond stays. */
  function Written(d: Bytes, b: Bytes, off: nat): (w: Bytes)
    ensures off <= |d| ==> |w| >= off + |b| && w[..off + |b|] == d[..off] + b
  {
    if b == [] then d
    else
      var e := if off > |d| then d + Zeros(off - |d|) else d;
      e[..off] + b + if off + |b| <= |e| then e[off + |b|..] else []
  }

  /** A file written at offsets and cut to a length. */
  class TailFile {
    var data: Bytes

    constructor ()
      ensures data == []
    {
      data := [];
    }

    method Pwrite(b: Bytes, off: nat)
      modifies this
      ensures data == Written(old(data), b, off)
    {
      if b != [] {
        if off > |data| {
          data := data + Zeros(off - |data|);
        }
        data := data[..off] + b + if off + |b| <= |data| then data[off + |b|..] else [];
      }
    }

    method Ftruncate(len: nat)
      modifies this
      ensures data == if len <= |old(data)| then old(data)[..len] else old(data) + Zeros(len - |old(data)|)
    {
      data := if len <= |data| then data[..len] else data + Zeros(len - |data|);
    }
  }

  /** Ring contents oldest byte first, when the next byte goes to `c`. */
  function Unrolled(r: Bytes, c: nat, wrapped: bool): Bytes
    requires c <= |r|
  {
    if wrapped then r[c..] + r[..c] else r[..c]
  }

  lemma UnrolledSize(r: Bytes, c: nat, wrapped: bool)
    requires |r| == TAIL_MAX && c <= TAIL_MAX
    ensures |Unrolled(r, c, wrapped)| == if wrapped then TAIL_MAX else c
  {
  }

  /** A chunk that ends before the end of the ring. */
  lemma ShortChunk(r: Bytes, c: nat, wrapped: bool, b: Bytes)
    requires |r| == TAIL_MAX && c + |b| < TAIL_MAX
    ensures |Unrolled(r, c, wrapped)| <= TAIL_MAX
    ensures Unrolled(r[..c] + b + r[c + |b|..], c + |b|, wrapped) == Grown(Unrolled(r, c, wrapped), b)
  {
    hide Grown;
    if wrapped {
      ShortWrapped(r, c, b);
    } else {
      ShortPlain(r, c, b);
    }
  }

  lemma ThreeParts(p: Bytes, b: Bytes, s: Bytes)
    ensures (p + b + s)[..|p| + |b|] == p + b && (p + b + s)[|p| + |b|..] == s
  {
  }

  lemma ShortPlain(r: Bytes, c: nat, b: Bytes)
    requires |r| == TAIL_MAX && c + |b| < TAIL_MAX
    ensures Unrolled(r[..c] + b + r[c + |b|..], c + |b|, false) == Grown(Unrolled(r, c, false), b)
  {
    ThreeParts(r[..c], b, r[c + |b|..]);
  }

  lemma ShortWrapped(r: Bytes, c: nat, b: Bytes)
    requires |r| == TAIL_MAX && c + |b| < TAIL_MAX
    ensures |Unrolled(r, c, true)| == TAIL_MAX
    ensures Unrolled(r[..c] + b + r[c + |b|..], c + |b|, true) == Grown(Unrolled(r, c, true), b)
  {
    hide Grown;
    var u := Unrolled(r, c, true);
    ThreeParts(r[..c], b, r[c + |b|..]);
    DropLeft(r[c..], r[..c], |b|);
    DropDrop(r, c, |b|);
    Regroup(r[c + |b|..], r[..c], b);
    GrownFull(u, b);
  }

  lemma Regroup(p: Bytes, q: Bytes, b: Bytes)
    ensures p + (q + b) == p + q + b
  {
  }

  lemma GrownFull(t: Bytes, b: Bytes)
    requires |t| == TAIL_MAX && |b| <= TAIL_MAX
    ensures Grown(t, b) == t[|b|..] + b
  {
    if b == [] {
      assert t + b == t;
    }
  }

  /** A chunk that reaches the end of the ring: its first part fills it, the rest goes to the start. */
  lemma LongChunk(r: Bytes, c: nat, wrapped: bool, x: Bytes, y: Bytes)
    requires |r| == TAIL_MAX && c + |x| == TAIL_MAX && |y| <= c
    requires |x| > 0
    ensures |Unrolled(r, c, wrapped)| <= TAIL_MAX && |r[..c] + x + r[c + |x|..]| == TAIL_MAX
    ensures Unrolled(y + (r[..c] + x + r[c + |x|..])[|y|..], |y|, true) == Grown(Unrolled(r, c, wrapped), x + y)
  {
    var q := r[..c] + x;
    assert r[..c] + x + r[c + |x|..] == q;
    var u := y + q[|y|..];
    DropLeft(r[..c], x, |y|);
    assert u[|y|..] == q[|y|..] && u[..|y|] == y;
    assert Unrolled(u, |y|, true) == r[..c][|y|..] + x + y == r[..c][|y|..] + (x + y);
    if wrapped {
      LongWrapped(r, c, x, y);
    } else {
      assert |y| == 0 ==> r[..c][|y|..] == r[..c];
    }
  }

  lemma LongWrapped(r: Bytes, c: nat, x: Bytes, y: Bytes)
    requires |r| == TAIL_MAX && c + |x| == TAIL_MAX && |y| <= c && |x| > 0
    ensures Grown(Unrolled(r, c, true), x + y) == r[..c][|y|..] + (x + y)
  {
    hide Grown;
    var u := Unrolled(r, c, true);
    GrownFull(u, x + y);
    DropAll(r[c..], r[..c]);
    DropDrop(u, |x|, |y|);
  }

  lemma DropAll(s: Bytes, b: Bytes)
    ensures (s + b)[|s|..] == b
  {
  }

  class Ring {
    const ring: array<byte>
    var cursor: nat
    var wrapped: bool

    ghost predicate Valid()
      reads this
    {
      ring.Length == TAIL_MAX && cursor < TAIL_MAX
    }

    /** Oldest byte first. */
    ghost function Logical(): Bytes
      requires Valid()
      reads this, ring
    {
      Unrolled(ring[..], cursor, wrapped)
    }

    /** The ring holds the last bytes of `s`. */
    ghost predicate Remembers(s: Bytes)
      reads this, ring
    {
      Valid() && Logical() == Last(s) && (!wrapped ==> |s| < TAIL_MAX)
    }

    constructor ()
      ensures fresh(ring) && Remembers([])
    {
      ring := new byte[TAIL_MAX];
      cursor := 0;
      wrapped := false;
    }

    /** memcpy(ring + at, b, |b|) */
    method Copy(at: nat, b: Bytes)
      requires at + |b| <= ring.Length
      modifies ring
      ensures ring[..] == old(ring[..at]) + b + old(ring[at + |b|..])
    {
      for i := 0 to |b|
        invariant ring[at..at + i] == b[..i]
        invariant ring[..at] == old(ring[..at]) && ring[at + i..] == old(ring[at + i..])
      {
        ghost var rest := old(ring[at + i..]);
        ring[at + i] := b[i];
        assert ring[at..at + i + 1] == ring[at..at + i] + [b[i]];
        assert ring[at + i + 1..] == rest[1..] == old(ring[at + i + 1..]);
        assert b[..i + 1] == b[..i] + [b[i]];
      }
      assert ring[..] == ring[..at] + ring[at..at + |b|] + ring[at + |b|..];
      assert b[..|b|] == b;
    }

    /** The memory of the ring and its two variables after a chunk. */
    method Store(b: Bytes)
      requires Valid() && 1 <= |b| <= CHUNK_MAX
      modifies this, ring
      ensures Valid() && |old(Logical())| <= TAIL_MAX && Logical() == Grown(old(Logical()), b)
    {
      hide Unrolled, Grown;
      ghost var r, c, w := ring[..], cursor, wrapped;
      var room := TAIL_MAX - cursor;
      var first := if |b| < room then |b| else room;
      ghost var x, y := b[..first], b[first..];
      assert b == x + y;
      Copy(cursor, b[..first]);
      ghost var q := ring[..];
      assert q == r[..c] + x + r[c + first..];
      if first < |b| {
        LongChunk(r, c, w, x, y);
        Copy(0, b[first..]);
        assert ring[..] == y + q[|y|..];
        cursor := |b| - first;
        wrapped := true;
      } else {
        cursor := cursor + first;
        assert x == b;
        if cursor == TAIL_MAX {
          LongChunk(r, c, w, x, y);
          assert y + q[|y|..] == q;
          cursor := 0;
          wrapped := true;
        } else {
          ShortChunk(r, c, w, b);
        }
      }
    }

    /** One chunk read from the pipe. */
    method Take(b: Bytes, ghost s: Bytes)
      requires Remembers(s) && 1 <= |b| <= CHUNK_MAX
      modifies this, ring
      ensures Remembers(s + b)
    {
      hide Unrolled;
      UnrolledSize(ring[..], cursor, wrapped);
      LastAdds(s, b);
      Store(b);
      UnrolledSize(ring[..], cursor, wrapped);
    }

    /** flush_tail: whatever the file held, it now holds the ring's bytes and nothing older. */
    method FlushTail(file: TailFile)
      requires Valid()
      modifies file
      ensures file.data == Logical()
    {
      hide Written;
      var off := 0;
      if wrapped {
        var tailSeg := TAIL_MAX - cursor;
        file.Pwrite(ring[cursor..], 0);
        assert file.data[..tailSeg] == ring[cursor..];
        off := tailSeg;
      }
      file.Pwrite(ring[..cursor], off);
      var total := if wrapped then TAIL_MAX else cursor;
      assert file.data[..total] == Logical();
      file.Ftruncate(total);
    }
  }

  function Stream(chunks: seq<Bytes>): Bytes {
    if chunks == [] then [] else Stream(chunks[..|chunks| - 1]) + chunks[|chunks| - 1]
  }

  /** The logger's loop: after every chunk, and at the end, the tail file is the last 4096 bytes of all that
      was read. */
  method Logger(chunks: seq<Bytes>, file: TailFile)
    requires forall i :: 0 <= i < |chunks| ==> 1 <= |chunks[i]| <= CHUNK_MAX
    modifies file
    ensures file.data == Last(Stream(chunks))
  {
    var ring := new Ring();
    for i := 0 to |chunks|
      invariant fresh(ring) && fresh(ring.ring) && ring.Remembers(Stream(chunks[..i]))
      invariant i > 0 ==> file.data == Last(Stream(chunks[..i]))
    {
      assert chunks[..i + 1][..i] == chunks[..i];
      ring.Take(chunks[i], Stream(chunks[..i]));
      ring.FlushTail(file);
    }
    assert chunks[..|chunks|] == chunks;
    ring.FlushTail(file);
  }
}
