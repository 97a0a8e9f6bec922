/** The whole blob: nw_check accepts exactly the canonical encodings of well-formed plans. */
module BlobCodec {
  import opened Bytes
  import opened Blob
  import opened Check
  import opened Codec
  import Crc

  /* Tables of equal records. */

  lemma {:induction false} TableAt(fs: seq<Bytes>, size: nat, i: nat)
    requires forall k :: 0 <= k < |fs| ==> |fs[k]| == size
    requires i < |fs|
    ensures i * size + size <= |Join(fs)|
    ensures Join(fs)[i * size..i * size + size] == fs[i]
    decreases i
  {
    if i > 0 {
      TableAt(fs[1..], size, i - 1);
      assert (i - 1) * size + size == i * size;
      SliceAfter(fs[0], Join(fs[1..]), (i - 1) * size, i * size);
    } else {
      assert 0 * size == 0;
      SliceBefore(fs[0], Join(fs[1..]));
    }
  }

  lemma {:induction false} TableSize(fs: seq<Bytes>, size: nat)
    requires forall k :: 0 <= k < |fs| ==> |fs[k]| == size
    ensures |Join(fs)| == |fs| * size
  {
    if fs != [] {
      TableSize(fs[1..], size);
      assert (|fs| - 1) * size + size == |fs| * size;
    }
  }

  /** The slice of record `k`. */
  ghost predicate RecordIs(r: Bytes, size: nat, fs: seq<Bytes>, k: nat)
    requires k < |fs|
  {
    k * size + size <= |r| && fs[k] == r[k * size..k * size + size]
  }

  function Evenly(n: nat, size: nat): (cuts: seq<nat>)
    ensures |cuts| == n + 1
  {
    seq(n + 1, k requires 0 <= k => k * size)
  }

  lemma EvenlyBorders(n: nat, size: nat)
    ensures Borders(Evenly(n, size), n * size)
  {
    var cuts := Evenly(n, size);
    forall k | 0 <= k < n ensures cuts[k] + size == cuts[k + 1] {
      assert (k + 1) * size == k * size + size;
    }
  }

  lemma PieceIsRecord(r: Bytes, size: nat, fs: seq<Bytes>, k: nat)
    requires k < |fs| && RecordIs(r, size, fs, k) && Borders(Evenly(|fs|, size), |r|)
    ensures Pieces(r, Evenly(|fs|, size), 0)[k] == fs[k]
  {
    hide Pieces, Borders;
    PieceAt(r, Evenly(|fs|, size), 0, k);
    assert (k + 1) * size == k * size + size;
  }

  lemma TableJoins(r: Bytes, size: nat, fs: seq<Bytes>)
    requires |r| == |fs| * size
    requires forall k: nat :: k < |fs| ==> RecordIs(r, size, fs, k)
    ensures Join(fs) == r
  {
    hide Pieces, Join, RecordIs;
    var cuts := Evenly(|fs|, size);
    EvenlyBorders(|fs|, size);
    var ps := Pieces(r, cuts, 0);
    forall k | 0 <= k < |fs| ensures ps[k] == fs[k] {
      PieceIsRecord(r, size, fs, k);
    }
    assert ps == fs;
    JoinPieces(r, cuts, 0);
  }

  /* Binds and edges. */

  lemma DecodeEncodedBind(x: Bind)
    requires x.unit < 0x1_0000 && PathOk(x.path)
    ensures |EncodeBind(x)| == BIND_SIZE
    ensures BindUnit(EncodeBind(x)) == x.unit && BindPath(EncodeBind(x)) == Pad(x.path, PATH_LEN)
  {
    Pow256Values();
    LeValLe(x.unit, 2);
    assert EncodeBind(x)[0..2] == Le(x.unit, 2);
  }

  lemma EncodeDecodedBind(b: RawBind)
    requires PathField(BindPath(b))
    ensures |CStr(BindPath(b))| <= PATH_LEN
    ensures EncodeBind(Bind(BindUnit(b), CStr(BindPath(b)))) == b
  {
    TextBack(BindPath(b));
    LeLeVal(b[0..2]);
    assert b == b[0..2] + b[2..130];
  }

  lemma DecodeEncodedEdge(e: Edge)
    requires e.a < 0x1_0000 && e.b < 0x1_0000
    ensures |EncodeEdge(e)| == EDGE_SIZE && EdgeA(EncodeEdge(e)) == e.a && EdgeB(EncodeEdge(e)) == e.b
  {
    Pow256Values();
    LeValLe(e.a, 2);
    LeValLe(e.b, 2);
    assert EncodeEdge(e)[0..2] == Le(e.a, 2) && EncodeEdge(e)[2..4] == Le(e.b, 2);
  }

  lemma EncodeDecodedEdge(e: RawEdge)
    ensures EncodeEdge(Edge(EdgeA(e), EdgeB(e))) == e
  {
    LeLeVal(e[0..2]);
    LeLeVal(e[2..4]);
    assert e == e[0..2] + e[2..4];
  }

  /* Decoding. */

  function DecodeBind(b: RawBind): Bind {
    Bind(BindUnit(b), CStr(BindPath(b)))
  }

  function DecodeEdge(e: RawEdge): Edge {
    Edge(EdgeA(e), EdgeB(e))
  }

  function DecodeTables(us: seq<RawUnit>, bs: seq<RawBind>, es: seq<RawEdge>): Plan {
    Plan(seq(|us|, i requires 0 <= i < |us| => DecodeUnit(us[i])),
              seq(|bs|, i requires 0 <= i < |bs| => DecodeBind(bs[i])),
              seq(|es|, i requires 0 <= i < |es| => DecodeEdge(es[i])))
  }

  /** The plan a reader of the blob sees. */
  function Decode(b: Bytes): Plan
    requires |b| >= HDR_SIZE && |b| == BlobSize(TablesOf(b).nu, TablesOf(b).nb, TablesOf(b).ne)
  {
    var t := TablesOf(b);
    DecodeTables(t.Units(), t.Binds(), t.Edges())
  }

  /* Accepted tables are a well-formed plan. */

  ghost predicate AllPass(us: seq<RawUnit>, bs: seq<RawBind>, es: seq<RawEdge>) {
    && (forall i :: 0 <= i < |us| ==> UnitCode(us, i) == OK)
    && (forall i :: 0 <= i < |bs| ==> BindCode(us, bs[i]) == OK)
    && (forall i :: 0 <= i < |es| ==> EdgeCode(us, es, i) == OK)
  }

  lemma PassingTables(t: Tables)
    requires t.Sized() && TablesCode(t) == OK
    ensures AllPass(t.Units(), t.Binds(), t.Edges())
  {
    var us, bs, es := t.Units(), t.Binds(), t.Edges();
    NoneBad(UnitCodes(us));
    NoneBad(BindCodes(us, bs));
    NoneBad(EdgeCodes(us, es));
    hide UnitCode, BindCode, EdgeCode, FirstBad;
    forall i | 0 <= i < |us| ensures UnitCode(us, i) == OK { assert UnitCodes(us)[i] == OK; }
    forall i | 0 <= i < |bs| ensures BindCode(us, bs[i]) == OK { assert BindCodes(us, bs)[i] == OK; }
    forall i | 0 <= i < |es| ensures EdgeCode(us, es, i) == OK { assert EdgeCodes(us, es)[i] == OK; }
  }

  lemma PassingUnit(us: seq<RawUnit>, i: nat)
    requires i < |us| && UnitCode(us, i) == OK
    ensures UnitOk(DecodeUnit(us[i]))
    ensures forall j :: 0 <= j < i ==> DecodeUnit(us[j]).name != DecodeUnit(us[i]).name
    ensures DecodeUnit(us[i]).layer != [] ==>
              forall j :: 0 <= j < i ==> DecodeUnit(us[j]).layer != DecodeUnit(us[i]).layer
  {
    hide UnitErr, UnitOk;
    AcceptedUnitOk(us[i]);
    forall j | 0 <= j < i
      ensures DecodeUnit(us[j]).name != DecodeUnit(us[i]).name
      ensures DecodeUnit(us[i]).layer != [] ==> DecodeUnit(us[j]).layer != DecodeUnit(us[i]).layer
    {
      assert !SameName(us, j, i);
      LayerStarts(us[i]);
      LayerStarts(us[j]);
      assert Layer(us[i])[0] != 0 ==> !SameLayer(us, j, i);
    }
  }

  lemma LayerStarts(u: RawUnit)
    ensures DecodeUnit(u).layer != [] <==> Layer(u)[0] != 0
  {
  }

  lemma PassingUnits(us: seq<RawUnit>, p: Plan)
    requires forall i :: 0 <= i < |us| ==> UnitCode(us, i) == OK
    requires |p.units| == |us| && forall i :: 0 <= i < |us| ==> p.units[i] == DecodeUnit(us[i])
    ensures forall i :: 0 <= i < |p.units| ==> UnitOk(p.units[i])
    ensures forall i, j :: 0 <= i < j < |p.units| ==> p.units[i].name != p.units[j].name
    ensures forall i, j :: 0 <= i < j < |p.units| && p.units[j].layer != [] ==> p.units[i].layer != p.units[j].layer
  {
    hide UnitCode, UnitOk, DecodeUnit;
    forall j | 0 <= j < |us|
      ensures UnitOk(p.units[j])
      ensures forall i :: 0 <= i < j ==> p.units[i].name != p.units[j].name
      ensures p.units[j].layer != [] ==> forall i :: 0 <= i < j ==> p.units[i].layer != p.units[j].layer
    {
      PassingUnit(us, j);
    }
  }

  lemma PassingBind(us: seq<RawUnit>, b: RawBind, p: Plan)
    requires BindCode(us, b) == OK
    requires |p.units| == |us| && forall i :: 0 <= i < |us| ==> p.units[i] == DecodeUnit(us[i])
    ensures BindOk(p, DecodeBind(b)) && PathField(BindPath(b))
  {
  }

  lemma PassingEdge(us: seq<RawUnit>, es: seq<RawEdge>, i: nat, p: Plan)
    requires i < |es| && EdgeCode(us, es, i) == OK
    requires |p.units| == |us| && forall k :: 0 <= k < |us| ==> p.units[k] == DecodeUnit(us[k])
    requires forall k :: 0 <= k < |us| ==> UnitOk(p.units[k])
    ensures EdgeOk(p, DecodeEdge(es[i]))
    ensures forall j :: 0 <= j < i ==> !SamePair(DecodeEdge(es[j]), DecodeEdge(es[i]))
  {
    hide DecodeUnit;
    LockDecodes(us[EdgeA(es[i])]);
    LockDecodes(us[EdgeB(es[i])]);
    assert UnitOk(p.units[EdgeA(es[i])]) && UnitOk(p.units[EdgeB(es[i])]);
    forall j | 0 <= j < i ensures !SamePair(DecodeEdge(es[j]), DecodeEdge(es[i])) {
      assert !SameEnds(es[i], es[j]);
    }
  }

  lemma LockDecodes(u: RawUnit)
    ensures DecodeUnit(u).lock == Lock(u)
  {
  }

  /** Tables that pass decode to a well-formed plan. */
  lemma PassingIsWellFormed(us: seq<RawUnit>, bs: seq<RawBind>, es: seq<RawEdge>)
    requires AllPass(us, bs, es)
    requires 1 <= |us| <= MAX_UNITS && |bs| <= MAX_BINDS && |es| <= MAX_EDGES
    ensures WellFormed(DecodeTables(us, bs, es))
  {
    var p := DecodeTables(us, bs, es);
    hide DecodeUnit, UnitCode, BindCode, EdgeCode, UnitOk, BindOk, EdgeOk, SamePair;
    PassingUnits(us, p);
    forall i | 0 <= i < |bs| ensures BindOk(p, p.binds[i]) {
      PassingBind(us, bs[i], p);
    }
    forall j | 0 <= j < |es|
      ensures EdgeOk(p, p.edges[j])
      ensures forall i :: 0 <= i < j ==> !SamePair(p.edges[i], p.edges[j])
    {
      PassingEdge(us, es, j, p);
    }
  }

  /* The bytes come back. */

  /** The three tables of a blob of the right size. */
  ghost function UnitRegion(t: Tables): Bytes
    requires t.Sized()
  {
    t.blob[HDR_SIZE..BindsAt(t)]
  }

  function BindsAt(t: Tables): nat {
    HDR_SIZE + t.nu * UNIT_SIZE
  }

  function EdgesAt(t: Tables): nat {
    BindsAt(t) + t.nb * BIND_SIZE
  }

  ghost function BindRegion(t: Tables): Bytes
    requires t.Sized()
  {
    t.blob[BindsAt(t)..EdgesAt(t)]
  }

  ghost function EdgeRegion(t: Tables): Bytes
    requires t.Sized()
  {
    t.blob[EdgesAt(t)..]
  }

  lemma RegionsJoin(t: Tables)
    requires t.Sized()
    ensures Join(t.Units()) == UnitRegion(t) && Join(t.Binds()) == BindRegion(t) && Join(t.Edges()) == EdgeRegion(t)
    ensures t.blob[HDR_SIZE..] == UnitRegion(t) + BindRegion(t) + EdgeRegion(t)
  {
    hide Join, Tables.Units, Tables.Binds, Tables.Edges;
    var unitsAt, bindsAt, edgesAt := HDR_SIZE, BindsAt(t), EdgesAt(t);
    UnitsLie(t);
    RecordsJoin(t.blob, unitsAt, bindsAt, UNIT_SIZE, t.Units());
    BindsLie(t);
    RecordsJoin(t.blob, bindsAt, edgesAt, BIND_SIZE, t.Binds());
    EdgesLie(t);
    RecordsJoin(t.blob, edgesAt, |t.blob|, EDGE_SIZE, t.Edges());
    FourParts(t.blob, unitsAt, bindsAt, edgesAt);
  }

  /** Record `k` of a table that starts at `at`. */
  ghost predicate LiesAt(b: Bytes, at: nat, size: nat, fs: seq<Bytes>, k: nat)
    requires k < |fs|
  {
    at + k * size + size <= |b| && fs[k] == b[at + k * size..at + k * size + size]
  }

  lemma UnitsLie(t: Tables)
    requires t.Sized()
    ensures forall k: nat :: k < t.nu ==> LiesAt(t.blob, HDR_SIZE, UNIT_SIZE, t.Units(), k)
  {
    forall k: nat | k < t.nu ensures LiesAt(t.blob, HDR_SIZE, UNIT_SIZE, t.Units(), k) {
      assert t.Units()[k] == t.Unit(k);
    }
  }

  lemma BindsLie(t: Tables)
    requires t.Sized()
    ensures forall k: nat :: k < t.nb ==> LiesAt(t.blob, BindsAt(t), BIND_SIZE, t.Binds(), k)
  {
    var at := BindsAt(t);
    forall k: nat | k < t.nb ensures LiesAt(t.blob, at, BIND_SIZE, t.Binds(), k) {
      assert t.Binds()[k] == t.Bind(k);
    }
  }

  lemma EdgesLie(t: Tables)
    requires t.Sized()
    ensures forall k: nat :: k < t.ne ==> LiesAt(t.blob, EdgesAt(t), EDGE_SIZE, t.Edges(), k)
  {
    var at := EdgesAt(t);
    forall k: nat | k < t.ne ensures LiesAt(t.blob, at, EDGE_SIZE, t.Edges(), k) {
      assert t.Edges()[k] == t.Edge(k);
    }
  }

  lemma RecordsJoin(b: Bytes, at: nat, end: nat, size: nat, fs: seq<Bytes>)
    requires at <= end <= |b| && end - at == |fs| * size
    requires forall k: nat :: k < |fs| ==> LiesAt(b, at, size, fs, k)
    ensures Join(fs) == b[at..end]
  {
    hide Join, LiesAt, RecordIs;
    forall k: nat | k < |fs| ensures RecordIs(b[at..end], size, fs, k) {
      RecordLies(b, at, end, size, fs, k);
    }
    TableJoins(b[at..end], size, fs);
  }

  lemma RecordLies(b: Bytes, at: nat, end: nat, size: nat, fs: seq<Bytes>, k: nat)
    requires at <= end <= |b| && end - at == |fs| * size && k < |fs| && LiesAt(b, at, size, fs, k)
    ensures RecordIs(b[at..end], size, fs, k)
  {
    RecordInside(k, |fs|, size);
    SliceOfSlice(b, at, end, k * size, k * size + size);
  }

  lemma RecordInside(k: nat, n: nat, size: nat)
    requires k < n
    ensures k * size + size <= n * size
  {
    assert n * size == (k + 1) * size + (n - k - 1) * size;
    assert (k + 1) * size == k * size + size;
  }

  lemma FourParts(b: Bytes, i: nat, j: nat, k: nat)
    requires i <= j <= k <= |b|
    ensures b[i..] == b[i..j] + b[j..k] + b[k..]
  {
  }

  /** Re-encoding each record of passing tables gives the record. */
  lemma RecordsBack(us: seq<RawUnit>, bs: seq<RawBind>, es: seq<RawEdge>)
    requires AllPass(us, bs, es)
    ensures var p := DecodeTables(us, bs, es);
            PackablePlan(p) && UnitTable(p) == us && BindTable(p) == bs && EdgeTable(p) == es
  {
    var p := DecodeTables(us, bs, es);
    hide DecodeUnit, EncodeUnit, EncodeBind, EncodeEdge, Packable, UnitErr, EdgeCode;
    forall i | 0 <= i < |us| ensures Packable(p.units[i]) && EncodeUnit(p.units[i]) == us[i] {
      assert UnitCode(us, i) == OK;
      EncodeDecodedUnit(us[i]);
    }
    forall i | 0 <= i < |bs| ensures |p.binds[i].path| <= PATH_LEN && EncodeBind(p.binds[i]) == bs[i] {
      PassingBindBack(us, bs[i]);
    }
    forall i | 0 <= i < |es| ensures EncodeEdge(p.edges[i]) == es[i] {
      EncodeDecodedEdge(es[i]);
    }
    assert UnitTable(p) == us;
    assert BindTable(p) == bs;
    assert EdgeTable(p) == es;
  }

  lemma PassingBindBack(us: seq<RawUnit>, b: RawBind)
    requires BindCode(us, b) == OK
    ensures |DecodeBind(b).path| <= PATH_LEN && EncodeBind(DecodeBind(b)) == b
  {
    EncodeDecodedBind(b);
  }

  /** The header of a blob with the right magic, from its own numbers. */
  lemma HeaderBack(b: Bytes)
    requires |b| >= HDR_SIZE && b[..8] == MAGIC
    ensures var t := TablesOf(b);
            b[..HDR_SIZE] == Header(t.nu, t.nb, t.ne, Num(b, 20, 4)) && ZeroedHeader(b) == Header(t.nu, t.nb, t.ne, 0)
  {
    hide LeVal, Le;
    LeLeVal(b[8..12]);
    LeLeVal(b[12..16]);
    LeLeVal(b[16..20]);
    LeLeVal(b[20..24]);
    HeaderOf(b, b[20..24]);
    ZeroesOf(b);
  }

  /** The header whose counts `b` has, with the four checksum bytes `crc`. */
  lemma HeaderOf(b: Bytes, crc: Bytes)
    requires |b| >= HDR_SIZE && b[..8] == MAGIC && crc == b[20..24]
    ensures b[..HDR_SIZE] == MAGIC + b[8..12] + b[12..16] + b[16..20] + crc
    ensures b[..20] == MAGIC + b[8..12] + b[12..16] + b[16..20]
  {
  }

  lemma ZeroesOf(b: Bytes)
    requires |b| >= HDR_SIZE
    ensures ZeroedHeader(b) == b[..20] + Le(0, 4)
  {
    assert Le(0, 4) == [0, 0, 0, 0];
  }

  /** Every accepted blob is the canonical encoding of the well-formed plan it decodes to. */
  lemma AcceptedIsCanonical(b: Bytes)
    requires Verdict(b) == OK
    ensures |b| >= HDR_SIZE && |b| == BlobSize(TablesOf(b).nu, TablesOf(b).nb, TablesOf(b).ne)
    ensures WellFormed(Decode(b)) && PackablePlan(Decode(b)) && Encode(Decode(b)) == b
  {
    hide TablesCode, WellFormed, PackablePlan, DecodeTables, UnitTable, BindTable, EdgeTable, Join, LeVal;
    var t := TablesOf(b);
    assert t.Sized();
    var us, bs, es := t.Units(), t.Binds(), t.Edges();
    PassingTables(t);
    PassingIsWellFormed(us, bs, es);
    RecordsBack(us, bs, es);
    RegionsJoin(t);
    HeaderBack(b);
    CountsBack(us, bs, es);
    assert Body(Decode(b)) == b[HDR_SIZE..];
    assert b == b[..HDR_SIZE] + b[HDR_SIZE..];
  }

  lemma CountsBack(us: seq<RawUnit>, bs: seq<RawBind>, es: seq<RawEdge>)
    ensures var p := DecodeTables(us, bs, es); |p.units| == |us| && |p.binds| == |bs| && |p.edges| == |es|
  {
  }

  /* Every canonical encoding is accepted. */

  lemma HeaderNums(nu: nat, nb: nat, ne: nat, crc: nat, body: Bytes)
    requires nu < 0x1_0000_0000 && nb < 0x1_0000_0000 && ne < 0x1_0000_0000 && crc < 0x1_0000_0000
    ensures var b := Header(nu, nb, ne, crc) + body;
            && |Header(nu, nb, ne, crc)| == HDR_SIZE && b[..8] == MAGIC && b[HDR_SIZE..] == body
            && Num(b, 8, 4) == nu && Num(b, 12, 4) == nb && Num(b, 16, 4) == ne && Num(b, 20, 4) == crc
            && ZeroedHeader(b) == Header(nu, nb, ne, 0)
  {
    Pow256Values();
    hide LeVal, Pow256;
    var b := Header(nu, nb, ne, crc) + body;
    assert b[8..12] == Le(nu, 4) && b[12..16] == Le(nb, 4) && b[16..20] == Le(ne, 4) && b[20..24] == Le(crc, 4);
    LeValLe(nu, 4);
    LeValLe(nb, 4);
    LeValLe(ne, 4);
    LeValLe(crc, 4);
    assert Le(0, 4) == [0, 0, 0, 0];
    assert b[..20] == MAGIC + Le(nu, 4) + Le(nb, 4) + Le(ne, 4);
  }

  lemma ChecksumFits(nu: nat, nb: nat, ne: nat, body: Bytes)
    ensures Checksum(nu, nb, ne, body) < 0x1_0000_0000
  {
    hide Crc.Crc32;
  }

  /** A plan whose records have their sizes, well formed or not. */
  ghost predicate Tabular(p: Plan) {
    && PackablePlan(p) && |p.units| <= MAX_UNITS && |p.binds| <= MAX_BINDS && |p.edges| <= MAX_EDGES
    && forall k :: 0 <= k < |p.units| ==> |p.units[k].brick| == BRICK_HASH
  }

  lemma WellFormedTabular(p: Plan)
    requires WellFormed(p)
    ensures Tabular(p)
  {
    WellFormedPackable(p);
    hide Packable;
  }

  lemma RecordSizes(p: Plan)
    requires Tabular(p)
    ensures forall k :: 0 <= k < |p.units| ==> |UnitTable(p)[k]| == UNIT_SIZE
    ensures forall k :: 0 <= k < |p.binds| ==> |BindTable(p)[k]| == BIND_SIZE
    ensures forall k :: 0 <= k < |p.edges| ==> |EdgeTable(p)[k]| == EDGE_SIZE
  {
    hide EncodeUnit;
    forall k | 0 <= k < |p.units| ensures |UnitTable(p)[k]| == UNIT_SIZE {
      EncodedUnitSize(p.units[k]);
    }
  }

  /** A slice of a region of the body, seen from the blob. */
  lemma SliceInBody(b: Bytes, body: Bytes, region: Bytes, from: nat, at: nat, size: nat)
    requires |b| == HDR_SIZE + |body| && b[HDR_SIZE..] == body
    requires from + |region| <= |body| && body[from..from + |region|] == region
    requires at + size <= |region|
    ensures b[HDR_SIZE + from + at..HDR_SIZE + from + at + size] == region[at..at + size]
  {
    var x := b[HDR_SIZE + from + at..HDR_SIZE + from + at + size];
    var y := region[at..at + size];
    forall i | 0 <= i < size ensures x[i] == y[i] {
      assert x[i] == body[from + at + i];
      assert y[i] == body[from..from + |region|][at + i];
    }
  }

  /** The regions of an encoded plan. */
  lemma EncodedRegions(p: Plan)
    requires Tabular(p)
    ensures |Join(UnitTable(p))| == |p.units| * UNIT_SIZE
    ensures |Join(BindTable(p))| == |p.binds| * BIND_SIZE
    ensures |Join(EdgeTable(p))| == |p.edges| * EDGE_SIZE
  {
    RecordSizes(p);
    TableSize(UnitTable(p), UNIT_SIZE);
    TableSize(BindTable(p), BIND_SIZE);
    TableSize(EdgeTable(p), EDGE_SIZE);
  }

  lemma EncodedHeader(p: Plan)
    requires Tabular(p)
    ensures var b := Encode(p);
            && |b| >= HDR_SIZE && TablesOf(b) == Tables(b, |p.units|, |p.binds|, |p.edges|) && TablesOf(b).Sized()
            && b[..8] == MAGIC && b[HDR_SIZE..] == Body(p)
            && Crc.Crc32(ZeroedHeader(b) + b[HDR_SIZE..]) as nat == Num(b, 20, 4)
  {
    EncodedRegions(p);
    hide Packable, UnitTable, BindTable, EdgeTable, Join, LeVal, Crc.Crc32;
    var nu, nb, ne := |p.units|, |p.binds|, |p.edges|;
    var body := Body(p);
    ChecksumFits(nu, nb, ne, body);
    CountsFit(p);
    HeaderNums(nu, nb, ne, Checksum(nu, nb, ne, body), body);
  }

  lemma CountsFit(p: Plan)
    requires Tabular(p)
    ensures |p.units| <= MAX_UNITS && |p.binds| <= MAX_BINDS && |p.edges| <= MAX_EDGES
  {
  }

  /** Record `k` of a table that starts `|pre|` bytes into the body. */
  lemma RecordSeen(b: Bytes, pre: Bytes, fs: seq<Bytes>, rest: Bytes, size: nat, k: nat)
    requires |b| >= HDR_SIZE && b[HDR_SIZE..] == pre + Join(fs) + rest
    requires forall i :: 0 <= i < |fs| ==> |fs[i]| == size
    requires k < |fs|
    ensures HDR_SIZE + |pre| + k * size + size <= |b|
    ensures b[HDR_SIZE + |pre| + k * size..HDR_SIZE + |pre| + k * size + size] == fs[k]
  {
    TableAt(fs, size, k);
    hide Join;
    SliceInBody(b, pre + Join(fs) + rest, Join(fs), |pre|, k * size, size);
  }

  lemma UnitsSeen(t: Tables, fs: seq<Bytes>, rest: Bytes)
    requires t.Sized() && |fs| == t.nu && t.blob[HDR_SIZE..] == Join(fs) + rest
    requires forall i :: 0 <= i < |fs| ==> |fs[i]| == UNIT_SIZE
    ensures t.Units() == fs
  {
    hide Join;
    assert t.blob[HDR_SIZE..] == [] + Join(fs) + rest;
    forall k | 0 <= k < t.nu ensures t.Unit(k) == fs[k] {
      RecordSeen(t.blob, [], fs, rest, UNIT_SIZE, k);
    }
  }

  lemma BindsSeen(t: Tables, pre: Bytes, fs: seq<Bytes>, rest: Bytes)
    requires t.Sized() && |fs| == t.nb && |pre| == t.nu * UNIT_SIZE && t.blob[HDR_SIZE..] == pre + Join(fs) + rest
    requires forall i :: 0 <= i < |fs| ==> |fs[i]| == BIND_SIZE
    ensures t.Binds() == fs
  {
    hide Join;
    forall k | 0 <= k < t.nb ensures t.Bind(k) == fs[k] {
      RecordSeen(t.blob, pre, fs, rest, BIND_SIZE, k);
    }
  }

  lemma EdgesSeen(t: Tables, pre: Bytes, fs: seq<Bytes>)
    requires t.Sized() && |fs| == t.ne && |pre| == t.nu * UNIT_SIZE + t.nb * BIND_SIZE
    requires t.blob[HDR_SIZE..] == pre + Join(fs)
    requires forall i :: 0 <= i < |fs| ==> |fs[i]| == EDGE_SIZE
    ensures t.Edges() == fs
  {
    hide Join;
    assert t.blob[HDR_SIZE..] == pre + Join(fs) + [];
    forall k | 0 <= k < t.ne ensures t.Edge(k) == fs[k] {
      RecordSeen(t.blob, pre, fs, [], EDGE_SIZE, k);
    }
  }

  lemma ThreeTables(t: Tables, us: seq<Bytes>, bs: seq<Bytes>, es: seq<Bytes>)
    requires t.Sized() && |us| == t.nu && |bs| == t.nb && |es| == t.ne
    requires t.blob[HDR_SIZE..] == Join(us) + Join(bs) + Join(es)
    requires forall i :: 0 <= i < |us| ==> |us[i]| == UNIT_SIZE
    requires forall i :: 0 <= i < |bs| ==> |bs[i]| == BIND_SIZE
    requires forall i :: 0 <= i < |es| ==> |es[i]| == EDGE_SIZE
    ensures t.Units() == us && t.Binds() == bs && t.Edges() == es
  {
    TableSize(us, UNIT_SIZE);
    TableSize(bs, BIND_SIZE);
    var x, y, z := Join(us), Join(bs), Join(es);
    hide Join;
    assert t.blob[HDR_SIZE..] == x + (y + z) == x + y + z == (x + y) + z;
    UnitsSeen(t, us, y + z);
    BindsSeen(t, x, bs, z);
    EdgesSeen(t, x + y, es);
  }

  /** The tables of an encoded plan are its encoded records. */
  lemma EncodedTables(p: Plan)
    requires Tabular(p)
    ensures |Encode(p)| >= HDR_SIZE && TablesOf(Encode(p)).Sized()
    ensures var t := TablesOf(Encode(p));
            t.Units() == UnitTable(p) && t.Binds() == BindTable(p) && t.Edges() == EdgeTable(p)
  {
    hide Encode, UnitTable, BindTable, EdgeTable, Join, TablesOf, Packable, LeVal, Crc.Crc32;
    EncodedHeader(p);
    RecordSizes(p);
    TableSizes(p);
    ThreeTables(TablesOf(Encode(p)), UnitTable(p), BindTable(p), EdgeTable(p));
  }

  lemma TableSizes(p: Plan)
    requires PackablePlan(p)
    ensures |UnitTable(p)| == |p.units| && |BindTable(p)| == |p.binds| && |EdgeTable(p)| == |p.edges|
  {
  }

  /* Encoded records pass. */

  lemma UnitPasses(p: Plan, us: seq<RawUnit>, i: nat)
    requires WellFormed(p) && PackablePlan(p) && us == UnitTable(p) && i < |us|
    ensures UnitCode(us, i) == OK
    ensures DecodeUnit(us[i]) == p.units[i]
  {
    hide EncodeUnit, UnitErr, UnitOk, Packable, DecodeUnit, BindOk, EdgeOk;
    EncodedUnitPasses(p.units[i]);
    DecodeEncodedUnit(p.units[i]);
    forall j | 0 <= j < i ensures !SameName(us, j, i) && (Layer(us[i])[0] != 0 ==> !SameLayer(us, j, i)) {
      DecodeEncodedUnit(p.units[j]);
      TextDecodes(us[j]);
      TextDecodes(us[i]);
      assert p.units[j].name != p.units[i].name;
    }
  }

  lemma TextDecodes(u: RawUnit)
    ensures DecodeUnit(u).name == CStr(Name(u)) && DecodeUnit(u).layer == CStr(Layer(u))
    ensures DecodeUnit(u).brick == Brick(u) && DecodeUnit(u).lock == Lock(u)
    ensures DecodeUnit(u).layer != [] <==> Layer(u)[0] != 0
  {
    LayerStarts(u);
  }

  lemma BindPasses(p: Plan, us: seq<RawUnit>, i: nat)
    requires WellFormed(p) && PackablePlan(p) && us == UnitTable(p) && i < |p.binds|
    ensures |EncodeBind(p.binds[i])| == BIND_SIZE && BindCode(us, EncodeBind(p.binds[i])) == OK
    ensures DecodeBind(EncodeBind(p.binds[i])) == p.binds[i]
  {
    hide EncodeUnit, EncodeBind, UnitErr, UnitOk, Packable, DecodeUnit, EdgeOk, CStr, Pad, PathOk, UnitCode;
    var x := p.binds[i];
    assert BindOk(p, x);
    DecodeEncodedBind(x);
    UnitPasses(p, us, x.unit);
    TextDecodes(us[x.unit]);
    PathNoNul(x.path);
    PathFits(x.path);
    PadCanonical(x.path, PATH_LEN);
  }

  lemma PathFits(s: Bytes)
    requires PathOk(s)
    ensures |s| <= PATH_LEN
  {
  }

  lemma EdgePasses(p: Plan, us: seq<RawUnit>, es: seq<RawEdge>, i: nat)
    requires WellFormed(p) && PackablePlan(p) && us == UnitTable(p) && es == EdgeTable(p) && i < |p.edges|
    ensures EdgeCode(us, es, i) == OK && DecodeEdge(es[i]) == p.edges[i]
  {
    hide EncodeUnit, UnitErr, UnitOk, Packable, DecodeUnit, UnitCode, BindOk, EncodeEdge, UnitTable;
    var e := p.edges[i];
    assert EdgeOk(p, e);
    DecodeEncodedEdge(e);
    assert |us| == |p.units| by { TableSizes(p); }
    UnitPasses(p, us, e.a);
    UnitPasses(p, us, e.b);
    TextDecodes(us[e.a]);
    TextDecodes(us[e.b]);
    forall j | 0 <= j < i ensures !SameEnds(es[i], es[j]) {
      assert EdgeOk(p, p.edges[j]) && !SamePair(p.edges[j], e);
      DecodeEncodedEdge(p.edges[j]);
    }
  }

  lemma {:induction false} AllGood(codes: seq<Code>)
    requires forall k :: 0 <= k < |codes| ==> codes[k] == OK
    ensures FirstBad(codes) == OK
  {
    FirstBadIs(codes, |codes|);
  }

  /** The canonical encoding of every well-formed plan is accepted, and decodes to the plan. */
  lemma CanonicalIsAccepted(p: Plan)
    requires WellFormed(p)
    ensures PackablePlan(p) && Verdict(Encode(p)) == OK
    ensures |Encode(p)| >= HDR_SIZE && TablesOf(Encode(p)).Sized() && Decode(Encode(p)) == p
  {
    WellFormedPackable(p);
    WellFormedTabular(p);
    EncodedHeader(p);
    EncodedTables(p);
    CountsFit(p);
    var b := Encode(p);
    var t := TablesOf(b);
    var us, bs, es := t.Units(), t.Binds(), t.Edges();
    TablesPass(p, us, bs, es);
    hide Encode, UnitTable, BindTable, EdgeTable, WellFormed, Crc.Crc32, ZeroedHeader, UnitCodes, BindCodes, EdgeCodes,
      DecodeTables, TablesOf;
    assert TablesCode(t) == OK;
    assert Verdict(b) == OK by { VerdictOk(b); }
  }

  lemma VerdictOk(b: Bytes)
    requires |b| >= HDR_SIZE && b[..8] == MAGIC && TablesOf(b).Sized()
    requires 1 <= TablesOf(b).nu <= MAX_UNITS && TablesOf(b).nb <= MAX_BINDS && TablesOf(b).ne <= MAX_EDGES
    requires Crc.Crc32(ZeroedHeader(b) + b[HDR_SIZE..]) as nat == Num(b, 20, 4)
    requires TablesCode(TablesOf(b)) == OK
    ensures Verdict(b) == OK
  {
    hide TablesCode, Crc.Crc32, ZeroedHeader, LeVal;
  }

  lemma TablesPass(p: Plan, us: seq<RawUnit>, bs: seq<RawBind>, es: seq<RawEdge>)
    requires WellFormed(p) && PackablePlan(p)
    requires us == UnitTable(p) && bs == BindTable(p) && es == EdgeTable(p)
    ensures FirstBad(UnitCodes(us)) == OK && FirstBad(BindCodes(us, bs)) == OK && FirstBad(EdgeCodes(us, es)) == OK
    ensures DecodeTables(us, bs, es) == p && |p.units| >= 1
  {
    hide UnitCode, BindCode, EdgeCode, EncodeUnit, EncodeBind, EncodeEdge, UnitOk, BindOk, EdgeOk, DecodeUnit,
         DecodeBind,
      DecodeEdge, Packable, FirstBad;
    forall k | 0 <= k < |us| ensures UnitCodes(us)[k] == OK && DecodeUnit(us[k]) == p.units[k] {
      UnitPasses(p, us, k);
    }
    AllGood(UnitCodes(us));
    forall k | 0 <= k < |bs| ensures BindCodes(us, bs)[k] == OK && DecodeBind(bs[k]) == p.binds[k] {
      BindPasses(p, us, k);
    }
    AllGood(BindCodes(us, bs));
    forall k | 0 <= k < |es| ensures EdgeCodes(us, es)[k] == OK && DecodeEdge(es[k]) == p.edges[k] {
      EdgePasses(p, us, es, k);
    }
    AllGood(EdgeCodes(us, es));
    assert DecodeTables(us, bs, es) == p;
  }

  /** nw_check's acceptance, in full. */
  lemma AcceptedIff(b: Bytes)
    ensures Verdict(b) == OK <==> exists p :: WellFormed(p) && PackablePlan(p) && Encode(p) == b
  {
    if Verdict(b) == OK {
      AcceptedIsCanonical(b);
    }
    forall p | WellFormed(p) && PackablePlan(p) && Encode(p) == b ensures Verdict(b) == OK {
      CanonicalIsAccepted(p);
    }
  }

  /** Two accepted blobs that decode to the same plan are the same bytes. */
  lemma DecodeInjective(b: Bytes, c: Bytes)
    requires Verdict(b) == OK && Verdict(c) == OK
    requires |b| >= HDR_SIZE && TablesOf(b).Sized() && |c| >= HDR_SIZE && TablesOf(c).Sized()
    requires Decode(b) == Decode(c)
    ensures b == c
  {
    hide Verdict, Decode, Encode;
    AcceptedIsCanonical(b);
    AcceptedIsCanonical(c);
  }
}
