/** What nw-cc.py writes and what nwcheck.c accepts. */
module BakerCodec {
  import opened Bytes
  import opened Blob
  import opened Check
  import opened Codec
  import opened BlobCodec
  import opened Baker
  import opened BakerRules
  import Crc

  /** _is_layer_id. */
  predicate IsLayerId(s: Text) {
    0 < |s| < NAME_LEN && forall i :: 0 <= i < |s| ==> LetterOrDigit(s[i]) || s[i] == 95 || s[i] == 45
  }

  /** What load_city lets into a house, where it is narrower than what bake itself refuses. */
  predicate Shaped(h: House) {
    && (h.layer == [] || IsLayerId(h.layer))
    && 0 <= h.res.cpuWeight <= CPU_WEIGHT_MAX
    && NICE_MIN <= h.res.nice <= NICE_MAX
    && 0 <= h.res.schedPolicy <= SCHED_MAX
    && OOM_ADJ_MIN <= h.res.oomScoreAdj <= OOM_ADJ_MAX
    && (h.lock == LOCKED || h.lock == UNLOCKED)
    && 0 <= h.stopSignal <= STOPSIG_MAX
    && 0 <= h.gracePeriod <= GRACE_MAX_MS
    && h.supervisorDeathPolicy == 0
  }

  /** A string without its trailing NULs. */
  function Bare(s: Text): (t: Text)
    ensures |t| <= |s| && t == s[..|t|]
    ensures t != [] ==> t[|t| - 1] != 0
    ensures forall i :: |t| <= i < |s| ==> s[i] == 0
  {
    if s != [] && s[|s| - 1] == 0 then Bare(s[..|s| - 1]) else s
  }

  /** More than the root, and no control characters. */
  predicate PlainSpelling(p: Text) {
    |p| >= 2 && forall i :: 0 <= i < |p| ==> p[i] >= 32 && p[i] != 127
  }

  /** The same of what is left of a path when its trailing NULs are padding. */
  predicate PlainOnceBare(p: Text) {
    PlainSpelling(Bare(p)) && PathClean(Bare(p))
  }

  /** `p` is the program of a house or one of its binds. */
  ghost predicate NamesPath(hs: seq<House>, p: Text) {
    exists i :: 0 <= i < |hs| && (p == hs[i].exec || p in hs[i].binds)
  }

  /* Trailing NULs and padding. */

  function TrimUnit(u: Unit): Unit { u.(execPath := Bare(u.execPath)) }
  function TrimBind(b: Bind): Bind { b.(path := Bare(b.path)) }

  /** The plan with its paths bare. */
  function Trim(p: Plan): (q: Plan)
    ensures |q.units| == |p.units| && |q.binds| == |p.binds| && q.edges == p.edges
    ensures forall i :: 0 <= i < |p.units| ==> q.units[i] == TrimUnit(p.units[i])
    ensures forall k :: 0 <= k < |p.binds| ==> q.binds[k] == TrimBind(p.binds[k])
  {
    Plan(seq(|p.units|, i requires 0 <= i < |p.units| => TrimUnit(p.units[i])),
         seq(|p.binds|, k requires 0 <= k < |p.binds| => TrimBind(p.binds[k])),
         p.edges)
  }

  lemma BarePads(s: Bytes, n: nat)
    requires |s| <= n
    ensures Pad(Bare(s), n) == Pad(s, n)
  {
    var t := Bare(s);
    assert Pad(t, n) == t + Zeros(n - |t|);
    forall i | 0 <= i < n ensures Pad(t, n)[i] == Pad(s, n)[i] {
      if i < |t| {
        assert t[i] == s[i];
      } else if i < |s| {
        assert s[i] == 0;
      }
    }
  }

  /** Two texts that do not end in a NUL and pad alike are the same. */
  lemma SamePadding(t: Bytes, c: Bytes, n: nat)
    requires |t| <= n && |c| <= n && Pad(t, n) == Pad(c, n)
    requires (t != [] ==> t[|t| - 1] != 0) && (c != [] ==> c[|c| - 1] != 0)
    ensures t == c
  {
    var f, g := Pad(t, n), Pad(c, n);
    assert forall i :: |c| <= i < n ==> g[i] == 0;
    assert forall i :: |t| <= i < n ==> f[i] == 0;
    assert t == f[..|t|] && c == g[..|c|];
  }

  lemma BareUnique(s: Bytes, c: Bytes, n: nat)
    requires |s| <= n && |c| <= n && Pad(s, n) == Pad(c, n) && NoNul(c)
    ensures c == Bare(s)
  {
    BarePads(s, n);
    hide Pad;
    SamePadding(Bare(s), c, n);
  }

  lemma TrimUnitEncodes(u: Unit)
    requires Packable(u)
    ensures Packable(TrimUnit(u)) && EncodeUnit(TrimUnit(u)) == EncodeUnit(u)
  {
    BarePads(u.execPath, PATH_LEN);
    hide Pad, Bare, Le, Signed, Join;
    assert UnitFields(TrimUnit(u)) == UnitFields(u);
  }

  lemma TrimEncodes(p: Plan)
    requires PackablePlan(p)
    ensures PackablePlan(Trim(p)) && Encode(Trim(p)) == Encode(p)
  {
    hide Packable, EncodeUnit, Pad, Bare, Trim;
    var q := Trim(p);
    forall i | 0 <= i < |p.units| ensures Packable(q.units[i]) && EncodeUnit(q.units[i]) == EncodeUnit(p.units[i]) {
      TrimUnitEncodes(p.units[i]);
    }
    forall k | 0 <= k < |p.binds|
      ensures |q.binds[k].path| <= PATH_LEN && EncodeBind(q.binds[k]) == EncodeBind(p.binds[k])
    {
      BarePads(p.binds[k].path, PATH_LEN);
    }
    assert UnitTable(q) == UnitTable(p);
    assert BindTable(q) == BindTable(p);
    assert EdgeTable(q) == EdgeTable(p);
  }

  /* Plain paths make a well-formed plan. */

  lemma BrickIs(h: House)
    requires h.brick != [] ==> IsHex64(h.brick) && !ZeroHash(h.brick)
    ensures HasBrick(BrickBytes(h.brick)) <==> h.brick != []
  {
    if h.brick != [] { HexZero(h.brick); }
  }

  lemma NameIs(alnum: int -> bool, s: Text)
    requires IsAlnum(alnum) && NameShape(alnum, s) && Baker.Paddable(s, NAME_LEN)
    ensures NameOk(Ascii8(s))
  {
    forall i | 0 <= i < |s| ensures NameChar(Ascii8(s)[i]) {
      assert alnum(s[i]) <==> LetterOrDigit(s[i]);
    }
  }

  lemma LayerIs(s: Text)
    requires (s == [] || IsLayerId(s)) && Baker.Paddable(s, NAME_LEN)
    ensures s == [] || NameOk(Ascii8(s))
  {
  }

  lemma PathIs(p: Text)
    requires PlainOnceBare(p) && Baker.Paddable(p, PATH_LEN)
    ensures PathOk(Bare(Ascii8(p)))
  {
  }

  lemma UnitIs(alnum: int -> bool, h: House)
    requires IsAlnum(alnum) && Checked(alnum, h) && Encodable(h) && Shaped(h) && PlainOnceBare(h.exec)
    ensures UnitOk(TrimUnit(UnitOf(h)))
  {
    BrickIs(h);
    NameIs(alnum, h.name);
    LayerIs(h.layer);
    PathIs(h.exec);
    hide NameOk, PathOk, HasBrick, NameShape, IsHex64, ZeroHash, IsLayerId, PathClean, Bare, PlainOnceBare, FromHex,
         Split;
  }

  lemma {:induction false} MountsAll(hs: seq<House>, n: nat, i: nat, k: nat) returns (j: nat)
    requires i < n <= |hs| && k < |hs[i].binds|
    ensures j < |Mounts(hs, n)| && Mounts(hs, n)[j] == Mount(i, hs[i].binds[k])
  {
    if i == n - 1 {
      j := |Mounts(hs, n - 1)| + k;
    } else {
      j := MountsAll(hs, n - 1, i, k);
    }
  }

  /** A city as load_city leaves it. */
  ghost predicate City(alnum: int -> bool, hs: seq<House>) {
    IsAlnum(alnum) && forall i :: 0 <= i < |hs| ==> Shaped(hs[i])
  }

  ghost predicate PathsPlainOnceBare(hs: seq<House>) {
    forall p :: NamesPath(hs, p) ==> PlainOnceBare(p)
  }

  lemma HouseNames(hs: seq<House>, i: nat)
    requires i < |hs|
    ensures NamesPath(hs, hs[i].exec)
    ensures forall p :: p in hs[i].binds ==> NamesPath(hs, p)
  {
  }

  lemma UnitWell(alnum: int -> bool, hs: seq<House>, ws: seq<Wire>, p: Plan, i: nat)
    requires City(alnum, hs) && Accepts(alnum, hs, ws) && PathsPlainOnceBare(hs) && i < |hs|
    requires p == Trim(PlanOf(alnum, hs, ws)) && |p.units| == |hs|
    ensures UnitOk(p.units[i]) && p.units[i].lock == hs[i].lock
    ensures p.units[i].name == hs[i].name && p.units[i].layer == hs[i].layer
    ensures hs[i].brick != [] ==> HasBrick(p.units[i].brick)
  {
    hide Bare, UnitOk, HasBrick, NamesPath, PlainOnceBare, Packable, Shaped, WiresResolve, Mounts, IsAlnum, PathClean,
      NameShape, IsHex64, ZeroHash, Trim;
    HouseNames(hs, i);
    assert p.units[i] == TrimUnit(UnitOf(hs[i]));
    UnitIs(alnum, hs[i]);
    BrickIs(hs[i]);
  }

  lemma AcceptsDistinct(alnum: int -> bool, hs: seq<House>, ws: seq<Wire>)
    requires Accepts(alnum, hs, ws)
    ensures DistinctNames(hs) && DistinctLayers(hs)
  {
    hide Encodable, Checked, Mounts, Index, WiresResolve, DistinctNames, DistinctLayers;
  }

  lemma UnitsWell(alnum: int -> bool, hs: seq<House>, ws: seq<Wire>, p: Plan)
    requires City(alnum, hs) && Accepts(alnum, hs, ws) && PathsPlainOnceBare(hs)
    requires p == Trim(PlanOf(alnum, hs, ws))
    ensures |p.units| == |hs| && forall i :: 0 <= i < |hs| ==> UnitOk(p.units[i]) && p.units[i].lock == hs[i].lock
    ensures forall i :: 0 <= i < |hs| ==> hs[i].brick != [] ==> HasBrick(p.units[i].brick)
    ensures forall i, j :: 0 <= i < j < |p.units| ==> p.units[i].name != p.units[j].name
    ensures forall i, j :: 0 <= i < j < |p.units| && p.units[j].layer != [] ==> p.units[i].layer != p.units[j].layer
  {
    hide City, Accepts, PathsPlainOnceBare, Trim, PlanOf, UnitOk, HasBrick;
    Baker.PlanSizes(alnum, hs, ws);
    AcceptsDistinct(alnum, hs, ws);
    forall i | 0 <= i < |hs|
      ensures UnitOk(p.units[i]) && p.units[i].lock == hs[i].lock
      ensures p.units[i].name == hs[i].name && p.units[i].layer == hs[i].layer
      ensures hs[i].brick != [] ==> HasBrick(p.units[i].brick)
    {
      UnitWell(alnum, hs, ws, p, i);
    }
  }

  lemma BindsWell(alnum: int -> bool, hs: seq<House>, ws: seq<Wire>, p: Plan)
    requires City(alnum, hs) && Accepts(alnum, hs, ws) && PathsPlainOnceBare(hs)
    requires p == Trim(PlanOf(alnum, hs, ws))
    ensures |p.units| == |hs| && |p.binds| == |Mounts(hs, |hs|)|
    ensures forall k :: 0 <= k < |p.binds| ==>
              p.binds[k].unit < |hs| && hs[p.binds[k].unit].brick != [] && PathOk(p.binds[k].path)
  {
    hide Bare, UnitOk, HasBrick, NamesPath, PlainOnceBare, Encodable, Shaped, WiresResolve, Mounts, IsAlnum, PathClean,
      NameShape, IsHex64, ZeroHash, Trim, PathOk;
    var ms := Mounts(hs, |hs|);
    forall k | 0 <= k < |p.binds|
      ensures p.binds[k].unit < |hs| && hs[p.binds[k].unit].brick != [] && PathOk(p.binds[k].path)
    {
      var m := ms[k];
      HouseNames(hs, m.unit);
      assert Checked(alnum, hs[m.unit]);
      PathIs(m.path);
    }
  }

  lemma PairIs(e: Edge, f: Edge)
    requires Pair(e) != Pair(f)
    ensures !SamePair(e, f)
  {
  }

  lemma EdgesWell(alnum: int -> bool, hs: seq<House>, ws: seq<Wire>, p: Plan)
    requires City(alnum, hs) && Accepts(alnum, hs, ws)
    requires p == Trim(PlanOf(alnum, hs, ws)) && |p.units| == |hs|
    requires forall i :: 0 <= i < |hs| ==> p.units[i].lock == hs[i].lock
    ensures |p.edges| == |ws|
    ensures forall k :: 0 <= k < |p.edges| ==> EdgeOk(p, p.edges[k])
    ensures forall j, k :: 0 <= j < k < |p.edges| ==> !SamePair(p.edges[j], p.edges[k])
  {
    hide Bare, UnitOf, NamesPath, PlainOnceBare, Encodable, Mounts, IsAlnum, Trim, SamePair, Pair, Checked, PathClean;
    var es := EdgesOf(Index(hs, |hs|), ws);
    forall k | 0 <= k < |es| ensures EdgeOk(p, es[k]) {
      assert WireEnds(Index(hs, |hs|), ws[k]);
      assert NoneUnlocked(hs, es[k]);
      assert Shaped(hs[es[k].a]) && Shaped(hs[es[k].b]);
    }
    forall j, k | 0 <= j < k < |es| ensures !SamePair(es[j], es[k]) {
      PairIs(es[j], es[k]);
    }
  }

  lemma TrimmedIsWellFormed(alnum: int -> bool, hs: seq<House>, ws: seq<Wire>)
    requires City(alnum, hs) && Accepts(alnum, hs, ws) && PathsPlainOnceBare(hs)
    ensures WellFormed(Trim(PlanOf(alnum, hs, ws)))
  {
    var p := Trim(PlanOf(alnum, hs, ws));
    hide Trim, PlanOf, Accepts, UnitOk, EdgeOk, SamePair, HasBrick, PathOk, City, PathsPlainOnceBare, Mounts;
    UnitsWell(alnum, hs, ws, p);
    BindsWell(alnum, hs, ws, p);
    EdgesWell(alnum, hs, ws, p);
    CountsWell(alnum, hs, ws, p);
    PartsMakeWhole(p);
  }

  lemma PartsMakeWhole(p: Plan)
    requires 1 <= |p.units| <= MAX_UNITS && |p.binds| <= MAX_BINDS && |p.edges| <= MAX_EDGES
    requires forall i :: 0 <= i < |p.units| ==> UnitOk(p.units[i])
    requires forall i, j :: 0 <= i < j < |p.units| ==> p.units[i].name != p.units[j].name
    requires forall i, j :: 0 <= i < j < |p.units| && p.units[j].layer != [] ==> p.units[i].layer != p.units[j].layer
    requires forall k :: 0 <= k < |p.binds| ==>
               p.binds[k].unit < |p.units| && PathOk(p.binds[k].path) && HasBrick(p.units[p.binds[k].unit].brick)
    requires forall k :: 0 <= k < |p.edges| ==> EdgeOk(p, p.edges[k])
    requires forall j, k :: 0 <= j < k < |p.edges| ==> !SamePair(p.edges[j], p.edges[k])
    ensures WellFormed(p)
  {
    hide UnitOk, EdgeOk, SamePair, HasBrick, PathOk;
  }

  lemma CountsWell(alnum: int -> bool, hs: seq<House>, ws: seq<Wire>, p: Plan)
    requires Accepts(alnum, hs, ws) && |p.units| == |hs| && |p.binds| == |Mounts(hs, |hs|)| && |p.edges| == |ws|
    ensures 1 <= |p.units| <= MAX_UNITS && |p.binds| <= MAX_BINDS && |p.edges| <= MAX_EDGES
  {
    hide Mounts, Encodable, Checked, PathClean, Index;
  }

  /* Accepted bytes came from plain paths. */

  lemma AcceptedText(s: Bytes, n: nat)
    requires |s| <= n && PathField(Pad(s, n))
    ensures PathOk(Bare(s))
  {
    var f := Pad(s, n);
    TextBack(f);
    CStrPrefix(f);
    BareUnique(s, CStr(f), n);
  }

  lemma AcceptedTables(p: Plan) returns (us: seq<RawUnit>, bs: seq<RawBind>, es: seq<RawEdge>)
    requires Tabular(p) && Verdict(Encode(p)) == OK
    ensures us == UnitTable(p) && bs == BindTable(p) && AllPass(us, bs, es)
  {
    EncodedTables(p);
    var t := TablesOf(Encode(p));
    AcceptedTablesPass(Encode(p));
    hide Encode, Verdict, AllPass, UnitTable, BindTable, EdgeTable, TablesOf, TablesCode, Tabular;
    PassingTables(t);
    us, bs, es := t.Units(), t.Binds(), t.Edges();
  }

  lemma AcceptedTablesPass(b: Bytes)
    requires Verdict(b) == OK
    ensures |b| >= HDR_SIZE && TablesOf(b).Sized() && TablesCode(TablesOf(b)) == OK
  {
    hide TablesCode, Crc.Crc32, LeVal, ZeroedHeader;
  }

  lemma AcceptedPaths(p: Plan, us: seq<RawUnit>, bs: seq<RawBind>, es: seq<RawEdge>)
    requires Tabular(p) && us == UnitTable(p) && bs == BindTable(p) && AllPass(us, bs, es)
    ensures forall i :: 0 <= i < |p.units| ==> PathOk(Bare(p.units[i].execPath))
    ensures forall k :: 0 <= k < |p.binds| ==> PathOk(Bare(p.binds[k].path))
  {
    TableSizes(p);
    forall i | 0 <= i < |p.units| ensures PathOk(Bare(p.units[i].execPath)) {
      UnitExec(p.units[i]);
      hide Bare, EncodeUnit, Pad, PathField, PathOk, Packable, EncodeBind, LayerErr, ResErr, TailErr, NameField;
      assert UnitCode(us, i) == OK;
      assert us[i] == EncodeUnit(p.units[i]);
      AcceptedText(p.units[i].execPath, PATH_LEN);
    }
    forall k | 0 <= k < |p.binds| ensures PathOk(Bare(p.binds[k].path)) {
      BindPathIs(p.binds[k]);
      hide Bare, EncodeUnit, Pad, PathField, PathOk, Packable, EncodeBind, UnitErr;
      assert BindCode(us, bs[k]) == OK;
      assert bs[k] == EncodeBind(p.binds[k]);
      AcceptedText(p.binds[k].path, PATH_LEN);
    }
  }

  lemma UnitExec(u: Unit)
    requires Packable(u) && |u.brick| == BRICK_HASH
    ensures |EncodeUnit(u)| == UNIT_SIZE && ExecPath(EncodeUnit(u)) == Pad(u.execPath, PATH_LEN)
  {
    UnitField(u, 1);
    hide EncodeUnit;
  }

  lemma BindPathIs(b: Bind)
    requires |b.path| <= PATH_LEN
    ensures |EncodeBind(b)| == BIND_SIZE && BindPath(EncodeBind(b)) == Pad(b.path, PATH_LEN)
  {
  }

  lemma BareIsPlain(p: Text)
    requires Baker.Paddable(p, PATH_LEN) && PathOk(Bare(Ascii8(p)))
    ensures PlainOnceBare(p)
  {
  }

  lemma PlanTabular(alnum: int -> bool, hs: seq<House>, ws: seq<Wire>)
    requires Accepts(alnum, hs, ws)
    ensures Tabular(PlanOf(alnum, hs, ws))
  {
    PlanPackable(alnum, hs, ws);
    hide Encodable, PathClean, Mounts, WiresResolve, Packable;
  }

  /** Where a named path went. */
  lemma PathWent(alnum: int -> bool, hs: seq<House>, ws: seq<Wire>, q: Text, p: Plan)
    requires Accepts(alnum, hs, ws) && NamesPath(hs, q) && p == PlanOf(alnum, hs, ws)
    ensures Baker.Paddable(q, PATH_LEN)
    ensures (exists i :: 0 <= i < |p.units| && p.units[i].execPath == Ascii8(q))
         || (exists k :: 0 <= k < |p.binds| && p.binds[k].path == Ascii8(q))
  {
    hide Checked, WiresResolve, Ascii8, Packable, PathClean, Mounts, BlockPacks, DistinctNames, DistinctLayers;
    var i :| 0 <= i < |hs| && (q == hs[i].exec || q in hs[i].binds);
    if q == hs[i].exec {
      assert Encodable(hs[i]);
      assert p.units[i].execPath == Ascii8(q);
    } else {
      var k :| 0 <= k < |hs[i].binds| && hs[i].binds[k] == q;
      var j := MountsAll(hs, |hs|, i, k);
      assert p.binds[j].path == Ascii8(q);
    }
  }

  lemma AcceptedArePlain(alnum: int -> bool, hs: seq<House>, ws: seq<Wire>)
    requires Accepts(alnum, hs, ws) && PackablePlan(PlanOf(alnum, hs, ws))
    requires Verdict(Encode(PlanOf(alnum, hs, ws))) == OK
    ensures PathsPlainOnceBare(hs)
  {
    var p := PlanOf(alnum, hs, ws);
    PlanTabular(alnum, hs, ws);
    var us, bs, es := AcceptedTables(p);
    AcceptedPaths(p, us, bs, es);
    hide Bare, Encode, Verdict, PathOk, PlainOnceBare, NamesPath, Accepts, PlanOf, Ascii8, AllPass, Tabular;
    forall q | NamesPath(hs, q) ensures PlainOnceBare(q) {
      PathWent(alnum, hs, ws, q, p);
      BareIsPlain(q);
    }
  }

  /** The checker accepts what the baker wrote exactly when every path is plain once bare; it then decodes to the
      plan with its paths bare. */
  lemma BakedIff(alnum: int -> bool, hs: seq<House>, ws: seq<Wire>)
    requires City(alnum, hs) && Accepts(alnum, hs, ws)
    ensures PackablePlan(PlanOf(alnum, hs, ws))
    ensures Verdict(Encode(PlanOf(alnum, hs, ws))) == OK <==> PathsPlainOnceBare(hs)
    ensures PathsPlainOnceBare(hs) ==>
              var b := Encode(PlanOf(alnum, hs, ws));
              |b| >= HDR_SIZE && TablesOf(b).Sized() && Decode(b) == Trim(PlanOf(alnum, hs, ws))
  {
    PlanPackable(alnum, hs, ws);
    var p := PlanOf(alnum, hs, ws);
    hide Encode, Verdict, Decode, Trim, PlanOf, Accepts, City, PathsPlainOnceBare, WellFormed, PackablePlan;
    if PathsPlainOnceBare(hs) {
      TrimmedIsWellFormed(alnum, hs, ws);
      TrimEncodes(p);
      CanonicalIsAccepted(Trim(p));
    }
    if Verdict(Encode(p)) == OK {
      AcceptedArePlain(alnum, hs, ws);
    }
  }

  ghost predicate NoPathHasNul(hs: seq<House>) {
    forall p :: NamesPath(hs, p) ==> forall i :: 0 <= i < |p| ==> p[i] != 0
  }

  ghost predicate PathsPlain(hs: seq<House>) {
    forall p :: NamesPath(hs, p) ==> PlainSpelling(p)
  }

  lemma NamedIsClean(alnum: int -> bool, hs: seq<House>, ws: seq<Wire>, p: Text)
    requires Accepts(alnum, hs, ws) && NamesPath(hs, p)
    ensures PathClean(p)
  {
    hide Encodable, PathClean, Mounts, WiresResolve;
    var i :| 0 <= i < |hs| && (p == hs[i].exec || p in hs[i].binds);
    assert Checked(alnum, hs[i]);
    if p in hs[i].binds {
      var k :| 0 <= k < |hs[i].binds| && hs[i].binds[k] == p;
      var j := MountsAll(hs, |hs|, i, k);
    }
  }

  lemma BareAlready(p: Text)
    requires forall i :: 0 <= i < |p| ==> p[i] != 0
    ensures Bare(p) == p
  {
  }

  lemma PlainAgrees(alnum: int -> bool, hs: seq<House>, ws: seq<Wire>)
    requires Accepts(alnum, hs, ws) && NoPathHasNul(hs)
    ensures PathsPlainOnceBare(hs) <==> PathsPlain(hs)
  {
    hide NamesPath, Accepts, PlainSpelling, PathClean, Bare;
    forall p | NamesPath(hs, p) ensures PlainOnceBare(p) <==> PlainSpelling(p) {
      NamedIsClean(alnum, hs, ws, p);
      BareAlready(p);
    }
    hide PlainOnceBare;
  }

  lemma TrimIsSame(alnum: int -> bool, hs: seq<House>, ws: seq<Wire>)
    requires Accepts(alnum, hs, ws) && NoPathHasNul(hs)
    ensures Trim(PlanOf(alnum, hs, ws)) == PlanOf(alnum, hs, ws)
  {
    hide PathClean, Encodable, Checked, WiresResolve, Mounts, Bare, NamesPath, DistinctNames, DistinctLayers, Trim;
    var p := PlanOf(alnum, hs, ws);
    var q := Trim(p);
    forall i | 0 <= i < |hs| ensures q.units[i] == p.units[i] {
      HouseNames(hs, i);
      assert p.units[i].execPath == hs[i].exec;
      BareAlready(hs[i].exec);
    }
    var ms := Mounts(hs, |hs|);
    forall k | 0 <= k < |ms| ensures q.binds[k] == p.binds[k] {
      HouseNames(hs, ms[k].unit);
      assert p.binds[k].path == ms[k].path;
      BareAlready(ms[k].path);
    }
    assert q.units == p.units && q.binds == p.binds;
  }

  /** From city to blob to plan: of what the baker writes, the checker refuses the root alone and control characters as
      a path, and nothing else; what it accepts decodes to the plan that was baked. */
  lemma BakeRoundTrip(alnum: int -> bool, hs: seq<House>, ws: seq<Wire>)
    requires City(alnum, hs) && Accepts(alnum, hs, ws) && NoPathHasNul(hs)
    ensures PackablePlan(PlanOf(alnum, hs, ws))
    ensures var b := Encode(PlanOf(alnum, hs, ws));
            && (Verdict(b) == OK <==> PathsPlain(hs))
            && (Verdict(b) == OK ==> |b| >= HDR_SIZE && TablesOf(b).Sized() && Decode(b) == PlanOf(alnum, hs, ws))
  {
    BakedIff(alnum, hs, ws);
    PlainAgrees(alnum, hs, ws);
    TrimIsSame(alnum, hs, ws);
    hide Encode, Verdict, Decode, Trim, PlanOf, Accepts, City, PathsPlainOnceBare, PathsPlain, PackablePlan;
  }

  /* What a baked blob tells, in the words of the city alone. */

  /** The paths bound into house `i`, in the order of the table. */
  function PathsOf(bs: seq<Bind>, i: nat): seq<Bytes> {
    if bs == [] then []
    else
      var n := |bs| - 1;
      PathsOf(bs[..n], i) + if bs[n].unit == i then [bs[n].path] else []
  }

  lemma MountsStep(hs: seq<House>, n: nat)
    requires 0 < n <= |hs|
    ensures var before, own := Mounts(hs, n - 1), hs[n - 1].binds;
            && |Mounts(hs, n)| == |before| + |own| && Mounts(hs, n)[..|before|] == before
            && forall k :: 0 <= k < |own| ==> Mounts(hs, n)[|before|..][k] == Mount(n - 1, own[k])
  {
  }

  /** The binds are those of the mounts, their paths bare. */
  ghost predicate BindsAre(bs: seq<Bind>, ms: seq<Mount>) {
    |bs| == |ms| && forall k :: 0 <= k < |bs| ==> bs[k].unit == ms[k].unit && bs[k].path == Bare(ms[k].path)
  }

  /** Binds of one house. */
  ghost predicate OwnBinds(bs: seq<Bind>, own: seq<Text>, unit: nat) {
    |bs| == |own| && forall k :: 0 <= k < |own| ==> bs[k].unit == unit && bs[k].path == Bare(own[k])
  }

  lemma BindsSplit(hs: seq<House>, n: nat, bs: seq<Bind>) returns (before: seq<Bind>, more: seq<Bind>)
    requires 0 < n <= |hs| && BindsAre(bs, Mounts(hs, n))
    ensures BindsAre(before, Mounts(hs, n - 1)) && OwnBinds(more, hs[n - 1].binds, n - 1) && bs == before + more
  {
    hide Mounts, Bare;
    MountsStep(hs, n);
    var ms, at := Mounts(hs, n), |Mounts(hs, n - 1)|;
    before, more := bs[..at], bs[at..];
    forall k | 0 <= k < at ensures before[k].unit == ms[..at][k].unit && before[k].path == Bare(ms[..at][k].path) {
      assert before[k] == bs[k];
    }
    forall k | 0 <= k < |more| ensures more[k].unit == ms[at..][k].unit && more[k].path == Bare(ms[at..][k].path) {
      assert more[k] == bs[at + k];
    }
  }

  ghost predicate InOrder(bs: seq<Bind>, n: nat) {
    && (forall j, k :: 0 <= j < k < |bs| ==> bs[j].unit <= bs[k].unit)
    && (forall k :: 0 <= k < |bs| ==> bs[k].unit < n)
  }

  lemma OrderMore(bs: seq<Bind>, more: seq<Bind>, own: seq<Text>, unit: nat)
    requires InOrder(bs, unit) && OwnBinds(more, own, unit)
    ensures InOrder(bs + more, unit + 1)
  {
    hide Bare;
  }

  lemma {:induction false} MountsInOrder(hs: seq<House>, n: nat, bs: seq<Bind>)
    requires n <= |hs| && BindsAre(bs, Mounts(hs, n))
    ensures InOrder(bs, n)
    decreases n
  {
    if n == 0 {
      assert Mounts(hs, 0) == [];
    } else {
      hide Mounts, BindsAre, OwnBinds, InOrder;
      var before, more := BindsSplit(hs, n, bs);
      MountsInOrder(hs, n - 1, before);
      OrderMore(before, more, hs[n - 1].binds, n - 1);
    }
  }

  /** `fs` are the paths `own`, bare. */
  ghost predicate ArePaths(fs: seq<Bytes>, own: seq<Text>) {
    |fs| == |own| && forall j :: 0 <= j < |own| ==> fs[j] == Bare(own[j])
  }

  lemma {:induction false} PathsOfMounts(hs: seq<House>, n: nat, bs: seq<Bind>, i: nat)
    requires n <= |hs| && i < |hs| && BindsAre(bs, Mounts(hs, n))
    ensures ArePaths(PathsOf(bs, i), if i < n then hs[i].binds else [])
    decreases n
  {
    hide Mounts, BindsAre, OwnBinds, ArePaths, PathsOf, Bare;
    if n == 0 {
      NoMounts(hs, bs, i);
    } else {
      var before, more := BindsSplit(hs, n, bs);
      PathsOfMounts(hs, n - 1, before, i);
      PathsOfTail(before, more, hs[n - 1].binds, n - 1, i);
      NoPaths(PathsOf(before, i));
    }
  }

  lemma NoMounts(hs: seq<House>, bs: seq<Bind>, i: nat)
    requires BindsAre(bs, Mounts(hs, 0))
    ensures ArePaths(PathsOf(bs, i), [])
  {
    assert Mounts(hs, 0) == [];
  }

  lemma NoPaths(fs: seq<Bytes>)
    ensures ArePaths(fs, []) <==> fs == []
  {
  }

  /** The binds of one house, all of them or none, added at the end. */
  lemma {:induction false} PathsOfTail(bs: seq<Bind>, more: seq<Bind>, own: seq<Text>, unit: nat, i: nat)
    requires OwnBinds(more, own, unit)
    ensures i != unit ==> PathsOf(bs + more, i) == PathsOf(bs, i)
    ensures i == unit && PathsOf(bs, i) == [] ==> ArePaths(PathsOf(bs + more, i), own)
    decreases |more|
  {
    if more == [] {
      assert bs + more == bs;
    } else {
      hide Bare;
      var n := |more| - 1;
      PathsOfTail(bs, more[..n], own[..n], unit, i);
      assert (bs + more)[..|bs + more| - 1] == bs + more[..n];
      assert (bs + more)[|bs + more| - 1] == more[n];
    }
  }

  /** The character of a hexadecimal digit. */
  function HexChar(d: int): int {
    if d < 10 then 48 + d else 97 + d - 10
  }

  /** A unit tells a house: every value in its own place. */
  ghost predicate TellsHouse(u: Unit, h: House) {
    && u.name == h.name && u.execPath == Bare(h.exec) && u.layer == h.layer
    && |u.brick| == 32
    && (h.brick == [] ==> forall k :: 0 <= k < 32 ==> u.brick[k] == 0)
    && (h.brick != [] ==>
          |h.brick| == 64 && forall k :: 0 <= k < 32 ==>
            h.brick[2 * k] == HexChar(u.brick[k] as int / 16) && h.brick[2 * k + 1] == HexChar(u.brick[k] as int % 16))
    && u.kind == h.kind && u.budget == h.budget && u.lids == h.lids && u.lock == h.lock
    && u.res.cpuMask == h.res.cpuMask && u.res.memHigh == h.res.memHigh && u.res.memMax == h.res.memMax
    && u.res.layerBytes == h.res.layerBytes && u.res.cpuWeight == h.res.cpuWeight && u.res.nice == h.res.nice
    && u.res.schedPolicy == h.res.schedPolicy && u.res.taskCap == h.res.taskCap
    && u.res.oomScoreAdj == h.res.oomScoreAdj
    && u.stopSignal == h.stopSignal && u.gracePeriod == h.gracePeriod && u.nofile == h.nofile
    && u.capabilities == h.capabilities && u.supervisorDeathPolicy == h.supervisorDeathPolicy
  }

  /** A plan tells a city: its houses in order; the binds house by house; and each edge between the
      places of the two names it was given. */
  ghost predicate TellsCity(p: Plan, hs: seq<House>, ws: seq<Wire>) {
    && |p.units| == |hs| && |p.edges| == |ws|
    && (forall i :: 0 <= i < |hs| ==> TellsHouse(p.units[i], hs[i]))
    && InOrder(p.binds, |hs|)
    && (forall i :: 0 <= i < |hs| ==> ArePaths(PathsOf(p.binds, i), hs[i].binds))
    && (forall k :: 0 <= k < |ws| ==>
          && p.edges[k].a < |hs| && p.edges[k].b < |hs|
          && hs[p.edges[k].a].name == ws[k].a && hs[p.edges[k].b].name == ws[k].b)
  }

  lemma HexTells(s: Text, k: nat)
    requires IsHex64(s) && k < 32
    ensures s[2 * k] == HexChar(FromHex(s)[k] as int / 16) && s[2 * k + 1] == HexChar(FromHex(s)[k] as int % 16)
  {
    assert FromHex(s)[k] as int == 16 * HexVal(s[2 * k]) + HexVal(s[2 * k + 1]);
  }

  lemma UnitTells(h: House)
    requires Encodable(h) && (h.brick != [] ==> IsHex64(h.brick))
    ensures TellsHouse(TrimUnit(UnitOf(h)), h)
  {
    hide Bare, Packable, FromHex;
    if h.brick != [] {
      forall k | 0 <= k < 32
        ensures h.brick[2 * k] == HexChar(FromHex(h.brick)[k] as int / 16)
             && h.brick[2 * k + 1] == HexChar(FromHex(h.brick)[k] as int % 16)
      {
        HexTells(h.brick, k);
      }
    }
  }

  lemma PlanTells(alnum: int -> bool, hs: seq<House>, ws: seq<Wire>)
    requires Accepts(alnum, hs, ws)
    ensures TellsCity(Trim(PlanOf(alnum, hs, ws)), hs, ws)
  {
    hide TellsHouse, Trim, UnitOf, Bare, Encodable, IsHex64, PathClean, NoneUnlocked, PathsOf, Mounts, Index,
         InOrder, ArePaths;
    var q, ms := Trim(PlanOf(alnum, hs, ws)), Mounts(hs, |hs|);
    BricksAreHex(alnum, hs);
    forall i | 0 <= i < |hs| ensures TellsHouse(q.units[i], hs[i]) {
      UnitTells(hs[i]);
    }
    assert BindsAre(q.binds, ms);
    MountsInOrder(hs, |hs|, q.binds);
    forall i | 0 <= i < |hs| ensures ArePaths(PathsOf(q.binds, i), hs[i].binds) {
      PathsOfMounts(hs, |hs|, q.binds, i);
    }
  }

  lemma RulesAre(alnum: int -> bool, hs: seq<House>, ws: seq<Wire>)
    requires City(alnum, hs)
    ensures GoodCity(hs, ws) <==> Accepts(alnum, hs, ws)
  {
    hide GoodCity, Accepts;
    AcceptsIff(alnum, hs, ws);
  }

  /** bake, and then the checker: a blob is written exactly for a city that meets the rules, and one that is
      accepted decodes to a plan that tells the city. */
  method BakeAndCheck(alnum: int -> bool, hs: seq<House>, ws: seq<Wire>) returns (r: Baked, ghost code: Code)
    requires City(alnum, hs)
    ensures r.Baked? <==> GoodCity(hs, ws)
    ensures r.Baked? ==> code == Verdict(r.blob)
    ensures r.Baked? ==> (code == OK <==> PathsPlainOnceBare(hs))
    ensures r.Baked? && code == OK ==>
              |r.blob| >= HDR_SIZE && TablesOf(r.blob).Sized() && TellsCity(Decode(r.blob), hs, ws)
  {
    hide City, Accepts, Verdict, Decode, TellsCity, PlanOf, Encode, Trim, PathsPlainOnceBare, PackablePlan, GoodCity;
    code := OK;
    r := Bake(alnum, hs, ws);
    assert GoodCity(hs, ws) <==> Accepts(alnum, hs, ws) by { RulesAre(alnum, hs, ws); }
    if r.Baked? {
      code := Verdict(r.blob);
      BakedIff(alnum, hs, ws);
      PlanTells(alnum, hs, ws);
    }
  }

  const QUIET: Block := Block(0, 0, 0, 0, 0, 0, 0, 0, 0)

  /** A house called "a" with no brick and no lids. */
  function LoneHouse(exec: Text): House {
    House([97], exec, ONESHOT, 3, 0, [], [], QUIET, [], LOCKED, 0, 0, 0, 0, 0)
  }

  lemma LoneHouseIsPacked(exec: Text)
    requires PathClean(exec) && Baker.Paddable(exec, PATH_LEN)
    ensures Checked(LetterOrDigit, LoneHouse(exec)) && Encodable(LoneHouse(exec)) && Shaped(LoneHouse(exec))
  {
    hide PathClean;
  }

  lemma LoneHouseIsAccepted(exec: Text)
    requires PathClean(exec) && Baker.Paddable(exec, PATH_LEN)
    ensures City(LetterOrDigit, [LoneHouse(exec)]) && Accepts(LetterOrDigit, [LoneHouse(exec)], [])
  {
    hide Checked, Encodable, Shaped, PathClean;
    LoneHouseIsPacked(exec);
    var hs := [LoneHouse(exec)];
    assert Mounts(hs, 1) == Mounts(hs, 0) + [] == [];
  }

  lemma RootIsClean()
    ensures PathClean([SLASH]) && Bare([SLASH]) == [SLASH]
  {
    assert [SLASH][1..] == [];
    assert Split([SLASH]) == [[], []];
  }

  lemma SplitOne(c: int)
    requires c != SLASH
    ensures Split([c]) == [[c]]
  {
    var s := [c];
    var r := Split(s[1..]);
    assert s[1..] == [] && r == [[]];
    assert [s[0]] + r[0] == [c];
  }

  lemma ChildIsClean()
    ensures PathClean([SLASH, 97])
  {
    var p := [SLASH, 97];
    SplitOne(97);
    assert p[1..] == [97];
    assert Split(p) == [[]] + [[97]];
    assert DOTDOT != [97];
  }

  /** One house whose program is "/": the baker writes the blob and the checker refuses it. */
  lemma RootIsBakedAndRefused()
    ensures City(LetterOrDigit, [LoneHouse([SLASH])]) && Accepts(LetterOrDigit, [LoneHouse([SLASH])], [])
    ensures PackablePlan(PlanOf(LetterOrDigit, [LoneHouse([SLASH])], []))
    ensures Verdict(Encode(PlanOf(LetterOrDigit, [LoneHouse([SLASH])], []))) != OK
  {
    hide Encode, Verdict, PlanOf, Accepts, City, PackablePlan, Decode, Trim, PathClean, Split, Bare;
    RootIsClean();
    LoneHouseIsAccepted([SLASH]);
    var hs := [LoneHouse([SLASH])];
    BakedIff(LetterOrDigit, hs, []);
    assert NamesPath(hs, hs[0].exec) && !PlainOnceBare([SLASH]);
  }

  /** The same house with the program "/a" is baked and accepted. */
  lemma ChildOfRootIsAccepted()
    ensures City(LetterOrDigit, [LoneHouse([SLASH, 97])]) && Accepts(LetterOrDigit, [LoneHouse([SLASH, 97])], [])
    ensures PackablePlan(PlanOf(LetterOrDigit, [LoneHouse([SLASH, 97])], []))
    ensures Verdict(Encode(PlanOf(LetterOrDigit, [LoneHouse([SLASH, 97])], []))) == OK
  {
    hide Encode, Verdict, PlanOf, Accepts, City, PackablePlan, Decode, Trim, PathClean, Split, Bare;
    var p := [SLASH, 97];
    ChildIsClean();
    LoneHouseIsAccepted(p);
    var hs := [LoneHouse(p)];
    forall q | NamesPath(hs, q) ensures q == p {
    }
    BakeRoundTrip(LetterOrDigit, hs, []);
  }
}
