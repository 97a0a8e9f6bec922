/** bakery/nw-cc.py: bake and check. */
module Baker {
  import opened Bytes
  import opened Blob
  import Crc

  /** A Python string: its code points. */
  type Text = seq<int>

  /** The resource block of a house, as Python integers. */
  datatype Block = Block(cpuMask: int, memHigh: int, memMax: int, layerBytes: int, cpuWeight: int,
                         nice: int, schedPolicy: int, taskCap: int, oomScoreAdj: int)

  datatype House = House(name: Text, exec: Text, kind: int, budget: int, lids: int, brick: Text, layer: Text,
                         res: Block, binds: seq<Text>, lock: int, stopSignal: int, gracePeriod: int,
                         nofile: int, capabilities: int, supervisorDeathPolicy: int)

  /** One `edge=a,b` line. */
  datatype Wire = Wire(a: Text, b: Text)

  /** A bind with its house resolved. */
  datatype Mount = Mount(unit: nat, path: Text)

  /** What bake leaves: the bytes it writes, or SystemExit or another exception before it writes any. */
  datatype Baked = Baked(blob: Bytes) | Refused

  const FD_RESERVED: nat := 8
  const MAX_FDS: nat := 1024

  /** "0" * 64 */
  predicate ZeroHash(s: Text) {
    |s| == 2 * BRICK_HASH && forall i :: 0 <= i < |s| ==> s[i] == 48
  }

  predicate LetterOrDigit(c: int) {
    (65 <= c <= 90) || (97 <= c <= 122) || (48 <= c <= 57)
  }

  /** str.isalnum on one character: fixed below 128, whatever Unicode says above. */
  ghost predicate IsAlnum(alnum: int -> bool) {
    forall c :: 0 <= c < 128 ==> (alnum(c) <==> LetterOrDigit(c))
  }

  predicate Ascii(s: Text) {
    forall i :: 0 <= i < |s| ==> 0 <= s[i] < 128
  }

  /** s.encode("ascii") */
  function Ascii8(s: Text): (b: Bytes)
    requires Ascii(s)
    ensures |b| == |s| && b == s
  {
    seq(|s|, i requires 0 <= i < |s| => s[i])
  }

  /** What pad(s, n) takes: ASCII, and room for one NUL. */
  predicate Paddable(s: Text, n: nat) { Ascii(s) && |s| < n }

  /** path_clean. */
  predicate PathClean(p: Text) {
    p != [] && p[0] == SLASH && DOTDOT !in Split(p)
  }

  /** Non-empty, and alphanumeric once '-' and '_' are replaced by a letter. */
  predicate NameShape(alnum: int -> bool, s: Text) {
    s != [] && forall i :: 0 <= i < |s| ==> s[i] == 45 || s[i] == 95 || alnum(s[i])
  }

  predicate HexDigit(c: int) { (48 <= c <= 57) || (97 <= c <= 102) }

  /** _is_hex64. */
  predicate IsHex64(s: Text) {
    |s| == 2 * BRICK_HASH && forall i :: 0 <= i < |s| ==> HexDigit(s[i])
  }

  function HexVal(c: int): (v: nat)
    requires HexDigit(c)
    ensures v < 16
    ensures v == 0 <==> c == 48
  {
    if c <= 57 then c - 48 else c - 87
  }

  /** bytes.fromhex. */
  function FromHex(s: Text): (b: Bytes)
    requires IsHex64(s)
    ensures |b| == BRICK_HASH
  {
    seq(BRICK_HASH, k requires 0 <= k < BRICK_HASH => 16 * HexVal(s[2 * k]) + HexVal(s[2 * k + 1]))
  }

  lemma HexZero(s: Text)
    requires IsHex64(s)
    ensures HasBrick(FromHex(s)) <==> !ZeroHash(s)
  {
    var b := FromHex(s);
    if !ZeroHash(s) {
      var i :| 0 <= i < |s| && s[i] != 48;
      assert b[i / 2] == 16 * HexVal(s[2 * (i / 2)]) + HexVal(s[2 * (i / 2) + 1]);
      assert i == 2 * (i / 2) || i == 2 * (i / 2) + 1;
      assert b[i / 2] != 0;
    } else {
      forall k | 0 <= k < |b| ensures b[k] == 0 {
        assert s[2 * k] == 48 && s[2 * k + 1] == 48;
      }
    }
  }

  /** What check() asks of one house: its root, its layer and its resource block. */
  predicate Checked(alnum: int -> bool, h: House) {
    && (h.kind == ONESHOT || h.kind == LONGRUN)
    && 0 <= h.lids <= ALL_LIDS
    && PathClean(h.exec)
    && NameShape(alnum, h.name)
    && (HasLandlock(h.lids) ==> h.brick != [])
    && (if h.brick != [] then IsHex64(h.brick) && !ZeroHash(h.brick) && HasNewns(h.lids) && h.layer != []
        else h.layer == [] && h.binds == [])
    && !(h.res.memHigh != 0 && h.res.memMax != 0 && h.res.memHigh >= h.res.memMax)
    && !(h.res.nice != 0 && h.res.schedPolicy != SCHED_OTHER)
    && !(h.res.layerBytes != 0 && h.layer == [])
  }

  predicate U8(v: int) { 0 <= v < 0x100 }
  predicate U16(v: int) { 0 <= v < 0x1_0000 }
  predicate U32(v: int) { 0 <= v < 0x1_0000_0000 }
  predicate U64(v: int) { 0 <= v < 0x1_0000_0000_0000_0000 }

  /** What pack_res takes. */
  predicate BlockPacks(r: Block) {
    && U64(r.cpuMask) && U64(r.memHigh) && U64(r.memMax) && U64(r.layerBytes) && U16(r.cpuWeight)
    && -128 <= r.nice < 128 && U8(r.schedPolicy) && U32(r.taskCap) && -32768 <= r.oomScoreAdj < 32768
  }

  /** What pad and struct.pack take. */
  predicate Encodable(h: House) {
    && Paddable(h.name, NAME_LEN) && Paddable(h.exec, PATH_LEN) && Paddable(h.layer, NAME_LEN)
    && U8(h.kind) && U8(h.budget) && U8(h.lids) && U8(h.lock)
    && BlockPacks(h.res)
    && U8(h.stopSignal) && U32(h.gracePeriod) && U32(h.nofile) && U64(h.capabilities) && U8(h.supervisorDeathPolicy)
  }

  /** The 32 bytes of a brick field. */
  function BrickBytes(brick: Text): (b: Bytes)
    requires brick != [] ==> IsHex64(brick)
    ensures |b| == BRICK_HASH
  {
    if brick != [] then FromHex(brick) else Zeros(BRICK_HASH)
  }

  function BlockRes(r: Block): Res
    requires BlockPacks(r)
  {
    Res(r.cpuMask, r.memHigh, r.memMax, r.layerBytes, r.cpuWeight, r.nice, r.schedPolicy, r.taskCap, r.oomScoreAdj)
  }

  /** The unit a house stands for. */
  function UnitOf(h: House): (u: Unit)
    requires Encodable(h) && (h.brick != [] ==> IsHex64(h.brick))
    ensures Packable(u) && |u.brick| == BRICK_HASH
  {
    Unit(Ascii8(h.name), Ascii8(h.exec), BrickBytes(h.brick), Ascii8(h.layer), h.kind, h.budget, h.lids, h.lock,
         BlockRes(h.res), h.stopSignal, h.gracePeriod, h.nofile, h.capabilities, h.supervisorDeathPolicy)
  }

  /** The dictionary from name to index over the first `n` houses: a later house replaces an earlier. */
  function Index(hs: seq<House>, n: nat): (idx: map<Text, nat>)
    requires n <= |hs|
    ensures forall s :: s in idx ==> idx[s] < n && hs[idx[s]].name == s
    ensures forall k :: 0 <= k < n ==> hs[k].name in idx
  {
    if n == 0 then map[] else Index(hs, n - 1)[hs[n - 1].name := n - 1]
  }

  /** The binds of the first `n` houses, house by house. */
  function Mounts(hs: seq<House>, n: nat): (ms: seq<Mount>)
    requires n <= |hs|
    ensures forall k :: 0 <= k < |ms| ==> ms[k].unit < n && ms[k].path in hs[ms[k].unit].binds
  {
    if n == 0 then []
    else
      Mounts(hs, n - 1)
      + seq(|hs[n - 1].binds|, k requires 0 <= k < |hs[n - 1].binds| => Mount(n - 1, hs[n - 1].binds[k]))
  }

  /** Both ends named, and not the same house. */
  predicate WireEnds(idx: map<Text, nat>, w: Wire) {
    w.a in idx && w.b in idx && idx[w.a] != idx[w.b]
  }

  function EdgeOf(idx: map<Text, nat>, w: Wire): Edge
    requires WireEnds(idx, w)
  {
    Edge(idx[w.a], idx[w.b])
  }

  /** frozenset((a, b)) */
  function Pair(e: Edge): set<nat> { {e.a, e.b} }

  /** No two edges join the same two houses. */
  predicate Apart(es: seq<Edge>) {
    forall j, k :: 0 <= j < k < |es| ==> Pair(es[j]) != Pair(es[k])
  }

  predicate AllWireEnds(idx: map<Text, nat>, ws: seq<Wire>) {
    forall k :: 0 <= k < |ws| ==> WireEnds(idx, ws[k])
  }

  function EdgesOf(idx: map<Text, nat>, ws: seq<Wire>): (es: seq<Edge>)
    requires AllWireEnds(idx, ws)
    ensures |es| == |ws| && forall k :: 0 <= k < |es| ==> es[k] == EdgeOf(idx, ws[k])
  {
    seq(|ws|, k requires 0 <= k < |ws| => EdgeOf(idx, ws[k]))
  }

  predicate WiresResolve(idx: map<Text, nat>, ws: seq<Wire>) {
    AllWireEnds(idx, ws) && Apart(EdgesOf(idx, ws))
  }

  predicate DistinctNames(hs: seq<House>) {
    forall i, j :: 0 <= i < j < |hs| ==> hs[i].name != hs[j].name
  }

  predicate DistinctLayers(hs: seq<House>) {
    forall i, j :: 0 <= i < j < |hs| && hs[j].layer != [] ==> hs[i].layer != hs[j].layer
  }

  predicate NoneUnlocked(hs: seq<House>, e: Edge)
    requires e.a < |hs| && e.b < |hs|
  {
    hs[e.a].lock != UNLOCKED && hs[e.b].lock != UNLOCKED
  }

  /** What check() accepts. */
  predicate CheckAccepts(alnum: int -> bool, hs: seq<House>, ms: seq<Mount>, es: seq<Edge>)
    requires forall k :: 0 <= k < |es| ==> es[k].a < |hs| && es[k].b < |hs|
  {
    && DistinctNames(hs)
    && 1 <= |hs| <= MAX_UNITS && |ms| <= MAX_BINDS && |es| <= MAX_EDGES
    && (forall k :: 0 <= k < |es| ==> NoneUnlocked(hs, es[k]))
    && (forall i :: 0 <= i < |hs| ==> Checked(alnum, hs[i]))
    && DistinctLayers(hs)
    && (forall k :: 0 <= k < |ms| ==> PathClean(ms[k].path) && Paddable(ms[k].path, PATH_LEN))
  }

  /** What bake writes a blob for. */
  predicate Accepts(alnum: int -> bool, hs: seq<House>, ws: seq<Wire>) {
    var idx := Index(hs, |hs|);
    && WiresResolve(idx, ws)
    && CheckAccepts(alnum, hs, Mounts(hs, |hs|), EdgesOf(idx, ws))
    && (forall i :: 0 <= i < |hs| ==> Encodable(hs[i]))
  }

  /** The plan the houses and wires describe. */
  function PlanOf(alnum: int -> bool, hs: seq<House>, ws: seq<Wire>): Plan
    requires Accepts(alnum, hs, ws)
  {
    hide Encodable, Checked, IsHex64, PathClean, NoneUnlocked;
    BricksAreHex(alnum, hs);
    var ms := Mounts(hs, |hs|);
    Plan(seq(|hs|, i requires 0 <= i < |hs| => UnitOf(hs[i])),
         seq(|ms|, k requires 0 <= k < |ms| => Bind(ms[k].unit, Ascii8(ms[k].path))),
         EdgesOf(Index(hs, |hs|), ws))
  }

  /* The loops. */

  lemma {:induction false} CountDistinct(s: seq<Text>)
    ensures |set x | x in s| <= |s|
    ensures |set x | x in s| == |s| <==> forall i, j :: 0 <= i < j < |s| ==> s[i] != s[j]
  {
    if s != [] {
      var n := |s| - 1;
      var t := s[..n];
      CountDistinct(t);
      assert s == t + [s[n]];
      var all, some := set x | x in s, set x | x in t;
      assert all == some + {s[n]};
      if s[n] in t {
        var i :| 0 <= i < n && t[i] == s[n];
        assert s[i] == s[n];
        assert all == some;
      } else {
        forall i | 0 <= i < n ensures s[i] != s[n] {
          assert s[i] == t[i];
        }
      }
      assert forall i :: 0 <= i < n ==> t[i] == s[i];
    }
  }

  method NamesDiffer(hs: seq<House>) returns (ok: bool)
    ensures ok == DistinctNames(hs)
  {
    var names: seq<Text> := [];
    for i := 0 to |hs|
      invariant |names| == i && forall k :: 0 <= k < i ==> names[k] == hs[k].name
    {
      names := names + [hs[i].name];
    }
    var distinct := set x | x in names;
    CountDistinct(names);
    return |names| == |distinct|;
  }

  method LayersDiffer(hs: seq<House>) returns (ok: bool)
    ensures ok == DistinctLayers(hs)
  {
    var seen: set<Text> := {};
    for i := 0 to |hs|
      invariant forall s :: s in seen <==> s != [] && exists k :: 0 <= k < i && hs[k].layer == s
      invariant forall j, k :: 0 <= j < k < i && hs[k].layer != [] ==> hs[j].layer != hs[k].layer
    {
      if hs[i].layer != [] {
        if hs[i].layer in seen {
          return false;
        }
        seen := seen + {hs[i].layer};
      }
    }
    return true;
  }

  function Pairs(es: seq<Edge>): set<set<nat>> {
    set e | e in es :: Pair(e)
  }

  lemma ApartSnoc(es: seq<Edge>, e: Edge)
    requires Apart(es)
    ensures Pairs(es + [e]) == Pairs(es) + {Pair(e)}
    ensures Apart(es + [e]) <==> Pair(e) !in Pairs(es)
  {
    var all := es + [e];
    assert all[|es|] == e && forall k :: 0 <= k < |es| ==> all[k] == es[k];
    if Pair(e) in Pairs(es) {
      var f :| f in es && Pair(f) == Pair(e);
      var j :| 0 <= j < |es| && es[j] == f;
      assert Pair(all[j]) == Pair(all[|es|]);
    } else {
      forall j, k | 0 <= j < k < |all| ensures Pair(all[j]) != Pair(all[k]) {
        if k == |es| { assert all[j] in es; }
      }
    }
    forall s ensures s in Pairs(all) <==> s in Pairs(es) + {Pair(e)} {
    }
  }

  lemma ApartPrefix(idx: map<Text, nat>, ws: seq<Wire>, k: nat)
    requires k <= |ws| && AllWireEnds(idx, ws[..k]) && !Apart(EdgesOf(idx, ws[..k]))
    ensures !WiresResolve(idx, ws)
  {
  }

  lemma WireSnoc(idx: map<Text, nat>, ws: seq<Wire>, k: nat)
    requires k < |ws| && AllWireEnds(idx, ws[..k])
    ensures !WireEnds(idx, ws[k]) ==> !AllWireEnds(idx, ws)
    ensures WireEnds(idx, ws[k]) ==>
              AllWireEnds(idx, ws[..k + 1]) && EdgesOf(idx, ws[..k + 1]) == EdgesOf(idx, ws[..k]) + [EdgeOf(idx, ws[k])]
  {
    if WireEnds(idx, ws[k]) {
      var vs := ws[..k + 1];
      forall j | 0 <= j < |vs| ensures WireEnds(idx, vs[j]) {
        assert j < k ==> vs[j] == ws[..k][j];
      }
      assert EdgesOf(idx, ws[..k + 1]) == EdgesOf(idx, ws[..k]) + [EdgeOf(idx, ws[k])];
    }
  }

  method ResolveWires(idx: map<Text, nat>, ws: seq<Wire>) returns (ok: bool, edges: seq<Edge>)
    ensures ok == WiresResolve(idx, ws)
    ensures ok ==> edges == EdgesOf(idx, ws)
  {
    edges := [];
    var seen: set<set<nat>> := {};
    assert AllWireEnds(idx, ws[..0]) && EdgesOf(idx, ws[..0]) == [] && Pairs([]) == {} && Apart([]);
    hide EdgesOf, Apart, Pairs, Pair;
    for k := 0 to |ws|
      invariant AllWireEnds(idx, ws[..k]) && edges == EdgesOf(idx, ws[..k])
      invariant Apart(edges) && seen == Pairs(edges)
    {
      WireSnoc(idx, ws, k);
      var w := ws[k];
      if w.a !in idx || w.b !in idx {
        return false, [];
      }
      var e := Edge(idx[w.a], idx[w.b]);
      if e.a == e.b {
        return false, [];
      }
      ApartSnoc(edges, e);
      if Pair(e) in seen {
        ApartPrefix(idx, ws, k + 1);
        return false, [];
      }
      seen := seen + {Pair(e)};
      edges := edges + [e];
    }
    assert ws[..|ws|] == ws;
    return true, edges;
  }

  lemma IndexSnoc(hs: seq<House>, i: nat)
    requires i < |hs|
    ensures Index(hs, i + 1) == Index(hs, i)[hs[i].name := i]
  {
  }

  method IndexNames(hs: seq<House>) returns (idx: map<Text, nat>)
    ensures idx == Index(hs, |hs|)
  {
    idx := map[];
    assert Index(hs, 0) == map[];
    hide Index;
    for i := 0 to |hs|
      invariant idx == Index(hs, i)
    {
      IndexSnoc(hs, i);
      idx := idx[hs[i].name := i];
    }
  }

  method CheckHouse(alnum: int -> bool, h: House) returns (ok: bool)
    ensures ok == Checked(alnum, h)
  {
    hide Split;
    if h.kind != ONESHOT && h.kind != LONGRUN { return false; }
    if !(0 <= h.lids <= ALL_LIDS) { return false; }
    if !PathClean(h.exec) { return false; }
    if !NameShape(alnum, h.name) { return false; }
    if HasLandlock(h.lids) && h.brick == [] { return false; }
    if h.brick != [] {
      if !IsHex64(h.brick) || ZeroHash(h.brick) || !HasNewns(h.lids) || h.layer == [] { return false; }
    } else if h.layer != [] {
      return false;
    } else if h.binds != [] {
      return false;
    }
    var r := h.res;
    if r.memHigh != 0 && r.memMax != 0 && r.memHigh >= r.memMax { return false; }
    if r.nice != 0 && r.schedPolicy != SCHED_OTHER { return false; }
    if r.layerBytes != 0 && h.layer == [] { return false; }
    return true;
  }

  /** check(): its rules over a house that come in three loops are here in one. */
  method CheckAll(alnum: int -> bool, hs: seq<House>, ms: seq<Mount>, es: seq<Edge>) returns (ok: bool)
    requires forall k :: 0 <= k < |es| ==> es[k].a < |hs| && es[k].b < |hs|
    ensures ok == CheckAccepts(alnum, hs, ms, es)
  {
    hide Checked, PathClean, Paddable, DistinctNames, DistinctLayers;
    ok := NamesDiffer(hs);
    if !ok { return; }
    if !(1 <= |hs| <= MAX_UNITS) || |ms| > MAX_BINDS || |es| > MAX_EDGES { return false; }
    for k := 0 to |es|
      invariant forall j :: 0 <= j < k ==> NoneUnlocked(hs, es[j])
    {
      if hs[es[k].a].lock == UNLOCKED || hs[es[k].b].lock == UNLOCKED { return false; }
    }
    if FD_RESERVED + |hs| + |es| * 2 > MAX_FDS { return false; }
    for i := 0 to |hs|
      invariant forall k :: 0 <= k < i ==> Checked(alnum, hs[k])
    {
      ok := CheckHouse(alnum, hs[i]);
      if !ok { return; }
    }
    ok := LayersDiffer(hs);
    if !ok { return; }
    for k := 0 to |ms|
      invariant forall j :: 0 <= j < k ==> PathClean(ms[j].path) && Paddable(ms[j].path, PATH_LEN)
    {
      if !PathClean(ms[k].path) { return false; }
      if !Paddable(ms[k].path, PATH_LEN) { return false; }
    }
    return true;
  }

  lemma {:induction false} JoinSnoc(fs: seq<Bytes>, x: Bytes)
    ensures Join(fs + [x]) == Join(fs) + x
  {
    if fs == [] {
      assert [x][1..] == [];
    } else {
      JoinSnoc(fs[1..], x);
      assert (fs + [x])[1..] == fs[1..] + [x];
    }
  }

  lemma JoinPrefix(fs: seq<Bytes>, i: nat)
    requires i < |fs|
    ensures Join(fs[..i + 1]) == Join(fs[..i]) + fs[i]
  {
    JoinSnoc(fs[..i], fs[i]);
    assert fs[..i + 1] == fs[..i] + [fs[i]];
  }

  lemma JoinNone(fs: seq<Bytes>)
    ensures Join(fs[..0]) == []
  {
  }

  method GatherMounts(hs: seq<House>) returns (ms: seq<Mount>)
    ensures ms == Mounts(hs, |hs|)
  {
    ms := [];
    for i := 0 to |hs|
      invariant ms == Mounts(hs, i)
    {
      var mine := seq(|hs[i].binds|, k requires 0 <= k < |hs[i].binds| => Mount(i, hs[i].binds[k]));
      ms := ms + mine;
    }
  }

  /** The unit table, house by house; a value that does not fit its field stops it. */
  method PackUnits(hs: seq<House>, ghost us: seq<Bytes>) returns (ok: bool, unit: Bytes)
    requires forall i :: 0 <= i < |hs| ==> hs[i].brick != [] ==> IsHex64(hs[i].brick)
    requires |us| == |hs| && forall i :: 0 <= i < |hs| && Encodable(hs[i]) ==> us[i] == EncodeUnit(UnitOf(hs[i]))
    ensures ok == forall i :: 0 <= i < |hs| ==> Encodable(hs[i])
    ensures ok ==> unit == Join(us)
  {
    hide Encodable, EncodeUnit, UnitOf, IsHex64, Join;
    unit := [];
    JoinNone(us);
    for i := 0 to |hs|
      invariant forall k :: 0 <= k < i ==> Encodable(hs[k])
      invariant unit == Join(us[..i])
    {
      if !Encodable(hs[i]) {
        return false, [];
      }
      JoinPrefix(us, i);
      unit := unit + EncodeUnit(UnitOf(hs[i]));
    }
    assert us[..|hs|] == us;
    return true, unit;
  }

  method PackMounts(ms: seq<Mount>, ghost bs: seq<Bytes>) returns (table: Bytes)
    requires |bs| == |ms| <= MAX_BINDS
    requires forall k :: 0 <= k < |ms| ==>
               Paddable(ms[k].path, PATH_LEN) && bs[k] == EncodeBind(Bind(ms[k].unit, Ascii8(ms[k].path)))
    ensures table == Join(bs)
  {
    table := [];
    JoinNone(bs);
    hide Join, Ascii8, EncodeBind;
    for k := 0 to |ms|
      invariant table == Join(bs[..k])
    {
      JoinPrefix(bs, k);
      table := table + EncodeBind(Bind(ms[k].unit, Ascii8(ms[k].path)));
    }
    assert bs[..|bs|] == bs;
  }

  method PackEdges(edges: seq<Edge>, ghost es: seq<Bytes>) returns (table: Bytes)
    requires |es| == |edges|
    requires forall k :: 0 <= k < |edges| ==> es[k] == EncodeEdge(edges[k])
    ensures table == Join(es)
  {
    table := [];
    assert Join(es[..0]) == [];
    hide Join, EncodeEdge;
    for k := 0 to |edges|
      invariant table == Join(es[..k])
    {
      JoinPrefix(es, k);
      table := table + EncodeEdge(edges[k]);
    }
    assert es[..|es|] == es;
  }

  lemma BricksAreHex(alnum: int -> bool, hs: seq<House>)
    requires forall i :: 0 <= i < |hs| ==> Checked(alnum, hs[i])
    ensures forall i :: 0 <= i < |hs| ==> hs[i].brick != [] ==> IsHex64(hs[i].brick)
  {
    hide IsHex64, Split;
  }

  /** The bytes of unit `i`, when it packs at all. */
  ghost function UnitBytes(hs: seq<House>): (us: seq<Bytes>)
    requires forall i :: 0 <= i < |hs| ==> hs[i].brick != [] ==> IsHex64(hs[i].brick)
    ensures |us| == |hs| && forall i :: 0 <= i < |hs| && Encodable(hs[i]) ==> us[i] == EncodeUnit(UnitOf(hs[i]))
  {
    seq(|hs|, i requires 0 <= i < |hs| => if Encodable(hs[i]) then EncodeUnit(UnitOf(hs[i])) else [])
  }

  lemma PlanPackable(alnum: int -> bool, hs: seq<House>, ws: seq<Wire>)
    requires Accepts(alnum, hs, ws)
    ensures PackablePlan(PlanOf(alnum, hs, ws))
  {
    hide Encodable, Packable, Checked, PathClean;
  }

  lemma UnitTableOf(alnum: int -> bool, hs: seq<House>, ws: seq<Wire>, us: seq<Bytes>)
    requires Accepts(alnum, hs, ws) && PackablePlan(PlanOf(alnum, hs, ws))
    requires |us| == |hs| && forall i :: 0 <= i < |hs| && Encodable(hs[i]) ==> us[i] == EncodeUnit(UnitOf(hs[i]))
    ensures UnitTable(PlanOf(alnum, hs, ws)) == us
  {
    BricksAreHex(alnum, hs);
    hide Encodable, EncodeUnit, UnitOf, Checked, WiresResolve, Mounts, PackablePlan;
    var p := PlanOf(alnum, hs, ws);
    assert |p.units| == |hs|;
    forall i | 0 <= i < |hs| ensures UnitTable(p)[i] == us[i] {
      assert p.units[i] == UnitOf(hs[i]);
    }
  }

  lemma BindTableOf(alnum: int -> bool, hs: seq<House>, ws: seq<Wire>)
    requires Accepts(alnum, hs, ws) && PackablePlan(PlanOf(alnum, hs, ws))
    ensures var ms, bs := Mounts(hs, |hs|), BindTable(PlanOf(alnum, hs, ws));
            |bs| == |ms| && forall k :: 0 <= k < |ms| ==>
              Paddable(ms[k].path, PATH_LEN) && bs[k] == EncodeBind(Bind(ms[k].unit, Ascii8(ms[k].path)))
  {
    hide Encodable, EncodeBind, UnitOf, Checked, WiresResolve, Mounts, PackablePlan, PathClean;
  }

  /** bake, from the tables on. */
  method WriteBlob(alnum: int -> bool, hs: seq<House>, ghost ws: seq<Wire>, ms: seq<Mount>, edges: seq<Edge>)
    returns (r: Baked)
    requires WiresResolve(Index(hs, |hs|), ws) && edges == EdgesOf(Index(hs, |hs|), ws) && ms == Mounts(hs, |hs|)
    requires CheckAccepts(alnum, hs, ms, edges)
    ensures r.Baked? <==> Accepts(alnum, hs, ws)
    ensures r.Baked? ==> PackablePlan(PlanOf(alnum, hs, ws)) && r.blob == Encode(PlanOf(alnum, hs, ws))
  {
    hide Accepts, PlanOf, PackablePlan, Body, CheckAccepts, Encodable, WiresResolve, UnitTable, BindTable, EdgeTable,
         Join, IsHex64, Mounts, Index;
    HexBricks(alnum, hs, ws);
    ghost var us := UnitBytes(hs);
    var ok, unit := PackUnits(hs, us);
    AcceptsIs(alnum, hs, ws);
    if !ok { return Refused; }
    ghost var p := PlanOf(alnum, hs, ws);
    PlanPackable(alnum, hs, ws);
    PlanSizes(alnum, hs, ws);
    UnitTableOf(alnum, hs, ws, us);
    BindTableOf(alnum, hs, ws);
    EdgeTableIs(p);
    var table := PackMounts(ms, BindTable(p));
    var edgeTable := PackEdges(edges, EdgeTable(p));
    BodyIs(p, unit, table, edgeTable);
    var blob := Assemble(|hs|, |ms|, |edges|, unit, table, edgeTable);
    return Baked(blob);
  }

  lemma HexBricks(alnum: int -> bool, hs: seq<House>, ws: seq<Wire>)
    requires WiresResolve(Index(hs, |hs|), ws)
    requires CheckAccepts(alnum, hs, Mounts(hs, |hs|), EdgesOf(Index(hs, |hs|), ws))
    ensures |Mounts(hs, |hs|)| <= MAX_BINDS
    ensures forall i :: 0 <= i < |hs| ==> hs[i].brick != [] ==> IsHex64(hs[i].brick)
  {
    hide Checked, IsHex64, Mounts, Index, PathClean, NoneUnlocked;
    BricksAreHex(alnum, hs);
  }

  lemma AcceptsIs(alnum: int -> bool, hs: seq<House>, ws: seq<Wire>)
    requires WiresResolve(Index(hs, |hs|), ws)
    requires CheckAccepts(alnum, hs, Mounts(hs, |hs|), EdgesOf(Index(hs, |hs|), ws))
    ensures Accepts(alnum, hs, ws) <==> forall i :: 0 <= i < |hs| ==> Encodable(hs[i])
  {
    hide Encodable, CheckAccepts, WiresResolve, Mounts, Index;
  }

  lemma PlanSizes(alnum: int -> bool, hs: seq<House>, ws: seq<Wire>)
    requires Accepts(alnum, hs, ws)
    ensures var p := PlanOf(alnum, hs, ws);
            |p.units| == |hs| && |p.binds| == |Mounts(hs, |hs|)| && p.edges == EdgesOf(Index(hs, |hs|), ws)
  {
    hide Accepts, UnitOf, Mounts, Index;
  }

  lemma EdgeTableIs(p: Plan)
    requires PackablePlan(p)
    ensures |EdgeTable(p)| == |p.edges|
    ensures forall k :: 0 <= k < |p.edges| ==> EdgeTable(p)[k] == EncodeEdge(p.edges[k])
  {
  }

  lemma BodyIs(p: Plan, unit: Bytes, table: Bytes, edgeTable: Bytes)
    requires PackablePlan(p)
    requires unit == Join(UnitTable(p)) && table == Join(BindTable(p)) && edgeTable == Join(EdgeTable(p))
    ensures Body(p) == unit + table + edgeTable
  {
  }

  /** The header over the finished tables. */
  method Assemble(nu: nat, nb: nat, ne: nat, unit: Bytes, table: Bytes, edgeTable: Bytes) returns (blob: Bytes)
    ensures var body := unit + table + edgeTable;
            blob == Header(nu, nb, ne, Checksum(nu, nb, ne, body)) + body
  {
    hide Le, Crc.Crc32;
    var prefix := MAGIC + Le(nu, 4) + Le(nb, 4) + Le(ne, 4);
    ghost var body := unit + table + edgeTable;
    assert prefix + Le(0, 4) + unit + table + edgeTable == Header(nu, nb, ne, 0) + body;
    var crc := Crc.Crc32(prefix + Le(0, 4) + unit + table + edgeTable) as nat;
    blob := prefix + Le(crc, 4) + unit + table + edgeTable;
    assert blob == Header(nu, nb, ne, crc) + body;
  }

  /** bake: a blob exactly when every rule is met, and then the canonical one of the plan. */
  method Bake(alnum: int -> bool, hs: seq<House>, ws: seq<Wire>) returns (r: Baked)
    ensures r.Baked? <==> Accepts(alnum, hs, ws)
    ensures r.Baked? ==> PackablePlan(PlanOf(alnum, hs, ws)) && r.blob == Encode(PlanOf(alnum, hs, ws))
  {
    hide Mounts, EdgesOf, WiresResolve, CheckAccepts, Encodable, Encode, UnitTable, BindTable, EdgeTable;
    var ms := GatherMounts(hs);
    var idx := IndexNames(hs);
    var ok, edges := ResolveWires(idx, ws);
    if !ok { return Refused; }
    ResolvedInRange(hs, ws);
    ok := CheckAll(alnum, hs, ms, edges);
    if !ok { return Refused; }
    r := WriteBlob(alnum, hs, ws, ms, edges);
  }

  lemma ResolvedInRange(hs: seq<House>, ws: seq<Wire>)
    requires WiresResolve(Index(hs, |hs|), ws)
    ensures var es := EdgesOf(Index(hs, |hs|), ws); forall k :: 0 <= k < |es| ==> es[k].a < |hs| && es[k].b < |hs|
  {
  }
}
