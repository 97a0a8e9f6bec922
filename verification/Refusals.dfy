/** What each refusal of nw_check says of the plan: the first rule broken, in the order of nwcheck.c. */
module Refusals {
  import opened Bytes
  import opened Blob
  import opened Check
  import opened BlobCodec
  import opened Spelling
  import Crc

  /** A field holds `text` and nothing else. */
  predicate Holds(field: Bytes, text: Bytes) {
    text <= field && forall i :: |text| <= i < |field| ==> field[i] == 0
  }

  /** All 32 bytes zero is no brick. */
  predicate Bricked(b: Bytes) {
    exists k :: 0 <= k < |b| && b[k] > 0
  }

  /** The place of a rule for one unit in the order they are looked at. */
  function Rank(code: Code): nat {
    match code
    case E_NAME => 0
    case E_PATH => 1
    case E_KIND => 2
    case E_LLBRICK => 3
    case E_BRICKNS => 4
    case E_LAYER => 5
    case E_LAYERPAIR => 6
    case E_RESWEIGHT => 7
    case E_RESSCHED => 8
    case E_RESNICE => 9
    case E_OOMRANGE => 10
    case E_MEMORDER => 11
    case E_NICEPOL => 12
    case E_CAPNOLAYER => 13
    case E_LOCK => 14
    case E_STOPSIG => 15
    case E_GRACERANGE => 16
    case E_SUPDEATH => 17
    case E_LIDS => 18
    case E_DUPNAME => 19
    case E_LAYERDUP => 20
    case _ => 21
  }

  /** The unit `x`, read from the record `u`, breaks the rule of `code` on its own. */
  predicate BreaksOwn(u: RawUnit, x: Unit, code: Code) {
    match code
    case E_NAME => !GoodName(x.name) || !Holds(u[0..32], x.name)
    case E_PATH => !GoodPath(x.execPath) || !Holds(u[32..160], x.execPath)
    case E_KIND => x.kind > 1
    case E_LLBRICK => x.lids / 2 % 2 == 1 && !Bricked(x.brick)
    case E_BRICKNS => Bricked(x.brick) && x.lids / 4 % 2 == 0
    case E_LAYER => (x.layer != [] && !GoodName(x.layer)) || !Holds(u[192..224], x.layer)
    case E_LAYERPAIR => (x.layer != []) != Bricked(x.brick)
    case E_RESWEIGHT => x.res.cpuWeight > 10000
    case E_RESSCHED => x.res.schedPolicy > 3
    case E_RESNICE => x.res.nice < -20 || x.res.nice > 19
    case E_OOMRANGE => x.res.oomScoreAdj < -1000 || x.res.oomScoreAdj > 1000
    case E_MEMORDER => 0 < x.res.memMax <= x.res.memHigh
    case E_NICEPOL => x.res.nice != 0 && x.res.schedPolicy != 1
    case E_CAPNOLAYER => x.res.layerBytes > 0 && x.layer == []
    case E_LOCK => x.lock > 1
    case E_STOPSIG => x.stopSignal > 4
    case E_GRACERANGE => x.gracePeriod > 0x7fff_ffff
    case E_SUPDEATH => x.supervisorDeathPolicy > 0
    case E_LIDS => x.lids >= 16
    case _ => false
  }

  /** `code` is the first of the rules from `lo` to `hi` that the unit breaks, or OK. */
  ghost predicate FirstIn(u: RawUnit, lo: nat, hi: nat, code: Code) {
    && (code != OK ==> lo <= Rank(code) < hi && BreaksOwn(u, DecodeUnit(u), code))
    && forall c :: lo <= Rank(c) < (if code == OK then hi else Rank(code)) ==> !BreaksOwn(u, DecodeUnit(u), c)
  }

  lemma HoldsText(f: Bytes)
    ensures Holds(f, CStr(f)) <==> Canonical(f)
  {
    CStrPrefix(f);
  }

  lemma TextFirst(u: RawUnit)
    ensures FirstIn(u, 0, 3, TextErr(u))
  {
    hide NameOk, PathOk, GoodName, GoodPath, CStr, Canonical, Holds;
    HoldsText(Name(u));
    HoldsText(ExecPath(u));
    NameIff(CStr(Name(u)));
    PathIff(CStr(ExecPath(u)));
  }

  lemma LayerFirst(u: RawUnit)
    ensures FirstIn(u, 3, 7, LayerErr(u))
  {
    hide NameOk, GoodName, Canonical, CStr, Holds, HasBrick, Bricked;
    HoldsText(Layer(u));
    NameIff(CStr(Layer(u)));
    BrickIff(Brick(u));
    LayerStarts(u);
    EmptyLayer(Layer(u));
  }

  lemma BrickIff(b: Bytes)
    ensures HasBrick(b) <==> Bricked(b)
  {
  }

  lemma EmptyLayer(f: Bytes)
    ensures CStr(f) == [] ==> (Canonical(f) <==> !HasBrick(f))
  {
  }

  lemma ResSeen(u: RawUnit)
    ensures DecodeUnit(u).res == ResOf(u) && (DecodeUnit(u).layer != [] <==> Layer(u)[0] != 0)
  {
    LayerStarts(u);
  }

  lemma ResFirst(u: RawUnit)
    ensures FirstIn(u, 7, 14, ResErr(ResOf(u), Layer(u)[0] != 0))
  {
    hide DecodeUnit, GoodName, GoodPath, Bricked, Holds;
    ResSeen(u);
  }

  lemma TailFirst(u: RawUnit)
    ensures FirstIn(u, 14, 19, TailErr(u))
  {
    hide CStr, LeVal, GoodName, GoodPath, Bricked, Holds;
  }

  lemma FirstOfBoth(u: RawUnit, lo: nat, mid: nat, hi: nat, a: Code, b: Code)
    requires lo <= mid <= hi && FirstIn(u, lo, mid, a) && FirstIn(u, mid, hi, b)
    ensures FirstIn(u, lo, hi, Then(a, b))
  {
    hide BreaksOwn, DecodeUnit, Rank;
  }

  /** The rules a unit breaks on its own. */
  lemma OwnFirst(u: RawUnit)
    ensures FirstIn(u, 0, 19, UnitErr(u))
  {
    hide FirstIn, TextErr, LayerErr, ResErr, TailErr;
    TextFirst(u);
    LayerFirst(u);
    ResFirst(u);
    TailFirst(u);
    var res := ResErr(ResOf(u), Layer(u)[0] != 0);
    FirstOfBoth(u, 7, 14, 19, res, TailErr(u));
    FirstOfBoth(u, 3, 7, 19, LayerErr(u), Then(res, TailErr(u)));
    FirstOfBoth(u, 0, 3, 19, TextErr(u), Then(LayerErr(u), Then(res, TailErr(u))));
  }

  /* Among the others. */

  /** Unit `i` breaks the rule of `code`. */
  ghost predicate BreaksUnit(us: seq<RawUnit>, i: nat, code: Code)
    requires i < |us|
  {
    var x := DecodeUnit(us[i]);
    match code
    case E_DUPNAME => exists j :: 0 <= j < i && DecodeUnit(us[j]).name == x.name
    case E_LAYERDUP => x.layer != [] && exists j :: 0 <= j < i && DecodeUnit(us[j]).layer == x.layer
    case _ => BreaksOwn(us[i], x, code)
  }

  /** `code` is the first rule that unit `i` breaks, or OK. */
  ghost predicate FirstOfUnit(us: seq<RawUnit>, i: nat, code: Code)
    requires i < |us|
  {
    && (code != OK ==> BreaksUnit(us, i, code))
    && forall c :: (code != OK ==> Rank(c) < Rank(code)) ==> !BreaksUnit(us, i, c)
  }

  lemma DupNames(us: seq<RawUnit>, i: nat)
    requires i < |us|
    ensures BreaksUnit(us, i, E_DUPNAME) <==> exists j :: 0 <= j < i && SameName(us, j, i)
  {
    hide DecodeUnit, CStr;
    forall j | 0 <= j < i ensures DecodeUnit(us[j]).name == DecodeUnit(us[i]).name <==> SameName(us, j, i) {
      TextDecodes(us[j]);
      TextDecodes(us[i]);
    }
  }

  lemma DupLayers(us: seq<RawUnit>, i: nat)
    requires i < |us|
    ensures BreaksUnit(us, i, E_LAYERDUP) <==>
              Layer(us[i])[0] != 0 && exists j :: 0 <= j < i && SameLayer(us, j, i)
  {
    hide DecodeUnit, CStr;
    TextDecodes(us[i]);
    forall j | 0 <= j < i
      ensures DecodeUnit(us[i]).layer != [] ==>
                (DecodeUnit(us[j]).layer == DecodeUnit(us[i]).layer <==> SameLayer(us, j, i))
    {
      TextDecodes(us[j]);
    }
  }

  lemma OtherBreaks(us: seq<RawUnit>, i: nat, c: Code)
    requires i < |us| && c != E_DUPNAME && c != E_LAYERDUP
    ensures BreaksUnit(us, i, c) <==> BreaksOwn(us[i], DecodeUnit(us[i]), c)
    ensures Rank(c) >= 19 ==> !BreaksUnit(us, i, c)
  {
    hide DecodeUnit, GoodName, GoodPath, Bricked, Holds;
  }

  /** Whichever code unit `i` is refused with, its rule is broken and none before it is. */
  lemma UnitFirst(us: seq<RawUnit>, i: nat)
    requires i < |us|
    ensures FirstOfUnit(us, i, UnitCode(us, i))
  {
    hide UnitErr, DecodeUnit, SameName, SameLayer, BreaksUnit, BreaksOwn;
    OwnFirst(us[i]);
    DupNames(us, i);
    DupLayers(us, i);
    forall c: Code | c != E_DUPNAME && c != E_LAYERDUP
      ensures BreaksUnit(us, i, c) <==> BreaksOwn(us[i], DecodeUnit(us[i]), c)
      ensures Rank(c) >= 19 ==> !BreaksUnit(us, i, c)
    {
      OtherBreaks(us, i, c);
    }
  }

  /* The whole blob. */

  /** Bind `i` breaks the rule of `code`. */
  ghost predicate BreaksBind(p: Plan, field: Bytes, b: Bind, code: Code) {
    var pathOk := GoodPath(b.path) && Holds(field, b.path);
    match code
    case E_BINDPATH => b.unit < |p.units| && !pathOk
    case E_BINDIDX => b.unit >= |p.units| || (pathOk && !Bricked(p.units[b.unit].brick))
    case _ => false
  }

  /** Edge `i` breaks the rule of `code`. */
  ghost predicate BreaksEdge(p: Plan, i: nat, code: Code)
    requires i < |p.edges|
  {
    var e := p.edges[i];
    var joins := e.a < |p.units| && e.b < |p.units| && e.a != e.b;
    match code
    case E_EDGEIDX => !joins
    case E_LOCKEDGE => joins && (p.units[e.a].lock == 1 || p.units[e.b].lock == 1)
    case E_EDGEDUP =>
      joins && p.units[e.a].lock != 1 && p.units[e.b].lock != 1
      && exists j :: 0 <= j < i && SamePair(p.edges[j], e)
    case _ => false
  }

  lemma BindFirst(us: seq<RawUnit>, bs: seq<RawBind>, es: seq<RawEdge>, i: nat)
    requires i < |bs|
    ensures var p := DecodeTables(us, bs, es);
            var code := BindCode(us, bs[i]);
            if code == OK then forall c :: !BreaksBind(p, bs[i][2..130], p.binds[i], c)
            else BreaksBind(p, bs[i][2..130], p.binds[i], code)
  {
    var p := DecodeTables(us, bs, es);
    var b := p.binds[i];
    hide PathOk, GoodPath, HasBrick, Bricked, CStr, Holds, Canonical, LeVal, DecodeUnit;
    HoldsText(BindPath(bs[i]));
    PathIff(CStr(BindPath(bs[i])));
    if b.unit < |us| {
      BrickIff(Brick(us[b.unit]));
      TextDecodes(us[b.unit]);
    }
  }

  lemma EdgesSeen(us: seq<RawUnit>, bs: seq<RawBind>, es: seq<RawEdge>)
    ensures var p := DecodeTables(us, bs, es);
            && |p.units| == |us| && (forall k :: 0 <= k < |us| ==> p.units[k].lock == Lock(us[k]))
            && |p.edges| == |es| && forall k :: 0 <= k < |es| ==> p.edges[k] == Edge(EdgeA(es[k]), EdgeB(es[k]))
  {
    hide DecodeUnit, LeVal;
    forall k | 0 <= k < |us| ensures DecodeUnit(us[k]).lock == Lock(us[k]) {
      TextDecodes(us[k]);
    }
  }

  lemma EdgeFirst(us: seq<RawUnit>, bs: seq<RawBind>, es: seq<RawEdge>, i: nat)
    requires i < |es|
    ensures |DecodeTables(us, bs, es).edges| == |es|
    ensures var p := DecodeTables(us, bs, es);
            var code := EdgeCode(us, es, i);
            if code == OK then forall c :: !BreaksEdge(p, i, c) else BreaksEdge(p, i, code)
  {
    hide DecodeTables, LeVal;
    EdgesSeen(us, bs, es);
    var p := DecodeTables(us, bs, es);
    forall j | 0 <= j < i ensures SameEnds(es[i], es[j]) <==> SamePair(p.edges[j], p.edges[i]) {
    }
  }

  /** The first unit with a rule broken. */
  ghost predicate UnitRefused(us: seq<RawUnit>, code: Code) {
    code != OK
    && exists i: nat :: i < |us| && FirstOfUnit(us, i, code) && forall j: nat :: j < i ==> FirstOfUnit(us, j, OK)
  }

  ghost predicate UnitsFine(us: seq<RawUnit>) {
    forall i: nat :: i < |us| ==> FirstOfUnit(us, i, OK)
  }

  ghost predicate BindFine(p: Plan, bs: seq<RawBind>, i: nat)
    requires i < |p.binds| == |bs|
  {
    forall c :: !BreaksBind(p, bs[i][2..130], p.binds[i], c)
  }

  ghost predicate BindsFine(p: Plan, bs: seq<RawBind>)
    requires |p.binds| == |bs|
  {
    forall i: nat :: i < |bs| ==> BindFine(p, bs, i)
  }

  /** The first bind with its rule broken. */
  ghost predicate BindRefused(p: Plan, bs: seq<RawBind>, code: Code)
    requires |p.binds| == |bs|
  {
    exists i: nat ::
      i < |bs| && BreaksBind(p, bs[i][2..130], p.binds[i], code) && forall j: nat :: j < i ==> BindFine(p, bs, j)
  }

  ghost predicate EdgeFine(p: Plan, i: nat)
    requires i < |p.edges|
  {
    forall c :: !BreaksEdge(p, i, c)
  }

  ghost predicate EdgesFine(p: Plan) {
    forall i: nat :: i < |p.edges| ==> EdgeFine(p, i)
  }

  /** The first edge with its rule broken. */
  ghost predicate EdgeRefused(p: Plan, code: Code) {
    exists i: nat :: i < |p.edges| && BreaksEdge(p, i, code) && forall j: nat :: j < i ==> EdgeFine(p, j)
  }

  lemma {:induction false} FirstBadAt(codes: seq<Code>) returns (i: nat)
    ensures i <= |codes| && forall k :: 0 <= k < i ==> codes[k] == OK
    ensures if FirstBad(codes) == OK then i == |codes| else i < |codes| && codes[i] == FirstBad(codes)
  {
    if codes == [] || codes[0] != OK {
      i := 0;
    } else {
      i := FirstBadAt(codes[1..]);
      forall k | 0 <= k < i + 1 ensures codes[k] == OK {
        if k > 0 { assert codes[k] == codes[1..][k - 1]; }
      }
      i := i + 1;
    }
  }

  lemma UnitsTell(us: seq<RawUnit>)
    ensures var code := FirstBad(UnitCodes(us));
            if code == OK then UnitsFine(us) else !UnitsFine(us) && UnitRefused(us, code)
  {
    hide FirstBad, FirstOfUnit, UnitCode;
    var i := FirstBadAt(UnitCodes(us));
    forall j: nat | j < i ensures FirstOfUnit(us, j, OK) {
      UnitFirst(us, j);
      assert UnitCodes(us)[j] == OK;
    }
    if i < |us| {
      UnitFirst(us, i);
      NotFine(us, i, UnitCodes(us)[i]);
    }
  }

  lemma NotFine(us: seq<RawUnit>, i: nat, code: Code)
    requires i < |us| && FirstOfUnit(us, i, code) && code != OK
    ensures !FirstOfUnit(us, i, OK)
  {
    hide BreaksUnit;
  }

  lemma BindsTell(us: seq<RawUnit>, bs: seq<RawBind>, es: seq<RawEdge>)
    ensures var p := DecodeTables(us, bs, es);
            var code := FirstBad(BindCodes(us, bs));
            |p.binds| == |bs|
            && if code == OK then BindsFine(p, bs) else !BindsFine(p, bs) && BindRefused(p, bs, code)
  {
    hide FirstBad, BindCode, BreaksBind;
    CountsBack(us, bs, es);
    hide DecodeTables;
    var i := FirstBadAt(BindCodes(us, bs));
    forall j: nat | j < i ensures BindFine(DecodeTables(us, bs, es), bs, j) {
      BindFirst(us, bs, es, j);
      assert BindCodes(us, bs)[j] == OK;
    }
    if i < |bs| {
      BindFirst(us, bs, es, i);
      assert BindCodes(us, bs)[i] == BindCode(us, bs[i]);
      assert !BindFine(DecodeTables(us, bs, es), bs, i);
    }
  }

  lemma EdgesTell(us: seq<RawUnit>, bs: seq<RawBind>, es: seq<RawEdge>)
    ensures var p := DecodeTables(us, bs, es);
            var code := FirstBad(EdgeCodes(us, es));
            if code == OK then EdgesFine(p) else !EdgesFine(p) && EdgeRefused(p, code)
  {
    hide FirstBad, EdgeCode, BreaksEdge;
    CountsBack(us, bs, es);
    hide DecodeTables;
    var i := FirstBadAt(EdgeCodes(us, es));
    forall j: nat | j < i ensures EdgeFine(DecodeTables(us, bs, es), j) {
      EdgeFirst(us, bs, es, j);
      assert EdgeCodes(us, es)[j] == OK;
    }
    if i < |es| {
      EdgeFirst(us, bs, es, i);
      assert EdgeCodes(us, es)[i] == EdgeCode(us, es, i);
      assert !EdgeFine(DecodeTables(us, bs, es), i);
    }
  }

  /** The header of `b` breaks the rule of `code`. */
  predicate BreaksHeader(b: Bytes, code: Code)
    requires |b| >= 24
  {
    var nu, nb, ne := Num(b, 8, 4), Num(b, 12, 4), Num(b, 16, 4);
    match code
    case E_MAGIC => b[0..8] != [78, 87, 80, 76, 65, 78, 49, 50]
    case E_UNITS => nu == 0 || nu > 64
    case E_BINDS => nb > 128
    case E_EDGES => ne > 128
    case E_SIZE => |b| != 24 + 288 * nu + 130 * nb + 4 * ne
    case E_CRC => Crc.Crc32(b[..20] + [0, 0, 0, 0] + b[24..]) as nat != Num(b, 20, 4)
    case _ => false
  }

  function HeaderRank(code: Code): nat {
    match code
    case E_MAGIC => 0
    case E_UNITS => 1
    case E_BINDS => 2
    case E_EDGES => 3
    case E_SIZE => 4
    case E_CRC => 5
    case _ => 6
  }

  ghost predicate HeaderFine(b: Bytes)
    requires |b| >= 24
  {
    forall c :: !BreaksHeader(b, c)
  }

  /** `code` is the first rule the header breaks. */
  ghost predicate HeaderRefused(b: Bytes, code: Code)
    requires |b| >= 24
  {
    BreaksHeader(b, code) && forall c :: HeaderRank(c) < HeaderRank(code) ==> !BreaksHeader(b, c)
  }

  lemma HeaderTells(b: Bytes)
    requires |b| >= 24
    ensures HeaderFine(b) ==> TablesOf(b).Sized() && Verdict(b) == TablesCode(TablesOf(b))
    ensures !HeaderFine(b) ==> HeaderRefused(b, Verdict(b))
  {
    hide TablesCode, Crc.Crc32, LeVal;
    var t := TablesOf(b);
    assert BreaksHeader(b, E_MAGIC) <==> b[..8] != MAGIC;
    assert BreaksHeader(b, E_UNITS) <==> t.nu < 1 || t.nu > MAX_UNITS;
    assert BreaksHeader(b, E_BINDS) <==> t.nb > MAX_BINDS;
    assert BreaksHeader(b, E_EDGES) <==> t.ne > MAX_EDGES;
    assert BreaksHeader(b, E_SIZE) <==> !t.Sized();
    assert BreaksHeader(b, E_CRC) <==> Crc.Crc32(ZeroedHeader(b) + b[HDR_SIZE..]) as nat != Num(b, 20, 4);
  }

  /** The tables: the first unit with a rule broken, or else the first bind, or else the first edge. */
  ghost predicate TablesTold(t: Tables, code: Code)
    requires t.Sized()
  {
    var us, bs := t.Units(), t.Binds();
    var p := DecodeTables(us, bs, t.Edges());
    |p.binds| == |bs| &&
    if !UnitsFine(us) then UnitRefused(us, code)
    else if !BindsFine(p, bs) then BindRefused(p, bs, code)
    else if !EdgesFine(p) then EdgeRefused(p, code)
    else code == OK
  }

  lemma TablesTell(t: Tables)
    requires t.Sized()
    ensures TablesTold(t, TablesCode(t))
  {
    hide DecodeTables, FirstBad, UnitsFine, BindsFine, EdgesFine, UnitRefused, BindRefused, EdgeRefused, UnitCodes,
      BindCodes, EdgeCodes;
    var us, bs, es := t.Units(), t.Binds(), t.Edges();
    UnitsTell(us);
    BindsTell(us, bs, es);
    EdgesTell(us, bs, es);
  }

  /** Whichever code nw_check gives, its rule is the first broken: of the header, or else of the tables. */
  lemma RefusalTells(b: Bytes)
    ensures |b| < 24 ==> Verdict(b) == E_SIZE
    ensures |b| >= 24 && !HeaderFine(b) ==> HeaderRefused(b, Verdict(b))
    ensures |b| >= 24 && HeaderFine(b) ==> TablesOf(b).Sized() && TablesTold(TablesOf(b), Verdict(b))
  {
    hide HeaderFine, HeaderRefused, TablesTold, TablesCode, TablesOf;
    if |b| >= 24 {
      HeaderTells(b);
      if HeaderFine(b) {
        TablesTell(TablesOf(b));
      }
    }
  }
}
