/** nwcheck.c: nw_check. */
module Check {
  import opened Bytes
  import opened Blob
  import Crc
  import opened DupTable
  import opened Prelude

  datatype Code =
    | OK | E_MAGIC | E_UNITS | E_SIZE | E_CRC | E_NAME | E_DUPNAME | E_PATH | E_LIDS | E_KIND
    | E_BRICKNS | E_BINDS | E_BINDIDX | E_BINDPATH | E_LLBRICK | E_LAYER | E_LAYERPAIR | E_LAYERDUP
    | E_RESWEIGHT | E_RESSCHED | E_RESNICE | E_MEMORDER | E_NICEPOL | E_CAPNOLAYER
    | E_EDGES | E_EDGEIDX | E_EDGEDUP | E_LOCK | E_LOCKEDGE | E_STOPSIG | E_SUPDEATH
    | E_OOMRANGE | E_GRACERANGE

  /* The table accessors and the fields at their pinned offsets. */

  function Num(b: Bytes, at: nat, w: nat): nat
    requires at + w <= |b|
  {
    LeVal(b[at..at + w])
  }

  function Int8(v: byte): int { if v < 128 then v else v - 256 }

  function Int16(v: nat): int { if v < 32768 then v else v - 65536 }

  type RawUnit = u: Bytes | |u| == UNIT_SIZE witness Zeros(UNIT_SIZE)
  type RawBind = b: Bytes | |b| == BIND_SIZE witness Zeros(BIND_SIZE)
  type RawEdge = e: Bytes | |e| == EDGE_SIZE witness Zeros(EDGE_SIZE)

  function Name(u: RawUnit): Bytes { u[0..32] }
  function ExecPath(u: RawUnit): Bytes { u[32..160] }
  function Brick(u: RawUnit): Bytes { u[160..192] }
  function Layer(u: RawUnit): Bytes { u[192..224] }
  function Lids(u: RawUnit): nat { u[226] }
  function Lock(u: RawUnit): nat { u[227] }

  function ResOf(u: RawUnit): Res {
    Res(Num(u, 228, 8), Num(u, 236, 8), Num(u, 244, 8), Num(u, 252, 8), Num(u, 260, 2),
        Int8(u[262]), u[263], Num(u, 264, 4), Int16(Num(u, 268, 2)))
  }

  function DecodeUnit(u: RawUnit): Unit {
    Unit(CStr(Name(u)), CStr(ExecPath(u)), Brick(u), CStr(Layer(u)),
         u[224], u[225], Lids(u), Lock(u), ResOf(u),
         u[270], Num(u, 271, 4), Num(u, 275, 4), Num(u, 279, 8), u[287])
  }

  function BindUnit(b: RawBind): nat { Num(b, 0, 2) }
  function BindPath(b: RawBind): Bytes { b[2..130] }
  function EdgeA(e: RawEdge): nat { Num(e, 0, 2) }
  function EdgeB(e: RawEdge): nat { Num(e, 2, 2) }

  /** Everything after the text is NUL. */
  predicate Canonical(f: Bytes) {
    forall i :: |CStr(f)| <= i < |f| ==> f[i] == 0
  }

  predicate NameField(f: Bytes) { NameOk(CStr(f)) && Canonical(f) }
  predicate PathField(f: Bytes) { PathOk(CStr(f)) && Canonical(f) }

  /** name_ok. */
  method NameOkField(s: Bytes) returns (ok: bool)
    requires |s| == NAME_LEN
    ensures ok == NameField(s)
  {
    CStrPrefix(s);
    if s[0] == 0 {
      return false;
    }
    var n := 0;
    while n < |s| && s[n] != 0
      invariant 0 <= n <= |s|
      invariant NoNul(s[..n])
      invariant forall i :: 0 <= i < n ==> NameChar(s[i])
    {
      if !NameChar(s[n]) {
        CStrCovers(s, n);
        return false;
      }
      n := n + 1;
    }
    CStrIs(s, n);
    if n == 0 || n >= |s| {
      return false;
    }
    for i := n to |s|
      invariant forall k :: n <= k < i ==> s[k] == 0
    {
      if s[i] != 0 {
        return false;
      }
    }
    return true;
  }

  /** A slash followed by two dots and then by a slash or the end. */
  predicate Climbs(p: Bytes, i: nat) {
    && i + 2 < |p| && p[i] == SLASH && p[i + 1] == DOT && p[i + 2] == DOT
    && (i + 3 == |p| || p[i + 3] == SLASH)
  }

  /** The first component is "..". */
  predicate StartsUp(p: Bytes) {
    2 <= |p| && p[0] == DOT && p[1] == DOT && (|p| == 2 || p[2] == SLASH)
  }

  ghost predicate HasClimb(p: Bytes) {
    exists i: nat :: Climbs(p, i)
  }

  lemma ClimbStep(p: Bytes)
    requires p != []
    ensures HasClimb(p) <==> Climbs(p, 0) || HasClimb(p[1..])
  {
    forall i: nat ensures Climbs(p, i + 1) <==> Climbs(p[1..], i) {
    }
    if HasClimb(p) {
      var i: nat :| Climbs(p, i);
      assert i > 0 ==> Climbs(p[1..], i - 1);
    }
    if HasClimb(p[1..]) {
      var i: nat :| Climbs(p[1..], i);
      assert Climbs(p, i + 1);
    }
  }

  lemma Prepended(c: int, s: seq<int>)
    ensures [c] + s == DOTDOT <==> c == DOT && s == [DOT]
    ensures [c] + s == [DOT] <==> c == DOT && s == []
    ensures [c] + s != []
  {
    assert ([c] + s)[1..] == s && ([c] + s)[0] == c;
    assert DOTDOT[1..] == [DOT];
  }

  /** Scanning for "/.." finds exactly the ".." components after the first. */
  lemma {:induction false} SplitScan(p: Bytes)
    ensures Split(p)[0] == DOTDOT <==> StartsUp(p)
    ensures Split(p)[0] == [DOT] <==> |p| >= 1 && p[0] == DOT && (|p| == 1 || p[1] == SLASH)
    ensures Split(p)[0] == [] <==> p == [] || p[0] == SLASH
    ensures DOTDOT in Split(p)[1..] <==> HasClimb(p)
  {
    if p != [] {
      var q := p[1..];
      var r := Split(q);
      SplitScan(q);
      ClimbStep(p);
      if p[0] == SLASH {
        assert Split(p)[1..] == r == [r[0]] + r[1..];
        assert Climbs(p, 0) <==> StartsUp(q);
      } else {
        assert Split(p)[1..] == r[1..];
        Prepended(p[0], r[0]);
      }
    }
  }

  /** path_ok_len: the reads past `n` stop at the terminating NUL. */
  method PathOkField(s: Bytes) returns (ok: bool)
    requires |s| == PATH_LEN
    ensures ok == PathField(s)
  {
    hide CStr, Split;
    CStrPrefix(s);
    if s[0] != SLASH {
      assert CStr(s) != [] ==> CStr(s)[0] == s[0];
      return false;
    }
    var n := 0;
    while n < |s| && s[n] != 0
      invariant 0 <= n <= |s|
      invariant NoNul(s[..n])
      invariant forall i :: 0 <= i < n ==> PlainByte(s[i])
    {
      if s[n] < 32 || s[n] == 127 {
        CStrCovers(s, n);
        return false;
      }
      n := n + 1;
    }
    CStrIs(s, n);
    var p := s[..n];
    if n < 2 || n >= |s| {
      return false;
    }
    for i := n to |s|
      invariant forall k :: n <= k < i ==> s[k] == 0
    {
      if s[i] != 0 {
        return false;
      }
    }
    SplitScan(p);
    for i := 0 to n
      invariant forall k: nat :: k < i ==> !Climbs(p, k)
    {
      if s[i] == SLASH && s[i + 1] == DOT && s[i + 2] == DOT && (s[i + 3] == SLASH || s[i + 3] == 0) {
        assert Climbs(p, i);
        assert DOTDOT in Split(p)[1..];
        return false;
      }
    }
    var r := Split(p);
    assert r == [r[0]] + r[1..];
    return true;
  }

  /** nw_unit_has_brick. */
  method UnitHasBrick(brick: Bytes) returns (has: bool)
    ensures has == HasBrick(brick)
  {
    has := false;
    for k := 0 to |brick|
      invariant has == exists j :: 0 <= j < k && brick[j] != 0
    {
      has := has || brick[k] != 0;
    }
  }

  function Then(first: Code, second: Code): Code {
    if first != OK then first else second
  }

  /** The first rule that one unit breaks on its own. */
  function UnitErr(u: RawUnit): Code {
    Then(TextErr(u), Then(LayerErr(u), Then(ResErr(ResOf(u), Layer(u)[0] != 0), TailErr(u))))
  }

  function TextErr(u: RawUnit): Code {
    if !NameField(Name(u)) then E_NAME
    else if !PathField(ExecPath(u)) then E_PATH
    else if u[224] != ONESHOT && u[224] != LONGRUN then E_KIND
    else OK
  }

  function LayerErr(u: RawUnit): Code {
    var brick := HasBrick(Brick(u));
    var layered := Layer(u)[0] != 0;
    if HasLandlock(Lids(u)) && !brick then E_LLBRICK
    else if brick && !HasNewns(Lids(u)) then E_BRICKNS
    else if layered && !NameField(Layer(u)) then E_LAYER
    else if !layered && HasBrick(Layer(u)) then E_LAYER
    else if layered != brick then E_LAYERPAIR
    else OK
  }

  function ResErr(r: Res, layered: bool): Code {
    if r.cpuWeight > CPU_WEIGHT_MAX then E_RESWEIGHT
    else if r.schedPolicy > SCHED_MAX then E_RESSCHED
    else if r.nice < NICE_MIN || r.nice > NICE_MAX then E_RESNICE
    else if r.oomScoreAdj < OOM_ADJ_MIN || r.oomScoreAdj > OOM_ADJ_MAX then E_OOMRANGE
    else if r.memHigh != 0 && r.memMax != 0 && r.memHigh >= r.memMax then E_MEMORDER
    else if r.nice != 0 && r.schedPolicy != SCHED_OTHER then E_NICEPOL
    else if r.layerBytes != 0 && !layered then E_CAPNOLAYER
    else OK
  }

  function TailErr(u: RawUnit): Code {
    if Lock(u) > UNLOCKED then E_LOCK
    else if u[270] > STOPSIG_MAX then E_STOPSIG
    else if Num(u, 271, 4) > GRACE_MAX_MS then E_GRACERANGE
    else if u[287] != 0 then E_SUPDEATH
    else if Lids(u) / 16 != 0 then E_LIDS
    else OK
  }

  method CheckText(u: RawUnit) returns (code: Code)
    ensures code == TextErr(u)
  {
    var nameOk := NameOkField(Name(u));
    if !nameOk { return E_NAME; }
    var pathOk := PathOkField(ExecPath(u));
    if !pathOk { return E_PATH; }
    if u[224] != ONESHOT && u[224] != LONGRUN { return E_KIND; }
    return OK;
  }

  method CheckLayer(u: RawUnit) returns (code: Code)
    ensures code == LayerErr(u)
  {
    var hasBrick := UnitHasBrick(Brick(u));
    if HasLandlock(Lids(u)) && !hasBrick { return E_LLBRICK; }
    if hasBrick && !HasNewns(Lids(u)) { return E_BRICKNS; }
    var hasLayer := Layer(u)[0] != 0;
    if hasLayer {
      var layerOk := NameOkField(Layer(u));
      if !layerOk { return E_LAYER; }
    } else {
      for k := 0 to NAME_LEN
        invariant forall j :: 0 <= j < k ==> Layer(u)[j] == 0
      {
        if Layer(u)[k] != 0 { return E_LAYER; }
      }
    }
    if hasLayer != hasBrick { return E_LAYERPAIR; }
    return OK;
  }

  method CheckRes(r: Res, hasLayer: bool) returns (code: Code)
    ensures code == ResErr(r, hasLayer)
  {
    if r.cpuWeight > CPU_WEIGHT_MAX { return E_RESWEIGHT; }
    if r.schedPolicy > SCHED_MAX { return E_RESSCHED; }
    if r.nice < NICE_MIN || r.nice > NICE_MAX { return E_RESNICE; }
    if r.oomScoreAdj < OOM_ADJ_MIN || r.oomScoreAdj > OOM_ADJ_MAX { return E_OOMRANGE; }
    if r.memHigh != 0 && r.memMax != 0 && r.memHigh >= r.memMax { return E_MEMORDER; }
    if r.nice != 0 && r.schedPolicy != SCHED_OTHER { return E_NICEPOL; }
    if r.layerBytes != 0 && !hasLayer { return E_CAPNOLAYER; }
    return OK;
  }

  method CheckTail(u: RawUnit) returns (code: Code)
    ensures code == TailErr(u)
  {
    if Lock(u) > UNLOCKED { return E_LOCK; }
    if u[270] > STOPSIG_MAX { return E_STOPSIG; }
    if Num(u, 271, 4) > GRACE_MAX_MS { return E_GRACERANGE; }
    if u[287] != 0 { return E_SUPDEATH; }
    if Lids(u) / 16 != 0 { return E_LIDS; }
    return OK;
  }

  method CheckUnit(u: RawUnit) returns (code: Code)
    ensures code == UnitErr(u)
  {
    code := CheckText(u);
    if code != OK { return; }
    code := CheckLayer(u);
    if code != OK { return; }
    code := CheckRes(ResOf(u), Layer(u)[0] != 0);
    if code != OK { return; }
    code := CheckTail(u);
  }

  /* The tables. */

  function BlobSize(nu: nat, nb: nat, ne: nat): nat {
    HDR_SIZE + nu * UNIT_SIZE + nb * BIND_SIZE + ne * EDGE_SIZE
  }

  /** A blob as long as its own counts say. */
  datatype Tables = Tables(blob: Bytes, nu: nat, nb: nat, ne: nat) {
    ghost predicate Sized() { |blob| == BlobSize(nu, nb, ne) }

    function Unit(i: nat): RawUnit
      requires Sized() && i < nu
    {
      blob[HDR_SIZE + i * UNIT_SIZE..HDR_SIZE + i * UNIT_SIZE + UNIT_SIZE]
    }

    function Bind(i: nat): RawBind
      requires Sized() && i < nb
    {
      var at := HDR_SIZE + nu * UNIT_SIZE + i * BIND_SIZE;
      blob[at..at + BIND_SIZE]
    }

    function Edge(i: nat): RawEdge
      requires Sized() && i < ne
    {
      var at := HDR_SIZE + nu * UNIT_SIZE + nb * BIND_SIZE + i * EDGE_SIZE;
      blob[at..at + EDGE_SIZE]
    }

    function Units(): (us: seq<RawUnit>)
      requires Sized()
      ensures |us| == nu
    {
      seq(nu, i requires 0 <= i < nu && Sized() => Unit(i))
    }

    function Binds(): (bs: seq<RawBind>)
      requires Sized()
      ensures |bs| == nb
    {
      seq(nb, i requires 0 <= i < nb && Sized() => Bind(i))
    }

    function Edges(): (es: seq<RawEdge>)
      requires Sized()
      ensures |es| == ne
    {
      seq(ne, i requires 0 <= i < ne && Sized() => Edge(i))
    }
  }

  predicate SameName(us: seq<RawUnit>, j: nat, i: nat)
    requires j < |us| && i < |us|
  {
    SameText(Name(us[j]), Name(us[i]))
  }

  predicate SameLayer(us: seq<RawUnit>, j: nat, i: nat)
    requires j < |us| && i < |us|
  {
    Layer(us[j])[0] != 0 && SameText(Layer(us[j]), Layer(us[i]))
  }

  /** What unit `i` is refused for, given the units before it. */
  function UnitCode(us: seq<RawUnit>, i: nat): Code
    requires i < |us|
  {
    if UnitErr(us[i]) != OK then UnitErr(us[i])
    else if exists j :: 0 <= j < i && SameName(us, j, i) then E_DUPNAME
    else if Layer(us[i])[0] != 0 && exists j :: 0 <= j < i && SameLayer(us, j, i) then E_LAYERDUP
    else OK
  }

  function BindCode(us: seq<RawUnit>, b: RawBind): Code {
    if BindUnit(b) >= |us| then E_BINDIDX
    else if !PathField(BindPath(b)) then E_BINDPATH
    else if !HasBrick(Brick(us[BindUnit(b)])) then E_BINDIDX
    else OK
  }

  predicate SameEnds(e: RawEdge, f: RawEdge) {
    (EdgeA(e) == EdgeA(f) && EdgeB(e) == EdgeB(f)) || (EdgeA(e) == EdgeB(f) && EdgeB(e) == EdgeA(f))
  }

  function EdgeCode(us: seq<RawUnit>, es: seq<RawEdge>, i: nat): Code
    requires i < |es|
  {
    var e := es[i];
    if EdgeA(e) >= |us| || EdgeB(e) >= |us| || EdgeA(e) == EdgeB(e) then E_EDGEIDX
    else if Lock(us[EdgeA(e)]) == UNLOCKED || Lock(us[EdgeB(e)]) == UNLOCKED then E_LOCKEDGE
    else if exists j :: 0 <= j < i && SameEnds(e, es[j]) then E_EDGEDUP
    else OK
  }

  /** The first code that is not OK, or OK. */
  function FirstBad(codes: seq<Code>): Code {
    if codes == [] then OK else if codes[0] != OK then codes[0] else FirstBad(codes[1..])
  }

  lemma {:induction false} FirstBadIs(codes: seq<Code>, i: nat)
    requires i <= |codes| && forall k :: 0 <= k < i ==> codes[k] == OK
    ensures i == |codes| ==> FirstBad(codes) == OK
    ensures i < |codes| && codes[i] != OK ==> FirstBad(codes) == codes[i]
  {
    if i > 0 {
      FirstBadIs(codes[1..], i - 1);
    }
  }

  lemma {:induction false} NoneBad(codes: seq<Code>)
    requires FirstBad(codes) == OK
    ensures forall k :: 0 <= k < |codes| ==> codes[k] == OK
  {
    if codes != [] {
      NoneBad(codes[1..]);
      forall k | 0 <= k < |codes| ensures codes[k] == OK {
        if k > 0 { assert codes[k] == codes[1..][k - 1]; }
      }
    }
  }

  function UnitCodes(us: seq<RawUnit>): seq<Code> {
    seq(|us|, i requires 0 <= i < |us| => UnitCode(us, i))
  }

  function BindCodes(us: seq<RawUnit>, bs: seq<RawBind>): seq<Code> {
    seq(|bs|, i requires 0 <= i < |bs| => BindCode(us, bs[i]))
  }

  function EdgeCodes(us: seq<RawUnit>, es: seq<RawEdge>): seq<Code> {
    seq(|es|, i requires 0 <= i < |es| => EdgeCode(us, es, i))
  }

  function TablesCode(t: Tables): Code
    requires t.Sized()
  {
    var us := t.Units();
    Then(FirstBad(UnitCodes(us)), Then(FirstBad(BindCodes(us, t.Binds())), FirstBad(EdgeCodes(us, t.Edges()))))
  }

  /** The header with its checksum field zeroed. */
  function ZeroedHeader(b: Bytes): Bytes
    requires |b| >= HDR_SIZE
  {
    b[..20] + [0, 0, 0, 0]
  }

  function TablesOf(b: Bytes): Tables
    requires |b| >= HDR_SIZE
  {
    Tables(b, Num(b, 8, 4), Num(b, 12, 4), Num(b, 16, 4))
  }

  /** The verdict of nw_check: the code of the first rule broken, in the order it looks. */
  function Verdict(b: Bytes): Code {
    if |b| < HDR_SIZE then E_SIZE
    else
      var t := TablesOf(b);
      if b[..8] != MAGIC then E_MAGIC
      else if t.nu < 1 || t.nu > MAX_UNITS then E_UNITS
      else if t.nb > MAX_BINDS then E_BINDS
      else if t.ne > MAX_EDGES then E_EDGES
      else if |b| != BlobSize(t.nu, t.nb, t.ne) then E_SIZE
      else if Crc.Crc32(ZeroedHeader(b) + b[HDR_SIZE..]) as nat != Num(b, 20, 4) then E_CRC
      else TablesCode(t)
  }

  ghost function LayeredBefore(us: seq<RawUnit>, i: nat): (s: set<nat>)
    requires i <= |us|
    ensures s <= Numbers(0, i)
  {
    set j | j in Numbers(0, i) && Layer(us[j])[0] != 0
  }

  function Names(us: seq<RawUnit>): (fs: seq<Bytes>)
    ensures |fs| == |us| && forall k :: 0 <= k < |us| ==> fs[k] == Name(us[k]) && |fs[k]| == NAME_LEN
  {
    seq(|us|, i requires 0 <= i < |us| => Name(us[i]))
  }

  function Layers(us: seq<RawUnit>): (fs: seq<Bytes>)
    ensures |fs| == |us| && forall k :: 0 <= k < |us| ==> fs[k] == Layer(us[k]) && |fs[k]| == NAME_LEN
  {
    seq(|us|, i requires 0 <= i < |us| => Layer(us[i]))
  }

  /** The two duplicate tables before unit `i`: every earlier name, every earlier layer. */
  ghost predicate Seen(us: seq<RawUnit>, i: nat, dup: seq<int>, lay: seq<int>)
    requires i <= |us|
  {
    Holds(Home, dup, Names(us), Numbers(0, i)) && Holds(Home, lay, Layers(us), LayeredBefore(us, i))
  }

  lemma NothingSeen(us: seq<RawUnit>)
    ensures Seen(us, 0, Empty(), Empty())
  {
    EmptyHolds(Home, Names(us));
    EmptyHolds(Home, Layers(us));
    assert LayeredBefore(us, 0) == {};
  }

  method CheckUnits(us: seq<RawUnit>) returns (code: Code)
    requires |us| <= MAX_UNITS
    ensures code == FirstBad(UnitCodes(us))
  {
    var dup := NewTable();
    var lay := NewTable();
    NothingSeen(us);
    ghost var at;
    code, at := UnitLoop(us, dup, lay);
    FirstBadUnit(us, at);
  }

  /** `at` is where the loop stopped. */
  method UnitLoop(us: seq<RawUnit>, dup: array<int>, lay: array<int>) returns (code: Code, ghost at: nat)
    requires |us| <= MAX_UNITS
    requires dup != lay && dup.Length == SLOTS && lay.Length == SLOTS
    requires Seen(us, 0, dup[..], lay[..])
    modifies dup, lay
    ensures at <= |us|
    ensures forall k: nat {:trigger UnitCode(us, k)} :: k < at ==> UnitCode(us, k) == OK
    ensures if at == |us| then code == OK else code == UnitCode(us, at) && code != OK
  {
    hide Seen, UnitCode;
    for i := 0 to |us|
      invariant Seen(us, i, dup[..], lay[..])
      invariant forall k: nat {:trigger UnitCode(us, k)} :: k < i ==> UnitCode(us, k) == OK
    {
      code := CheckOne(us, i, dup, lay);
      if code != OK {
        return code, i;
      }
    }
    return OK, |us|;
  }

  lemma FirstBadUnit(us: seq<RawUnit>, at: nat)
    requires at <= |us|
    requires forall k: nat {:trigger UnitCode(us, k)} :: k < at ==> UnitCode(us, k) == OK
    requires at < |us| ==> UnitCode(us, at) != OK
    ensures FirstBad(UnitCodes(us)) == if at == |us| then OK else UnitCode(us, at)
  {
    var codes := UnitCodes(us);
    forall k | 0 <= k < at ensures codes[k] == OK {
      assert codes[k] == UnitCode(us, k);
    }
    FirstBadIs(codes, at);
  }

  /** One turn of the unit loop, with both tables carried along. */
  method CheckOne(us: seq<RawUnit>, i: nat, dup: array<int>, lay: array<int>) returns (code: Code)
    requires i < |us| <= MAX_UNITS
    requires dup != lay && dup.Length == SLOTS && lay.Length == SLOTS
    requires Seen(us, i, dup[..], lay[..])
    modifies dup, lay
    ensures code == UnitCode(us, i)
    ensures code == OK ==> Seen(us, i + 1, dup[..], lay[..])
  {
    hide UnitErr, Holds;
    code := CheckUnit(us[i]);
    if code != OK {
      return;
    }
    var d := NameDup(us, i, dup);
    if d {
      return E_DUPNAME;
    }
    if Layer(us[i])[0] != 0 {
      var l := LayerDup(us, i, lay);
      if l {
        return E_LAYERDUP;
      }
    } else {
      LayeredSize(us, i);
    }
    return OK;
  }

  method NameDup(us: seq<RawUnit>, i: nat, dup: array<int>) returns (d: bool)
    requires i < |us| <= MAX_UNITS && dup.Length == SLOTS
    requires Holds(Home, dup[..], Names(us), Numbers(0, i))
    modifies dup
    ensures d <==> exists j :: 0 <= j < i && SameName(us, j, i)
    ensures !d ==> Holds(Home, dup[..], Names(us), Numbers(0, i + 1))
  {
    hide Numbers, Holds;
    var names := Names(us);
    d := FieldDup(dup, names, i, Numbers(0, i));
    OneMoreNumber(i);
    if d {
      ghost var j :| j in Numbers(0, i) && SameText(names[j], names[i]);
      assert SameName(us, j, i);
    }
    forall j | 0 <= j < i && SameName(us, j, i) ensures d {
      assert j in Numbers(0, i) && SameText(names[j], names[i]);
    }
  }

  method LayerDup(us: seq<RawUnit>, i: nat, lay: array<int>) returns (l: bool)
    requires i < |us| <= MAX_UNITS && lay.Length == SLOTS && Layer(us[i])[0] != 0
    requires Holds(Home, lay[..], Layers(us), LayeredBefore(us, i))
    modifies lay
    ensures l <==> exists j :: 0 <= j < i && SameLayer(us, j, i)
    ensures !l ==> Holds(Home, lay[..], Layers(us), LayeredBefore(us, i + 1))
  {
    hide Numbers, Holds, Layer;
    var layers := Layers(us);
    LayeredSize(us, i);
    l := FieldDup(lay, layers, i, LayeredBefore(us, i));
    if l {
      ghost var j :| j in LayeredBefore(us, i) && SameText(layers[j], layers[i]);
      assert SameLayer(us, j, i);
    }
    forall j | 0 <= j < i && SameLayer(us, j, i) ensures l {
      assert j in LayeredBefore(us, i) && SameText(layers[j], layers[i]);
    }
  }

  lemma LayeredSize(us: seq<RawUnit>, i: nat)
    requires i < |us|
    ensures |LayeredBefore(us, i)| <= i
    ensures Layer(us[i])[0] != 0 ==> LayeredBefore(us, i + 1) == LayeredBefore(us, i) + {i}
    ensures Layer(us[i])[0] == 0 ==> LayeredBefore(us, i + 1) == LayeredBefore(us, i)
  {
    hide Numbers, Layer;
    OneMoreNumber(i);
    SubsetSize(LayeredBefore(us, i), Numbers(0, i));
  }

  method CheckBinds(us: seq<RawUnit>, bs: seq<RawBind>) returns (code: Code)
    ensures code == FirstBad(BindCodes(us, bs))
  {
    for i := 0 to |bs|
      invariant forall k :: 0 <= k < i ==> BindCodes(us, bs)[k] == OK
    {
      code := CheckBind(us, bs[i]);
      if code != OK {
        FirstBadIs(BindCodes(us, bs), i);
        return;
      }
    }
    FirstBadIs(BindCodes(us, bs), |bs|);
    return OK;
  }

  method CheckBind(us: seq<RawUnit>, b: RawBind) returns (code: Code)
    ensures code == BindCode(us, b)
  {
    if BindUnit(b) >= |us| { return E_BINDIDX; }
    var pathOk := PathOkField(BindPath(b));
    if !pathOk { return E_BINDPATH; }
    var hasBrick := UnitHasBrick(Brick(us[BindUnit(b)]));
    if !hasBrick { return E_BINDIDX; }
    return OK;
  }

  method CheckEdges(us: seq<RawUnit>, es: seq<RawEdge>) returns (code: Code)
    ensures code == FirstBad(EdgeCodes(us, es))
  {
    for i := 0 to |es|
      invariant forall k :: 0 <= k < i ==> EdgeCodes(us, es)[k] == OK
    {
      code := CheckEdge(us, es, i);
      if code != OK {
        FirstBadIs(EdgeCodes(us, es), i);
        return;
      }
    }
    FirstBadIs(EdgeCodes(us, es), |es|);
    return OK;
  }

  method CheckEdge(us: seq<RawUnit>, es: seq<RawEdge>, i: nat) returns (code: Code)
    requires i < |es|
    ensures code == EdgeCode(us, es, i)
  {
    var e := es[i];
    if EdgeA(e) >= |us| || EdgeB(e) >= |us| || EdgeA(e) == EdgeB(e) { return E_EDGEIDX; }
    if Lock(us[EdgeA(e)]) == UNLOCKED || Lock(us[EdgeB(e)]) == UNLOCKED { return E_LOCKEDGE; }
    for j := 0 to i
      invariant forall k :: 0 <= k < j ==> !SameEnds(e, es[k])
    {
      if SameEnds(e, es[j]) { return E_EDGEDUP; }
    }
    return OK;
  }

  /** nw_check. */
  method NwCheck(b: Bytes) returns (code: Code)
    ensures code == Verdict(b)
  {
    if |b| < HDR_SIZE { return E_SIZE; }
    for i := 0 to 8
      invariant b[..i] == MAGIC[..i]
    {
      assert b[..i + 1] == b[..i] + [b[i]];
      if b[i] != MAGIC[i] {
        assert b[..8][i] != MAGIC[i];
        return E_MAGIC;
      }
    }
    var t := TablesOf(b);
    if t.nu < 1 || t.nu > MAX_UNITS { return E_UNITS; }
    if t.nb > MAX_BINDS { return E_BINDS; }
    if t.ne > MAX_EDGES { return E_EDGES; }
    if |b| != BlobSize(t.nu, t.nb, t.ne) { return E_SIZE; }
    var c := Crc.Crc32Split(ZeroedHeader(b), b[HDR_SIZE..]);
    if c as nat != Num(b, 20, 4) { return E_CRC; }
    var us := t.Units();
    code := CheckUnits(us);
    if code != OK { return; }
    code := CheckBinds(us, t.Binds());
    if code != OK { return; }
    code := CheckEdges(us, t.Edges());
  }
}
