/** blob.h: what a plan says, when it is well formed, and its one sequence of bytes. */
module Blob {
  import opened Bytes
  import Crc

  const MAX_UNITS: nat := 64
  const MAX_BINDS: nat := 128
  const MAX_EDGES: nat := 128
  const NAME_LEN: nat := 32
  const PATH_LEN: nat := 128
  const BRICK_HASH: nat := 32
  const HDR_SIZE: nat := 24
  const UNIT_SIZE: nat := 288
  const BIND_SIZE: nat := 130
  const EDGE_SIZE: nat := 4

  const ONESHOT: nat := 0
  const LONGRUN: nat := 1
  const CPU_WEIGHT_MAX: nat := 10000
  const SCHED_OTHER: nat := 1
  const SCHED_MAX: nat := 3
  const NICE_MIN: int := -20
  const NICE_MAX: int := 19
  const OOM_ADJ_MIN: int := -1000
  const OOM_ADJ_MAX: int := 1000
  const LOCKED: nat := 0
  const UNLOCKED: nat := 1
  const STOPSIG_MAX: nat := 4
  const GRACE_MAX_MS: nat := 2147483647
  const ALL_LIDS: nat := 15

  /** "NWPLAN12" */
  const MAGIC: Bytes := [78, 87, 80, 76, 65, 78, 49, 50]

  const SLASH: byte := 47
  const DOT: byte := 46
  const DOTDOT: Bytes := [DOT, DOT]

  /** The resource block. */
  datatype Res = Res(cpuMask: nat, memHigh: nat, memMax: nat, layerBytes: nat, cpuWeight: nat,
                     nice: int, schedPolicy: nat, taskCap: nat, oomScoreAdj: int)

  datatype Unit = Unit(name: Bytes, execPath: Bytes, brick: Bytes, layer: Bytes,
                       kind: nat, budget: nat, lids: nat, lock: nat, res: Res,
                       stopSignal: nat, gracePeriod: nat, nofile: nat, capabilities: nat,
                       supervisorDeathPolicy: nat)

  datatype Bind = Bind(unit: nat, path: Bytes)

  datatype Edge = Edge(a: nat, b: nat)

  datatype Plan = Plan(units: seq<Unit>, binds: seq<Bind>, edges: seq<Edge>)

  /* Lids: bit 0 seccomp, 1 landlock, 2 newns, 3 newnet. */
  predicate HasLandlock(lids: nat) { (lids / 2) % 2 == 1 }
  predicate HasNewns(lids: nat) { (lids / 4) % 2 == 1 }

  predicate HasBrick(brick: Bytes) {
    exists k :: 0 <= k < |brick| && brick[k] != 0
  }

  predicate NameChar(c: byte) {
    (65 <= c <= 90) || (97 <= c <= 122) || (48 <= c <= 57) || c == 95 || c == 45
  }

  /** One to thirty-one letters, digits, '_' or '-'. */
  predicate NameOk(s: Bytes) {
    0 < |s| < NAME_LEN && forall i :: 0 <= i < |s| ==> NameChar(s[i])
  }

  predicate PlainByte(c: byte) { c >= 32 && c != 127 }

  /** The components of a path: what lies between its slashes, empty ones included. */
  function Split(s: seq<int>): (r: seq<seq<int>>)
    ensures |r| > 0
  {
    if s == [] then [[]]
    else
      var r := Split(s[1..]);
      if s[0] == SLASH then [[]] + r else [[s[0]] + r[0]] + r[1..]
  }

  /** Absolute, more than the root, printable, and without a ".." component. */
  predicate PathOk(s: Bytes) {
    && 2 <= |s| < PATH_LEN
    && s[0] == SLASH
    && (forall i :: 0 <= i < |s| ==> PlainByte(s[i]))
    && DOTDOT !in Split(s)
  }

  predicate ResOk(r: Res, layered: bool) {
    && r.cpuMask < 0x1_0000_0000_0000_0000 && r.memHigh < 0x1_0000_0000_0000_0000
    && r.memMax < 0x1_0000_0000_0000_0000 && r.layerBytes < 0x1_0000_0000_0000_0000
    && r.cpuWeight <= CPU_WEIGHT_MAX
    && NICE_MIN <= r.nice <= NICE_MAX
    && r.schedPolicy <= SCHED_MAX
    && r.taskCap < 0x1_0000_0000
    && OOM_ADJ_MIN <= r.oomScoreAdj <= OOM_ADJ_MAX
    && (r.memHigh != 0 && r.memMax != 0 ==> r.memHigh < r.memMax)
    && (r.nice != 0 ==> r.schedPolicy == SCHED_OTHER)
    && (r.layerBytes != 0 ==> layered)
  }

  predicate UnitOk(u: Unit) {
    && NameOk(u.name)
    && PathOk(u.execPath)
    && |u.brick| == BRICK_HASH
    && (u.layer == [] || NameOk(u.layer))
    && (u.layer != [] <==> HasBrick(u.brick))
    && (u.kind == ONESHOT || u.kind == LONGRUN)
    && u.budget < 256
    && u.lids <= ALL_LIDS
    && (HasLandlock(u.lids) ==> HasBrick(u.brick))
    && (HasBrick(u.brick) ==> HasNewns(u.lids))
    && (u.lock == LOCKED || u.lock == UNLOCKED)
    && ResOk(u.res, u.layer != [])
    && u.stopSignal <= STOPSIG_MAX
    && u.gracePeriod <= GRACE_MAX_MS
    && u.nofile < 0x1_0000_0000
    && u.capabilities < 0x1_0000_0000_0000_0000
    && u.supervisorDeathPolicy == 0
  }

  predicate BindOk(p: Plan, b: Bind) {
    b.unit < |p.units| && PathOk(b.path) && HasBrick(p.units[b.unit].brick)
  }

  predicate EdgeOk(p: Plan, e: Edge) {
    && e.a < |p.units| && e.b < |p.units| && e.a != e.b
    && p.units[e.a].lock == LOCKED && p.units[e.b].lock == LOCKED
  }

  predicate SamePair(e: Edge, f: Edge) {
    (e.a == f.a && e.b == f.b) || (e.a == f.b && e.b == f.a)
  }

  /** The rules a plan must meet, over the whole of it. */
  predicate WellFormed(p: Plan) {
    && 1 <= |p.units| <= MAX_UNITS && |p.binds| <= MAX_BINDS && |p.edges| <= MAX_EDGES
    && (forall i :: 0 <= i < |p.units| ==> UnitOk(p.units[i]))
    && (forall i, j :: 0 <= i < j < |p.units| ==> p.units[i].name != p.units[j].name)
    && (forall i, j :: 0 <= i < j < |p.units| && p.units[j].layer != [] ==> p.units[i].layer != p.units[j].layer)
    && (forall i :: 0 <= i < |p.binds| ==> BindOk(p, p.binds[i]))
    && (forall i :: 0 <= i < |p.edges| ==> EdgeOk(p, p.edges[i]))
    && (forall i, j :: 0 <= i < j < |p.edges| ==> !SamePair(p.edges[i], p.edges[j]))
  }

  /** Two's complement in `w` bytes. */
  function Signed(v: int, w: nat): (b: Bytes)
    requires v < 0 ==> 0 <= v + Pow256(w)
    ensures |b| == w
  {
    Le(if v < 0 then v + Pow256(w) else v, w)
  }

  /** Values that fit their fields at all. */
  predicate Packable(u: Unit) {
    && |u.name| <= NAME_LEN && |u.execPath| <= PATH_LEN && |u.layer| <= NAME_LEN
    && -128 <= u.res.nice < 128 && -32768 <= u.res.oomScoreAdj < 32768
  }

  /** struct nw_unit, field after field. */
  function UnitFields(u: Unit): (fs: seq<Bytes>)
    requires Packable(u)
    ensures |fs| == 22
  {
    Pow256Values();
    [Pad(u.name, NAME_LEN), Pad(u.execPath, PATH_LEN), u.brick, Pad(u.layer, NAME_LEN),
     Le(u.kind, 1), Le(u.budget, 1), Le(u.lids, 1), Le(u.lock, 1),
     Le(u.res.cpuMask, 8), Le(u.res.memHigh, 8), Le(u.res.memMax, 8), Le(u.res.layerBytes, 8),
     Le(u.res.cpuWeight, 2), Signed(u.res.nice, 1), Le(u.res.schedPolicy, 1),
     Le(u.res.taskCap, 4), Signed(u.res.oomScoreAdj, 2),
     Le(u.stopSignal, 1), Le(u.gracePeriod, 4), Le(u.nofile, 4), Le(u.capabilities, 8),
     Le(u.supervisorDeathPolicy, 1)]
  }

  function EncodeUnit(u: Unit): Bytes
    requires Packable(u)
  {
    Join(UnitFields(u))
  }

  function EncodeBind(b: Bind): Bytes
    requires |b.path| <= PATH_LEN
  {
    Le(b.unit, 2) + Pad(b.path, PATH_LEN)
  }

  function EncodeEdge(e: Edge): Bytes {
    Le(e.a, 2) + Le(e.b, 2)
  }

  predicate PackablePlan(p: Plan) {
    && (forall i :: 0 <= i < |p.units| ==> Packable(p.units[i]))
    && (forall i :: 0 <= i < |p.binds| ==> |p.binds[i].path| <= PATH_LEN)
  }

  function UnitTable(p: Plan): seq<Bytes>
    requires PackablePlan(p)
  {
    seq(|p.units|, i requires 0 <= i < |p.units| => EncodeUnit(p.units[i]))
  }

  function BindTable(p: Plan): seq<Bytes>
    requires PackablePlan(p)
  {
    seq(|p.binds|, i requires 0 <= i < |p.binds| => EncodeBind(p.binds[i]))
  }

  function EdgeTable(p: Plan): seq<Bytes> {
    seq(|p.edges|, i requires 0 <= i < |p.edges| => EncodeEdge(p.edges[i]))
  }

  function Body(p: Plan): Bytes
    requires PackablePlan(p)
  {
    Join(UnitTable(p)) + Join(BindTable(p)) + Join(EdgeTable(p))
  }

  function Header(nu: nat, nb: nat, ne: nat, crc: nat): Bytes {
    MAGIC + Le(nu, 4) + Le(nb, 4) + Le(ne, 4) + Le(crc, 4)
  }

  /** The checksum of a blob: over the header with its own field zeroed, then the body. */
  function Checksum(nu: nat, nb: nat, ne: nat, body: Bytes): nat {
    Crc.Crc32(Header(nu, nb, ne, 0) + body) as nat
  }

  /** The canonical bytes of a plan. */
  function Encode(p: Plan): Bytes
    requires PackablePlan(p)
  {
    var nu, nb, ne := |p.units|, |p.binds|, |p.edges|;
    Header(nu, nb, ne, Checksum(nu, nb, ne, Body(p))) + Body(p)
  }

  lemma WellFormedPackable(p: Plan)
    requires WellFormed(p)
    ensures PackablePlan(p)
  {
    forall i | 0 <= i < |p.binds| ensures |p.binds[i].path| <= PATH_LEN {
      assert BindOk(p, p.binds[i]);
    }
  }
}
