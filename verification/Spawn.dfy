/** nwspawn.c: main, from the socketpairs to the census. */
module Spawn {
  import opened Bytes
  import opened Blob
  import opened Fds
  import opened Packing
  import opened Prelude

  /** edge_fd[k] */
  datatype Ends = Ends(a: nat, b: nat)

  /** One end of an edge, as the house that holds it sees it. */
  datatype Tip = Tip(edge: nat, side: nat, peer: nat)

  /** What became of a house's process: it runs with this table and these NW_WIRE_ names, or it gave up. */
  datatype Fate = Running(table: Table, wires: map<nat, Bytes>) | Died

  /** What nw_check promises of the edge table. */
  ghost predicate EdgesOk(edges: seq<Edge>, n: nat) {
    && |edges| <= MAX_EDGES
    && forall k :: 0 <= k < |edges| ==> edges[k].a < n && edges[k].b < n && edges[k].a != edges[k].b
  }

  /** The ends house `i` holds, in the order of the edge table. */
  ghost function Incident(edges: seq<Edge>, i: nat): (tips: seq<Tip>)
    ensures |tips| <= |edges|
  {
    if edges == [] then []
    else
      var k := |edges| - 1;
      var before := Incident(edges[..k], i);
      if edges[k].a == i then before + [Tip(k, 0, edges[k].b)]
      else if edges[k].b == i then before + [Tip(k, 1, edges[k].a)]
      else before
  }

  ghost function TipObj(t: Tip): Obj { Wire(t.edge, t.side) }

  ghost function TipObjs(tips: seq<Tip>): (objs: seq<Obj>)
    ensures |objs| == |tips|
  {
    seq(|tips|, j requires 0 <= j < |tips| => TipObj(tips[j]))
  }

  /** Where house `i` finds edge `k`. */
  ghost function Slot(edges: seq<Edge>, i: nat, k: nat): nat
    requires k <= |edges|
  {
    3 + |Incident(edges[..k], i)|
  }

  ghost predicate IsTip(edges: seq<Edge>, i: nat, t: Tip) {
    && t.edge < |edges|
    && ((t.side == 0 && edges[t.edge].a == i && t.peer == edges[t.edge].b)
        || (t.side == 1 && edges[t.edge].a != i && edges[t.edge].b == i && t.peer == edges[t.edge].a))
  }

  lemma Shorter(edges: seq<Edge>, k: nat, e: nat)
    requires e <= k <= |edges|
    ensures edges[..k][..e] == edges[..e]
  {
  }

  lemma {:induction false} IncidentSound(edges: seq<Edge>, i: nat, j: nat)
    requires j < |Incident(edges, i)|
    ensures var t := Incident(edges, i)[j]; IsTip(edges, i, t) && Slot(edges, i, t.edge) == 3 + j
  {
    var k := |edges| - 1;
    var before := Incident(edges[..k], i);
    if j < |before| {
      IncidentSound(edges[..k], i, j);
      Shorter(edges, k, before[j].edge);
    }
  }

  lemma {:induction false} IncidentComplete(edges: seq<Edge>, i: nat, t: Tip)
    requires IsTip(edges, i, t)
    ensures var j := Slot(edges, i, t.edge) - 3; j < |Incident(edges, i)| && Incident(edges, i)[j] == t
  {
    var k := |edges| - 1;
    if t.edge < k {
      Shorter(edges, k, t.edge);
      IncidentComplete(edges[..k], i, t);
    }
  }

  /* The census. */

  ghost function TotalWires(edges: seq<Edge>, n: nat): nat {
    if n == 0 then 0 else TotalWires(edges, n - 1) + |Incident(edges, n - 1)|
  }

  lemma {:induction false} TotalOne(edges: seq<Edge>, m: nat)
    requires edges != [] && edges[|edges| - 1].a != edges[|edges| - 1].b
    ensures var e := edges[|edges| - 1];
            TotalWires(edges, m)
            == TotalWires(edges[..|edges| - 1], m) + (if e.a < m then 1 else 0) + (if e.b < m then 1 else 0)
  {
    if m > 0 {
      TotalOne(edges, m - 1);
    }
  }

  lemma {:induction false} TotalNone(m: nat)
    ensures TotalWires([], m) == 0
  {
    if m > 0 { TotalNone(m - 1); }
  }

  /** Every edge is counted twice. */
  lemma {:induction false} Census(edges: seq<Edge>, n: nat)
    requires EdgesOk(edges, n)
    ensures TotalWires(edges, n) == 2 * |edges|
  {
    if edges == [] {
      TotalNone(n);
    } else {
      TotalOne(edges, n);
      Census(edges[..|edges| - 1], n);
    }
  }

  /* The socketpairs. */

  ghost predicate IsEnd(fds: seq<Ends>, fd: nat) {
    exists k :: 0 <= k < |fds| && (fds[k].a == fd || fds[k].b == fd)
  }

  /** The table with the ends of the first edges added. */
  ghost predicate Created(t0: Table, t: Table, fds: seq<Ends>) {
    && (forall fd :: fd in t <==> fd in t0 || IsEnd(fds, fd))
    && (forall fd :: fd in t0 ==> !IsEnd(fds, fd) && t[fd] == t0[fd])
    && (forall k :: 0 <= k < |fds| ==> fds[k].a in t && t[fds[k].a] == Desc(Wire(k, 0), false))
    && (forall k :: 0 <= k < |fds| ==> fds[k].b in t && t[fds[k].b] == Desc(Wire(k, 1), false))
  }

  lemma EndsOne(fds: seq<Ends>, r: nat, w: nat, fd: nat)
    ensures IsEnd(fds + [Ends(r, w)], fd) <==> IsEnd(fds, fd) || fd == r || fd == w
  {
    var gds := fds + [Ends(r, w)];
    if IsEnd(fds, fd) {
      var k :| 0 <= k < |fds| && (fds[k].a == fd || fds[k].b == fd);
      assert gds[k] == fds[k];
    }
    assert gds[|fds|] == Ends(r, w);
  }

  lemma CreatedOne(t0: Table, t: Table, fds: seq<Ends>, r: nat, w: nat)
    requires Created(t0, t, fds) && r !in t && w !in t && r != w
    ensures Created(t0, t[r := Desc(Wire(|fds|, 0), false)][w := Desc(Wire(|fds|, 1), false)], fds + [Ends(r, w)])
  {
    hide IsEnd;
    var gds := fds + [Ends(r, w)];
    forall fd: nat ensures IsEnd(gds, fd) <==> IsEnd(fds, fd) || fd == r || fd == w {
      EndsOne(fds, r, w, fd);
    }
    assert forall k :: 0 <= k < |fds| ==> gds[k] == fds[k];
    assert gds[|fds|] == Ends(r, w);
  }

  method MakeEdges(p: Process, n: nat) returns (ok: bool, fds: seq<Ends>)
    modifies p
    ensures ok <==> |Open(old(p.table), p.limit)| >= 2 * n
    ensures ok ==> |fds| == n && Created(old(p.table), p.table, fds)
    ensures ok ==> |p.table| == |old(p.table)| + 2 * n
                   && |Open(p.table, p.limit)| == |Open(old(p.table), p.limit)| - 2 * n
    ensures ok ==> forall fd :: fd in p.table && fd !in old(p.table) ==> fd < p.limit && fd < |old(p.table)| + 2 * n
    ensures p.peak <= Max(old(p.peak), |old(p.table)| + 2 * n)
    ensures ok ==> p.peak <= Max(old(p.peak), |p.table|)
  {
    hide Created, Open;
    ghost var t0 := p.table;
    fds := [];
    CreatedNone(t0);
    for k := 0 to n
      invariant |fds| == k && Created(t0, p.table, fds)
      invariant |p.table| == |t0| + 2 * k && |Open(p.table, p.limit)| == |Open(t0, p.limit)| - 2 * k
      invariant forall fd :: fd in p.table && fd !in t0 ==> fd < p.limit && fd < |t0| + 2 * k
      invariant p.peak <= Max(old(p.peak), |p.table|)
    {
      ghost var t := p.table;
      var r, w;
      ok, r, w := p.Pair(Wire(k, 0), Wire(k, 1), false);
      if !ok { return; }
      CreatedOne(t0, t, fds, r, w);
      fds := fds + [Ends(r, w)];
    }
    return true, fds;
  }

  lemma CreatedNone(t0: Table)
    ensures Created(t0, t0, [])
  {
  }

  /** my_wire_fd and my_wire_peer for the wires `tips`. */
  ghost predicate Collected(tips: seq<Tip>, fds: seq<Ends>, wireFd: seq<nat>, peers: seq<nat>) {
    && |wireFd| == |peers| == |tips|
    && (forall j :: 0 <= j < |tips| ==> tips[j].edge < |fds| && peers[j] == tips[j].peer)
    && (forall j :: 0 <= j < |tips| ==>
          wireFd[j] == if tips[j].side == 0 then fds[tips[j].edge].a else fds[tips[j].edge].b)
  }

  /** The scan of the edge table for house `i`. */
  method Collect(edges: seq<Edge>, fds: seq<Ends>, i: nat) returns (wireFd: seq<nat>, peers: seq<nat>)
    requires |fds| == |edges|
    ensures Collected(Incident(edges, i), fds, wireFd, peers)
  {
    hide Incident, Collected;
    wireFd, peers := [], [];
    NoneCollected(edges, fds, i);
    for k := 0 to |edges|
      invariant Collected(Incident(edges[..k], i), fds, wireFd, peers)
    {
      IncidentStep(edges, i, k);
      CollectedOne(Incident(edges[..k], i), fds, wireFd, peers, k);
      if edges[k].a == i {
        wireFd := wireFd + [fds[k].a];
        peers := peers + [edges[k].b];
      } else if edges[k].b == i {
        wireFd := wireFd + [fds[k].b];
        peers := peers + [edges[k].a];
      }
    }
    assert edges[..|edges|] == edges;
  }

  lemma NoneCollected(edges: seq<Edge>, fds: seq<Ends>, i: nat)
    ensures Collected(Incident(edges[..0], i), fds, [], [])
  {
  }

  lemma CollectedOne(tips: seq<Tip>, fds: seq<Ends>, wireFd: seq<nat>, peers: seq<nat>, k: nat)
    requires Collected(tips, fds, wireFd, peers) && k < |fds|
    ensures forall peer :: Collected(tips + [Tip(k, 0, peer)], fds, wireFd + [fds[k].a], peers + [peer])
    ensures forall peer :: Collected(tips + [Tip(k, 1, peer)], fds, wireFd + [fds[k].b], peers + [peer])
    ensures Collected(tips + [], fds, wireFd, peers)
  {
    assert tips + [] == tips;
  }

  lemma IncidentStep(edges: seq<Edge>, i: nat, k: nat)
    requires k < |edges|
    ensures Incident(edges[..k + 1], i) == Incident(edges[..k], i)
              + (if edges[k].a == i then [Tip(k, 0, edges[k].b)]
                 else if edges[k].b == i then [Tip(k, 1, edges[k].a)] else [])
  {
    Shorter(edges, k + 1, k);
  }

  lemma CollectedSources(t0: Table, t: Table, edges: seq<Edge>, fds: seq<Ends>, i: nat, wireFd: seq<nat>,
                         peers: seq<nat>)
    requires Created(t0, t, fds) && |fds| == |edges| && Collected(Incident(edges, i), fds, wireFd, peers)
    ensures |wireFd| <= |edges| && forall j :: 0 <= j < |wireFd| ==> wireFd[j] in t
    ensures Sources(t, wireFd) == TipObjs(Incident(edges, i))
  {
    var tips := Incident(edges, i);
    forall j | 0 <= j < |tips| ensures wireFd[j] in t && t[wireFd[j]].obj == TipObj(tips[j]) {
      IncidentSound(edges, i, j);
    }
    assert forall j :: 0 <= j < |wireFd| ==> wireFd[j] in t;
    assert Sources(t, wireFd) == TipObjs(tips);
  }

  /** The NW_WIRE_ variables of house `i`: by slot, the name of the house at the other end. */
  ghost function Labels(tips: seq<Tip>, names: seq<Bytes>): (m: map<nat, Bytes>)
    requires forall j :: 0 <= j < |tips| ==> tips[j].peer < |names|
    ensures forall s :: s in m <==> 3 <= s < 3 + |tips|
    ensures forall s :: s in m ==> m[s] == names[tips[s - 3].peer]
  {
    if tips == [] then map[]
    else
      var n := |tips| - 1;
      Labels(tips[..n], names)[3 + n := names[tips[n].peer]]
  }

  lemma PeersNamed(edges: seq<Edge>, n: nat, i: nat)
    requires EdgesOk(edges, n)
    ensures forall j :: 0 <= j < |Incident(edges, i)| ==> Incident(edges, i)[j].peer < n
  {
    forall j | 0 <= j < |Incident(edges, i)| ensures Incident(edges, i)[j].peer < n {
      IncidentSound(edges, i, j);
    }
  }

  /** setenv, once for each wire. */
  method SetLabels(peers: seq<nat>, names: seq<Bytes>, ghost tips: seq<Tip>) returns (env: map<nat, Bytes>)
    requires |peers| == |tips| && forall j :: 0 <= j < |tips| ==> peers[j] == tips[j].peer < |names|
    ensures env == Labels(tips, names)
  {
    env := map[];
    assert tips[..0] == [];
    for k := 0 to |peers|
      invariant env == Labels(tips[..k], names)
    {
      assert tips[..k + 1][..k] == tips[..k];
      env := env[3 + k := names[peers[k]]];
    }
    assert tips[..|tips|] == tips;
  }

  /** What house `i` should run with; a blind sweep adds what it could not reach. */
  ghost predicate Wired(f: Fate, edges: seq<Edge>, names: seq<Bytes>, i: nat, spill: Table)
    requires EdgesOk(edges, |names|)
  {
    PeersNamed(edges, |names|, i);
    f.Running? ==>
      && f.wires == Labels(Incident(edges, i), names)
      && f.table == Kit(Log(i), TipObjs(Incident(edges, i))) + spill
  }

  /** What becomes of house `i` when it is forked off a process with table `t`: it runs exactly when packing
      can succeed, and then with its kit, its labels and what the sweep cannot reach. */
  ghost predicate Fated(f: Fate, edges: seq<Edge>, names: seq<Bytes>, i: nat, t: Table, limit: nat, proc: Proc)
    requires EdgesOk(edges, |names|)
  {
    var w := |Incident(edges, i)|;
    (f.Running? <==> Packs(t, limit, w, proc)) && Wired(f, edges, names, i, Spill(t, limit, w, proc))
  }

  /** The most descriptors the house's process has open at once: what it starts with, the null device, its log, its
      wires, and the listing when there is one. */
  ghost predicate PeakIs(peak: nat, f: Fate, edges: seq<Edge>, i: nat, t: Table, limit: nat, proc: Proc) {
    var w := |Incident(edges, i)|;
    peak <= |t| + 3 + w && (f.Running? && CanList(t, limit, w, proc) ==> peak == |t| + 3 + w)
  }

  /** The house's own process, up to exec. */
  method InHouse(house: Process, i: nat, logw: nat, wireFd: seq<nat>, peers: seq<nat>, ghost edges: seq<Edge>,
                 names: seq<Bytes>, proc: Proc)
    returns (fate: Fate)
    requires EdgesOk(edges, |names|) && |wireFd| == |peers| == |Incident(edges, i)| <= MAX_WIRES
    requires forall j :: 0 <= j < |peers| ==> peers[j] == Incident(edges, i)[j].peer
    requires logw in house.table && house.table[logw].obj == Log(i)
    requires forall j :: 0 <= j < |wireFd| ==> wireFd[j] in house.table
    requires Sources(house.table, wireFd) == TipObjs(Incident(edges, i))
    modifies house
    requires house.peak <= |house.table| + 1
    ensures Fated(fate, edges, names, i, old(house.table), house.limit, proc)
    ensures PeakIs(house.peak, fate, edges, i, old(house.table), house.limit, proc)
  {
    hide Incident, TipObjs, Kit, Spill, Labels, Packs, CanList, Wired, EdgesOk, Sources;
    ghost var t := house.table;
    PeersNamed(edges, |names|, i);
    var packed := PackKit(house, logw, wireFd, proc);
    fate := Died;
    if packed {
      var env := SetLabels(peers, names, Incident(edges, i));
      fate := Running(house.table, env);
    }
    WiredIs(fate, edges, names, i, Spill(t, house.limit, |wireFd|, proc));
  }

  /** What the turn of house `i` hands to pack_kit. */
  method WiresOf(i: nat, edges: seq<Edge>, fds: seq<Ends>, ghost n: nat, ghost t0: Table, ghost t: Table)
    returns (wireFd: seq<nat>, peers: seq<nat>)
    requires EdgesOk(edges, n) && |fds| == |edges| && Created(t0, t, fds)
    ensures |wireFd| == |peers| == |Incident(edges, i)| <= MAX_WIRES
    ensures forall j :: 0 <= j < |peers| ==> peers[j] == Incident(edges, i)[j].peer
    ensures forall j :: 0 <= j < |wireFd| ==> wireFd[j] in t
    ensures Sources(t, wireFd) == TipObjs(Incident(edges, i))
  {
    hide Created, Collected, Incident, TipObjs, EdgesOk, Sources;
    wireFd, peers := Collect(edges, fds, i);
    CollectedFacts(Incident(edges, i), fds, wireFd, peers);
    EdgesFew(edges, n);
    CollectedSources(t0, t, edges, fds, i, wireFd, peers);
  }

  /** One turn of the unit loop: the pid pipe, the two forks, and in the house's own process its kit and its names. */
  method SpawnHouse(p: Process, i: nat, logw: nat, edges: seq<Edge>, fds: seq<Ends>, names: seq<Bytes>, proc: Proc,
                    ghost t0: Table)
    returns (ok: bool, fate: Fate, wires: nat, ghost peak: nat)
    requires EdgesOk(edges, |names|) && |fds| == |edges| && Created(t0, p.table, fds)
    requires logw in t0 && t0[logw].obj == Log(i)
    modifies p
    ensures p.table == old(p.table)
    ensures ok <==> |Open(p.table, p.limit)| >= 2
    ensures ok ==> wires == |Incident(edges, i)| && Fated(fate, edges, names, i, p.table, p.limit, proc)
    ensures ok ==> PeakIs(peak, fate, edges, i, p.table, p.limit, proc)
    ensures p.peak <= Max(old(p.peak), |p.table| + 2)
  {
    hide Created, Collected, Incident, TipObjs, Fated, PeakIs, Open, EdgesOk, Sources;
    fate, peak := Died, 0;
    ghost var t := p.table;
    var wireFd, peers := WiresOf(i, edges, fds, |names|, t0, t);
    wires := |wireFd|;
    CreatedKeeps(t0, t, fds, logw);
    var r, w;
    ok, r, w := p.Pair(PidPipe(0), PidPipe(1), true);
    if !ok { return; }
    ghost var x, y := Desc(PidPipe(0), true), Desc(PidPipe(1), true);
    var house := ForkTwice(p, r, w, t, x, y);
    fate := InHouse(house, i, logw, wireFd, peers, edges, names, proc);
    peak := house.peak;
    p.Close(w);
    p.Close(r);
    PairGone(t, r, w, x, y);
  }

  lemma PairGone(t: Table, r: nat, w: nat, x: Desc, y: Desc)
    requires r != w && r !in t && w !in t
    ensures t[r := x][w := y] - {w} - {r} == t && t[r := x][w := y] - {r} - {w} == t
    ensures |t[r := x][w := y] - {r}| == |t| + 1
  {
    OneGone(t[r := x], w, y);
    OneGone(t, r, x);
    OneGone(t, w, y);
    assert t[r := x][w := y] == t[w := y][r := x];
    OneGone(t[w := y], r, x);
    assert t[w := y].Keys == t.Keys + {w};
  }

  lemma OneGone(t: Table, fd: nat, d: Desc)
    requires fd !in t
    ensures t[fd := d] - {fd} == t
  {
  }

  /** The two forks of a turn: the house is forked off the process in between. */
  method ForkTwice(p: Process, r: nat, w: nat, ghost t: Table, ghost x: Desc, ghost y: Desc) returns (house: Process)
    requires r != w && r !in t && w !in t && p.table == t[r := x][w := y]
    ensures fresh(house) && house.table == t && house.limit == p.limit && house.peak == |t| + 1
  {
    var mid := p.Fork();
    mid.Close(r);
    house := mid.Fork();
    house.Close(w);
    PairGone(t, r, w, x, y);
  }

  lemma WiredIs(f: Fate, edges: seq<Edge>, names: seq<Bytes>, i: nat, spill: Table)
    requires EdgesOk(edges, |names|)
    requires forall j :: 0 <= j < |Incident(edges, i)| ==> Incident(edges, i)[j].peer < |names|
    requires f.Running? ==>
               && f.wires == Labels(Incident(edges, i), names)
               && f.table == Kit(Log(i), TipObjs(Incident(edges, i))) + spill
    ensures Wired(f, edges, names, i, spill)
  {
    hide Incident, Labels, TipObjs, Kit;
  }

  lemma CollectedFacts(tips: seq<Tip>, fds: seq<Ends>, wireFd: seq<nat>, peers: seq<nat>)
    requires Collected(tips, fds, wireFd, peers)
    ensures |wireFd| == |peers| == |tips| && forall j :: 0 <= j < |tips| ==> peers[j] == tips[j].peer
  {
  }

  lemma EdgesFew(edges: seq<Edge>, n: nat)
    requires EdgesOk(edges, n)
    ensures |edges| <= MAX_WIRES
  {
  }

  lemma CreatedKeeps(t0: Table, t: Table, fds: seq<Ends>, fd: nat)
    requires Created(t0, t, fds) && fd in t0
    ensures fd in t && t[fd] == t0[fd]
  {
  }

  ghost predicate LogsAre(t: Table, logw: seq<nat>) {
    forall i :: 0 <= i < |logw| ==> logw[i] in t && t[logw[i]].obj == Log(i)
  }

  function SetOf(fds: seq<nat>): set<nat> {
    set fd | fd in fds
  }

  method CloseLogs(p: Process, logw: seq<nat>)
    modifies p`table
    ensures p.table == old(p.table) - SetOf(logw)
  {
    ghost var t := p.table;
    assert t - SetOf(logw[..0]) == t;
    for i := 0 to |logw|
      invariant p.table == t - SetOf(logw[..i])
    {
      assert logw[..i + 1] == logw[..i] + [logw[i]];
      p.Close(logw[i]);
      assert SetOf(logw[..i + 1]) == SetOf(logw[..i]) + {logw[i]};
      CloseOne(t, SetOf(logw[..i]), logw[i]);
    }
    assert logw[..|logw|] == logw;
  }

  method CloseEdges(p: Process, fds: seq<Ends>)
    modifies p`table
    ensures forall fd :: fd in p.table <==> fd in old(p.table) && !IsEnd(fds, fd)
    ensures forall fd :: fd in p.table ==> p.table[fd] == old(p.table)[fd]
  {
    hide IsEnd;
    ghost var t := p.table;
    NoEnds();
    for k := 0 to |fds|
      invariant forall fd :: fd in p.table <==> fd in t && !IsEnd(fds[..k], fd)
      invariant forall fd :: fd in p.table ==> p.table[fd] == t[fd]
    {
      p.Close(fds[k].a);
      p.Close(fds[k].b);
      assert fds[..k + 1] == fds[..k] + [Ends(fds[k].a, fds[k].b)];
      forall fd: nat ensures IsEnd(fds[..k + 1], fd) <==> IsEnd(fds[..k], fd) || fd == fds[k].a || fd == fds[k].b {
        EndsOne(fds[..k], fds[k].a, fds[k].b, fd);
      }
    }
    assert fds[..|fds|] == fds;
  }

  lemma NoEnds()
    ensures forall fd :: !IsEnd([], fd)
  {
  }

  /** The check after the closing loop: none of the descriptors of the edges is still open. */
  method NoneLeaked(p: Process, fds: seq<Ends>) returns (ok: bool)
    ensures ok <==> forall k :: 0 <= k < |fds| ==> fds[k].a !in p.table && fds[k].b !in p.table
  {
    for k := 0 to |fds|
      invariant forall j :: 0 <= j < k ==> fds[j].a !in p.table && fds[j].b !in p.table
    {
      if fds[k].a in p.table || fds[k].b in p.table {
        return false;
      }
    }
    return true;
  }

  lemma AllClosed(t0: Table, t: Table, u: Table, fds: seq<Ends>, logs: set<nat>)
    requires Created(t0, t, fds)
    requires forall fd :: fd in u <==> fd in t - logs && !IsEnd(fds, fd)
    requires forall fd :: fd in u ==> u[fd] == t[fd]
    ensures u == t0 - logs
    ensures forall k :: 0 <= k < |fds| ==> fds[k].a !in u && fds[k].b !in u
  {
    forall k | 0 <= k < |fds| ensures IsEnd(fds, fds[k].a) && IsEnd(fds, fds[k].b) {
    }
    hide IsEnd;
  }

  /** The unit loop. */
  method SpawnHouses(p: Process, logw: seq<nat>, edges: seq<Edge>, fds: seq<Ends>, names: seq<Bytes>, procs: seq<Proc>,
                     ghost t0: Table)
    returns (ok: bool, houses: seq<Fate>, wiredTotal: nat, ghost peaks: seq<nat>)
    requires EdgesOk(edges, |names|) && 1 <= |names| == |logw| == |procs|
    requires |fds| == |edges| && Created(t0, p.table, fds)
    requires LogsAre(t0, logw)
    modifies p
    ensures p.table == old(p.table)
    ensures ok <==> |Open(p.table, p.limit)| >= 2
    ensures ok ==> |houses| == |peaks| == |names| && wiredTotal == TotalWires(edges, |names|)
    ensures ok ==> forall i :: 0 <= i < |names| ==>
                     && Fated(houses[i], edges, names, i, p.table, p.limit, procs[i])
                     && PeakIs(peaks[i], houses[i], edges, i, p.table, p.limit, procs[i])
    ensures p.peak <= Max(old(p.peak), |p.table| + 2)
  {
    hide Open, Created, LogsAre, Fated, PeakIs, IsEnd, Incident, EdgesOk, TotalWires;
    ghost var t := p.table;
    houses, peaks := [], [];
    wiredTotal := 0;
    NoTotal(edges);
    for i := 0 to |names|
      invariant p.table == t && |houses| == |peaks| == i && wiredTotal == TotalWires(edges, i)
      invariant i > 0 ==> |Open(t, p.limit)| >= 2
      invariant forall k :: 0 <= k < i ==>
                  && Fated(houses[k], edges, names, k, t, p.limit, procs[k])
                  && PeakIs(peaks[k], houses[k], edges, k, t, p.limit, procs[k])
      invariant p.peak <= Max(old(p.peak), |t| + 2)
    {
      LogIs(t0, logw, i);
      var fate, wires;
      ghost var peak;
      ok, fate, wires, peak := SpawnHouse(p, i, logw[i], edges, fds, names, procs[i], t0);
      if !ok { return; }
      TotalStep(edges, i);
      houses, peaks := houses + [fate], peaks + [peak];
      wiredTotal := wiredTotal + wires;
    }
    return true, houses, wiredTotal, peaks;
  }

  lemma NoTotal(edges: seq<Edge>)
    ensures TotalWires(edges, 0) == 0
  {
  }

  lemma TotalStep(edges: seq<Edge>, i: nat)
    ensures TotalWires(edges, i + 1) == TotalWires(edges, i) + |Incident(edges, i)|
  {
  }

  /** `full` is `t` with two descriptors more for each of `e` edges. */
  ghost predicate WithSockets(t: Table, full: Table, e: nat, limit: nat) {
    && |full| == |t| + 2 * e
    && (forall fd :: fd in t ==> fd in full)
    && (forall fd :: fd in full && fd !in t ==> fd < limit && fd < |t| + 2 * e)
  }

  lemma SocketsAdded(t0: Table, t: Table, fds: seq<Ends>, e: nat, limit: nat)
    requires Created(t0, t, fds) && |t| == |t0| + 2 * e
    requires forall fd :: fd in t && fd !in t0 ==> fd < limit && fd < |t0| + 2 * e
    ensures WithSockets(t0, t, e, limit)
  {
  }

  /** main: it fails only for want of two numbers for each edge and two for the pid pipe; the census and the leak check
      never stop it. Each house is forked off the table with every socketpair, `full`: it runs exactly when packing can
      succeed from there, and then with its kit. nw-spawn is left with what it was given less the logs. */
  method SpawnAll(p: Process, logw: seq<nat>, edges: seq<Edge>, names: seq<Bytes>, procs: seq<Proc>)
    returns (ok: bool, houses: seq<Fate>, ghost full: Table, ghost peaks: seq<nat>)
    requires EdgesOk(edges, |names|) && 1 <= |names| == |logw| == |procs|
    requires LogsAre(p.table, logw)
    modifies p
    ensures ok <==> |Open(old(p.table), p.limit)| >= 2 * |edges| + 2
    ensures ok ==> WithSockets(old(p.table), full, |edges|, p.limit)
    ensures ok ==> |houses| == |peaks| == |names|
    ensures ok ==> forall i :: 0 <= i < |names| ==>
                     && Fated(houses[i], edges, names, i, full, p.limit, procs[i])
                     && PeakIs(peaks[i], houses[i], edges, i, full, p.limit, procs[i])
    ensures ok ==> p.table == old(p.table) - SetOf(logw)
    ensures p.peak <= Max(old(p.peak), |old(p.table)| + 2 * |edges| + 2)
  {
    hide Open, Created, LogsAre, Fated, PeakIs, IsEnd, Incident, EdgesOk, TotalWires, Numbers, WithSockets;
    ghost var t0 := p.table;
    houses, full, peaks := [], map[], [];
    var fds;
    ok, fds := MakeEdges(p, |edges|);
    if !ok { return; }
    full := p.table;
    SocketsAdded(t0, full, fds, |edges|, p.limit);
    var wiredTotal;
    ok, houses, wiredTotal, peaks := SpawnHouses(p, logw, edges, fds, names, procs, t0);
    if !ok { return; }
    CloseLogs(p, logw);
    CloseEdges(p, fds);
    AllClosed(t0, full, p.table, fds, SetOf(logw));
    Census(edges, |names|);
    if wiredTotal != 2 * |edges| {
      return false, houses, full, peaks;
    }
    ok := NoneLeaked(p, fds);
  }

  /** When every number `t` holds, and every number its socketpairs can get, is below SWEEP, no house keeps anything but
      its kit. */
  lemma NothingSpills(t: Table, full: Table, e: nat, limit: nat, wires: nat, proc: Proc)
    requires WithSockets(t, full, e, limit) && |t| + 2 * e <= SWEEP && forall fd :: fd in t ==> fd < SWEEP
    ensures Spill(full, limit, wires, proc) == map[]
  {
    assert forall fd :: fd in full ==> fd < SWEEP;
  }

  lemma LogIs(t: Table, logw: seq<nat>, i: nat)
    requires LogsAre(t, logw) && i < |logw|
    ensures logw[i] in t && t[logw[i]].obj == Log(i)
  {
  }

  /** After main: each end of each edge is in one house, on one descriptor, which is labelled with the house at the
      other end. `f` is what house `i` runs with. */
  lemma WireOnce(f: Fate, edges: seq<Edge>, names: seq<Bytes>, i: nat, k: nat, side: nat, fd: nat)
    requires EdgesOk(edges, |names|) && k < |edges| && side < 2
    requires f.Running? && Wired(f, edges, names, i, map[])
    ensures fd in f.table && f.table[fd].obj == Wire(k, side)
        <==> i == (if side == 0 then edges[k].a else edges[k].b) && fd == Slot(edges, i, k)
    ensures fd in f.table && f.table[fd].obj == Wire(k, side) ==>
              && !f.table[fd].cloexec && fd in f.wires
              && f.wires[fd] == names[if side == 0 then edges[k].b else edges[k].a]
  {
    PeersNamed(edges, |names|, i);
    var tips := Incident(edges, i);
    var kit := Kit(Log(i), TipObjs(tips));
    assert kit + map[] == kit == f.table;
    hide Incident, Slot;
    if fd in f.table && f.table[fd].obj == Wire(k, side) {
      assert f.table[fd] == KitDesc(Log(i), TipObjs(tips), fd) && fd >= 3;
      IncidentSound(edges, i, fd - 3);
      assert tips[fd - 3].edge == k && tips[fd - 3].side == side;
    }
    if i == (if side == 0 then edges[k].a else edges[k].b) && fd == Slot(edges, i, k) {
      var t := Tip(k, side, if side == 0 then edges[k].b else edges[k].a);
      IncidentComplete(edges, i, t);
      SlotAboveTwo(edges, i, k);
      assert f.table[fd] == KitDesc(Log(i), TipObjs(tips), fd);
    }
  }

  lemma SlotAboveTwo(edges: seq<Edge>, i: nat, k: nat)
    requires k <= |edges|
    ensures Slot(edges, i, k) >= 3
  {
  }

  /** A house has nothing else: the null device, its own log twice, and its wires. */
  lemma NothingElse(f: Fate, edges: seq<Edge>, names: seq<Bytes>, i: nat, fd: nat)
    requires EdgesOk(edges, |names|) && f.Running? && Wired(f, edges, names, i, map[]) && fd in f.table
    ensures fd == 0 ==> f.table[fd].obj == DevNull
    ensures 1 <= fd <= 2 ==> f.table[fd].obj == Log(i)
    ensures fd >= 3 ==> f.table[fd].obj.Wire? && fd in f.wires
    ensures !f.table[fd].cloexec
  {
    PeersNamed(edges, |names|, i);
    var kit := Kit(Log(i), TipObjs(Incident(edges, i)));
    assert kit + map[] == kit == f.table;
    assert f.table[fd] == KitDesc(Log(i), TipObjs(Incident(edges, i)), fd);
  }
}
