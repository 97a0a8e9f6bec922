/** pid1.c: main, from the descriptor pre-flight to the spawner; and how much of it reaches the houses. */
module Boot {
  import opened Bytes
  import opened Blob
  import opened Fds
  import opened Packing
  import opened Spawn
  import opened Prelude

  const RESERVED: nat := 8

  /** NW_BOOT_NEED */
  function BootNeed(n: nat, e: nat): nat { RESERVED + n + 2 * e }

  /** RLIMIT_NOFILE; None is RLIM_INFINITY. */
  type Rlimit = Option<nat>

  predicate Covers(limit: Rlimit, need: nat) { limit == None || limit.value >= need }

  datatype Preflight = Go(soft: Rlimit) | Halt

  /** The pre-flight: `raise1` and `raise2` say whether the two setrlimit calls succeed. It goes on only with a soft
      limit that covers the need, and halts only when the hard limit does not, or the kernel refuses both raises. */
  method CheckLimit(cur: Rlimit, max: Rlimit, need: nat, raise1: bool, raise2: bool) returns (r: Preflight)
    ensures r.Go? ==> Covers(max, need) && Covers(r.soft, need)
    ensures r.Halt? <==> !Covers(max, need) || (!Covers(cur, need) && !raise1 && !raise2)
    ensures Covers(cur, need) && r.Go? ==> r.soft == cur
  {
    if max.Some? && need > max.value { return Halt; }
    var soft := cur;
    if cur.Some? && need > cur.value {
      soft := Some(need);
      if !raise1 {
        if !raise2 { return Halt; }
      }
    }
    return Go(soft);
  }

  /** The write ends of the first log pipes, added to a table. */
  ghost predicate Logging(t0: Table, t: Table, logw: seq<nat>) {
    && (forall fd :: fd in t <==> fd in t0 || fd in logw)
    && (forall fd :: fd in t0 ==> fd !in logw && t[fd] == t0[fd])
    && (forall i :: 0 <= i < |logw| ==> logw[i] in t && t[logw[i]] == Desc(Log(i), true))
  }

  lemma LoggingOne(t0: Table, t: Table, logw: seq<nat>, r: nat, w: nat)
    requires Logging(t0, t, logw) && r !in t && w !in t && r != w
    ensures var u := t[r := Desc(LogRead(|logw|), true)][w := Desc(Log(|logw|), true)];
            && Logging(t0, u - {r}, logw + [w])
            && (u - {w}) - SetOf(logw) == t0[r := Desc(LogRead(|logw|), true)]
  {
  }

  /** spawn_logger, in the logger: earlier houses' write ends go, and its own. */
  method CloseWriters(p: Process, logw: seq<nat>)
    modifies p`table
    ensures p.table == old(p.table) - SetOf(logw)
  {
    CloseLogs(p, logw);
  }

  /** The log pipes, each with its logger forked before the next is made: a logger keeps of all of it only the read end
      of its own pipe. */
  method MakeLogs(p: Process, n: nat) returns (ok: bool, logw: seq<nat>, ghost loggers: seq<Table>)
    modifies p
    ensures ok <==> n == 0 || |Open(old(p.table), p.limit)| >= n + 1
    ensures ok ==> |logw| == n && Logging(old(p.table), p.table, logw)
    ensures ok ==> |p.table| == |old(p.table)| + n && |Open(p.table, p.limit)| == |Open(old(p.table), p.limit)| - n
    ensures ok ==> NewUpTo(old(p.table), p.table, |old(p.table)| + n)
    ensures ok ==> |loggers| == n && forall i :: 0 <= i < n ==> LoggerIs(loggers[i], old(p.table), i)
    ensures p.peak <= Max(old(p.peak), |old(p.table)| + n + 1)
  {
    hide Open, Logging, LoggerIs, NewUpTo;
    ghost var t0 := p.table;
    logw, loggers := [], [];
    NoLogs(t0);
    NoneNew(t0);
    for i := 0 to n
      invariant |logw| == i && Logging(t0, p.table, logw)
      invariant i > 0 ==> |Open(t0, p.limit)| >= i + 1
      invariant |p.table| == |t0| + i && |Open(p.table, p.limit)| == |Open(t0, p.limit)| - i
      invariant NewUpTo(t0, p.table, |t0| + i)
      invariant |loggers| == i && forall k :: 0 <= k < i ==> LoggerIs(loggers[k], t0, k)
      invariant p.peak <= Max(old(p.peak), |t0| + i + 1)
    {
      ghost var t := p.table;
      var r, w;
      ok, r, w := p.Pair(LogRead(i), Log(i), true);
      if !ok { return; }
      LoggingOne(t0, t, logw, r, w);
      var logger := ForkLogger(p, logw, w);
      LoggerHas(logger.table, t0, i, r);
      loggers := loggers + [logger.table];
      CloseRead(t, p.limit, r, w, Desc(LogRead(i), true), Desc(Log(i), true));
      NewOne(t0, t, |t0| + i, r, w, Desc(LogRead(i), true), Desc(Log(i), true));
      p.Close(r);
      logw := logw + [w];
    }
    return true, logw, loggers;
  }

  method ForkLogger(p: Process, logw: seq<nat>, w: nat) returns (logger: Process)
    ensures fresh(logger) && logger.table == (p.table - {w}) - SetOf(logw)
  {
    logger := p.Fork();
    logger.Close(w);
    CloseWriters(logger, logw);
  }

  /** No descriptor beyond `top` has been added. */
  ghost predicate NewUpTo(t0: Table, t: Table, top: nat) {
    forall fd :: fd in t && fd !in t0 ==> fd <= top
  }

  lemma NoneNew(t0: Table)
    ensures NewUpTo(t0, t0, |t0|)
  {
  }

  lemma NewOne(t0: Table, t: Table, top: nat, r: nat, w: nat, x: Desc, y: Desc)
    requires NewUpTo(t0, t, top) && w <= top + 1
    ensures NewUpTo(t0, t[r := x][w := y] - {r}, top + 1)
  {
  }

  ghost predicate LoggerIs(l: Table, t0: Table, i: nat) {
    exists r: nat :: r !in t0 && l == t0[r := Desc(LogRead(i), true)]
  }

  lemma LoggerHas(l: Table, t0: Table, i: nat, r: nat)
    requires r !in t0 && l == t0[r := Desc(LogRead(i), true)]
    ensures LoggerIs(l, t0, i)
  {
  }

  lemma NoLogs(t0: Table)
    ensures Logging(t0, t0, [])
  {
  }

  lemma CloseRead(t: Table, limit: nat, r: nat, w: nat, x: Desc, y: Desc)
    requires r !in t && w !in t && r != w && r < limit && w < limit
    ensures var u := t[r := x][w := y];
            |u - {r}| == |t| + 1 && |Open(u - {r}, limit)| == |Open(t, limit)| - 1
  {
    hide Open;
    assert t[r := x][w := y] == t[w := y][r := x];
    OneGone(t[w := y], r, x);
    AddOne(t, limit, w, y);
  }

  lemma AddOne(t: Table, limit: nat, w: nat, y: Desc)
    requires w !in t && w < limit
    ensures |t[w := y]| == |t| + 1 && |Open(t[w := y], limit)| == |Open(t, limit)| - 1
  {
    assert t[w := y].Keys == t.Keys + {w};
    TakeAny(t, limit, w, y);
  }

  ghost predicate Plain(t: Table) {
    forall fd :: fd in t ==> !t[fd].cloexec
  }

  /** What nw-spawn starts with: what PID 1 started with, the report pipe and every log. */
  ghost predicate Handed(t0: Table, t: Table, logw: seq<nat>, report: nat) {
    && (forall fd :: fd in t <==> fd in t0 || fd in logw || fd == report)
    && (forall fd :: fd in t0 ==> t[fd] == t0[fd])
    && report in t && t[report] == Desc(Report(1), false)
    && (forall i :: 0 <= i < |logw| ==> logw[i] in t && t[logw[i]] == Desc(Log(i), false))
  }

  /** Between the forks and the exec in the spawner's process. */
  method PassLogs(p: Process, logw: seq<nat>)
    modifies p`table
    ensures forall fd :: fd in p.table <==> fd in old(p.table)
    ensures forall fd :: fd in p.table ==>
              p.table[fd] == if fd in logw then old(p.table)[fd].(cloexec := false) else old(p.table)[fd]
  {
    ghost var t := p.table;
    for i := 0 to |logw|
      invariant forall fd :: fd in p.table <==> fd in t
      invariant forall fd :: fd in p.table ==>
                  p.table[fd] == if fd in logw[..i] then t[fd].(cloexec := false) else t[fd]
    {
      assert logw[..i + 1] == logw[..i] + [logw[i]];
      var ok := p.ClearCloexec(logw[i]);
    }
    assert logw[..|logw|] == logw;
  }

  lemma HandedIs(t0: Table, t1: Table, t2: Table, t3: Table, logw: seq<nat>, sfd: nat, r: nat, w: nat)
    requires Plain(t0) && Logging(t0, t1, logw) && sfd !in t1 && r !in t1 && w !in t1 && sfd != r && sfd != w && r != w
    requires t2 == t1[sfd := Desc(SignalFd, true)][w := Desc(Report(1), false)]
    requires forall fd :: fd in t3 <==> fd in t2
    requires forall fd :: fd in t3 ==> t3[fd] == if fd in logw then t2[fd].(cloexec := false) else t2[fd]
    ensures Handed(t0, Inherited(t3), logw, w)
  {
  }

  /** The signalfd and the report pipe. */
  method OpenLast(p: Process) returns (ok: bool, sfd: nat, r: nat, w: nat)
    modifies p
    ensures ok <==> |Open(old(p.table), p.limit)| >= 3
    ensures ok ==> var t := old(p.table);
                   && sfd !in t && r !in t && w !in t && sfd != r && sfd != w && r != w
                   && p.table == t[sfd := Desc(SignalFd, true)][r := Desc(Report(0), true)][w := Desc(Report(1), true)]
                   && sfd <= |t| && w <= |t| + 2
    ensures ok ==> |p.table| == |old(p.table)| + 3
    ensures p.peak <= Max(old(p.peak), |old(p.table)| + 3)
  {
    hide Open;
    ghost var t := p.table;
    OpenIsRoom(t, p.limit);
    var a := p.Alloc(0, SignalFd, true);
    if a < 0 { return false, 0, 0, 0; }
    TakeLowest(t, p.limit, a, Desc(SignalFd, true));
    sfd := a;
    ok, r, w := p.Pair(Report(0), Report(1), true);
  }

  /** The spawner's own process, up to exec. */
  method HandOver(p: Process, logw: seq<nat>, sfd: nat, r: nat, w: nat, ghost t0: Table, ghost t1: Table)
    requires Plain(t0) && Logging(t0, t1, logw)
    requires sfd !in t1 && r !in t1 && w !in t1 && sfd != r && sfd != w && r != w
    requires p.table == t1[sfd := Desc(SignalFd, true)][r := Desc(Report(0), true)][w := Desc(Report(1), true)]
    modifies p`table
    ensures Handed(t0, p.table, logw, w) && |p.table| == |t1| + 1
    ensures forall fd :: fd in p.table && fd !in t1 ==> fd == w
  {
    hide Logging, Plain, Handed, Inherited;
    p.Close(r);
    var ok := p.ClearCloexec(w);
    ghost var t2 := p.table;
    assert t2 == t1[sfd := Desc(SignalFd, true)][w := Desc(Report(1), false)];
    PassLogs(p, logw);
    HandedIs(t0, t1, t2, p.table, logw, sfd, r, w);
    p.Exec();
    HandedSize(t0, t1, p.table, logw, w);
  }

  /** From the log pipes to the spawner's exec; it fails only for want of n + 3 numbers. */
  method OpenCity(p: Process, n: nat) returns (ok: bool, logw: seq<nat>, report: nat, spawner: Process)
    requires n > 0 && Plain(p.table)
    modifies p
    ensures ok <==> |Open(old(p.table), p.limit)| >= n + 3
    ensures ok ==> fresh(spawner) && spawner.limit == p.limit && |logw| == n
    ensures ok ==> Handed(old(p.table), spawner.table, logw, report) && |spawner.table| == |old(p.table)| + n + 1
    ensures ok ==> forall fd :: fd in spawner.table && fd !in old(p.table) ==> fd <= |old(p.table)| + n + 2
    ensures ok ==> spawner.peak == |old(p.table)| + n + 3
    ensures p.peak <= Max(old(p.peak), |old(p.table)| + n + 3)
  {
    hide Open, Logging, LoggerIs, Plain, Handed;
    ghost var t0 := p.table;
    report := 0;
    spawner := p;
    ghost var loggers;
    ok, logw, loggers := MakeLogs(p, n);
    if !ok { return; }
    ghost var t1 := p.table;
    var sfd, r, w;
    ok, sfd, r, w := OpenLast(p);
    if !ok { return; }
    report := w;
    spawner := p.Fork();
    HandOver(spawner, logw, sfd, r, w, t0, t1);
  }

  lemma HandedSize(t0: Table, t1: Table, t: Table, logw: seq<nat>, report: nat)
    requires Logging(t0, t1, logw) && report !in t1 && Handed(t0, t, logw, report)
    ensures |t| == |t1| + 1
    ensures forall fd :: fd in t && fd !in t1 ==> fd == report
  {
    assert t.Keys == t1.Keys + {report};
  }

  lemma OpenAtLeast(t: Table, limit: nat)
    ensures |Open(t, limit)| + |t| >= limit
  {
    var taken := set fd | fd in t && fd < limit;
    SubsetSize(taken, t.Keys);
    assert Numbers(0, limit) == Open(t, limit) + taken;
    assert Open(t, limit) !! taken;
  }

  lemma StdioOnly(t: Table)
    requires |t| == 3 && 0 in t && 1 in t && 2 in t
    ensures forall fd :: fd in t ==> fd <= 2
  {
    forall fd: nat | fd in t && fd > 2 ensures false {
      SubsetSize({0, 1, 2, fd}, t.Keys);
    }
  }

  lemma HandedGives(t0: Table, t: Table, logw: seq<nat>, report: nat)
    requires Handed(t0, t, logw, report)
    ensures LogsAre(t, logw) && (0 in t0 ==> 0 in t) && (1 in t0 ==> 1 in t) && (2 in t0 ==> 2 in t)
  {
  }

  /** The table nw-spawn starts with, its numbers all below the limit and below SWEEP. */
  lemma HandedIsLow(t0: Table, t: Table, logw: seq<nat>, report: nat, n: nat, e: nat, limit: nat)
    requires Handed(t0, t, logw, report) && |t0| == 3 && 0 in t0 && 1 in t0 && 2 in t0
    requires forall fd :: fd in t && fd !in t0 ==> fd <= |t0| + n + 2
    requires n <= MAX_UNITS && limit >= BootNeed(n, e)
    ensures forall fd :: fd in t ==> fd < limit && fd < SWEEP
  {
    StdioOnly(t0);
    hide Handed;
    forall fd | fd in t ensures fd < limit && fd < SWEEP {
      if fd in t0 { assert fd <= 2; }
    }
  }

  /** From there, one house: when it runs, and with how much. */
  lemma HouseAtBoot(f: Fate, peak: nat, edges: seq<Edge>, names: seq<Bytes>, i: nat, t: Table, full: Table, limit: nat,
                    proc: Proc)
    requires EdgesOk(edges, |names|) && |names| <= MAX_UNITS && |t| == 4 + |names|
    requires WithSockets(t, full, |edges|, limit) && 0 in t && 1 in t && 2 in t
    requires forall fd :: fd in t ==> fd < limit && fd < SWEEP
    requires Fated(f, edges, names, i, full, limit, proc) && PeakIs(peak, f, edges, i, full, limit, proc)
    ensures var least := 6 + |names| + 2 * |edges| + |Incident(edges, i)|;
            && (f.Running? <==> least <= limit && (proc.mounted && least < limit ==> proc.fdopendir))
            && peak <= least + 1 && (f.Running? && proc.mounted && least < limit ==> peak == least + 1)
    ensures Wired(f, edges, names, i, map[])
  {
    hide Incident, Wired, Room, Packs, CanList, Spill, Open;
    EdgesFew(edges, |names|);
    NothingSpills(t, full, |edges|, limit, |Incident(edges, i)|, proc);
    assert forall fd :: fd in full ==> fd < limit;
    PacksIff(full, limit, |Incident(edges, i)|, proc);
  }

  /** The whole boot: with stdio open and a limit that covers the need, PID 1 and nw-spawn never run out of
      numbers and stay within 6 + n and 6 + n + 2e. A house of w wires runs, with its kit and nothing more,
      exactly when the limit is at least 6 + n + 2e + w and /proc/self/fd, if there is a number left for it,
      can be read; its process has up to 7 + n + 2e + w descriptors open at once. */
  method BootCity(p: Process, edges: seq<Edge>, names: seq<Bytes>, procs: seq<Proc>)
    returns (ok: bool, houses: seq<Fate>, ghost spawnPeak: nat, ghost peaks: seq<nat>)
    requires EdgesOk(edges, |names|) && 1 <= |names| <= MAX_UNITS && |procs| == |names|
    requires |p.table| == 3 && 0 in p.table && 1 in p.table && 2 in p.table && Plain(p.table) && p.peak == 3
    requires p.limit >= BootNeed(|names|, |edges|)
    modifies p
    ensures ok
    ensures |houses| == |peaks| == |names| && forall i :: 0 <= i < |names| ==> Wired(houses[i], edges, names, i, map[])
    ensures forall i :: 0 <= i < |names| ==>
              var least := 6 + |names| + 2 * |edges| + |Incident(edges, i)|;
              && (houses[i].Running? <==>
                    least <= p.limit && (procs[i].mounted && least < p.limit ==> procs[i].fdopendir))
              && peaks[i] <= least + 1
              && (houses[i].Running? && procs[i].mounted && least < p.limit ==> peaks[i] == least + 1)
    ensures p.peak <= 6 + |names| && spawnPeak <= 6 + |names| + 2 * |edges|
  {
    hide Open, Wired, Incident, Handed, LogsAre, Plain, Fated, PeakIs, WithSockets;
    var n, e := |names|, |edges|;
    houses, spawnPeak, peaks := [], 0, [];
    ghost var t0 := p.table;
    OpenAtLeast(t0, p.limit);
    var logw, report, spawner;
    ok, logw, report, spawner := OpenCity(p, n);
    if !ok { return; }
    ghost var t := spawner.table;
    HandedGives(t0, t, logw, report);
    HandedIsLow(t0, t, logw, report, n, e, p.limit);
    OpenAtLeast(t, p.limit);
    ghost var full;
    ok, houses, full, peaks := SpawnAll(spawner, logw, edges, names, procs);
    spawnPeak := spawner.peak;
    assert ok;
    forall i | 0 <= i < n
      ensures var least := 6 + n + 2 * e + |Incident(edges, i)|;
              && (houses[i].Running? <==>
                    least <= p.limit && (procs[i].mounted && least < p.limit ==> procs[i].fdopendir))
              && peaks[i] <= least + 1
              && (houses[i].Running? && procs[i].mounted && least < p.limit ==> peaks[i] == least + 1)
      ensures Wired(houses[i], edges, names, i, map[])
    {
      HouseAtBoot(houses[i], peaks[i], edges, names, i, t, full, p.limit, procs[i]);
    }
  }

  /** At a limit of exactly NW_BOOT_NEED, with /proc in order, the houses that run are those of at most two wires. */
  method BootAtNeed(p: Process, edges: seq<Edge>, names: seq<Bytes>, procs: seq<Proc>) returns (houses: seq<Fate>)
    requires EdgesOk(edges, |names|) && 1 <= |names| <= MAX_UNITS && |procs| == |names|
    requires |p.table| == 3 && 0 in p.table && 1 in p.table && 2 in p.table && Plain(p.table) && p.peak == 3
    requires p.limit == BootNeed(|names|, |edges|)
    requires forall i :: 0 <= i < |procs| ==> procs[i] == Proc(true, true)
    modifies p
    ensures |houses| == |names|
    ensures forall i :: 0 <= i < |names| ==> (houses[i].Running? <==> |Incident(edges, i)| <= 2)
  {
    hide Wired, Incident, Plain;
    var ok;
    ghost var spawnPeak, peaks;
    ok, houses, spawnPeak, peaks := BootCity(p, edges, names, procs);
  }

  /** One house wired to three others. */
  const STAR: seq<Edge> := [Edge(0, 1), Edge(0, 2), Edge(0, 3)]

  lemma StarWires()
    ensures |Incident(STAR, 0)| == 3
    ensures forall i: nat :: 1 <= i <= 3 ==> |Incident(STAR, i)| == 1
  {
    assert STAR[..0] == [];
    forall i: nat | i <= 3 ensures |Incident(STAR, i)| == if i == 0 then 3 else 1 {
      IncidentStep(STAR, i, 0);
      IncidentStep(STAR, i, 1);
      IncidentStep(STAR, i, 2);
      assert STAR[..3] == STAR;
    }
  }

  /** Four houses and that star boot at a limit of 18, their NW_BOOT_NEED; the hub's process dies for want of
      a number and the other three run. */
  method BootStar() returns (houses: seq<Fate>)
    ensures |houses| == 4 && houses[0] == Died && houses[1].Running? && houses[2].Running? && houses[3].Running?
  {
    var stdio: Table := map[0 := Desc(Other(0), false), 1 := Desc(Other(0), false), 2 := Desc(Other(0), false)];
    assert stdio.Keys == {0, 1, 2};
    var p := new Process(stdio, 18);
    StarWires();
    hide Incident;
    houses := BootAtNeed(p, STAR, [[97], [98], [99], [100]], seq(4, _ => Proc(true, true)));
  }
}
