/** nwspawn.c: pack_kit and close_others. */
module Packing {
  import opened Fds
  import opened Prelude

  /** NW_FD_SWEEP */
  const SWEEP: nat := 1024
  const MAX_WIRES: nat := 128

  /** Which of the two ways close_others goes, and whether a call in it fails for reasons outside the table. */
  datatype Proc = Proc(mounted: bool, fdopendir: bool)

  /** A house's table: /dev/null on 0, its log on 1 and 2, its wires from 3 up; nothing closed on exec. */
  function Kit(log: Obj, wires: seq<Obj>): Table {
    map fd: nat | fd < 3 + |wires| :: KitDesc(log, wires, fd)
  }

  function KitDesc(log: Obj, wires: seq<Obj>, fd: nat): Desc
    requires fd < 3 + |wires|
  {
    Desc(if fd == 0 then DevNull else if fd < 3 then log else wires[fd - 3], false)
  }

  /** What a sweep that cannot list the table leaves behind: it stops at SWEEP. */
  function Beyond(t: Table): Table {
    map fd | fd in t && fd >= SWEEP :: t[fd]
  }

  /** The numbers in hand when the sweep runs. */
  datatype Held = Held(nullfd: nat, logn: nat, scratch: seq<nat>) {
    ghost predicate Keeps(fd: nat) { fd == nullfd || fd == logn || fd in scratch }

    /** The numbers are where lowest-free allocation puts them. */
    ghost predicate Ordered() {
      && 3 <= logn && nullfd != logn
      && (forall k :: 0 <= k < |scratch| ==> logn < scratch[k] && scratch[k] > 3 + k && scratch[k] != nullfd)
      && (forall j, k :: 0 <= j < k < |scratch| ==> scratch[j] < scratch[k])
    }
  }

  /** The table when only the held descriptors, and `extra`, are open. */
  ghost predicate OnlyHeld(t: Table, h: Held, log: Obj, wires: seq<Obj>, extra: Table) {
    && |wires| == |h.scratch|
    && (forall fd :: fd in t <==> h.Keeps(fd) || fd in extra)
    && (forall fd :: fd in extra ==> fd in t && t[fd] == extra[fd] && !h.Keeps(fd) && fd >= SWEEP)
    && h.nullfd in t && t[h.nullfd].obj == DevNull
    && h.logn in t && t[h.logn].obj == log
    && (forall k :: 0 <= k < |wires| ==> h.scratch[k] in t && t[h.scratch[k]] == Desc(wires[k], true))
  }

  /** The three allocations' worth of descriptors, added to the table. */
  ghost predicate Gathered(t0: Table, t: Table, h: Held, log: Obj, wires: seq<Obj>) {
    && |wires| == |h.scratch|
    && (forall fd :: fd in t <==> fd in t0 || h.Keeps(fd))
    && (forall fd :: fd in t0 ==> !h.Keeps(fd) && t[fd] == t0[fd])
    && h.nullfd in t && t[h.nullfd].obj == DevNull
    && h.logn in t && t[h.logn].obj == log
    && (forall k :: 0 <= k < |wires| ==> h.scratch[k] in t && t[h.scratch[k]] == Desc(wires[k], true))
  }

  /** Free numbers in [3, limit). */
  ghost function Free(t: Table, limit: nat): set<nat> {
    set fd: nat | 3 <= fd < limit && fd !in t
  }

  lemma FreeShrinks(t: Table, limit: nat, fd: nat, d: Desc)
    requires 3 <= fd < limit && fd !in t
    ensures |Free(t[fd := d], limit)| == |Free(t, limit)| - 1
  {
    assert Free(t, limit) == Free(t[fd := d], limit) + {fd};
  }

  lemma FreeIsRoom(t: Table, limit: nat)
    ensures Full(t, 3, limit) <==> |Free(t, limit)| == 0
  {
    if Full(t, 3, limit) {
      assert Free(t, limit) == {};
    } else {
      var k :| 3 <= k < limit && k !in t;
      assert k in Free(t, limit);
    }
  }

  /** Every descriptor pack_kit is handed is open. */
  predicate SourcesOpen(t: Table, log: nat, wires: seq<nat>) {
    log in t && forall k :: 0 <= k < |wires| ==> wires[k] in t
  }

  function Sources(t: Table, wires: seq<nat>): (objs: seq<Obj>)
    requires forall k :: 0 <= k < |wires| ==> wires[k] in t
    ensures |objs| == |wires|
  {
    seq(|wires|, k requires 0 <= k < |wires| => t[wires[k]].obj)
  }

  /** Enough free numbers: one for /dev/null, and 1 + n from 3 up beside it. */
  ghost predicate Room(t: Table, limit: nat, n: nat) {
    |Free(t, limit)| >= 1 + n + if 0 in t && 1 in t && 2 in t then 1 else 0
  }

  /** Free numbers left for the log and the wires once /dev/null has its own. */
  lemma RoomAfterNull(t: Table, limit: nat, n: nat, fd: nat, d: Desc)
    requires LowestFree(t, 0, fd) && fd < limit
    ensures Room(t, limit, n) <==> |Free(t[fd := d], limit)| >= 1 + n
  {
    if fd >= 3 {
      FreeShrinks(t, limit, fd, d);
    } else {
      assert Free(t[fd := d], limit) == Free(t, limit);
    }
  }

  lemma NoRoomWhenFull(t: Table, limit: nat, n: nat)
    requires Full(t, 0, limit)
    ensures !Room(t, limit, n)
  {
    FreeIsRoom(t, limit);
  }

  ghost predicate FilledTo(t: Table, last: nat) {
    forall f :: 3 <= f <= last ==> f in t
  }

  /** The allocation loop: every number from 3 to the last one given out is taken. */
  ghost predicate Gathering(t0: Table, t: Table, h: Held, log: Obj, wires: seq<Obj>, last: nat, limit: nat) {
    && Gathered(t0, t, h, log, wires) && h.Ordered()
    && last >= 3 + |wires| && FilledTo(t, last)
    && h.nullfd < limit && h.logn < limit && h.logn <= last
    && (forall k :: 0 <= k < |wires| ==> h.scratch[k] <= last && h.scratch[k] < limit)
  }

  lemma GatherNone(t0: Table, h: Held, log: Obj, limit: nat)
    requires LowestFree(t0, 0, h.nullfd) && h.nullfd < limit && h.scratch == []
    requires LowestFree(t0[h.nullfd := Desc(DevNull, true)], 3, h.logn) && h.logn < limit
    ensures Gathering(t0, t0[h.nullfd := Desc(DevNull, true)][h.logn := Desc(log, true)], h, log, [], h.logn, limit)
  {
  }

  /** One wire more. */
  lemma GatherOne(t0: Table, t: Table, h: Held, log: Obj, wires: seq<Obj>, last: nat, limit: nat, fd: nat, obj: Obj)
    requires Gathering(t0, t, h, log, wires, last, limit)
    requires LowestFree(t, 3, fd) && fd < limit
    ensures Gathering(t0, t[fd := Desc(obj, true)], h.(scratch := h.scratch + [fd]), log, wires + [obj], fd, limit)
  {
    hide Gathered, Held.Ordered;
    GatheredOne(t0, t, h, log, wires, fd, obj);
    assert fd > last;
    OrderedOne(h, fd);
    assert FilledTo(t[fd := Desc(obj, true)], fd);
  }

  lemma OrderedOne(h: Held, fd: nat)
    requires h.Ordered() && fd > h.logn && fd != h.nullfd && fd > 3 + |h.scratch|
    requires forall k :: 0 <= k < |h.scratch| ==> h.scratch[k] < fd
    ensures h.(scratch := h.scratch + [fd]).Ordered()
  {
  }

  lemma GatheredOne(t0: Table, t: Table, h: Held, log: Obj, wires: seq<Obj>, fd: nat, obj: Obj)
    requires Gathered(t0, t, h, log, wires) && fd !in t
    ensures Gathered(t0, t[fd := Desc(obj, true)], h.(scratch := h.scratch + [fd]), log, wires + [obj])
    ensures |h.scratch| == |wires| && fd != h.nullfd
  {
    var g := h.(scratch := h.scratch + [fd]);
    assert forall k :: 0 <= k < |wires| ==> g.scratch[k] == h.scratch[k];
    assert g.scratch[|wires|] == fd;
    assert forall f :: g.Keeps(f) <==> h.Keeps(f) || f == fd;
  }

  /** The first half of pack_kit: /dev/null, the log and every wire, each on a number of its own. */
  method Gather(p: Process, logw: nat, wires: seq<nat>) returns (ok: bool, h: Held, ghost last: nat)
    requires SourcesOpen(p.table, logw, wires)
    modifies p
    ensures ok <==> Room(old(p.table), p.limit, |wires|)
    ensures ok ==> var t := old(p.table); Gathering(t, p.table, h, t[logw].obj, Sources(t, wires), last, p.limit)
    ensures |p.table| <= |old(p.table)| + 2 + |wires| && (ok ==> |p.table| == |old(p.table)| + 2 + |wires|)
    ensures ok ==> |Open(p.table, p.limit)| == |Open(old(p.table), p.limit)| - 2 - |wires|
    ensures p.peak == Max(old(p.peak), |p.table|)
  {
    ghost var t0 := p.table;
    h := Held(0, 0, []);
    last := 0;
    var nullfd := p.Alloc(0, DevNull, true);
    if nullfd < 0 {
      NoRoomWhenFull(t0, p.limit, |wires|);
      return false, h, last;
    }
    RoomAfterNull(t0, p.limit, |wires|, nullfd, Desc(DevNull, true));
    TakeAny(t0, p.limit, nullfd, Desc(DevNull, true));
    ghost var t1 := p.table;
    FreeIsRoom(t1, p.limit);
    var logn := p.DupFd(logw, 3);
    if logn < 0 { return false, h, last; }
    FreeShrinks(t1, p.limit, logn, p.table[logn]);
    TakeAny(t1, p.limit, logn, p.table[logn]);
    h := Held(nullfd, logn, []);
    GatherNone(t0, h, t0[logw].obj, p.limit);
    assert t1[logw] == t0[logw];
    ok, h, last := GatherWires(p, wires, h, t0, t0[logw].obj);
  }

  method GatherWires(p: Process, wires: seq<nat>, h0: Held, ghost t0: Table, ghost log: Obj)
    returns (ok: bool, h: Held, ghost last: nat)
    requires forall k :: 0 <= k < |wires| ==> wires[k] in t0
    requires h0.scratch == [] && Gathering(t0, p.table, h0, log, [], h0.logn, p.limit) && |p.table| <= p.peak
    modifies p
    ensures ok <==> |Free(old(p.table), p.limit)| >= |wires|
    ensures ok ==> Gathering(t0, p.table, h, log, Sources(t0, wires), last, p.limit)
    ensures |old(p.table)| <= |p.table| <= |old(p.table)| + |wires| && (ok ==> |p.table| == |old(p.table)| + |wires|)
    ensures ok ==> |Open(p.table, p.limit)| == |Open(old(p.table), p.limit)| - |wires|
    ensures p.peak == Max(old(p.peak), |p.table|)
  {
    hide Gathering, Free, Full, LowestFree, Open;
    ghost var objs := Sources(t0, wires);
    h, last := h0, h0.logn;
    assert objs[..0] == [];
    for k := 0 to |wires|
      invariant |p.table| == |old(p.table)| + k && p.peak == Max(old(p.peak), |p.table|)
      invariant Gathering(t0, p.table, h, log, objs[..k], last, p.limit)
      invariant |Free(p.table, p.limit)| == |Free(old(p.table), p.limit)| - k
      invariant |Open(p.table, p.limit)| == |Open(old(p.table), p.limit)| - k
    {
      ghost var t := p.table;
      FreeIsRoom(t, p.limit);
      StillOpen(t0, t, h, log, objs[..k], last, p.limit, wires[k]);
      var s := p.DupFd(wires[k], 3);
      if s < 0 { return false, h, last; }
      GatherOne(t0, t, h, log, objs[..k], last, p.limit, s, objs[k]);
      TakeOne(t, p.limit, s, p.table[s]);
      h, last := h.(scratch := h.scratch + [s]), s;
      assert objs[..k + 1] == objs[..k] + [objs[k]];
    }
    assert objs[..|wires|] == objs;
    return true, h, last;
  }

  lemma StillOpen(t0: Table, t: Table, h: Held, log: Obj, wires: seq<Obj>, last: nat, limit: nat, fd: nat)
    requires Gathering(t0, t, h, log, wires, last, limit) && fd in t0
    ensures fd in t && t[fd] == t0[fd]
  {
  }

  lemma TakeOne(t: Table, limit: nat, fd: nat, d: Desc)
    requires LowestFree(t, 3, fd) && fd < limit
    ensures |Free(t[fd := d], limit)| == |Free(t, limit)| - 1
    ensures |Open(t[fd := d], limit)| == |Open(t, limit)| - 1
  {
    FreeShrinks(t, limit, fd, d);
    TakeAny(t, limit, fd, d);
  }

  function Kept(t: Table, keep: seq<nat>): Table {
    map fd | fd in t && fd in keep :: t[fd]
  }

  function Doomed(t: Table, keep: seq<nat>): set<nat> {
    set fd | fd in t && fd !in keep
  }

  lemma CloseOne(t: Table, closed: set<nat>, fd: nat)
    ensures (t - closed) - {fd} == t - (closed + {fd})
  {
  }

  lemma DoomedGone(t: Table, keep: seq<nat>)
    ensures t - Doomed(t, keep) == Kept(t, keep)
  {
  }

  /** The sweep that cannot list the table: every number below SWEEP that is not kept. */
  method SweepBlind(p: Process, keep: seq<nat>)
    modifies p`table
    ensures p.table == Kept(old(p.table), keep) + Beyond(old(p.table))
  {
    ghost var t0 := p.table;
    ghost var closed: set<nat> := {};
    assert t0 - closed == t0;
    for fd := 0 to SWEEP
      invariant p.table == t0 - closed
      invariant forall x: nat :: x in closed <==> x < fd && x !in keep
    {
      if fd !in keep {
        CloseOne(t0, closed, fd);
        p.Close(fd);
        closed := closed + {fd};
      }
    }
    assert forall fd :: fd in Kept(t0, keep) + Beyond(t0) <==> fd in t0 && fd !in closed;
    assert p.table == Kept(t0, keep) + Beyond(t0);
  }

  /** The sweep over a listing: every number in it that is not kept, in any order. */
  method SweepListed(p: Process, keep: seq<nat>, doomed: set<nat>)
    requires doomed == Doomed(p.table, keep)
    modifies p`table
    ensures p.table == Kept(old(p.table), keep)
  {
    ghost var t0 := p.table;
    ghost var closed: set<nat> := {};
    var left := doomed;
    assert t0 - closed == t0;
    while left != {}
      invariant p.table == t0 - closed
      invariant closed + left == doomed
      decreases |left|
    {
      var fd :| fd in left;
      CloseOne(t0, closed, fd);
      p.Close(fd);
      left := left - {fd};
      closed := closed + {fd};
    }
    assert closed == doomed;
    DoomedGone(t0, keep);
  }

  /** close_others: everything not in `keep` goes; when the table cannot be listed, only what is below SWEEP. */
  method CloseOthers(p: Process, keep: seq<nat>, proc: Proc) returns (ok: bool, ghost listed: bool)
    modifies p
    ensures listed <==> proc.mounted && !Full(old(p.table), 0, p.limit)
    ensures ok <==> (listed ==> proc.fdopendir && |Doomed(old(p.table), keep)| <= SWEEP)
    ensures ok ==> p.table == Kept(old(p.table), keep) + (if listed then map[] else Beyond(old(p.table)))
    ensures p.peak == Max(old(p.peak), |old(p.table)| + if listed then 1 else 0)
  {
    ghost var t0 := p.table;
    var dfd := -1;
    if proc.mounted {
      dfd := p.Alloc(0, FdDir, false);
    }
    p.Touch();
    if dfd < 0 {
      SweepBlind(p, keep);
      return true, false;
    }
    if !proc.fdopendir {
      return false, true;
    }
    var doomed := set fd | fd in p.table.Keys && fd != dfd && fd !in keep;
    assert doomed == Doomed(t0, keep);
    if |doomed| > SWEEP {
      return false, true;
    }
    p.Close(dfd);
    assert p.table == t0;
    SweepListed(p, keep, doomed);
    assert Kept(t0, keep) + map[] == Kept(t0, keep);
    return true, true;
  }

  lemma KeepIs(h: Held, keep: seq<nat>)
    requires keep == [h.nullfd, h.logn] + h.scratch
    ensures forall fd :: fd in keep <==> h.Keeps(fd)
  {
  }

  lemma SweepFinds(t0: Table, t: Table, h: Held, log: Obj, wires: seq<Obj>, keep: seq<nat>)
    requires Gathered(t0, t, h, log, wires)
    requires forall fd :: fd in keep <==> h.Keeps(fd)
    ensures Doomed(t, keep) == t0.Keys
    ensures Kept(t, keep) + Beyond(t) == Kept(t, keep) + Beyond(t0)
  {
  }

  lemma SweepLeavesHeld(t0: Table, t: Table, h: Held, log: Obj, wires: seq<Obj>, keep: seq<nat>)
    requires Gathered(t0, t, h, log, wires)
    requires forall fd :: fd in keep <==> h.Keeps(fd)
    ensures OnlyHeld(Kept(t, keep) + map[], h, log, wires, map[])
    ensures OnlyHeld(Kept(t, keep) + Beyond(t0), h, log, wires, Beyond(t0))
  {
    assert forall k :: 0 <= k < |wires| ==> h.Keeps(h.scratch[k]);
    hide Held.Keeps;
  }

  /** The middle of the placement: 0, 1, 2 and the first `k` wires are in place, the other scratch numbers wait. */
  ghost predicate Stowed(t: Table, h: Held, log: Obj, wires: seq<Obj>, k: nat, extra: Table) {
    StowedNumbers(t, h, k, extra) && StowedKit(t, log, wires, k) && StowedRest(t, h, wires, k, extra)
  }

  ghost predicate StowedNumbers(t: Table, h: Held, k: nat, extra: Table) {
    && (forall fd: nat :: fd in t <==> fd < 3 + k || Waiting(h, k, fd) || fd in extra)
    && (forall fd :: fd in extra ==> fd >= SWEEP && fd !in h.scratch)
  }

  ghost predicate StowedKit(t: Table, log: Obj, wires: seq<Obj>, k: nat) {
    k <= |wires| && 3 + |wires| <= SWEEP && forall fd: nat :: fd < 3 + k ==> fd in t && t[fd] == KitDesc(log, wires, fd)
  }

  ghost predicate StowedRest(t: Table, h: Held, wires: seq<Obj>, k: nat, extra: Table) {
    && |wires| == |h.scratch|
    && (forall i :: k <= i < |wires| ==> h.scratch[i] in t && t[h.scratch[i]] == Desc(wires[i], true))
    && (forall fd :: fd in extra ==> fd in t && t[fd] == extra[fd])
  }

  ghost predicate Waiting(h: Held, k: nat, fd: nat) {
    exists i :: k <= i < |h.scratch| && h.scratch[i] == fd
  }

  lemma HeldFacts(t: Table, h: Held, log: Obj, wires: seq<Obj>, extra: Table)
    requires h.Ordered() && OnlyHeld(t, h, log, wires, extra)
    ensures h.nullfd in t && t[h.nullfd].obj == DevNull && h.logn in t && t[h.logn].obj == log
    ensures h.nullfd != h.logn && h.logn >= 3
  {
  }

  /** The same above 2, but for the numbers in `gone`. */
  ghost predicate SameAbove(t0: Table, t: Table, gone: set<nat>) {
    forall fd: nat :: fd > 2 ==> (fd in t <==> fd in t0 && fd !in gone) && (fd in t ==> t[fd] == t0[fd])
  }

  ghost predicate Stdio(t: Table, log: Obj) {
    0 in t && 1 in t && 2 in t && t[0].obj == DevNull && t[1].obj == log && t[2].obj == log
  }

  ghost predicate Passed(t: Table) {
    0 in t && 1 in t && 2 in t && !t[0].cloexec && !t[1].cloexec && !t[2].cloexec
  }

  lemma StdioNumbers(t0: Table, t: Table, h: Held, log: Obj, wires: seq<Obj>, extra: Table)
    requires h.Ordered() && OnlyHeld(t0, h, log, wires, extra)
    requires SameAbove(t0, t, {h.nullfd, h.logn}) && Stdio(t, log)
    ensures StowedNumbers(t, h, 0, extra)
  {
    forall fd: nat ensures Waiting(h, 0, fd) <==> fd in h.scratch {
    }
    forall fd | fd in h.scratch ensures fd > 2 && fd != h.nullfd && fd != h.logn {
    }
    hide Waiting, Held.Ordered;
  }

  lemma StdioRest(t0: Table, t: Table, h: Held, log: Obj, wires: seq<Obj>, extra: Table)
    requires h.Ordered() && OnlyHeld(t0, h, log, wires, extra)
    requires SameAbove(t0, t, {h.nullfd, h.logn})
    ensures StowedRest(t, h, wires, 0, extra)
  {
  }

  lemma StdioLaid(t0: Table, t: Table, h: Held, log: Obj, wires: seq<Obj>, extra: Table)
    requires h.Ordered() && OnlyHeld(t0, h, log, wires, extra) && 3 + |wires| <= SWEEP
    requires SameAbove(t0, t, {h.nullfd, h.logn}) && Stdio(t, log) && Passed(t)
    ensures Stowed(t, h, log, wires, 0, extra)
  {
    hide SameAbove, StowedNumbers, StowedRest, OnlyHeld, Held.Ordered;
    StdioNumbers(t0, t, h, log, wires, extra);
    StdioRest(t0, t, h, log, wires, extra);
  }

  method PlaceThree(p: Process, h: Held, ghost log: Obj) returns (ok: bool)
    requires h.nullfd in p.table && h.logn in p.table && p.table[h.nullfd].obj == DevNull && p.table[h.logn].obj == log
    requires h.logn >= 3 && 3 <= p.limit
    modifies p`table
    ensures ok && SameAbove(old(p.table), p.table, {}) && Stdio(p.table, log)
  {
    ok := p.Dup2(h.nullfd, 0);
    if !ok { return; }
    ok := p.Dup2(h.logn, 1);
    if !ok { return; }
    ok := p.Dup2(h.logn, 2);
  }

  method DropTwo(p: Process, h: Held, ghost log: Obj)
    requires Stdio(p.table, log) && h.logn >= 3
    modifies p`table
    ensures SameAbove(old(p.table), p.table, {h.nullfd, h.logn}) && Stdio(p.table, log)
  {
    if h.nullfd > 2 { p.Close(h.nullfd); }
    if h.logn > 2 { p.Close(h.logn); }
  }

  method PassThree(p: Process, ghost log: Obj) returns (ok: bool)
    requires Stdio(p.table, log)
    modifies p`table
    ensures ok && SameAbove(old(p.table), p.table, {}) && Stdio(p.table, log) && Passed(p.table)
  {
    ok := p.ClearCloexec(0);
    if !ok { return; }
    ok := p.ClearCloexec(1);
    if !ok { return; }
    ok := p.ClearCloexec(2);
  }

  /** 0, 1 and 2. */
  method PlaceStdio(p: Process, h: Held, ghost log: Obj, ghost wires: seq<Obj>, ghost extra: Table) returns (ok: bool)
    requires h.Ordered() && OnlyHeld(p.table, h, log, wires, extra) && 3 + |wires| <= SWEEP && 3 <= p.limit
    modifies p`table
    ensures ok && Stowed(p.table, h, log, wires, 0, extra)
  {
    ghost var t0 := p.table;
    HeldFacts(t0, h, log, wires, extra);
    ok := PlaceThree(p, h, log);
    if !ok { return; }
    DropTwo(p, h, log);
    ok := PassThree(p, log);
    hide OnlyHeld, Stowed, Held.Ordered, Stdio, Passed;
    assert SameAbove(t0, p.table, {h.nullfd, h.logn});
    StdioLaid(t0, p.table, h, log, wires, extra);
  }

  /** No placement destroys a scratch number that still waits. */
  lemma WaitingAbove(h: Held, k: nat, fd: nat)
    requires h.Ordered() && k < |h.scratch|
    ensures Waiting(h, k, fd) <==> Waiting(h, k + 1, fd) || fd == h.scratch[k]
    ensures Waiting(h, k + 1, fd) ==> fd > h.scratch[k] > 3 + k
  {
  }

  function PlacedOne(t: Table, s: nat, target: nat, d: Desc): Table {
    t[target := d] - {s}
  }

  lemma NumbersOne(t: Table, h: Held, k: nat, extra: Table, d: Desc)
    requires h.Ordered() && StowedNumbers(t, h, k, extra) && k < |h.scratch|
    ensures StowedNumbers(PlacedOne(t, h.scratch[k], 3 + k, d), h, k + 1, extra)
  {
    var u := PlacedOne(t, h.scratch[k], 3 + k, d);
    assert h.scratch[k] in h.scratch && h.scratch[k] > 3 + k;
    forall fd: nat ensures fd in u <==> fd < 3 + (k + 1) || Waiting(h, k + 1, fd) || fd in extra {
      WaitingAbove(h, k, fd);
    }
  }

  lemma KitOne(t: Table, log: Obj, wires: seq<Obj>, k: nat, s: nat)
    requires StowedKit(t, log, wires, k) && k < |wires| && s > 3 + k
    ensures StowedKit(PlacedOne(t, s, 3 + k, Desc(wires[k], false)), log, wires, k + 1)
  {
  }

  lemma RestOne(t: Table, h: Held, wires: seq<Obj>, k: nat, extra: Table, d: Desc)
    requires h.Ordered() && StowedRest(t, h, wires, k, extra) && k < |wires|
    requires forall fd :: fd in extra ==> fd > 3 + k && fd !in h.scratch
    ensures StowedRest(PlacedOne(t, h.scratch[k], 3 + k, d), h, wires, k + 1, extra)
  {
    assert h.scratch[k] in h.scratch;
    forall i | k < i < |wires| ensures h.scratch[i] > h.scratch[k] > 3 + k {
    }
    hide Held.Ordered;
  }

  /** One wire placed. */
  lemma StowedOne(t: Table, h: Held, log: Obj, wires: seq<Obj>, k: nat, extra: Table)
    requires h.Ordered() && Stowed(t, h, log, wires, k, extra) && k < |wires|
    ensures h.scratch[k] in t && t[h.scratch[k]].obj == wires[k] && h.scratch[k] > 3 + k
    ensures Stowed(PlacedOne(t, h.scratch[k], 3 + k, Desc(wires[k], false)), h, log, wires, k + 1, extra)
  {
    var d := Desc(wires[k], false);
    NumbersOne(t, h, k, extra, d);
    KitOne(t, log, wires, k, h.scratch[k]);
    RestOne(t, h, wires, k, extra, d);
    hide Waiting, PlacedOne, StowedNumbers, StowedKit;
  }

  /** One turn of the placement loop. */
  method PlaceWire(p: Process, s: nat, target: nat, ghost wire: Obj) returns (ok: bool)
    requires s in p.table && p.table[s].obj == wire && s > target && s < p.limit
    modifies p`table
    ensures ok && p.table == PlacedOne(old(p.table), s, target, Desc(wire, false))
  {
    ok := p.Dup2(s, target);
    if !ok { return; }
    if s != target { p.Close(s); }
    ok := p.ClearCloexec(target);
  }

  lemma StowedSizes(t: Table, h: Held, log: Obj, wires: seq<Obj>, k: nat, extra: Table)
    requires Stowed(t, h, log, wires, k, extra)
    ensures |h.scratch| == |wires|
  {
  }

  /** The wires, from 3 up. */
  method PlaceWires(p: Process, h: Held, ghost log: Obj, ghost wires: seq<Obj>, ghost extra: Table) returns (ok: bool)
    requires h.Ordered() && Stowed(p.table, h, log, wires, 0, extra)
    requires forall k :: 0 <= k < |h.scratch| ==> h.scratch[k] < p.limit
    modifies p`table
    ensures ok && Stowed(p.table, h, log, wires, |wires|, extra)
  {
    hide Stowed, Held.Ordered, PlacedOne;
    StowedSizes(p.table, h, log, wires, 0, extra);
    for k := 0 to |h.scratch|
      invariant Stowed(p.table, h, log, wires, k, extra)
    {
      StowedOne(p.table, h, log, wires, k, extra);
      ok := PlaceWire(p, h.scratch[k], 3 + k, wires[k]);
      if !ok { return; }
    }
    return true;
  }

  lemma StowedIsKit(t: Table, h: Held, log: Obj, wires: seq<Obj>, extra: Table)
    requires Stowed(t, h, log, wires, |wires|, extra)
    ensures t == Kit(log, wires) + extra
  {
    assert forall fd: nat :: !Waiting(h, |wires|, fd);
    hide Waiting;
    assert forall fd: nat :: fd in t <==> fd in Kit(log, wires) + extra;
  }

  /** Whether close_others can list the table: /proc is there, and a number is left for the listing beside the null
      device, the log and the wires. */
  ghost predicate CanList(t: Table, limit: nat, wires: nat, proc: Proc) {
    proc.mounted && |Open(t, limit)| >= 3 + wires
  }

  /** What packing needs of a table: numbers enough, and a listing, when there is one, that can be read to its end. */
  ghost predicate Packs(t: Table, limit: nat, wires: nat, proc: Proc) {
    Room(t, limit, wires) && (CanList(t, limit, wires, proc) ==> proc.fdopendir && |t| <= SWEEP)
  }

  /** What stays open beside the kit. */
  ghost function Spill(t: Table, limit: nat, wires: nat, proc: Proc): Table {
    if CanList(t, limit, wires, proc) then map[] else Beyond(t)
  }

  /** pack_kit. Whether it succeeds, and what the table then is, turn on the table, the limit and /proc alone: the kit,
      and besides it only what a sweep that cannot list the table does not reach. */
  method PackKit(p: Process, logw: nat, wires: seq<nat>, proc: Proc) returns (ok: bool)
    requires SourcesOpen(p.table, logw, wires) && |wires| <= MAX_WIRES
    modifies p
    ensures ok <==> Packs(old(p.table), p.limit, |wires|, proc)
    ensures ok ==> var t := old(p.table);
                   p.table == Kit(t[logw].obj, Sources(t, wires)) + Spill(t, p.limit, |wires|, proc)
    ensures p.peak <= Max(old(p.peak), |old(p.table)| + 3 + |wires|)
    ensures ok && CanList(old(p.table), p.limit, |wires|, proc) ==>
              p.peak == Max(old(p.peak), |old(p.table)| + 3 + |wires|)
  {
    hide Room, Held.Ordered, Held.Keeps, Gathering, Gathered, OnlyHeld, Stowed, Doomed, Kept, Kit, Beyond, Full, Open;
    ghost var t0 := p.table;
    ghost var log, objs := t0[logw].obj, Sources(t0, wires);
    var h;
    ghost var last;
    ok, h, last := Gather(p, logw, wires);
    if !ok { return; }
    ghost var t1 := p.table;
    GatheringFacts(t0, t1, h, log, objs, last, p.limit);
    var keep := [h.nullfd, h.logn] + h.scratch;
    KeepIs(h, keep);
    SweepFinds(t0, t1, h, log, objs, keep);
    SweepLeavesHeld(t0, t1, h, log, objs, keep);
    OpenIsRoom(t1, p.limit);
    ghost var listed;
    ok, listed := CloseOthers(p, keep, proc);
    assert |t0.Keys| == |t0|;
    if !ok { return; }
    ghost var extra := if listed then map[] else Beyond(t0);
    ok := PlaceStdio(p, h, log, objs, extra);
    if !ok { return; }
    ok := PlaceWires(p, h, log, objs, extra);
    StowedIsKit(p.table, h, log, objs, extra);
  }

  /** The packed table is the kit and nothing else if and only if the table could be listed or held nothing from SWEEP
      up. */
  lemma KitAlone(t: Table, limit: nat, log: Obj, wires: seq<Obj>, proc: Proc)
    requires |wires| <= MAX_WIRES
    ensures Kit(log, wires) + Spill(t, limit, |wires|, proc) == Kit(log, wires)
       <==> CanList(t, limit, |wires|, proc) || forall fd :: fd in t ==> fd < SWEEP
  {
    var kit := Kit(log, wires);
    if !CanList(t, limit, |wires|, proc) && exists fd :: fd in t && fd >= SWEEP {
      var fd :| fd in t && fd >= SWEEP;
      assert fd in kit + Beyond(t) && fd !in kit;
    } else {
      assert Spill(t, limit, |wires|, proc) == map[];
    }
  }

  /** Stdio, a log, and a descriptor at 1024; no /proc. */
  const FAR: Table := map[0 := Desc(Other(0), false), 1 := Desc(Other(0), false), 2 := Desc(Other(0), false),
                          3 := Desc(Log(0), false), 1024 := Desc(Other(1), false)]

  /** Packing that table succeeds and leaves 1024 open in the house. */
  lemma FarStaysOpen()
    ensures var proc := Proc(false, true);
            && SourcesOpen(FAR, 3, []) && Packs(FAR, 2000, 0, proc)
            && 1024 in Kit(Log(0), []) + Spill(FAR, 2000, 0, proc)
  {
    SubsetSize({4, 5}, Free(FAR, 2000));
  }

  /** With 0, 1 and 2 taken and every number below the limit: two numbers and one for each wire, and one more for the
      listing. */
  lemma PacksIff(t: Table, limit: nat, wires: nat, proc: Proc)
    requires 0 in t && 1 in t && 2 in t && forall fd :: fd in t ==> fd < limit
    ensures Room(t, limit, wires) <==> |t| + 2 + wires <= limit
    ensures CanList(t, limit, wires, proc) <==> proc.mounted && |t| + 2 + wires < limit
    ensures Packs(t, limit, wires, proc) <==>
              |t| + 2 + wires <= limit
              && (proc.mounted && |t| + 2 + wires < limit ==> proc.fdopendir && |t| <= SWEEP)
  {
    assert Numbers(0, limit) == Free(t, limit) + t.Keys && Free(t, limit) !! t.Keys;
    assert Open(t, limit) == Free(t, limit);
  }

  lemma GatheringFacts(t0: Table, t: Table, h: Held, log: Obj, wires: seq<Obj>, last: nat, limit: nat)
    requires Gathering(t0, t, h, log, wires, last, limit)
    ensures Gathered(t0, t, h, log, wires) && h.Ordered() && 3 <= limit
    ensures |h.scratch| == |wires| && forall k :: 0 <= k < |h.scratch| ==> h.scratch[k] < limit
  {
  }
}
