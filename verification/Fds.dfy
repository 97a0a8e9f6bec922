/** The kernel's descriptor table of one process. */
module Fds {
  import opened Prelude

  /** What a descriptor refers to. */
  datatype Obj =
    | DevNull
    | Log(unit: nat)                  // write end of a house's log pipe
    | LogRead(unit: nat)
    | Wire(edge: nat, side: nat)      // one end of an edge's socketpair
    | PidPipe(side: nat)
    | Report(side: nat)
    | SignalFd
    | FdDir                           // an open /proc/self/fd
    | Other(id: nat)                  // anything inherited

  datatype Desc = Desc(obj: Obj, cloexec: bool)

  type Table = map<nat, Desc>

  ghost predicate LowestFree(t: Table, from: nat, n: nat) {
    from <= n && n !in t && forall k :: from <= k < n ==> k in t
  }

  /** No descriptor number below `limit` is free from `from` up. */
  ghost predicate Full(t: Table, from: nat, limit: nat) {
    forall k :: from <= k < limit ==> k in t
  }

  /** The lowest free number is at most the number of open descriptors. */
  lemma LowestFreeIsSmall(t: Table, n: nat)
    requires LowestFree(t, 0, n)
    ensures n <= |t|
  {
    SubsetSize(Numbers(0, n), t.Keys);
  }

  /** The numbers below `limit` that are free. */
  ghost function Open(t: Table, limit: nat): set<nat> {
    set fd: nat | fd < limit && fd !in t
  }

  lemma OpenIsRoom(t: Table, limit: nat)
    ensures Full(t, 0, limit) <==> |Open(t, limit)| == 0
  {
    if Full(t, 0, limit) {
      assert Open(t, limit) == {};
    } else {
      var k :| 0 <= k < limit && k !in t;
      assert k in Open(t, limit);
    }
  }

  /** Any number taken below the limit leaves one fewer. */
  lemma TakeAny(t: Table, limit: nat, fd: nat, d: Desc)
    requires fd !in t && fd < limit
    ensures |Open(t[fd := d], limit)| == |Open(t, limit)| - 1
  {
    assert Open(t, limit) == Open(t[fd := d], limit) + {fd};
  }

  lemma TakeLowest(t: Table, limit: nat, fd: nat, d: Desc)
    requires LowestFree(t, 0, fd) && fd < limit
    ensures |Open(t[fd := d], limit)| == |Open(t, limit)| - 1 && fd <= |t|
  {
    LowestFreeIsSmall(t, fd);
    TakeAny(t, limit, fd, d);
  }

  /** What an exec leaves of a table. */
  function Inherited(t: Table): Table {
    map fd | fd in t && !t[fd].cloexec :: t[fd]
  }

  function Max(a: nat, b: nat): nat { if a < b then b else a }

  class Process {
    var table: Table
    const limit: nat
    /** The most descriptors ever open at once. */
    ghost var peak: nat

    constructor (t: Table, limit: nat)
      ensures table == t && this.limit == limit && peak == |t|
    {
      table := t;
      this.limit := limit;
      peak := |t|;
    }

    /** Install a descriptor on the lowest free number from `from`; -1 is EMFILE. */
    method Alloc(from: nat, obj: Obj, cloexec: bool) returns (fd: int)
      modifies this
      ensures fd >= 0 ==>
                fd < limit && LowestFree(old(table), from, fd) && table == old(table)[fd := Desc(obj, cloexec)]
      ensures fd < 0 ==> fd == -1 && Full(old(table), from, limit) && table == old(table)
      ensures fd >= 0 ==> |table| == |old(table)| + 1
      ensures peak == Max(old(peak), |table|)
    {
      var n := from;
      while n < limit && n in table
        invariant from <= n && (n <= limit || n == from)
        invariant forall k :: from <= k < n ==> k in table
      {
        n := n + 1;
      }
      if n >= limit {
        peak := Max(peak, |table|);
        return -1;
      }
      table := table[n := Desc(obj, cloexec)];
      assert table.Keys == old(table).Keys + {n};
      peak := Max(peak, |table|);
      return n;
    }

    /** fcntl(fd, F_DUPFD_CLOEXEC, from) */
    method DupFd(fd: nat, from: nat) returns (r: int)
      modifies this
      ensures r >= 0 <==> fd in old(table) && !Full(old(table), from, limit)
      ensures r >= 0 ==> r < limit && LowestFree(old(table), from, r)
      ensures r >= 0 ==> table == old(table)[r := Desc(old(table)[fd].obj, true)] && |table| == |old(table)| + 1
      ensures r < 0 ==> table == old(table)
      ensures peak == Max(old(peak), |table|)
    {
      if fd !in table {
        peak := Max(peak, |table|);
        return -1;
      }
      r := Alloc(from, table[fd].obj, true);
    }

    /** dup2: onto itself it changes nothing, close-on-exec flag included. */
    method Dup2(fd: nat, target: nat) returns (ok: bool)
      modifies this`table
      ensures ok <==> fd in old(table) && target < limit
      ensures ok && fd == target ==> table == old(table)
      ensures ok && fd != target ==> table == old(table)[target := Desc(old(table)[fd].obj, false)]
      ensures !ok ==> table == old(table)
    {
      if fd !in table || target >= limit { return false; }
      if fd != target {
        table := table[target := Desc(table[fd].obj, false)];
      }
      return true;
    }

    /** A look at the table that opens nothing. */
    ghost method Touch()
      modifies this`peak
      ensures peak == Max(old(peak), |table|)
    {
      peak := Max(peak, |table|);
    }

    method Close(fd: nat)
      modifies this`table
      ensures table == old(table) - {fd}
    {
      table := table - {fd};
    }

    /** clear_cloexec */
    method ClearCloexec(fd: nat) returns (ok: bool)
      modifies this`table
      ensures ok <==> fd in old(table)
      ensures table == if ok then old(table)[fd := Desc(old(table)[fd].obj, false)] else old(table)
    {
      if fd !in table { return false; }
      table := table[fd := Desc(table[fd].obj, false)];
      return true;
    }

    /** socketpair and pipe2: two descriptors on the two lowest free numbers, or none. */
    method Pair(x: Obj, y: Obj, cloexec: bool) returns (ok: bool, r: nat, w: nat)
      modifies this
      ensures ok <==> |Open(old(table), limit)| >= 2
      ensures ok ==> r != w && r !in old(table) && w !in old(table) && r < limit && w < limit
      ensures ok ==> table == old(table)[r := Desc(x, cloexec)][w := Desc(y, cloexec)]
      ensures ok ==> |table| == |old(table)| + 2 && |Open(table, limit)| == |Open(old(table), limit)| - 2
      ensures ok ==> r <= |old(table)| && w <= |old(table)| + 1
      ensures !ok ==> table == old(table)
      ensures Max(old(peak), |table|) <= peak <= Max(old(peak), |old(table)| + 2)
    {
      r, w := 0, 0;
      OpenIsRoom(table, limit);
      var a := Alloc(0, x, cloexec);
      if a < 0 { return false, r, w; }
      TakeLowest(old(table), limit, a, Desc(x, cloexec));
      ghost var t := table;
      OpenIsRoom(t, limit);
      var b := Alloc(0, y, cloexec);
      if b < 0 {
        Close(a);
        assert table == old(table);
        return false, r, w;
      }
      TakeLowest(t, limit, b, Desc(y, cloexec));
      return true, a, b;
    }

    /** execve: close-on-exec descriptors go. */
    method Exec()
      modifies this`table
      ensures table == Inherited(old(table))
    {
      table := Inherited(table);
    }

    /** fork: the child has its own copy of the table. */
    method Fork() returns (child: Process)
      ensures fresh(child) && child.table == table && child.limit == limit && child.peak == |table|
    {
      child := new Process(table, limit);
    }
  }
}
