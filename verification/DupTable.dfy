/** nwcheck.c: hash_name. */
module Fnv {
  import opened Bytes
  import opened Crc

  /** FNV-1a: one octet in, then the 32-bit prime, 2^24 + 2^8 + 0x93. */
  function FnvStep(h: bv32, b: byte): bv32 {
    (h ^ Wide(b)) * 0x0100_0193
  }

  function HashOf(s: Bytes): bv32 {
    Feed(FnvStep, 0x811c_9dc5, s)
  }

  /** h ^= (unsigned char)c; h *= 16777619u */
  function Turn(h: bv32, c: byte): bv32 {
    (h ^ Wide(c)) * 16777619
  }

  lemma TurnIsStep(h: bv32, c: byte)
    ensures Turn(h, c) == FnvStep(h, c)
  {
  }

  /** The bytes before the first NUL, at most the field's width. */
  method HashName(f: Bytes) returns (h: bv32)
    ensures h == HashOf(CStr(f))
  {
    hide FnvStep, Turn;
    h := 2166136261;
    var i := 0;
    while i < |f| && f[i] != 0
      invariant 0 <= i <= |f|
      invariant HashOf(CStr(f)) == Feed(FnvStep, h, CStr(f[i..]))
    {
      assert f[i..][0] == f[i] && f[i..][1..] == f[i + 1..];
      assert CStr(f[i..]) == [f[i]] + CStr(f[i + 1..]);
      TurnIsStep(h, f[i]);
      h := Turn(h, f[i]);
      i := i + 1;
    }
  }
}

/** nwcheck.c: the open-addressed table that finds a name declared twice. */
module DupTable {
  import opened Bytes
  import opened Prelude
  import Fnv
  import Blob

  const SLOTS: nat := 128

  predicate SameText(a: Bytes, b: Bytes) {
    CStr(a) == CStr(b)
  }

  /** Where the probe for a field starts: its hash masked to a power of two. */
  function Home(f: Bytes): nat {
    (Fnv.HashOf(CStr(f)) as int) % SLOTS
  }

  /** All that the table needs of a hash: a slot, and the same one for the same text. */
  ghost predicate Hashes(home: Bytes -> nat) {
    && (forall f :: home(f) < SLOTS)
    && (forall f, g :: SameText(f, g) ==> home(f) == home(g))
  }

  lemma HomeHashes()
    ensures Hashes(Home)
  {
  }

  function Probe(home: nat, p: nat): (k: nat)
    ensures k < SLOTS
  {
    (home + p) % SLOTS
  }

  /** The comparison loop: equal up to and including a NUL, or over the whole width. */
  method Same(a: Bytes, b: Bytes) returns (same: bool)
    requires |a| == |b|
    ensures same == SameText(a, b)
  {
    assert a[0..] == a && b[0..] == b;
    for n := 0 to |a|
      invariant SameText(a, b) == SameText(a[n..], b[n..])
    {
      CStrAt(a, n);
      CStrAt(b, n);
      if a[n] != b[n] {
        assert a[n] != 0 ==> CStr(a[n..])[0] == a[n];
        assert b[n] != 0 ==> CStr(b[n..])[0] == b[n];
        return false;
      }
      if a[n] == 0 {
        return true;
      }
      assert CStr(a[n..])[1..] == CStr(a[n + 1..]) && CStr(b[n..])[1..] == CStr(b[n + 1..]);
    }
    return true;
  }

  lemma CStrAt(a: Bytes, n: nat)
    requires n < |a|
    ensures CStr(a[n..]) == if a[n] == 0 then [] else [a[n]] + CStr(a[n + 1..])
  {
    assert a[n..][0] == a[n] && a[n..][1..] == a[n + 1..];
  }

  ghost function Occupied(slot: seq<int>): set<int> {
    set k | 0 <= k < |slot| && slot[k] >= 0
  }

  /** From `home`, the first `p` slots are taken. */
  ghost predicate Taken(slot: seq<int>, home: nat, p: nat)
    requires |slot| == SLOTS
  {
    forall q :: 0 <= q < p ==> slot[Probe(home, q)] >= 0
  }

  /** Unit `j` lies on its own probe chain, at distance `p`, with no hole before it. */
  ghost predicate ChainedAt(slot: seq<int>, home: nat, j: nat, p: nat)
    requires |slot| == SLOTS
  {
    p < SLOTS && slot[Probe(home, p)] == j && Taken(slot, home, p)
  }

  ghost predicate Chained(slot: seq<int>, home: nat, j: nat)
    requires |slot| == SLOTS
  {
    exists p :: ChainedAt(slot, home, j, p)
  }

  /** The table holds exactly the units `members`, each where a probe will meet it, and as
      many slots are taken as there are members. */
  ghost predicate Holds(home: Bytes -> nat, slot: seq<int>, fields: seq<Bytes>, members: set<nat>) {
    && |slot| == SLOTS
    && (forall k :: 0 <= k < SLOTS && slot[k] >= 0 ==> slot[k] in members)
    && (forall j :: j in members ==> j < |fields| && Chained(slot, home(fields[j]), j))
    && |Occupied(slot)| == |members|
  }

  method NewTable() returns (slot: array<int>)
    ensures fresh(slot) && slot[..] == Empty()
  {
    slot := new int[SLOTS];
    for i := 0 to SLOTS
      invariant forall k :: 0 <= k < i ==> slot[k] == -1
    {
      slot[i] := -1;
    }
  }

  ghost function Empty(): seq<int> {
    seq(SLOTS, _ => -1)
  }

  lemma EmptyHolds(home: Bytes -> nat, fields: seq<Bytes>)
    ensures Holds(home, Empty(), fields, {})
  {
    assert Occupied(Empty()) == {};
  }

  lemma ProbeReaches(home: nat, k: nat) returns (p: nat)
    requires k < SLOTS
    ensures p < SLOTS && Probe(home, p) == k
  {
    p := (k - home) % SLOTS;
  }

  /** A table with fewer members than slots has a hole on every probe sequence. */
  lemma HasHole(slot: seq<int>, members: set<nat>, home: nat)
    requires |slot| == SLOTS && |Occupied(slot)| == |members| < SLOTS
    ensures !Taken(slot, home, SLOTS)
  {
    assert Occupied(slot) <= Numbers(0, SLOTS) && Occupied(slot) != Numbers(0, SLOTS);
    var k: nat :| k in Numbers(0, SLOTS) && k !in Occupied(slot);
    var p := ProbeReaches(home, k);
  }

  /** An empty slot met before any equal text means that no member has the text. */
  lemma HoleMeansNew(home: Bytes -> nat, slot: seq<int>, fields: seq<Bytes>, members: set<nat>, me: Bytes, p: nat)
    requires Hashes(home) && Holds(home, slot, fields, members) && p < SLOTS
    requires slot[Probe(home(me), p)] < 0 && Taken(slot, home(me), p)
    requires forall q :: 0 <= q < p && 0 <= slot[Probe(home(me), q)] < |fields| ==>
               !SameText(fields[slot[Probe(home(me), q)]], me)
    ensures forall j :: j in members ==> !SameText(fields[j], me)
  {
    forall j | j in members ensures !SameText(fields[j], me) {
      var h := home(fields[j]);
      assert Chained(slot, h, j);
      var r: nat :| ChainedAt(slot, h, j, r);
      assert h == home(me) ==> r < p;
    }
  }

  /** Taking the first hole of a unit's own chain keeps every other chain. */
  lemma Inserted(home: Bytes -> nat, slot: seq<int>, fields: seq<Bytes>, members: set<nat>, i: nat, p: nat)
    requires Holds(home, slot, fields, members) && i < |fields| && i !in members && p < SLOTS
    requires slot[Probe(home(fields[i]), p)] < 0 && Taken(slot, home(fields[i]), p)
    ensures Holds(home, slot[Probe(home(fields[i]), p) := i], fields, members + {i})
  {
    var k := Probe(home(fields[i]), p);
    var slot' := slot[k := i];
    assert ChainedAt(slot', home(fields[i]), i, p);
    hide ChainedAt, Chained, Occupied, Taken, Probe;
    forall j | j in members ensures Chained(slot', home(fields[j]), j) {
      ChainKept(slot, k, i, home(fields[j]), j);
    }
    ChainFrom(slot', home(fields[i]), i, p);
    OneMoreTaken(slot, k, i);
  }

  lemma ChainFrom(slot: seq<int>, h: nat, j: nat, p: nat)
    requires |slot| == SLOTS && ChainedAt(slot, h, j, p)
    ensures Chained(slot, h, j)
  {
  }

  lemma ChainKept(slot: seq<int>, k: nat, i: nat, h: nat, j: nat)
    requires |slot| == SLOTS && k < SLOTS && slot[k] < 0 && Chained(slot, h, j)
    ensures Chained(slot[k := i], h, j)
  {
    hide Probe;
    var r: nat :| ChainedAt(slot, h, j, r);
    assert ChainedAt(slot[k := i], h, j, r);
  }

  lemma OneMoreTaken(slot: seq<int>, k: nat, i: nat)
    requires |slot| == SLOTS && k < SLOTS && slot[k] < 0
    ensures |Occupied(slot[k := i])| == |Occupied(slot)| + 1
  {
    assert Occupied(slot[k := i]) == Occupied(slot) + {k};
  }

  /** field_dup: is the text of field `i` already there? If not, it is now. */
  method FieldDup(slot: array<int>, fields: seq<Bytes>, i: nat, ghost members: set<nat>) returns (dup: bool)
    requires slot.Length == SLOTS && i < |fields| && i !in members
    requires forall j :: 0 <= j < |fields| ==> |fields[j]| == Blob.NAME_LEN
    requires Holds(Home, slot[..], fields, members) && |members| < SLOTS
    modifies slot
    ensures dup <==> exists j :: j in members && SameText(fields[j], fields[i])
    ensures Holds(Home, slot[..], fields, if dup then members else members + {i})
  {
    var hv := Fnv.HashName(fields[i]);
    var s := (hv as int) % SLOTS;
    HomeHashes();
    dup := ProbeFrom(slot, fields, i, s, Home, members);
  }

  /** The probe loop, for any hash. */
  method ProbeFrom(slot: array<int>, fields: seq<Bytes>, i: nat, s: nat,
                   ghost home: Bytes -> nat, ghost members: set<nat>)
    returns (dup: bool)
    requires slot.Length == SLOTS && i < |fields| && i !in members
    requires forall j :: 0 <= j < |fields| ==> |fields[j]| == Blob.NAME_LEN
    requires Hashes(home) && s == home(fields[i])
    requires Holds(home, slot[..], fields, members) && |members| < SLOTS
    modifies slot
    ensures dup <==> exists j :: j in members && SameText(fields[j], fields[i])
    ensures Holds(home, slot[..], fields, if dup then members else members + {i})
  {
    var me := fields[i];
    for p := 0 to SLOTS
      invariant slot[..] == old(slot[..])
      invariant Taken(slot[..], s, p)
      invariant forall q :: 0 <= q < p && 0 <= slot[..][Probe(s, q)] < |fields| ==>
                  !SameText(fields[slot[..][Probe(s, q)]], me)
    {
      var k := Probe(s, p);
      assert slot[..][k] == slot[k];
      if slot[k] < 0 {
        HoleMeansNew(home, slot[..], fields, members, me, p);
        Inserted(home, slot[..], fields, members, i, p);
        slot[k] := i;
        assert slot[..] == old(slot[..])[k := i];
        return false;
      }
      assert slot[k] in members;
      var same := Same(fields[slot[k]], me);
      if same {
        return true;
      }
    }
    HasHole(slot[..], members, s);
    return false;
  }

  /** Units in order, each looked up and then entered, until one repeats. */
  method AnyRepeat(fields: seq<Bytes>, home: Bytes -> nat) returns (dup: bool)
    requires |fields| <= SLOTS && Hashes(home)
    requires forall j :: 0 <= j < |fields| ==> |fields[j]| == Blob.NAME_LEN
    ensures dup <==> exists i, j :: 0 <= j < i < |fields| && SameText(fields[j], fields[i])
  {
    hide Numbers, Holds, Empty, Hashes, SameText;
    var slot := NewTable();
    EmptyHolds(home, fields);
    assert Numbers(0, 0) == {};
    for i := 0 to |fields|
      invariant Holds(home, slot[..], fields, Numbers(0, i))
      invariant forall k, j :: 0 <= j < k < i ==> !SameText(fields[j], fields[k])
    {
      dup := ProbeFrom(slot, fields, i, home(fields[i]), home, Numbers(0, i));
      if dup {
        ghost var j :| j in Numbers(0, i) && SameText(fields[j], fields[i]);
        return;
      }
      OneMoreNumber(i);
    }
    return false;
  }
}
