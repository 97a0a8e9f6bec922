/** bakery/fold.py: reading an upper directory into a plan, and replaying the plan. */
module Fold {
  import opened HostFs
  import opened Prelude
  import opened Overlay

  /** An entry the plan copies: its source node and its path. */
  datatype Copied = Copied(src: UNode, rel: Path)

  ghost predicate NamesOk(u: UNode) {
    forall p :: UFind(u, p).Some? ==> PlainPath(p)
  }

  ghost predicate BaseNamesOk(n: Node) {
    forall p :: Find(n, p).Some? ==> PlainPath(p)
  }

  /** The plan refuses this node when the marker check is on. */
  predicate Refused(u: UNode) {
    match u
    case UDir(mark, foreign, _) => foreign || mark.Unreadable?
    case UFile(foreign, _) => foreign
    case USpecial(foreign) => foreign
    case _ => false
  }

  ghost predicate Clean(u: UNode) {
    forall p :: UFind(u, p).Some? ==> !Refused(UFind(u, p).value)
  }

  /** The layer as the fold reads it: a marker it does not implement and an opaque mark it
      cannot read both count for nothing. */
  function Unmarked(u: UNode): UNode {
    match u
    case UDir(mark, _, up) =>
      UDir(if mark.Unreadable? then Absent else mark, false, map x | x in up :: Unmarked(up[x]))
    case UFile(_, i) => UFile(false, i)
    case USpecial(_) => USpecial(false)
    case _ => u
  }

  /** What a reader that may not read trusted attributes sees of the layer: the kernel reports them
      absent, so no directory reads as opaque. What else a directory carries is looked at only with
      the marker check on, which such a reader is refused. */
  function Hidden(u: UNode): UNode {
    match u
    case UDir(_, foreign, up) => UDir(Absent, foreign, map x | x in up :: Hidden(up[x]))
    case _ => u
  }

  function Seen(u: UNode, can: bool): UNode {
    if can then u else Hidden(u)
  }

  lemma {:induction false} HiddenFind(u: UNode, p: Path)
    ensures UFind(Hidden(u), p) == if UFind(u, p).Some? then Some(Hidden(UFind(u, p).value)) else None
    decreases |p|
  {
    if u.UDir? && p != [] && p[0] in u.entries {
      HiddenFind(u.entries[p[0]], p[1..]);
    }
  }

  lemma SeenKeeps(u: UNode, can: bool)
    ensures NamesOk(Seen(u, can)) <==> NamesOk(u)
    ensures Seen(u, can).UDir? <==> u.UDir?
    ensures NoSpecialAbove(Seen(u, can)) <==> NoSpecialAbove(u)
  {
    hide UFind, PlainPath;
    forall p ensures UFind(Seen(u, can), p).Some? <==> UFind(u, p).Some? {
      HiddenFind(u, p);
    }
    forall p | UFind(u, p).Some?
      ensures UFind(Seen(u, can), p).value.USpecial? <==> UFind(u, p).value.USpecial?
    {
      HiddenFind(u, p);
    }
  }

  ghost predicate NoSpecialAbove(upper: UNode) {
    forall p :: UFind(upper, p).Some? ==> !UFind(upper, p).value.USpecial?
  }

  const LOWER_DIR: Node := NDir(map["d" := NDir(map["x" := NLink(Target(true, []))])])
  const OPAQUE_DIR: UNode := UDir(Absent, false, map["d" := UDir(Yes, false, map[])])

  /** Below an opaque directory of `u`, or with `hidden` anywhere, `n` has a name that `u` has not: the
      mark is all that keeps it out of the view. */
  predicate Loses(u: UNode, hidden: bool, n: Node)
    decreases u
  {
    u.UDir? && n.NDir? && exists x :: x in n.children && LosesName(u, hidden, n, x)
  }

  predicate LosesName(u: UNode, hidden: bool, n: Node, x: Name)
    requires u.UDir? && n.NDir? && x in n.children
    decreases u, 0
  {
    if x in u.entries then Loses(u.entries[x], hidden || u.mark.Yes?, n.children[x])
    else hidden || u.mark.Yes?
  }

  /** Without the marks a path either has the same fate or shows what the layer hid. */
  lemma {:induction false} HiddenFate(u: UNode, ud: Data, hidden: bool, p: Path)
    ensures var seen, truth := FateOf(Hidden(u), ud, false, p), FateOf(u, ud, hidden, p);
            seen == truth || (seen == Through && truth == Gone)
    decreases |p|
  {
    if u.UDir? && p != [] && p[0] in u.entries {
      HiddenFate(u.entries[p[0]], ud, hidden || u.mark.Yes?, p[1..]);
    }
  }

  lemma {:induction false} NothingLost(u: UNode, ud: Data, hidden: bool, n: Node, data: Data, p: Path)
    requires !Loses(u, hidden, n)
    ensures FateOf(Hidden(u), ud, false, p) == FateOf(u, ud, hidden, p) || Look(n, data, p) == None
    decreases |p|
  {
    HiddenFate(u, ud, hidden, p);
    if u.UDir? && p != [] && n.NDir? && p[0] in n.children {
      assert !LosesName(u, hidden, n, p[0]);
      if p[0] in u.entries {
        NothingLost(u.entries[p[0]], ud, hidden || u.mark.Yes?, n.children[p[0]], data, p[1..]);
      }
    }
  }

  lemma {:induction false} SomethingLost(u: UNode, ud: Data, hidden: bool, n: Node, data: Data) returns (p: Path)
    requires Loses(u, hidden, n)
    ensures FateOf(Hidden(u), ud, false, p) == Through && FateOf(u, ud, hidden, p) == Gone
    ensures Look(n, data, p).Some?
  {
    var x :| x in n.children && LosesName(u, hidden, n, x);
    if x in u.entries {
      var q := SomethingLost(u.entries[x], ud, hidden || u.mark.Yes?, n.children[x], data);
      p := [x] + q;
      assert p[0] == x && p[1..] == q;
      assert Find(n, p) == Find(n.children[x], q);
    } else {
      p := [x];
      assert p[0] == x && p[1..] == [];
      assert Find(n, p) == Some(n.children[x]);
    }
  }

  /** The marks can be read away without a trace exactly when they hide nothing. */
  lemma HiddenIff(lower: Node, ld: Data, upper: UNode, ud: Data)
    requires upper.UDir?
    ensures Alike(Overlaid(Some(lower), ld, Hidden(upper), ud), Overlaid(Some(lower), ld, upper, ud))
       <==> !Loses(upper, false, lower)
  {
    hide Overlaid, VLook, FateOf, Loses, Look;
    forall p ensures VLook(Overlaid(Some(lower), ld, upper, ud), p)
                  == Settle(FateOf(upper, ud, false, p), Look(lower, ld, p))
             ensures VLook(Overlaid(Some(lower), ld, Hidden(upper), ud), p)
                  == Settle(FateOf(Hidden(upper), ud, false, p), Look(lower, ld, p))
    {
      OverlaidLook(Some(lower), ld, upper, ud, false, p);
      OverlaidLook(Some(lower), ld, Hidden(upper), ud, false, p);
    }
    if Loses(upper, false, lower) {
      var p := SomethingLost(upper, ud, false, lower, ld);
      assert VLook(Overlaid(Some(lower), ld, upper, ud), p) == None;
      assert VLook(Overlaid(Some(lower), ld, Hidden(upper), ud), p) == Look(lower, ld, p);
    } else {
      forall p ensures VLook(Overlaid(Some(lower), ld, Hidden(upper), ud), p)
                    == VLook(Overlaid(Some(lower), ld, upper, ud), p)
      {
        NothingLost(upper, ud, false, lower, ld, p);
        HiddenFate(upper, ud, false, p);
      }
    }
  }

  /** An instance: an opaque directory comes back with what the base had in it. */
  lemma HiddenMarkResurrects(data: Data)
    ensures Loses(OPAQUE_DIR, false, LOWER_DIR)
    ensures VLook(Overlaid(Some(LOWER_DIR), data, OPAQUE_DIR, data), ["d", "x"]) == None
    ensures VLook(Overlaid(Some(LOWER_DIR), data, Hidden(OPAQUE_DIR), data), ["d", "x"])
         == Some(Link(Target(true, [])))
  {
    assert ["d", "x"][1..] == ["x"];
    assert LosesName(OPAQUE_DIR.entries["d"], true, LOWER_DIR.children["d"], "x");
    assert LosesName(OPAQUE_DIR, false, LOWER_DIR, "d");
  }

  lemma {:induction false} UnmarkedFate(u: UNode, ud: Data, hidden: bool, p: Path)
    ensures FateOf(Unmarked(u), ud, hidden, p) == FateOf(u, ud, hidden, p)
    decreases |p|
  {
    if u.UDir? && p != [] && p[0] in u.entries {
      UnmarkedFate(u.entries[p[0]], ud, hidden || u.mark.Yes?, p[1..]);
    }
  }

  lemma {:induction false} UnmarkedClean(u: UNode, p: Path)
    ensures UFind(Unmarked(u), p).Some? ==> !Refused(UFind(Unmarked(u), p).value)
    decreases |p|
  {
    if u.UDir? && p != [] && p[0] in u.entries {
      UnmarkedClean(u.entries[p[0]], p[1..]);
    }
  }

  /** The recursive view does not see a marker the fold does not implement either, which is why
      only a clean layer's view is what a mount shows. */
  lemma UnmarkedOverlaid(lower: Option<Node>, ld: Data, u: UNode, ud: Data)
    requires !u.Whiteout?
    ensures Clean(Unmarked(u))
    ensures !Unmarked(u).Whiteout?
    ensures Alike(Overlaid(lower, ld, Unmarked(u), ud), Overlaid(lower, ld, u, ud))
  {
    hide Overlaid, VLook, Unmarked, FateOf, UFind;
    assert !Unmarked(u).Whiteout? by {
      UnmarkedKind(u);
    }
    forall p ensures VLook(Overlaid(lower, ld, Unmarked(u), ud), p) == VLook(Overlaid(lower, ld, u, ud), p) {
      UnmarkedFate(u, ud, false, p);
      OverlaidLook(lower, ld, u, ud, false, p);
      OverlaidLook(lower, ld, Unmarked(u), ud, false, p);
    }
    forall p | UFind(Unmarked(u), p).Some? ensures !Refused(UFind(Unmarked(u), p).value) {
      UnmarkedClean(u, p);
    }
  }

  lemma UnmarkedKind(u: UNode)
    ensures Unmarked(u).Whiteout? <==> u.Whiteout?
    ensures Unmarked(u).UDir? <==> u.UDir?
  {
  }

  predicate IsWhiteout(n: Option<UNode>) { n.Some? && n.value.Whiteout? }
  predicate IsDirectory(n: Option<UNode>) { n.Some? && n.value.UDir? }
  predicate IsOpaque(n: Option<UNode>) { n.Some? && n.value.UDir? && n.value.mark.Yes? }
  predicate IsLeaf(n: Option<UNode>) {
    n.Some? && (n.value.UFile? || n.value.ULink? || n.value.USpecial?)
  }

  /** `p` lies strictly below `rel`, by way of one of `names`. */
  predicate Via(rel: Path, names: set<Name>, p: Path) {
    rel <= p && |rel| < |p| && p[|rel|] in names
  }

  /** `s` is `s0` and the places of one kind in the subtree `u` at `rel`, as far as `names`. */
  ghost predicate Gathers(s0: set<Path>, s: set<Path>, kind: Option<UNode> -> bool,
                          u: UNode, rel: Path, names: set<Name>) {
    forall p :: p in s <==> p in s0 || (Via(rel, names, p) && kind(UFind(u, p[|rel|..])))
  }

  ghost predicate Lists(dirs: seq<Path>, u: UNode, rel: Path, names: set<Name>) {
    && (forall p :: p in dirs <==> Via(rel, names, p) && IsDirectory(UFind(u, p[|rel|..])))
    && TopDown(dirs)
  }

  /** No entry comes before one of its ancestors, and none comes twice. */
  ghost predicate TopDown(dirs: seq<Path>) {
    forall i, j :: 0 <= i < j < |dirs| ==> !(dirs[j] <= dirs[i])
  }

  ghost predicate Carries(copied: seq<Copied>, u: UNode, rel: Path, names: set<Name>) {
    && (forall c :: c in copied <==> IsCarried(c, u, rel, names))
    && (forall i, j :: 0 <= i < j < |copied| ==> copied[i].rel != copied[j].rel)
  }

  ghost predicate IsCarried(c: Copied, u: UNode, rel: Path, names: set<Name>) {
    Via(rel, names, c.rel) && UFind(u, c.rel[|rel|..]) == Some(c.src) && IsLeaf(Some(c.src))
  }

  /** Below `rel/name` the subtree at `rel` is the child's own subtree. */
  lemma ChildView(u: UNode, rel: Path, done: set<Name>, name: Name, p: Path)
    requires u.UDir? && name in u.entries && name !in done
    ensures
      var child := u.entries[name];
      var here := rel + [name];
      && (Via(rel, done + {name}, p) <==> Via(rel, done, p) || here <= p)
      && (here <= p ==> UFind(u, p[|rel|..]) == UFind(child, p[|here|..]) && !Via(rel, done, p))
      && (here <= p && p != here && child.UDir? && UFind(child, p[|here|..]).Some? ==>
            Via(here, child.entries.Keys, p))
      && (Via(here, if child.UDir? then child.entries.Keys else {}, p) ==> here <= p && p != here)
      && (here <= p && p != here && !child.UDir? ==> UFind(child, p[|here|..]).None?)
      && (p == here ==> p[|here|..] == [])
  {
    var here := rel + [name];
    if here <= p {
      assert here[|rel|] == p[|rel|] == name;
      assert p[|rel|..][0] == name && p[|rel|..][1..] == p[|here|..];
      assert rel == here[..|rel|] == p[..|rel|];
      if p != here {
        assert |here| < |p|;
        assert p[|here|..][0] == p[|here|];
      }
    }
    if Via(rel, {name}, p) {
      assert p[..|here|] == here;
    }
  }

  lemma GatherChild(s0: set<Path>, s1: set<Path>, s2: set<Path>, kind: Option<UNode> -> bool,
                    u: UNode, rel: Path, done: set<Name>, name: Name)
    requires u.UDir? && name in u.entries && name !in done && !kind(None)
    requires Gathers(s0, s1, kind, u, rel, done)
    requires
      var child := u.entries[name];
      var here := rel + [name];
      var own := if kind(Some(child)) then s1 + {here} else s1;
      if child.UDir? then Gathers(own, s2, kind, child, here, child.entries.Keys) else s2 == own
    ensures Gathers(s0, s2, kind, u, rel, done + {name})
  {
    forall p
      ensures p in s2 <==> p in s0 || (Via(rel, done + {name}, p) && kind(UFind(u, p[|rel|..])))
    {
      ChildView(u, rel, done, name, p);
    }
  }

  lemma ListChild(dirs: seq<Path>, sub: seq<Path>, u: UNode, rel: Path, done: set<Name>, name: Name)
    requires u.UDir? && name in u.entries && name !in done
    requires u.entries[name].UDir?
    requires Lists(dirs, u, rel, done)
    requires Lists(sub, u.entries[name], rel + [name], u.entries[name].entries.Keys)
    ensures Lists(dirs + [rel + [name]] + sub, u, rel, done + {name})
  {
    var here := rel + [name];
    var all := dirs + [here] + sub;
    forall p ensures p in all <==> Via(rel, done + {name}, p) && IsDirectory(UFind(u, p[|rel|..])) {
      ChildView(u, rel, done, name, p);
    }
    forall i, j | 0 <= i < j < |all| ensures !(all[j] <= all[i]) {
      var p, q := all[i], all[j];
      ChildView(u, rel, done, name, p);
      ChildView(u, rel, done, name, q);
      if i < |dirs| <= j {
        assert p in dirs && here <= q;
        if q <= p { PrefixTrans(here, q, p); }
      } else if i == |dirs| < j {
        assert q in sub;
      } else if |dirs| < i {
        assert p == sub[i - |dirs| - 1] && q == sub[j - |dirs| - 1];
      }
    }
  }

  lemma PrefixTrans(a: Path, b: Path, c: Path)
    requires a <= b <= c
    ensures a <= c
  {
  }

  lemma CarryChild(copied: seq<Copied>, sub: seq<Copied>, u: UNode, rel: Path, done: set<Name>, name: Name)
    requires u.UDir? && name in u.entries && name !in done
    requires Carries(copied, u, rel, done)
    requires
      var child := u.entries[name];
      var here := rel + [name];
      if child.UDir? then Carries(sub, child, here, child.entries.Keys)
      else sub == if child.Whiteout? then [] else [Copied(child, here)]
    ensures Carries(copied + sub, u, rel, done + {name})
  {
    var child := u.entries[name];
    var here := rel + [name];
    var all := copied + sub;
    forall c ensures c in all <==> IsCarried(c, u, rel, done + {name}) {
      ChildView(u, rel, done, name, c.rel);
      if c in sub && child.UDir? {
        assert IsCarried(c, child, here, child.entries.Keys);
      }
      if IsCarried(c, u, rel, done + {name}) && here <= c.rel && child.UDir? {
        assert IsCarried(c, child, here, child.entries.Keys);
      }
    }
    forall i, j | 0 <= i < j < |all| ensures all[i].rel != all[j].rel {
      ChildView(u, rel, done, name, all[i].rel);
      ChildView(u, rel, done, name, all[j].rel);
      if i < |copied| <= j {
        assert all[i] in copied && all[j] in sub;
        assert IsCarried(all[i], u, rel, done);
      } else if |copied| <= i {
        assert all[i] == sub[i - |copied|] && all[j] == sub[j - |copied|];
      }
    }
  }

  /** The plan's four collections as one value. */
  datatype Marks = Marks(deleted: set<Path>, replaced: set<Path>, dirs: seq<Path>, copied: seq<Copied>)

  /** `after` is `before` and all that the subtree `u` at `rel` holds by way of `names`. */
  ghost predicate Covers(before: Marks, after: Marks, u: UNode, rel: Path, names: set<Name>) {
    && Gathers(before.deleted, after.deleted, IsWhiteout, u, rel, names)
    && Gathers(before.replaced, after.replaced, IsOpaque, u, rel, names)
    && before.dirs <= after.dirs && Lists(after.dirs[|before.dirs|..], u, rel, names)
    && before.copied <= after.copied && Carries(after.copied[|before.copied|..], u, rel, names)
  }

  /** What reading one name adds before any recursion. */
  function Noted(m: Marks, child: UNode, here: Path): Marks {
    if child.Whiteout? then m.(deleted := m.deleted + {here})
    else if child.UDir? then
      m.(replaced := if child.mark.Yes? then m.replaced + {here} else m.replaced, dirs := m.dirs + [here])
    else m.(copied := m.copied + [Copied(child, here)])
  }

  lemma CoverChild(m0: Marks, m1: Marks, m2: Marks, u: UNode, rel: Path, done: set<Name>, name: Name)
    requires u.UDir? && name in u.entries && name !in done
    requires Covers(m0, m1, u, rel, done)
    requires
      var child := u.entries[name];
      var here := rel + [name];
      if child.UDir? then Covers(Noted(m1, child, here), m2, child, here, child.entries.Keys)
      else m2 == Noted(m1, child, here)
    ensures Covers(m0, m2, u, rel, done + {name})
  {
    var child := u.entries[name];
    var here := rel + [name];
    GatherChild(m0.deleted, m1.deleted, m2.deleted, IsWhiteout, u, rel, done, name);
    GatherChild(m0.replaced, m1.replaced, m2.replaced, IsOpaque, u, rel, done, name);
    var dirs, copied := m1.dirs[|m0.dirs|..], m1.copied[|m0.copied|..];
    if child.UDir? {
      var subDirs, sub := m2.dirs[|m1.dirs| + 1..], m2.copied[|m1.copied|..];
      ListChild(dirs, subDirs, u, rel, done, name);
      assert m2.dirs[|m0.dirs|..] == dirs + [here] + subDirs;
      CarryChild(copied, sub, u, rel, done, name);
      assert m2.copied[|m0.copied|..] == copied + sub;
    } else {
      var sub := if child.Whiteout? then [] else [Copied(child, here)];
      ListLeaf(dirs, u, rel, done, name);
      CarryChild(copied, sub, u, rel, done, name);
      assert m2.copied[|m0.copied|..] == copied + sub;
    }
  }

  lemma ListLeaf(dirs: seq<Path>, u: UNode, rel: Path, done: set<Name>, name: Name)
    requires u.UDir? && name in u.entries && name !in done && !u.entries[name].UDir?
    requires Lists(dirs, u, rel, done)
    ensures Lists(dirs, u, rel, done + {name})
  {
    forall p ensures p in dirs <==> Via(rel, done + {name}, p) && IsDirectory(UFind(u, p[|rel|..])) {
      ChildView(u, rel, done, name, p);
    }
  }

  /** No marker below `u`, by way of `names`, makes the plan refuse. */
  ghost predicate Accepts(check: bool, u: UNode, names: set<Name>) {
    check ==> forall p :: p != [] && p[0] in names && UFind(u, p).Some? ==> !Refused(UFind(u, p).value)
  }

  lemma AcceptChild(check: bool, u: UNode, done: set<Name>, name: Name)
    requires u.UDir? && name in u.entries
    ensures
      var child := u.entries[name];
      Accepts(check, u, done + {name}) <==>
        && Accepts(check, u, done)
        && (check ==> !Refused(child))
        && (child.UDir? ==> Accepts(check, child, child.entries.Keys))
  {
    var child := u.entries[name];
    assert UFind(u, [name]) == Some(child);
    forall q ensures ([name] + q)[1..] == q && UFind(u, [name] + q) == UFind(child, q) {
      assert ([name] + q)[1..] == q;
    }
    forall p | p != [] && p[0] == name ensures p == [name] + p[1..] {
    }
  }

  class MergePlan {
    var deleted: set<Path>
    var replaced: set<Path>
    var dirs: seq<Path>
    var copied: seq<Copied>

    function Value(): Marks
      reads this
    {
      Marks(deleted, replaced, dirs, copied)
    }

    constructor ()
      ensures Value() == Marks({}, {}, [], [])
    {
      deleted, replaced, dirs, copied := {}, {}, [], [];
    }

    /** One directory of the upper tree, its names in whatever order the listing has. */
    method Walk(u: UNode, rel: Path, check: bool) returns (ok: bool)
      requires u.UDir?
      modifies this
      ensures ok <==> Accepts(check, u, u.entries.Keys)
      ensures ok ==> Covers(old(Value()), Value(), u, rel, u.entries.Keys)
      decreases u, 0
    {
      var todo := u.entries.Keys;
      ghost var done := {};
      while todo != {}
        invariant todo + done == u.entries.Keys && todo !! done
        invariant Accepts(check, u, done)
        invariant Covers(old(Value()), Value(), u, rel, done)
      {
        var name :| name in todo;
        todo := todo - {name};
        ghost var before := Value();
        AcceptChild(check, u, done, name);
        AcceptMore(check, u, done + {name});
        ok := Enter(u.entries[name], rel + [name], check);
        if !ok {
          return;
        }
        CoverChild(old(Value()), before, Value(), u, rel, done, name);
        done := done + {name};
      }
      assert done == u.entries.Keys;
      ok := true;
    }

    /** One name of a listing. */
    method Enter(child: UNode, here: Path, check: bool) returns (ok: bool)
      modifies this
      ensures ok <==> (check ==> !Refused(child)) && (child.UDir? ==> Accepts(check, child, child.entries.Keys))
      ensures ok ==> if child.UDir?
                     then Covers(Noted(old(Value()), child, here), Value(), child, here, child.entries.Keys)
                     else Value() == Noted(old(Value()), child, here)
      decreases child, 1
    {
      if child.Whiteout? {
        deleted := deleted + {here};
        return true;
      }
      if check && ((child.UDir? && child.foreign) || (child.UFile? && child.foreignFile)
                   || (child.USpecial? && child.foreignSpecial)) {
        return false;
      }
      if child.UDir? {
        if check && child.mark.Unreadable? {
          return false;
        }
        if child.mark.Yes? {
          replaced := replaced + {here};
        }
        dirs := dirs + [here];
        ok := Walk(child, here, check);
      } else {
        copied := copied + [Copied(child, here)];
        ok := true;
      }
    }
  }

  lemma AcceptMore(check: bool, u: UNode, names: set<Name>)
    requires u.UDir? && names <= u.entries.Keys
    ensures Accepts(check, u, u.entries.Keys) ==> Accepts(check, u, names)
  {
  }

  /** The plan of a whole upper tree: exactly its whiteouts, its opaque directories, its
      directories (none before an ancestor) and its other entries (each once). */
  ghost predicate PlanOf(m: Marks, upper: UNode) {
    && (forall p :: p in m.deleted <==> IsWhiteout(UFind(upper, p)))
    && (forall p :: p in m.replaced <==> IsOpaque(UFind(upper, p)))
    && (forall p :: p in m.dirs <==> p != [] && IsDirectory(UFind(upper, p)))
    && TopDown(m.dirs)
    && (forall c :: c in m.copied <==> UFind(upper, c.rel) == Some(c.src) && IsLeaf(Some(c.src)))
    && (forall i, j :: 0 <= i < j < |m.copied| ==> m.copied[i].rel != m.copied[j].rel)
  }

  /** plan_merge: refuses a tree with a marker it cannot honour, and otherwise describes it. */
  method PlanMerge(upper: UNode, check: bool) returns (ok: bool, plan: MergePlan)
    requires upper.UDir?
    ensures fresh(plan)
    ensures ok <==> (check ==> Clean(upper))
    ensures check ==> (ok <==> forall p, u :: Finds(upper, p, u) ==>
                         && (u.UDir? ==> !u.foreign && u.mark != Unreadable)
                         && (u.UFile? ==> !u.foreignFile)
                         && (u.USpecial? ==> !u.foreignSpecial))
    ensures !check ==> ok
    ensures ok ==> PlanOf(plan.Value(), upper)
  {
    plan := new MergePlan();
    CleanSplit(upper);
    if check && (upper.foreign || upper.mark.Unreadable?) {
      assert Finds(upper, [], upper);
      return false, plan;
    }
    if upper.mark.Yes? {
      plan.replaced := plan.replaced + {[]};
    }
    ghost var start := plan.Value();
    ok := plan.Walk(upper, [], check);
    if ok {
      CoversRoot(start, plan.Value(), upper);
    }
  }

  lemma CleanSplit(upper: UNode)
    requires upper.UDir?
    ensures Clean(upper) <==> !Refused(upper) && Accepts(true, upper, upper.entries.Keys)
    ensures Clean(upper) <==> forall p, u :: Finds(upper, p, u) ==>
                                && (u.UDir? ==> !u.foreign && u.mark != Unreadable)
                                && (u.UFile? ==> !u.foreignFile)
                                && (u.USpecial? ==> !u.foreignSpecial)
  {
    assert UFind(upper, []) == Some(upper);
    forall p | UFind(upper, p).Some? ensures Finds(upper, p, UFind(upper, p).value) {
    }
  }

  lemma CoversRoot(start: Marks, m: Marks, upper: UNode)
    requires upper.UDir?
    requires start == Marks({}, if upper.mark.Yes? then {[]} else {}, [], [])
    requires Covers(start, m, upper, [], upper.entries.Keys)
    ensures PlanOf(m, upper)
  {
    var root: Path := [];
    forall p: Path ensures p[|root|..] == p && (UFind(upper, p).Some? && p != [] ==> Via(root, upper.entries.Keys, p)) {
    }
    assert m.dirs[0..] == m.dirs && m.copied[0..] == m.copied;
    forall c ensures c in m.copied <==> UFind(upper, c.rel) == Some(c.src) && IsLeaf(Some(c.src)) {
      assert c in m.copied <==> IsCarried(c, upper, root, upper.entries.Keys);
      assert c.rel[|root|..] == c.rel;
    }
  }

  /** Every proper ancestor of a planned path, below the root, is a planned directory. */
  lemma {:induction false} AncestorsPlanned(m: Marks, upper: UNode, p: Path, k: nat)
    requires upper.UDir? && PlanOf(m, upper)
    requires UFind(upper, p).Some? && 0 < k < |p|
    ensures p[..k] in m.dirs
  {
    FindAncestor(upper, p, k);
  }

  lemma {:induction false} FindAncestor(u: UNode, p: Path, k: nat)
    requires UFind(u, p).Some? && k < |p|
    ensures IsDirectory(UFind(u, p[..k]))
    decreases |p|
  {
    if k > 0 {
      FindAncestor(u.entries[p[0]], p[1..], k - 1);
      assert p[..k][1..] == p[1..][..k - 1];
    }
  }
}
