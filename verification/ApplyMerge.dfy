/** bakery/fold.py: replaying a plan on a copy of the base. */
module ApplyMerge {
  import opened HostFs
  import opened Prelude
  import opened Overlay
  import opened Fold

  function Got(m: map<Path, Entry>, p: Path): Option<Entry> {
    if p in m then Some(m[p]) else None
  }

  /** No entry outside `merged` differs. */
  ghost predicate SameHost(a: Disk, b: Disk) {
    a.home == b.home && a.outside == b.outside
  }

  /** Some prefix of `p`, perhaps `p` itself, is in `s`. */
  predicate Under(s: set<Path>, p: Path) {
    exists k :: 0 <= k <= |p| && p[..k] in s
  }

  /** Some proper prefix of `p` is in `s`. */
  predicate Below(s: set<Path>, p: Path) {
    exists k :: 0 <= k < |p| && p[..k] in s
  }

  /** _remove: whatever `rel` is, it and all below it are gone, and nothing else is. */
  method Remove(h: Host, rel: Path)
    requires Tidy(h.disk.inside) && PlainPath(rel) && rel != [] && Unlinked(h.disk.inside, rel)
    requires rel in h.disk.inside ==> !h.disk.inside[rel].Special?
    modifies h
    ensures SameHost(old(h.disk), h.disk)
    ensures h.disk.inside == Without(old(h.disk.inside), rel) && Tidy(h.disk.inside)
    ensures NoSpecials(old(h.disk.inside)) ==> NoSpecials(h.disk.inside)
  {
    WithoutNoSpecials(h.disk.inside, rel);
    WalkIsLiteral(h.disk, rel, false);
    WithoutTidy(h.disk.inside, rel);
    if rel in h.disk.inside {
      TidyReachable(h.disk.inside, rel);
    }
    if !h.IsLink(rel) {
      WalkIsLiteral(h.disk, rel, true);
    }
    if h.IsLink(rel) || h.IsFile(rel) {
      h.Unlink(rel);
    } else if h.IsDir(rel) {
      h.RmTree(rel);
    }
  }

  lemma WithoutNoSpecials(m: map<Path, Entry>, rel: Path)
    ensures NoSpecials(m) ==> NoSpecials(Without(m, rel))
  {
    if NoSpecials(m) {
      forall p ensures Got(Without(m, rel), p) != Some(Special) {
        assert Got(m, p) != Some(Special);
      }
    }
  }

  predicate Prefix(p: Path, q: Path) { p <= q }

  lemma HeadPrefixes(rel: Path)
    requires rel != []
    ensures forall p :: Prefix(p, rel) <==> Prefix(p, Parent(rel)) || p == rel
    ensures forall k :: 0 <= k < |rel| ==> Parent(rel)[..k] == rel[..k]
  {
    forall p | Prefix(p, rel) && p != rel ensures Prefix(p, Parent(rel)) {
      assert p == rel[..|p|];
      assert |p| == |rel| ==> p == rel;
    }
  }

  /** Each prefix of `rel` is a directory or absent. */
  ghost predicate Clear(m: map<Path, Entry>, rel: Path) {
    forall k :: 0 <= k <= |rel| && rel[..k] in m ==> m[rel[..k]] == Dir
  }

  /** mkdir where the parent exists; a directory already there, or reached by a link there, is accepted. */
  method MakeLast(h: Host, rel: Path) returns (ok: bool)
    requires Tidy(h.disk.inside) && PlainPath(rel) && Reachable(h.disk.inside, rel)
    modifies h
    ensures SameHost(old(h.disk), h.disk) && Tidy(h.disk.inside)
    ensures !LinkAt(old(h.disk.inside), rel) ==>
              && (ok <==> (rel in old(h.disk.inside) ==> old(h.disk.inside)[rel] == Dir))
              && h.disk.inside == (if ok then old(h.disk.inside)[rel := Dir] else old(h.disk.inside))
    ensures LinkAt(old(h.disk.inside), rel) ==>
              h.disk == old(h.disk) && (ok <==> old(h.disk).Stat(rel, true) == Some(Dir))
  {
    if !LinkAt(h.disk.inside, rel) {
      WalkIsLiteral(h.disk, rel, true);
    }
    WalkIsLiteral(h.disk, rel, false);
    ok := h.Mkdir(rel);
    if !ok {
      ok := h.IsDir(rel);
    }
    if rel != [] {
      assert Parent(rel) == rel[..|rel| - 1];
    }
  }

  /** os.makedirs(path, exist_ok=True). */
  method MakeDirs(h: Host, rel: Path) returns (ok: bool)
    requires Tidy(h.disk.inside) && PlainPath(rel) && Clear(h.disk.inside, rel)
    modifies h
    ensures ok && SameHost(old(h.disk), h.disk) && Tidy(h.disk.inside)
    ensures forall p :: Got(h.disk.inside, p) == if Prefix(p, rel) then Some(Dir) else Got(old(h.disk.inside), p)
    decreases |rel|
  {
    ghost var before := h.disk.inside;
    assert rel[..|rel|] == rel;
    var head := Parent(rel);
    if rel != [] {
      HeadPrefixes(rel);
      assert head == rel[..|rel| - 1];
      assert Clear(h.disk.inside, head);
      WalkIsLiteral(h.disk, head, true);
      if h.disk.Stat(head, true).None? {
        var made := MakeDirs(h, head);
      } else {
        StandingPrefixes(h.disk.inside, head);
      }
      AllPrefixes(h.disk.inside, head, rel);
    }
    assert rel != [] ==> !Prefix(rel, head) && Got(h.disk.inside, rel) == Got(before, rel);
    ok := MakeLast(h, rel);
  }

  lemma StandingPrefixes(m: map<Path, Entry>, head: Path)
    requires Tidy(m) && head in m && m[head] == Dir
    ensures forall p :: Got(m, p) == if Prefix(p, head) then Some(Dir) else Got(m, p)
  {
    TidyReachable(m, head);
    forall p | Prefix(p, head) ensures Got(m, p) == Some(Dir) {
      assert p == head[..|p|];
      assert |p| == |head| ==> p == head;
    }
  }

  lemma AllPrefixes(m: map<Path, Entry>, head: Path, rel: Path)
    requires rel != [] && head == Parent(rel)
    requires forall p :: Prefix(p, head) ==> Got(m, p) == Some(Dir)
    ensures Reachable(m, rel)
  {
    HeadPrefixes(rel);
    forall k | 0 <= k < |rel| ensures rel[..k] in m && m[rel[..k]] == Dir {
      assert Prefix(rel[..k], rel);
      assert Got(m, rel[..k]) == Some(Dir);
    }
  }

  /** Each directory of `dirs` that is not at the root has its parent there too. */
  ghost predicate ParentsListed(dirs: seq<Path>) {
    forall p :: p in dirs ==> PlainPath(p) && p != [] && (Parent(p) == [] || Parent(p) in dirs)
  }

  /** `m` is `start` with a directory at each of `dirs`. */
  ghost predicate Reconciled(start: map<Path, Entry>, dirs: seq<Path>, m: map<Path, Entry>) {
    forall p :: Got(m, p) == if p in dirs then Some(Dir) else Got(start, p)
  }

  lemma ReconciledMore(start: map<Path, Entry>, dirs: seq<Path>, m: map<Path, Entry>, rel: Path, m': map<Path, Entry>)
    requires Reconciled(start, dirs, m)
    requires forall p :: Got(m', p) == if p == rel then Some(Dir) else Got(m, p)
    ensures Reconciled(start, dirs + [rel], m')
  {
    forall p ensures Got(m', p) == if p in dirs + [rel] then Some(Dir) else Got(start, p) {
      assert Got(m, p) == if p in dirs then Some(Dir) else Got(start, p);
    }
  }

  /** _reconcile_dirs: every listed path becomes a real directory and nothing else changes. */
  method ReconcileDirs(h: Host, dirs: seq<Path>) returns (ok: bool)
    requires Tidy(h.disk.inside) && TopDown(dirs) && ParentsListed(dirs)
    requires NoSpecials(h.disk.inside)
    modifies h
    ensures ok && SameHost(old(h.disk), h.disk) && Tidy(h.disk.inside) && NoSpecials(h.disk.inside)
    ensures forall p :: Got(h.disk.inside, p) == if p in dirs then Some(Dir) else Got(old(h.disk.inside), p)
  {
    hide Tidy, NoSpecials, TopDown;
    ok := true;
    for i := 0 to |dirs|
      invariant ok && SameHost(old(h.disk), h.disk) && Tidy(h.disk.inside) && NoSpecials(h.disk.inside)
      invariant Reconciled(old(h.disk.inside), dirs[..i], h.disk.inside)
    {
      var rel := dirs[i];
      ghost var before := h.disk.inside;
      assert rel in dirs;
      ParentDone(dirs, i);
      RootIsDir(before);
      ok := ReconcileOne(h, rel);
      ReconciledMore(old(h.disk.inside), dirs[..i], before, rel, h.disk.inside);
      assert dirs[..i + 1] == dirs[..i] + [rel];
    }
    assert dirs[..|dirs|] == dirs;
  }

  lemma RootIsDir(m: map<Path, Entry>)
    requires Tidy(m)
    ensures Got(m, []) == Some(Dir)
  {
  }

  /** One path whose parent stands: what is there makes way for a directory. */
  method ReconcileOne(h: Host, rel: Path) returns (ok: bool)
    requires Tidy(h.disk.inside) && NoSpecials(h.disk.inside) && PlainPath(rel) && rel != []
    requires Got(h.disk.inside, Parent(rel)) == Some(Dir)
    modifies h
    ensures ok && SameHost(old(h.disk), h.disk) && Tidy(h.disk.inside) && NoSpecials(h.disk.inside)
    ensures forall p :: Got(h.disk.inside, p) == if p == rel then Some(Dir) else Got(old(h.disk.inside), p)
  {
    ghost var before := h.disk.inside;
    ReachFromParent(before, rel);
    WalkIsLiteral(h.disk, rel, false);
    if !h.IsLink(rel) {
      WalkIsLiteral(h.disk, rel, true);
    }
    if h.LExists(rel) && (!h.IsDir(rel) || h.IsLink(rel)) {
      assert Got(before, rel) != Some(Special);
      Remove(h, rel);
      OnlyItself(before, rel);
    }
    ghost var mid := h.disk.inside;
    ReachFromParent(mid, rel);
    ok := MakeDirs(h, rel);
    LastIsNew(mid, rel, h.disk.inside);
  }

  /** Where the parent stands, making all prefixes directories adds at most the last. */
  lemma LastIsNew(m: map<Path, Entry>, rel: Path, m': map<Path, Entry>)
    requires Reachable(m, rel)
    requires forall p :: Got(m', p) == if Prefix(p, rel) then Some(Dir) else Got(m, p)
    ensures forall p :: Got(m', p) == if p == rel then Some(Dir) else Got(m, p)
  {
    forall p | Prefix(p, rel) && p != rel ensures Got(m, p) == Some(Dir) {
      assert p == rel[..|p|];
      assert |p| == |rel| ==> p == rel;
    }
    assert Prefix(rel, rel);
  }

  /** mkfs and copying leave no device node, fifo or socket in `merged`. */
  ghost predicate NoSpecials(m: map<Path, Entry>) {
    forall p :: Got(m, p) != Some(Special)
  }

  lemma ParentDone(dirs: seq<Path>, i: nat)
    requires TopDown(dirs) && ParentsListed(dirs) && i < |dirs|
    ensures Parent(dirs[i]) == [] || Parent(dirs[i]) in dirs[..i]
  {
    var rel := dirs[i];
    assert rel in dirs;
    if Parent(rel) != [] {
      var j :| 0 <= j < |dirs| && dirs[j] == Parent(rel);
      assert dirs[j] <= dirs[i];
      assert |dirs[j]| < |dirs[i]|;
      assert dirs[j..][0] == dirs[j];
      if j < i { assert dirs[..i][j] == dirs[j]; }
    }
  }

  lemma ReachFromParent(m: map<Path, Entry>, rel: Path)
    requires Tidy(m) && rel != [] && Got(m, Parent(rel)) == Some(Dir)
    ensures Reachable(m, rel) && Unlinked(m, rel)
    ensures rel !in m || m[rel] == Dir ==> Clear(m, rel)
  {
    var head := Parent(rel);
    TidyReachable(m, head);
    forall k | 0 <= k < |rel| ensures rel[..k] in m && m[rel[..k]] == Dir {
      if k < |head| {
        assert head[..k] == rel[..k];
      } else {
        assert rel[..k] == head;
      }
    }
    assert rel[..|rel|] == rel;
  }

  /** Below anything but a directory there is nothing, so removing it removes only itself. */
  lemma OnlyItself(m: map<Path, Entry>, rel: Path)
    requires Tidy(m) && rel in m && m[rel] != Dir
    ensures forall p :: Got(Without(m, rel), p) == if p == rel then None else Got(m, p)
  {
    forall p | p in m && rel <= p ensures p == rel {
      assert rel <= p ==> p[..|rel|] == rel;
      if |rel| < |p| {
        TidyAncestors(m, p, |rel|);
      }
      assert p[..|rel|] == p || |rel| < |p|;
    }
  }

  lemma UnderAdd(s: set<Path>, w: Path, p: Path)
    ensures Under(s + {w}, p) <==> Under(s, p) || w <= p
    ensures Below(s + {w}, p) <==> Below(s, p) || (w <= p && w != p)
  {
    if w <= p {
      assert p[..|w|] == w;
      assert |w| == |p| ==> w == p;
    }
  }

  /** `m` is `start` without the places in `done` and what lies below them. */
  ghost predicate Cleared(start: map<Path, Entry>, done: set<Path>, m: map<Path, Entry>) {
    forall p :: Got(m, p) == if Under(done, p) then None else Got(start, p)
  }

  method RemoveOne(h: Host, rel: Path, ghost start: map<Path, Entry>, ghost done: set<Path>)
    requires Tidy(h.disk.inside) && NoSpecials(h.disk.inside)
    requires rel != [] && PlainPath(rel) && Unlinked(h.disk.inside, rel)
    requires Cleared(start, done, h.disk.inside)
    modifies h
    ensures SameHost(old(h.disk), h.disk) && Tidy(h.disk.inside) && NoSpecials(h.disk.inside)
    ensures Cleared(start, done + {rel}, h.disk.inside)
  {
    ghost var before := h.disk.inside;
    assert Got(before, rel) != Some(Special);
    Remove(h, rel);
    forall p ensures Got(h.disk.inside, p) == if Under(done + {rel}, p) then None else Got(start, p) {
      UnderAdd(done, rel, p);
      assert Got(before, p) == if Under(done, p) then None else Got(start, p);
    }
  }

  /** Step 2, the whiteouts, in any order. */
  method DeleteAll(h: Host, deleted: set<Path>)
    requires Tidy(h.disk.inside) && NoSpecials(h.disk.inside)
    requires forall w :: w in deleted ==> w != [] && PlainPath(w) && Unlinked(h.disk.inside, w)
    modifies h
    ensures SameHost(old(h.disk), h.disk) && Tidy(h.disk.inside) && NoSpecials(h.disk.inside)
    ensures Cleared(old(h.disk.inside), deleted, h.disk.inside)
  {
    var todo := deleted;
    ghost var done := {};
    while todo != {}
      invariant todo + done == deleted
      invariant SameHost(old(h.disk), h.disk) && Tidy(h.disk.inside) && NoSpecials(h.disk.inside)
      invariant Cleared(old(h.disk.inside), done, h.disk.inside)
    {
      var rel :| rel in todo;
      todo := todo - {rel};
      StillUnlinked(old(h.disk.inside), h.disk.inside, rel);
      RemoveOne(h, rel, old(h.disk.inside), done);
      done := done + {rel};
    }
    assert done == deleted;
  }

  lemma StillUnlinked(m0: map<Path, Entry>, m: map<Path, Entry>, rel: Path)
    requires Unlinked(m0, rel)
    requires forall p :: Got(m, p) == None || Got(m, p) == Got(m0, p)
    ensures Unlinked(m, rel)
  {
    forall k | 0 <= k < |rel| && rel[..k] in m ensures m[rel[..k]] == Dir {
      assert Got(m, rel[..k]) == Got(m0, rel[..k]);
    }
  }

  /** One listed name of the directory `rel`. */
  method EmptyOne(h: Host, rel: Path, name: Name, ghost before: map<Path, Entry>, ghost done: set<Path>)
    requires Tidy(before) && Got(before, rel) == Some(Dir)
    requires Tidy(h.disk.inside) && NoSpecials(h.disk.inside) && Cleared(before, done, h.disk.inside)
    requires forall q :: q in done ==> rel <= q && q != rel
    requires exists q :: q in before && |q| == |rel| + 1 && rel <= q && q[|rel|] == name
    modifies h
    ensures SameHost(old(h.disk), h.disk) && Tidy(h.disk.inside) && NoSpecials(h.disk.inside)
    ensures Cleared(before, done + {rel + [name]}, h.disk.inside)
  {
    var here := rel + [name];
    NotBelowItself(done, rel);
    assert Got(h.disk.inside, rel) == Some(Dir) && Parent(here) == rel;
    ReachFromParent(h.disk.inside, here);
    ListedIsPlain(before, rel, name);
    RemoveOne(h, here, before, done);
  }

  lemma NothingCleared(m: map<Path, Entry>)
    ensures Cleared(m, {}, m)
  {
  }

  /** Empties the directory `rel`, one listed name after the other. */
  method EmptyDir(h: Host, rel: Path)
    requires Tidy(h.disk.inside) && NoSpecials(h.disk.inside) && Got(h.disk.inside, rel) == Some(Dir)
    modifies h
    ensures SameHost(old(h.disk), h.disk) && Tidy(h.disk.inside) && NoSpecials(h.disk.inside)
    ensures forall p :: Got(h.disk.inside, p)
                     == if Prefix(rel, p) && rel != p then None else Got(old(h.disk.inside), p)
  {
    hide Tidy, NoSpecials, Cleared;
    ghost var before := h.disk.inside;
    TidyReachable(before, rel);
    WalkHere(h.disk, rel);
    var names := h.ListDir(rel);
    var todo := names;
    ghost var done: set<Path> := {};
    NothingCleared(before);
    while todo != {}
      invariant todo <= names
      invariant forall n :: n in names && n !in todo ==> rel + [n] in done
      invariant forall q :: q in done ==> rel <= q && q != rel
      invariant SameHost(old(h.disk), h.disk) && Tidy(h.disk.inside) && NoSpecials(h.disk.inside)
      invariant Cleared(before, done, h.disk.inside)
    {
      var name :| name in todo;
      EmptyOne(h, rel, name, before, done);
      assert rel <= rel + [name] && |rel + [name]| > |rel|;
      done := done + {rel + [name]};
      todo := todo - {name};
    }
    EmptiedAll(before, rel, done, h.disk.inside);
  }

  lemma WalkHere(d: Disk, rel: Path)
    requires Tidy(d.inside) && Got(d.inside, rel) == Some(Dir)
    ensures d.At(rel, true) == Some(In(rel))
  {
    TidyReachable(d.inside, rel);
    WalkIsLiteral(d, rel, true);
  }

  lemma EmptiedAll(before: map<Path, Entry>, rel: Path, done: set<Path>, after: map<Path, Entry>)
    requires Tidy(before) && Cleared(before, done, after)
    requires forall q :: q in before && |q| == |rel| + 1 && rel <= q ==> rel + [q[|rel|]] in done
    requires forall q :: q in done ==> rel <= q && q != rel
    ensures forall p :: Got(after, p) == if Prefix(rel, p) && rel != p then None else Got(before, p)
  {
    forall p ensures Got(after, p) == if Prefix(rel, p) && rel != p then None else Got(before, p) {
      if Prefix(rel, p) && rel != p && p in before {
        ListedAbove(before, rel, p);
        assert p[..|rel| + 1] in done;
      } else if Under(done, p) {
        var k :| 0 <= k <= |p| && p[..k] in done;
        var q := p[..k];
        assert rel <= q && q != rel;
        assert |rel| < |q| || q == rel;
      }
    }
  }

  lemma NotBelowItself(done: set<Path>, rel: Path)
    requires forall q :: q in done ==> rel <= q && q != rel
    ensures !Under(done, rel)
  {
    assert rel[..|rel|] == rel;
  }

  lemma ListedIsPlain(m: map<Path, Entry>, rel: Path, name: Name)
    requires Tidy(m)
    requires exists q :: q in m && |q| == |rel| + 1 && rel <= q && q[|rel|] == name
    ensures PlainPath(rel + [name])
  {
    var q :| q in m && |q| == |rel| + 1 && rel <= q && q[|rel|] == name;
    assert q == rel + [name];
  }

  lemma ListedAbove(m: map<Path, Entry>, rel: Path, p: Path)
    requires Tidy(m) && p in m && rel <= p && rel != p
    ensures rel + [p[|rel|]] in m && rel + [p[|rel|]] == p[..|rel| + 1]
  {
    assert p[..|rel|] == rel;
    assert |rel| == |p| ==> rel == p;
    assert rel + [p[|rel|]] == p[..|rel| + 1];
    if |rel| + 1 < |p| {
      TidyAncestors(m, p, |rel| + 1);
    } else {
      assert p[..|rel| + 1] == p;
    }
  }

  /** Directories of a plan: below the root, and with every ancestor that is not the root. */
  ghost predicate DirSet(dirs: seq<Path>) {
    forall p :: p in dirs ==> PlainPath(p) && p != [] && (forall k :: 0 < k <= |p| ==> p[..k] in dirs)
  }

  /** Where the plan's directories stand while opaque ones are being emptied: each is a
      directory or away, and no other place has been added. */
  ghost predicate Emptied(start: map<Path, Entry>, dirs: seq<Path>, done: set<Path>, m: map<Path, Entry>) {
    && (forall p :: p !in dirs ==> Got(m, p) == if Below(done, p) then None else Got(start, p))
    && (forall p :: p in dirs ==> Got(m, p) in {None, Some(Dir)})
  }

  /** Step 3, opaque directories, in any order, nested or not. */
  method ReplaceAll(h: Host, replaced: set<Path>, ghost dirs: seq<Path>) returns (ok: bool)
    requires Tidy(h.disk.inside) && NoSpecials(h.disk.inside) && DirSet(dirs)
    requires forall p :: p in dirs ==> Got(h.disk.inside, p) == Some(Dir)
    requires forall r :: r in replaced ==> r == [] || r in dirs
    modifies h
    ensures ok && SameHost(old(h.disk), h.disk) && Tidy(h.disk.inside) && NoSpecials(h.disk.inside)
    ensures Emptied(old(h.disk.inside), dirs, replaced, h.disk.inside)
  {
    ok := true;
    var todo := replaced;
    ghost var done := {};
    while todo != {}
      invariant todo + done == replaced
      invariant ok && SameHost(old(h.disk), h.disk) && Tidy(h.disk.inside) && NoSpecials(h.disk.inside)
      invariant Emptied(old(h.disk.inside), dirs, done, h.disk.inside)
    {
      var rel :| rel in todo;
      todo := todo - {rel};
      ok := ReplaceOne(h, rel, old(h.disk.inside), dirs, done);
      done := done + {rel};
    }
    assert done == replaced;
  }

  method ReplaceOne(h: Host, rel: Path, ghost start: map<Path, Entry>, ghost dirs: seq<Path>, ghost done: set<Path>)
    returns (ok: bool)
    requires Tidy(h.disk.inside) && NoSpecials(h.disk.inside) && DirSet(dirs)
    requires rel == [] || rel in dirs
    requires Emptied(start, dirs, done, h.disk.inside)
    modifies h
    ensures ok && SameHost(old(h.disk), h.disk) && Tidy(h.disk.inside) && NoSpecials(h.disk.inside)
    ensures Emptied(start, dirs, done + {rel}, h.disk.inside)
  {
    hide Emptied, DirSet, NoSpecials, Clear;
    ok := true;
    ghost var before := h.disk.inside;
    PlannedIsClear(start, dirs, done, before, rel);
    DirOrAway(h.disk, rel);
    if !h.IsDir(rel) || h.IsLink(rel) {
      ok := Remake(h, rel);
      RemadeEmptied(start, dirs, done, before, rel, h.disk.inside);
    } else {
      EmptyDir(h, rel);
      BelowEmptied(start, dirs, done, before, rel, h.disk.inside);
    }
  }

  /** os.path.isdir and os.path.islink of a path with nothing but directories above it and at it. */
  lemma DirOrAway(d: Disk, rel: Path)
    requires Tidy(d.inside) && PlainPath(rel) && Clear(d.inside, rel) && Unlinked(d.inside, rel)
    ensures d.Stat(rel, true) == Some(Dir) <==> rel in d.inside
    ensures !(d.Stat(rel, false).Some? && d.Stat(rel, false).value.Link?)
    ensures rel in d.inside ==> d.inside[rel] == Dir
  {
    assert rel[..|rel|] == rel;
    WalkIsLiteral(d, rel, true);
    WalkIsLiteral(d, rel, false);
    if rel in d.inside {
      TidyReachable(d.inside, rel);
    }
  }

  /** _remove, then os.makedirs, where nothing stands. */
  method Remake(h: Host, rel: Path) returns (ok: bool)
    requires Tidy(h.disk.inside) && NoSpecials(h.disk.inside) && PlainPath(rel)
    requires Clear(h.disk.inside, rel) && Unlinked(h.disk.inside, rel) && rel !in h.disk.inside
    modifies h
    ensures ok && SameHost(old(h.disk), h.disk) && Tidy(h.disk.inside) && NoSpecials(h.disk.inside)
    ensures forall p :: Got(h.disk.inside, p) == if Prefix(p, rel) then Some(Dir) else Got(old(h.disk.inside), p)
  {
    ghost var before := h.disk.inside;
    Remove(h, rel);
    forall p ensures Got(h.disk.inside, p) == Got(before, p) {
      NothingBelow(before, rel, p);
    }
    ok := MakeDirs(h, rel);
  }

  lemma RemadeEmptied(start: map<Path, Entry>, dirs: seq<Path>, done: set<Path>, m: map<Path, Entry>, rel: Path,
                      m': map<Path, Entry>)
    requires Tidy(m) && DirSet(dirs) && Emptied(start, dirs, done, m) && (rel == [] || rel in dirs) && rel !in m
    requires forall p :: Got(m', p) == if Prefix(p, rel) then Some(Dir) else Got(m, p)
    ensures Emptied(start, dirs, done + {rel}, m')
  {
    forall p ensures p !in dirs ==> Got(m', p) == if Below(done + {rel}, p) then None else Got(start, p) {
      UnderAdd(done, rel, p);
      NothingBelow(m, rel, p);
      if Prefix(p, rel) { assert p == rel[..|p|]; }
    }
  }

  lemma BelowEmptied(start: map<Path, Entry>, dirs: seq<Path>, done: set<Path>, m: map<Path, Entry>, rel: Path,
                     m': map<Path, Entry>)
    requires Emptied(start, dirs, done, m)
    requires forall p :: Got(m', p) == if Prefix(rel, p) && rel != p then None else Got(m, p)
    ensures Emptied(start, dirs, done + {rel}, m')
  {
    forall p ensures p !in dirs ==> Got(m', p) == if Below(done + {rel}, p) then None else Got(start, p) {
      UnderAdd(done, rel, p);
    }
  }

  lemma PlannedIsClear(start: map<Path, Entry>, dirs: seq<Path>, done: set<Path>, m: map<Path, Entry>, rel: Path)
    requires Tidy(m) && DirSet(dirs) && Emptied(start, dirs, done, m)
    requires rel == [] || rel in dirs
    ensures Clear(m, rel) && Unlinked(m, rel) && PlainPath(rel)
    ensures rel !in m || m[rel] == Dir
  {
    forall k | 0 <= k <= |rel| && rel[..k] in m ensures m[rel[..k]] == Dir {
      assert Got(m, rel[..k]) == Some(m[rel[..k]]);
    }
    assert rel[..|rel|] == rel;
  }

  lemma NothingBelow(m: map<Path, Entry>, rel: Path, p: Path)
    requires Tidy(m) && rel !in m
    ensures rel <= p ==> p !in m
  {
    assert rel <= p ==> p[..|rel|] == rel;
    assert rel <= p && |p| == |rel| ==> p == rel;
    if p in m {
      TidyReachable(m, p);
    }
  }

  /** A planned leaf as the source node it copies. */
  function AsNode(u: UNode): Node {
    match u
    case UFile(_, i) => NFile(i)
    case ULink(t) => NLink(t)
    case _ => NSpecial
  }

  /** Every inode already copied has its bytes at the place remembered for it. */
  ghost predicate LinksHold(m: map<Path, Entry>, links: map<nat, Path>, data: Data) {
    forall i :: i in links ==> PlainPath(links[i]) && Got(m, links[i]) == Some(File(data(i)))
  }

  /** A place whose parent stands and where there is anything but a device node, fifo or socket. */
  ghost predicate Landing(m: map<Path, Entry>, dst: Path) {
    && Tidy(m) && PlainPath(dst) && dst != [] && Got(m, Parent(dst)) == Some(Dir)
    && Got(m, dst) != Some(Special)
  }

  predicate LinkAt(m: map<Path, Entry>, dst: Path) {
    dst in m && m[dst].Link?
  }

  /** Of what is copied, bytes and directories go through a link that stands in their place. */
  predicate Follows(src: Node, links: map<nat, Path>) {
    src.NDir? || (src.NFile? && !(src.inode.shared && src.inode.number in links))
  }

  predicate Stands(m: map<Path, Entry>, dst: Path) {
    dst in m && m[dst].Dir?
  }

  /** A directory lands on nothing or a directory, anything else on nothing or what is no directory. */
  ghost predicate Takes(m: map<Path, Entry>, dst: Path, dir: bool) {
    dst in m ==> (m[dst].Dir? <==> dir)
  }

  /** if os.path.lexists(dst): os.unlink(dst), which a directory refuses. */
  method UnlinkIfThere(h: Host, dst: Path) returns (ok: bool)
    requires Landing(h.disk.inside, dst)
    modifies h
    ensures SameHost(old(h.disk), h.disk) && Landing(h.disk.inside, dst)
    ensures ok <==> !Stands(old(h.disk.inside), dst)
    ensures h.disk.inside == if ok then old(h.disk.inside) - {dst} else old(h.disk.inside)
  {
    ghost var before := h.disk.inside;
    ReachFromParent(before, dst);
    WalkIsLiteral(h.disk, dst, false);
    WithoutTidy(before, dst);
    ok := true;
    if h.LExists(dst) {
      if !Stands(before, dst) {
        OnlyItself(before, dst);
        SameMap(Without(before, dst), before - {dst});
      }
      ok := Host.IsUnlinkable(h.disk, dst);
      h.Unlink(dst);
    }
  }

  lemma Rewritten(m: map<Path, Entry>, dst: Path, e: Entry)
    ensures (m - {dst})[dst := e] == m[dst := e]
  {
  }

  method CopyLink(h: Host, t: Target, dst: Path) returns (ok: bool)
    requires Landing(h.disk.inside, dst)
    modifies h
    ensures ok <==> !Stands(old(h.disk.inside), dst)
    ensures ok ==> SameHost(old(h.disk), h.disk) && h.disk.inside == old(h.disk.inside)[dst := Link(t)]
    ensures !ok ==> h.disk == old(h.disk)
  {
    Rewritten(h.disk.inside, dst, Link(t));
    ok := UnlinkIfThere(h, dst);
    if ok {
      ReachFromParent(h.disk.inside, dst);
      WalkIsLiteral(h.disk, dst, false);
      ok := h.Symlink(t, dst);
    }
  }

  method CopyHard(h: Host, first: Path, content: Content, dst: Path) returns (ok: bool)
    requires Landing(h.disk.inside, dst) && first != dst
    requires PlainPath(first) && Got(h.disk.inside, first) == Some(File(content))
    modifies h
    ensures ok <==> !Stands(old(h.disk.inside), dst)
    ensures ok ==> SameHost(old(h.disk), h.disk) && h.disk.inside == old(h.disk.inside)[dst := File(content)]
    ensures !ok ==> h.disk == old(h.disk)
  {
    Rewritten(h.disk.inside, dst, File(content));
    ok := UnlinkIfThere(h, dst);
    if ok {
      ReachFromParent(h.disk.inside, dst);
      WalkIsLiteral(h.disk, dst, false);
      TidyReachable(h.disk.inside, first);
      WalkIsLiteral(h.disk, first, false);
      ok := h.HardLink(first, dst);
    }
  }

  method CopyBytes(h: Host, content: Content, dst: Path) returns (ok: bool)
    requires Landing(h.disk.inside, dst)
    modifies h
    ensures !LinkAt(old(h.disk.inside), dst) ==>
              && (ok <==> !Stands(old(h.disk.inside), dst))
              && (ok ==> SameHost(old(h.disk), h.disk) && h.disk.inside == old(h.disk.inside)[dst := File(content)])
    ensures LinkAt(old(h.disk.inside), dst) ==> WritesThrough(old(h.disk), dst, content, ok, h.disk)
    ensures !ok ==> h.disk == old(h.disk)
  {
    ReachFromParent(h.disk.inside, dst);
    if !LinkAt(h.disk.inside, dst) {
      WalkIsLiteral(h.disk, dst, true);
    }
    ok := h.WriteFile(dst, content);
  }

  /** The bytes go where the link at `dst` leads, to a file that is there or a new one. */
  ghost predicate WritesThrough(d: Disk, dst: Path, content: Content, ok: bool, d': Disk) {
    && (ok <==> d.At(dst, true).Some? && (d.Stat(dst, true).Some? ==> d.Stat(dst, true).value.File?))
    && d' == if ok then d.Put(d.At(dst, true).value, File(content)) else d
  }

  lemma SameMap(a: map<Path, Entry>, b: map<Path, Entry>)
    requires forall p :: Got(a, p) == Got(b, p)
    ensures a == b
  {
    forall p ensures (p in a <==> p in b) && (p in a ==> a[p] == b[p]) {
      assert Got(a, p) == Got(b, p);
    }
  }

  /** _copy_entry. Both callers have cleared the place, so neither meets a link there; were one there,
      bytes would be written where it leads and a directory be taken for granted there. */
  method CopyEntry(h: Host, src: Node, dst: Path, data: Data, links: map<nat, Path>)
    returns (ok: bool, links': map<nat, Path>)
    requires Landing(h.disk.inside, dst) && NoSpecials(h.disk.inside)
    requires LinksHold(h.disk.inside, links, data) && dst !in links.Values
    modifies h
    ensures !(LinkAt(old(h.disk.inside), dst) && Follows(src, links)) ==>
              && SameHost(old(h.disk), h.disk)
              && (ok <==> !src.NSpecial? && Takes(old(h.disk.inside), dst, src.NDir?))
              && h.disk.inside == (if ok then old(h.disk.inside)[dst := NodeEntry(src, data)]
                                   else old(h.disk.inside))
              && Tidy(h.disk.inside) && NoSpecials(h.disk.inside)
              && (ok ==> LinksHold(h.disk.inside, links', data) && links'.Values <= links.Values + {dst})
    ensures LinkAt(old(h.disk.inside), dst) && src.NDir? ==>
              h.disk == old(h.disk) && (ok <==> old(h.disk).Stat(dst, true) == Some(Dir))
    ensures LinkAt(old(h.disk.inside), dst) && src.NFile? && Follows(src, links) ==>
              WritesThrough(old(h.disk), dst, data(src.inode.number), ok, h.disk)
  {
    links' := links;
    AddedTidy(h.disk.inside, dst, NodeEntry(src, data));
    LinksStill(h.disk.inside, links, data, dst, NodeEntry(src, data));
    match src
    case NLink(t) =>
      ok := CopyLink(h, t, dst);
    case NDir(_) =>
      ReachFromParent(h.disk.inside, dst);
      ok := MakeLast(h, dst);
    case NFile(inode) =>
      if inode.shared && inode.number in links {
        ok := CopyHard(h, links[inode.number], data(inode.number), dst);
      } else {
        ok := CopyBytes(h, data(inode.number), dst);
        if ok && inode.shared {
          links' := links[inode.number := dst];
        }
      }
    case NSpecial =>
      ok := false;
  }

  /** The same where nothing stands. */
  method CopyNew(h: Host, src: Node, dst: Path, data: Data, links: map<nat, Path>)
    returns (ok: bool, links': map<nat, Path>)
    requires Landing(h.disk.inside, dst) && NoSpecials(h.disk.inside) && dst !in h.disk.inside
    requires LinksHold(h.disk.inside, links, data) && dst !in links.Values
    modifies h
    ensures SameHost(old(h.disk), h.disk)
    ensures ok <==> !src.NSpecial?
    ensures ok ==> h.disk.inside == old(h.disk.inside)[dst := NodeEntry(src, data)]
    ensures ok ==> Tidy(h.disk.inside) && NoSpecials(h.disk.inside)
    ensures ok ==> LinksHold(h.disk.inside, links', data) && links'.Values <= links.Values + {dst}
  {
    ok, links' := CopyEntry(h, src, dst, data, links);
  }

  lemma LinksStill(m: map<Path, Entry>, links: map<nat, Path>, data: Data, dst: Path, e: Entry)
    requires LinksHold(m, links, data) && dst !in links.Values
    ensures LinksHold(m[dst := e], links, data)
  {
    forall i | i in links ensures links[i] != dst && Got(m[dst := e], links[i]) == Some(File(data(i))) {
      assert links[i] in links.Values;
    }
  }

  lemma AddedTidy(m: map<Path, Entry>, dst: Path, e: Entry)
    requires Landing(m, dst)
    ensures Takes(m, dst, e.Dir?) ==> Tidy(m[dst := e])
    ensures NoSpecials(m) && !e.Special? ==> NoSpecials(m[dst := e])
  {
    if NoSpecials(m) && !e.Special? {
      var m' := m[dst := e];
      forall p ensures Got(m', p) != Some(Special) {
        assert Got(m, p) != Some(Special);
      }
    }
  }

  ghost predicate NoneSpecial(n: Node, names: set<Name>) {
    forall p :: p != [] && p[0] in names && Find(n, p).Some? ==> !Find(n, p).value.NSpecial?
  }

  lemma BaseChild(n: Node, rel: Path, done: set<Name>, name: Name, p: Path)
    requires n.NDir? && name in n.children && name !in done
    ensures
      var here := rel + [name];
      && (Via(rel, done + {name}, p) <==> Via(rel, done, p) || here <= p)
      && (here <= p ==> Find(n, p[|rel|..]) == Find(n.children[name], p[|here|..]) && !Via(rel, done, p))
      && (here <= p && p != here ==> |here| < |p| && p[|here|..][0] == p[|here|])
  {
    var here := rel + [name];
    if here <= p {
      assert here[|rel|] == p[|rel|] == name;
      assert p[|rel|..][0] == name && p[|rel|..][1..] == p[|here|..];
      assert rel == here[..|rel|] == p[..|rel|];
      assert |p| == |here| ==> p == here;
    }
    if Via(rel, {name}, p) {
      assert p[..|here|] == here;
    }
  }

  lemma SpecialChild(n: Node, done: set<Name>, name: Name)
    requires n.NDir? && name in n.children
    ensures
      var child := n.children[name];
      NoneSpecial(n, done + {name}) <==>
        NoneSpecial(n, done) && !child.NSpecial? && (child.NDir? ==> NoneSpecial(child, child.children.Keys))
  {
    var child := n.children[name];
    assert Find(n, [name]) == Some(child);
    forall q ensures ([name] + q)[1..] == q && Find(n, [name] + q) == Find(child, q) {
      assert ([name] + q)[1..] == q;
    }
    forall p | p != [] && p[0] == name ensures p == [name] + p[1..] {
    }
  }

  /** One directory of the base and all below it, names in any order. */
  method CopyDir(h: Host, n: Node, rel: Path, data: Data, links: map<nat, Path>)
    returns (ok: bool, links': map<nat, Path>)
    requires n.NDir? && BaseNamesOk(n) && PlainPath(rel)
    requires Tidy(h.disk.inside) && NoSpecials(h.disk.inside)
    requires Got(h.disk.inside, rel) == Some(Dir)
    requires forall p :: Prefix(rel, p) && p != rel ==> Got(h.disk.inside, p) == None
    requires LinksHold(h.disk.inside, links, data)
    modifies h
    ensures SameHost(old(h.disk), h.disk)
    ensures ok <==> NoneSpecial(n, n.children.Keys)
    ensures ok ==> Tidy(h.disk.inside) && NoSpecials(h.disk.inside) && LinksHold(h.disk.inside, links', data)
    ensures ok ==> Laid(old(h.disk.inside), n, data, rel, n.children.Keys, h.disk.inside)
    decreases n, 0
  {
    var todo := n.children.Keys;
    ghost var done := {};
    links' := links;
    while todo != {}
      invariant todo + done == n.children.Keys && todo !! done
      invariant SameHost(old(h.disk), h.disk) && Tidy(h.disk.inside) && NoSpecials(h.disk.inside)
      invariant LinksHold(h.disk.inside, links', data)
      invariant NoneSpecial(n, done)
      invariant Laid(old(h.disk.inside), n, data, rel, done, h.disk.inside)
    {
      var name :| name in todo;
      todo := todo - {name};
      SpecialChild(n, done, name);
      NoneSpecialMore(n, done + {name});
      ghost var before := h.disk.inside;
      BeforeName(old(h.disk.inside), n, data, rel, done, before, name);
      ok, links' := CopyName(h, n.children[name], rel + [name], data, links');
      if !ok {
        return;
      }
      LaidOneMore(old(h.disk.inside), n, data, rel, done, before, name, h.disk.inside);
      done := done + {name};
    }
    assert done == n.children.Keys;
    ok := true;
  }

  /** `m` is `start` with the part of `n` reached through `names` laid out below `rel`. */
  ghost predicate Laid(start: map<Path, Entry>, n: Node, data: Data, rel: Path, names: set<Name>, m: map<Path, Entry>) {
    forall p :: Got(m, p) == if Via(rel, names, p) then Look(n, data, p[|rel|..]) else Got(start, p)
  }

  lemma NoneSpecialMore(n: Node, names: set<Name>)
    requires n.NDir? && names <= n.children.Keys
    ensures NoneSpecial(n, n.children.Keys) ==> NoneSpecial(n, names)
  {
  }

  lemma BeforeName(start: map<Path, Entry>, n: Node, data: Data, rel: Path, done: set<Name>, m: map<Path, Entry>,
                   name: Name)
    requires n.NDir? && name in n.children && name !in done && BaseNamesOk(n) && PlainPath(rel)
    requires Got(start, rel) == Some(Dir)
    requires forall p :: Prefix(rel, p) && p != rel ==> Got(start, p) == None
    requires Laid(start, n, data, rel, done, m)
    ensures Got(m, rel) == Some(Dir) && Parent(rel + [name]) == rel
    ensures PlainPath(rel + [name]) && BaseNamesOk(n.children[name])
    ensures forall p :: Prefix(rel + [name], p) ==> Got(m, p) == None
  {
    var here := rel + [name];
    assert !Via(rel, done, rel);
    assert Find(n, [name]).Some? && [name][0] == name;
    forall q | Find(n.children[name], q).Some? ensures PlainPath(q) {
      assert ([name] + q)[1..] == q;
      assert Find(n, [name] + q).Some?;
      forall i | 0 <= i < |q| ensures PlainName(q[i]) {
        assert q[i] == ([name] + q)[i + 1];
      }
    }
    forall p | Prefix(here, p) ensures Got(m, p) == None {
      BaseChild(n, rel, done, name, p);
      assert Prefix(rel, here);
      PrefixTrans(rel, here, p);
      assert Prefix(rel, p);
    }
  }

  lemma LaidOneMore(start: map<Path, Entry>, n: Node, data: Data, rel: Path, done: set<Name>, m: map<Path, Entry>,
                    name: Name, m': map<Path, Entry>)
    requires n.NDir? && name in n.children && name !in done
    requires Laid(start, n, data, rel, done, m)
    requires Planted(m, n.children[name], data, rel + [name], m')
    ensures Laid(start, n, data, rel, done + {name}, m')
  {
    forall p ensures Got(m', p) == if Via(rel, done + {name}, p) then Look(n, data, p[|rel|..]) else Got(start, p) {
      BaseChild(n, rel, done, name, p);
      assert Prefix(rel + [name], p) <==> rel + [name] <= p;
    }
  }

  /** `m'` is `m` with all of `n` at `here`. */
  ghost predicate Planted(m: map<Path, Entry>, n: Node, data: Data, here: Path, m': map<Path, Entry>) {
    forall p :: Got(m', p) == if Prefix(here, p) then Look(n, data, p[|here|..]) else Got(m, p)
  }

  /** One name of the base. */
  method CopyName(h: Host, child: Node, here: Path, data: Data, links: map<nat, Path>)
    returns (ok: bool, links': map<nat, Path>)
    requires BaseNamesOk(child) && PlainPath(here) && here != []
    requires Tidy(h.disk.inside) && NoSpecials(h.disk.inside)
    requires Got(h.disk.inside, Parent(here)) == Some(Dir)
    requires forall p :: Prefix(here, p) ==> Got(h.disk.inside, p) == None
    requires LinksHold(h.disk.inside, links, data)
    modifies h
    ensures SameHost(old(h.disk), h.disk)
    ensures ok <==> !child.NSpecial? && (child.NDir? ==> NoneSpecial(child, child.children.Keys))
    ensures ok ==> Tidy(h.disk.inside) && NoSpecials(h.disk.inside) && LinksHold(h.disk.inside, links', data)
    ensures ok ==> Planted(old(h.disk.inside), child, data, here, h.disk.inside)
    decreases child, 1
  {
    ghost var before := h.disk.inside;
    assert Prefix(here, here) && Got(before, here) == None;
    ReachFromParent(before, here);
    if child.NDir? {
      ok := MakeDirs(h, here);
      ghost var mid := h.disk.inside;
      LastIsNew(before, here, mid);
      assert LinksHold(mid, links, data);
      ok, links' := CopyDir(h, child, here, data, links);
      if ok {
        DirPlanted(before, child, data, here, mid, h.disk.inside);
      }
    } else {
      ok, links' := CopyNew(h, child, here, data, links);
      if ok {
        LeafPlanted(before, child, data, here, h.disk.inside);
      }
    }
  }

  lemma DirPlanted(m: map<Path, Entry>, child: Node, data: Data, here: Path, mid: map<Path, Entry>,
                   m': map<Path, Entry>)
    requires child.NDir?
    requires forall p :: Prefix(here, p) ==> Got(m, p) == None
    requires forall p :: Got(mid, p) == if p == here then Some(Dir) else Got(m, p)
    requires Laid(mid, child, data, here, child.children.Keys, m')
    ensures Planted(m, child, data, here, m')
  {
    forall p ensures Got(m', p) == if Prefix(here, p) then Look(child, data, p[|here|..]) else Got(m, p) {
      if Prefix(here, p) {
        assert |p| == |here| ==> p == here;
        assert |p| > |here| ==> p[|here|..][0] == p[|here|];
      }
    }
  }

  lemma LeafPlanted(m: map<Path, Entry>, child: Node, data: Data, here: Path, m': map<Path, Entry>)
    requires !child.NDir?
    requires forall p :: Prefix(here, p) ==> Got(m, p) == None
    requires m' == m[here := NodeEntry(child, data)]
    ensures Planted(m, child, data, here, m')
  {
    forall p ensures Got(m', p) == if Prefix(here, p) then Look(child, data, p[|here|..]) else Got(m, p) {
      if Prefix(here, p) {
        assert |p| == |here| ==> p == here;
      }
    }
    assert Prefix(here, here);
  }

  function Rels(copied: seq<Copied>): set<Path> {
    set c | c in copied :: c.rel
  }

  /** No copied entry lies at or below another. */
  ghost predicate Separate(copied: seq<Copied>) {
    forall i, j :: 0 <= i < |copied| && 0 <= j < |copied| && i != j ==> !(copied[i].rel <= copied[j].rel)
  }

  /** `m` is `start` with each copied entry in place of whatever was there. */
  ghost predicate Placed(start: map<Path, Entry>, copied: seq<Copied>, data: Data, m: map<Path, Entry>) {
    && (forall c :: c in copied ==> Got(m, c.rel) == Some(NodeEntry(AsNode(c.src), data)))
    && (forall p :: p !in Rels(copied) ==> Got(m, p) == if Below(Rels(copied), p) then None else Got(start, p))
  }

  /** Step 4b, files and links. */
  method CopyAll(h: Host, copied: seq<Copied>, data: Data) returns (ok: bool)
    requires Tidy(h.disk.inside) && NoSpecials(h.disk.inside) && Separate(copied)
    requires forall c :: c in copied ==> c.rel != [] && PlainPath(c.rel) && IsLeaf(Some(c.src))
    requires forall c :: c in copied ==> Got(h.disk.inside, Parent(c.rel)) == Some(Dir)
    modifies h
    ensures SameHost(old(h.disk), h.disk)
    ensures ok <==> forall c :: c in copied ==> !c.src.USpecial?
    ensures ok ==> Tidy(h.disk.inside) && NoSpecials(h.disk.inside)
    ensures ok ==> Placed(old(h.disk.inside), copied, data, h.disk.inside)
  {
    var links: map<nat, Path> := map[];
    for i := 0 to |copied|
      invariant SameHost(old(h.disk), h.disk) && Tidy(h.disk.inside) && NoSpecials(h.disk.inside)
      invariant forall c :: c in copied[..i] ==> !c.src.USpecial?
      invariant Placed(old(h.disk.inside), copied[..i], data, h.disk.inside)
      invariant LinksHold(h.disk.inside, links, data) && links.Values <= Rels(copied[..i])
    {
      var c := copied[i];
      assert c in copied;
      ParentStands(old(h.disk.inside), copied, i, data, h.disk.inside);
      ok, links := CopyOne(h, c, data, links, old(h.disk.inside), copied, i);
      if !ok {
        return;
      }
      assert copied[..i + 1] == copied[..i] + [c];
    }
    assert copied[..|copied|] == copied;
    ok := true;
  }

  lemma ParentStands(start: map<Path, Entry>, copied: seq<Copied>, i: nat, data: Data, m: map<Path, Entry>)
    requires i < |copied| && Separate(copied) && copied[i].rel != []
    requires Got(start, Parent(copied[i].rel)) == Some(Dir)
    requires Placed(start, copied[..i], data, m)
    ensures Got(m, Parent(copied[i].rel)) == Some(Dir)
    ensures !Under(Rels(copied[..i]), copied[i].rel)
    ensures forall r :: r in Rels(copied[..i]) ==> !(copied[i].rel <= r)
  {
    var rel := copied[i].rel;
    var head := Parent(rel);
    var rels := Rels(copied[..i]);
    forall r | r in rels ensures !(r <= rel) && !(rel <= r) {
      var c :| c in copied[..i] && c.rel == r;
      var j :| 0 <= j < i && copied[j] == c;
    }
    forall k | 0 <= k <= |head| ensures head[..k] !in rels {
      assert head[..k] <= rel;
    }
    assert head[..|head|] == head;
  }

  method CopyOne(h: Host, c: Copied, data: Data, links: map<nat, Path>,
                 ghost start: map<Path, Entry>, ghost copied: seq<Copied>, ghost i: nat)
    returns (ok: bool, links': map<nat, Path>)
    requires i < |copied| && copied[i] == c && c.rel != [] && PlainPath(c.rel) && IsLeaf(Some(c.src))
    requires Tidy(h.disk.inside) && NoSpecials(h.disk.inside)
    requires Got(h.disk.inside, Parent(c.rel)) == Some(Dir)
    requires !Under(Rels(copied[..i]), c.rel)
    requires forall r :: r in Rels(copied[..i]) ==> !(c.rel <= r)
    requires Placed(start, copied[..i], data, h.disk.inside)
    requires LinksHold(h.disk.inside, links, data) && links.Values <= Rels(copied[..i])
    modifies h
    ensures SameHost(old(h.disk), h.disk)
    ensures ok <==> !c.src.USpecial?
    ensures ok ==> Tidy(h.disk.inside) && NoSpecials(h.disk.inside)
    ensures ok ==> Placed(start, copied[..i + 1], data, h.disk.inside)
    ensures ok ==> LinksHold(h.disk.inside, links', data) && links'.Values <= Rels(copied[..i + 1])
  {
    hide Tidy, NoSpecials, Placed, LinksHold, Under, Unlinked, Clear, Reachable, PlainPath;
    var dst := c.rel;
    var parent := Parent(dst);
    ghost var before := h.disk.inside;
    var made := EnsureParent(h, parent);
    ReachFromParent(before, dst);
    assert Got(before, dst) != Some(Special) by { NoneThere(before, dst); }
    Remove(h, dst);
    ghost var mid := h.disk.inside;
    LinksSpared(before, links, data, dst, copied[..i]);
    assert parent == dst[..|dst| - 1];
    assert Got(mid, parent) == Some(Dir);
    ok, links' := CopyNew(h, AsNode(c.src), dst, data, links);
    assert copied[..i + 1] == copied[..i] + [c];
    assert Rels(copied[..i + 1]) == Rels(copied[..i]) + {dst};
    if ok {
      PlaceOne(start, copied[..i], data, before, c, h.disk.inside);
    }
  }

  lemma NoneThere(m: map<Path, Entry>, p: Path)
    requires NoSpecials(m)
    ensures Got(m, p) != Some(Special)
  {
  }

  /** os.makedirs of a directory that stands already changes nothing. */
  method EnsureParent(h: Host, parent: Path) returns (ok: bool)
    requires Tidy(h.disk.inside) && Got(h.disk.inside, parent) == Some(Dir)
    modifies h
    ensures ok && h.disk == old(h.disk)
  {
    ghost var before := h.disk.inside;
    TidyReachable(before, parent);
    assert parent[..|parent|] == parent;
    ok := MakeDirs(h, parent);
    StandingPrefixes(before, parent);
    SameMap(before, h.disk.inside);
  }

  lemma LinksSpared(m: map<Path, Entry>, links: map<nat, Path>, data: Data, dst: Path, earlier: seq<Copied>)
    requires LinksHold(m, links, data) && links.Values <= Rels(earlier)
    requires forall r :: r in Rels(earlier) ==> !(dst <= r)
    ensures LinksHold(Without(m, dst), links, data) && dst !in links.Values
  {
    forall n | n in links ensures Got(Without(m, dst), links[n]) == Some(File(data(n))) {
      assert links[n] in links.Values;
      assert Got(m, links[n]) == Some(File(data(n)));
    }
  }

  lemma PlaceOne(start: map<Path, Entry>, earlier: seq<Copied>, data: Data, m: map<Path, Entry>, c: Copied,
                 m': map<Path, Entry>)
    requires Placed(start, earlier, data, m)
    requires m' == Without(m, c.rel)[c.rel := NodeEntry(AsNode(c.src), data)]
    requires !Under(Rels(earlier), c.rel)
    requires forall r :: r in Rels(earlier) ==> !(c.rel <= r)
    ensures Placed(start, earlier + [c], data, m')
  {
    assert Rels(earlier + [c]) == Rels(earlier) + {c.rel};
    forall d | d in earlier + [c] ensures Got(m', d.rel) == Some(NodeEntry(AsNode(d.src), data)) {
      if d in earlier {
        assert d.rel in Rels(earlier);
        assert c.rel <= c.rel;
      }
    }
    forall p | p !in Rels(earlier + [c])
      ensures Got(m', p) == if Below(Rels(earlier + [c]), p) then None else Got(start, p)
    {
      UnderAdd(Rels(earlier), c.rel, p);
    }
  }

  /** What the replay needs of a plan, from what reading the upper tree gave. */
  lemma PlanFits(m: Marks, upper: UNode)
    requires upper.UDir? && NamesOk(upper) && PlanOf(m, upper)
    ensures ParentsListed(m.dirs) && DirSet(m.dirs) && Separate(m.copied)
    ensures forall w :: w in m.deleted ==> w != [] && PlainPath(w)
    ensures forall w, k :: w in m.deleted && 0 < k < |w| ==> w[..k] in m.dirs
    ensures forall r :: r in m.replaced ==> r == [] || r in m.dirs
    ensures forall p :: p in m.dirs ==> !Under(m.deleted, p)
    ensures forall c :: c in m.copied ==>
              c.rel != [] && PlainPath(c.rel) && (Parent(c.rel) == [] || Parent(c.rel) in m.dirs)
  {
    forall p | p in m.dirs
      ensures PlainPath(p) && (Parent(p) == [] || Parent(p) in m.dirs)
      ensures forall k :: 0 < k <= |p| ==> p[..k] in m.dirs
      ensures !Under(m.deleted, p)
    {
      forall k | 0 <= k <= |p| ensures p[..k] !in m.deleted && (k > 0 ==> p[..k] in m.dirs) {
        if k < |p| { FindAncestor(upper, p, k); } else { assert p[..k] == p; }
      }
    }
    forall w, k | w in m.deleted && 0 < k < |w| ensures w[..k] in m.dirs {
      FindAncestor(upper, w, k);
    }
    forall c | c in m.copied
      ensures c.rel != [] && PlainPath(c.rel) && (Parent(c.rel) == [] || Parent(c.rel) in m.dirs)
    {
      if |c.rel| > 1 { FindAncestor(upper, c.rel, |c.rel| - 1); }
    }
    forall i, j | 0 <= i < |m.copied| && 0 <= j < |m.copied| && i != j
      ensures !(m.copied[i].rel <= m.copied[j].rel)
    {
      var p, q := m.copied[i].rel, m.copied[j].rel;
      assert m.copied[i] in m.copied && m.copied[j] in m.copied;
      if p <= q {
        assert p == q[..|p|];
        assert |p| == |q| ==> p == q;
        if |p| < |q| { FindAncestor(upper, q, |p|); }
      }
    }
  }

  /** An upper entry that lets nothing of the lower layer below it show. */
  predicate Blocks(n: Option<UNode>) {
    IsLeaf(n) || IsWhiteout(n) || IsOpaque(n)
  }

  ghost predicate Blocked(u: UNode, p: Path) {
    exists k :: 0 <= k < |p| && Blocks(UFind(u, p[..k]))
  }

  function UEntry(u: UNode, ud: Data): Entry {
    if u.UDir? then Dir else NodeEntry(AsNode(u), ud)
  }

  /** The recursive fate of a path, read off the upper tree path by path. */
  lemma {:induction false} FateFromFind(u: UNode, ud: Data, hidden: bool, p: Path)
    ensures
      FateOf(u, ud, hidden, p) ==
        match UFind(u, p)
        case Some(Whiteout) => Gone
        case Some(v) => Upper(UEntry(v, ud))
        case None => if hidden || Blocked(u, p) then Gone else Through
    decreases |p|
  {
    if p != [] {
      assert UFind(u, p[..0]) == Some(u);
      if u.UDir? && p[0] in u.entries {
        var child := u.entries[p[0]];
        FateFromFind(child, ud, hidden || u.mark.Yes?, p[1..]);
        forall k | 0 <= k < |p| - 1 ensures UFind(u, p[..k + 1]) == UFind(child, p[1..][..k]) {
          assert p[..k + 1][1..] == p[1..][..k];
        }
        if Blocked(u, p) && !u.mark.Yes? {
          var k :| 0 <= k < |p| && Blocks(UFind(u, p[..k]));
          assert k != 0 && UFind(u, p[..(k - 1) + 1]) == UFind(child, p[1..][..k - 1]);
        }
      } else if u.UDir? {
        forall k | 0 < k < |p| ensures UFind(u, p[..k]) == None {
        }
      }
    }
  }

  /** The five states the tree goes through meet the overlay view, path by path. */
  lemma ReplayIsOverlay(m: Marks, upper: UNode, ud: Data, lower: Node, ld: Data,
                        m1: map<Path, Entry>, m2: map<Path, Entry>, m3: map<Path, Entry>,
                        m4: map<Path, Entry>, m5: map<Path, Entry>, m6: map<Path, Entry>)
    requires lower.NDir? && upper.UDir? && NamesOk(upper) && PlanOf(m, upper)
    requires forall p :: Got(m1, p) == Look(lower, ld, p)
    requires forall p :: Got(m2, p) == if p in m.dirs then Some(Dir) else Got(m1, p)
    requires Cleared(m2, m.deleted, m3)
    requires Emptied(m3, m.dirs, m.replaced, m4)
    requires forall p :: Got(m5, p) == if p in m.dirs then Some(Dir) else Got(m4, p)
    requires Placed(m5, m.copied, ud, m6) && Tidy(m6)
    ensures forall p :: Got(m6, p) == VLook(Overlaid(Some(lower), ld, upper, ud), p)
  {
    forall p ensures Got(m6, p) == VLook(Overlaid(Some(lower), ld, upper, ud), p) {
      OverlaidLook(Some(lower), ld, upper, ud, false, p);
      FateFromFind(upper, ud, false, p);
      var found := UFind(upper, p);
      if IsLeaf(found) {
        assert Copied(found.value, p) in m.copied;
      } else {
        NotCopied(m, upper, p);
        BelowMeans(m, upper, p);
        if found == None {
          assert Got(m3, p) == if Under(m.deleted, p) then None else Got(m2, p);
        } else if IsWhiteout(found) {
          assert p[..|p|] == p;
          assert Under(m.deleted, p);
        }
      }
    }
  }

  lemma NotCopied(m: Marks, upper: UNode, p: Path)
    requires PlanOf(m, upper) && !IsLeaf(UFind(upper, p))
    ensures p !in Rels(m.copied)
  {
  }

  lemma BelowMeans(m: Marks, upper: UNode, p: Path)
    requires upper.UDir? && PlanOf(m, upper)
    ensures UFind(upper, p).Some? ==> !Below(Rels(m.copied), p)
    ensures UFind(upper, p) == None ==>
              (Blocked(upper, p) <==>
                Below(Rels(m.copied), p) || Below(m.replaced, p) || Under(m.deleted, p))
  {
    forall k | 0 <= k <= |p|
      ensures p[..k] in Rels(m.copied) <==> IsLeaf(UFind(upper, p[..k]))
      ensures p[..k] in m.replaced <==> IsOpaque(UFind(upper, p[..k]))
      ensures p[..k] in m.deleted <==> IsWhiteout(UFind(upper, p[..k]))
    {
      if IsLeaf(UFind(upper, p[..k])) {
        assert Copied(UFind(upper, p[..k]).value, p[..k]) in m.copied;
      }
    }
    assert p[..|p|] == p;
    if UFind(upper, p).Some? && Below(Rels(m.copied), p) {
      var k :| 0 <= k < |p| && p[..k] in Rels(m.copied);
      FindAncestor(upper, p, k);
    }
  }

  lemma BaseLaid(lower: Node, ld: Data, m1: map<Path, Entry>)
    requires lower.NDir?
    requires Laid(map[[] := Dir], lower, ld, [], lower.children.Keys, m1)
    ensures forall p :: Got(m1, p) == Look(lower, ld, p)
  {
    var root: Path := [];
    forall p ensures Got(m1, p) == Look(lower, ld, p) {
      assert p[|root|..] == p;
      assert Got(m1, p) == if Via(root, lower.children.Keys, p) then Look(lower, ld, p[|root|..])
                           else Got(map[[] := Dir], p);
    }
  }

  ghost predicate ShowsView(m: map<Path, Entry>, v: View) {
    forall p :: Got(m, p) == VLook(v, p)
  }

  /** `m` shows the overlay of `upper` on `lower`, path by path. */
  ghost predicate Shows(m: map<Path, Entry>, lower: Node, ld: Data, upper: UNode, ud: Data)
    requires !upper.Whiteout?
  {
    ShowsView(m, Overlaid(Some(lower), ld, upper, ud))
  }

  /** apply_merge into a fresh directory: unless a device node, fifo or socket stands in the
      way, `merged` becomes the overlay of the two layers; and no entry elsewhere on the host
      changes, whatever links the base holds. What the last loop does to modes is in Modes. */
  method ApplyMerge(h: Host, lower: Node, ld: Data, plan: MergePlan, ghost upper: UNode, ud: Data) returns (ok: bool)
    requires lower.NDir? && BaseNamesOk(lower) && upper.UDir? && NamesOk(upper)
    requires PlanOf(plan.Value(), upper)
    requires h.disk.inside == map[[] := Dir]
    modifies h
    ensures SameHost(old(h.disk), h.disk)
    ensures ok <==> NoneSpecial(lower, lower.children.Keys) && NoSpecialAbove(upper)
    ensures ok ==> Tidy(h.disk.inside) && NoSpecials(h.disk.inside)
    ensures ok ==> Shows(h.disk.inside, lower, ld, upper, ud)
  {
    ghost var m := plan.Value();
    PlanFits(m, upper);
    var links;
    ok, links := CopyDir(h, lower, [], ld, map[]);
    if !ok {
      return;
    }
    ghost var m1 := h.disk.inside;
    BaseLaid(lower, ld, m1);
    var made := ReconcileDirs(h, plan.dirs);
    ghost var m2 := h.disk.inside;
    DeletesReachable(m, m2);
    DeleteAll(h, plan.deleted);
    ghost var m3 := h.disk.inside;
    made := ReplaceAll(h, plan.replaced, plan.dirs);
    ghost var m4 := h.disk.inside;
    made := ReconcileDirs(h, plan.dirs);
    ghost var m5 := h.disk.inside;
    ok := CopyAll(h, plan.copied, ud);
    SpecialsCopied(m, upper);
    if ok {
      ReplayIsOverlay(m, upper, ud, lower, ld, m1, m2, m3, m4, m5, h.disk.inside);
    }
  }

  lemma SpecialsCopied(m: Marks, upper: UNode)
    requires PlanOf(m, upper)
    ensures NoSpecialAbove(upper) <==> forall c :: c in m.copied ==> !c.src.USpecial?
  {
    forall p | UFind(upper, p).Some? && UFind(upper, p).value.USpecial?
      ensures exists c :: c in m.copied && c.src.USpecial?
    {
      assert Copied(UFind(upper, p).value, p) in m.copied;
    }
  }

  lemma DeletesReachable(m: Marks, m2: map<Path, Entry>)
    requires Tidy(m2)
    requires forall p :: p in m.dirs ==> Got(m2, p) == Some(Dir)
    requires forall w, k :: w in m.deleted && 0 < k < |w| ==> w[..k] in m.dirs
    ensures forall w :: w in m.deleted ==> Unlinked(m2, w)
  {
    forall w, k | w in m.deleted && 0 <= k < |w| && w[..k] in m2 ensures m2[w[..k]] == Dir {
      if k > 0 {
        assert w[..k] in m.dirs;
        assert Got(m2, w[..k]) == Some(Dir);
      }
    }
  }

  /** What a fold asks of its surroundings: a trusted marker written to the layer reads back, the base
      can be read, the kernel has erofs, the mount and the packer succeed. */
  datatype Surroundings = Surroundings(can: bool, baseRead: bool, erofs: bool, mounts: bool, packs: bool)

  /** fold. With the marker check on, a fold that goes through has built the overlay of the two
      layers. With the check off it has built that of a clean layer exactly when the markers could be
      read or hide nothing of the base; and of any layer, that of what it could read of it. */
  method FoldLayers(h: Host, lower: Node, ld: Data, upper: UNode, ud: Data, around: Surroundings, check: bool)
    returns (ok: bool)
    requires lower.NDir? && BaseNamesOk(lower) && NamesOk(upper)
    requires h.disk.inside == map[[] := Dir]
    modifies h
    ensures SameHost(old(h.disk), h.disk)
    ensures ok <==> && upper.UDir? && (check ==> around.can && Clean(upper))
                    && around.baseRead && around.erofs && around.mounts
                    && NoneSpecial(lower, lower.children.Keys) && NoSpecialAbove(upper) && around.packs
    ensures check ==>
              (ok <==> && upper.UDir?
                       && around == Surroundings(true, true, true, true, true)
                       && (forall p :: Look(lower, ld, p) != Some(Special))
                       && forall p, u :: Finds(upper, p, u) ==>
                            && (u.UDir? ==> !u.foreign && u.mark != Unreadable)
                            && (u.UFile? ==> !u.foreignFile)
                            && !u.USpecial?)
    ensures ok && check ==> Shows(h.disk.inside, lower, ld, upper, ud)
    ensures ok && Clean(upper) ==>
              (Shows(h.disk.inside, lower, ld, upper, ud) <==> around.can || !Loses(upper, false, lower))
    ensures ok ==> upper.UDir? && Unmarked(Seen(upper, around.can)).UDir?
                   && Shows(h.disk.inside, lower, ld, Unmarked(Seen(upper, around.can)), ud)
  {
    NothingRefused(lower, ld, upper);
    if !upper.UDir? || (!around.can && check) || !around.baseRead || !around.erofs || !around.mounts {
      return false;
    }
    var seen := Seen(upper, around.can);
    SeenKeeps(upper, around.can);
    var plan;
    ok, plan := PlanMerge(seen, check);
    if ok {
      ok := ApplyMerge(h, lower, ld, plan, seen, ud);
    }
    if ok {
      ShowsSeen(h.disk.inside, lower, ld, upper, ud, around.can);
      ok := around.packs;
    }
  }

  lemma NothingRefused(lower: Node, ld: Data, upper: UNode)
    requires lower.NDir?
    ensures NoneSpecial(lower, lower.children.Keys) <==> forall p :: Look(lower, ld, p) != Some(Special)
    ensures Clean(upper) && NoSpecialAbove(upper) <==>
              forall p, u :: Finds(upper, p, u) ==>
                && (u.UDir? ==> !u.foreign && u.mark != Unreadable)
                && (u.UFile? ==> !u.foreignFile)
                && !u.USpecial?
  {
    hide UFind;
    forall p | UFind(upper, p).Some? ensures Finds(upper, p, UFind(upper, p).value) {
    }
    forall p | Find(lower, p).Some? && p != [] ensures p[0] in lower.children {
    }
    forall p | Find(lower, p).Some? ensures Look(lower, ld, p) == Some(NodeEntry(Find(lower, p).value, ld)) {
    }
  }

  lemma ShowsSeen(m: map<Path, Entry>, lower: Node, ld: Data, upper: UNode, ud: Data, can: bool)
    requires upper.UDir? && Seen(upper, can).UDir? && Shows(m, lower, ld, Seen(upper, can), ud)
    ensures Unmarked(Seen(upper, can)).UDir? && Shows(m, lower, ld, Unmarked(Seen(upper, can)), ud)
    ensures Shows(m, lower, ld, upper, ud) <==> can || !Loses(upper, false, lower)
  {
    hide Overlaid, Loses, Hidden, Unmarked, Alike, ShowsView;
    var seen := Seen(upper, can);
    UnmarkedKind(seen);
    UnmarkedOverlaid(Some(lower), ld, seen, ud);
    HiddenIff(lower, ld, upper, ud);
    var v := Overlaid(Some(lower), ld, seen, ud);
    AlikeSwaps(Overlaid(Some(lower), ld, Unmarked(seen), ud), v);
    SameViews(m, v, Overlaid(Some(lower), ld, Unmarked(seen), ud));
    SameViews(m, v, Overlaid(Some(lower), ld, upper, ud));
    AlikeSwaps(v, v);
  }

  lemma AlikeSwaps(v: View, w: View)
    ensures Alike(v, w) ==> Alike(w, v)
    ensures Alike(v, v)
  {
  }

  lemma SameViews(m: map<Path, Entry>, v: View, w: View)
    requires ShowsView(m, v)
    ensures ShowsView(m, w) <==> Alike(v, w)
  {
    hide VLook, Got;
    if ShowsView(m, w) {
      forall p ensures VLook(v, p) == VLook(w, p) {
        assert Got(m, p) == VLook(w, p);
      }
    }
  }
}
