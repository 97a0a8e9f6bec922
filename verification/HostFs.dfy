/** The file system a fold runs on: one mutable tree of directories, files and symbolic
    links, with the kernel's path walk. `merged`, the directory the fold builds, is kept
    apart from everything else on the host, so that "no entry outside merged changed" is
    one equation. */
module HostFs {
  import opened Prelude

  type Name = string
  type Path = seq<Name>
  type Content = string

  /** The text of a symbolic link, split at its separators. */
  datatype Target = Target(absolute: bool, parts: seq<Name>)

  datatype Entry = Dir | File(content: Content) | Link(target: Target) | Special

  /** A place on the host: below (or at) `merged`, or anywhere else. */
  datatype Loc = In(rel: Path) | Out(abs: Path)

  /** How many symbolic links one path walk may follow. */
  const MAX_LINKS: nat := 40

  /** What listdir never returns. */
  predicate PlainName(n: Name) {
    n != "" && n != "." && n != ".."
  }

  predicate PlainPath(p: Path) {
    forall i :: 0 <= i < |p| ==> PlainName(p[i])
  }

  function Parent(p: Path): Path {
    if p == [] then [] else p[..|p| - 1]
  }

  /** `home` is where `merged` lies on the host. */
  datatype Disk = Disk(home: Path, outside: map<Path, Entry>, inside: map<Path, Entry>) {

    function Get(l: Loc): Option<Entry> {
      match l
      case In(p) => if p in inside then Some(inside[p]) else None
      case Out(p) => if p in outside then Some(outside[p]) else None
    }

    function Put(l: Loc, e: Entry): Disk {
      match l
      case In(p) => this.(inside := inside[p := e])
      case Out(p) => this.(outside := outside[p := e])
    }

    /** Removes `l` and everything below it. */
    function Drop(l: Loc): Disk {
      match l
      case In(p) => this.(inside := map q | q in inside && !(p <= q) :: inside[q])
      case Out(p) =>
        Disk(home,
             map q | q in outside && !(p <= q) :: outside[q],
             if p <= home then map[] else inside)
    }

    function Child(l: Loc, n: Name): Loc {
      match l
      case In(p) => In(p + [n])
      case Out(p) => if p + [n] == home then In([]) else Out(p + [n])
    }

    function Up(l: Loc): Loc {
      match l
      case In(p) => if p == [] then Out(Parent(home)) else In(Parent(p))
      case Out(p) => Out(Parent(p))
    }

    /** The names listdir returns for the directory at `l`. */
    function Names(l: Loc): set<Name> {
      match l
      case In(p) => set q | q in inside && |q| == |p| + 1 && p <= q :: q[|p|]
      case Out(p) =>
        (set q | q in outside && |q| == |p| + 1 && p <= q :: q[|p|])
        + (if home != [] && p == Parent(home) then {home[|home| - 1]} else {})
    }

    /** The kernel's path walk from the directory `at`. A link met before the last name is
        always followed; the last one only when `follow` says so. */
    function Walk(at: Loc, todo: seq<Name>, follow: bool, fuel: nat): Option<Loc>
      decreases fuel, |todo|
    {
      if todo == [] then Some(at)
      else if todo[0] == "" || todo[0] == "." then Walk(at, todo[1..], follow, fuel)
      else if todo[0] == ".." then Walk(Up(at), todo[1..], follow, fuel)
      else
        var here := Child(at, todo[0]);
        match Get(here)
        case Some(Dir) => Walk(here, todo[1..], follow, fuel)
        case Some(Link(t)) =>
          if |todo| == 1 && !follow then Some(here)
          else if fuel == 0 then None
          else Walk(if t.absolute then Out([]) else at, t.parts + todo[1..], follow, fuel - 1)
        case _ => if |todo| == 1 then Some(here) else None
    }

    /** Where `merged/rel` leads. */
    function At(rel: Path, follow: bool): Option<Loc> {
      Walk(In([]), rel, follow, MAX_LINKS)
    }

    /** What lstat (follow == false) or stat (follow == true) finds at `merged/rel`. */
    function Stat(rel: Path, follow: bool): Option<Entry> {
      match At(rel, follow)
      case Some(l) => Get(l)
      case None => None
    }
  }

  /** A tree as the kernel keeps it: the root is a directory and so is every parent. */
  ghost predicate Tidy(m: map<Path, Entry>) {
    && [] in m && m[[]] == Dir
    && (forall p :: p in m ==> PlainPath(p))
    && (forall p :: p in m && p != [] ==> Parent(p) in m && m[Parent(p)] == Dir)
  }

  /** Every proper ancestor of `rel` in `merged` is a directory or absent: no symbolic link
      can divert a walk to `rel`. */
  ghost predicate Unlinked(m: map<Path, Entry>, rel: Path) {
    forall k :: 0 <= k < |rel| && rel[..k] in m ==> m[rel[..k]] == Dir
  }

  /** No proper ancestor of `rel` is a symbolic link. */
  ghost predicate NoLinkAbove(m: map<Path, Entry>, rel: Path) {
    forall k :: 0 <= k < |rel| && rel[..k] in m ==> !m[rel[..k]].Link?
  }

  ghost predicate Reachable(m: map<Path, Entry>, rel: Path) {
    forall k :: 0 <= k < |rel| ==> rel[..k] in m && m[rel[..k]] == Dir
  }

  lemma {:induction false} TidyAncestors(m: map<Path, Entry>, p: Path, k: nat)
    requires Tidy(m) && p in m && k < |p|
    ensures p[..k] in m && m[p[..k]] == Dir
    decreases |p|
  {
    assert Parent(p) == p[..|p| - 1];
    if k < |p| - 1 {
      TidyAncestors(m, Parent(p), k);
      assert Parent(p)[..k] == p[..k];
    }
  }

  lemma TidyReachable(m: map<Path, Entry>, p: Path)
    requires Tidy(m) && p in m
    ensures Reachable(m, p)
  {
    forall k | 0 <= k < |p| ensures p[..k] in m && m[p[..k]] == Dir {
      TidyAncestors(m, p, k);
    }
  }

  /** With no link above it, a path leads to its own literal place or nowhere. */
  lemma WalkIsLiteral(d: Disk, rel: Path, follow: bool)
    requires Tidy(d.inside) && PlainPath(rel) && NoLinkAbove(d.inside, rel)
    requires follow ==> !(rel in d.inside && d.inside[rel].Link?)
    ensures d.At(rel, follow) == if Reachable(d.inside, rel) then Some(In(rel)) else None
  {
    assert rel[..0] == [] && rel[0..] == rel;
    if rel != [] {
      WalkFrom(d, rel, 0, follow, MAX_LINKS);
    }
  }

  /** One plain name: into a directory, onto the last component, or nowhere. */
  lemma WalkStep(d: Disk, p: Path, todo: seq<Name>, follow: bool, fuel: nat)
    requires todo != [] && PlainName(todo[0])
    ensures
      var here := p + [todo[0]];
      var e := d.Get(In(here));
      && (e == Some(Dir) ==>
            d.Walk(In(p), todo, follow, fuel) == d.Walk(In(here), todo[1..], follow, fuel))
      && (e != Some(Dir) && !(e.Some? && e.value.Link?) ==>
            d.Walk(In(p), todo, follow, fuel) == if |todo| == 1 then Some(In(here)) else None)
      && (e.Some? && e.value.Link? && |todo| == 1 && !follow ==>
            d.Walk(In(p), todo, follow, fuel) == Some(In(here)))
  {
  }

  lemma WalkDone(d: Disk, at: Loc, follow: bool, fuel: nat)
    ensures d.Walk(at, [], follow, fuel) == Some(at)
  {
  }

  lemma PlainAt(rel: Path, k: nat)
    requires PlainPath(rel) && k < |rel|
    ensures PlainName(rel[k])
  {
  }

  /** The first `k` prefixes of `rel` are directories. */
  ghost predicate DirsTo(m: map<Path, Entry>, rel: Path, k: nat)
    requires k <= |rel|
  {
    forall j :: 0 <= j < k ==> rel[..j] in m && m[rel[..j]] == Dir
  }

  lemma DirsMore(m: map<Path, Entry>, rel: Path, k: nat)
    requires k < |rel|
    ensures DirsTo(m, rel, k + 1) <==> DirsTo(m, rel, k) && rel[..k] in m && m[rel[..k]] == Dir
    ensures Reachable(m, rel) ==> DirsTo(m, rel, k + 1)
    ensures Reachable(m, rel) <==> DirsTo(m, rel, |rel|)
  {
  }

  lemma NotALink(m: map<Path, Entry>, rel: Path, k: nat)
    requires NoLinkAbove(m, rel) && k < |rel|
    ensures rel[..k] in m ==> !m[rel[..k]].Link?
  {
  }

  lemma {:induction false} WalkFrom(d: Disk, rel: Path, k: nat, follow: bool, fuel: nat)
    requires PlainPath(rel) && NoLinkAbove(d.inside, rel)
    requires k < |rel| && DirsTo(d.inside, rel, k + 1)
    requires follow ==> !(rel in d.inside && d.inside[rel].Link?)
    ensures d.Walk(In(rel[..k]), rel[k..], follow, fuel)
         == if Reachable(d.inside, rel) then Some(In(rel)) else None
    decreases |rel| - k
  {
    hide Disk.Walk, PlainPath, NoLinkAbove, Reachable, DirsTo;
    PlainAt(rel, k);
    var here := rel[..k] + [rel[k]];
    assert here == rel[..k + 1];
    assert rel[k..][1..] == rel[k + 1..];
    WalkStep(d, rel[..k], rel[k..], follow, fuel);
    DirsMore(d.inside, rel, k);
    if k + 1 == |rel| {
      assert here == rel && rel[k + 1..] == [];
      WalkDone(d, In(here), follow, fuel);
    } else {
      DirsMore(d.inside, rel, k + 1);
      NotALink(d.inside, rel, k + 1);
      if here in d.inside && d.inside[here].Dir? {
        WalkFrom(d, rel, k + 1, follow, fuel);
      }
    }
  }

  /** The tree `m` without `rel` and what lies below it. */
  function Without(m: map<Path, Entry>, rel: Path): map<Path, Entry> {
    map q | q in m && !(rel <= q) :: m[q]
  }

  lemma WithoutTidy(m: map<Path, Entry>, rel: Path)
    requires Tidy(m) && rel != []
    ensures Tidy(Without(m, rel))
    ensures rel !in m ==> Without(m, rel) == m
  {
    forall p | p in Without(m, rel) && p != [] ensures Parent(p) in Without(m, rel) {
      assert Parent(p) <= p;
    }
    if rel !in m {
      forall p | p in m ensures p in Without(m, rel) {
        assert rel <= p ==> p[..|rel|] == rel;
        assert rel <= p && |rel| == |p| ==> rel == p;
        if rel <= p && |rel| < |p| {
          TidyAncestors(m, p, |rel|);
        }
      }
    }
  }

  /** The host as the fold's Python sees it: one method for each library call it makes. */
  class Host {
    var disk: Disk

    constructor (d: Disk)
      ensures disk == d
    {
      disk := d;
    }

    predicate LExists(rel: Path)
      reads this
    {
      disk.Stat(rel, false).Some?
    }

    predicate IsLink(rel: Path)
      reads this
    {
      disk.Stat(rel, false).Some? && disk.Stat(rel, false).value.Link?
    }

    predicate IsFile(rel: Path)
      reads this
    {
      disk.Stat(rel, true).Some? && disk.Stat(rel, true).value.File?
    }

    predicate IsDir(rel: Path)
      reads this
    {
      disk.Stat(rel, true) == Some(Dir)
    }

    function ListDir(rel: Path): set<Name>
      reads this
    {
      match disk.At(rel, true)
      case Some(l) => disk.Names(l)
      case None => {}
    }

    method Unlink(rel: Path)
      modifies this
      ensures disk == if IsUnlinkable(old(disk), rel) then old(disk).Drop(old(disk).At(rel, false).value)
                      else old(disk)
    {
      if IsUnlinkable(disk, rel) {
        disk := disk.Drop(disk.At(rel, false).value);
      }
    }

    static predicate IsUnlinkable(d: Disk, rel: Path) {
      d.Stat(rel, false).Some? && !d.Stat(rel, false).value.Dir?
    }

    /** shutil.rmtree(path, ignore_errors=True): refuses a symbolic link, never follows one. */
    method RmTree(rel: Path)
      modifies this
      ensures disk == if old(disk).Stat(rel, false) == Some(Dir)
                      then old(disk).Drop(old(disk).At(rel, false).value) else old(disk)
    {
      if disk.Stat(rel, false) == Some(Dir) {
        disk := disk.Drop(disk.At(rel, false).value);
      }
    }

    method Mkdir(rel: Path) returns (ok: bool)
      modifies this
      ensures ok == (old(disk).At(rel, false).Some? && old(disk).Stat(rel, false).None?)
      ensures disk == if ok then old(disk).Put(old(disk).At(rel, false).value, Dir) else old(disk)
    {
      ok := disk.At(rel, false).Some? && disk.Stat(rel, false).None?;
      if ok {
        disk := disk.Put(disk.At(rel, false).value, Dir);
      }
    }

    method Symlink(t: Target, rel: Path) returns (ok: bool)
      modifies this
      ensures ok == (old(disk).At(rel, false).Some? && old(disk).Stat(rel, false).None?)
      ensures disk == if ok then old(disk).Put(old(disk).At(rel, false).value, Link(t)) else old(disk)
    {
      ok := disk.At(rel, false).Some? && disk.Stat(rel, false).None?;
      if ok {
        disk := disk.Put(disk.At(rel, false).value, Link(t));
      }
    }

    /** open(path, "wb") and the bytes written: an existing link at `rel` is followed. */
    method WriteFile(rel: Path, content: Content) returns (ok: bool)
      modifies this
      ensures ok == (old(disk).At(rel, true).Some?
                     && (old(disk).Stat(rel, true).Some? ==> old(disk).Stat(rel, true).value.File?))
      ensures disk == if ok then old(disk).Put(old(disk).At(rel, true).value, File(content)) else old(disk)
    {
      ok := disk.At(rel, true).Some?
            && (disk.Stat(rel, true).Some? ==> disk.Stat(rel, true).value.File?);
      if ok {
        disk := disk.Put(disk.At(rel, true).value, File(content));
      }
    }

    /** os.link(src, dst). */
    method HardLink(src: Path, dst: Path) returns (ok: bool)
      modifies this
      ensures ok == (old(disk).Stat(src, false).Some? && old(disk).Stat(src, false).value.File?
                     && old(disk).At(dst, false).Some? && old(disk).Stat(dst, false).None?)
      ensures disk == if ok then old(disk).Put(old(disk).At(dst, false).value, old(disk).Stat(src, false).value)
                      else old(disk)
    {
      ok := disk.Stat(src, false).Some? && disk.Stat(src, false).value.File?
            && disk.At(dst, false).Some? && disk.Stat(dst, false).None?;
      if ok {
        disk := disk.Put(disk.At(dst, false).value, disk.Stat(src, false).value);
      }
    }
  }
}
