/** The two source trees of a fold and what an overlay mount of them shows. */
module Overlay {
  import opened HostFs
  import opened Prelude

  /** A file's inode number; `shared` says its link count is above one. */
  datatype Inode = Inode(number: nat, shared: bool)

  /** The base image. */
  datatype Node = NDir(children: map<Name, Node>) | NFile(inode: Inode) | NLink(target: Target) | NSpecial

  /** trusted.overlay.opaque as getxattr reports it. */
  datatype OpaqueMark = Absent | Yes | Unreadable

  /** The overlay's upper directory. `foreign` is a marker the fold does not implement. */
  datatype UNode =
    | UDir(mark: OpaqueMark, foreign: bool, entries: map<Name, UNode>)
    | UFile(foreignFile: bool, inode: Inode)
    | ULink(target: Target)
    | USpecial(foreignSpecial: bool)
    | Whiteout

  /** What each inode of a layer holds. */
  type Data = nat -> Content

  function NodeEntry(n: Node, data: Data): Entry {
    match n
    case NDir(_) => Dir
    case NFile(i) => File(data(i.number))
    case NLink(t) => Link(t)
    case NSpecial => Special
  }

  function Find(n: Node, p: Path): Option<Node>
    decreases |p|
  {
    if p == [] then Some(n)
    else if n.NDir? && p[0] in n.children then Find(n.children[p[0]], p[1..])
    else None
  }

  function UFind(u: UNode, p: Path): Option<UNode>
    decreases |p|
  {
    if p == [] then Some(u)
    else if u.UDir? && p[0] in u.entries then UFind(u.entries[p[0]], p[1..])
    else None
  }

  /** `v` stands at `p` in the layer. */
  predicate Finds(u: UNode, p: Path, v: UNode) {
    UFind(u, p) == Some(v)
  }

  function Look(n: Node, data: Data, p: Path): Option<Entry> {
    match Find(n, p)
    case Some(m) => Some(NodeEntry(m, data))
    case None => None
  }

  /** A merged tree, contents in place of inode numbers. */
  datatype View = VDir(names: map<Name, View>) | VLeaf(entry: Entry)

  function VLook(v: View, p: Path): Option<Entry>
    decreases |p|
  {
    match v
    case VDir(names) =>
      if p == [] then Some(Dir)
      else if p[0] in names then VLook(names[p[0]], p[1..])
      else None
    case VLeaf(e) => if p == [] then Some(e) else None
  }

  ghost predicate Alike(v: View, w: View) {
    forall p :: VLook(v, p) == VLook(w, p)
  }

  function FromBase(n: Node, data: Data): View {
    match n
    case NDir(ch) => VDir(map x | x in ch :: FromBase(ch[x], data))
    case _ => VLeaf(NodeEntry(n, data))
  }

  /** The overlay of `upper` on what the lower layer has at the same place: a whiteout hides
      it, a file or link covers it, an opaque directory starts empty, any other directory is
      merged with it. */
  function Overlaid(lower: Option<Node>, ld: Data, upper: UNode, ud: Data): View
    requires !upper.Whiteout?
    decreases upper
  {
    match upper
    case UFile(_, i) => VLeaf(File(ud(i.number)))
    case ULink(t) => VLeaf(Link(t))
    case USpecial(_) => VLeaf(Special)
    case UDir(mark, _, up) =>
      var low := if mark.Yes? || lower.None? || !lower.value.NDir? then map[] else lower.value.children;
      VDir(map x | x in low.Keys + up.Keys && !(x in up && up[x].Whiteout?) ::
             if x in up then Overlaid(if x in low then Some(low[x]) else None, ld, up[x], ud)
             else FromBase(low[x], ld))
  }

  lemma {:induction false} FromBaseLook(n: Node, data: Data, p: Path)
    ensures VLook(FromBase(n, data), p) == Look(n, data, p)
    decreases |p|
  {
    if n.NDir? && p != [] && p[0] in n.children {
      FromBaseLook(n.children[p[0]], data, p[1..]);
    }
  }

  /** What the upper layer decides about one path. */
  datatype Fate = Upper(entry: Entry) | Gone | Through

  function FateOf(u: UNode, ud: Data, hidden: bool, p: Path): Fate
    decreases |p|
  {
    match u
    case Whiteout => Gone
    case UFile(_, i) => if p == [] then Upper(File(ud(i.number))) else Gone
    case ULink(t) => if p == [] then Upper(Link(t)) else Gone
    case USpecial(_) => if p == [] then Upper(Special) else Gone
    case UDir(mark, _, up) =>
      if p == [] then Upper(Dir)
      else if p[0] in up then FateOf(up[p[0]], ud, hidden || mark.Yes?, p[1..])
      else if hidden || mark.Yes? then Gone
      else Through
  }

  function Settle(f: Fate, lower: Option<Entry>): Option<Entry> {
    match f
    case Upper(e) => Some(e)
    case Gone => None
    case Through => lower
  }

  function LookOpt(n: Option<Node>, data: Data, p: Path): Option<Entry> {
    if n.None? then None else Look(n.value, data, p)
  }

  /** The recursive view, path by path. */
  lemma {:induction false} OverlaidLook(lower: Option<Node>, ld: Data, upper: UNode, ud: Data, hidden: bool, p: Path)
    requires !upper.Whiteout?
    requires hidden ==> lower.None?
    ensures VLook(Overlaid(lower, ld, upper, ud), p)
         == Settle(FateOf(upper, ud, hidden, p), LookOpt(lower, ld, p))
    decreases |p|
  {
    if upper.UDir? && p != [] {
      var up := upper.entries;
      var low := if upper.mark.Yes? || lower.None? || !lower.value.NDir? then map[] else lower.value.children;
      var below := if p[0] in low then Some(low[p[0]]) else None;
      if p[0] in up {
        if !up[p[0]].Whiteout? {
          OverlaidLook(below, ld, up[p[0]], ud, hidden || upper.mark.Yes?, p[1..]);
          FateHidden(up[p[0]], ud, p[1..]);
        }
      } else if p[0] in low {
        FromBaseLook(low[p[0]], ld, p[1..]);
      }
    }
  }

  /** Nothing shows through where the lower layer is hidden. */
  lemma {:induction false} FateHidden(u: UNode, ud: Data, p: Path)
    ensures FateOf(u, ud, true, p) != Through
    decreases |p|
  {
    if u.UDir? && p != [] && p[0] in u.entries {
      FateHidden(u.entries[p[0]], ud, p[1..]);
    }
  }
}
