/** bakery/fold.py: the modes apply_merge notes while it copies, and its last loop, which applies them.
    Nothing reads a note before that loop, so the notes are taken here after the copying, step by step
    in a pass of their own. */
module Modes {
  import opened HostFs
  import opened Prelude
  import opened Overlay
  import opened Fold
  import opened ApplyMerge

  /** Permission bits. */
  type Mode = nat

  /** The dictionary `modes`, path by path; None cancels what was noted before. */
  type Notes = map<Path, Option<Mode>>

  class ModeBook {
    var notes: Notes

    constructor ()
      ensures notes == map[]
    {
      notes := map[];
    }

    method Note(p: Path, mode: Option<Mode>)
      modifies this
      ensures notes == old(notes)[p := mode]
    {
      notes := notes[p := mode];
    }
  }

  /** The mode that the last loop would give to `p`. */
  function Due(notes: Notes, p: Path): Option<Mode> {
    if p in notes then notes[p] else None
  }

  /* Step 1: the base. */

  /** What is noted for a base entry: a link has no mode, and of the names of a shared inode only the
      first, the one `links` remembers, is noted. */
  function BaseDue(e: Option<Node>, p: Path, mode: Mode, links: map<nat, Path>): Option<Mode> {
    match e
    case Some(NDir(_)) => Some(mode)
    case Some(NFile(i)) =>
      if i.shared && (i.number !in links || links[i.number] != p) then None else Some(mode)
    case _ => None
  }

  /** The inode of a shared file has been met. */
  predicate Met(e: Option<Node>, links: map<nat, Path>) {
    e.Some? && e.value.NFile? && e.value.inode.shared ==> e.value.inode.number in links
  }

  /** Every new entry of the dictionary is a name of its inode. */
  ghost predicate NamesFile(e: Option<Node>, number: nat) {
    e.Some? && e.value.NFile? && e.value.inode.shared && e.value.inode.number == number
  }

  ghost predicate NamesAt(n: Node, here: Path, names: set<Name>, p: Path, number: nat) {
    Via(here, names, p) && NamesFile(Find(n, p[|here|..]), number)
  }

  ghost predicate NamesBelow(n: Node, here: Path, p: Path, number: nat) {
    Prefix(here, p) && NamesFile(Find(n, p[|here|..]), number)
  }

  ghost predicate Extends(links: map<nat, Path>, links': map<nat, Path>) {
    forall i :: i in links ==> i in links' && links'[i] == links[i]
  }

  /** At `p`, `notes` is `start` with the part of `n` reached through `names` noted. */
  ghost predicate ToldAt(start: Notes, n: Node, bits: Path -> Mode, rel: Path, names: set<Name>,
                         links: map<nat, Path>, notes: Notes, p: Path) {
    if Via(rel, names, p) && Find(n, p[|rel|..]).Some? then
      Due(notes, p) == BaseDue(Find(n, p[|rel|..]), p, bits(p), links) && Met(Find(n, p[|rel|..]), links)
    else
      Due(notes, p) == Due(start, p)
  }

  ghost predicate Told(start: Notes, n: Node, bits: Path -> Mode, rel: Path, names: set<Name>,
                       links: map<nat, Path>, notes: Notes) {
    forall p :: ToldAt(start, n, bits, rel, names, links, notes, p)
  }

  /** The same for all of `n` at `here`. */
  ghost predicate NameToldAt(start: Notes, n: Node, bits: Path -> Mode, here: Path, links: map<nat, Path>,
                             notes: Notes, p: Path) {
    if Prefix(here, p) && Find(n, p[|here|..]).Some? then
      Due(notes, p) == BaseDue(Find(n, p[|here|..]), p, bits(p), links) && Met(Find(n, p[|here|..]), links)
    else
      Due(notes, p) == Due(start, p)
  }

  /** Nothing at or below `here` has been noted or copied. */
  ghost predicate Untold(notes: Notes, links: map<nat, Path>, here: Path) {
    && (forall p :: Prefix(here, p) ==> Due(notes, p) == None)
    && (forall i :: i in links ==> !Prefix(here, links[i]))
  }

  /** Nothing below `rel` by way of `names` has. */
  ghost predicate UntoldVia(notes: Notes, links: map<nat, Path>, rel: Path, names: set<Name>) {
    && (forall p :: Via(rel, names, p) ==> Due(notes, p) == None)
    && (forall i :: i in links ==> !Via(rel, names, links[i]))
  }

  /** One directory of the base and all below it, names in any order. */
  method NoteTree(book: ModeBook, n: Node, rel: Path, bits: Path -> Mode, links: map<nat, Path>)
    returns (links': map<nat, Path>)
    requires n.NDir? && UntoldVia(book.notes, links, rel, n.children.Keys)
    modifies book
    ensures Told(old(book.notes), n, bits, rel, n.children.Keys, links', book.notes)
    ensures Extends(links, links')
    ensures forall i :: i in links' && i !in links ==> NamesAt(n, rel, n.children.Keys, links'[i], i)
    decreases n, 0
  {
    hide Told, UntoldVia, Untold, Extends, NamesFile, Via;
    var todo := n.children.Keys;
    ghost var start, done := book.notes, {};
    links' := links;
    NoneTold(start, n, bits, rel, links);
    while todo != {}
      invariant todo + done == n.children.Keys && todo !! done
      invariant Told(start, n, bits, rel, done, links', book.notes)
      invariant UntoldVia(book.notes, links', rel, todo)
      invariant Extends(links, links')
      invariant forall i :: i in links' && i !in links ==> NamesAt(n, rel, done, links'[i], i)
    {
      var name :| name in todo;
      ghost var before, met := book.notes, links';
      UntoldName(before, met, rel, todo, name);
      links' := NoteName(book, n.children[name], rel + [name], bits, links');
      ToldMore(start, n, bits, rel, done, met, before, name, links', book.notes);
      UntoldRest(before, met, n.children[name], bits, rel, todo, name, links', book.notes);
      MetMore(links, met, links', n, rel, done, name);
      todo, done := todo - {name}, done + {name};
    }
    assert done == n.children.Keys;
  }

  lemma NoneTold(start: Notes, n: Node, bits: Path -> Mode, rel: Path, links: map<nat, Path>)
    ensures Told(start, n, bits, rel, {}, links, start) && Extends(links, links)
  {
  }

  lemma UntoldName(notes: Notes, links: map<nat, Path>, rel: Path, todo: set<Name>, name: Name)
    requires UntoldVia(notes, links, rel, todo) && name in todo
    ensures Untold(notes, links, rel + [name])
  {
    forall p | Prefix(rel + [name], p) ensures Via(rel, todo, p) {
      BelowName(rel, name, p);
    }
  }

  lemma BelowName(rel: Path, name: Name, p: Path)
    ensures Prefix(rel + [name], p) <==> Via(rel, {name}, p)
  {
    var here := rel + [name];
    if here <= p {
      assert here[|rel|] == p[|rel|] == name;
      assert rel == here[..|rel|] == p[..|rel|];
    }
    if Via(rel, {name}, p) {
      assert p[..|here|] == here;
    }
  }

  lemma ToldMore(start: Notes, n: Node, bits: Path -> Mode, rel: Path, done: set<Name>, links: map<nat, Path>,
                 notes: Notes, name: Name, links': map<nat, Path>, notes': Notes)
    requires n.NDir? && name in n.children && name !in done && Extends(links, links')
    requires Told(start, n, bits, rel, done, links, notes)
    requires forall p :: NameToldAt(notes, n.children[name], bits, rel + [name], links', notes', p)
    ensures Told(start, n, bits, rel, done + {name}, links', notes')
  {
    forall p ensures ToldAt(start, n, bits, rel, done + {name}, links', notes', p) {
      assert ToldAt(start, n, bits, rel, done, links, notes, p);
      assert NameToldAt(notes, n.children[name], bits, rel + [name], links', notes', p);
      BaseChild(n, rel, done, name, p);
    }
  }

  lemma UntoldRest(notes: Notes, links: map<nat, Path>, child: Node, bits: Path -> Mode, rel: Path, todo: set<Name>,
                   name: Name, links': map<nat, Path>, notes': Notes)
    requires UntoldVia(notes, links, rel, todo) && Extends(links, links')
    requires forall p :: NameToldAt(notes, child, bits, rel + [name], links', notes', p)
    requires forall i :: i in links' && i !in links ==> Prefix(rel + [name], links'[i])
    ensures UntoldVia(notes', links', rel, todo - {name})
  {
    forall p | Via(rel, todo - {name}, p) ensures Due(notes', p) == None {
      assert NameToldAt(notes, child, bits, rel + [name], links', notes', p);
      BelowName(rel, name, p);
    }
    forall i | i in links' ensures !Via(rel, todo - {name}, links'[i]) {
      BelowName(rel, name, links'[i]);
    }
  }

  lemma MetMore(links0: map<nat, Path>, links: map<nat, Path>, links': map<nat, Path>, n: Node, rel: Path,
                done: set<Name>, name: Name)
    requires n.NDir? && name in n.children && Extends(links0, links) && Extends(links, links')
    requires forall i :: i in links && i !in links0 ==> NamesAt(n, rel, done, links[i], i)
    requires forall i :: i in links' && i !in links ==> NamesBelow(n.children[name], rel + [name], links'[i], i)
    ensures Extends(links0, links')
    ensures forall i :: i in links' && i !in links0 ==> NamesAt(n, rel, done + {name}, links'[i], i)
  {
    hide NamesFile;
    forall i | i in links' && i !in links0 ensures NamesAt(n, rel, done + {name}, links'[i], i) {
      if i !in links {
        NameBelow(n, rel, name, links'[i], i);
      }
    }
  }

  lemma NameBelow(n: Node, rel: Path, name: Name, p: Path, number: nat)
    requires n.NDir? && name in n.children && NamesBelow(n.children[name], rel + [name], p, number)
    ensures NamesAt(n, rel, {name}, p, number)
  {
    hide NamesFile;
    BelowName(rel, name, p);
    assert p[|rel|..][0] == name && p[|rel|..][1..] == p[|rel + [name]|..];
  }

  /** One name of the base. */
  method NoteName(book: ModeBook, child: Node, here: Path, bits: Path -> Mode, links: map<nat, Path>)
    returns (links': map<nat, Path>)
    requires Untold(book.notes, links, here)
    modifies book
    ensures forall p :: NameToldAt(old(book.notes), child, bits, here, links', book.notes, p)
    ensures Extends(links, links')
    ensures forall i :: i in links' && i !in links ==> NamesBelow(child, here, links'[i], i)
    decreases child, 1
  {
    links' := links;
    ghost var start := book.notes;
    match child
    case NDir(_) =>
      book.Note(here, Some(bits(here)));
      BelowUntold(start, links, here, child.children.Keys, bits(here));
      links' := NoteTree(book, child, here, bits, links);
      DirTold(start, child, bits, here, links', book.notes);
    case NFile(inode) =>
      if !(inode.shared && inode.number in links) {
        book.Note(here, Some(bits(here)));
        if inode.shared {
          links' := links[inode.number := here];
        }
      }
      LeafTold(start, child, bits, here, links, links', book.notes);
    case NLink(_) =>
      book.Note(here, None);
      LeafTold(start, child, bits, here, links, links', book.notes);
    case NSpecial =>
      LeafTold(start, child, bits, here, links, links', book.notes);
  }

  lemma BelowUntold(start: Notes, links: map<nat, Path>, here: Path, names: set<Name>, mode: Mode)
    requires Untold(start, links, here)
    ensures UntoldVia(start[here := Some(mode)], links, here, names)
  {
    forall p | Via(here, names, p) ensures Prefix(here, p) && p != here {
    }
  }

  lemma DirTold(start: Notes, child: Node, bits: Path -> Mode, here: Path, links: map<nat, Path>, notes: Notes)
    requires child.NDir?
    requires Told(start[here := Some(bits(here))], child, bits, here, child.children.Keys, links, notes)
    ensures forall p :: NameToldAt(start, child, bits, here, links, notes, p)
  {
    var mid := start[here := Some(bits(here))];
    forall p ensures NameToldAt(start, child, bits, here, links, notes, p) {
      assert ToldAt(mid, child, bits, here, child.children.Keys, links, notes, p);
      if Prefix(here, p) {
        assert |p| == |here| ==> p == here;
        assert |p| > |here| ==> p[|here|..][0] == p[|here|];
        assert p == here ==> p[|here|..] == [];
      } else {
        assert p != here;
      }
    }
  }

  /** What `_copy_entry` notes for anything but a directory. */
  lemma LeafTold(start: Notes, child: Node, bits: Path -> Mode, here: Path, links: map<nat, Path>,
                 links': map<nat, Path>, notes: Notes)
    requires Untold(start, links, here) && !child.NDir?
    requires child.NFile? && !(child.inode.shared && child.inode.number in links) ==>
               notes == start[here := Some(bits(here))]
               && links' == if child.inode.shared then links[child.inode.number := here] else links
    requires child.NFile? && child.inode.shared && child.inode.number in links ==> notes == start && links' == links
    requires child.NLink? ==> notes == start[here := None] && links' == links
    requires child.NSpecial? ==> notes == start && links' == links
    ensures forall p :: NameToldAt(start, child, bits, here, links', notes, p)
  {
    forall p ensures NameToldAt(start, child, bits, here, links', notes, p) {
      assert Prefix(here, here);
      if Prefix(here, p) {
        assert |p| == |here| ==> p == here;
        assert p == here ==> p[|here|..] == [];
      }
    }
  }

  /* The layer. */

  /** _reconcile_dirs. */
  method NoteDirs(book: ModeBook, dirs: seq<Path>, bits: Path -> Mode)
    modifies book
    ensures forall p :: Due(book.notes, p) == if p in dirs then Some(bits(p)) else Due(old(book.notes), p)
  {
    for i := 0 to |dirs|
      invariant forall p :: Due(book.notes, p) == if p in dirs[..i] then Some(bits(p)) else Due(old(book.notes), p)
    {
      book.Note(dirs[i], Some(bits(dirs[i])));
      assert dirs[..i + 1] == dirs[..i] + [dirs[i]];
    }
    assert dirs[..|dirs|] == dirs;
  }

  /** The file copied at `k` has a second name, and none of its names was copied before. */
  predicate IsFirst(copied: seq<Copied>, k: nat)
    requires k < |copied|
  {
    var src := copied[k].src;
    && src.UFile? && src.inode.shared
    && forall j :: 0 <= j < k && copied[j].src.UFile? && copied[j].src.inode.shared ==>
         copied[j].src.inode.number != src.inode.number
  }

  /** The first names of the copied files that have a second one. */
  ghost predicate FirstsOf(copied: seq<Copied>, links: map<nat, Path>) {
    forall k: nat :: k < |copied| && IsFirst(copied, k) ==>
      copied[k].src.inode.number in links && links[copied[k].src.inode.number] == copied[k].rel
  }

  /** What is noted for an entry copied to `p`: a link cancels, a file has its mode noted unless `p` is a
      later name of a shared inode. */
  predicate CopiedDue(src: UNode, p: Path, mode: Mode, before: Option<Mode>, due: Option<Mode>,
                      links: map<nat, Path>) {
    match src
    case ULink(_) => due == None
    case UFile(_, i) => due == if i.shared && (i.number !in links || links[i.number] != p) then before else Some(mode)
    case _ => due == before
  }

  /** The same for the copied entry `c`. */
  ghost predicate CopyNoted(was: Notes, notes: Notes, c: Copied, bits: Path -> Mode, links: map<nat, Path>) {
    CopiedDue(c.src, c.rel, bits(c.rel), Due(was, c.rel), Due(notes, c.rel), links)
  }

  /** The dictionary of step 4b after the first `n` entries. */
  ghost predicate Linked(copied: seq<Copied>, n: nat, links: map<nat, Path>)
    requires n <= |copied|
  {
    && (forall k :: 0 <= k < n && copied[k].src.UFile? && copied[k].src.inode.shared ==>
          copied[k].src.inode.number in links)
    && (forall i :: i in links ==> exists k: nat :: k < n && FirstIs(copied, k, i, links[i]))
  }

  predicate FirstIs(copied: seq<Copied>, k: nat, number: nat, p: Path)
    requires k < |copied|
  {
    IsFirst(copied, k) && copied[k].src.inode.number == number && copied[k].rel == p
  }

  /** What the dictionary is after entry `n`. */
  function LinksAfter(c: Copied, links: map<nat, Path>): map<nat, Path> {
    if c.src.UFile? && c.src.inode.shared && c.src.inode.number !in links then links[c.src.inode.number := c.rel]
    else links
  }

  lemma LinkedMore(copied: seq<Copied>, n: nat, links: map<nat, Path>)
    requires n < |copied| && Linked(copied, n, links)
    ensures Linked(copied, n + 1, LinksAfter(copied[n], links))
  {
    var links' := LinksAfter(copied[n], links);
    forall i | i in links' ensures exists k: nat :: k < n + 1 && FirstIs(copied, k, i, links'[i]) {
      if i in links {
        var k: nat :| k < n && FirstIs(copied, k, i, links[i]);
        assert FirstIs(copied, k, i, links'[i]);
      } else {
        assert FirstIs(copied, n, i, links'[i]);
      }
    }
  }

  /** A note already taken is not changed by the next entry. */
  lemma NotedStays(copied: seq<Copied>, n: nat, j: nat, links: map<nat, Path>, was: Notes, notes: Notes,
                   notes': Notes, bits: Path -> Mode)
    requires j < n < |copied| && Linked(copied, n, links) && copied[j].rel != copied[n].rel
    requires CopyNoted(was, notes, copied[j], bits, links) && Due(notes', copied[j].rel) == Due(notes, copied[j].rel)
    ensures CopyNoted(was, notes', copied[j], bits, LinksAfter(copied[n], links))
  {
  }

  lemma NoneLinked(copied: seq<Copied>)
    ensures Linked(copied, 0, map[])
  {
  }

  /** One entry, as the loop notes it. */
  lemma Noted(copied: seq<Copied>, n: nat, links: map<nat, Path>, was: Notes, notes: Notes, notes': Notes,
              bits: Path -> Mode)
    requires n < |copied| && Linked(copied, n, links) && forall j :: 0 <= j < n ==> copied[j].rel != copied[n].rel
    requires var c := copied[n];
             Due(notes, c.rel) == Due(was, c.rel)
             && Due(notes', c.rel) ==
                match c.src
                case ULink(_) => None
                case UFile(_, inode) =>
                  if inode.shared && inode.number in links then Due(notes, c.rel) else Some(bits(c.rel))
                case _ => Due(notes, c.rel)
    ensures CopyNoted(was, notes', copied[n], bits, LinksAfter(copied[n], links))
  {
    forall i | i in links ensures links[i] != copied[n].rel {
      var k: nat :| k < n && FirstIs(copied, k, i, links[i]);
    }
  }

  lemma LinkedFirsts(copied: seq<Copied>, links: map<nat, Path>)
    requires Linked(copied, |copied|, links)
    ensures FirstsOf(copied, links)
  {
    forall k: nat | k < |copied| && IsFirst(copied, k)
      ensures copied[k].src.inode.number in links && links[copied[k].src.inode.number] == copied[k].rel
    {
      var i := copied[k].src.inode.number;
      var j: nat :| j < |copied| && FirstIs(copied, j, i, links[i]);
      assert j == k;
    }
  }

  /** Step 4b. */
  method NoteCopied(book: ModeBook, copied: seq<Copied>, bits: Path -> Mode) returns (links: map<nat, Path>)
    requires forall i, j :: 0 <= i < j < |copied| ==> copied[i].rel != copied[j].rel
    modifies book
    ensures FirstsOf(copied, links)
    ensures forall c :: c in copied ==> CopyNoted(old(book.notes), book.notes, c, bits, links)
    ensures forall p :: p !in Rels(copied) ==> Due(book.notes, p) == Due(old(book.notes), p)
  {
    hide Linked, CopyNoted, FirstsOf;
    links := map[];
    NoneLinked(copied);
    for i := 0 to |copied|
      invariant Linked(copied, i, links)
      invariant forall j :: 0 <= j < i ==> CopyNoted(old(book.notes), book.notes, copied[j], bits, links)
      invariant forall p :: (forall j :: 0 <= j < i ==> copied[j].rel != p) ==>
                  Due(book.notes, p) == Due(old(book.notes), p)
    {
      var c := copied[i];
      ghost var before, met := book.notes, links;
      match c.src {
        case ULink(_) => book.Note(c.rel, None);
        case UFile(_, inode) =>
          if !(inode.shared && inode.number in links) {
            book.Note(c.rel, Some(bits(c.rel)));
            if inode.shared {
              links := links[inode.number := c.rel];
            }
          }
        case _ =>
      }
      LinkedMore(copied, i, met);
      Noted(copied, i, met, old(book.notes), before, book.notes, bits);
      forall j | 0 <= j < i ensures CopyNoted(old(book.notes), book.notes, copied[j], bits, links) {
        NotedStays(copied, i, j, met, old(book.notes), before, book.notes, bits);
      }
    }
    LinkedFirsts(copied, links);
    forall p | p !in Rels(copied) ensures Due(book.notes, p) == Due(old(book.notes), p) {
      forall j | 0 <= j < |copied| ensures copied[j].rel != p {
        assert copied[j] in copied;
      }
    }
  }

  /** The dictionaries of steps 1 and 4b: for the number of a shared inode, the name it was copied under. */
  datatype Firsts = Firsts(base: map<nat, Path>, copied: map<nat, Path>)

  /** Every shared file of the base has one of its names in the one, and every shared file of the layer
      the first of its names in the other. */
  ghost predicate FirstNames(links: Firsts, lower: Node, copied: seq<Copied>) {
    && (forall p :: Met(Find(lower, p), links.base))
    && (forall i :: i in links.base ==> NamesFile(Find(lower, links.base[i]), i))
    && FirstsOf(copied, links.copied)
  }

  /** The note of a path once all steps are done. */
  ghost predicate NoteIs(notes: Notes, lower: Node, lm: Path -> Mode, upper: UNode, um: Path -> Mode,
                         links: Firsts, p: Path) {
    var base := BaseDue(Find(lower, p), p, lm(p), links.base);
    match UFind(upper, p)
    case Some(UDir(_, _, _)) => Due(notes, p) == Some(um(p))
    case Some(Whiteout) => Due(notes, p) == base
    case Some(src) => CopiedDue(src, p, um(p), base, Due(notes, p), links.copied)
    case None => Due(notes, p) == base
  }

  /** All the notes of apply_merge, in its order. */
  method NoteAll(lower: Node, lm: Path -> Mode, plan: MergePlan, ghost upper: UNode, um: Path -> Mode)
    returns (book: ModeBook, ghost links: Firsts)
    requires lower.NDir? && upper.UDir? && PlanOf(plan.Value(), upper)
    ensures fresh(book) && FirstNames(links, lower, plan.copied)
    ensures forall p :: NoteIs(book.notes, lower, lm, upper, um, links, p)
  {
    book := new ModeBook();
    book.Note([], Some(lm([])));
    ghost var n0 := book.notes;
    var base := NoteTree(book, lower, [], lm, map[]);
    ghost var n1 := book.notes;
    NoteDirs(book, plan.dirs, um);
    NoteDirs(book, plan.dirs, um);
    ghost var n2 := book.notes;
    book.Note([], Some(um([])));
    ghost var n3 := book.notes;
    var copied := NoteCopied(book, plan.copied, um);
    links := Firsts(base, copied);
    BaseFirsts(lower, lm, base, n0, n1);
    AllNoted(lower, lm, plan.Value(), upper, um, links, n0, n1, n2, n3, book.notes);
  }

  lemma AllNoted(lower: Node, lm: Path -> Mode, m: Marks, upper: UNode, um: Path -> Mode, links: Firsts,
                 n0: Notes, n1: Notes, n2: Notes, n3: Notes, n4: Notes)
    requires lower.NDir? && upper.UDir? && PlanOf(m, upper) && n0 == map[[] := Some(lm([]))]
    requires Told(n0, lower, lm, [], lower.children.Keys, links.base, n1)
    requires forall p :: Due(n2, p) == if p in m.dirs then Some(um(p)) else Due(n1, p)
    requires n3 == n2[[] := Some(um([]))]
    requires forall c :: c in m.copied ==> CopyNoted(n3, n4, c, um, links.copied)
    requires forall p :: p !in Rels(m.copied) ==> Due(n4, p) == Due(n3, p)
    ensures forall p :: NoteIs(n4, lower, lm, upper, um, links, p)
  {
    hide Told;
    forall p ensures NoteIs(n4, lower, lm, upper, um, links, p) {
      RootTold(n0, lower, lm, links, n1, p);
      var found := UFind(upper, p);
      if IsLeaf(found) {
        assert Copied(found.value, p) in m.copied;
      } else {
        NotCopied(m, upper, p);
      }
    }
  }

  lemma RootTold(start: Notes, lower: Node, lm: Path -> Mode, links: Firsts, notes: Notes, p: Path)
    requires lower.NDir? && start == map[[] := Some(lm([]))]
    requires Told(start, lower, lm, [], lower.children.Keys, links.base, notes)
    ensures p != [] ==> Due(notes, p) == BaseDue(Find(lower, p), p, lm(p), links.base)
  {
    var root: Path := [];
    assert p[|root|..] == p;
    assert ToldAt(start, lower, lm, root, lower.children.Keys, links.base, notes, p);
  }

  lemma BaseFirsts(lower: Node, lm: Path -> Mode, links: map<nat, Path>, start: Notes, notes: Notes)
    requires lower.NDir? && Told(start, lower, lm, [], lower.children.Keys, links, notes)
    requires forall i :: i in links ==> NamesAt(lower, [], lower.children.Keys, links[i], i)
    ensures forall p :: Met(Find(lower, p), links)
    ensures forall i :: i in links ==> NamesFile(Find(lower, links[i]), i)
  {
    var root: Path := [];
    forall p ensures Met(Find(lower, p), links) {
      assert p[|root|..] == p;
      assert ToldAt(start, lower, lm, root, lower.children.Keys, links, notes, p);
    }
    forall i | i in links ensures NamesFile(Find(lower, links[i]), i) {
      assert links[i][|root|..] == links[i];
    }
  }

  /* The last loop. */

  /** A chmod: the path given, the place it leads to, and the mode. */
  datatype Chmod = Chmod(path: Path, at: Loc, mode: Mode)

  /** os.path.exists, and not os.path.islink. */
  predicate Resolves(d: Disk, p: Path) {
    d.Stat(p, true).Some? && !(d.Stat(p, false).Some? && d.Stat(p, false).value.Link?)
  }

  predicate IsCall(d: Disk, notes: Notes, c: Chmod) {
    Due(notes, c.path) == Some(c.mode) && Resolves(d, c.path) && d.At(c.path, true) == Some(c.at)
  }

  /** The chmods of the last loop, in whatever order the notes come. */
  method LastLoop(h: Host, book: ModeBook) returns (calls: seq<Chmod>)
    ensures forall c :: c in calls <==> IsCall(h.disk, book.notes, c)
  {
    hide Resolves;
    calls := [];
    var todo := book.notes.Keys;
    while todo != {}
      invariant todo <= book.notes.Keys
      invariant forall c :: c in calls <==> c.path !in todo && IsCall(h.disk, book.notes, c)
    {
      var p :| p in todo;
      todo := todo - {p};
      ghost var before := calls;
      var mode := book.notes[p];
      if mode.Some? && Resolves(h.disk, p) {
        ResolvesSomewhere(h.disk, p);
        calls := calls + [Chmod(p, h.disk.At(p, true).value, mode.value)];
      }
    }
  }

  lemma ResolvesSomewhere(d: Disk, p: Path)
    requires Resolves(d, p)
    ensures d.At(p, true).Some? && d.Get(d.At(p, true).value).Some?
  {
  }

  /* Where the chmods land. */

  /** The layer has put a link where the base has a directory. */
  predicate Swapped(lower: Node, upper: UNode, q: Path) {
    && Find(lower, q).Some? && Find(lower, q).value.NDir?
    && UFind(upper, q).Some? && UFind(upper, q).value.ULink?
  }

  /** Step 1 has noted the mode of a base entry, the layer has put a link where the base has a
      directory above it, and through that link its path leads to something that is not a link. */
  ghost predicate Strays(d: Disk, lower: Node, upper: UNode, links: Firsts, p: Path) {
    && BaseDue(Find(lower, p), p, 0, links.base).Some?
    && (exists k :: 0 < k < |p| && Swapped(lower, upper, p[..k]))
    && Resolves(d, p)
  }

  /** The finished tree and the notes. */
  ghost predicate Finished(d: Disk, lower: Node, ld: Data, lm: Path -> Mode, upper: UNode, ud: Data,
                           um: Path -> Mode, links: Firsts, notes: Notes) {
    && lower.NDir? && BaseNamesOk(lower) && upper.UDir? && NamesOk(upper)
    && Tidy(d.inside) && Shows(d.inside, lower, ld, upper, ud)
    && forall p :: NoteIs(notes, lower, lm, upper, um, links, p)
  }

  lemma {:induction false} BaseAncestor(n: Node, p: Path, k: nat)
    requires Find(n, p).Some? && k < |p|
    ensures Find(n, p[..k]).Some? && Find(n, p[..k]).value.NDir?
    decreases |p|
  {
    if k > 0 {
      BaseAncestor(n.children[p[0]], p[1..], k - 1);
      assert p[..k][1..] == p[1..][..k - 1];
    }
  }

  /** What stands at `p` in the finished tree. */
  lemma ShownAt(m: map<Path, Entry>, lower: Node, ld: Data, upper: UNode, ud: Data, p: Path)
    requires upper.UDir? && Shows(m, lower, ld, upper, ud)
    ensures UFind(upper, p).Some? && !UFind(upper, p).value.Whiteout? ==>
              Got(m, p) == Some(UEntry(UFind(upper, p).value, ud))
    ensures UFind(upper, p) == Some(Whiteout) ==> Got(m, p) == None
    ensures UFind(upper, p) == None ==> Got(m, p) == None || Got(m, p) == Look(lower, ld, p)
  {
    hide VLook, Overlaid, FateOf, Blocked;
    OverlaidLook(Some(lower), ld, upper, ud, false, p);
    FateFromFind(upper, ud, false, p);
  }

  /** Above an entry whose mode is due there is no link, but where the layer has swapped one in. */
  lemma LinkIsSwapped(d: Disk, lower: Node, ld: Data, lm: Path -> Mode, upper: UNode, ud: Data, um: Path -> Mode,
                      links: Firsts, notes: Notes, p: Path, k: nat)
    requires Finished(d, lower, ld, lm, upper, ud, um, links, notes)
    requires Due(notes, p).Some? && k < |p| && LinkAt(d.inside, p[..k])
    ensures k > 0 && Swapped(lower, upper, p[..k]) && UFind(upper, p) == None
    ensures BaseDue(Find(lower, p), p, 0, links.base).Some?
  {
    hide VLook, Overlaid, PlainPath;
    var q := p[..k];
    assert k == 0 ==> q == [];
    ShownAt(d.inside, lower, ld, upper, ud, q);
    assert NoteIs(notes, lower, lm, upper, um, links, p);
    if UFind(upper, p).Some? {
      FindAncestor(upper, p, k);
    } else {
      BaseAncestor(lower, p, k);
    }
  }

  /** Every chmod lands on its own path, but for the entries that stray. */
  lemma CallStays(d: Disk, lower: Node, ld: Data, lm: Path -> Mode, upper: UNode, ud: Data, um: Path -> Mode,
                  links: Firsts, notes: Notes, c: Chmod)
    requires Finished(d, lower, ld, lm, upper, ud, um, links, notes)
    requires IsCall(d, notes, c) && !Strays(d, lower, upper, links, c.path)
    ensures c.at == In(c.path)
  {
    var p := c.path;
    forall k | 0 <= k < |p| && p[..k] in d.inside ensures !d.inside[p[..k]].Link? {
      if LinkAt(d.inside, p[..k]) {
        LinkIsSwapped(d, lower, ld, lm, upper, ud, um, links, notes, p, k);
      }
    }
    NotedIsPlain(lower, lm, upper, um, links, notes, p);
    StraightAt(d, p);
  }

  lemma NotedIsPlain(lower: Node, lm: Path -> Mode, upper: UNode, um: Path -> Mode, links: Firsts,
                     notes: Notes, p: Path)
    requires BaseNamesOk(lower) && NamesOk(upper) && NoteIs(notes, lower, lm, upper, um, links, p)
    requires Due(notes, p).Some?
    ensures PlainPath(p)
  {
    hide PlainPath;
    assert UFind(upper, p).Some? || Find(lower, p).Some?;
  }

  lemma StraightAt(d: Disk, p: Path)
    requires Tidy(d.inside) && PlainPath(p) && NoLinkAbove(d.inside, p) && Resolves(d, p)
    ensures d.At(p, true) == Some(In(p))
  {
    WalkIsLiteral(d, p, false);
    if LinkAt(d.inside, p) {
      TidyReachable(d.inside, p);
      assert false;
    }
    WalkIsLiteral(d, p, true);
  }

  /** And each of those is given a mode somewhere else. */
  lemma StrayIsCalled(d: Disk, lower: Node, ld: Data, lm: Path -> Mode, upper: UNode, ud: Data, um: Path -> Mode,
                      links: Firsts, notes: Notes, p: Path) returns (c: Chmod)
    requires Finished(d, lower, ld, lm, upper, ud, um, links, notes) && Strays(d, lower, upper, links, p)
    ensures IsCall(d, notes, c) && c.path == p && c.at != In(p)
  {
    hide Finished, VLook, Overlaid;
    ResolvesSomewhere(d, p);
    var k :| 0 < k < |p| && Swapped(lower, upper, p[..k]);
    var q := p[..k];
    FinishedMeans(d, lower, ld, lm, upper, ud, um, links, notes, p);
    if UFind(upper, p).Some? {
      FindAncestor(upper, p, k);
    }
    c := Chmod(p, d.At(p, true).value, Due(notes, p).value);
    ShownAt(d.inside, lower, ld, upper, ud, q);
    if c.at == In(p) {
      TidyAncestors(d.inside, p, k);
    }
  }

  lemma FinishedMeans(d: Disk, lower: Node, ld: Data, lm: Path -> Mode, upper: UNode, ud: Data, um: Path -> Mode,
                      links: Firsts, notes: Notes, p: Path)
    requires Finished(d, lower, ld, lm, upper, ud, um, links, notes)
    ensures upper.UDir? && Tidy(d.inside) && Shows(d.inside, lower, ld, upper, ud)
    ensures NoteIs(notes, lower, lm, upper, um, links, p)
  {
  }

  /* What the modes come to. */

  /** The mode the last of the calls gives to `l`. */
  function LastMode(calls: seq<Chmod>, l: Loc): Option<Mode> {
    if calls == [] then None
    else if calls[|calls| - 1].at == l then Some(calls[|calls| - 1].mode)
    else LastMode(calls[..|calls| - 1], l)
  }

  lemma {:induction false} LastModeIs(calls: seq<Chmod>, l: Loc, mode: Mode)
    requires forall c :: c in calls && c.at == l ==> c.mode == mode
    ensures (exists c :: c in calls && c.at == l) ==> LastMode(calls, l) == Some(mode)
    ensures (forall c :: c in calls ==> c.at != l) ==> LastMode(calls, l) == None
  {
    if calls != [] {
      var n := |calls| - 1;
      LastModeIs(calls[..n], l, mode);
      assert calls == calls[..n] + [calls[n]];
    }
  }

  /** No file of either layer has a second name. */
  ghost predicate Unshared(lower: Node, upper: UNode) {
    && (forall p :: Find(lower, p).Some? && Find(lower, p).value.NFile? ==> !Find(lower, p).value.inode.shared)
    && (forall p :: UFind(upper, p).Some? && UFind(upper, p).value.UFile? ==> !UFind(upper, p).value.inode.shared)
  }

  /** The mode the overlay shows: of the layer where it has an entry, of the base elsewhere. */
  function ViewMode(lower: Node, lm: Path -> Mode, upper: UNode, um: Path -> Mode, p: Path): Mode {
    if UFind(upper, p).Some? then um(p) else lm(p)
  }

  /** The calls give `p`, if it is a directory or file, its mode in the overlay, and a link none. */
  ghost predicate ModeShown(d: Disk, lower: Node, lm: Path -> Mode, upper: UNode, um: Path -> Mode,
                            calls: seq<Chmod>, p: Path) {
    LastMode(calls, In(p)) ==
      if p in d.inside && !d.inside[p].Link? then Some(ViewMode(lower, lm, upper, um, p)) else None
  }

  lemma ShownIsDue(d: Disk, lower: Node, ld: Data, lm: Path -> Mode, upper: UNode, ud: Data, um: Path -> Mode,
                   links: Firsts, notes: Notes, p: Path)
    requires Finished(d, lower, ld, lm, upper, ud, um, links, notes)
    requires Unshared(lower, upper) && NoSpecials(d.inside) && p in d.inside && !d.inside[p].Link?
    ensures Due(notes, p) == Some(ViewMode(lower, lm, upper, um, p))
  {
    hide VLook, Overlaid, PlainPath;
    FinishedMeans(d, lower, ld, lm, upper, ud, um, links, notes, p);
    ShownAt(d.inside, lower, ld, upper, ud, p);
    assert Got(d.inside, p) == Some(d.inside[p]);
  }

  lemma ModesShown(d: Disk, lower: Node, ld: Data, lm: Path -> Mode, upper: UNode, ud: Data, um: Path -> Mode,
                   links: Firsts, notes: Notes, calls: seq<Chmod>, p: Path)
    requires Finished(d, lower, ld, lm, upper, ud, um, links, notes)
    requires Unshared(lower, upper) && NoSpecials(d.inside)
    requires forall c :: c in calls <==> IsCall(d, notes, c)
    requires forall q :: !Strays(d, lower, upper, links, q)
    ensures ModeShown(d, lower, lm, upper, um, calls, p)
  {
    hide Finished, Strays, Unshared, Resolves;
    forall c | c in calls ensures c.at == In(c.path) {
      CallStays(d, lower, ld, lm, upper, ud, um, links, notes, c);
    }
    FinishedMeans(d, lower, ld, lm, upper, ud, um, links, notes, p);
    if p in d.inside && !d.inside[p].Link? {
      ShownIsDue(d, lower, ld, lm, upper, ud, um, links, notes, p);
      PlainResolves(d, p);
      var c := Chmod(p, In(p), ViewMode(lower, lm, upper, um, p));
      assert IsCall(d, notes, c);
      LastModeIs(calls, In(p), c.mode);
    } else {
      AwayResolvesNot(d, p);
      LastModeIs(calls, In(p), 0);
    }
  }

  lemma PlainResolves(d: Disk, p: Path)
    requires Tidy(d.inside) && p in d.inside && !d.inside[p].Link?
    ensures Resolves(d, p) && d.At(p, true) == Some(In(p))
  {
    TidyReachable(d.inside, p);
    WalkIsLiteral(d, p, true);
    WalkIsLiteral(d, p, false);
  }

  lemma AwayResolvesNot(d: Disk, p: Path)
    requires Tidy(d.inside) && (p !in d.inside || d.inside[p].Link?)
    ensures !(Resolves(d, p) && d.At(p, true) == Some(In(p)))
  {
    if p in d.inside {
      TidyReachable(d.inside, p);
      WalkIsLiteral(d, p, false);
    }
  }

  /* The whole of apply_merge. */

  ghost predicate StraysOut(d: Disk, lower: Node, upper: UNode, links: Firsts, p: Path) {
    Strays(d, lower, upper, links, p) && d.At(p, true).Some? && d.At(p, true).value.Out?
  }

  /** Each chmod lands on its own path if and only if nothing strays, and each lands in `merged` if and
      only if nothing strays out of it. */
  lemma LandingIff(d: Disk, lower: Node, ld: Data, lm: Path -> Mode, upper: UNode, ud: Data, um: Path -> Mode,
                   links: Firsts, notes: Notes, calls: seq<Chmod>)
    requires Finished(d, lower, ld, lm, upper, ud, um, links, notes)
    requires forall c :: c in calls <==> IsCall(d, notes, c)
    ensures (forall c :: c in calls ==> c.at == In(c.path)) <==> (forall p :: !Strays(d, lower, upper, links, p))
    ensures (forall c :: c in calls ==> c.at.In?) <==> (forall p :: !StraysOut(d, lower, upper, links, p))
  {
    hide Finished, Strays, StraysOut, IsCall;
    forall c | c in calls
      ensures c.at != In(c.path) ==> Strays(d, lower, upper, links, c.path)
      ensures c.at.Out? ==> StraysOut(d, lower, upper, links, c.path)
    {
      CallStrays(d, lower, ld, lm, upper, ud, um, links, notes, c);
    }
    forall p | Strays(d, lower, upper, links, p) ensures exists c :: c in calls && c.at != In(c.path) {
      var c := StrayIsCalled(d, lower, ld, lm, upper, ud, um, links, notes, p);
    }
    forall p | StraysOut(d, lower, upper, links, p) ensures exists c :: c in calls && !c.at.In? {
      OutStrays(d, lower, upper, links, p);
      var c := StrayIsCalled(d, lower, ld, lm, upper, ud, um, links, notes, p);
      CallLeads(d, notes, c);
    }
  }

  lemma CallLeads(d: Disk, notes: Notes, c: Chmod)
    requires IsCall(d, notes, c)
    ensures d.At(c.path, true) == Some(c.at)
  {
  }

  lemma OutStrays(d: Disk, lower: Node, upper: UNode, links: Firsts, p: Path)
    requires StraysOut(d, lower, upper, links, p)
    ensures Strays(d, lower, upper, links, p) && d.At(p, true).Some? && d.At(p, true).value.Out?
  {
  }

  lemma CallStrays(d: Disk, lower: Node, ld: Data, lm: Path -> Mode, upper: UNode, ud: Data, um: Path -> Mode,
                   links: Firsts, notes: Notes, c: Chmod)
    requires Finished(d, lower, ld, lm, upper, ud, um, links, notes) && IsCall(d, notes, c)
    ensures c.at != In(c.path) ==> Strays(d, lower, upper, links, c.path)
    ensures c.at.Out? ==> StraysOut(d, lower, upper, links, c.path)
  {
    hide Finished, Strays, Resolves;
    if !Strays(d, lower, upper, links, c.path) {
      CallStays(d, lower, ld, lm, upper, ud, um, links, notes, c);
    }
  }

  /** apply_merge, modes and all, into a fresh directory. No entry outside `merged` is created, removed,
      retyped or rewritten; and no mode outside it is set exactly when no base entry strays out. Where
      no file has a second name and nothing strays at all, the modes are those of the overlay. */
  method ApplyMergeModes(h: Host, lower: Node, ld: Data, lm: Path -> Mode, plan: MergePlan, ghost upper: UNode,
                         ud: Data, um: Path -> Mode)
    returns (ok: bool, calls: seq<Chmod>, ghost links: Firsts, ghost notes: Notes)
    requires lower.NDir? && BaseNamesOk(lower) && upper.UDir? && NamesOk(upper)
    requires PlanOf(plan.Value(), upper)
    requires h.disk.inside == map[[] := Dir]
    modifies h
    ensures SameHost(old(h.disk), h.disk)
    ensures ok <==> NoneSpecial(lower, lower.children.Keys) && NoSpecialAbove(upper)
    ensures ok ==> Shows(h.disk.inside, lower, ld, upper, ud)
    ensures !ok ==> calls == []
    ensures ok ==> FirstNames(links, lower, plan.copied) && forall p :: NoteIs(notes, lower, lm, upper, um, links, p)
    ensures ok ==> forall c :: c in calls <==> IsCall(h.disk, notes, c)
    ensures ok ==> ((forall c :: c in calls ==> c.at.In?)
                    <==> forall p :: !StraysOut(h.disk, lower, upper, links, p))
    ensures ok ==> ((forall c :: c in calls ==> c.at == In(c.path))
                    <==> forall p :: !Strays(h.disk, lower, upper, links, p))
    ensures ok && Unshared(lower, upper) && (forall p :: !Strays(h.disk, lower, upper, links, p)) ==>
              forall p :: ModeShown(h.disk, lower, lm, upper, um, calls, p)
  {
    hide Shows, Strays, Unshared, ModeShown, PlanOf, NoteIs, FirstNames, IsCall;
    calls, links, notes := [], Firsts(map[], map[]), map[];
    ok := ApplyMerge.ApplyMerge(h, lower, ld, plan, upper, ud);
    if !ok {
      return;
    }
    var book;
    book, links := NoteAll(lower, lm, plan, upper, um);
    notes := book.notes;
    calls := LastLoop(h, book);
    LandingIff(h.disk, lower, ld, lm, upper, ud, um, links, notes, calls);
    if Unshared(lower, upper) && forall p :: !Strays(h.disk, lower, upper, links, p) {
      forall p ensures ModeShown(h.disk, lower, lm, upper, um, calls, p) {
        ModesShown(h.disk, lower, ld, lm, upper, ud, um, links, notes, calls, p);
      }
    }
  }

  /** The finished tree, and so what strays, is decided by the layers and the host before the fold. */
  lemma FinishIsOne(d: Disk, e: Disk, lower: Node, ld: Data, upper: UNode, ud: Data)
    requires upper.UDir? && SameHost(d, e)
    requires Shows(d.inside, lower, ld, upper, ud) && Shows(e.inside, lower, ld, upper, ud)
    ensures d == e
  {
    hide VLook, Overlaid, Got;
    forall p ensures Got(d.inside, p) == Got(e.inside, p) {
      assert Got(d.inside, p) == VLook(Overlaid(Some(lower), ld, upper, ud), p);
    }
    SameMap(d.inside, e.inside);
  }

  const NESTED: Node := NDir(map["d" := NDir(map["f" := NFile(Inode(0, false))])])
  const LINKING: UNode := UDir(Absent, false, map["d" := ULink(Target(true, ["host"]))])
  const LINKED: Disk := Disk(["tmp"], map[[] := Dir, ["host"] := Dir, ["host", "f"] := File("")],
                             map[[] := Dir, ["d"] := Link(Target(true, ["host"]))])

  /** A base directory `d` with a file `f`, a layer that makes `d` a link to a directory of the host with
      an `f` of its own: the note of d/f leads there. */
  lemma NestedStraysOut(data: Data)
    ensures Shows(LINKED.inside, NESTED, data, LINKING, data)
    ensures StraysOut(LINKED, NESTED, LINKING, Firsts(map[], map[]), ["d", "f"])
    ensures LINKED.At(["d", "f"], true) == Some(Out(["host", "f"]))
  {
    var p: Path := ["d", "f"];
    assert p[..1] == ["d"] && p[1..] == ["f"] && p[1..][1..] == [];
    NestedLeads();
    assert Find(NESTED, p) == Some(NFile(Inode(0, false)));
    assert UFind(LINKING, ["d"]) == Some(ULink(Target(true, ["host"])));
    assert Swapped(NESTED, LINKING, p[..1]);
    forall q ensures Got(LINKED.inside, q) == VLook(Overlaid(Some(NESTED), data, LINKING, data), q) {
      LinkingShows(data, q);
    }
  }

  lemma LinkingShows(data: Data, q: Path)
    ensures Got(LINKED.inside, q) == VLook(Overlaid(Some(NESTED), data, LINKING, data), q)
  {
    var v := Overlaid(Some(NESTED), data, LINKING, data);
    assert v == VDir(map["d" := VLeaf(Link(Target(true, ["host"])))]);
    assert q != [] && q[0] == "d" && q[1..] == [] ==> q == ["d"];
  }

  /** The walk, by way of the link. */
  lemma NestedLeads()
    ensures LINKED.At(["d", "f"], true) == Some(Out(["host", "f"]))
    ensures LINKED.At(["d", "f"], false) == Some(Out(["host", "f"]))
    ensures Resolves(LINKED, ["d", "f"])
  {
    var d := LINKED;
    assert ["d", "f"][1..] == ["f"] && ["host"] + ["f"] == ["host", "f"] && ["host", "f"][1..] == ["f"];
    assert PlainName("d") && PlainName("f") && PlainName("host");
    assert d.Child(In([]), "d") == In(["d"]);
    assert |"host"| != |"tmp"| && ["host"][0] != d.home[0];
    assert [] + ["host"] == ["host"] && ["host"] + ["f"] == ["host", "f"] && |["host", "f"]| != |d.home|;
    assert d.Child(Out([]), "host") == Out(["host"]) && d.Child(Out(["host"]), "f") == Out(["host", "f"]);
    forall follow ensures d.At(["d", "f"], follow) == Some(Out(["host", "f"])) {
      assert d.Walk(Out(["host"]), ["f"], follow, 39) == Some(Out(["host", "f"]));
      assert d.Walk(Out([]), ["host", "f"], follow, 39) == Some(Out(["host", "f"]));
    }
  }
}
