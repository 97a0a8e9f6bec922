/** store.c: nw_store_put, any number of calls at once, one system call at a time. */
module Store {
  import opened Bytes
  import opened Prelude

  const CHUNK: nat := 4096

  datatype Name = Final(digest: Bytes, suffix: Bytes) | Tmp(id: nat) | Other(id: nat)

  /** One call. `digest` is the hash of `data`. */
  datatype Call = Call(data: Bytes, digest: Bytes, suffix: Bytes) {
    function Path(): Name { Final(digest, suffix) }
  }

  /** The next system call of one caller. */
  datatype Pc =
    | Stat
    | OpenCheck
    | Read(ino: nat, pos: nat)
    | CloseCheck(matches: bool)
    | Mkostemp
    | Write(tmp: Name, ino: nat)
    | CloseTmp(tmp: Name, ino: nat, whole: bool)
    | Rename(tmp: Name, ino: nat)
    | Unlink(tmp: Name)
    | Done(code: int)

  /** The directory and the files' contents, and where each caller stands. */
  datatype State = State(names: map<Name, nat>, inodes: map<nat, Bytes>, pcs: seq<Pc>)

  /** What the kernel answers: success, an error, `n` bytes, or the name and inode it made up. */
  datatype Answer = Ok | Err | Amount(n: nat) | Made(id: nat, ino: nat)

  /** Every name leads to a file. */
  predicate Linked(s: State) {
    forall n :: n in s.names ==> s.names[n] in s.inodes
  }

  function Min(a: nat, b: nat): nat { if a < b then a else b }

  /** One read of the compare loop. */
  function ReadOne(c: Call, file: Bytes, ino: nat, pos: nat, got: nat): Pc
    requires pos < |c.data|
  {
    var want := Min(|c.data| - pos, CHUNK);
    if got != want || pos + got > |file| || file[pos..pos + got] != c.data[pos..pos + got] then CloseCheck(false)
    else if pos + want == |c.data| then CloseCheck(true)
    else Read(ino, pos + want)
  }

  /** The whole state once caller `i` has made its next call and been answered `a`; None when the kernel cannot answer
      so. */
  function Next(calls: seq<Call>, s: State, i: nat, a: Answer): Option<State>
    requires i < |calls| == |s.pcs| && Linked(s)
  {
    var c := calls[i];
    match s.pcs[i]
    case Stat =>
      if a == Err then Some(s.(pcs := s.pcs[i := Done(-1)]))
      else if c.Path() !in s.names then Some(s.(pcs := s.pcs[i := Mkostemp]))
      else if |s.inodes[s.names[c.Path()]]| == |c.data| then Some(s.(pcs := s.pcs[i := OpenCheck]))
      else Some(s.(pcs := s.pcs[i := Mkostemp]))
    case OpenCheck =>
      if a == Err || c.Path() !in s.names then Some(s.(pcs := s.pcs[i := Mkostemp]))
      else Some(s.(pcs := s.pcs[i := if c.data == [] then CloseCheck(true) else Read(s.names[c.Path()], 0)]))
    case Read(ino, pos) =>
      if a == Err then Some(s.(pcs := s.pcs[i := CloseCheck(false)]))
      else if a.Amount? && ino in s.inodes && pos < |c.data| && pos + a.n <= |s.inodes[ino]| then
        Some(s.(pcs := s.pcs[i := ReadOne(c, s.inodes[ino], ino, pos, a.n)]))
      else None
    case CloseCheck(matches) => Some(s.(pcs := s.pcs[i := if matches then Done(0) else Mkostemp]))
    case Mkostemp =>
      if a == Err then Some(s.(pcs := s.pcs[i := Done(-1)]))
      else if a.Made? && Tmp(a.id) !in s.names && a.ino !in s.inodes then
        Some(State(s.names[Tmp(a.id) := a.ino], s.inodes[a.ino := []], s.pcs[i := Write(Tmp(a.id), a.ino)]))
      else None
    case Write(tmp, ino) =>
      if a == Err then Some(s.(pcs := s.pcs[i := CloseTmp(tmp, ino, false)]))
      else if a.Amount? && a.n <= |c.data| then
        Some(s.(inodes := s.inodes[ino := c.data[..a.n]], pcs := s.pcs[i := CloseTmp(tmp, ino, a.n == |c.data|)]))
      else None
    case CloseTmp(tmp, ino, whole) => Some(s.(pcs := s.pcs[i := if whole then Rename(tmp, ino) else Unlink(tmp)]))
    case Rename(tmp, ino) =>
      if a == Err || tmp !in s.names then Some(s.(pcs := s.pcs[i := Unlink(tmp)]))
      else Some(s.(names := (s.names - {tmp})[c.Path() := s.names[tmp]], pcs := s.pcs[i := Done(1)]))
    case Unlink(tmp) => Some(s.(names := s.names - {tmp}, pcs := s.pcs[i := Done(-1)]))
    case Done(_) => None
  }

  /** nw_store_content_matches, when every read is answered in full: the file begins with the data. A longer file also
      does, so it is the size that nw_store_put has compared before that makes it equal. */
  method ContentMatches(file: Bytes, data: Bytes) returns (ok: bool)
    ensures ok <==> |data| <= |file| && file[..|data|] == data
    ensures |file| == |data| ==> (ok <==> file == data)
  {
    var p := 0;
    assert |file| == |data| ==> file[..|data|] == file;
    while p < |data|
      invariant p <= |data| && p <= |file| && file[..p] == data[..p]
    {
      var want := Min(|data| - p, CHUNK);
      var r := Min(want, |file| - p);
      if r != want {
        return false;
      }
      if file[p..p + want] != data[p..p + want] {
        assert file[p..p + want] == file[..p + want][p..] && data[p..p + want] == data[..p + want][p..];
        assert |data| <= |file| ==> file[..p + want] == file[..|data|][..p + want];
        assert data[..p + want] == data[..|data|][..p + want];
        return false;
      }
      assert file[..p + want] == file[..p] + file[p..p + want];
      assert data[..p + want] == data[..p] + data[p..p + want];
      p := p + want;
    }
    return true;
  }

  /* What every call keeps. */

  /** The temporary name a caller has to itself. */
  function TmpOf(pc: Pc): Option<Name> {
    if pc.Write? || pc.CloseTmp? || pc.Rename? || pc.Unlink? then Some(pc.tmp) else None
  }

  /** The file only it can reach. */
  function OwnIno(pc: Pc): Option<nat> {
    if pc.Write? || pc.CloseTmp? || pc.Rename? then Some(pc.ino) else None
  }

  function ReadIno(pc: Pc): Option<nat> {
    if pc.Read? then Some(pc.ino) else None
  }

  /** The file at `n` holds exactly `data`. */
  ghost predicate Contains(s: State, n: Name, data: Bytes) {
    n in s.names && s.names[n] in s.inodes && s.inodes[s.names[n]] == data
  }

  /** The caller's own file: reached by its temporary name alone, and whole once it is to be renamed. */
  ghost predicate OwnerOk(s: State, c: Call, tmp: Name, ino: nat, whole: bool) {
    && tmp in s.names && s.names[tmp] == ino && ino in s.inodes
    && (forall n :: n in s.names && s.names[n] == ino ==> n == tmp)
    && (whole ==> s.inodes[ino] == c.data)
  }

  ghost predicate CallerOk(s: State, c: Call, pc: Pc) {
    && (TmpOf(pc).Some? ==> TmpOf(pc).value.Tmp?)
    && match pc
       case Stat => true
       case OpenCheck =>
          c.Path() in s.names && s.names[c.Path()] in s.inodes && |s.inodes[s.names[c.Path()]]| == |c.data|
       case Read(ino, pos) =>
         && ino in s.inodes && |s.inodes[ino]| == |c.data| && pos < |c.data| && s.inodes[ino][..pos] == c.data[..pos]
         && c.Path() in s.names && (s.names[c.Path()] == ino || Contains(s, c.Path(), c.data))
       case CloseCheck(matches) => matches ==> Contains(s, c.Path(), c.data)
       case Mkostemp => true
       case Write(tmp, ino) => OwnerOk(s, c, tmp, ino, false)
       case CloseTmp(tmp, ino, whole) => OwnerOk(s, c, tmp, ino, whole)
       case Rename(tmp, ino) => OwnerOk(s, c, tmp, ino, true)
       case Unlink(tmp) => tmp in s.names
       case Done(code) => code >= 0 ==> Contains(s, c.Path(), c.data)
  }

  /** Two callers do not touch each other's temporary name or file, nor read it. */
  ghost predicate Apart(p: Pc, q: Pc) {
    && (TmpOf(p).Some? ==> TmpOf(p) != TmpOf(q))
    && (OwnIno(p).Some? ==> OwnIno(p) != OwnIno(q) && OwnIno(p) != ReadIno(q))
    && (OwnIno(q).Some? ==> OwnIno(q) != ReadIno(p))
  }

  /** No two of the buffers collide. */
  ghost predicate NoCollision(calls: seq<Call>) {
    forall i, j :: 0 <= i < |calls| && 0 <= j < |calls| && calls[i].digest == calls[j].digest ==>
      calls[i].data == calls[j].data
  }

  ghost predicate Inv(calls: seq<Call>, s: State) {
    && |s.pcs| == |calls| && Linked(s)
    && (forall i :: 0 <= i < |calls| ==> CallerOk(s, calls[i], s.pcs[i]))
    && (forall i, j :: 0 <= i < j < |calls| ==> Apart(s.pcs[i], s.pcs[j]))
  }

  /** A caller's own next state is in order. */
  lemma OwnStep(calls: seq<Call>, s: State, i: nat, a: Answer)
    requires i < |calls| == |s.pcs| && Linked(s) && CallerOk(s, calls[i], s.pcs[i]) && Next(calls, s, i, a).Some?
    ensures var t := Next(calls, s, i, a).value; |t.pcs| == |calls| && CallerOk(t, calls[i], t.pcs[i])
  {
    hide Next, CallerOk, Linked;
    if Checking(s.pcs[i]) {
      OwnCheck(calls, s, i, a);
    } else if s.pcs[i].Mkostemp? || s.pcs[i].Write? {
      OwnWrite(calls, s, i, a);
    } else {
      OwnEnd(calls, s, i, a);
    }
  }

  predicate Checking(pc: Pc) {
    pc.Stat? || pc.OpenCheck? || pc.Read? || pc.CloseCheck?
  }

  lemma OwnCheck(calls: seq<Call>, s: State, i: nat, a: Answer)
    requires i < |calls| == |s.pcs| && Linked(s) && CallerOk(s, calls[i], s.pcs[i]) && Next(calls, s, i, a).Some?
    requires Checking(s.pcs[i])
    ensures var t := Next(calls, s, i, a).value; |t.pcs| == |calls| && CallerOk(t, calls[i], t.pcs[i])
  {
  }

  lemma OwnWrite(calls: seq<Call>, s: State, i: nat, a: Answer)
    requires i < |calls| == |s.pcs| && Linked(s) && CallerOk(s, calls[i], s.pcs[i]) && Next(calls, s, i, a).Some?
    requires s.pcs[i].Mkostemp? || s.pcs[i].Write?
    ensures var t := Next(calls, s, i, a).value; |t.pcs| == |calls| && CallerOk(t, calls[i], t.pcs[i])
  {
  }

  lemma OwnEnd(calls: seq<Call>, s: State, i: nat, a: Answer)
    requires i < |calls| == |s.pcs| && Linked(s) && CallerOk(s, calls[i], s.pcs[i]) && Next(calls, s, i, a).Some?
    requires s.pcs[i].CloseTmp? || s.pcs[i].Rename? || s.pcs[i].Unlink? || s.pcs[i].Done?
    ensures var t := Next(calls, s, i, a).value; |t.pcs| == |calls| && CallerOk(t, calls[i], t.pcs[i])
  {
  }

  lemma LinkedStep(calls: seq<Call>, s: State, i: nat, a: Answer)
    requires i < |calls| == |s.pcs| && Linked(s) && CallerOk(s, calls[i], s.pcs[i]) && Next(calls, s, i, a).Some?
    ensures Linked(Next(calls, s, i, a).value)
  {
  }

  lemma StillApart(calls: seq<Call>, s: State, i: nat, a: Answer, j: nat)
    requires Inv(calls, s) && i < |calls| && j < |calls| && i != j && Next(calls, s, i, a).Some?
    ensures var t := Next(calls, s, i, a).value;
            t.pcs[j] == s.pcs[j] && Apart(t.pcs[i], t.pcs[j]) && Apart(t.pcs[j], t.pcs[i])
  {
    hide Next, CallerOk, Apart, Linked;
    TwoApart(calls, s, i, j);
    ApartStep(calls, s, i, a, j);
    var t := Next(calls, s, i, a).value;
    ApartSwaps(t.pcs[i], t.pcs[j]);
  }

  lemma ApartSwaps(p: Pc, q: Pc)
    ensures Apart(p, q) ==> Apart(q, p)
  {
  }

  lemma TwoApart(calls: seq<Call>, s: State, i: nat, j: nat)
    requires Inv(calls, s) && i < |calls| && j < |calls| && i != j
    ensures |s.pcs| == |calls| && Linked(s)
    ensures CallerOk(s, calls[i], s.pcs[i]) && CallerOk(s, calls[j], s.pcs[j]) && Apart(s.pcs[i], s.pcs[j])
  {
    hide CallerOk, Apart, Linked;
    ApartSwaps(s.pcs[j], s.pcs[i]);
    if j < i {
      assert Apart(s.pcs[j], s.pcs[i]);
    }
  }

  lemma ApartStep(calls: seq<Call>, s: State, i: nat, a: Answer, j: nat)
    requires i < |calls| == |s.pcs| && j < |calls| && i != j && Linked(s) && Next(calls, s, i, a).Some?
    requires CallerOk(s, calls[j], s.pcs[j]) && Apart(s.pcs[i], s.pcs[j])
    ensures var t := Next(calls, s, i, a).value;
            |t.pcs| == |calls| && t.pcs[j] == s.pcs[j] && Apart(t.pcs[i], t.pcs[j])
  {
    hide CallerOk, Next, Apart, Linked;
    if Checking(s.pcs[i]) {
      ApartCheck(calls, s, i, a, j);
    } else {
      ApartWrite(calls, s, i, a, j);
    }
  }

  lemma ApartCheck(calls: seq<Call>, s: State, i: nat, a: Answer, j: nat)
    requires i < |calls| == |s.pcs| && j < |calls| && i != j && Linked(s) && Next(calls, s, i, a).Some?
    requires CallerOk(s, calls[j], s.pcs[j]) && Apart(s.pcs[i], s.pcs[j]) && Checking(s.pcs[i])
    ensures var t := Next(calls, s, i, a).value;
            |t.pcs| == |calls| && t.pcs[j] == s.pcs[j] && Apart(t.pcs[i], t.pcs[j])
  {
    hide CallerOk;
    if calls[i].Path() in s.names {
      HashFileIsNobodys(s, calls[i], calls[j], s.pcs[j]);
    }
  }

  lemma ApartWrite(calls: seq<Call>, s: State, i: nat, a: Answer, j: nat)
    requires i < |calls| == |s.pcs| && j < |calls| && i != j && Linked(s) && Next(calls, s, i, a).Some?
    requires CallerOk(s, calls[j], s.pcs[j]) && Apart(s.pcs[i], s.pcs[j]) && !Checking(s.pcs[i])
    ensures var t := Next(calls, s, i, a).value;
            |t.pcs| == |calls| && t.pcs[j] == s.pcs[j] && Apart(t.pcs[i], t.pcs[j])
  {
    hide CallerOk;
    NamesKnown(s, calls[j], s.pcs[j]);
  }

  lemma NamesKnown(s: State, c: Call, pc: Pc)
    requires CallerOk(s, c, pc)
    ensures TmpOf(pc).Some? ==> TmpOf(pc).value in s.names
    ensures OwnIno(pc).Some? ==> OwnIno(pc).value in s.inodes
    ensures ReadIno(pc).Some? ==> ReadIno(pc).value in s.inodes
  {
  }

  lemma HashFileIsNobodys(s: State, d: Call, c: Call, pc: Pc)
    requires CallerOk(s, c, pc) && d.Path() in s.names
    ensures OwnIno(pc) != Some(s.names[d.Path()])
  {
  }

  /** A new file under a new temporary name. */
  lemma MadeKeeps(s: State, c: Call, pc: Pc, id: nat, ino: nat, pcs: seq<Pc>)
    requires Linked(s) && CallerOk(s, c, pc) && Tmp(id) !in s.names && ino !in s.inodes
    ensures CallerOk(State(s.names[Tmp(id) := ino], s.inodes[ino := []], pcs), c, pc)
  {
  }

  /** A write to a file that only its writer reaches. */
  lemma WriteKeeps(s: State, c: Call, pc: Pc, tmp: Name, ino: nat, data: Bytes, pcs: seq<Pc>)
    requires CallerOk(s, c, pc) && tmp.Tmp? && ino in s.inodes
    requires forall n :: n in s.names && s.names[n] == ino ==> n == tmp
    requires OwnIno(pc) != Some(ino) && ReadIno(pc) != Some(ino)
    ensures CallerOk(State(s.names, s.inodes[ino := data], pcs), c, pc)
  {
  }

  /** A rename onto a hash name: whoever counts on that name has the same data. */
  lemma RenameKeeps(s: State, c: Call, pc: Pc, tmp: Name, ino: nat, d: Call, pcs: seq<Pc>)
    requires CallerOk(s, c, pc) && OwnerOk(s, d, tmp, ino, true) && tmp.Tmp?
    requires d.Path() == c.Path() ==> d.data == c.data
    requires TmpOf(pc) != Some(tmp) && OwnIno(pc) != Some(ino)
    ensures CallerOk(State((s.names - {tmp})[d.Path() := ino], s.inodes, pcs), c, pc)
  {
  }

  lemma UnlinkKeeps(s: State, c: Call, pc: Pc, tmp: Name, pcs: seq<Pc>)
    requires CallerOk(s, c, pc) && tmp.Tmp? && TmpOf(pc) != Some(tmp)
    ensures CallerOk(State(s.names - {tmp}, s.inodes, pcs), c, pc)
  {
  }

  lemma SameFiles(s: State, t: State, c: Call, pc: Pc)
    requires CallerOk(s, c, pc)
    ensures t.names == s.names && t.inodes == s.inodes ==> CallerOk(t, c, pc)
  {
  }

  lemma OwnerFacts(s: State, c: Call, pc: Pc)
    requires CallerOk(s, c, pc)
    ensures pc.Write? ==> OwnerOk(s, c, pc.tmp, pc.ino, false)
    ensures pc.Rename? ==> OwnerOk(s, c, pc.tmp, pc.ino, true)
    ensures TmpOf(pc).Some? ==> TmpOf(pc).value.Tmp?
  {
  }

  /** So is everyone else's. */
  lemma OthersStep(calls: seq<Call>, s: State, i: nat, a: Answer, j: nat)
    requires Inv(calls, s) && NoCollision(calls) && i < |calls| && j < |calls| && i != j && Next(calls, s, i, a).Some?
    ensures var t := Next(calls, s, i, a).value; CallerOk(t, calls[j], s.pcs[j])
  {
    hide CallerOk, Linked, Inv;
    TwoApart(calls, s, i, j);
    var t := Next(calls, s, i, a).value;
    var c, q := calls[j], s.pcs[j];
    OwnerFacts(s, calls[i], s.pcs[i]);
    SameFiles(s, t, c, q);
    match s.pcs[i] {
      case Mkostemp =>
        if a != Err { MadeKeeps(s, c, q, a.id, a.ino, t.pcs); }
      case Write(tmp, ino) =>
        if a != Err { WriteKeeps(s, c, q, tmp, ino, calls[i].data[..a.n], t.pcs); }
      case Rename(tmp, ino) =>
        if a != Err { RenameKeeps(s, c, q, tmp, ino, calls[i], t.pcs); }
      case Unlink(tmp) => UnlinkKeeps(s, c, q, tmp, t.pcs);
      case _ =>
    }
  }

  lemma InvStep(calls: seq<Call>, s: State, i: nat, a: Answer)
    requires Inv(calls, s) && NoCollision(calls) && i < |calls| && Next(calls, s, i, a).Some?
    ensures Inv(calls, Next(calls, s, i, a).value)
  {
    hide Next, CallerOk, Apart, Linked, NoCollision;
    var t := Next(calls, s, i, a).value;
    assert CallerOk(s, calls[i], s.pcs[i]);
    OwnStep(calls, s, i, a);
    LinkedStep(calls, s, i, a);
    forall j | 0 <= j < |calls| && j != i
      ensures t.pcs[j] == s.pcs[j] && CallerOk(t, calls[j], t.pcs[j])
      ensures Apart(t.pcs[i], t.pcs[j]) && Apart(t.pcs[j], t.pcs[i])
    {
      StillApart(calls, s, i, a, j);
      OthersStep(calls, s, i, a, j);
    }
  }

  /* What a hash name can hold. */

  ghost predicate FromStart(s0: State, s: State, n: Name) {
    n in s0.names && n in s.names && s0.names[n] in s0.inodes && s.names[n] == s0.names[n]
  }

  ghost predicate FromCall(calls: seq<Call>, s: State, n: Name) {
    exists i :: 0 <= i < |calls| && calls[i].Path() == n && Contains(s, n, calls[i].data)
  }

  /** The files of the start are as they were, and every hash name leads to one of them or to a whole buffer of its
      digest. */
  ghost predicate Sealed(calls: seq<Call>, s0: State, s: State) {
    && (forall ino :: ino in s0.inodes ==> ino in s.inodes && s.inodes[ino] == s0.inodes[ino])
    && (forall pc :: pc in s.pcs && OwnIno(pc).Some? ==> OwnIno(pc).value !in s0.inodes)
    && (forall n: Name :: n.Final? && n in s.names ==> FromStart(s0, s, n) || FromCall(calls, s, n))
  }

  /** What a hash name holds stays there unless a whole buffer of the same digest replaces it. */
  lemma HoldsStep(calls: seq<Call>, s: State, i: nat, a: Answer, c: Call)
    requires Inv(calls, s) && i < |calls| && Next(calls, s, i, a).Some?
    requires calls[i].Path() == c.Path() ==> calls[i].data == c.data
    requires Contains(s, c.Path(), c.data)
    ensures Contains(Next(calls, s, i, a).value, c.Path(), c.data)
  {
    var t := Next(calls, s, i, a).value;
    assert CallerOk(s, calls[i], s.pcs[i]);
    assert CallerOk(s, c, Done(0));
    match s.pcs[i] {
      case Mkostemp =>
        if a != Err { MadeKeeps(s, c, Done(0), a.id, a.ino, t.pcs); }
      case Write(tmp, ino) =>
        if a != Err { WriteKeeps(s, c, Done(0), tmp, ino, calls[i].data[..a.n], t.pcs); }
      case Rename(tmp, ino) =>
        if a != Err { RenameKeeps(s, c, Done(0), tmp, ino, calls[i], t.pcs); }
      case Unlink(tmp) => UnlinkKeeps(s, c, Done(0), tmp, t.pcs);
      case _ =>
    }
  }

  lemma FilesStep(calls: seq<Call>, s0: State, s: State, i: nat, a: Answer)
    requires Inv(calls, s) && Sealed(calls, s0, s) && i < |calls| && Next(calls, s, i, a).Some?
    ensures var t := Next(calls, s, i, a).value;
            && (forall ino :: ino in s0.inodes ==> ino in t.inodes && t.inodes[ino] == s0.inodes[ino])
            && (forall pc :: pc in t.pcs && OwnIno(pc).Some? ==> OwnIno(pc).value !in s0.inodes)
  {
    hide FromStart, FromCall, Apart, Linked, Contains, CallerOk, Inv;
    CallerIn(calls, s, i);
    var t := Next(calls, s, i, a).value;
    NamesKnown(s, calls[i], s.pcs[i]);
    assert s.pcs[i] in s.pcs;
    forall pc | pc in t.pcs && OwnIno(pc).Some? ensures OwnIno(pc).value !in s0.inodes {
      assert pc in s.pcs || pc == t.pcs[i];
    }
  }

  lemma CallerIn(calls: seq<Call>, s: State, i: nat)
    requires Inv(calls, s) && i < |calls|
    ensures |s.pcs| == |calls| && Linked(s) && CallerOk(s, calls[i], s.pcs[i])
  {
    hide CallerOk, Apart;
  }

  lemma NamesStep(calls: seq<Call>, s0: State, s: State, i: nat, a: Answer, n: Name)
    requires Inv(calls, s) && NoCollision(calls) && Sealed(calls, s0, s) && i < |calls| && Next(calls, s, i, a).Some?
    requires n.Final? && n in Next(calls, s, i, a).value.names
    ensures var t := Next(calls, s, i, a).value; FromStart(s0, t, n) || FromCall(calls, t, n)
  {
    var t := Next(calls, s, i, a).value;
    assert CallerOk(s, calls[i], s.pcs[i]);
    if n !in s.names || t.names[n] != s.names[n] {
      assert calls[i].Path() == n && Contains(t, n, calls[i].data);
    } else if FromCall(calls, s, n) {
      var k :| 0 <= k < |calls| && calls[k].Path() == n && Contains(s, n, calls[k].data);
      HoldsStep(calls, s, i, a, calls[k]);
    } else {
      assert FromStart(s0, s, n);
    }
  }

  lemma SealedStep(calls: seq<Call>, s0: State, s: State, i: nat, a: Answer)
    requires Inv(calls, s) && NoCollision(calls) && Sealed(calls, s0, s) && i < |calls| && Next(calls, s, i, a).Some?
    ensures Sealed(calls, s0, Next(calls, s, i, a).value)
  {
    hide Next, FromStart, FromCall, CallerOk, Apart, NoCollision;
    FilesStep(calls, s0, s, i, a);
    forall n: Name | n.Final? && n in Next(calls, s, i, a).value.names
      ensures FromStart(s0, Next(calls, s, i, a).value, n) || FromCall(calls, Next(calls, s, i, a).value, n)
    {
      NamesStep(calls, s0, s, i, a, n);
    }
  }

  /* Runs. */

  datatype Move = Move(i: nat, a: Answer)

  /** Every call about to start, over any directory. */
  ghost predicate Begins(calls: seq<Call>, s: State) {
    |s.pcs| == |calls| && Linked(s) && forall i :: 0 <= i < |calls| ==> s.pcs[i] == Stat
  }

  ghost function After(calls: seq<Call>, s0: State, ms: seq<Move>): Option<State> {
    if ms == [] then Some(s0)
    else
      var s := After(calls, s0, ms[..|ms| - 1]);
      var m := ms[|ms| - 1];
      if s.Some? && m.i < |calls| == |s.value.pcs| && Linked(s.value) then Next(calls, s.value, m.i, m.a) else None
  }

  lemma {:induction false} RunKeeps(calls: seq<Call>, s0: State, ms: seq<Move>)
    requires Begins(calls, s0) && NoCollision(calls) && After(calls, s0, ms).Some?
    ensures Inv(calls, After(calls, s0, ms).value) && Sealed(calls, s0, After(calls, s0, ms).value)
  {
    if ms != [] {
      hide Next, Inv, Sealed;
      var m := ms[|ms| - 1];
      RunKeeps(calls, s0, ms[..|ms| - 1]);
      var s := After(calls, s0, ms[..|ms| - 1]).value;
      InvStep(calls, s, m.i, m.a);
      SealedStep(calls, s0, s, m.i, m.a);
    }
  }

  /** However many calls are interleaved: a hash name that is not as it was at the start holds one whole
      buffer of a call with that digest. */
  lemma HashNamesAreWhole(calls: seq<Call>, s0: State, ms: seq<Move>, n: Name)
    requires Begins(calls, s0) && NoCollision(calls) && After(calls, s0, ms).Some?
    requires n.Final? && n in After(calls, s0, ms).value.names
    ensures var s := After(calls, s0, ms).value;
            || (n in s0.names && s.names[n] == s0.names[n] && s0.names[n] in s0.inodes && s.names[n] in s.inodes
                && s.inodes[s.names[n]] == s0.inodes[s0.names[n]])
            || (exists i :: 0 <= i < |calls| && Final(calls[i].digest, calls[i].suffix) == n
                  && Contains(s, n, calls[i].data))
  {
    RunKeeps(calls, s0, ms);
  }

  lemma InvSizes(calls: seq<Call>, s: State)
    requires Inv(calls, s)
    ensures |s.pcs| == |calls|
  {
  }

  lemma DoneHolds(calls: seq<Call>, s: State, i: nat)
    requires Inv(calls, s) && i < |calls| && s.pcs[i].Done? && s.pcs[i].code >= 0
    ensures Contains(s, calls[i].Path(), calls[i].data)
  {
    assert CallerOk(s, calls[i], s.pcs[i]);
  }

  lemma DoneStays(calls: seq<Call>, s: State, i: nat, a: Answer, j: nat)
    requires i < |calls| == |s.pcs| && Linked(s) && j < |calls| && s.pcs[j].Done? && Next(calls, s, i, a).Some?
    ensures |Next(calls, s, i, a).value.pcs| == |calls| && Next(calls, s, i, a).value.pcs[j] == s.pcs[j]
  {
  }

  /** A call that has returned 0 or 1 has its data at its name, then and in every later state, whatever was at the name
      before. */
  lemma {:induction false} ReturnedIsStored(calls: seq<Call>, s0: State, ms: seq<Move>, ns: seq<Move>, i: nat)
    requires Begins(calls, s0) && NoCollision(calls) && i < |calls|
    requires After(calls, s0, ms).Some? && After(calls, s0, ms + ns).Some?
    requires |After(calls, s0, ms).value.pcs| == |calls|
    requires var pc := After(calls, s0, ms).value.pcs[i]; pc.Done? && pc.code >= 0
    ensures |After(calls, s0, ms + ns).value.pcs| == |calls|
    ensures After(calls, s0, ms + ns).value.pcs[i] == After(calls, s0, ms).value.pcs[i]
    ensures Contains(After(calls, s0, ms + ns).value, Final(calls[i].digest, calls[i].suffix), calls[i].data)
    decreases |ns|
  {
    hide Next, Inv, Sealed, Begins, NoCollision;
    RunKeeps(calls, s0, ms + ns);
    var s := After(calls, s0, ms + ns).value;
    InvSizes(calls, s);
    if ns == [] {
      assert ms + ns == ms;
    } else {
      var all := ms + ns;
      assert all[..|all| - 1] == ms + ns[..|ns| - 1];
      ReturnedIsStored(calls, s0, ms, ns[..|ns| - 1], i);
      var m := all[|all| - 1];
      DoneStays(calls, After(calls, s0, all[..|all| - 1]).value, m.i, m.a, i);
    }
    DoneHolds(calls, s, i);
  }
}
