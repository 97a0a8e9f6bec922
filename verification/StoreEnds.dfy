/** store.c: how a call of nw_store_put ends, and why. */
module StoreEnds {
  import opened Bytes
  import opened Prelude
  import opened Store

  /** Where caller `i` stood before the last move of a run. */
  ghost function Before(calls: seq<Call>, s0: State, ms: seq<Move>): State
    requires ms != [] && After(calls, s0, ms).Some?
  {
    After(calls, s0, ms[..|ms| - 1]).value
  }

  /** One of the caller's own system calls has failed, or has written less than it was given. */
  predicate Fails(c: Call, pc: Pc, a: Answer) {
    a == Err || (pc.Write? && a.Amount? && a.n < |c.data|)
  }

  ghost predicate Failed(calls: seq<Call>, s0: State, ms: seq<Move>, i: nat)
    requires After(calls, s0, ms).Some? && i < |calls|
  {
    ms != []
    && (Failed(calls, s0, ms[..|ms| - 1], i)
        || (ms[|ms| - 1].i == i && Fails(calls[i], Before(calls, s0, ms).pcs[i], ms[|ms| - 1].a)))
  }

  /** Its own rename has gone through. */
  ghost predicate Renamed(calls: seq<Call>, s0: State, ms: seq<Move>, i: nat)
    requires After(calls, s0, ms).Some? && i < |calls|
  {
    ms != []
    && (Renamed(calls, s0, ms[..|ms| - 1], i)
        || (ms[|ms| - 1].i == i && Before(calls, s0, ms).pcs[i].Rename? && ms[|ms| - 1].a != Err))
  }

  /** It has read the last bytes of a file of the right size and found them equal, or opened an empty one
      for empty data. */
  predicate Matches(c: Call, s: State, pc: Pc, a: Answer) {
    || (pc.OpenCheck? && a != Err && c.data == [])
    || (pc.Read? && a.Amount? && pc.ino in s.inodes && a.n <= CHUNK && pc.pos + a.n == |c.data| <= |s.inodes[pc.ino]|
        && s.inodes[pc.ino][pc.pos..|c.data|] == c.data[pc.pos..])
  }

  ghost predicate Matched(calls: seq<Call>, s0: State, ms: seq<Move>, i: nat)
    requires After(calls, s0, ms).Some? && i < |calls|
  {
    ms != []
    && (Matched(calls, s0, ms[..|ms| - 1], i)
        || (ms[|ms| - 1].i == i
            && Matches(calls[i], Before(calls, s0, ms), Before(calls, s0, ms).pcs[i], ms[|ms| - 1].a)))
  }

  /** How a place in the code goes with what has happened. */
  predicate Fitting(pc: Pc, failed: bool, renamed: bool, matched: bool) {
    && (renamed <==> pc == Done(1))
    && (matched <==> pc == Done(0) || pc == CloseCheck(true))
    && (pc == Done(-1) || pc.Unlink? || (pc.CloseTmp? && !pc.whole) ==> failed)
    && (pc.Done? ==> pc.code in {-1, 0, 1})
  }

  lemma FittingStep(calls: seq<Call>, s: State, i: nat, a: Answer, failed: bool, renamed: bool, matched: bool)
    requires i < |calls| == |s.pcs| && Linked(s) && CallerOk(s, calls[i], s.pcs[i]) && Next(calls, s, i, a).Some?
    requires Fitting(s.pcs[i], failed, renamed, matched)
    ensures var t, pc := Next(calls, s, i, a).value, s.pcs[i];
            |t.pcs| == |calls|
            && Fitting(t.pcs[i], failed || Fails(calls[i], pc, a), renamed || (pc.Rename? && a != Err),
                       matched || Matches(calls[i], s, pc, a))
  {
    hide Next, Fitting, Fails, Matches, CallerOk, Linked;
    if Checking(s.pcs[i]) {
      FittingCheck(calls, s, i, a, failed, renamed, matched);
    } else {
      FittingWrite(calls, s, i, a, failed, renamed, matched);
    }
  }

  lemma FittingCheck(calls: seq<Call>, s: State, i: nat, a: Answer, failed: bool, renamed: bool, matched: bool)
    requires i < |calls| == |s.pcs| && Linked(s) && CallerOk(s, calls[i], s.pcs[i]) && Next(calls, s, i, a).Some?
    requires Fitting(s.pcs[i], failed, renamed, matched) && Checking(s.pcs[i])
    ensures var t, pc := Next(calls, s, i, a).value, s.pcs[i];
            |t.pcs| == |calls|
            && Fitting(t.pcs[i], failed || Fails(calls[i], pc, a), renamed || (pc.Rename? && a != Err),
                       matched || Matches(calls[i], s, pc, a))
  {
  }

  lemma FittingWrite(calls: seq<Call>, s: State, i: nat, a: Answer, failed: bool, renamed: bool, matched: bool)
    requires i < |calls| == |s.pcs| && Linked(s) && CallerOk(s, calls[i], s.pcs[i]) && Next(calls, s, i, a).Some?
    requires Fitting(s.pcs[i], failed, renamed, matched) && !Checking(s.pcs[i])
    ensures var t, pc := Next(calls, s, i, a).value, s.pcs[i];
            |t.pcs| == |calls|
            && Fitting(t.pcs[i], failed || Fails(calls[i], pc, a), renamed || (pc.Rename? && a != Err),
                       matched || Matches(calls[i], s, pc, a))
  {
  }

  lemma OthersPc(calls: seq<Call>, s: State, i: nat, a: Answer, j: nat)
    requires i < |calls| == |s.pcs| && Linked(s) && j < |calls| && j != i && Next(calls, s, i, a).Some?
    ensures |Next(calls, s, i, a).value.pcs| == |calls| && Next(calls, s, i, a).value.pcs[j] == s.pcs[j]
  {
  }

  /** The last move of a run. */
  lemma LastMove(calls: seq<Call>, s0: State, ms: seq<Move>)
    requires ms != [] && After(calls, s0, ms).Some?
    ensures After(calls, s0, ms[..|ms| - 1]).Some?
    ensures var s, m := Before(calls, s0, ms), ms[|ms| - 1];
            && m.i < |calls| == |s.pcs| && Linked(s) && Next(calls, s, m.i, m.a) == After(calls, s0, ms)
  {
  }

  ghost predicate FittingAfter(calls: seq<Call>, s0: State, ms: seq<Move>, i: nat)
    requires After(calls, s0, ms).Some? && i < |calls|
  {
    && |After(calls, s0, ms).value.pcs| == |calls|
    && Fitting(After(calls, s0, ms).value.pcs[i], Failed(calls, s0, ms, i), Renamed(calls, s0, ms, i),
               Matched(calls, s0, ms, i))
  }

  lemma {:induction false} RunFits(calls: seq<Call>, s0: State, ms: seq<Move>, i: nat)
    requires Begins(calls, s0) && NoCollision(calls) && After(calls, s0, ms).Some? && i < |calls|
    ensures FittingAfter(calls, s0, ms, i)
  {
    if ms != [] {
      hide Next, Inv, Sealed, CallerOk, Fitting, Fails, Matches, NoCollision, Linked;
      var ns := ms[..|ms| - 1];
      LastMove(calls, s0, ms);
      RunFits(calls, s0, ns, i);
      RunKeeps(calls, s0, ns);
      var s, m := Before(calls, s0, ms), ms[|ms| - 1];
      CallerIn(calls, s, m.i);
      if m.i == i {
        FittingStep(calls, s, i, m.a, Failed(calls, s0, ns, i), Renamed(calls, s0, ns, i), Matched(calls, s0, ns, i));
      } else {
        OthersPc(calls, s, m.i, m.a, i);
      }
    }
  }

  /** For any interleaving: a call returns 1 exactly when its own rename has gone through, 0 exactly when
      its own comparison has matched, and -1 only when one of its own system calls has failed or written
      too little. */
  lemma EndsForAReason(calls: seq<Call>, s0: State, ms: seq<Move>, i: nat)
    requires Begins(calls, s0) && NoCollision(calls) && After(calls, s0, ms).Some? && i < |calls|
    ensures |After(calls, s0, ms).value.pcs| == |calls|
    ensures var pc := After(calls, s0, ms).value.pcs[i];
            pc.Done? ==>
              && (pc.code == 1 <==> Renamed(calls, s0, ms, i))
              && (pc.code == 0 <==> Matched(calls, s0, ms, i))
              && (pc.code == -1 ==> Failed(calls, s0, ms, i))
              && pc.code in {-1, 0, 1}
  {
    hide After, Failed, Renamed, Matched, Begins;
    RunFits(calls, s0, ms, i);
  }

  /* Progress. */

  /** The caller's own moves. */
  function Moves(ms: seq<Move>, i: nat): nat {
    if ms == [] then 0 else Moves(ms[..|ms| - 1], i) + if ms[|ms| - 1].i == i then 1 else 0
  }

  function Chunks(n: nat): nat { (n + CHUNK - 1) / CHUNK }

  /** The most moves a caller can have left. */
  function Left(c: Call, pc: Pc): nat {
    match pc
    case Stat => Chunks(|c.data|) + 8
    case OpenCheck => Chunks(|c.data|) + 7
    case Read(_, pos) => (if pos <= |c.data| then Chunks(|c.data| - pos) else 0) + 6
    case CloseCheck(_) => 6
    case Mkostemp => 5
    case Write(_, _) => 4
    case CloseTmp(_, _, _) => 3
    case Rename(_, _) => 2
    case Unlink(_) => 1
    case Done(_) => 0
  }

  lemma LeftFalls(calls: seq<Call>, s: State, i: nat, a: Answer)
    requires i < |calls| == |s.pcs| && Linked(s) && Next(calls, s, i, a).Some?
    requires s.pcs[i].Read? ==> s.pcs[i].pos < |calls[i].data|
    ensures var t := Next(calls, s, i, a).value;
            |t.pcs| == |calls| && Left(calls[i], t.pcs[i]) < Left(calls[i], s.pcs[i])
  {
    var c, pc := calls[i], s.pcs[i];
    if pc.Read? {
      ChunkLess(|c.data| - pc.pos);
    }
    hide Chunks;
  }

  lemma ChunkLess(n: nat)
    requires n > 0
    ensures Chunks(n) > 0 && (n > CHUNK ==> Chunks(n - CHUNK) == Chunks(n) - 1)
  {
  }

  /** For any interleaving a call makes at most eight moves and one for each chunk of its data. */
  lemma {:induction false} EndsInTime(calls: seq<Call>, s0: State, ms: seq<Move>, i: nat)
    requires Begins(calls, s0) && NoCollision(calls) && After(calls, s0, ms).Some? && i < |calls|
    ensures |After(calls, s0, ms).value.pcs| == |calls|
    ensures Moves(ms, i) + Left(calls[i], After(calls, s0, ms).value.pcs[i]) <= Chunks(|calls[i].data|) + 8
  {
    if ms != [] {
      hide Next, Left, Linked, Inv, Sealed, NoCollision;
      LastMove(calls, s0, ms);
      RunKeeps(calls, s0, ms[..|ms| - 1]);
      EndsInTime(calls, s0, ms[..|ms| - 1], i);
      var s, m := Before(calls, s0, ms), ms[|ms| - 1];
      if m.i == i {
        CallerIn(calls, s, i);
        LeftFalls(calls, s, i, m.a);
      } else {
        OthersPc(calls, s, m.i, m.a, i);
      }
    }
  }

  /** A call that has not returned can always make its next move, and be answered in full. */
  lemma NeverStuck(calls: seq<Call>, s0: State, ms: seq<Move>, i: nat) returns (a: Answer)
    requires Begins(calls, s0) && NoCollision(calls) && After(calls, s0, ms).Some? && i < |calls|
    requires |After(calls, s0, ms).value.pcs| == |calls| && !After(calls, s0, ms).value.pcs[i].Done?
    ensures After(calls, s0, ms + [Move(i, a)]).Some?
    ensures !Fails(calls[i], After(calls, s0, ms).value.pcs[i], a)
  {
    hide Sealed, Apart;
    RunKeeps(calls, s0, ms);
    var s, c := After(calls, s0, ms).value, calls[i];
    CallerIn(calls, s, i);
    match s.pcs[i] {
      case Read(ino, pos) => a := Amount(Min(|c.data| - pos, CHUNK));
      case Write(_, _) => a := Amount(|c.data|);
      case Mkostemp =>
        var id := FreshTmp(s.names);
        var ino := FreshIno(s.inodes);
        a := Made(id, ino);
      case _ => a := Ok;
    }
    assert (ms + [Move(i, a)])[..|ms|] == ms;
  }

  /** Any system call of a call that has not returned can fail, whatever it is. A failing stat or mkostemp
      ends the call; a failing open or read sends it on to write; a failing close is not looked at; after a
      failing write or rename the temporary name goes and then the call ends. */
  lemma AnyCallCanFail(calls: seq<Call>, s0: State, ms: seq<Move>, i: nat)
    requires Begins(calls, s0) && NoCollision(calls) && After(calls, s0, ms).Some? && i < |calls|
    requires |After(calls, s0, ms).value.pcs| == |calls| && !After(calls, s0, ms).value.pcs[i].Done?
    ensures var s := After(calls, s0, ms).value;
            After(calls, s0, ms + [Move(i, Err)]) ==
              match s.pcs[i]
              case Stat => Some(s.(pcs := s.pcs[i := Done(-1)]))
              case OpenCheck => Some(s.(pcs := s.pcs[i := Mkostemp]))
              case Read(_, _) => Some(s.(pcs := s.pcs[i := CloseCheck(false)]))
              case CloseCheck(matches) => Some(s.(pcs := s.pcs[i := if matches then Done(0) else Mkostemp]))
              case Mkostemp => Some(s.(pcs := s.pcs[i := Done(-1)]))
              case Write(tmp, ino) => Some(s.(pcs := s.pcs[i := CloseTmp(tmp, ino, false)]))
              case CloseTmp(tmp, ino, whole) =>
                Some(s.(pcs := s.pcs[i := if whole then Rename(tmp, ino) else Unlink(tmp)]))
              case Rename(tmp, _) => Some(s.(pcs := s.pcs[i := Unlink(tmp)]))
              case Unlink(tmp) => Some(s.(names := s.names - {tmp}, pcs := s.pcs[i := Done(-1)]))
              case Done(_) => None
  {
    RunKeeps(calls, s0, ms);
    OneMove(calls, s0, ms, Move(i, Err));
  }

  /** A read can come back with any number of the bytes that are there, and no more; a write can have
      written any number of the bytes it was given, and no more. */
  lemma AnyAmountCanCome(calls: seq<Call>, s0: State, ms: seq<Move>, i: nat, n: nat)
    requires Begins(calls, s0) && NoCollision(calls) && After(calls, s0, ms).Some? && i < |calls|
    requires |After(calls, s0, ms).value.pcs| == |calls|
    ensures var s := After(calls, s0, ms).value;
            var t := After(calls, s0, ms + [Move(i, Amount(n))]);
            && (s.pcs[i].Read? ==>
                  s.pcs[i].ino in s.inodes && (t.Some? <==> s.pcs[i].pos + n <= |s.inodes[s.pcs[i].ino]|))
            && (s.pcs[i].Write? ==>
                  && (t.Some? <==> n <= |calls[i].data|)
                  && (t.Some? ==>
                        t.value == s.(inodes := s.inodes[s.pcs[i].ino := calls[i].data[..n]],
                                      pcs := s.pcs[i := CloseTmp(s.pcs[i].tmp, s.pcs[i].ino, n == |calls[i].data|)])))
  {
    RunKeeps(calls, s0, ms);
    CallerIn(calls, After(calls, s0, ms).value, i);
    OneMove(calls, s0, ms, Move(i, Amount(n)));
  }

  lemma OneMove(calls: seq<Call>, s0: State, ms: seq<Move>, m: Move)
    requires After(calls, s0, ms).Some? && m.i < |calls| && Inv(calls, After(calls, s0, ms).value)
    ensures |After(calls, s0, ms).value.pcs| == |calls| && Linked(After(calls, s0, ms).value)
    ensures After(calls, s0, ms + [m]) == Next(calls, After(calls, s0, ms).value, m.i, m.a)
  {
    hide Next, CallerOk, Apart;
    assert (ms + [m])[..|ms|] == ms;
  }

  lemma FreshTmp(names: map<Name, nat>) returns (id: nat)
    ensures Tmp(id) !in names
  {
    var used := set n | n in names && n.Tmp? :: n.id;
    id := Above(used);
    assert forall n :: n in names && n.Tmp? ==> n.id in used;
  }

  lemma FreshIno(inodes: map<nat, Bytes>) returns (ino: nat)
    ensures ino !in inodes
  {
    ino := Above(inodes.Keys);
  }

  lemma {:induction false} Above(used: set<nat>) returns (n: nat)
    ensures forall k :: k in used ==> k < n
    decreases |used|
  {
    if used == {} {
      n := 0;
    } else {
      var k :| k in used;
      var m := Above(used - {k});
      n := if k < m then m else k + 1;
      assert forall j :: j in used ==> j == k || j in used - {k};
    }
  }

  /* Finding what is there. */

  /** No own system call has failed, and every own read was answered in full. */
  ghost predicate Full(calls: seq<Call>, s0: State, ms: seq<Move>, i: nat)
    requires After(calls, s0, ms).Some? && i < |calls|
  {
    ms == []
    || (Full(calls, s0, ms[..|ms| - 1], i)
        && (ms[|ms| - 1].i == i ==> FullAnswer(calls[i], Before(calls, s0, ms).pcs[i], ms[|ms| - 1].a)))
  }

  predicate FullAnswer(c: Call, pc: Pc, a: Answer) {
    a != Err && (pc.Read? && pc.pos < |c.data| ==> a == Amount(Min(|c.data| - pc.pos, CHUNK)))
  }

  /** The caller has not gone past the comparison, and what it compares with is its data. */
  predicate Finding(c: Call, s: State, pc: Pc) {
    || pc.Stat? || pc.OpenCheck? || pc == CloseCheck(true) || pc == Done(0)
    || (pc.Read? && pc.ino in s.inodes && s.inodes[pc.ino] == c.data)
  }

  lemma FindingStep(calls: seq<Call>, s: State, i: nat, a: Answer)
    requires i < |calls| == |s.pcs| && Linked(s) && CallerOk(s, calls[i], s.pcs[i]) && Next(calls, s, i, a).Some?
    requires Contains(s, calls[i].Path(), calls[i].data) && Finding(calls[i], s, s.pcs[i])
    requires FullAnswer(calls[i], s.pcs[i], a)
    ensures var t := Next(calls, s, i, a).value; |t.pcs| == |calls| && Finding(calls[i], t, t.pcs[i])
  {
    if s.pcs[i].Read? {
      assert s.inodes[s.pcs[i].ino] == calls[i].data;
    }
  }

  lemma FindingStays(calls: seq<Call>, s: State, i: nat, a: Answer, j: nat)
    requires Inv(calls, s) && i < |calls| && j < |calls| && i != j && Next(calls, s, i, a).Some?
    requires Finding(calls[j], s, s.pcs[j])
    ensures var t := Next(calls, s, i, a).value; |t.pcs| == |calls| && Finding(calls[j], t, t.pcs[j])
  {
    hide CallerOk, Inv, Linked;
    TwoApart(calls, s, i, j);
    NamesKnown(s, calls[i], s.pcs[i]);
  }

  lemma {:induction false} StaysContained(calls: seq<Call>, s0: State, ms: seq<Move>, i: nat)
    requires Begins(calls, s0) && NoCollision(calls) && After(calls, s0, ms).Some? && i < |calls|
    requires Contains(s0, calls[i].Path(), calls[i].data)
    ensures Contains(After(calls, s0, ms).value, calls[i].Path(), calls[i].data)
  {
    if ms != [] {
      hide Next, Inv, Sealed, Contains;
      LastMove(calls, s0, ms);
      StaysContained(calls, s0, ms[..|ms| - 1], i);
      RunKeeps(calls, s0, ms[..|ms| - 1]);
      var m := ms[|ms| - 1];
      HoldsStep(calls, Before(calls, s0, ms), m.i, m.a, calls[i]);
    }
  }

  lemma {:induction false} RunFinds(calls: seq<Call>, s0: State, ms: seq<Move>, i: nat)
    requires Begins(calls, s0) && NoCollision(calls) && After(calls, s0, ms).Some? && i < |calls|
    requires Contains(s0, calls[i].Path(), calls[i].data) && Full(calls, s0, ms, i)
    ensures |After(calls, s0, ms).value.pcs| == |calls|
    ensures Finding(calls[i], After(calls, s0, ms).value, After(calls, s0, ms).value.pcs[i])
  {
    if ms != [] {
      hide Next, Inv, Sealed, Contains, CallerOk, Finding, FullAnswer, NoCollision, Linked;
      var ns := ms[..|ms| - 1];
      LastMove(calls, s0, ms);
      RunFinds(calls, s0, ns, i);
      RunKeeps(calls, s0, ns);
      StaysContained(calls, s0, ns, i);
      var s, m := Before(calls, s0, ms), ms[|ms| - 1];
      CallerIn(calls, s, m.i);
      if m.i == i {
        FindingStep(calls, s, i, m.a);
      } else {
        FindingStays(calls, s, m.i, m.a, i);
      }
    }
  }

  /** What is there already is found: a call whose data stands at its name at the start, and whose system
      calls go through with full reads, writes nothing and returns 0. */
  lemma StoredIsFound(calls: seq<Call>, s0: State, ms: seq<Move>, i: nat)
    requires Begins(calls, s0) && NoCollision(calls) && After(calls, s0, ms).Some? && i < |calls|
    requires Contains(s0, calls[i].Path(), calls[i].data) && Full(calls, s0, ms, i)
    ensures |After(calls, s0, ms).value.pcs| == |calls|
    ensures var pc := After(calls, s0, ms).value.pcs[i];
            && !pc.Mkostemp? && !pc.Write? && !pc.CloseTmp? && !pc.Rename? && !pc.Unlink?
            && (pc.Done? ==> pc.code == 0)
  {
    hide After, Full, Begins, Contains;
    RunFinds(calls, s0, ms, i);
  }
}
