/** nwsup.c: the courses the generation loop takes, from run to run: what a death, a START, a STOP and a
    TERM lead to. */
module Courses {
  import opened Decide
  import opened Prelude
  import opened Supervisor

  /** `n` statements of the main thread, one after the other. */
  function Goes(n: nat): (es: seq<Event>)
    ensures |es| == n
  {
    if n == 0 then [] else Goes(n - 1) + [Go]
  }

  lemma Then(c: Config, es: seq<Event>, e: Event)
    requires After(c, es).Some?
    ensures After(c, es + [e]) == Next(c, After(c, es).value, e)
  {
    hide Next;
    assert (es + [e])[..|es + [e]| - 1] == es;
  }

  /** One statement more. */
  lemma ThenGo(c: Config, es: seq<Event>, n: nat, t: State)
    requires After(c, es + Goes(n)).Some? && Next(c, After(c, es + Goes(n)).value, Go) == Some(t)
    ensures After(c, es + Goes(n + 1)) == Some(t)
    ensures var s := After(c, es + Goes(n)).value;
            Ordinals(c, es + Goes(n + 1)) == Ordinals(c, es + Goes(n)) + if s.pc.Record? then [s.deaths] else []
  {
    hide Next;
    assert es + Goes(n + 1) == es + Goes(n) + [Go];
    Then(c, es + Goes(n), Go);
    assert (es + Goes(n) + [Go])[..|es + Goes(n)|] == es + Goes(n);
    OrdinalsSnoc(c, es + Goes(n + 1));
  }

  lemma NoGoes(es: seq<Event>)
    ensures es + Goes(0) == es
  {
  }

  /** What the house dies of is what the loop has of it. */
  lemma HouseDies(c: Config, es: seq<Event>, st: Status)
    requires After(c, es).Some? && After(c, es).value.pc.Wait?
    ensures After(c, es + [Dies(st)]) ==
              var s := After(c, es).value;
              if s.house == Running then Some(s.(house := Gone(st))) else None
  {
    hide After, Ledger, Budgeted;
    RunKeeps(c, es);
    Then(c, es, Dies(st));
  }

  /** From wait_house with the house gone to the decision. */
  lemma ToJudge(c: Config, es: seq<Event>)
    requires After(c, es).Some? && After(c, es).value.pc.Wait? && After(c, es).value.house.Gone?
    ensures var s := After(c, es).value;
            After(c, es + Goes(3))
            == Some(s.(pc := Judge(s.house.status), child := 0, leaf := None, house := NoChild))
    ensures Ordinals(c, es + Goes(3)) == Ordinals(c, es)
  {
    hide Ordinals, After;
    var s := After(c, es).value;
    var st := s.house.status;
    NoGoes(es);
    ThenGo(c, es, 0, s.(pc := Reaped(st), house := NoChild));
    ThenGo(c, es, 1, s.(pc := Sweep(st), child := 0, house := NoChild));
    ThenGo(c, es, 2, s.(pc := Judge(st), child := 0, leaf := None, house := NoChild));
  }

  /** A death that ends the supervisor at once: on shutdown with the house's exit code or 0, and after a
      clean exit of a house that completes on it. */
  lemma DeathEnds(c: Config, es: seq<Event>)
    requires After(c, es).Some? && After(c, es).value.pc.Wait? && After(c, es).value.house.Gone?
    requires var s := After(c, es).value;
             s.stopping || (!s.stopRequested && c.completeOn0 && s.house.status == Exit(0))
    ensures var s := After(c, es).value;
            After(c, es + Goes(4)) ==
              Some(s.(pc := Exited(match s.house.status case Exit(code) => code case Signal(_) => 0),
                      child := 0, leaf := None, house := NoChild))
  {
    hide Ordinals, After;
    var s := After(c, es).value;
    ToJudge(c, es);
    ThenGo(c, es, 3, s.(pc := Exited(match s.house.status case Exit(code) => code case Signal(_) => 0),
                        child := 0, leaf := None, house := NoChild));
  }

  /** A death that a STOP has asked for, or of an unlocked house that was not to complete so: the house is
      idle, nothing is counted, and the request is gone. */
  lemma DeathIdles(c: Config, es: seq<Event>)
    requires After(c, es).Some? && After(c, es).value.pc.Wait? && After(c, es).value.house.Gone?
    requires var s := After(c, es).value;
             && !s.stopping
             && (s.stopRequested || (!c.lock && !(c.completeOn0 && s.house.status == Exit(0))))
    ensures var s := After(c, es).value;
            After(c, es + Goes(7)) ==
              Some(s.(pc := Idle, child := 0, leaf := None, house := NoChild, stopRequested := false, stopped := true))
  {
    hide Ordinals, After;
    var s := After(c, es).value;
    ToJudge(c, es);
    var t := s.(child := 0, leaf := None, house := NoChild);
    ThenGo(c, es, 3, t.(pc := ClearStop));
    ThenGo(c, es, 4, t.(pc := SetStopped, stopRequested := false));
    ThenGo(c, es, 5, t.(pc := Top, stopRequested := false, stopped := true));
    ThenGo(c, es, 6, t.(pc := Idle, stopRequested := false, stopped := true));
  }

  /** While a house is waited for the idle flag is down. */
  lemma NotStopped(c: Config, es: seq<Event>)
    requires After(c, es).Some? && After(c, es).value.pc.Wait?
    ensures !After(c, es).value.stopped
  {
    hide Ledger, Budgeted, After;
    RunKeeps(c, es);
  }

  /** From the decision to the record of a counted death. */
  lemma DeathRecords(c: Config, es: seq<Event>)
    requires After(c, es).Some? && After(c, es).value.pc.Wait? && After(c, es).value.house.Gone?
    requires var s := After(c, es).value;
             && c.lock && !s.stopping && !s.stopRequested
             && !(c.completeOn0 && s.house.status == Exit(0))
    ensures var s := After(c, es).value;
            After(c, es + Goes(6))
            == Some(s.(child := 0, leaf := None, house := NoChild, deaths := s.deaths + 1,
                       pc := Recorded(s.deaths >= c.budget, s.house.status)))
    ensures Ordinals(c, es + Goes(6)) == Ordinals(c, es) + [After(c, es).value.deaths + 1]
  {
    hide Ordinals, After, Next;
    var s := After(c, es).value;
    var st, spent := s.house.status, s.deaths >= c.budget;
    ToJudge(c, es);
    var t := s.(child := 0, leaf := None, house := NoChild, pc := Judge(st));
    var u := t.(deaths := s.deaths + 1);
    JudgeCounts(c, t);
    ThenGo(c, es, 3, t.(pc := CountDeath(spent, st)));
    CountRecords(c, t.(pc := CountDeath(spent, st)));
    ThenGo(c, es, 4, u.(pc := Record(spent, st)));
    ThenGo(c, es, 5, u.(pc := Recorded(spent, st)));
  }

  lemma JudgeCounts(c: Config, s: State)
    requires s.pc.Judge? && c.lock && !s.stopping && !s.stopRequested && !(c.completeOn0 && s.pc.st == Exit(0))
    ensures Next(c, s, Go) == Some(s.(pc := CountDeath(s.deaths >= c.budget, s.pc.st)))
  {
  }

  lemma CountRecords(c: Config, s: State)
    requires s.pc.CountDeath?
    ensures var t := s.(deaths := s.deaths + 1, pc := Record(s.pc.spent, s.pc.st));
            Next(c, s, Go) == Some(t) && Next(c, t, Go) == Some(t.(pc := Recorded(s.pc.spent, s.pc.st)))
  {
    hide NwDecide;
  }

  /** An unasked death of a locked house is counted and recorded under its ordinal. Below the budget the
      loop opens the next generation; at the budget the supervisor exits, with the house's exit code or
      with 71 for a signal. */
  lemma DeathCounts(c: Config, es: seq<Event>)
    requires After(c, es).Some? && After(c, es).value.pc.Wait? && After(c, es).value.house.Gone?
    requires var s := After(c, es).value;
             && c.lock && !s.stopping && !s.stopRequested
             && !(c.completeOn0 && s.house.status == Exit(0))
    ensures var s := After(c, es).value;
            var t := s.(child := 0, leaf := None, house := NoChild, deaths := s.deaths + 1);
            && (s.deaths < c.budget ==> After(c, es + Goes(8)) == Some(t.(pc := Open)))
            && (s.deaths >= c.budget ==>
                  After(c, es + Goes(7)) ==
                    Some(t.(pc := Exited(match s.house.status case Exit(code) => code case Signal(_) => 71))))
    ensures After(c, es + Goes(6)).Some?
            && Ordinals(c, es + Goes(6)) == Ordinals(c, es) + [After(c, es).value.deaths + 1]
  {
    hide Ordinals, After, NwDecide;
    var s := After(c, es).value;
    var st := s.house.status;
    NotStopped(c, es);
    DeathRecords(c, es);
    var u := s.(child := 0, leaf := None, house := NoChild, deaths := s.deaths + 1);
    if s.deaths >= c.budget {
      ThenGo(c, es, 6, u.(pc := Exited(match st case Exit(code) => code case Signal(_) => 71)));
    } else {
      ThenGo(c, es, 6, u.(pc := Top));
      ThenGo(c, es, 7, u.(pc := Open));
    }
  }

  /* What can happen. */

  /** When each event can happen. */
  predicate Possible(c: Config, s: State, e: Event) {
    !s.pc.Exited? && !s.pc.Failed? &&
    match e
    case Term => true
    case Dies(_) => s.house == Running
    case Go => !s.pc.Idle? && !s.pc.Clone? && (s.pc.Wait? ==> s.house.Gone?)
    case Nothing => s.pc.Idle?
    case StartRead => s.pc.Idle? || s.pc.Wait?
    case StopRead => s.pc.Idle? || s.pc.Wait?
    case Cloned(pid) => s.pc.Clone? && pid > 0
    case Fails => s.pc.Open? || s.pc.Clone? || s.pc.Idle? || s.pc.Wait?
    case Escalate => s.pc.Wait? && c.grace > 0 && (s.stopping || s.stopRequested)
  }

  /** After any run exactly the possible events can follow: the main thread never hangs between two system
      calls. A failing call ends the supervisor and leaves no empty leaf behind; the escalation of wait_house
      leaves the loop where it is. */
  lemma WhatCanHappen(c: Config, es: seq<Event>, e: Event)
    requires After(c, es).Some?
    ensures After(c, es + [e]).Some? <==> Possible(c, After(c, es).value, e)
    ensures e.Fails? && After(c, es + [e]).Some? ==>
              var s := After(c, es).value;
              After(c, es + [e]) == Some(s.(pc := Failed, leaf := if s.pc.Clone? then None else s.leaf))
    ensures e.Escalate? && After(c, es + [e]).Some? ==> After(c, es + [e]) == After(c, es)
  {
    hide After, NwDecide;
    Then(c, es, e);
  }

  /* START. */

  /** A locked house is forked without being asked; an unlocked one waits to be. */
  lemma Begins(c: Config)
    ensures After(c, Goes(1)) == Some(Initial(c).(pc := if c.lock then Open else Idle))
  {
    assert [] + Goes(0) == [] && [] + Goes(1) == Goes(1);
    ThenGo(c, [], 0, Initial(c).(pc := if c.lock then Open else Idle));
  }

  /** A START that the idle loop reads leads to the next generation, unless the supervisor is stopping: then
      it leads to its exit. */
  lemma StartOpens(c: Config, es: seq<Event>)
    requires After(c, es).Some? && After(c, es).value.pc.Idle?
    ensures var s := After(c, es).value;
            && (!s.stopping ==> After(c, es + [StartRead] + Goes(2)) == Some(s.(pc := Open, stopped := false)))
            && (s.stopping ==> After(c, es + [StartRead] + Goes(1)) == Some(s.(pc := Exited(0))))
  {
    hide After;
    var s, fs := After(c, es).value, es + [StartRead];
    AtIdle(c, es);
    Then(c, es, StartRead);
    NoGoes(fs);
    if s.stopping {
      ThenGo(c, fs, 0, s.(pc := Exited(0)));
    } else {
      ThenGo(c, fs, 0, s.(pc := Top, stopped := false));
      ThenGo(c, fs, 1, s.(pc := Open, stopped := false));
    }
  }

  lemma AtIdle(c: Config, es: seq<Event>)
    requires After(c, es).Some? && After(c, es).value.pc.Idle?
    ensures After(c, es).value.stopped && !After(c, es).value.stopRequested
  {
    hide Ledger, Budgeted, After;
    RunKeeps(c, es);
  }

  /** Nothing else that the idle loop reads changes anything. */
  lemma IdleStays(c: Config, es: seq<Event>, e: Event)
    requires After(c, es).Some? && After(c, es).value.pc.Idle? && (e.Nothing? || e.StopRead?)
    ensures var s := After(c, es).value;
            After(c, es + [e] + Goes(1)) == Some(if s.stopping then s.(pc := Exited(0)) else s)
  {
    hide After;
    var s := After(c, es).value;
    AtIdle(c, es);
    Then(c, es, e);
    NoGoes(es + [e]);
    ThenGo(c, es + [e], 0, if s.stopping then s.(pc := Exited(0)) else s);
  }

  /** A generation begins: a leaf of its own under the next number, and the house in it. */
  lemma GenerationForks(c: Config, es: seq<Event>, pid: nat)
    requires After(c, es).Some? && After(c, es).value.pc.Open? && pid > 0
    ensures var s := After(c, es).value;
            After(c, es + Goes(1) + [Cloned(pid)] + Goes(1))
            == Some(s.(leaf := Some(s.cgGen), cgGen := s.cgGen + 1, house := Running, child := pid,
                       pc := PostFork(pid)))
  {
    hide After, Next;
    var s := After(c, es).value;
    NoGoes(es);
    var t := s.(leaf := Some(s.cgGen), cgGen := s.cgGen + 1, pc := Clone);
    OpenClones(c, s, pid);
    ThenGo(c, es, 0, t);
    var gs := es + Goes(1);
    Then(c, gs, Cloned(pid));
    NoGoes(gs + [Cloned(pid)]);
    ThenGo(c, gs + [Cloned(pid)], 0, t.(house := Running, child := pid, pc := PostFork(pid)));
  }

  /** And the house is watched; when on_term has fired by then, it is signalled before it is waited for. */
  lemma GenerationRuns(c: Config, es: seq<Event>, pid: nat)
    requires After(c, es).Some? && After(c, es).value.pc.Open? && pid > 0
    ensures var s := After(c, es).value;
            var t := s.(leaf := Some(s.cgGen), cgGen := s.cgGen + 1, house := Running, child := pid, pc := Wait(pid));
            var fs := es + Goes(1) + [Cloned(pid)];
            && After(c, fs + Goes(if s.stopping then 3 else 2)) == Some(t)
            && (s.stopping ==> Signalled(c, fs + Goes(3)))
  {
    hide After, Signalled, Next, Goes;
    var s, fs := After(c, es).value, es + Goes(1) + [Cloned(pid)];
    OpenIsClean(c, es);
    GenerationForks(c, es, pid);
    var u := After(c, fs + Goes(1)).value;
    ForkedWaits(c, u);
    if s.stopping {
      ThenGo(c, fs, 1, u.(pc := PostKill(pid)));
      ThenGo(c, fs, 2, u.(pc := Wait(pid)));
      StopReachesTheHouse(c, fs + Goes(3));
    } else {
      ThenGo(c, fs, 1, u.(pc := Wait(pid)));
    }
  }

  lemma OpenClones(c: Config, s: State, pid: nat)
    requires s.pc.Open? && pid > 0
    ensures var t := s.(leaf := Some(s.cgGen), cgGen := s.cgGen + 1, pc := Clone);
            var u := t.(house := Running, pc := SetChild(pid));
            && Next(c, s, Go) == Some(t) && Next(c, t, Cloned(pid)) == Some(u)
            && Next(c, u, Go) == Some(u.(child := pid, pc := PostFork(pid)))
  {
    hide NwDecide;
  }

  lemma ForkedWaits(c: Config, s: State)
    requires s.pc.PostFork? && !s.stopRequested
    ensures var t, u := s.(pc := PostKill(s.pc.p)), s.(pc := Wait(s.pc.p));
            if s.stopping then Next(c, s, Go) == Some(t) && Next(c, t, Go) == Some(u) else Next(c, s, Go) == Some(u)
  {
  }

  lemma OpenIsClean(c: Config, es: seq<Event>)
    requires After(c, es).Some? && After(c, es).value.pc.Open?
    ensures !After(c, es).value.stopRequested
  {
    hide After;
    TopIsClean(c, es);
  }

  /** A START for a live house changes nothing. */
  lemma LiveStart(c: Config, es: seq<Event>)
    requires After(c, es).Some? && After(c, es).value.pc.Wait?
    ensures After(c, es + [StartRead]) == After(c, es)
  {
    hide After;
    Then(c, es, StartRead);
  }

  /* STOP and TERM. */

  /** A STOP for a live house is noted and the house signalled, once. */
  lemma LiveStop(c: Config, es: seq<Event>)
    requires After(c, es).Some? && After(c, es).value.pc.Wait?
    ensures var s := After(c, es).value;
            && After(c, es + [StopRead]).Some? && After(c, es + [StopRead]).value.stopRequested
            && (s.stopRequested ==> After(c, es + [StopRead]) == Some(s))
            && (!s.stopRequested ==>
                  && After(c, es + [StopRead] + Goes(2)) == Some(s.(stopRequested := true))
                  && Signalled(c, es + [StopRead] + Goes(2)))
  {
    hide After, Signalled;
    var s, fs := After(c, es).value, es + [StopRead];
    Then(c, es, StopRead);
    if !s.stopRequested {
      NoGoes(fs);
      ThenGo(c, fs, 0, s.(stopRequested := true, pc := StopKill(s.pc.p)));
      ThenGo(c, fs, 1, s.(stopRequested := true));
      StopReachesTheHouse(c, fs + Goes(2));
    }
  }

  /** on_term, wherever it runs: the flag, the signal for the child the supervisor knows of, and no more. */
  lemma TermIsSeen(c: Config, es: seq<Event>)
    requires After(c, es).Some? && !Over(After(c, es).value)
    ensures After(c, es + [Term]) == Some(After(c, es).value.(stopping := true))
    ensures After(c, es).value.child > 0 ==> Signalled(c, es + [Term])
  {
    hide Next;
    Then(c, es, Term);
    TermSets(c, After(c, es).value);
    assert (es + [Term])[..|es|] == es;
  }

  lemma TermSets(c: Config, s: State)
    requires !Over(s)
    ensures Next(c, s, Term) == Some(s.(stopping := true))
  {
  }

  /** At the top of the loop the flag ends the supervisor. */
  lemma TopEnds(c: Config, es: seq<Event>)
    requires After(c, es).Some? && After(c, es).value.pc.Top? && After(c, es).value.stopping
    ensures After(c, es + Goes(1)) == Some(After(c, es).value.(pc := Exited(0)))
  {
    hide After;
    NoGoes(es);
    ThenGo(c, es, 0, After(c, es).value.(pc := Exited(0)));
  }

  /** A STOP is pending, is being cleared, or has left the house idle. */
  predicate Honouring(s: State) {
    || s.pc.Failed?
    || (!s.stopping && s.stopRequested
        && (s.pc.StopSeen? || s.pc.StopKill? || s.pc.Wait? || s.pc.Reaped? || s.pc.Sweep? || s.pc.Judge?
            || s.pc.ClearStop?))
    || (!s.stopping && !s.stopRequested && s.pc.SetStopped?)
    || (!s.stopping && !s.stopRequested && s.stopped && (s.pc.Top? || s.pc.Idle? || s.pc.IdleStart?))
  }

  lemma HonouringStep(c: Config, s: State, e: Event)
    requires Shape(c, s) && Honouring(s) && Next(c, s, e).Some?
    requires !e.Term? && !Does(c, s, e, Accept)
    ensures Honouring(Next(c, s, e).value)
    ensures !Does(c, s, e, Death) && !Does(c, s, e, Restart) && !Does(c, s, e, Fork)
  {
  }

  /** Since the run `es` nothing has been counted, restarted or forked, and the STOP is honoured. */
  ghost predicate Kept(c: Config, es: seq<Event>, all: seq<Event>)
    requires After(c, es).Some? && After(c, all).Some?
  {
    && Honouring(After(c, all).value)
    && Count(c, all, Death) == Count(c, es, Death) && Count(c, all, Restart) == Count(c, es, Restart)
    && Count(c, all, Fork) == Count(c, es, Fork)
  }

  lemma KeptMore(c: Config, es: seq<Event>, all: seq<Event>)
    requires After(c, es).Some? && all != [] && After(c, all).Some? && After(c, all[..|all| - 1]).Some?
    requires Kept(c, es, all[..|all| - 1]) && !all[|all| - 1].Term?
    requires Count(c, all, Accept) == Count(c, all[..|all| - 1], Accept)
    ensures Kept(c, es, all)
  {
    hide After, Next, Does, Count, Shape, Budgeted, Ledger, Honouring;
    var before, s, e := Snoc(c, all);
    RunKeeps(c, before);
    CountSnoc(c, all, Accept);
    CountSnoc(c, all, Death);
    CountSnoc(c, all, Restart);
    CountSnoc(c, all, Fork);
    HonouringStep(c, s, e);
  }

  lemma KeptMeans(c: Config, es: seq<Event>, all: seq<Event>)
    requires After(c, es).Some? && After(c, all).Some?
    ensures Kept(c, es, all) ==>
              && Count(c, all, Death) == Count(c, es, Death) && Count(c, all, Restart) == Count(c, es, Restart)
              && Count(c, all, Fork) == Count(c, es, Fork)
              && var s := After(c, all).value;
                 && !s.pc.Exited? && (s.pc.Wait? ==> s.stopRequested)
                 && (s.pc.Top? || s.pc.Idle? ==> s.stopped && !s.stopRequested)
  {
    hide After, Count;
  }

  /** The last event of a continuation. */
  lemma Tail(es: seq<Event>, fs: seq<Event>)
    requires fs != []
    ensures (es + fs)[..|es + fs| - 1] == es + fs[..|fs| - 1] && (es + fs)[|es + fs| - 1] == fs[|fs| - 1]
  {
  }

  lemma Earlier(c: Config, es: seq<Event>)
    requires es != [] && After(c, es).Some?
    ensures After(c, es[..|es| - 1]).Some?
  {
  }

  lemma {:induction false} CountsGrow(c: Config, es: seq<Event>, fs: seq<Event>, k: Deed)
    requires After(c, es).Some? && After(c, es + fs).Some?
    ensures Count(c, es, k) <= Count(c, es + fs, k)
    decreases |fs|
  {
    hide After, Does, Count;
    if fs == [] {
      assert es + fs == es;
    } else {
      Tail(es, fs);
      Earlier(c, es + fs);
      CountsGrow(c, es, fs[..|fs| - 1], k);
      CountSnoc(c, es + fs, k);
    }
  }

  /** From a pending STOP on, until on_term fires or a START is accepted: no death is counted, nothing is
      restarted or forked, and the supervisor does not exit; the request goes only on the way to the idle
      branch, and whenever the loop is at its top or idle, it is idle for good. */
  lemma {:induction false} StopIsKept(c: Config, es: seq<Event>, fs: seq<Event>)
    requires After(c, es).Some? && After(c, es).value.pc.Wait?
    requires After(c, es).value.stopRequested && !After(c, es).value.stopping
    requires After(c, es + fs).Some? && Term !in fs && Count(c, es + fs, Accept) == Count(c, es, Accept)
    ensures Kept(c, es, es + fs)
    ensures var s := After(c, es + fs).value;
            && !s.pc.Exited?
            && (s.pc.Wait? ==> s.stopRequested && Signalled(c, es + fs))
            && (s.pc.Top? || s.pc.Idle? ==> s.stopped && !s.stopRequested)
    ensures Count(c, es + fs, Death) == Count(c, es, Death) && Count(c, es + fs, Restart) == Count(c, es, Restart)
    ensures Count(c, es + fs, Fork) == Count(c, es, Fork)
    decreases |fs|
  {
    hide After, Count, Signalled;
    KeptMeans(c, es, es + fs);
    StopReachesTheHouse(c, es + fs);
    if fs == [] {
      assert es + fs == es;
    } else {
      hide Kept;
      var gs := fs[..|fs| - 1];
      Tail(es, fs);
      Earlier(c, es + fs);
      CountsGrow(c, es, gs, Accept);
      CountSnoc(c, es + fs, Accept);
      StopIsKept(c, es, gs);
      KeptMore(c, es, es + fs);
    }
  }
}
