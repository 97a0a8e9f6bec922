/** nwsup.c: main's generation loop, statement by statement, with on_term free to run between any two. */
module Supervisor {
  import opened Decide
  import opened Prelude

  datatype Config = Config(lock: bool, completeOn0: bool, budget: nat, grace: nat)

  /** The next statement of the main thread. */
  datatype Pc =
    | Top                                   // if (stopping)
    | Idle                                  // poll, accept and read on the control socket
    | IdleStart                             // a START was read: decide
    | Open                                  // house_cgroup_open_generation
    | Clone                                 // clone_into_cgroup
    | SetChild(p: nat)                      // child = p
    | PostFork(p: nat)                      // decide
    | PostKill(p: nat)                      // kill(p, nw_stop_signal)
    | Wait(p: nat)                          // wait_house
    | StopSeen(p: nat)                      // handle_ctl_live: stop_requested is set, decide
    | StopKill(p: nat)                      // kill(live, nw_stop_signal)
    | Reaped(st: Status)                    // child = 0
    | Sweep(st: Status)                     // cg_kill_sweep, rmdir
    | Judge(st: Status)                     // decide
    | ClearStop                             // stop_requested = 0
    | SetStopped                            // stopped = 1
    | CountDeath(spent: bool, st: Status)   // deaths++
    | Record(spent: bool, st: Status)       // write_evidence
    | Recorded(spent: bool, st: Status)     // _exit, or continue
    | Exited(code: nat)
    | Failed                                // die

  /** The globals and locals of the loop, and the kernel's view: the generation whose leaf cgroup exists, and what the
      current house process has come to. */
  datatype State = State(pc: Pc, child: nat, stopping: bool, stopRequested: bool, deaths: nat, stopped: bool,
                         cgGen: nat, leaf: Option<nat>, house: Child)

  /** What happens next: a signal, the house's death, one statement of the main thread, or what a system call
      answers. */
  datatype Event =
    | Term
    | Dies(st: Status)
    | Go
    | Nothing            // poll is interrupted, accept finds no one, the request is STOP or malformed
    | StartRead
    | StopRead
    | Cloned(pid: nat)
    | Fails
    | Escalate           // wait_house sends SIGKILL

  function Initial(c: Config): State {
    State(Top, 0, false, false, 0, !c.lock, 0, None, NoChild)
  }

  predicate Over(s: State) { s.pc.Exited? || s.pc.Failed? }

  function ExitCode(st: Status, otherwise: nat): nat {
    if st.Exit? then st.code else otherwise
  }

  /** One statement that asks nothing of the outside. */
  function Statement(c: Config, s: State): Option<State> {
    match s.pc
    case Top =>
      if s.stopping then
        if NwDecide(c.lock, c.completeOn0, s.stopping, s.stopRequested, false, NoChild, s.deaths, c.budget) == EXIT_SUP
        then Some(s.(pc := Exited(0))) else Some(s.(pc := Failed))
      else Some(s.(pc := if s.stopped then Idle else Open))
    case IdleStart =>
      var d := NwDecide(c.lock, c.completeOn0, s.stopping, s.stopRequested, true, NoChild, s.deaths, c.budget);
      if d == FORK then Some(s.(stopped := false, pc := Top))
      else if d == EXIT_SUP then Some(s.(pc := Exited(0)))
      else Some(s.(pc := Top))
    case Open => Some(s.(leaf := Some(s.cgGen), cgGen := s.cgGen + 1, pc := Clone))
    case SetChild(p) => Some(s.(child := p, pc := PostFork(p)))
    case PostFork(p) =>
      var d := NwDecide(c.lock, c.completeOn0, s.stopping, s.stopRequested, false, Running, s.deaths, c.budget);
      Some(s.(pc := if d == TERM_CHILD then PostKill(p) else Wait(p)))
    case PostKill(p) => Some(s.(pc := Wait(p)))
    case Wait(p) => if s.house.Gone? then Some(s.(pc := Reaped(s.house.status), house := NoChild)) else None
    case StopSeen(p) =>
      var d := NwDecide(c.lock, c.completeOn0, s.stopping, s.stopRequested, false, Running, s.deaths, c.budget);
      Some(s.(pc := if d == TERM_CHILD then StopKill(p) else Wait(p)))
    case StopKill(p) => Some(s.(pc := Wait(p)))
    case Reaped(st) => Some(s.(child := 0, pc := Sweep(st)))
    case Sweep(st) => Some(s.(leaf := None, pc := Judge(st)))
    case Judge(st) =>
      var d := NwDecide(c.lock, c.completeOn0, s.stopping, s.stopRequested, false, Gone(st), s.deaths, c.budget);
      if d == EXIT_SUP then Some(s.(pc := Exited(ExitCode(st, 0))))
      else if d == IDLE then Some(s.(pc := ClearStop))
      else if d == SPENT || d == RESTART then Some(s.(pc := CountDeath(d == SPENT, st)))
      else Some(s.(pc := Failed))
    case ClearStop => Some(s.(stopRequested := false, pc := SetStopped))
    case SetStopped => Some(s.(stopped := true, pc := Top))
    case CountDeath(spent, st) => Some(s.(deaths := s.deaths + 1, pc := Record(spent, st)))
    case Record(spent, st) => Some(s.(pc := Recorded(spent, st)))
    case Recorded(spent, st) => Some(s.(pc := if spent then Exited(ExitCode(st, 71)) else Top))
    case _ => None
  }

  /** What an event makes of a state; None when it cannot happen there. */
  function Next(c: Config, s: State, e: Event): Option<State> {
    if Over(s) then None
    else
      match e
      case Term => Some(s.(stopping := true))
      case Dies(st) => if s.house.Running? then Some(s.(house := Gone(st))) else None
      case Go => Statement(c, s)
      case Nothing => if s.pc.Idle? then Some(s.(pc := Top)) else None
      case StartRead =>
        if s.pc.Idle? then Some(s.(pc := IdleStart)) else if s.pc.Wait? then Some(s) else None
      case StopRead =>
        if s.pc.Idle? then Some(s.(pc := Top))
        else if s.pc.Wait? then
          if s.stopRequested then Some(s) else Some(s.(stopRequested := true, pc := StopSeen(s.pc.p)))
        else None
      case Cloned(pid) => if s.pc.Clone? && pid > 0 then Some(s.(house := Running, pc := SetChild(pid))) else None
      case Fails =>
        if s.pc.Open? then Some(s.(pc := Failed))
        else if s.pc.Clone? then Some(s.(leaf := None, pc := Failed))
        else if s.pc.Idle? || s.pc.Wait? then Some(s.(pc := Failed))
        else None
      case Escalate =>
        if s.pc.Wait? && c.grace > 0 && (s.stopping || s.stopRequested) then Some(s) else None
  }

  /** The state after a run, if the run is possible. */
  function After(c: Config, es: seq<Event>): Option<State> {
    if es == [] then Some(Initial(c))
    else
      var s := After(c, es[..|es| - 1]);
      if s.None? then None else Next(c, s.value, es[|es| - 1])
  }

  /** The things a run does that the promises below count. */
  datatype Deed = Fork | Accept | Restart | Death | ForkLate

  predicate Does(c: Config, s: State, e: Event, k: Deed) {
    match k
    case Fork => e.Cloned?
    case ForkLate => e.Cloned? && s.stopping
    case Accept =>
      e.Go? && s.pc.IdleStart?
      && NwDecide(c.lock, c.completeOn0, s.stopping, s.stopRequested, true, NoChild, s.deaths, c.budget) == FORK
    case Restart =>
      e.Go? && s.pc.Judge?
      && NwDecide(c.lock, c.completeOn0, s.stopping, s.stopRequested, false, Gone(s.pc.st), s.deaths, c.budget)
         == RESTART
    case Death => e.Go? && s.pc.CountDeath?
  }

  function One(b: bool): nat { if b then 1 else 0 }

  /** How often a run does `k`. */
  function Count(c: Config, es: seq<Event>, k: Deed): nat
    requires After(c, es).Some?
  {
    if es == [] then 0
    else
      var before := es[..|es| - 1];
      Count(c, before, k) + One(Does(c, After(c, before).value, es[|es| - 1], k))
  }

  /** The ordinals of the evidence records, in the order they are written. */
  function Ordinals(c: Config, es: seq<Event>): seq<nat>
    requires After(c, es).Some?
  {
    if es == [] then []
    else
      var before := es[..|es| - 1];
      var s := After(c, before).value;
      Ordinals(c, before) + if es[|es| - 1].Go? && s.pc.Record? then [s.deaths] else []
  }

  /** The cgroup generation each fork was placed in. */
  function Generations(c: Config, es: seq<Event>): seq<nat>
    requires After(c, es).Some?
  {
    if es == [] then []
    else
      var before := es[..|es| - 1];
      var s := After(c, before).value;
      Generations(c, before) + if es[|es| - 1].Cloned? && s.leaf.Some? then [s.leaf.value] else []
  }

  /** The stop signal has been sent to the current house. */
  predicate Signalled(c: Config, es: seq<Event>)
    requires After(c, es).Some?
  {
    if es == [] then false
    else
      var before := es[..|es| - 1];
      var s, e := After(c, before).value, es[|es| - 1];
      if e.Cloned? then false
      else
        || (e.Term? && s.child > 0)
        || (e.Go? && (s.pc.PostKill? || s.pc.StopKill?))
        || Signalled(c, before)
  }

  /* What every statement keeps. */

  /** From the fork to the reaping. */
  predicate Housed(pc: Pc) {
    pc.SetChild? || pc.PostFork? || pc.PostKill? || pc.Wait? || pc.StopSeen? || pc.StopKill?
  }

  /** Between `child = p` and `child = 0`. */
  predicate Watching(pc: Pc) {
    (Housed(pc) && !pc.SetChild?) || pc.Reaped?
  }

  predicate Dying(pc: Pc) { pc.CountDeath? || pc.Record? || pc.Recorded? }

  predicate Cgrouped(pc: Pc) { pc.Clone? || Housed(pc) || pc.Reaped? || pc.Sweep? }

  ghost predicate Shape(c: Config, s: State) {
    && (s.stopRequested ==> s.pc.Wait? || s.pc.StopSeen? || s.pc.StopKill? || s.pc.Reaped? || s.pc.Sweep? || s.pc.Judge?
                            || s.pc.ClearStop? || Over(s))
    && (s.pc.StopSeen? || s.pc.StopKill? ==> s.stopRequested)
    && (!Over(s) ==> (s.child > 0 <==> Watching(s.pc)))
    && (Housed(s.pc) && Watching(s.pc) ==> s.child == s.pc.p)
    && (s.pc.SetChild? ==> s.pc.p > 0)
    && (!Over(s) ==> (s.house.NoChild? <==> !Housed(s.pc)))
    && (!Over(s) ==> s.leaf == if Cgrouped(s.pc) && s.cgGen > 0 then Some(s.cgGen - 1) else None)
    && (Cgrouped(s.pc) ==> s.cgGen > 0)
    && (s.stopped ==> s.pc.Top? || s.pc.Idle? || s.pc.IdleStart? || Over(s))
    && (s.pc.Idle? || s.pc.IdleStart? ==> s.stopped)
  }

  ghost predicate Budgeted(c: Config, s: State) {
    && s.deaths <= c.budget + 1
    && (s.pc.CountDeath? ==> c.lock && s.deaths <= c.budget && (s.pc.spent <==> s.deaths == c.budget))
    && (s.pc.Record? || s.pc.Recorded? ==> c.lock && s.deaths >= 1 && (s.pc.spent <==> s.deaths == c.budget + 1))
    && (!Dying(s.pc) && !Over(s) ==> s.deaths <= c.budget)
    && (!c.lock ==> s.deaths == 0)
  }

  lemma GoIsStatement(c: Config, s: State)
    requires Next(c, s, Go).Some?
    ensures !Over(s) && Statement(c, s) == Next(c, s, Go)
  {
    hide Statement;
  }

  /** In a generation, and out of one. */
  predicate Inside(pc: Pc) {
    pc.Open? || Cgrouped(pc) || pc.Judge?
  }

  lemma ShapeInside(c: Config, s: State)
    requires Shape(c, s) && Statement(c, s).Some? && Inside(s.pc)
    ensures Shape(c, Statement(c, s).value)
  {
    hide NwDecide;
  }

  lemma ShapeOutside(c: Config, s: State)
    requires Shape(c, s) && Statement(c, s).Some? && !Inside(s.pc)
    ensures Shape(c, Statement(c, s).value)
  {
    hide NwDecide;
  }

  lemma ShapeAnswer(c: Config, s: State, e: Event)
    requires Shape(c, s) && Next(c, s, e).Some? && !e.Go?
    ensures Shape(c, Next(c, s, e).value)
  {
    hide Statement;
  }

  lemma ShapeStep(c: Config, s: State, e: Event)
    requires Shape(c, s) && Next(c, s, e).Some?
    ensures Shape(c, Next(c, s, e).value)
  {
    hide Shape, Next, Statement, Inside;
    if !e.Go? {
      ShapeAnswer(c, s, e);
    } else {
      GoIsStatement(c, s);
      if Inside(s.pc) {
        ShapeInside(c, s);
      } else {
        ShapeOutside(c, s);
      }
    }
  }

  lemma BudgetInside(c: Config, s: State)
    requires Budgeted(c, s) && Statement(c, s).Some? && Inside(s.pc) && !s.pc.Judge?
    ensures Budgeted(c, Statement(c, s).value)
  {
    hide NwDecide;
  }

  lemma BudgetJudge(c: Config, s: State)
    requires Budgeted(c, s) && s.pc.Judge?
    ensures Statement(c, s).Some? && Budgeted(c, Statement(c, s).value)
  {
    hide NwDecide;
  }

  lemma BudgetOutside(c: Config, s: State)
    requires Budgeted(c, s) && Statement(c, s).Some? && !Inside(s.pc)
    ensures Budgeted(c, Statement(c, s).value)
  {
    hide NwDecide;
  }

  lemma BudgetAnswer(c: Config, s: State, e: Event)
    requires Budgeted(c, s) && Next(c, s, e).Some? && !e.Go?
    ensures Budgeted(c, Next(c, s, e).value)
  {
    hide Statement;
  }

  lemma BudgetStep(c: Config, s: State, e: Event)
    requires Budgeted(c, s) && Next(c, s, e).Some?
    ensures Budgeted(c, Next(c, s, e).value)
  {
    hide Budgeted, Next, Statement, Inside;
    if !e.Go? {
      BudgetAnswer(c, s, e);
    } else {
      GoIsStatement(c, s);
      if s.pc.Judge? {
        BudgetJudge(c, s);
      } else if Inside(s.pc) {
        BudgetInside(c, s);
      } else {
        BudgetOutside(c, s);
      }
    }
  }

  /** A fork is due: the first of a locked house, or one that a START or a RESTART has earned. */
  predicate Owes(s: State) {
    (!s.stopped && (s.pc.Top? || s.pc.Open? || s.pc.Clone?)) || (Dying(s.pc) && !s.pc.spent)
  }

  lemma OwesStep(c: Config, s: State, e: Event)
    requires Shape(c, s) && Budgeted(c, s) && Next(c, s, e).Some?
    ensures var t := Next(c, s, e).value;
            var before := One(Owes(s)) + One(Does(c, s, e, Restart)) + One(Does(c, s, e, Accept));
            && One(Owes(t)) + One(Does(c, s, e, Fork)) <= before
            && (!Over(t) ==> One(Owes(t)) + One(Does(c, s, e, Fork)) == before)
  {
  }

  lemma LateStep(c: Config, s: State, e: Event, late: nat)
    requires Shape(c, s) && Next(c, s, e).Some?
    requires (!s.stopping ==> late == 0) && late + One(s.stopping && (s.pc.Open? || s.pc.Clone?)) <= 1
    ensures var t, late' := Next(c, s, e).value, late + One(Does(c, s, e, ForkLate));
            (!t.stopping ==> late' == 0) && late' + One(t.stopping && (t.pc.Open? || t.pc.Clone?)) <= 1
  {
  }

  lemma GenerationStep(c: Config, s: State, e: Event, forks: nat)
    requires Shape(c, s) && Next(c, s, e).Some?
    requires !Over(s) ==> s.cgGen == forks + One(s.pc.Clone?)
    ensures var t := Next(c, s, e).value;
            !Over(t) ==> t.cgGen == forks + One(Does(c, s, e, Fork)) + One(t.pc.Clone?)
    ensures e.Cloned? ==> s.leaf == Some(forks)
  {
  }

  lemma SignalStep(c: Config, s: State, e: Event, signalled: bool)
    requires Shape(c, s) && Next(c, s, e).Some?
    requires s.pc.Wait? && (s.stopping || s.stopRequested) ==> signalled
    ensures var t := Next(c, s, e).value;
            var after := !e.Cloned?
                         && ((e.Term? && s.child > 0) || (e.Go? && (s.pc.PostKill? || s.pc.StopKill?)) || signalled);
            t.pc.Wait? && (t.stopping || t.stopRequested) ==> after
  {
  }

  /** A death is counted by one statement and recorded by the next. */
  ghost predicate DeathTold(s: State, t: State, counts: bool, records: bool) {
    && t.deaths == s.deaths + One(counts)
    && (counts ==> t.pc.Record? && !s.pc.Record?)
    && (records ==> !t.pc.Record?)
    && (!counts && !records ==> t.pc.Record? == s.pc.Record?)
  }

  lemma DeathStatement(c: Config, s: State)
    requires Statement(c, s).Some?
    ensures DeathTold(s, Statement(c, s).value, s.pc.CountDeath?, s.pc.Record?)
  {
    hide NwDecide;
  }

  lemma DeathStep(c: Config, s: State, e: Event)
    requires Next(c, s, e).Some?
    ensures DeathTold(s, Next(c, s, e).value, Does(c, s, e, Death), e.Go? && s.pc.Record?)
  {
    hide Statement;
    if e.Go? {
      GoIsStatement(c, s);
      DeathStatement(c, s);
    }
  }

  function UpTo(n: nat): (r: seq<nat>)
    ensures |r| == n && forall i :: 0 <= i < n ==> r[i] == i
  {
    seq(n, i => i)
  }

  function OneTo(n: nat): (r: seq<nat>)
    ensures |r| == n && forall i :: 0 <= i < n ==> r[i] == i + 1
  {
    seq(n, i => i + 1)
  }

  /* What a run has done, against where it stands. */

  /** Every death is counted once and recorded once, in order. */
  ghost predicate DeathsTold(c: Config, es: seq<Event>)
    requires After(c, es).Some?
  {
    var s := After(c, es).value;
    && Count(c, es, Death) == s.deaths
    && s.deaths >= One(s.pc.Record?) && Ordinals(c, es) == OneTo(s.deaths - One(s.pc.Record?))
  }

  /** Every fork is paid for. */
  ghost predicate ForksPaid(c: Config, es: seq<Event>)
    requires After(c, es).Some?
  {
    var s := After(c, es).value;
    && Count(c, es, Fork) + One(Owes(s)) <= One(c.lock) + Count(c, es, Restart) + Count(c, es, Accept)
    && (!Over(s) ==> Count(c, es, Fork) + One(Owes(s)) == One(c.lock) + Count(c, es, Restart) + Count(c, es, Accept))
  }

  /** Every fork has a generation to itself. */
  ghost predicate GenerationsFresh(c: Config, es: seq<Event>)
    requires After(c, es).Some?
  {
    var s := After(c, es).value;
    && (!Over(s) ==> s.cgGen == Count(c, es, Fork) + One(s.pc.Clone?))
    && Generations(c, es) == UpTo(Count(c, es, Fork))
  }

  ghost predicate AtMostOneLate(c: Config, es: seq<Event>)
    requires After(c, es).Some?
  {
    var s := After(c, es).value;
    && (!s.stopping ==> Count(c, es, ForkLate) == 0)
    && Count(c, es, ForkLate) + One(s.stopping && (s.pc.Open? || s.pc.Clone?)) <= 1
  }

  ghost predicate StopSent(c: Config, es: seq<Event>)
    requires After(c, es).Some?
  {
    var s := After(c, es).value;
    s.pc.Wait? && (s.stopping || s.stopRequested) ==> Signalled(c, es)
  }

  ghost predicate Ledger(c: Config, es: seq<Event>)
    requires After(c, es).Some?
  {
    DeathsTold(c, es) && ForksPaid(c, es) && GenerationsFresh(c, es) && AtMostOneLate(c, es) && StopSent(c, es)
  }

  /** A run that is not empty: the state before its last event, and the event. */
  lemma Snoc(c: Config, es: seq<Event>) returns (before: seq<Event>, s: State, e: Event)
    requires es != [] && After(c, es).Some?
    ensures before == es[..|es| - 1] && e == es[|es| - 1]
    ensures After(c, before) == Some(s) && Next(c, s, e) == After(c, es)
  {
    before, e := es[..|es| - 1], es[|es| - 1];
    s := After(c, before).value;
  }

  lemma CountSnoc(c: Config, es: seq<Event>, k: Deed)
    requires es != [] && After(c, es).Some?
    ensures After(c, es[..|es| - 1]).Some?
    ensures Count(c, es, k)
         == Count(c, es[..|es| - 1], k) + One(Does(c, After(c, es[..|es| - 1]).value, es[|es| - 1], k))
  {
  }

  lemma DeathsTell(c: Config, es: seq<Event>)
    requires es != [] && After(c, es).Some? && After(c, es[..|es| - 1]).Some? && DeathsTold(c, es[..|es| - 1])
    ensures DeathsTold(c, es)
  {
    hide Next, Does, Count, Ordinals, OneTo;
    var before, s, e := Snoc(c, es);
    CountSnoc(c, es, Death);
    OrdinalsSnoc(c, es);
    DeathStep(c, s, e);
    OneToSnoc(s.deaths - One(s.pc.Record?));
  }

  lemma OrdinalsSnoc(c: Config, es: seq<Event>)
    requires es != [] && After(c, es).Some?
    ensures After(c, es[..|es| - 1]).Some?
    ensures var s := After(c, es[..|es| - 1]).value;
            Ordinals(c, es) == Ordinals(c, es[..|es| - 1]) + if es[|es| - 1].Go? && s.pc.Record? then [s.deaths] else []
  {
  }

  lemma GenerationsSnoc(c: Config, es: seq<Event>)
    requires es != [] && After(c, es).Some?
    ensures After(c, es[..|es| - 1]).Some?
    ensures var s := After(c, es[..|es| - 1]).value;
            Generations(c, es) == Generations(c, es[..|es| - 1])
              + if es[|es| - 1].Cloned? && s.leaf.Some? then [s.leaf.value] else []
  {
  }

  lemma OneToSnoc(n: nat)
    ensures OneTo(n + 1) == OneTo(n) + [n + 1]
  {
  }

  lemma UpToSnoc(n: nat)
    ensures UpTo(n + 1) == UpTo(n) + [n]
  {
  }

  lemma ForksPay(c: Config, es: seq<Event>)
    requires es != [] && After(c, es).Some? && After(c, es[..|es| - 1]).Some? && ForksPaid(c, es[..|es| - 1])
    requires Shape(c, After(c, es[..|es| - 1]).value) && Budgeted(c, After(c, es[..|es| - 1]).value)
    ensures ForksPaid(c, es)
  {
    hide Next, Count, Owes, Shape, Budgeted, Does;
    var before, s, e := Snoc(c, es);
    CountSnoc(c, es, Fork);
    CountSnoc(c, es, Restart);
    CountSnoc(c, es, Accept);
    OverStays(c, s, e);
    OwesStep(c, s, e);
  }

  lemma OverStays(c: Config, s: State, e: Event)
    requires Next(c, s, e).Some?
    ensures !Over(s)
  {
  }

  lemma GenerationsGrow(c: Config, es: seq<Event>)
    requires es != [] && After(c, es).Some? && After(c, es[..|es| - 1]).Some? && GenerationsFresh(c, es[..|es| - 1])
    requires Shape(c, After(c, es[..|es| - 1]).value)
    ensures GenerationsFresh(c, es)
  {
    hide Next, Count, Shape, Generations, UpTo;
    var before, s, e := Snoc(c, es);
    CountSnoc(c, es, Fork);
    GenerationsSnoc(c, es);
    OverStays(c, s, e);
    GenerationStep(c, s, e, Count(c, before, Fork));
    UpToSnoc(Count(c, before, Fork));
  }

  lemma LateStays(c: Config, es: seq<Event>)
    requires es != [] && After(c, es).Some? && After(c, es[..|es| - 1]).Some? && AtMostOneLate(c, es[..|es| - 1])
    requires Shape(c, After(c, es[..|es| - 1]).value)
    ensures AtMostOneLate(c, es)
  {
    hide Next, Count, Shape;
    var before, s, e := Snoc(c, es);
    CountSnoc(c, es, ForkLate);
    LateStep(c, s, e, Count(c, before, ForkLate));
  }

  lemma StopStaysSent(c: Config, es: seq<Event>)
    requires es != [] && After(c, es).Some? && After(c, es[..|es| - 1]).Some? && StopSent(c, es[..|es| - 1])
    requires Shape(c, After(c, es[..|es| - 1]).value)
    ensures StopSent(c, es)
  {
    hide Next, Shape;
    var before, s, e := Snoc(c, es);
    SignalStep(c, s, e, Signalled(c, before));
  }

  /** Every run keeps its shape, its budget and its ledger. */
  lemma {:induction false} RunKeeps(c: Config, es: seq<Event>)
    requires After(c, es).Some?
    ensures Shape(c, After(c, es).value) && Budgeted(c, After(c, es).value) && Ledger(c, es)
  {
    if es == [] {
    } else {
      hide Next, Shape, Budgeted, DeathsTold, ForksPaid, GenerationsFresh, AtMostOneLate, StopSent;
      var before, s, e := Snoc(c, es);
      RunKeeps(c, before);
      ShapeStep(c, s, e);
      BudgetStep(c, s, e);
      DeathsTell(c, es);
      ForksPay(c, es);
      GenerationsGrow(c, es);
      LateStays(c, es);
      StopStaysSent(c, es);
    }
  }

  /* The promises. */

  /** The budget is a hard total: no run counts more than budget + 1 deaths, whatever was started and stopped
      in between; each is recorded once, under its own ordinal; an unlocked house has none. */
  lemma BudgetIsHard(c: Config, es: seq<Event>)
    requires After(c, es).Some?
    ensures Count(c, es, Death) <= c.budget + 1 && (!c.lock ==> Count(c, es, Death) == 0)
    ensures |Ordinals(c, es)| + One(After(c, es).value.pc.Record?) == Count(c, es, Death)
    ensures Ordinals(c, es) == OneTo(|Ordinals(c, es)|)
  {
    hide Next, Shape, ForksPaid, GenerationsFresh, AtMostOneLate, StopSent, Count, Ordinals;
    RunKeeps(c, es);
  }

  /** Forks: the first of a locked house, one for each RESTART, one for each accepted START, none owed while a house is
      waited for or the loop is idle; each in a generation of its own. */
  lemma ForksAreEarned(c: Config, es: seq<Event>)
    requires After(c, es).Some?
    ensures Count(c, es, Fork) <= One(c.lock) + Count(c, es, Restart) + Count(c, es, Accept)
    ensures var s := After(c, es).value;
            s.pc.Idle? || s.pc.Wait? ==>
              Count(c, es, Fork) == One(c.lock) + Count(c, es, Restart) + Count(c, es, Accept)
    ensures Generations(c, es) == UpTo(Count(c, es, Fork))
  {
    RunKeeps(c, es);
  }

  /** At the top of the loop nothing is left of the generation before; and a leaf is only made when none exists. */
  lemma TopIsClean(c: Config, es: seq<Event>)
    requires After(c, es).Some?
    ensures var s := After(c, es).value;
            s.pc.Top? || s.pc.Open? ==> !s.stopRequested && s.child == 0 && s.house.NoChild? && s.leaf.None?
  {
    RunKeeps(c, es);
  }

  /** When wait_house is entered, or turns, or blocks with a stop pending, the house has been sent the stop signal; and
      nothing is killed outright before that, or without a grace period. */
  lemma StopReachesTheHouse(c: Config, es: seq<Event>)
    requires After(c, es).Some?
    ensures var s := After(c, es).value; s.pc.Wait? && (s.stopping || s.stopRequested) ==> Signalled(c, es)
    ensures After(c, es + [Escalate]).Some? ==> Signalled(c, es) && c.grace > 0
  {
    RunKeeps(c, es);
    assert (es + [Escalate])[..|es|] == es;
  }

  lemma StoppingDeeds(c: Config, s: State, e: Event)
    requires s.stopping && Next(c, s, e).Some?
    ensures Next(c, s, e).value.stopping
    ensures !Does(c, s, e, Restart) && !Does(c, s, e, Accept) && Does(c, s, e, Fork) == Does(c, s, e, ForkLate)
  {
  }

  /** Once the shutdown flag is up it stays up, and there is at most one fork more, no RESTART and no accepted START. */
  lemma {:induction false} ShutdownWinds(c: Config, es: seq<Event>, fs: seq<Event>)
    requires After(c, es + fs).Some? && After(c, es).Some? && After(c, es).value.stopping
    ensures After(c, es + fs).value.stopping
    ensures Count(c, es + fs, Fork) - Count(c, es, Fork) == Count(c, es + fs, ForkLate) - Count(c, es, ForkLate) <= 1
    ensures Count(c, es + fs, Restart) == Count(c, es, Restart) && Count(c, es + fs, Accept) == Count(c, es, Accept)
    decreases |fs|
  {
    hide Next, Does, Count, Shape, Budgeted, DeathsTold, ForksPaid, GenerationsFresh, StopSent;
    RunKeeps(c, es + fs);
    if fs == [] {
      assert es + fs == es;
    } else {
      var gs := es + fs[..|fs| - 1];
      var before, s, e := Snoc(c, es + fs);
      assert before == gs;
      ShutdownWinds(c, es, fs[..|fs| - 1]);
      StoppingDeeds(c, s, e);
      CountSnoc(c, es + fs, Fork);
      CountSnoc(c, es + fs, ForkLate);
      CountSnoc(c, es + fs, Restart);
      CountSnoc(c, es + fs, Accept);
      assert Count(c, es + fs, ForkLate) <= 1;
    }
  }

  lemma SpentDeeds(c: Config, s: State, e: Event)
    requires Budgeted(c, s) && Shape(c, s) && s.deaths == c.budget + 1 && Next(c, s, e).Some?
    ensures !Does(c, s, e, Fork) && !Does(c, s, e, Death)
  {
  }

  lemma CountedDeaths(c: Config, es: seq<Event>)
    requires After(c, es).Some? && DeathsTold(c, es)
    ensures Count(c, es, Death) == After(c, es).value.deaths
  {
  }

  /** SPENT is final: past the budget nothing is forked and nothing is counted. */
  lemma {:induction false} SpentIsFinal(c: Config, es: seq<Event>, fs: seq<Event>)
    requires After(c, es + fs).Some? && After(c, es).Some? && Count(c, es, Death) == c.budget + 1
    ensures Count(c, es + fs, Death) == c.budget + 1 && Count(c, es + fs, Fork) == Count(c, es, Fork)
    decreases |fs|
  {
    hide Next, Does, Count, Shape, Budgeted, DeathsTold, ForksPaid, GenerationsFresh, StopSent, AtMostOneLate;
    if fs == [] {
      assert es + fs == es;
    } else {
      var gs := es + fs[..|fs| - 1];
      var before, s, e := Snoc(c, es + fs);
      assert before == gs;
      SpentIsFinal(c, es, fs[..|fs| - 1]);
      RunKeeps(c, gs);
      CountedDeaths(c, gs);
      SpentDeeds(c, s, e);
      CountSnoc(c, es + fs, Fork);
      CountSnoc(c, es + fs, Death);
    }
  }
}
