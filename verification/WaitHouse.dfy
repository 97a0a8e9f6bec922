/** nwsup.c: wait_house, the pidfd tier and the polling tier, against whatever the kernel answers. */
module WaitHouse {
  /** NW_GRACE_MAX_MS */
  const GRACE_MAX: nat := 2147483647
  const CYCLE_MS: nat := 50

  datatype Poll = Elapsed | Interrupted | Broken | Ready(ctl: bool, exited: bool)

  datatype Request = START | STOP | Malformed | NoOne

  /** One turn of the loop as the outside decides it: whether on_term has run by the loop test, how the poll ends, what
      the control socket holds, and whether waitpid finds the house gone. */
  datatype Round = Round(term: bool, poll: Poll, request: Request, gone: bool)

  /** How the wait ends; Waiting when the rounds run out before it does. */
  datatype Outcome = Reaped | Killed | Failed | Waiting

  /** What the loop does: its test, an elapsed 50 ms cycle, a bounded wait, a served request, a SIGKILL. */
  datatype Act = Test(armed: bool) | Cycle | Window(ms: nat) | Serve(request: Request) | Kill

  /** A whole wait: its outcome, stop_requested at the end, and all it did. */
  datatype Wait = Wait(outcome: Outcome, requested: bool, log: seq<Act>) {
    function After(acts: seq<Act>): Wait { Wait(outcome, requested, acts + log) }
  }

  /** The 50 ms cycles a grace period of `g` ms takes. */
  function CyclesOf(g: nat): nat { (g + CYCLE_MS - 1) / CYCLE_MS }

  /** armed_cycles * 50 in 32-bit arithmetic. */
  function Elapsed32(cycles: nat): nat { (cycles * CYCLE_MS) % 0x1_0000_0000 }

  /** handle_ctl_live, as far as stop_requested goes. */
  function Requested(requested: bool, request: Request): bool { requested || request == STOP }

  /** The polling tier over a sequence of rounds, `cycles` being armed_cycles. Once armed it polls no
      descriptor, so that whatever ends the poll without an error is an elapsed cycle. */
  function Polling(g: nat, stopping: bool, requested: bool, cycles: nat, env: seq<Round>): Wait
    decreases |env|
  {
    if env == [] then Wait(Waiting, requested, [])
    else
      var e := env[0];
      var stop := stopping || e.term;
      var armed := g != 0 && (stop || requested);
      var n := if armed then cycles else 0;
      var test := [Test(armed)];
      if armed && Elapsed32(n) >= g then Wait(Killed, requested, test + [Kill])
      else if e.poll.Broken? then Wait(Failed, requested, test)
      else if e.poll.Interrupted? then Polling(g, stop, requested, n, env[1..]).After(test)
      else if e.gone then Wait(Reaped, requested, if armed then test + [Cycle] else test)
      else if armed then Polling(g, stop, requested, n + 1, env[1..]).After(test + [Cycle])
      else if e.poll.Ready? && e.poll.ctl then
        Polling(g, stop, Requested(requested, e.request), 0, env[1..]).After(test + [Serve(e.request)])
      else Polling(g, stop, requested, 0, env[1..]).After(test)
  }

  /** The pidfd tier. */
  function Pidfd(g: nat, stopping: bool, requested: bool, env: seq<Round>): Wait
    decreases |env|
  {
    if env == [] then Wait(Waiting, requested, [])
    else
      var e := env[0];
      var stop := stopping || e.term;
      if g != 0 && (stop || requested) then
        var acts := [Test(true), Window(g)];
        match e.poll
        case Interrupted => Pidfd(g, stop, requested, env[1..]).After(acts)
        case Broken => Wait(Failed, requested, acts)
        case Elapsed => Wait(Killed, requested, acts + [Kill])
        case Ready(_, _) => Wait(Reaped, requested, acts)
      else
        match e.poll
        case Interrupted => Pidfd(g, stop, requested, env[1..]).After([Test(false)])
        case Broken => Wait(Failed, requested, [Test(false)])
        case Elapsed => Pidfd(g, stop, requested, env[1..]).After([Test(false)])
        case Ready(ctl, exited) =>
          var now := if ctl then Requested(requested, e.request) else requested;
          var acts := if ctl then [Test(false), Serve(e.request)] else [Test(false)];
          if exited then Wait(Reaped, now, acts) else Pidfd(g, stop, now, env[1..]).After(acts)
  }

  /* The loops. */

  lemma AfterTwice(w: Wait, a: seq<Act>, b: seq<Act>)
    ensures w.After(b).After(a) == w.After(a + b)
  {
    assert a + (b + w.log) == a + b + w.log;
  }

  lemma AfterNone(w: Wait)
    ensures w.After([]) == w
  {
    assert [] + w.log == w.log;
  }

  /** One round of the polling tier, from what the loop holds: the wait is over, or it goes on with the rest. */
  lemma PollingStep(whole: Wait, log: seq<Act>, g: nat, stopping: bool, requested: bool, cycles: nat, env: seq<Round>,
                    i: nat, stop: bool, now: bool, n: nat, acts: seq<Act>)
    requires i < |env|
    requires whole == Polling(g, stopping, requested, cycles, env[i..]).After(log)
    requires Polling(g, stopping, requested, cycles, env[i..]) == Polling(g, stop, now, n, env[i..][1..]).After(acts)
    ensures whole == Polling(g, stop, now, n, env[i + 1..]).After(log + acts)
  {
    assert env[i..][1..] == env[i + 1..];
    AfterTwice(Polling(g, stop, now, n, env[i + 1..]), log, acts);
  }

  lemma PidfdStep(whole: Wait, log: seq<Act>, g: nat, stopping: bool, requested: bool, env: seq<Round>,
                  i: nat, stop: bool, now: bool, acts: seq<Act>)
    requires i < |env|
    requires whole == Pidfd(g, stopping, requested, env[i..]).After(log)
    requires Pidfd(g, stopping, requested, env[i..]) == Pidfd(g, stop, now, env[i..][1..]).After(acts)
    ensures whole == Pidfd(g, stop, now, env[i + 1..]).After(log + acts)
  {
    assert env[i..][1..] == env[i + 1..];
    AfterTwice(Pidfd(g, stop, now, env[i + 1..]), log, acts);
  }

  /** The polling tier: no descriptor tells of the house's end. */
  method PollingTier(g: nat, stopping0: bool, requested0: bool, env: seq<Round>) returns (w: Wait)
    ensures w == Polling(g, stopping0, requested0, 0, env)
  {
    ghost var whole := Polling(g, stopping0, requested0, 0, env);
    var stopping, requested := stopping0, requested0;
    var armedCycles := 0;
    var log: seq<Act> := [];
    assert env[0..] == env;
    AfterNone(whole);
    for i := 0 to |env|
      invariant whole == Polling(g, stopping, requested, armedCycles, env[i..]).After(log)
    {
      var e := env[i];
      ghost var s, q, c, l := stopping, requested, armedCycles, log;
      stopping := stopping || e.term;
      var armed := g != 0 && (stopping || requested);
      log := log + [Test(armed)];
      if armed {
        if Elapsed32(armedCycles) >= g {
          return Wait(Killed, requested, log + [Kill]);
        }
      } else {
        armedCycles := 0;
      }
      if e.poll.Broken? {
        return Wait(Failed, requested, log);
      }
      if e.poll.Interrupted? {
        PollingStep(whole, l, g, s, q, c, env, i, stopping, requested, armedCycles, [Test(armed)]);
        continue;
      }
      if armed {
        armedCycles := armedCycles + 1;
        log := log + [Cycle];
      }
      if e.gone {
        return Wait(Reaped, requested, log);
      }
      if !armed && e.poll.Ready? && e.poll.ctl {
        requested := Requested(requested, e.request);
        log := log + [Serve(e.request)];
      }
      ghost var acts := if armed then [Test(armed)] + [Cycle]
                        else if e.poll.Ready? && e.poll.ctl then [Test(armed)] + [Serve(e.request)]
                        else [Test(armed)];
      PollingStep(whole, l, g, s, q, c, env, i, stopping, requested, armedCycles, acts);
      assert log == l + acts;
    }
    return Wait(Waiting, requested, log);
  }

  /** struct timespec */
  datatype Timespec = Timespec(sec: nat, nsec: nat)

  function GraceTs(g: nat): (ts: Timespec)
    ensures ts.nsec < 1_000_000_000 && ts.sec * 1000 + ts.nsec / 1_000_000 == g
  {
    Timespec(g / 1000, (g % 1000) * 1_000_000)
  }

  /** The pidfd tier: the house's end is a descriptor becoming ready. */
  method PidfdTier(g: nat, stopping0: bool, requested0: bool, env: seq<Round>) returns (w: Wait)
    ensures w == Pidfd(g, stopping0, requested0, env)
  {
    ghost var whole := Pidfd(g, stopping0, requested0, env);
    var stopping, requested := stopping0, requested0;
    var log: seq<Act> := [];
    assert env[0..] == env;
    AfterNone(whole);
    for i := 0 to |env|
      invariant whole == Pidfd(g, stopping, requested, env[i..]).After(log)
    {
      var e := env[i];
      ghost var s, q, l := stopping, requested, log;
      stopping := stopping || e.term;
      if g != 0 && (stopping || requested) {
        var ts := GraceTs(g);
        log := log + [Test(true), Window(ts.sec * 1000 + ts.nsec / 1_000_000)];
        match e.poll {
          case Interrupted =>
            PidfdStep(whole, l, g, s, q, env, i, stopping, requested, [Test(true), Window(g)]);
            continue;
          case Broken => return Wait(Failed, requested, log);
          case Elapsed =>
            assert log + [Kill] == l + ([Test(true), Window(g)] + [Kill]);
            return Wait(Killed, requested, log + [Kill]);
          case Ready(_, _) => return Wait(Reaped, requested, log);
        }
      }
      var acts := [Test(false)];
      match e.poll {
        case Broken => return Wait(Failed, requested, log + acts);
        case Ready(ctl, exited) =>
          if ctl {
            requested := Requested(requested, e.request);
            acts := [Test(false), Serve(e.request)];
          }
          log := log + acts;
          if exited { return Wait(Reaped, requested, log); }
          PidfdStep(whole, l, g, s, q, env, i, stopping, requested, acts);
        case _ =>
          log := log + acts;
          PidfdStep(whole, l, g, s, q, env, i, stopping, requested, [Test(false)]);
      }
    }
    return Wait(Waiting, requested, log);
  }

  /* What a wait does. */

  predicate IsTest(a: Act) { a.Test? }
  predicate IsCycle(a: Act) { a.Cycle? }
  predicate IsWindow(a: Act) { a.Window? }

  function Count(log: seq<Act>, kind: Act -> bool): nat {
    if log == [] then 0 else (if kind(log[0]) then 1 else 0) + Count(log[1..], kind)
  }

  /** One round's acts put before the rest. */
  lemma RoundCounts(a: Act, b: Act, log: seq<Act>, kind: Act -> bool)
    ensures Count([a] + log, kind) == (if kind(a) then 1 else 0) + Count(log, kind)
    ensures Count([a, b] + log, kind) == (if kind(a) then 1 else 0) + (if kind(b) then 1 else 0) + Count(log, kind)
  {
    assert ([a] + log)[1..] == log;
    assert ([a, b] + log)[1..] == [b] + log && ([b] + log)[1..] == log;
  }

  /** Nothing is done but by a wait that has seen a stop: no request is served, no test fails. */
  ghost predicate Armed(log: seq<Act>) {
    forall i :: 0 <= i < |log| ==> !log[i].Serve? && log[i] != Test(false)
  }

  /** After a test that saw a stop, every test does, and no request is served. */
  ghost predicate Calm(log: seq<Act>) {
    forall i, j :: 0 <= i < j < |log| && log[i] == Test(true) ==> !log[j].Serve? && log[j] != Test(false)
  }

  /** A wait that kills does so last and once; any other not at all. */
  ghost predicate KillsLast(w: Wait) {
    if w.outcome.Killed? then |w.log| > 0 && w.log[|w.log| - 1] == Kill && Kill !in w.log[..|w.log| - 1]
    else Kill !in w.log
  }

  lemma KillStaysLast(w: Wait, acts: seq<Act>)
    requires KillsLast(w) && Kill !in acts
    ensures KillsLast(w.After(acts))
  {
    var log := acts + w.log;
    if w.outcome.Killed? {
      assert log[..|log| - 1] == acts + w.log[..|w.log| - 1];
    }
  }

  lemma StaysCalm(acts: seq<Act>, log: seq<Act>)
    requires Calm(log) && Calm(acts) && (Test(true) in acts ==> Armed(log))
    ensures Calm(acts + log)
  {
    var all := acts + log;
    forall i, j | 0 <= i < j < |all| && all[i] == Test(true) ensures !all[j].Serve? && all[j] != Test(false) {
      if i < |acts| <= j {
        assert acts[i] in acts && all[j] == log[j - |acts|];
      }
    }
  }

  /** No request is served after a test that saw a stop, a kill comes last and after such a test, and without a grace
      period there is neither. */
  ghost predicate Orderly(w: Wait, g: nat) {
    && Calm(w.log) && KillsLast(w)
    && (w.outcome.Killed? ==> Test(true) in w.log)
    && (Test(true) in w.log ==> g > 0)
  }

  lemma OrderlyAfter(w: Wait, g: nat, acts: seq<Act>)
    requires Orderly(w, g) && Calm(acts) && Kill !in acts && (Test(true) in acts ==> g > 0 && Armed(w.log))
    ensures Orderly(w.After(acts), g)
  {
    StaysCalm(acts, w.log);
    KillStaysLast(w, acts);
  }

  lemma ArmedAfter(w: Wait, acts: seq<Act>)
    requires Armed(acts) && Armed(w.log)
    ensures Armed(w.After(acts).log)
  {
  }

  ghost predicate Uninterrupted(env: seq<Round>) {
    forall i :: 0 <= i < |env| ==> !env[i].poll.Interrupted?
  }

  /** The product does not wrap while the count is in range, and reaches the period exactly at the last cycle. */
  lemma NoWrap(g: nat, n: nat)
    requires 0 < g <= GRACE_MAX && n <= CyclesOf(g)
    ensures Elapsed32(n) == n * CYCLE_MS <= g + 49
    ensures Elapsed32(n) >= g <==> n == CyclesOf(g)
  {
  }

  /** A round of the polling tier that has seen a stop. */
  lemma ArmedRound(g: nat, stopping: bool, requested: bool, cycles: nat, env: seq<Round>)
    requires 0 < g <= GRACE_MAX && (stopping || requested) && cycles <= CyclesOf(g) && env != []
    ensures var e := env[0];
            var stop := stopping || e.term;
            Polling(g, stopping, requested, cycles, env) ==
              if cycles == CyclesOf(g) then Wait(Killed, requested, [Test(true), Kill])
              else if e.poll.Broken? then Wait(Failed, requested, [Test(true)])
              else if e.poll.Interrupted? then Polling(g, stop, requested, cycles, env[1..]).After([Test(true)])
              else if e.gone then Wait(Reaped, requested, [Test(true), Cycle])
              else Polling(g, stop, requested, cycles + 1, env[1..]).After([Test(true), Cycle])
  {
    NoWrap(g, cycles);
    assert [Test(true)] + [Kill] == [Test(true), Kill] && [Test(true)] + [Cycle] == [Test(true), Cycle];
  }

  /** What one armed round does. */
  lemma ArmedActs(outcome: Outcome, requested: bool)
    ensures Armed([]) && Armed([Test(true)]) && Armed([Test(true), Cycle]) && Armed([Test(true), Kill])
    ensures KillsLast(Wait(Killed, requested, [Test(true), Kill]))
    ensures !outcome.Killed? ==>
              && KillsLast(Wait(outcome, requested, [])) && KillsLast(Wait(outcome, requested, [Test(true)]))
              && KillsLast(Wait(outcome, requested, [Test(true), Cycle]))
  {
  }

  /** Once armed the polling tier serves nothing, and a kill is the last thing it does. */
  lemma {:induction false} ArmedServesNothing(g: nat, stopping: bool, requested: bool, cycles: nat, env: seq<Round>)
    requires 0 < g <= GRACE_MAX && (stopping || requested) && cycles <= CyclesOf(g)
    ensures var w := Polling(g, stopping, requested, cycles, env);
            Armed(w.log) && w.requested == requested && KillsLast(w)
    decreases |env|
  {
    ArmedActs(Polling(g, stopping, requested, cycles, env).outcome, requested);
    if env == [] {
    } else {
      ArmedRound(g, stopping, requested, cycles, env);
      hide Polling, CyclesOf, Armed, KillsLast;
      var e, rest := env[0], env[1..];
      var stop := stopping || e.term;
      if cycles < CyclesOf(g) && !e.poll.Broken? && (e.poll.Interrupted? || !e.gone) {
        var acts := if e.poll.Interrupted? then [Test(true)] else [Test(true), Cycle];
        var n := if e.poll.Interrupted? then cycles else cycles + 1;
        ArmedServesNothing(g, stop, requested, n, rest);
        KillStaysLast(Polling(g, stop, requested, n, rest), acts);
        ArmedAfter(Polling(g, stop, requested, n, rest), acts);
      }
    }
  }

  /** It counts at most ceil(g / 50) cycles, and kills only after all of them. */
  lemma {:induction false} ArmedCycles(g: nat, stopping: bool, requested: bool, cycles: nat, env: seq<Round>)
    requires 0 < g <= GRACE_MAX && (stopping || requested) && cycles <= CyclesOf(g)
    ensures var w := Polling(g, stopping, requested, cycles, env);
            && cycles + Count(w.log, IsCycle) <= CyclesOf(g)
            && (w.outcome.Killed? ==> cycles + Count(w.log, IsCycle) == CyclesOf(g))
    decreases |env|
  {
    if env == [] {
    } else {
      ArmedRound(g, stopping, requested, cycles, env);
      RoundCounts(Test(true), Kill, [], IsCycle);
      RoundCounts(Test(true), Cycle, [], IsCycle);
      assert [Test(true)] + [] == [Test(true)] && [Test(true), Kill] + [] == [Test(true), Kill];
      assert [Test(true), Cycle] + [] == [Test(true), Cycle];
      hide Polling, CyclesOf, Count;
      var e, rest := env[0], env[1..];
      var stop := stopping || e.term;
      if cycles < CyclesOf(g) {
        var n := if e.poll.Interrupted? then cycles else cycles + 1;
        ArmedCycles(g, stop, requested, n, rest);
        RoundCounts(Test(true), Cycle, Polling(g, stop, requested, n, rest).log, IsCycle);
      }
    }
  }

  /** No round below `n` ends the wait. */
  ghost predicate Quiet(env: seq<Round>, n: nat) {
    forall k :: 0 <= k < n && k < |env| ==> !env[k].gone && !env[k].poll.Broken?
  }

  /** Unless polls are interrupted it ends within the cycles left and one round more, and it kills exactly when none of
      those cycles finds the house gone or the poll broken. */
  lemma {:induction false} ArmedEnds(g: nat, stopping: bool, requested: bool, cycles: nat, env: seq<Round>)
    requires 0 < g <= GRACE_MAX && (stopping || requested) && cycles <= CyclesOf(g) && Uninterrupted(env)
    ensures var w := Polling(g, stopping, requested, cycles, env);
            var left := CyclesOf(g) - cycles;
            && (|env| > left ==> !w.outcome.Waiting?)
            && (w.outcome.Killed? <==> |env| > left && Quiet(env, left))
    decreases |env|
  {
    if env == [] {
    } else {
      ArmedRound(g, stopping, requested, cycles, env);
      hide Polling, CyclesOf;
      var e, rest := env[0], env[1..];
      var stop := stopping || e.term;
      assert !e.poll.Interrupted?;
      if cycles < CyclesOf(g) {
        assert Uninterrupted(rest);
        ArmedEnds(g, stop, requested, cycles + 1, rest);
        QuietRest(env, CyclesOf(g) - cycles);
      }
    }
  }

  lemma QuietRest(env: seq<Round>, n: nat)
    requires env != [] && n > 0
    ensures Quiet(env, n) <==> !env[0].gone && !env[0].poll.Broken? && Quiet(env[1..], n - 1)
  {
    if Quiet(env[1..], n - 1) && !env[0].gone && !env[0].poll.Broken? {
      forall k | 0 <= k < n && k < |env| ensures !env[k].gone && !env[k].poll.Broken? {
        if k > 0 { assert env[k] == env[1..][k - 1]; }
      }
    }
  }

  /** By the test of round `k` a stop has been seen: from the start, by on_term before that test, or because the round
      before served a STOP. */
  ghost predicate StopBy(stopping: bool, requested: bool, env: seq<Round>, k: nat)
    requires k < |env|
  {
    stopping || requested || env[k].term
    || (k > 0 && env[k - 1].poll.Ready? && env[k - 1].poll.ctl && env[k - 1].request == STOP)
  }

  /** A round of the polling tier that has seen no stop. */
  lemma UnarmedRound(g: nat, stopping: bool, requested: bool, cycles: nat, env: seq<Round>)
    requires env != [] && (g == 0 || !(stopping || requested || env[0].term))
    ensures var e := env[0];
            var stop := stopping || e.term;
            Polling(g, stopping, requested, cycles, env) ==
              if e.poll.Broken? then Wait(Failed, requested, [Test(false)])
              else if e.poll.Interrupted? then Polling(g, stop, requested, 0, env[1..]).After([Test(false)])
              else if e.gone then Wait(Reaped, requested, [Test(false)])
              else if e.poll.Ready? && e.poll.ctl then
                Polling(g, stop, Requested(requested, e.request), 0, env[1..]).After([Test(false), Serve(e.request)])
              else Polling(g, stop, requested, 0, env[1..]).After([Test(false)])
  {
    assert [Test(false)] + [Serve(env[0].request)] == [Test(false), Serve(env[0].request)];
  }

  /** A round that on_term has run before is one that starts with the flag up. */
  lemma TermCounts(g: nat, stopping: bool, requested: bool, cycles: nat, env: seq<Round>)
    requires env != []
    ensures Polling(g, stopping, requested, cycles, env)
         == Polling(g, stopping || env[0].term, requested, cycles, env)
    ensures Pidfd(g, stopping, requested, env) == Pidfd(g, stopping || env[0].term, requested, env)
  {
  }

  lemma ShortActs(armed: bool, request: Request)
    ensures Calm([Test(armed)]) && Calm([Test(false), Serve(request)])
    ensures KillsLast(Wait(Reaped, false, [Test(armed)])) && Kill !in [Test(false), Serve(request)]
  {
  }

  lemma ArmedIsOrderly(w: Wait, g: nat)
    requires Armed(w.log) && KillsLast(w) && g > 0 && (w.outcome.Killed? ==> Test(true) in w.log)
    ensures Orderly(w, g)
  {
  }

  /** The polling tier from any state is orderly. */
  lemma {:induction false} PollingIsOrderly(g: nat, stopping: bool, requested: bool, cycles: nat, env: seq<Round>)
    requires g <= GRACE_MAX && cycles <= CyclesOf(g)
    ensures Orderly(Polling(g, stopping, requested, cycles, env), g)
    decreases |env|
  {
    if env == [] {
    } else {
      TermCounts(g, stopping, requested, cycles, env);
      var e, rest := env[0], env[1..];
      var stop := stopping || e.term;
      if g > 0 && (stop || requested) {
        ArmedServesNothing(g, stop, requested, cycles, env);
        ArmedRound(g, stop, requested, cycles, env);
        ArmedIsOrderly(Polling(g, stop, requested, cycles, env), g);
      } else {
        UnarmedRound(g, stopping, requested, cycles, env);
        hide Polling, CyclesOf, Armed;
        ShortActs(false, e.request);
        if !e.poll.Broken? && (e.poll.Interrupted? || !e.gone) {
          var serves := !e.poll.Interrupted? && e.poll.Ready? && e.poll.ctl;
          var now := if serves then Requested(requested, e.request) else requested;
          PollingIsOrderly(g, stop, now, 0, rest);
          var head := if serves then [Test(false), Serve(e.request)] else [Test(false)];
          OrderlyAfter(Polling(g, stop, now, 0, rest), g, head);
        }
      }
    }
  }

  /** From the start, armed or not, the polling tier kills only after all ceil(g / 50) cycles. */
  lemma {:induction false} PollingKills(g: nat, stopping: bool, requested: bool, env: seq<Round>)
    requires g <= GRACE_MAX && Polling(g, stopping, requested, 0, env).outcome.Killed?
    ensures Count(Polling(g, stopping, requested, 0, env).log, IsCycle) == CyclesOf(g)
    decreases |env|
  {
    TermCounts(g, stopping, requested, 0, env);
    var e, rest := env[0], env[1..];
    var stop := stopping || e.term;
    if g > 0 && (stop || requested) {
      ArmedCycles(g, stop, requested, 0, env);
    } else {
      UnarmedRound(g, stopping, requested, 0, env);
      var serves := !e.poll.Interrupted? && e.poll.Ready? && e.poll.ctl;
      var now := if serves then Requested(requested, e.request) else requested;
      hide Polling, CyclesOf, Count;
      PollingKills(g, stop, now, rest);
      RoundCounts(Test(false), Serve(e.request), Polling(g, stop, now, 0, rest).log, IsCycle);
    }
  }

  /** From the round whose test sees a stop, the wait ends within ceil(g / 50) uninterrupted rounds and one
      more, whatever came before and whatever the control socket holds. */
  lemma {:induction false} PollingEnds(g: nat, stopping: bool, requested: bool, cycles: nat, env: seq<Round>, k: nat)
    requires 0 < g <= GRACE_MAX && cycles <= CyclesOf(g)
    requires k < |env| && StopBy(stopping, requested, env, k)
    requires Uninterrupted(env[k..]) && |env| - k > CyclesOf(g)
    ensures !Polling(g, stopping, requested, cycles, env).outcome.Waiting?
    decreases |env|
  {
    TermCounts(g, stopping, requested, cycles, env);
    var e, rest := env[0], env[1..];
    var stop := stopping || e.term;
    if stop || requested {
      ArmedRound(g, stop, requested, cycles, env);
      if k == 0 {
        assert env[0..] == env;
        ArmedEnds(g, stop, requested, cycles, env);
      } else if cycles < CyclesOf(g) && !e.poll.Broken? && (e.poll.Interrupted? || !e.gone) {
        assert rest[k - 1..] == env[k..];
        PollingEnds(g, stop, requested, if e.poll.Interrupted? then cycles else cycles + 1, rest, k - 1);
      }
    } else {
      UnarmedRound(g, stopping, requested, cycles, env);
      if !e.poll.Broken? && (e.poll.Interrupted? || !e.gone) {
        var serves := !e.poll.Interrupted? && e.poll.Ready? && e.poll.ctl;
        assert rest[k - 1..] == env[k..];
        PollingEnds(g, stop, if serves then Requested(requested, e.request) else requested, 0, rest, k - 1);
      }
    }
  }

  /** The rounds a wait has used: one test each. */
  function Used(w: Wait): nat { Count(w.log, IsTest) }

  lemma UsedMore(w: Wait, armed: bool, a: Act)
    requires !a.Test?
    ensures Used(w.After([Test(armed)])) == Used(w.After([Test(armed), a])) == 1 + Used(w)
    ensures Count([Test(armed)], IsTest) == Count([Test(armed), a], IsTest) == 1
  {
    RoundCounts(Test(armed), a, w.log, IsTest);
    RoundCounts(Test(armed), a, [], IsTest);
    assert [Test(armed)] + [] == [Test(armed)] && [Test(armed), a] + [] == [Test(armed), a];
  }

  /** A round that ends the wait, or one more than the rest. */
  ghost predicate Uses(w: Wait, env: seq<Round>) {
    var n := Used(w);
    if w.outcome.Waiting? then n == |env|
    else 1 <= n <= |env| && (w.outcome.Reaped? ==> env[n - 1].gone) && (w.outcome.Failed? ==> env[n - 1].poll.Broken?)
  }

  lemma UsesMore(w: Wait, env: seq<Round>, armed: bool, a: Act)
    requires env != [] && Uses(w, env[1..]) && !a.Test?
    ensures Uses(w.After([Test(armed)]), env) && Uses(w.After([Test(armed), a]), env)
  {
    UsedMore(w, armed, a);
    hide Used;
  }

  lemma UsesOne(outcome: Outcome, requested: bool, env: seq<Round>, armed: bool, a: Act)
    requires env != [] && !a.Test? && !outcome.Waiting?
    requires (outcome.Reaped? ==> env[0].gone) && (outcome.Failed? ==> env[0].poll.Broken?)
    ensures Uses(Wait(outcome, requested, [Test(armed)]), env) && Uses(Wait(outcome, requested, [Test(armed), a]), env)
  {
    UsedMore(Wait(outcome, requested, []), armed, a);
  }

  /** Every round is used until one ends the wait: reaping where the house is found gone, failing where the
      poll breaks. */
  lemma {:induction false} PollingUses(g: nat, stopping: bool, requested: bool, cycles: nat, env: seq<Round>)
    requires g <= GRACE_MAX && cycles <= CyclesOf(g)
    ensures Uses(Polling(g, stopping, requested, cycles, env), env)
    decreases |env|
  {
    if env == [] {
    } else {
      TermCounts(g, stopping, requested, cycles, env);
      var e, rest := env[0], env[1..];
      var stop := stopping || e.term;
      var armed := g > 0 && (stop || requested);
      if armed {
        ArmedRound(g, stop, requested, cycles, env);
      } else {
        UnarmedRound(g, stopping, requested, cycles, env);
      }
      hide Polling, CyclesOf, Uses;
      var a := if armed then Cycle else Serve(e.request);
      if armed && cycles == CyclesOf(g) {
        UsesOne(Killed, requested, env, armed, Kill);
      } else if e.poll.Broken? {
        UsesOne(Failed, requested, env, armed, a);
      } else if e.gone && !e.poll.Interrupted? {
        UsesOne(Reaped, requested, env, armed, a);
      } else {
        var serves := !armed && !e.poll.Interrupted? && e.poll.Ready? && e.poll.ctl;
        var now := if serves then Requested(requested, e.request) else requested;
        var n := if !armed then 0 else if e.poll.Interrupted? then cycles else cycles + 1;
        PollingUses(g, stop, now, n, rest);
        UsesMore(Polling(g, stop, now, n, rest), env, armed, a);
      }
    }
  }

  /* The pidfd tier. */

  /** What the poll that ends a bounded wait makes of it. */
  function Ends(poll: Poll): Outcome
    requires !poll.Interrupted?
  {
    match poll
    case Broken => Failed
    case Elapsed => Killed
    case Ready(_, _) => Reaped
  }

  /** The acts of a round of the pidfd tier that does not kill. */
  function PidfdActs(g: nat, armed: bool, e: Round): seq<Act> {
    if armed then [Test(true), Window(g)]
    else if e.poll.Ready? && e.poll.ctl then [Test(false), Serve(e.request)]
    else [Test(false)]
  }

  /** A round of the pidfd tier: it kills, it ends otherwise, or it goes on. */
  lemma PidfdRound(g: nat, stopping: bool, requested: bool, env: seq<Round>)
    requires env != []
    ensures var e := env[0];
            var stop := stopping || e.term;
            var armed := g > 0 && (stop || requested);
            var now := if !armed && e.poll.Ready? && e.poll.ctl then Requested(requested, e.request) else requested;
            var acts := PidfdActs(g, armed, e);
            var w := Pidfd(g, stopping, requested, env);
            || (armed && e.poll.Elapsed? && w == Wait(Killed, now, acts + [Kill]))
            || ((w.outcome.Failed? || w.outcome.Reaped?) && w == Wait(w.outcome, now, acts))
            || w == Pidfd(g, stop, now, env[1..]).After(acts)
  {
  }

  lemma ActsAreCalm(g: nat, armed: bool, e: Round)
    ensures var acts := PidfdActs(g, armed, e);
            Calm(acts) && Kill !in acts && (Test(true) in acts <==> armed) && (armed ==> Armed(acts))
  {
  }

  lemma LastRound(g: nat, armed: bool, e: Round, outcome: Outcome, requested: bool)
    requires armed ==> g > 0
    ensures armed ==> Orderly(Wait(Killed, requested, PidfdActs(g, armed, e) + [Kill]), g)
                      && Armed(PidfdActs(g, armed, e) + [Kill])
    ensures !outcome.Killed? ==> Orderly(Wait(outcome, requested, PidfdActs(g, armed, e)), g)
  {
  }

  /** The pidfd tier from any state is orderly, and serves nothing once armed. */
  lemma {:induction false} PidfdIsOrderly(g: nat, stopping: bool, requested: bool, env: seq<Round>)
    ensures var w := Pidfd(g, stopping, requested, env);
            Orderly(w, g) && (g > 0 && (stopping || requested) ==> Armed(w.log))
    decreases |env|
  {
    if env == [] {
    } else {
      hide Pidfd, PidfdActs, Orderly, Armed, Calm;
      PidfdRound(g, stopping, requested, env);
      var e, rest := env[0], env[1..];
      var stop := stopping || e.term;
      var armed := g > 0 && (stop || requested);
      var now := if !armed && e.poll.Ready? && e.poll.ctl then Requested(requested, e.request) else requested;
      var acts := PidfdActs(g, armed, e);
      ActsAreCalm(g, armed, e);
      LastRound(g, armed, e, Pidfd(g, stopping, requested, env).outcome, now);
      PidfdIsOrderly(g, stop, now, rest);
      var w := Pidfd(g, stop, now, rest);
      OrderlyAfter(w, g, acts);
      if armed { ArmedAfter(w, acts); }
    }
  }

  /** The bounded waits: all of g ms, and how many. */
  ghost predicate Windows(w: Wait, g: nat, n: nat) {
    Count(w.log, IsWindow) == n && forall i :: 0 <= i < |w.log| && w.log[i].Window? ==> w.log[i] == Window(g)
  }

  lemma WindowsOne(g: nat, outcome: Outcome, requested: bool)
    ensures Windows(Wait(outcome, requested, [Test(true), Window(g)]), g, 1)
    ensures Windows(Wait(outcome, requested, [Test(true), Window(g)] + [Kill]), g, 1)
  {
    RoundCounts(Test(true), Window(g), [], IsWindow);
    RoundCounts(Test(true), Window(g), [Kill], IsWindow);
    RoundCounts(Kill, Kill, [], IsWindow);
    assert [Kill] + [] == [Kill] && [Test(true), Window(g)] + [] == [Test(true), Window(g)];
  }

  lemma WindowsMore(w: Wait, g: nat, n: nat)
    requires Windows(w, g, n)
    ensures Windows(w.After([Test(true), Window(g)]), g, n + 1)
  {
    RoundCounts(Test(true), Window(g), w.log, IsWindow);
  }

  /** Once the pidfd tier has seen a stop, the first poll that is not interrupted decides: the house is killed
      exactly when the whole window has elapsed, and reaped when it is gone before. One window of g ms for
      each poll, one in all when none is interrupted. */
  lemma {:induction false} WindowDecides(g: nat, stopping: bool, requested: bool, env: seq<Round>, k: nat)
    requires g > 0 && k < |env| && (stopping || requested)
    requires !env[k].poll.Interrupted? && forall j :: 0 <= j < k ==> env[j].poll.Interrupted?
    ensures var w := Pidfd(g, stopping, requested, env);
            w.outcome == Ends(env[k].poll) && w.requested == requested && Windows(w, g, k + 1)
    decreases k
  {
    hide Windows;
    WindowsOne(g, Ends(env[k].poll), requested);
    if k > 0 {
      var rest := env[1..];
      forall j | 0 <= j < k - 1 ensures rest[j].poll.Interrupted? {
        assert rest[j] == env[j + 1];
      }
      WindowDecides(g, stopping || env[0].term, requested, rest, k - 1);
      WindowsMore(Pidfd(g, stopping || env[0].term, requested, rest), g, k);
    }
  }

  /** A stop seen at round `k` ends the wait there or before, unless that poll is interrupted. */
  lemma {:induction false} PidfdEnds(g: nat, stopping: bool, requested: bool, env: seq<Round>, k: nat)
    requires g > 0 && k < |env| && StopBy(stopping, requested, env, k) && !env[k].poll.Interrupted?
    ensures !Pidfd(g, stopping, requested, env).outcome.Waiting?
    decreases |env|
  {
    if k > 0 {
      var e, rest := env[0], env[1..];
      var stop := stopping || e.term;
      var serves := !(stop || requested) && e.poll.Ready? && e.poll.ctl;
      PidfdEnds(g, stop, if serves then Requested(requested, e.request) else requested, rest, k - 1);
    }
  }

  /** The wait ends in a kill: its last round is a bounded wait that ran out. */
  ghost predicate RanOut(w: Wait, g: nat, env: seq<Round>) {
    && |w.log| >= 2 && w.log[|w.log| - 2..] == [Window(g), Kill]
    && 1 <= Used(w) <= |env| && env[Used(w) - 1].poll.Elapsed?
  }

  lemma RanOutMore(w: Wait, g: nat, env: seq<Round>, armed: bool, e: Round)
    requires env != [] && RanOut(w, g, env[1..])
    ensures RanOut(w.After(PidfdActs(g, armed, e)), g, env)
  {
    var acts := PidfdActs(g, armed, e);
    UsedMore(w, armed, if armed then Window(g) else Serve(e.request));
    hide Used, PidfdActs;
    LastTwo(acts, w.log);
  }

  lemma LastTwo(acts: seq<Act>, log: seq<Act>)
    requires |log| >= 2
    ensures (acts + log)[|acts| + |log| - 2..] == log[|log| - 2..]
  {
    var all := acts + log;
    assert all[|acts| + |log| - 2] == log[|log| - 2] && all[|acts| + |log| - 1] == log[|log| - 1];
    assert |all[|acts| + |log| - 2..]| == 2;
  }

  lemma RanOutOnce(g: nat, requested: bool, env: seq<Round>)
    requires env != [] && env[0].poll.Elapsed?
    ensures RanOut(Wait(Killed, requested, [Test(true), Window(g)] + [Kill]), g, env)
  {
    var log := [Test(true), Window(g)] + [Kill];
    assert log[|log| - 2..] == [Window(g), Kill];
    RoundCounts(Test(true), Window(g), [Kill], IsTest);
    RoundCounts(Kill, Kill, [], IsTest);
    assert [Kill] + [] == [Kill];
  }

  /** From the start, armed or not, the pidfd tier kills only when a whole window of g ms has run out. */
  lemma {:induction false} PidfdKills(g: nat, stopping: bool, requested: bool, env: seq<Round>)
    requires Pidfd(g, stopping, requested, env).outcome.Killed?
    ensures RanOut(Pidfd(g, stopping, requested, env), g, env)
    decreases |env|
  {
    PidfdRound(g, stopping, requested, env);
    var e, rest := env[0], env[1..];
    var stop := stopping || e.term;
    var armed := g > 0 && (stop || requested);
    var now := if !armed && e.poll.Ready? && e.poll.ctl then Requested(requested, e.request) else requested;
    hide Pidfd, RanOut;
    if armed && e.poll.Elapsed? {
      RanOutOnce(g, now, env);
    }
    if Pidfd(g, stop, now, rest).outcome.Killed? {
      PidfdKills(g, stop, now, rest);
      RanOutMore(Pidfd(g, stop, now, rest), g, env, armed, e);
    }
  }
}
