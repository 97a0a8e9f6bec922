/** nwsup.c: wait_house, told from the outside: which rounds a wait uses, what it does in each, and why it
    ends, by the number of the round. */
module WaitTells {
  import opened WaitHouse
  import opened Prelude

  /** What the wait starts with: the grace period and the two flags. */
  datatype Start = Start(g: nat, stopping: bool, requested: bool)

  ghost predicate TermBy(env: seq<Round>, k: nat) {
    exists j :: 0 <= j < k && j < |env| && env[j].term
  }

  predicate Asks(e: Round) {
    e.poll.Ready? && e.poll.ctl && e.request == STOP
  }

  /** A STOP was there to be read before round `k`. */
  ghost predicate AskedBy(env: seq<Round>, k: nat) {
    exists j :: 0 <= j < k && j < |env| && Asks(env[j])
  }

  /** The test of round `k` sees a stop: one from before the wait, on_term in this round or an earlier one,
      or a STOP read in an earlier one. */
  ghost predicate Seen(a: Start, env: seq<Round>, k: nat) {
    a.stopping || a.requested || TermBy(env, k + 1) || AskedBy(env, k)
  }

  ghost predicate ArmedAt(a: Start, env: seq<Round>, k: nat) {
    a.g > 0 && Seen(a, env, k)
  }

  /** stop_requested when round `k` begins: set before, or by a STOP read in a round that was not armed. */
  ghost function RequestedBy(a: Start, env: seq<Round>, k: nat): bool
    requires k <= |env|
  {
    if k == 0 then a.requested
    else RequestedBy(a, env, k - 1) || (!ArmedAt(a, env, k - 1) && Asks(env[k - 1]))
  }

  lemma TermNext(env: seq<Round>, k: nat)
    requires k < |env|
    ensures TermBy(env, k + 1) <==> TermBy(env, k) || env[k].term
    ensures AskedBy(env, k + 1) <==> AskedBy(env, k) || Asks(env[k])
  {
  }

  /** The flags that the loop tests in round `k`. */
  lemma {:induction false} SeenIs(a: Start, env: seq<Round>, k: nat)
    requires k < |env|
    ensures Seen(a, env, k) <==> a.stopping || TermBy(env, k + 1) || RequestedBy(a, env, k)
  {
    TermNext(env, k);
    if k > 0 {
      TermNext(env, k - 1);
      SeenIs(a, env, k - 1);
    }
  }

  /* The pidfd tier. */

  /** Why round `k` ends the wait, if it does: once a stop is seen, whatever the bounded wait comes back
      with but an interruption; before, only a broken poll, or the pidfd telling that the house is gone. */
  ghost function PidfdEnd(a: Start, env: seq<Round>, k: nat): Option<Outcome>
    requires k < |env|
  {
    match env[k].poll
    case Interrupted => None
    case Broken => Some(Failed)
    case Elapsed => if ArmedAt(a, env, k) then Some(Killed) else None
    case Ready(_, exited) => if ArmedAt(a, env, k) || exited then Some(Reaped) else None
  }

  /** What round `k` does. */
  ghost function PidfdDoes(a: Start, env: seq<Round>, k: nat): seq<Act>
    requires k < |env|
  {
    if ArmedAt(a, env, k) then
      if PidfdEnd(a, env, k) == Some(Killed) then [Test(true), Window(a.g), Kill] else [Test(true), Window(a.g)]
    else if env[k].poll.Ready? && env[k].poll.ctl then [Test(false), Serve(env[k].request)]
    else [Test(false)]
  }

  /** All that rounds `k` to `n` do. */
  ghost function PidfdLog(a: Start, env: seq<Round>, k: nat, n: nat): seq<Act>
    requires k <= n <= |env|
    decreases n - k
  {
    if k == n then [] else PidfdDoes(a, env, k) + PidfdLog(a, env, k + 1, n)
  }

  /** From round `k` the wait uses the rounds up to `n`, and the last of them ends it, or there are no more. */
  ghost predicate PidfdTold(a: Start, env: seq<Round>, k: nat, n: nat, w: Wait)
    requires k <= n <= |env|
  {
    && w.log == PidfdLog(a, env, k, n)
    && w.requested == RequestedBy(a, env, n)
    && (if w.outcome.Waiting? then n == |env| && forall j :: k <= j < n ==> PidfdEnd(a, env, j) == None
        else && k < n && PidfdEnd(a, env, n - 1) == Some(w.outcome)
             && forall j :: k <= j < n - 1 ==> PidfdEnd(a, env, j) == None)
  }

  /** One round of Pidfd at its place in the whole. */
  lemma PidfdAt(a: Start, env: seq<Round>, k: nat)
    requires k < |env|
    ensures var w := Pidfd(a.g, a.stopping || TermBy(env, k), RequestedBy(a, env, k), env[k..]);
            match PidfdEnd(a, env, k)
            case Some(outcome) => w == Wait(outcome, RequestedBy(a, env, k + 1), PidfdDoes(a, env, k))
            case None =>
              w == Pidfd(a.g, a.stopping || TermBy(env, k + 1), RequestedBy(a, env, k + 1), env[k + 1..])
                     .After(PidfdDoes(a, env, k))
  {
    hide TermBy, Seen, AskedBy;
    SeenIs(a, env, k);
    TermNext(env, k);
    assert env[k..][0] == env[k] && env[k..][1..] == env[k + 1..];
    assert [Test(true), Window(a.g)] + [Kill] == [Test(true), Window(a.g), Kill];
  }

  lemma {:induction false} PidfdFrom(a: Start, env: seq<Round>, k: nat) returns (n: nat)
    requires k <= |env|
    ensures k <= n <= |env|
    ensures PidfdTold(a, env, k, n, Pidfd(a.g, a.stopping || TermBy(env, k), RequestedBy(a, env, k), env[k..]))
    decreases |env| - k
  {
    if k == |env| {
      n := k;
    } else {
      PidfdAt(a, env, k);
      hide Pidfd, PidfdEnd, PidfdDoes, RequestedBy, TermBy, PidfdTold;
      if PidfdEnd(a, env, k).Some? {
        n := k + 1;
        PidfdToldOnce(a, env, k);
      } else {
        n := PidfdFrom(a, env, k + 1);
        var w := Pidfd(a.g, a.stopping || TermBy(env, k + 1), RequestedBy(a, env, k + 1), env[k + 1..]);
        PidfdToldMore(a, env, k, n, w);
      }
    }
  }

  lemma PidfdToldOnce(a: Start, env: seq<Round>, k: nat)
    requires k < |env| && PidfdEnd(a, env, k).Some?
    ensures PidfdTold(a, env, k, k + 1,
                      Wait(PidfdEnd(a, env, k).value, RequestedBy(a, env, k + 1), PidfdDoes(a, env, k)))
  {
    hide PidfdEnd, PidfdDoes, RequestedBy;
    NotForNothing(a, env, k);
    assert PidfdLog(a, env, k, k + 1) == PidfdDoes(a, env, k) + [];
  }

  lemma PidfdToldMore(a: Start, env: seq<Round>, k: nat, n: nat, w: Wait)
    requires k < n <= |env| && PidfdEnd(a, env, k) == None && PidfdTold(a, env, k + 1, n, w)
    ensures PidfdTold(a, env, k, n, w.After(PidfdDoes(a, env, k)))
  {
    hide PidfdEnd, PidfdDoes, RequestedBy;
  }

  lemma NotForNothing(a: Start, env: seq<Round>, k: nat)
    requires k < |env|
    ensures PidfdEnd(a, env, k).Some? ==> !PidfdEnd(a, env, k).value.Waiting?
  {
  }

  lemma {:induction false} PidfdTests(a: Start, env: seq<Round>, k: nat, n: nat)
    requires k <= n <= |env|
    ensures Count(PidfdLog(a, env, k, n), IsTest) == n - k
    decreases n - k
  {
    if k < n {
      PidfdTests(a, env, k + 1, n);
      OneTest(PidfdDoes(a, env, k), PidfdLog(a, env, k + 1, n));
    }
  }

  /** One round's acts begin with its test and have no other. */
  lemma OneTest(acts: seq<Act>, log: seq<Act>)
    requires 1 <= |acts| <= 3 && acts[0].Test? && forall i :: 1 <= i < |acts| ==> !acts[i].Test?
    ensures Count(acts + log, IsTest) == 1 + Count(log, IsTest)
  {
    if |acts| == 1 {
      assert acts == [acts[0]];
      RoundCounts(acts[0], acts[0], log, IsTest);
    } else if |acts| == 2 {
      assert acts == [acts[0], acts[1]];
      RoundCounts(acts[0], acts[1], log, IsTest);
    } else {
      assert acts + log == [acts[0]] + ([acts[1], acts[2]] + log);
      RoundCounts(acts[0], acts[0], [acts[1], acts[2]] + log, IsTest);
      RoundCounts(acts[1], acts[2], log, IsTest);
    }
  }

  /** The whole wait of the pidfd tier: one test in each round it uses, in each round what the flags and the
      poll ask for, and an end for its reason in the first round that gives one. */
  lemma PidfdTells(a: Start, env: seq<Round>)
    ensures var w := Pidfd(a.g, a.stopping, a.requested, env);
            && Used(w) <= |env| && PidfdTold(a, env, 0, Used(w), w)
            && (w.outcome.Waiting? ==> Used(w) == |env|)
            && (!w.outcome.Waiting? ==> Used(w) > 0)
            && (w.outcome.Failed? ==> env[Used(w) - 1].poll.Broken?)
            && (w.outcome.Killed? ==> env[Used(w) - 1].poll.Elapsed? && ArmedAt(a, env, Used(w) - 1))
            && (w.outcome.Reaped? ==>
                  env[Used(w) - 1].poll.Ready? && (env[Used(w) - 1].poll.exited || ArmedAt(a, env, Used(w) - 1)))
            && forall j :: 0 <= j < Used(w) && (w.outcome.Waiting? || j < Used(w) - 1) ==>
                 && !env[j].poll.Broken?
                 && !(env[j].poll.Ready? && env[j].poll.exited)
                 && (ArmedAt(a, env, j) ==> env[j].poll.Interrupted?)
  {
    hide Pidfd, PidfdTold, ArmedAt;
    PidfdWhole(a, env);
    PidfdMeans(a, env, Used(Pidfd(a.g, a.stopping, a.requested, env)), Pidfd(a.g, a.stopping, a.requested, env));
  }

  lemma PidfdWhole(a: Start, env: seq<Round>)
    ensures var w := Pidfd(a.g, a.stopping, a.requested, env);
            Used(w) <= |env| && PidfdTold(a, env, 0, Used(w), w)
  {
    hide Pidfd, PidfdLog, PidfdEnd;
    assert env[0..] == env && !TermBy(env, 0);
    var n := PidfdFrom(a, env, 0);
    PidfdTests(a, env, 0, n);
  }

  lemma PidfdMeans(a: Start, env: seq<Round>, n: nat, w: Wait)
    requires n <= |env| && PidfdTold(a, env, 0, n, w)
    ensures w.outcome.Waiting? ==> n == |env|
    ensures !w.outcome.Waiting? ==> n > 0
    ensures w.outcome.Failed? ==> env[n - 1].poll.Broken?
    ensures w.outcome.Killed? ==> env[n - 1].poll.Elapsed? && ArmedAt(a, env, n - 1)
    ensures w.outcome.Reaped? ==> env[n - 1].poll.Ready? && (env[n - 1].poll.exited || ArmedAt(a, env, n - 1))
    ensures forall j :: 0 <= j < n && (w.outcome.Waiting? || j < n - 1) ==>
              && !env[j].poll.Broken?
              && !(env[j].poll.Ready? && env[j].poll.exited)
              && (ArmedAt(a, env, j) ==> env[j].poll.Interrupted?)
  {
    hide ArmedAt, PidfdLog, RequestedBy;
    forall j | 0 <= j < n && (w.outcome.Waiting? || j < n - 1)
      ensures !env[j].poll.Broken? && !(env[j].poll.Ready? && env[j].poll.exited)
      ensures ArmedAt(a, env, j) ==> env[j].poll.Interrupted?
    {
      assert PidfdEnd(a, env, j) == None;
    }
  }

  /* The polling tier. */

  /** The cycles counted before round `k`: the armed rounds whose poll was not interrupted. */
  ghost function CyclesBy(a: Start, env: seq<Round>, k: nat): nat
    requires k <= |env|
  {
    if k == 0 then 0
    else CyclesBy(a, env, k - 1) + if ArmedAt(a, env, k - 1) && !env[k - 1].poll.Interrupted? then 1 else 0
  }

  /** Why round `k` ends the wait, if it does: all the cycles of the grace period are over, the poll is
      broken, or waitpid finds the house gone. */
  ghost function PollingEnd(a: Start, env: seq<Round>, k: nat): Option<Outcome>
    requires k < |env|
  {
    if ArmedAt(a, env, k) && CyclesBy(a, env, k) >= CyclesOf(a.g) then Some(Killed)
    else if env[k].poll.Broken? then Some(Failed)
    else if env[k].gone && !env[k].poll.Interrupted? then Some(Reaped)
    else None
  }

  ghost function PollingDoes(a: Start, env: seq<Round>, k: nat): seq<Act>
    requires k < |env|
  {
    if ArmedAt(a, env, k) then
      if PollingEnd(a, env, k) == Some(Killed) then [Test(true), Kill]
      else if env[k].poll.Broken? || env[k].poll.Interrupted? then [Test(true)]
      else [Test(true), Cycle]
    else if env[k].poll.Ready? && env[k].poll.ctl && !env[k].gone then [Test(false), Serve(env[k].request)]
    else [Test(false)]
  }

  ghost function PollingLog(a: Start, env: seq<Round>, k: nat, n: nat): seq<Act>
    requires k <= n <= |env|
    decreases n - k
  {
    if k == n then [] else PollingDoes(a, env, k) + PollingLog(a, env, k + 1, n)
  }

  ghost predicate PollingTold(a: Start, env: seq<Round>, k: nat, n: nat, w: Wait)
    requires k <= n <= |env|
  {
    && w.log == PollingLog(a, env, k, n)
    && (if w.outcome.Waiting? then
          && n == |env| && w.requested == RequestedBy(a, env, n)
          && forall j :: k <= j < n ==> PollingEnd(a, env, j) == None
        else
          && k < n && PollingEnd(a, env, n - 1) == Some(w.outcome) && w.requested == RequestedBy(a, env, n - 1)
          && forall j :: k <= j < n - 1 ==> PollingEnd(a, env, j) == None)
  }

  ghost function PollingAfter(a: Start, env: seq<Round>, k: nat): Wait
    requires k <= |env|
  {
    Polling(a.g, a.stopping || TermBy(env, k), RequestedBy(a, env, k), CyclesBy(a, env, k), env[k..])
  }

  lemma {:induction false} NoneBeforeArmed(a: Start, env: seq<Round>, k: nat)
    requires k < |env| && !ArmedAt(a, env, k)
    ensures CyclesBy(a, env, k) == 0
  {
    if k > 0 {
      SeenStays(a, env, k - 1);
      NoneBeforeArmed(a, env, k - 1);
    }
  }

  lemma SeenStays(a: Start, env: seq<Round>, k: nat)
    requires k + 1 < |env|
    ensures ArmedAt(a, env, k) ==> ArmedAt(a, env, k + 1)
  {
    TermNext(env, k);
    TermNext(env, k + 1);
  }

  /** Round `k` ends the wait, or does its part of the log and leaves the rest to the later rounds. */
  ghost predicate PollingGoes(a: Start, env: seq<Round>, k: nat)
    requires k < |env|
  {
    match PollingEnd(a, env, k)
    case Some(outcome) => PollingAfter(a, env, k) == Wait(outcome, RequestedBy(a, env, k), PollingDoes(a, env, k))
    case None => && CyclesBy(a, env, k + 1) <= CyclesOf(a.g)
                 && PollingAfter(a, env, k) == PollingAfter(a, env, k + 1).After(PollingDoes(a, env, k))
  }

  /** The flags and the count from one round to the next. */
  lemma NextFlags(a: Start, env: seq<Round>, k: nat)
    requires k < |env|
    ensures ArmedAt(a, env, k) <==>
              a.g > 0 && (a.stopping || TermBy(env, k) || env[k].term || RequestedBy(a, env, k))
    ensures RequestedBy(a, env, k + 1) == (RequestedBy(a, env, k) || (!ArmedAt(a, env, k) && Asks(env[k])))
    ensures CyclesBy(a, env, k + 1)
         == CyclesBy(a, env, k) + if ArmedAt(a, env, k) && !env[k].poll.Interrupted? then 1 else 0
  {
    SeenIs(a, env, k);
    TermNext(env, k);
    hide TermBy, Seen;
  }

  lemma AfterIs(a: Start, env: seq<Round>, k: nat)
    requires k < |env|
    ensures var stop := a.stopping || TermBy(env, k) || env[k].term;
            && PollingAfter(a, env, k) == Polling(a.g, stop, RequestedBy(a, env, k), CyclesBy(a, env, k), env[k..])
            && PollingAfter(a, env, k + 1)
            == Polling(a.g, stop, RequestedBy(a, env, k + 1), CyclesBy(a, env, k + 1), env[k..][1..])
  {
    hide Polling, TermBy, RequestedBy, CyclesBy;
    TermNext(env, k);
    TermCounts(a.g, a.stopping || TermBy(env, k), RequestedBy(a, env, k), CyclesBy(a, env, k), env[k..]);
    assert env[k..][1..] == env[k + 1..];
  }

  lemma PollingArmedAt(a: Start, env: seq<Round>, k: nat)
    requires k < |env| && a.g <= GRACE_MAX && CyclesBy(a, env, k) <= CyclesOf(a.g) && ArmedAt(a, env, k)
    ensures PollingGoes(a, env, k)
  {
    hide Polling, PollingAfter, TermBy, ArmedAt, RequestedBy, CyclesBy, CyclesOf;
    NextFlags(a, env, k);
    AfterIs(a, env, k);
    var stop := a.stopping || TermBy(env, k) || env[k].term;
    ArmedRound(a.g, stop, RequestedBy(a, env, k), CyclesBy(a, env, k), env[k..]);
  }

  lemma PollingUnarmedAt(a: Start, env: seq<Round>, k: nat)
    requires k < |env| && !ArmedAt(a, env, k)
    ensures PollingGoes(a, env, k)
  {
    hide Polling, PollingAfter, TermBy, ArmedAt, RequestedBy, CyclesBy, CyclesOf;
    NextFlags(a, env, k);
    AfterIs(a, env, k);
    NoneBeforeArmed(a, env, k);
    var stop := a.stopping || TermBy(env, k) || env[k].term;
    UnarmedRound(a.g, stop, RequestedBy(a, env, k), CyclesBy(a, env, k), env[k..]);
  }

  lemma {:induction false} PollingFrom(a: Start, env: seq<Round>, k: nat) returns (n: nat)
    requires k <= |env| && a.g <= GRACE_MAX && CyclesBy(a, env, k) <= CyclesOf(a.g)
    ensures k <= n <= |env| && PollingTold(a, env, k, n, PollingAfter(a, env, k))
    decreases |env| - k
  {
    if k == |env| {
      n := k;
    } else {
      hide Polling, PollingAfter, PollingEnd, PollingDoes, PollingTold, RequestedBy, CyclesBy, CyclesOf, ArmedAt;
      if ArmedAt(a, env, k) {
        PollingArmedAt(a, env, k);
      } else {
        PollingUnarmedAt(a, env, k);
      }
      if PollingEnd(a, env, k).Some? {
        n := k + 1;
        PollingToldOnce(a, env, k);
      } else {
        n := PollingFrom(a, env, k + 1);
        PollingToldMore(a, env, k, n, PollingAfter(a, env, k + 1));
      }
    }
  }

  lemma PollingToldOnce(a: Start, env: seq<Round>, k: nat)
    requires k < |env| && PollingEnd(a, env, k).Some?
    ensures PollingTold(a, env, k, k + 1,
                        Wait(PollingEnd(a, env, k).value, RequestedBy(a, env, k), PollingDoes(a, env, k)))
  {
    hide PollingEnd, PollingDoes, RequestedBy;
    PollsForAReason(a, env, k);
    assert PollingLog(a, env, k, k + 1) == PollingDoes(a, env, k) + [];
  }

  lemma PollingToldMore(a: Start, env: seq<Round>, k: nat, n: nat, w: Wait)
    requires k < n <= |env| && PollingEnd(a, env, k) == None && PollingTold(a, env, k + 1, n, w)
    ensures PollingTold(a, env, k, n, w.After(PollingDoes(a, env, k)))
  {
    hide PollingEnd, PollingDoes, RequestedBy;
  }

  lemma PollsForAReason(a: Start, env: seq<Round>, k: nat)
    requires k < |env|
    ensures PollingEnd(a, env, k).Some? ==> !PollingEnd(a, env, k).value.Waiting?
  {
  }

  lemma PollsOnce(a: Start, env: seq<Round>, k: nat)
    requires k < |env|
    ensures var acts := PollingDoes(a, env, k);
            1 <= |acts| <= 3 && acts[0].Test? && forall i :: 1 <= i < |acts| ==> !acts[i].Test?
  {
    hide ArmedAt, CyclesBy, CyclesOf;
  }

  lemma {:induction false} PollingTests(a: Start, env: seq<Round>, k: nat, n: nat)
    requires k <= n <= |env|
    ensures Count(PollingLog(a, env, k, n), IsTest) == n - k
    decreases n - k
  {
    hide PollingDoes;
    if k < n {
      PollingTests(a, env, k + 1, n);
      PollsOnce(a, env, k);
      OneTest(PollingDoes(a, env, k), PollingLog(a, env, k + 1, n));
    }
  }

  /** The whole wait of the polling tier. */
  lemma PollingTells(a: Start, env: seq<Round>)
    requires a.g <= GRACE_MAX
    ensures var w := Polling(a.g, a.stopping, a.requested, 0, env);
            && Used(w) <= |env| && PollingTold(a, env, 0, Used(w), w)
            && (w.outcome.Waiting? ==> Used(w) == |env|)
            && (!w.outcome.Waiting? ==> Used(w) > 0)
            && (w.outcome.Failed? ==> env[Used(w) - 1].poll.Broken?)
            && (w.outcome.Killed? ==>
                  ArmedAt(a, env, Used(w) - 1) && CyclesBy(a, env, Used(w) - 1) >= CyclesOf(a.g))
            && (w.outcome.Reaped? ==> env[Used(w) - 1].gone)
            && forall j :: 0 <= j < Used(w) && (w.outcome.Waiting? || j < Used(w) - 1) ==>
                 && !env[j].poll.Broken?
                 && (env[j].gone ==> env[j].poll.Interrupted?)
                 && (ArmedAt(a, env, j) ==> CyclesBy(a, env, j) < CyclesOf(a.g))
  {
    hide Polling, PollingTold, ArmedAt, CyclesBy, CyclesOf;
    PollingWhole(a, env);
    var w := Polling(a.g, a.stopping, a.requested, 0, env);
    PollingMeans(a, env, Used(w), w);
  }

  lemma PollingWhole(a: Start, env: seq<Round>)
    requires a.g <= GRACE_MAX
    ensures var w := Polling(a.g, a.stopping, a.requested, 0, env);
            Used(w) <= |env| && PollingTold(a, env, 0, Used(w), w)
  {
    hide Polling, PollingLog, PollingEnd, CyclesOf;
    assert env[0..] == env && !TermBy(env, 0);
    var n := PollingFrom(a, env, 0);
    PollingTests(a, env, 0, n);
  }

  lemma PollingMeans(a: Start, env: seq<Round>, n: nat, w: Wait)
    requires n <= |env| && PollingTold(a, env, 0, n, w)
    ensures w.outcome.Waiting? ==> n == |env|
    ensures !w.outcome.Waiting? ==> n > 0
    ensures w.outcome.Failed? ==> env[n - 1].poll.Broken?
    ensures w.outcome.Killed? ==> ArmedAt(a, env, n - 1) && CyclesBy(a, env, n - 1) >= CyclesOf(a.g)
    ensures w.outcome.Reaped? ==> env[n - 1].gone
    ensures forall j :: 0 <= j < n && (w.outcome.Waiting? || j < n - 1) ==>
              && !env[j].poll.Broken?
              && (env[j].gone ==> env[j].poll.Interrupted?)
              && (ArmedAt(a, env, j) ==> CyclesBy(a, env, j) < CyclesOf(a.g))
  {
    hide ArmedAt, PollingLog, RequestedBy, CyclesBy, CyclesOf;
    forall j | 0 <= j < n && (w.outcome.Waiting? || j < n - 1)
      ensures !env[j].poll.Broken? && (env[j].gone ==> env[j].poll.Interrupted?)
      ensures ArmedAt(a, env, j) ==> CyclesBy(a, env, j) < CyclesOf(a.g)
    {
      assert PollingEnd(a, env, j) == None;
    }
  }
}
