/** lids.c: the filter emitter of nw_apply_house_seccomp, and the classic BPF machine it writes for. */
module Seccomp {
  /** struct sock_filter, as far as the emitter uses it. */
  datatype Insn =
    | LoadNr                                 // BPF_LD | BPF_W | BPF_ABS, offsetof nr
    | JumpEq(k: nat, jt: nat, jf: nat)       // BPF_JMP | BPF_JEQ | BPF_K
    | Return(action: Action)                 // BPF_RET | BPF_K

  datatype Action = ALLOW | KILL_PROCESS

  /** What a run of a program comes to: an action, or leaving the program. */
  datatype Outcome = Acts(action: Action) | Strays

  /** A program run from `pc` with the accumulator at `acc`, for a call of number `nr`. Offsets only go forward. */
  function Run(f: seq<Insn>, nr: nat, pc: nat, acc: nat): Outcome
    decreases |f| - pc
  {
    if pc >= |f| then Strays
    else match f[pc]
      case LoadNr => Run(f, nr, pc + 1, nr)
      case JumpEq(k, jt, jf) => Run(f, nr, pc + 1 + if acc == k then jt else jf, acc)
      case Return(a) => Acts(a)
  }

  function Filter(f: seq<Insn>, nr: nat): Outcome { Run(f, nr, 0, 0) }

  /** (__u8)x */
  function U8(x: nat): nat { x % 256 }

  /** The emitter: into an array of one slot more than it should need, and refused if it used another number of them. */
  method Emit(allow: seq<nat>) returns (ok: bool, f: array<Insn>, n: nat)
    ensures ok && fresh(f) && n == 1 + |allow| + 2 && f.Length == n + 1
    ensures Emitted(f[..n], allow)
  {
    var ninsn := 1 + |allow| + 2;
    f := new Insn[ninsn + 1](_ => Return(ALLOW));
    n := 0;
    f[n] := LoadNr;
    n := n + 1;
    for i := 0 to |allow|
      invariant n == 1 + i && f[0] == LoadNr
      invariant forall k :: 0 <= k < i ==> f[1 + k] == JumpEq(allow[k], U8(|allow| - k), 0)
    {
      f[n] := JumpEq(allow[i], U8(|allow| - i), 0);
      n := n + 1;
    }
    f[n] := Return(KILL_PROCESS);
    n := n + 1;
    f[n] := Return(ALLOW);
    n := n + 1;
    if n != ninsn {
      return false, f, n;
    }
    return true, f, n;
  }

  /** What the emitter writes. */
  ghost predicate Emitted(f: seq<Insn>, allow: seq<nat>) {
    && |f| == |allow| + 3 && f[0] == LoadNr
    && f[|allow| + 1] == Return(KILL_PROCESS) && f[|allow| + 2] == Return(ALLOW)
    && forall i :: 0 <= i < |allow| ==> f[1 + i] == JumpEq(allow[i], U8(|allow| - i), 0)
  }

  /** From comparison `i` on, as long as the offsets fit a byte. */
  lemma {:induction false} RunFrom(f: seq<Insn>, allow: seq<nat>, nr: nat, i: nat)
    requires Emitted(f, allow) && i <= |allow| && |allow| - i <= 255
    ensures Run(f, nr, 1 + i, nr) == Acts(if nr in allow[i..] then ALLOW else KILL_PROCESS)
    decreases |allow| - i
  {
    if i < |allow| {
      RunFrom(f, allow, nr, i + 1);
      assert allow[i..] == [allow[i]] + allow[i + 1..];
    }
  }

  /** For a list of at most 255 calls the filter ends inside the program and allows exactly the calls in the list. */
  lemma FilterIsTheList(f: seq<Insn>, allow: seq<nat>, nr: nat)
    requires Emitted(f, allow) && |allow| <= 255
    ensures Filter(f, nr) == Acts(if nr in allow then ALLOW else KILL_PROCESS)
  {
    RunFrom(f, allow, nr, 0);
    assert allow[0..] == allow;
  }

  /** No later comparison finds a call that is not among the calls left. */
  lemma {:induction false} RunMisses(f: seq<Insn>, allow: seq<nat>, nr: nat, i: nat)
    requires Emitted(f, allow) && i <= |allow| && nr !in allow[i..]
    ensures Run(f, nr, 1 + i, nr) == Acts(KILL_PROCESS)
    decreases |allow| - i
  {
    if i < |allow| {
      assert allow[i..] == [allow[i]] + allow[i + 1..];
      RunMisses(f, allow, nr, i + 1);
    }
  }

  /** Beyond 255 the first offset is cut to a byte, and the first call of a list without repeats is killed. */
  lemma FirstIsKilled(f: seq<Insn>, allow: seq<nat>)
    requires Emitted(f, allow) && |allow| >= 256
    requires forall i, j :: 0 <= i < j < |allow| ==> allow[i] != allow[j]
    ensures Filter(f, allow[0]) == Acts(KILL_PROCESS)
  {
    var nr, jt := allow[0], U8(|allow|);
    assert f[1] == f[1 + 0] == JumpEq(nr, jt, 0);
    assert 1 + jt <= |allow|;
    assert nr !in allow[1 + jt..];
    RunMisses(f, allow, nr, 1 + jt);
    assert Run(f, nr, 1, nr) == Run(f, nr, 2 + jt, nr);
  }

  /** So the bound is exact: over lists without repeats, the filter allows its list and nothing else just when the list
      has at most 255 calls. */
  lemma BoundIsExact(f: seq<Insn>, allow: seq<nat>)
    requires Emitted(f, allow)
    requires forall i, j :: 0 <= i < j < |allow| ==> allow[i] != allow[j]
    ensures (forall nr :: Filter(f, nr) == Acts(if nr in allow then ALLOW else KILL_PROCESS)) <==> |allow| <= 255
  {
    if |allow| <= 255 {
      forall nr: nat ensures Filter(f, nr) == Acts(if nr in allow then ALLOW else KILL_PROCESS) {
        FilterIsTheList(f, allow, nr);
      }
    } else {
      FirstIsKilled(f, allow);
      assert allow[0] in allow;
    }
  }
}
