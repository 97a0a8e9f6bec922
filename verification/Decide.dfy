/** decide.c: nw_decide. */
module Decide {
  /** A wait(2) status. */
  datatype Status = Exit(code: nat) | Signal(sig: nat)

  datatype Decision = FORK | WAIT | IDLE | RESTART | SPENT | EXIT_SUP | TERM_CHILD

  /** What the supervisor has of a child: none, a running one, or one that has exited. */
  datatype Child = NoChild | Running | Gone(status: Status)

  predicate Finished(completeOn0: bool, st: Status) {
    completeOn0 && st == Exit(0)
  }

  function NwDecide(lock: bool, completeOn0: bool, stopping: bool, stopRequested: bool, startRequested: bool,
                    child: Child, deaths: nat, budget: nat): (d: Decision)
    ensures d == TERM_CHILD <==> child.Running? && (stopping || stopRequested)
    ensures d == WAIT <==> child.Running? && !stopping && !stopRequested
    ensures d == FORK <==> child.NoChild? && !stopping && (lock || startRequested)
    ensures d == EXIT_SUP <==> if stopping then !child.Running?
                               else child.Gone? && !stopRequested && Finished(completeOn0, child.status)
    ensures d == RESTART || d == SPENT <==>
              lock && !stopping && !stopRequested && child.Gone? && !Finished(completeOn0, child.status)
    ensures d == RESTART ==> deaths < budget
    ensures d == SPENT ==> deaths >= budget
  {
    if stopping then
      if child.Running? then TERM_CHILD else EXIT_SUP
    else
      match child
      case Running => if stopRequested then TERM_CHILD else WAIT
      case Gone(st) =>
        if stopRequested then IDLE
        else if Finished(completeOn0, st) then EXIT_SUP
        else if !lock then IDLE
        else if deaths >= budget then SPENT
        else RESTART
      case NoChild => if !lock && !startRequested then IDLE else FORK
  }
}
