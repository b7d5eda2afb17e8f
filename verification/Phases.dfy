/** The process lifecycle of phase.go: five phases and one table of legal moves. */
module Phases {
  datatype Phase = Created | Starting | Running | Exited | Deleted {

    /** The phases are ordered; "running or later" means the process finished starting. */
    function Rank(): nat {
      match this
      case Created => 0
      case Starting => 1
      case Running => 2
      case Exited => 3
      case Deleted => 4
    }

    predicate CanBecome(next: Phase) {
      assert Created? || Starting? || Running? || Exited? || Deleted?;
      next in PHASE_TRANSITIONS[this]
    }

    /** No further run of the workload is possible. */
    predicate Terminal() {
      Exited? || Deleted?
    }
  }

  const PHASE_TRANSITIONS: map<Phase, set<Phase>> := map[
    Created := {Created, Starting, Exited, Deleted},
    Starting := {Created, Running, Exited, Deleted},
    Running := {Running, Exited, Deleted},
    Exited := {Exited, Deleted},
    Deleted := {Deleted}
  ]

  /** The table in one line: forward, except straight to running; staying, except in a claim; and handing
      a claim back. */
  lemma LegalMoves(p: Phase, q: Phase)
    ensures p.CanBecome(q) <==>
            || (p.Rank() < q.Rank() && !(p == Created && q == Running))
            || (p == q && p != Starting)
            || (p == Starting && q == Created)
  {
  }

  datatype Outcome = Rejected | Unchanged | Changed

  /** advanceLocked: a rejected move leaves the phase alone, and only a real change reports one. */
  function Advance(p: Phase, next: Phase): (r: (Phase, Outcome)) {
    if !p.CanBecome(next) then (p, Rejected)
    else if p == next then (p, Unchanged)
    else (next, Changed)
  }

  /** A sequence of phases a process can go through, each move accepted by Advance. */
  ghost predicate IsHistory(h: seq<Phase>) {
    forall i :: 0 < i < |h| ==> h[i-1].CanBecome(h[i])
  }

  /** Along any history the process can hand a start claim back, but once it has run
      it never returns to an earlier phase. */
  lemma {:induction false} RunningIsForever(h: seq<Phase>, i: nat, j: nat)
    requires IsHistory(h) && i <= j < |h| && h[i].Rank() >= Running.Rank()
    ensures h[i].Rank() <= h[j].Rank()
    decreases j
  {
    if i < j {
      RunningIsForever(h, i, j - 1);
    }
  }

  /** The exit of a process is observable exactly once: no history enters Exited twice. */
  lemma {:induction false} ExitEnteredOnce(h: seq<Phase>, i: nat, j: nat)
    requires IsHistory(h) && 0 < i < j < |h|
    requires h[i] == Exited && h[j] == Exited
    ensures h[j-1] == Exited
  {
    RunningIsForever(h, i, j - 1);
    assert h[j-1].CanBecome(h[j]);
  }
}
