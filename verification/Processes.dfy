/** One tracked process (process.go, wait.go): the lifecycle phase, the merged observation,
    the deleting flag, the recorded Service exit, and the waiters on its condition variable. */
module Processes {
  import opened Basics
  import opened Phases
  import opened Observations

  /** The fields p.mu protects, as a value. */
  datatype Proc = Proc(phase: Phase, state: PState, deleting: bool, recorded: Option<PState>) {

    /** What waitForExit waits for. */
    predicate Over() {
      phase == Deleted || state.Exited()
    }
  }

  const NEW := Proc(Created, ZERO, false, None)

  /** The coupling between phase and observation that every operation keeps. */
  predicate Consistent(p: Proc) {
    && (p.state.Exited() ==> p.phase.Terminal())
    && (p.phase == Exited ==> p.state.Exited())
    && (ToStatus(p.state.status) == RUNNING ==> p.phase.Rank() >= Running.Rank())
  }

  datatype StateUpdate = StateUpdate(state: PState, from: Phase, to: Phase) {
    predicate JustExited() {
      to == Exited && from != to
    }

    predicate WasRunning() {
      from == Running
    }
  }

  /** systemd calls a unit running as soon as it is set up; before phase Running that is "created". */
  function Relabel(phase: Phase, obs: PState): PState {
    if phase.Rank() < Running.Rank() && ToStatus(obs.status) == RUNNING then obs.(status := StCreated) else obs
  }

  function ApplyState(p: Proc, obs: PState): (Proc, StateUpdate) {
    var seen := Relabel(p.phase, obs);
    var merged := seen.CopyTo(p.state);
    var phase := if merged.Exited() then Advance(p.phase, Exited).0 else p.phase;
    (p.(state := merged, phase := phase), StateUpdate(merged.CopyTo(seen), p.phase, phase))
  }

  function RecordExit(p: Proc, obs: PState): Proc {
    if p.recorded.None? || obs.exitedAt > p.recorded.value.exitedAt then p.(recorded := Some(obs)) else p
  }

  /** The atomic operations other goroutines may perform on a process. */
  datatype Op =
    | BeginStart | AbortStart | FinishStart
    | Observe(obs: PState)
    | Record(exit: PState) | ClearRecord
    | MarkDeleting | FinishDelete

  function Step(p: Proc, op: Op): Proc {
    match op
    case BeginStart => p.(phase := Advance(p.phase, Starting).0)
    case AbortStart => p.(phase := Advance(p.phase, Created).0)
    case FinishStart => p.(phase := Advance(p.phase, Running).0)
    case Observe(obs) => ApplyState(p, obs).0
    case Record(exit) => RecordExit(p, exit)
    case ClearRecord => p.(recorded := None)
    case MarkDeleting => p.(deleting := true)
    case FinishDelete => p.(phase := Advance(p.phase, Deleted).0)
  }

  function RunOps(p: Proc, ops: seq<Op>): Proc {
    if ops == [] then p else Step(RunOps(p, ops[..|ops|-1]), ops[|ops|-1])
  }

  /** The observations a run merges, oldest first. */
  function Observed(ops: seq<Op>): seq<PState> {
    if ops == [] then []
    else
      var before := Observed(ops[..|ops|-1]);
      if ops[|ops|-1].Observe? then before + [ops[|ops|-1].obs] else before
  }

  lemma StepKeepsConsistent(p: Proc, op: Op)
    requires Consistent(p)
    ensures Consistent(Step(p, op))
  {
  }

  /** An observation either leaves the phase alone or moves a process that is not over to Exited. */
  lemma ObserveOutcome(p: Proc, obs: PState)
    requires Consistent(p)
    ensures var (q, u) := ApplyState(p, obs);
            && u.from == p.phase && u.to == q.phase
            && (if u.JustExited() then !p.phase.Terminal() && q.phase == Exited else q.phase == p.phase)
            && q.deleting == p.deleting && q.recorded == p.recorded
  {
  }

  /** What each operation does to the phase: a start is admitted from created only, finished or handed back
      from starting only; a delete always ends deleted; an observation ends what is not over. */
  lemma PhaseAfter(p: Proc, op: Op)
    requires Consistent(p)
    ensures Step(p, op).phase ==
            match op
            case BeginStart => if p.phase == Created then Starting else p.phase
            case FinishStart => if p.phase == Starting then Running else p.phase
            case AbortStart => if p.phase == Starting then Created else p.phase
            case FinishDelete => Deleted
            case Observe(obs) => if obs.Exited() && !p.phase.Terminal() then Exited else p.phase
            case _ => p.phase
  {
  }

  /** What is never lost: the first code, time and pid, being over, and the two terminal phases. */
  predicate Keeps(p: Proc, q: Proc) {
    && (p.state.exitCode > 0 ==> q.state.exitCode == p.state.exitCode)
    && (p.state.exitedAt > 0 ==> q.state.exitedAt == p.state.exitedAt)
    && (p.state.pid > 0 ==> q.state.pid == p.state.pid)
    && (p.state.Exited() ==> q.state.Exited())
    && (p.phase.Terminal() ==> q.phase.Terminal())
    && (p.phase == Deleted ==> q.phase == Deleted)
    && (p.phase.Rank() >= Running.Rank() ==> q.phase.Rank() >= p.phase.Rank())
    && (p.deleting ==> q.deleting)
  }

  lemma StepKeeps(p: Proc, op: Op)
    ensures Keeps(p, Step(p, op))
  {
  }

  lemma {:induction false} RunKeeps(p: Proc, ops: seq<Op>)
    ensures Keeps(p, RunOps(p, ops))
    ensures Consistent(p) ==> Consistent(RunOps(p, ops))
  {
    if ops != [] {
      var before := RunOps(p, ops[..|ops|-1]);
      RunKeeps(p, ops[..|ops|-1]);
      StepKeeps(before, ops[|ops|-1]);
      if Consistent(p) {
        StepKeepsConsistent(before, ops[|ops|-1]);
      }
    }
  }

  /** So along a run each of these changes at most once: any earlier value is unset or already final. */
  lemma {:induction false} SettlesOnce(p: Proc, ops: seq<Op>, i: nat)
    requires i <= |ops|
    ensures var early, last := RunOps(p, ops[..i]).state, RunOps(p, ops).state;
            && early.exitCode in {0, last.exitCode}
            && (early.exitedAt <= 0 || early.exitedAt == last.exitedAt)
            && early.pid in {0, last.pid}
    decreases |ops|
  {
    if i == |ops| {
      assert ops[..i] == ops;
    } else {
      var init := ops[..|ops|-1];
      assert init[..i] == ops[..i];
      SettlesOnce(p, init, i);
      StepKeeps(RunOps(p, init), ops[|ops|-1]);
    }
  }

  lemma MergedFields(p: Proc, obs: PState)
    requires p.state.exitedAt > 0 || p.state.exitedAt == GO_ZERO_TIME
    ensures var s := Step(p, Observe(obs)).state;
            && s.exitCode == (if p.state.exitCode > 0 then p.state.exitCode else obs.exitCode)
            && s.pid == (if p.state.pid > 0 then p.state.pid else obs.pid)
            && s.exitedAt == (if p.state.exitedAt > 0 then p.state.exitedAt
                              else if obs.exitedAt > 0 then obs.exitedAt else GO_ZERO_TIME)
            && (s.Exited() <==> p.state.Exited() || obs.Exited())
  {
    hide Advance;
  }

  /** Whatever the interleaving of starts, observations and deletes, the stored state is the
      summary of the observations: first code, first time, first pid, terminal iff one was. */
  lemma {:induction false} RunIsSummary(ops: seq<Op>)
    ensures var s, obs := RunOps(NEW, ops).state, Observed(ops);
            && s.exitCode == FirstCode(obs) && s.pid == FirstPid(obs) && s.exitedAt == FirstTime(obs)
            && (s.Exited() <==> AnyExited(obs))
  {
    if ops != [] {
      var init, op := ops[..|ops|-1], ops[|ops|-1];
      RunIsSummary(init);
      hide ApplyState, FirstCode, FirstPid, FirstTime, AnyExited;
      assert FirstTime(Observed(init)) > 0 || FirstTime(Observed(init)) == GO_ZERO_TIME;
      if op.Observe? {
        MergedFields(RunOps(NEW, init), op.obs);
        FirstsOfSnoc(Observed(init), op.obs);
        AnyExitedOfSnoc(Observed(init), op.obs);
      }
    }
  }

  /** A unit that systemd reports as running counts as running once the start has finished, before that as
      created. */
  lemma RunningIsStored(p: Proc, obs: PState)
    requires Consistent(p) && !p.phase.Terminal() && obs.pid > 0 && !obs.Exited() && ToStatus(obs.status) == RUNNING
    ensures Step(p, Observe(obs)).state.status == if p.phase == Running then obs.status else StCreated
  {
  }

  /** An observation as it is to be taken: a running one before the start has finished as created. */
  function AsTaken(phase: Phase, obs: PState): PState {
    if phase in {Created, Starting} && obs.status in {StRunning, StartPost} then obs.(status := StCreated) else obs
  }

  function Counted(ops: seq<Op>): seq<PState> {
    if ops == [] then []
    else
      var init, op := ops[..|ops|-1], ops[|ops|-1];
      if op.Observe? then Counted(init) + [AsTaken(RunOps(NEW, init).phase, op.obs)] else Counted(init)
  }

  lemma StepTakes(p: Proc, op: Op)
    ensures Step(p, op).state == if op.Observe? then AsTaken(p.phase, op.obs).CopyTo(p.state) else p.state
  {
    hide Advance;
  }

  /** The stored state after any run is the merge of what is to be taken, so its status too is that of the
      last observation entitled to set it (MergeStatus). */
  lemma {:induction false} RunIsMerge(ops: seq<Op>)
    ensures RunOps(NEW, ops).state == MergeAll(Counted(ops))
  {
    hide Step, AsTaken;
    if ops != [] {
      var init, op := ops[..|ops|-1], ops[|ops|-1];
      RunIsMerge(init);
      StepTakes(RunOps(NEW, init), op);
      if op.Observe? {
        assert Counted(ops)[..|Counted(ops)|-1] == Counted(init);
      }
    }
  }

  /** In one statement: the stored status. */
  lemma RunStatus(ops: seq<Op>, i: nat)
    requires i < |Counted(ops)| && SetsStatus(Counted(ops), i)
    requires forall j: nat :: i < j < |Counted(ops)| ==> !SetsStatus(Counted(ops), j)
    ensures RunOps(NEW, ops).state.status == Counted(ops)[i].status
  {
    RunIsMerge(ops);
    MergeStatus(Counted(ops), i);
  }

  /** The deleting flag is set by the first teardown and stays. */
  lemma {:induction false} DeletingIff(ops: seq<Op>)
    ensures RunOps(NEW, ops).deleting <==> MarkDeleting in ops
  {
    if ops != [] {
      DeletingIff(ops[..|ops|-1]);
      assert ops == ops[..|ops|-1] + [ops[|ops|-1]];
    }
  }

  /** The Service exits recorded since they were last cleared. */
  function Records(ops: seq<Op>): seq<PState> {
    if ops == [] then []
    else
      var before := Records(ops[..|ops|-1]);
      match ops[|ops|-1]
      case Record(exit) => before + [exit]
      case ClearRecord => []
      case _ => before
  }

  ghost predicate IsLatest(rs: seq<PState>, i: nat) {
    i < |rs| && (forall j :: 0 <= j < i ==> rs[j].exitedAt < rs[i].exitedAt)
    && (forall j :: i < j < |rs| ==> rs[j].exitedAt <= rs[i].exitedAt)
  }

  lemma LatestOfSnoc(rs: seq<PState>, i: nat, r: PState)
    requires IsLatest(rs, i)
    ensures IsLatest(rs + [r], if r.exitedAt > rs[i].exitedAt then |rs| else i)
  {
  }

  /** Of those the latest is kept, and the first of several at the same time. */
  lemma {:induction false} LatestIsRecorded(ops: seq<Op>) returns (i: nat)
    ensures var rs, r := Records(ops), RunOps(NEW, ops).recorded;
            if rs == [] then r.None? else IsLatest(rs, i) && r == Some(rs[i])
  {
    i := 0;
    if ops != [] {
      var init, op := ops[..|ops|-1], ops[|ops|-1];
      i := LatestIsRecorded(init);
      var rs := Records(init);
      if op.Record? && rs == [] {
        i := 0;
      } else if op.Record? {
        LatestOfSnoc(rs, i, op.exit);
        i := if op.exit.exitedAt > rs[i].exitedAt then |rs| else i;
      }
    }
  }

  lemma DeletedAfter(p: Proc, op: Op)
    ensures Step(p, op).phase == Deleted <==> p.phase == Deleted || op.FinishDelete?
  {
  }

  lemma {:induction false} DeletedIff(ops: seq<Op>)
    ensures RunOps(NEW, ops).phase == Deleted <==> FinishDelete in ops
  {
    hide Step;
    if ops != [] {
      var init, op := ops[..|ops|-1], ops[|ops|-1];
      DeletedIff(init);
      DeletedAfter(RunOps(NEW, init), op);
      assert ops == init + [op];
    }
  }

  /** Phase Exited is entered by exactly the first terminal observation, if no delete came first. */
  lemma ExitEntry(ops: seq<Op>, i: nat)
    requires i < |ops|
    ensures RunOps(NEW, ops[..i]).phase != Exited && RunOps(NEW, ops[..i+1]).phase == Exited <==>
            ops[i].Observe? && ops[i].obs.Exited() && !AnyExited(Observed(ops[..i])) && FinishDelete !in ops[..i]
  {
    var init := ops[..i];
    assert ops[..i+1][..i] == init;
    RunIsSummary(init);
    DeletedIff(init);
    RunKeeps(NEW, init);
  }

  /** The update that ends a process reports what it stored: code, status, and any exit time. */
  lemma ExitReport(p: Proc, obs: PState)
    requires Consistent(p) && ApplyState(p, obs).1.JustExited()
    ensures var (q, u) := ApplyState(p, obs);
            && u.state.exitCode == q.state.exitCode == obs.exitCode
            && u.state.status == q.state.status
            && (u.state.exitedAt > 0 || q.state.exitedAt > 0 ==> u.state.exitedAt == q.state.exitedAt)
            && u.state.Exited()
  {
  }

  /** In general the returned code is the stored one exactly when the two observers do not disagree. */
  lemma ReturnedCode(p: Proc, obs: PState)
    ensures var (q, u) := ApplyState(p, obs);
            u.state.exitCode == q.state.exitCode <==>
            obs.exitCode == 0 || p.state.exitCode == 0 || obs.exitCode == p.state.exitCode
  {
  }

  /** A stored "stopped" status is overwritten by a non-stopped one exactly by a terminal
      observation that names such a status; Exited() itself never goes back (Keeps). */
  lemma StatusRegresses(p: Proc, obs: PState)
    requires ToStatus(p.state.status) == STOPPED && Consistent(p)
    ensures ToStatus(ApplyState(p, obs).0.state.status) != STOPPED <==>
            obs.Exited() && obs.status != Unset && ToStatus(obs.status) != STOPPED
  {
  }

  // Both happen. A unit that is killed is first seen exited, with one code, and then still stopping with another.

  const KILLED := PState(5, 255, 7, StExited)
  const STOPPING := PState(GO_ZERO_TIME, 143, 7, Other("stop-sigterm"))

  lemma RunSnoc(ops: seq<Op>, op: Op)
    ensures RunOps(NEW, ops + [op]) == Step(RunOps(NEW, ops), op)
  {
    assert (ops + [op])[..|ops|] == ops;
  }

  lemma KilledAsStarted() returns (ops: seq<Op>)
    ensures RunOps(NEW, ops) == NEW.(phase := Exited, state := KILLED)
  {
    RunSnoc([], BeginStart);
    RunSnoc([BeginStart], FinishStart);
    assert [] + [BeginStart] == [BeginStart] && [BeginStart] + [FinishStart] == [BeginStart, FinishStart];
    ops := [BeginStart, FinishStart];
    assert RunOps(NEW, ops) == NEW.(phase := Running);
    RunSnoc(ops, Observe(KILLED));
    ops := ops + [Observe(KILLED)];
  }

  /** A run after which one more observation is answered with another code than the stored one, and turns
      the stored status from stopped to unknown. */
  lemma SecondObserver() returns (ops: seq<Op>)
    ensures var p, q := RunOps(NEW, ops), RunOps(NEW, ops + [Observe(STOPPING)]);
            && ToStatus(p.state.status) == STOPPED && ToStatus(q.state.status) == UNKNOWN
            && q.state.exitCode == 255 && ApplyState(p, STOPPING).1.state.exitCode == 143
  {
    ops := KilledAsStarted();
    RunSnoc(ops, Observe(STOPPING));
  }

  // ---------------------------------------------------------------- waiters

  /** A process with the waitForExit callers parked on its condition variable, and those
      that are awake and about to look (again). */
  datatype Monitor = Monitor(proc: Proc, parked: set<nat>, awake: set<nat>)

  function Broadcast(m: Monitor): Monitor {
    m.(parked := {}, awake := m.awake + m.parked)
  }

  /** advance and applyState broadcast; the flag and the recorded exit do not. */
  predicate Broadcasts(op: Op) {
    !(op.Record? || op.ClearRecord? || op.MarkDeleting?)
  }

  datatype Happening = Does(op: Op) | Arrives(waiter: nat) | Looks(waiter: nat)

  /** One turn of waitForExit under the lock: return if over, park otherwise. */
  function Look(m: Monitor, w: nat): Monitor {
    if w !in m.awake then m
    else if m.proc.Over() then m.(awake := m.awake - {w})
    else m.(awake := m.awake - {w}, parked := m.parked + {w})
  }

  function MonitorStep(m: Monitor, e: Happening): Monitor {
    match e
    case Does(op) =>
      var n := m.(proc := Step(m.proc, op));
      if Broadcasts(op) then Broadcast(n) else n
    case Arrives(w) => if w in m.parked then m else m.(awake := m.awake + {w})
    case Looks(w) => Look(m, w)
  }

  function MonitorRun(m: Monitor, es: seq<Happening>): Monitor {
    if es == [] then m else MonitorStep(MonitorRun(m, es[..|es|-1]), es[|es|-1])
  }

  /** A waiter that is parked and unsignalled has nothing to return for. */
  predicate NobodyForgotten(m: Monitor) {
    && Consistent(m.proc)
    && m.parked !! m.awake
    && (m.parked != {} ==> !m.proc.Over())
  }

  lemma MonitorStepKeeps(m: Monitor, e: Happening)
    requires NobodyForgotten(m)
    ensures NobodyForgotten(MonitorStep(m, e))
  {
    if e.Does? {
      StepKeepsConsistent(m.proc, e.op);
    }
  }

  /** No exit or delete wake-up is lost, on any interleaving of operations and waiters. */
  lemma {:induction false} NoLostWakeup(es: seq<Happening>)
    ensures NobodyForgotten(MonitorRun(Monitor(NEW, {}, {}), es))
  {
    if es != [] {
      NoLostWakeup(es[..|es|-1]);
      MonitorStepKeeps(MonitorRun(Monitor(NEW, {}, {}), es[..|es|-1]), es[|es|-1]);
    }
  }

  /** Everything that can move the phase or the state wakes everybody; the rest wakes nobody. */
  lemma WhoWakes(m: Monitor, op: Op)
    ensures var n := MonitorStep(m, Does(op));
            if op.Record? || op.ClearRecord? || op.MarkDeleting? then n.parked == m.parked && n.awake == m.awake
            else n.parked == {} && n.awake == m.awake + m.parked
  {
  }

  /** A waiter that leaves does so only once the process is over, which then stays true; and once
      it is over every waiter still inside is awake and its next look is its last. */
  lemma WaitersLeave(m: Monitor, w: nat, later: seq<Happening>)
    requires NobodyForgotten(m) && w in m.awake + m.parked
    ensures w !in Look(m, w).awake + Look(m, w).parked <==> m.proc.Over()
    ensures m.proc.Over() ==> w in m.awake && MonitorRun(m, later).proc.Over()
    decreases later
  {
    if later != [] && m.proc.Over() {
      var init, e := later[..|later|-1], later[|later|-1];
      WaitersLeave(m, w, init);
      if e.Does? {
        StepKeeps(MonitorRun(m, init).proc, e.op);
      }
    }
  }

  // ---------------------------------------------------------------- the object

  class Process {
    /** The unit's escaped name, fixed for the life of the object. */
    const pathName: string
    var phase: Phase
    var state: PState
    var deleting: bool
    var recorded: Option<PState>
    var parked: set<nat>
    var awake: set<nat>

    function View(): Monitor
      reads this
    {
      Monitor(Proc(phase, state, deleting, recorded), parked, awake)
    }

    ghost predicate Valid()
      reads this
    {
      NobodyForgotten(View())
    }

    constructor (pathName: string)
      ensures Valid() && View() == Monitor(NEW, {}, {}) && this.pathName == pathName
    {
      this.pathName := pathName;
      phase, state, deleting, recorded := Created, ZERO, false, None;
      parked, awake := {}, {};
    }

    method WakeAll()
      modifies this`parked, this`awake
      ensures View() == Broadcast(old(View()))
    {
      awake := awake + parked;
      parked := {};
    }

    method AdvanceLocked(next: Phase) returns (outcome: Outcome)
      modifies this`phase
      ensures (phase, outcome) == Advance(old(phase), next)
    {
      if !phase.CanBecome(next) {
        return Rejected;
      }
      if phase == next {
        return Unchanged;
      }
      phase := next;
      return Changed;
    }

    method BeginStart() returns (admitted: bool)
      requires Valid()
      modifies this
      ensures Valid() && View() == MonitorStep(old(View()), Does(Op.BeginStart))
      ensures admitted <==> old(phase) == Created
      ensures admitted ==> phase == Starting
    {
      MonitorStepKeeps(View(), Does(Op.BeginStart));
      var outcome := AdvanceLocked(Starting);
      WakeAll();
      return outcome != Rejected;
    }

    method AbortStart()
      requires Valid()
      modifies this
      ensures Valid() && View() == MonitorStep(old(View()), Does(Op.AbortStart))
      ensures phase != Starting
    {
      MonitorStepKeeps(View(), Does(Op.AbortStart));
      var _ := AdvanceLocked(Created);
      WakeAll();
    }

    method FinishStart()
      requires Valid()
      modifies this
      ensures Valid() && View() == MonitorStep(old(View()), Does(Op.FinishStart))
    {
      MonitorStepKeeps(View(), Does(Op.FinishStart));
      var _ := AdvanceLocked(Running);
      WakeAll();
    }

    method FinishDelete() returns (deleted: bool)
      requires Valid()
      modifies this
      ensures Valid() && View() == MonitorStep(old(View()), Does(Op.FinishDelete))
      ensures phase == Deleted && (deleted <==> old(phase) != Deleted)
    {
      MonitorStepKeeps(View(), Does(Op.FinishDelete));
      var outcome := AdvanceLocked(Deleted);
      WakeAll();
      return outcome == Changed;
    }

    method ApplyObservation(obs: PState) returns (u: StateUpdate)
      requires Valid()
      modifies this
      ensures Valid() && View() == MonitorStep(old(View()), Does(Observe(obs)))
      ensures u == ApplyState(old(View()).proc, obs).1
    {
      MonitorStepKeeps(View(), Does(Observe(obs)));
      var from := phase;
      var seen := obs;
      if phase.Rank() < Running.Rank() && ToStatus(obs.status) == RUNNING {
        seen := obs.(status := StCreated);
      }
      state := seen.CopyTo(state);
      if state.exitCode > 0 && !state.Exited() {
        // The exit-time stamp: never reached, an exit code alone already is an exit.
        assert false;
      }
      if state.Exited() {
        var _ := AdvanceLocked(Exited);
      }
      seen := state.CopyTo(seen);
      WakeAll();
      return StateUpdate(seen, from, phase);
    }

    method RecordSystemdExitState(exit: PState)
      requires Valid()
      modifies this`recorded
      ensures Valid() && View() == MonitorStep(old(View()), Does(Record(exit)))
    {
      if recorded.None? || exit.exitedAt > recorded.value.exitedAt {
        recorded := Some(exit);
      }
    }

    method ClearRecordedSystemdExitState()
      requires Valid()
      modifies this`recorded
      ensures Valid() && View() == MonitorStep(old(View()), Does(ClearRecord))
    {
      recorded := None;
    }

    method MarkDeleting()
      requires Valid()
      modifies this`deleting
      ensures Valid() && View() == MonitorStep(old(View()), Does(Op.MarkDeleting))
    {
      deleting := true;
    }

    /** One turn of the waitForExit loop for an awake waiter. */
    method WaitTurn(w: nat) returns (r: Option<PState>)
      requires Valid() && w in awake
      modifies this`parked, this`awake
      ensures Valid() && View() == MonitorStep(old(View()), Looks(w))
      ensures r.Some? <==> phase == Deleted || state.Exited()
      ensures r.Some? && !state.Hollow() ==>
                && (r.value.exitCode, r.value.pid, r.value.status) == (state.exitCode, state.pid, state.status)
                && (if state.exitedAt > 0 then r.value.exitedAt == state.exitedAt else r.value.exitedAt == GO_ZERO_TIME)
      ensures r.Some? && state.Hollow() ==> r.value == ZERO
    {
      awake := awake - {w};
      if phase == Deleted || state.Exited() {
        return Some(state.CopyTo(ZERO));
      }
      parked := parked + {w};
      return None;
    }
  }
}
