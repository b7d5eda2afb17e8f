/** SetState of an init process and of its execs (process.go): merging an observation, and, on the one
    update that ends the init process, ending every exec that was running under it. */
module Cascade {
  import opened Basics
  import opened Phases
  import opened Observations
  import opened Processes
  import opened Outbox

  /** An exec as a value: its process, and the events handed to its outbox. */
  datatype ExecState = ExecState(proc: Proc, sent: seq<Event>)

  function ExitEvent(st: PState): Event {
    TaskExit(st.exitCode, st.pid, st.exitedAt)
  }

  /** execProcess.SetState. */
  function ExecSet(e: ExecState, obs: PState): ExecState {
    var (q, u) := ApplyState(e.proc, obs);
    ExecState(q, if u.JustExited() then e.sent + [ExitEvent(u.state)] else e.sent)
  }

  /** The exit forced on an exec that outlived its container. */
  function Forced(now: int): PState {
    PState(now, 255, 0, Unset)
  }

  /** What the cascade does to one exec: read its exit file, leave it if it never ran, else end it. */
  function EndExec(e: ExecState, file: Option<PState>, now: int): ExecState {
    var loaded := if file.Some? then ExecSet(e, file.value) else e;
    if loaded.proc.phase.Rank() < Running.Rank() || loaded.proc.state.Exited() then loaded
    else ExecSet(loaded, Forced(now))
  }

  lemma ExecSetReports(e: ExecState, obs: PState)
    requires Consistent(e.proc)
    ensures var r := ExecSet(e, obs);
            && Consistent(r.proc) && (obs.Exited() || e.proc.state.Exited() ==> r.proc.state.Exited())
            && (if !e.proc.phase.Terminal() && obs.Exited()
                then r.proc.phase == Exited && |r.sent| == |e.sent| + 1 && r.sent[..|e.sent|] == e.sent
                     && r.sent[|e.sent|].TaskExit? && r.sent[|e.sent|].code == r.proc.state.exitCode == obs.exitCode
                else r.proc.phase == e.proc.phase && r.sent == e.sent)
  {
  }

  /** After the cascade an exec is in a phase before running or exited; it has sent exactly one exit
      more if the cascade ended it, with the stored code, and none if it already was exited or
      deleted or never ran. */
  lemma ExecEnds(e: ExecState, file: Option<PState>, now: int)
    requires Consistent(e.proc)
    ensures var r := EndExec(e, file, now);
            && Consistent(r.proc)
            && (r.proc.phase.Rank() < Running.Rank() || r.proc.state.Exited())
            && (if r.proc.phase == e.proc.phase then r.sent == e.sent
                else r.proc.phase == Exited && |r.sent| == |e.sent| + 1 && r.sent[..|e.sent|] == e.sent
                     && r.sent[|e.sent|].TaskExit? && r.sent[|e.sent|].code == r.proc.state.exitCode)
            && (r.proc.phase != e.proc.phase ==> !e.proc.phase.Terminal())
  {
    hide ApplyState, ExecSet;
    if file.Some? {
      ExecSetReports(e, file.value);
      ExecSetReports(ExecSet(e, file.value), Forced(now));
    }
    ExecSetReports(e, Forced(now));
    assert Forced(now).Exited();
  }

  /** The exit that an observation reports for an exec that was not over: its code, its time, its pid if it
      has one; code and time are the stored ones. */
  lemma ExecSetEvent(e: ExecState, obs: PState)
    requires Consistent(e.proc) && !e.proc.phase.Terminal() && obs.Exited()
    ensures var r := ExecSet(e, obs);
            && r.proc.phase == Exited && r.proc.state.exitCode == obs.exitCode
            && (obs.exitedAt > 0 ==> r.proc.state.exitedAt == obs.exitedAt)
            && r.sent == e.sent + [TaskExit(obs.exitCode, if obs.pid > 0 then obs.pid else e.proc.state.pid, obs.exitedAt)]
  {
  }

  /** An observation that is no exit leaves an exec going, with its code, and tells it its pid. */
  lemma ExecSetQuiet(e: ExecState, obs: PState)
    requires Consistent(e.proc) && !e.proc.phase.Terminal() && !obs.Exited()
    ensures var r := ExecSet(e, obs);
            && r.proc.phase == e.proc.phase && r.sent == e.sent && !r.proc.state.Exited()
            && r.proc.state.pid == if e.proc.state.pid > 0 then e.proc.state.pid else obs.pid
  {
  }

  /** The exit file is what the cascade believes: an exec with a terminal one ends with its code, pid and
      time; one that runs and has none, or none that is terminal, is ended now with 255. One that never ran
      and has none is left as it is. */
  lemma FileDecides(e: ExecState, file: Option<PState>, now: int)
    requires Consistent(e.proc) && !e.proc.phase.Terminal()
    ensures var r := EndExec(e, file, now);
            var pid := if e.proc.state.pid > 0 then e.proc.state.pid else if file.Some? then file.value.pid else 0;
            if file.Some? && file.value.Exited() then
              && r.proc.phase == Exited && r.proc.state.exitCode == file.value.exitCode
              && (file.value.exitedAt > 0 ==> r.proc.state.exitedAt == file.value.exitedAt)
              && r.sent == e.sent + [TaskExit(file.value.exitCode,
                                              if file.value.pid > 0 then file.value.pid else e.proc.state.pid,
                                              file.value.exitedAt)]
            else if e.proc.phase == Running then
              && r.proc.phase == Exited && r.proc.state.exitCode == 255
              && (now > 0 ==> r.proc.state.exitedAt == now)
              && r.sent == e.sent + [TaskExit(255, pid, now)]
            else r.proc.phase == e.proc.phase && r.sent == e.sent && !r.proc.state.Exited()
  {
    hide ExecSet;
    if file.Some? && file.value.Exited() {
      ExecSetEvent(e, file.value);
      ExecSetReports(e, file.value);
    } else {
      var loaded := if file.Some? then ExecSet(e, file.value) else e;
      if file.Some? { ExecSetQuiet(e, file.value); ExecSetReports(e, file.value); }
      ExecSetEvent(loaded, Forced(now));
    }
  }

  /** execProcess.State: what callers are told about an exec. */
  function ReportedState(p: Proc, parentExited: bool): PState {
    var st := p.state.CopyTo(ZERO);
    if (st.status == ExitedInit && parentExited) || (p.phase.Rank() < Running.Rank() && !st.Exited())
    then st.(status := StCreated, exitCode := 0, exitedAt := 0) else st
  }

  /** Under an exited container an exec is reported as merely created, with no exit, exactly when it
      never ran or only its init helper exited; every other exec is reported exited, with its code. */
  lemma ReportAfterCascade(p: Proc)
    requires Consistent(p) && (p.phase.Rank() < Running.Rank() || p.state.Exited())
    ensures var st := ReportedState(p, true);
            if p.phase.Rank() < Running.Rank() || p.state.status == ExitedInit
            then st.status == StCreated && !st.Exited()
            else st.Exited() && st.exitCode == p.state.exitCode
  {
  }

  /** In general: an exec is reported created and not exited if only its init helper exited and its
      container has exited too, or if it never ran and has not exited; else with what is stored. */
  lemma ReportIs(p: Proc, parentExited: bool)
    requires Consistent(p)
    ensures var st := ReportedState(p, parentExited);
            if p.state.status == ExitedInit && !parentExited then st.status == ExitedInit && st.exitCode == p.state.exitCode
            else if p.state.status == ExitedInit then st.status == StCreated && !st.Exited()
            else if p.phase in {Created, Starting} then st.status == StCreated && !st.Exited()
            else if p.state.Hollow() then st == ZERO
            else (st.exitCode, st.pid, st.status) == (p.state.exitCode, p.state.pid, p.state.status)
                 && (p.state.exitedAt > 0 ==> st.exitedAt == p.state.exitedAt)
  {
  }

  const NEW_EXEC := ExecState(NEW, [])

  /** An exec while any other goroutines act on it. */
  function RunExec(e: ExecState, ops: seq<Op>): ExecState {
    if ops == [] then e
    else
      var m, op := RunExec(e, ops[..|ops|-1]), ops[|ops|-1];
      if op.Observe? then ExecSet(m, op.obs) else m.(proc := Step(m.proc, op))
  }

  ghost predicate EndedBeforeDelete(ops: seq<Op>) {
    exists i :: 0 <= i < |ops| && ops[i].Observe? && ops[i].obs.Exited() && FinishDelete !in ops[..i]
  }

  /** Whoever observes it and whenever, an exec reports one exit if a terminal observation came before
      any delete, and none otherwise. */
  lemma {:induction false} ExecReportsOnce(ops: seq<Op>)
    ensures RunExec(NEW_EXEC, ops).proc == RunOps(NEW, ops)
    ensures |RunExec(NEW_EXEC, ops).sent| == if EndedBeforeDelete(ops) then 1 else 0
  {
    if ops != [] {
      var k := |ops| - 1;
      var init, op := ops[..k], ops[k];
      ExecReportsOnce(init);
      RunKeeps(NEW, init);
      DeletedIff(init);
      RunIsSummary(init);
      EndedSnoc(ops);
      NotEndedYet(init);
      if op.Observe? {
        ExecSetReports(RunExec(NEW_EXEC, init), op.obs);
      }
    }
  }

  lemma EndedSnoc(ops: seq<Op>)
    requires ops != []
    ensures var k := |ops| - 1;
            EndedBeforeDelete(ops) <==>
            EndedBeforeDelete(ops[..k]) || (ops[k].Observe? && ops[k].obs.Exited() && FinishDelete !in ops[..k])
  {
    var k := |ops| - 1;
    var init := ops[..k];
    forall i | 0 <= i < k ensures init[..i] == ops[..i] && init[i] == ops[i] {
    }
    if EndedBeforeDelete(init) {
      var i :| 0 <= i < k && init[i].Observe? && init[i].obs.Exited() && FinishDelete !in init[..i];
      assert ops[i].Observe? && FinishDelete !in ops[..i];
    }
    if i :| 0 <= i < |ops| && ops[i].Observe? && ops[i].obs.Exited() && FinishDelete !in ops[..i] {
      if i < k { assert init[i].Observe? && FinishDelete !in init[..i]; }
    }
  }

  /** A process that is in no terminal phase has not ended; one that ended is in one. */
  lemma {:induction false} NotEndedYet(ops: seq<Op>)
    ensures EndedBeforeDelete(ops) ==> RunOps(NEW, ops).phase.Terminal()
    ensures RunOps(NEW, ops).phase == Exited ==> EndedBeforeDelete(ops)
  {
    if ops != [] {
      var k := |ops| - 1;
      NotEndedYet(ops[..k]);
      EndedSnoc(ops);
      RunKeeps(NEW, ops[..k]);
      DeletedIff(ops[..k]);
      RunIsSummary(ops[..k]);
      var p := RunOps(NEW, ops[..k]);
      StepKeepsConsistent(p, ops[k]);
      StepKeeps(p, ops[k]);
      if ops[k].Observe? { ObserveOutcome(p, ops[k].obs); }
    }
  }

  // ---------------------------------------------------------------- the cascade amid other goroutines

  /** The cascade holds no lock of the exec between its steps: others act on it after its file was
      loaded, after its phase was looked at, and after it was found not to have exited. */
  function EndAmid(e: ExecState, file: Option<PState>, now: int, a: seq<Op>, b: seq<Op>, c: seq<Op>): ExecState {
    EndLoaded(if file.Some? then ExecSet(e, file.value) else e, now, a, b, c)
  }

  function EndLoaded(first: ExecState, now: int, a: seq<Op>, b: seq<Op>, c: seq<Op>): ExecState {
    var loaded := RunExec(first, a);
    if loaded.proc.phase.Rank() < Running.Rank() then loaded
    else
      var seen := RunExec(loaded, b);
      if seen.proc.state.Exited() then seen else ExecSet(RunExec(seen, c), Forced(now))
  }

  /** From e to r at most one exit was reported, only if it ended then, certainly if it now is exited,
      and with a nonzero code only if that is the stored one. */
  predicate ReportsOnce(e: ExecState, r: ExecState) {
    && Keeps(e.proc, r.proc)
    && |e.sent| <= |r.sent| <= |e.sent| + 1 && r.sent[..|e.sent|] == e.sent
    && (if |r.sent| > |e.sent|
        then !e.proc.phase.Terminal() && r.proc.phase.Terminal() && r.sent[|e.sent|].TaskExit?
             && r.sent[|e.sent|].code in {0, r.proc.state.exitCode}
        else r.proc.phase == Exited ==> e.proc.phase == Exited)
  }

  lemma SetReportsOnce(e: ExecState, obs: PState)
    requires Consistent(e.proc)
    ensures Consistent(ExecSet(e, obs).proc) && ReportsOnce(e, ExecSet(e, obs))
    ensures obs.Exited() ==> ExecSet(e, obs).proc.state.Exited()
  {
    hide ApplyState, Keeps;
    ExecSetReports(e, obs);
    assert ExecSet(e, obs).proc == Step(e.proc, Observe(obs));
    StepKeeps(e.proc, Observe(obs));
    KeepsPhases(e.proc, ExecSet(e, obs).proc);
  }

  lemma KeepsPhases(p: Proc, q: Proc)
    requires Keeps(p, q)
    ensures p.phase.Terminal() ==> q.phase.Terminal()
    ensures p.phase == Deleted ==> q.phase == Deleted
    ensures p.state.exitCode > 0 ==> q.state.exitCode == p.state.exitCode
  {
  }

  lemma KeepsMore(p: Proc, q: Proc, r: Proc)
    requires Keeps(p, q) && Keeps(q, r)
    ensures Keeps(p, r)
  {
  }

  lemma ReportsOnceMore(e: ExecState, m: ExecState, r: ExecState)
    requires ReportsOnce(e, m) && ReportsOnce(m, r)
    ensures ReportsOnce(e, r)
  {
    hide Keeps;
    KeepsMore(e.proc, m.proc, r.proc);
    KeepsPhases(e.proc, m.proc);
    KeepsPhases(m.proc, r.proc);
    assert r.sent[..|e.sent|] == m.sent[..|e.sent|];
    if |m.sent| > |e.sent| {
      assert r.sent[|e.sent|] == m.sent[|e.sent|];
    }
  }

  lemma QuietReportsOnce(e: ExecState, op: Op)
    requires Consistent(e.proc) && !op.Observe?
    ensures Consistent(Step(e.proc, op)) && ReportsOnce(e, e.(proc := Step(e.proc, op)))
  {
    StepKeepsConsistent(e.proc, op);
    StepKeeps(e.proc, op);
    hide Keeps;
    assert e.sent[..|e.sent|] == e.sent;
  }

  lemma {:induction false} OthersReportOnce(e: ExecState, ops: seq<Op>)
    requires Consistent(e.proc)
    ensures Consistent(RunExec(e, ops).proc) && ReportsOnce(e, RunExec(e, ops))
  {
    hide ReportsOnce, Step, ExecSet, Consistent;
    if ops == [] {
      KeepsSelf(e);
    } else {
      var init, op := ops[..|ops|-1], ops[|ops|-1];
      var m := RunExec(e, init);
      OthersReportOnce(e, init);
      if op.Observe? {
        SetReportsOnce(m, op.obs);
      } else {
        QuietReportsOnce(m, op);
      }
      ReportsOnceMore(e, m, RunExec(e, ops));
    }
  }

  lemma KeepsSelf(e: ExecState)
    ensures ReportsOnce(e, e)
  {
    assert e.sent[..|e.sent|] == e.sent;
  }

  lemma LoadedReportsOnce(first: ExecState, now: int, a: seq<Op>, b: seq<Op>, c: seq<Op>)
    requires Consistent(first.proc)
    ensures var r := EndLoaded(first, now, a, b, c);
            && Consistent(r.proc) && ReportsOnce(first, r)
            && (r.proc.phase.Rank() < Running.Rank() || r.proc.state.Exited())
  {
    hide ReportsOnce, ExecSet, Consistent;
    var loaded := RunExec(first, a);
    OthersReportOnce(first, a);
    if loaded.proc.phase.Rank() >= Running.Rank() {
      var seen := RunExec(loaded, b);
      OthersReportOnce(loaded, b);
      ReportsOnceMore(first, loaded, seen);
      if !seen.proc.state.Exited() {
        var late := RunExec(seen, c);
        OthersReportOnce(seen, c);
        SetReportsOnce(late, Forced(now));
        ReportsOnceMore(first, seen, late);
        ReportsOnceMore(first, late, ExecSet(late, Forced(now)));
      }
    }
  }

  /** Whatever the other goroutines do meanwhile, the cascade leaves the exec in a phase before running
      or exited; it and they together report its end once. Undisturbed it is EndExec. */
  lemma EndsAmidOthers(e: ExecState, file: Option<PState>, now: int, a: seq<Op>, b: seq<Op>, c: seq<Op>)
    requires Consistent(e.proc)
    ensures var r := EndAmid(e, file, now, a, b, c);
            && Consistent(r.proc) && ReportsOnce(e, r)
            && (r.proc.phase.Rank() < Running.Rank() || r.proc.state.Exited())
    ensures EndAmid(e, file, now, [], [], []) == EndExec(e, file, now)
  {
    hide ReportsOnce, ExecSet, Consistent;
    var first := if file.Some? then ExecSet(e, file.value) else e;
    if file.Some? { SetReportsOnce(e, file.value); } else { KeepsSelf(e); }
    LoadedReportsOnce(first, now, a, b, c);
    ReportsOnceMore(e, first, EndLoaded(first, now, a, b, c));
  }

  /** Nor can they change what a terminal exit file says: the one report is the file's. */
  lemma FileDecidesAmidOthers(e: ExecState, st: PState, now: int, a: seq<Op>, b: seq<Op>, c: seq<Op>)
    requires Consistent(e.proc) && !e.proc.phase.Terminal() && st.Exited()
    ensures var r := EndAmid(e, Some(st), now, a, b, c);
            && r.sent == e.sent + [TaskExit(st.exitCode, if st.pid > 0 then st.pid else e.proc.state.pid, st.exitedAt)]
            && (st.exitCode > 0 ==> r.proc.state.exitCode == st.exitCode)
  {
    hide ExecSet, EndLoaded, Keeps;
    var first := ExecSet(e, st);
    ExecSetEvent(e, st);
    SetReportsOnce(e, st);
    LoadedReportsOnce(first, now, a, b, c);
    var r := EndLoaded(first, now, a, b, c);
    KeepsPhases(first.proc, r.proc);
    assert r.sent == r.sent[..|first.sent|];
  }

  /** Without a file, and if nobody else sees it exit, a running exec is reported to have ended with 255. */
  lemma ForcedAmidOthers(e: ExecState, now: int, a: seq<Op>, b: seq<Op>, c: seq<Op>)
    requires Consistent(e.proc)
    requires RunExec(e, a).proc.phase == Running && !RunExec(RunExec(e, a), b).proc.state.Exited()
    requires !RunExec(RunExec(RunExec(e, a), b), c).proc.phase.Terminal()
    ensures var late := RunExec(RunExec(RunExec(e, a), b), c); var r := EndAmid(e, None, now, a, b, c);
            r.sent == late.sent + [TaskExit(255, late.proc.state.pid, now)] && r.proc.state.exitCode == 255
  {
    hide RunExec, ExecSet;
    OthersReportOnce(e, a);
    OthersReportOnce(RunExec(e, a), b);
    OthersReportOnce(RunExec(RunExec(e, a), b), c);
    ExecSetEvent(RunExec(RunExec(RunExec(e, a), b), c), Forced(now));
  }

  // ---------------------------------------------------------------- the objects

  class ExecProcess {
    const process: Process
    /** The exit file of this exec, if it can be read. */
    var file: Option<PState>
    var sent: seq<Event>

    constructor (process: Process)
      ensures this.process == process && file == None && sent == []
    {
      this.process, file, sent := process, None, [];
    }

    function View(): ExecState
      reads this, process
    {
      ExecState(process.View().proc, sent)
    }

    method SetState(obs: PState)
      requires process.Valid()
      modifies this`sent, process
      ensures process.Valid() && View() == ExecSet(old(View()), obs)
    {
      var u := process.ApplyObservation(obs);
      if u.JustExited() {
        sent := sent + [ExitEvent(u.state)];
      }
    }

    method LoadState()
      requires process.Valid()
      modifies this`sent, process
      ensures process.Valid()
      ensures View() == if file.Some? then ExecSet(old(View()), file.value) else old(View())
    {
      if file.Some? {
        SetState(file.value);
      }
    }

    method End(now: int)
      requires process.Valid()
      modifies this`sent, process
      ensures process.Valid() && View() == EndExec(old(View()), file, now)
    {
      LoadState();
      if process.phase.Rank() < Running.Rank() {
        return;
      }
      if !process.state.Exited() {
        SetState(Forced(now));
      }
    }
  }

  class InitProcess {
    const process: Process
    const killAllOnExit: bool
    var execs: seq<ExecProcess>
    var sent: seq<Event>
    /** Set when the container's remaining processes were killed through runc. */
    var killedAll: bool

    constructor (process: Process, killAllOnExit: bool)
      ensures this.process == process && this.killAllOnExit == killAllOnExit
      ensures execs == [] && sent == [] && !killedAll
    {
      this.process, this.killAllOnExit, execs, sent, killedAll := process, killAllOnExit, [], [], false;
    }

    /** The execs are registered under distinct ids, so each is its own object with its own process. */
    ghost predicate Valid()
      reads this, process, execs, set e | e in execs :: e.process
    {
      && process.Valid()
      && (forall i :: 0 <= i < |execs| ==> execs[i].process.Valid() && execs[i].process != process)
      && (forall i, j :: 0 <= i < j < |execs| ==> execs[i] != execs[j] && execs[i].process != execs[j].process)
    }

    /** Each, in whatever order the exec map is walked. */
    method EndExecs(now: int)
      requires Valid()
      modifies execs, set e | e in execs :: e.process
      ensures Valid() && process.View() == old(process.View())
      ensures forall i :: 0 <= i < |execs| ==> execs[i].View() == EndExec(old(execs[i].View()), old(execs[i].file), now)
    {
      hide EndExec, NobodyForgotten, Consistent, MonitorStep, Step, ExecSet, ApplyState;
      var i := 0;
      while i < |execs|
        invariant 0 <= i <= |execs|
        invariant Valid() && process.View() == old(process.View())
        invariant forall j :: 0 <= j < |execs| ==> execs[j].file == old(execs[j].file)
        invariant forall j :: 0 <= j < i ==> execs[j].View() == EndExec(old(execs[j].View()), old(execs[j].file), now)
        invariant forall j :: i <= j < |execs| ==> execs[j].View() == old(execs[j].View())
      {
        assert execs[i].View() == old(execs[i].View());
        execs[i].End(now);
        i := i + 1;
      }
    }

    /** The rest of SetState for the update that ended the process. */
    method ReportExit(st: PState, wasRunning: bool, now: int)
      requires Valid() && process.parked == {}
      modifies this`sent, this`killedAll, process, execs, set e | e in execs :: e.process
      ensures Valid() && process.View() == old(process.View())
      ensures sent == old(sent) + (if st.status == ExitedInit then [] else [ExitEvent(st)])
      ensures killedAll == (old(killedAll) || (st.status != ExitedInit && wasRunning && killAllOnExit))
      ensures forall i :: 0 <= i < |execs| ==> execs[i].View() == EndExec(old(execs[i].View()), old(execs[i].file), now)
    {
      hide EndExec;
      if st.status != ExitedInit && wasRunning && killAllOnExit {
        killedAll := true;
      }
      EndExecs(now);
      process.WakeAll();
      if st.status != ExitedInit {
        sent := sent + [ExitEvent(st)];
      }
    }

    /** initProcess.SetState: only the update that ends the process ends the execs and reports the exit. */
    method SetState(obs: PState, now: int) returns (u: StateUpdate)
      requires Valid()
      modifies this`sent, this`killedAll, process, execs, set e | e in execs :: e.process
      ensures Valid() && u == ApplyState(old(process.View().proc), obs).1
      ensures process.View() == MonitorStep(old(process.View()), Does(Observe(obs)))
      ensures sent == old(sent) + (if u.JustExited() && u.state.status != ExitedInit then [ExitEvent(u.state)] else [])
      ensures killedAll == (old(killedAll) || (u.JustExited() && u.state.status != ExitedInit && old(process.phase) == Running && killAllOnExit))
      ensures forall i :: 0 <= i < |execs| ==>
                execs[i].View() == if u.JustExited() then EndExec(old(execs[i].View()), old(execs[i].file), now)
                                   else old(execs[i].View())
    {
      u := process.ApplyObservation(obs);
      if u.JustExited() {
        ReportExit(u.state, u.WasRunning(), now);
      }
    }
  }
}
