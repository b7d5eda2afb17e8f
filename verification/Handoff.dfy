/** The create helper's hand-off of a detached workload (createCmd in create.go). The helper is the
    workload's subreaper until it exits; the workload may die at any moment; systemd works off the
    helper's notifications in order and refuses a main pid that is no longer alive. */
module Handoff {
  import opened Basics
  import opened Observations

  datatype WaitStatus = ExitedWith(code: nat) | KilledBy(signal: nat)

  /** What a wait status means to containerd. */
  function StatusCode(ws: WaitStatus): nat {
    match ws
    case ExitedWith(code) => code
    case KilledBy(signal) => EXIT_SIGNAL_OFFSET + signal
  }

  predicate RealStatus(ws: WaitStatus) {
    match ws
    case ExitedWith(code) => code < 256
    case KilledBy(signal) => 0 < signal < 128
  }

  /** Whoever sees it, helper or systemd, the same end comes out as the same code: the exit code, or 128 more
      than the signal. */
  lemma SameCodeEitherWay(code: nat, signal: nat)
    requires RealStatus(ExitedWith(code)) && RealStatus(KilledBy(signal))
    ensures StatusCode(ExitedWith(code)) == ExitStatusFor(CLD_EXITED, code) == code
    ensures StatusCode(KilledBy(signal)) == ExitStatusFor(CLD_KILLED, signal) == ExitStatusFor(CLD_DUMPED, signal) == 128 + signal
  {
  }

  datatype Workload = Alive | Zombie(ws: WaitStatus) | Reaped(ws: WaitStatus)

  datatype Msg = ReadyMainPid | ExitedNote(code: nat) | FailedNote(code: nat) | Barrier

  datatype Pc =
    | RunRunc
    | FailWrite | FailNotify(wrote: bool) // runc itself failed
    | ReadPid | Check1 | Write1 | Notify1
    | SendBarrier | AwaitBarrier | Check2 | Write2 | Notify2
    | Done(ok: bool)

  datatype Sys = Sys(
    pc: Pc, st: PState,
    target: uint32,                // the workload's pid, from the pid file
    workload: Workload,
    file: Option<PState>,          // the exit-state file
    reaps: nat,                    // successful wait4 calls of the helper
    told: seq<Msg>,                // notifications sent
    inbox: seq<Msg>,               // notifications systemd has not processed yet
    owned: bool,                   // systemd accepted the pid as main pid while it was alive
    reported: Option<WaitStatus>,  // what systemd reports as the main process's exit
    barrier: bool,                 // systemd processed the barrier
    seenAlive: bool,               // the workload was alive when the helper looked for the last time
    runcFailed: bool,
    trouble: bool,                 // the pid file, a write or wait4 failed
    unsynced: bool)                // the barrier failed or timed out

  datatype Label =
    | Helper(ok: bool, pid: uint32, now: int, code: uint32)
    | Dies(ws: WaitStatus)
    | Systemd
    | Collect                      // the manager reaps an orphaned zombie after the helper is gone

  const START := Sys(RunRunc, ZERO, 0, Alive, None, 0, [], [], false, None, false, false, false, false, false)

  /** wait4(WNOHANG) on the workload, by the helper. */
  function Check(s: Sys, now: int): Sys {
    if s.workload.Zombie? then
      s.(workload := Reaped(s.workload.ws), reaps := s.reaps + 1,
         st := PState(now, StatusCode(s.workload.ws) % 0x1_0000_0000, s.target, StExited))
    else s.(st := PState(GO_ZERO_TIME, 0, s.target, StRunning))
  }

  /** createCmd's deferred result: a nonzero code of an exited process fails the helper. */
  function Result(st: PState): Pc {
    Done(st.exitCode == 0 || st.exitedAt == GO_ZERO_TIME)
  }

  function Say(s: Sys, m: Msg): Sys {
    s.(inbox := s.inbox + [m], told := s.told + [m])
  }

  function HelperStep(s: Sys, ok: bool, pid: uint32, now: int, code: uint32): Sys {
    match s.pc
    case RunRunc =>
      if ok then s.(pc := ReadPid)
      else s.(pc := FailWrite, runcFailed := true, st := PState(now, code, pid, ExitedInit))
    case FailWrite => s.(pc := FailNotify(ok), file := if ok then Some(s.st) else s.file, trouble := !ok)
    case FailNotify(wrote) =>
      Say(s, FailedNote(s.st.exitCode)).(pc := if wrote then Result(s.st) else Done(false))
    case ReadPid => if ok then s.(pc := Check1, target := pid) else s.(pc := Done(false), trouble := true)
    case Check1 => if ok then Check(s, now).(pc := Write1) else s.(pc := Done(false), trouble := true)
    case Write1 => if ok then s.(pc := Notify1, file := Some(s.st)) else s.(pc := Done(false), trouble := true)
    case Notify1 =>
      if s.st.status == StRunning then Say(s, ReadyMainPid).(pc := SendBarrier)
      else Say(s, ExitedNote(s.st.exitCode)).(pc := Result(s.st))
    case SendBarrier =>
      if ok then Say(s, Barrier).(pc := AwaitBarrier) else s.(pc := Check2, unsynced := true)
    case AwaitBarrier => if s.barrier then s.(pc := Check2) else if ok then s else s.(pc := Check2, unsynced := true)
    case Check2 =>
      if !ok then s.(pc := Done(true), trouble := true)
      else
        var c := Check(s, now);
        if c.st.status == StRunning then c.(pc := Done(true), seenAlive := s.workload.Alive?) else c.(pc := Write2)
    case Write2 => if ok then s.(pc := Notify2, file := Some(s.st)) else s.(pc := Done(false), trouble := true)
    case Notify2 => Say(s, ExitedNote(s.st.exitCode)).(pc := Result(s.st))
    case Done(_) => s
  }

  function Next(s: Sys, l: Label): Sys {
    match l
    case Helper(ok, pid, now, code) => if now > 0 then HelperStep(s, ok, pid, now, code) else s
    case Dies(ws) => if s.workload.Alive? && RealStatus(ws) then s.(workload := Zombie(ws)) else s
    case Systemd =>
      if s.inbox == [] then s
      else
        var n := s.(inbox := s.inbox[1..]);
        if s.inbox[0].ReadyMainPid? then n.(owned := s.owned || s.workload.Alive?)
        else if s.inbox[0].Barrier? then n.(barrier := true)
        else n
    case Collect =>
      if s.pc.Done? && s.workload.Zombie? then
        s.(workload := Reaped(s.workload.ws), reported := if s.owned then Some(s.workload.ws) else None)
      else s
  }

  function Run(ls: seq<Label>): Sys {
    if ls == [] then START else Next(Run(ls[..|ls|-1]), ls[|ls|-1])
  }

  // ---------------------------------------------------------------- the invariant

  /** The helper's local state is the terminal state of the workload it reaped. */
  predicate Knows(s: Sys) {
    && s.reaps == 1 && s.workload.Reaped?
    && s.st.status == StExited && s.st.exitedAt > 0 && s.st.exitCode == StatusCode(s.workload.ws)
    && s.st.pid == s.target && !s.runcFailed
  }

  /** The workload runs as far as the helper knows. */
  predicate Runs(s: Sys) {
    s.st == PState(GO_ZERO_TIME, 0, s.target, StRunning) && s.reaps == 0 && !s.runcFailed
  }

  predicate LastTold(s: Sys, m: Msg) {
    s.told != [] && s.told[|s.told|-1] == m
  }

  /** The hand-off message is on its way, or systemd has taken the pid, or the workload died first. */
  ghost predicate Offered(s: Sys) {
    Runs(s) && ReadyMainPid in s.told && (s.owned || ReadyMainPid in s.inbox || !s.workload.Alive?)
  }

  /** Notifications arrive in order, so the barrier does not overtake the hand-off. */
  ghost predicate InOrder(s: Sys) {
    && (s.barrier ==> ReadyMainPid !in s.inbox)
    && (forall i, j :: 0 <= i < j < |s.inbox| && s.inbox[j] == ReadyMainPid ==> s.inbox[i] != Barrier)
    && (s.pc.SendBarrier? ==> !s.barrier && Barrier !in s.inbox)
  }

  ghost predicate Inv(s: Sys) {
    && s.reaps <= 1 && InOrder(s)
    && (s.workload.Zombie? ==> RealStatus(s.workload.ws))
    && (s.reported.Some? ==> s.reaps == 0 && s.workload.Reaped?)
    && (s.reaps == 1 ==> s.workload.Reaped?)
    && (s.workload.Reaped? && s.reaps == 0 ==>
          s.pc.Done? && s.reported == if s.owned then Some(s.workload.ws) else None)
    && PcInv(s)
  }

  /** What is known of a runc that failed. */
  predicate Failed(s: Sys) {
    s.runcFailed && s.reaps == 0 && s.st.status == ExitedInit && s.st.exitedAt > 0
  }

  /** Nothing has been said to systemd yet. */
  predicate Unoffered(s: Sys) {
    s.inbox == [] && s.told == [] && !s.barrier && !s.owned && !s.trouble && !s.unsynced
  }

  ghost predicate PcInv(s: Sys) {
    match s.pc
    case RunRunc | ReadPid | Check1 => s.reaps == 0 && Unoffered(s) && !s.runcFailed
    case FailWrite => Failed(s) && s.told == [] && !s.trouble
    case FailNotify(wrote) => Failed(s) && s.told == [] && (wrote <==> !s.trouble) && (wrote ==> s.file == Some(s.st))
    case Write1 =>
      Unoffered(s) && (Knows(s) || Runs(s))
    case Notify1 =>
      Unoffered(s) && s.file == Some(s.st) && (Knows(s) || Runs(s))
    case SendBarrier => Offered(s) && !s.trouble && s.file == Some(s.st) && !s.unsynced
    case AwaitBarrier => Offered(s) && !s.trouble && s.file == Some(s.st) && !s.unsynced
    case Check2 => Offered(s) && !s.trouble && s.file == Some(s.st) && (s.unsynced || s.barrier)
    case Write2 => Knows(s) && !s.trouble
    case Notify2 => Knows(s) && !s.trouble && s.file == Some(s.st)
    case Done(ok) =>
      s.trouble
      || (Failed(s) && s.file == Some(s.st) && (ok <==> s.st.exitCode == 0) && s.told == [FailedNote(s.st.exitCode)])
      || (Knows(s) && s.file == Some(s.st) && (ok <==> s.st.exitCode == 0) && LastTold(s, ExitedNote(s.st.exitCode)))
      || (ok && Runs(s) && s.seenAlive && s.file == Some(s.st) && ReadyMainPid in s.told
          && (s.owned || (s.unsynced && (ReadyMainPid in s.inbox || !s.workload.Alive?))))
  }

  lemma InboxGrows(s: Sys, m: Msg)
    requires InOrder(s) && (m == ReadyMainPid ==> s.inbox == [] && !s.barrier)
    ensures var t := s.inbox + [m];
            && (forall i, j :: 0 <= i < j < |t| && t[j] == ReadyMainPid ==> t[i] != Barrier)
            && (ReadyMainPid in t <==> ReadyMainPid in s.inbox || m == ReadyMainPid)
  {
  }

  lemma EarlyKeepsInv(s: Sys, ok: bool, pid: uint32, now: int, code: uint32)
    requires Inv(s) && now > 0 && (s.pc.RunRunc? || s.pc.FailWrite? || s.pc.FailNotify? || s.pc.ReadPid? || s.pc.Done?)
    ensures Inv(HelperStep(s, ok, pid, now, code))
  {
    if s.pc.FailNotify? { InboxGrows(s, FailedNote(s.st.exitCode)); }
  }

  lemma FirstCheckKeepsInv(s: Sys, ok: bool, pid: uint32, now: int, code: uint32)
    requires Inv(s) && now > 0 && (s.pc.Check1? || s.pc.Write1?)
    ensures Inv(HelperStep(s, ok, pid, now, code))
  {
  }

  lemma OfferKeepsInv(s: Sys, ok: bool, pid: uint32, now: int, code: uint32)
    requires Inv(s) && now > 0 && (s.pc.Notify1? || s.pc.SendBarrier? || s.pc.AwaitBarrier?)
    ensures Inv(HelperStep(s, ok, pid, now, code))
  {
    hide RealStatus;
    if s.pc.Notify1? {
      InboxGrows(s, ReadyMainPid);
      InboxGrows(s, ExitedNote(s.st.exitCode));
    } else {
      InboxGrows(s, Barrier);
    }
  }

  lemma SecondCheckKeepsInv(s: Sys, ok: bool, pid: uint32, now: int, code: uint32)
    requires Inv(s) && now > 0 && s.pc.Check2?
    ensures Inv(HelperStep(s, ok, pid, now, code))
  {
  }

  lemma ReportKeepsInv(s: Sys, ok: bool, pid: uint32, now: int, code: uint32)
    requires Inv(s) && now > 0 && (s.pc.Write2? || s.pc.Notify2?)
    ensures Inv(HelperStep(s, ok, pid, now, code))
  {
    hide RealStatus;
    if s.pc.Notify2? { InboxGrows(s, ExitedNote(s.st.exitCode)); }
  }

  lemma PopKeepsOrder(inbox: seq<Msg>)
    requires inbox != []
    requires forall i, j :: 0 <= i < j < |inbox| && inbox[j] == ReadyMainPid ==> inbox[i] != Barrier
    ensures var rest := inbox[1..];
            && (forall i, j :: 0 <= i < j < |rest| && rest[j] == ReadyMainPid ==> rest[i] != Barrier)
            && (ReadyMainPid in inbox <==> inbox[0] == ReadyMainPid || ReadyMainPid in rest)
            && (inbox[0] == Barrier ==> ReadyMainPid !in rest)
            && (Barrier in rest ==> Barrier in inbox)
  {
    var rest := inbox[1..];
    assert inbox == [inbox[0]] + rest;
    forall j | 0 <= j < |rest| && inbox[0] == Barrier ensures rest[j] != ReadyMainPid {
      assert inbox[j+1] == rest[j];
    }
  }

  /** systemd catching up takes nothing back. */
  lemma CatchingUpKeeps(s: Sys, n: Sys)
    requires PcInv(s) && s.inbox != []
    requires n == s.(inbox := n.inbox, owned := n.owned, barrier := n.barrier)
    requires (s.owned ==> n.owned) && (s.barrier ==> n.barrier)
    requires ReadyMainPid in s.inbox ==> ReadyMainPid in n.inbox || n.owned || !n.workload.Alive?
    ensures PcInv(n)
  {
  }

  lemma SystemdPops(s: Sys)
    requires s.inbox != []
    ensures var n := Next(s, Systemd);
            && n == s.(inbox := s.inbox[1..], owned := n.owned, barrier := n.barrier)
            && n.owned == (s.owned || (s.inbox[0] == ReadyMainPid && s.workload.Alive?))
            && n.barrier == (s.barrier || s.inbox[0] == Barrier)
  {
  }

  lemma SystemdKeepsOrder(s: Sys)
    requires InOrder(s) && s.inbox != []
    ensures InOrder(Next(s, Systemd))
    ensures ReadyMainPid in s.inbox ==> ReadyMainPid in s.inbox[1..] || s.inbox[0] == ReadyMainPid
  {
    SystemdPops(s);
    hide Next;
    PopKeepsOrder(s.inbox);
    assert s.inbox[0] == Barrier ==> Barrier in s.inbox;
  }

  lemma SystemdKeepsInv(s: Sys)
    requires Inv(s) && s.inbox != []
    ensures Inv(Next(s, Systemd))
  {
    SystemdPops(s);
    SystemdKeepsOrder(s);
    hide Next, PcInv, InOrder, RealStatus;
    CatchingUpKeeps(s, Next(s, Systemd));
  }

  lemma StepKeepsInv(s: Sys, l: Label)
    requires Inv(s)
    ensures Inv(Next(s, l))
  {
    match l
    case Helper(ok, pid, now, code) =>
      hide Inv, HelperStep;
      if now > 0 {
        match s.pc
        case RunRunc | FailWrite | FailNotify(_) | ReadPid | Done(_) => EarlyKeepsInv(s, ok, pid, now, code);
        case Check1 | Write1 => FirstCheckKeepsInv(s, ok, pid, now, code);
        case Notify1 | SendBarrier | AwaitBarrier => OfferKeepsInv(s, ok, pid, now, code);
        case Check2 => SecondCheckKeepsInv(s, ok, pid, now, code);
        case Write2 | Notify2 => ReportKeepsInv(s, ok, pid, now, code);
      }
    case Systemd => if s.inbox != [] { SystemdKeepsInv(s); }
    case Dies(_) =>
    case Collect =>
  }

  lemma {:induction false} RunInv(ls: seq<Label>)
    ensures Inv(Run(ls))
  {
    if ls != [] {
      RunInv(ls[..|ls|-1]);
      StepKeepsInv(Run(ls[..|ls|-1]), ls[|ls|-1]);
    }
  }

  // ---------------------------------------------------------------- the theorems

  /** The file holds the terminal state of a workload that died with ws. */
  predicate Persisted(s: Sys, ws: WaitStatus) {
    s.file.Some? && s.file.value.status == StExited && s.file.value.exitCode == StatusCode(ws)
      && s.file.value.exitedAt > 0 && s.file.value.pid == s.target
  }

  /** Whatever the moment the workload dies: when the helper is done, having had no failed runc, pid
      file, write or wait4, either it consumed the exit status, once, persisted it and told systemd,
      failing itself iff the code is nonzero; or it consumed nothing, left the workload on file as running
      and told systemd the pid, which it took while it was alive, unless the barrier failed; and even
      then the workload was still alive when the helper looked for the last time. */
  lemma HandedOff(ls: seq<Label>)
    requires Run(ls).pc.Done? && !Run(ls).trouble && !Run(ls).runcFailed
    ensures var s := Run(ls);
            || (s.reaps == 1 && s.workload.Reaped? && Persisted(s, s.workload.ws)
                && (s.pc.ok <==> StatusCode(s.workload.ws) == 0) && LastTold(s, ExitedNote(StatusCode(s.workload.ws))))
            || (s.reaps == 0 && s.pc.ok && (s.owned || s.unsynced) && s.seenAlive && ReadyMainPid in s.told
                && s.file == Some(PState(GO_ZERO_TIME, 0, s.target, StRunning)))
  {
    RunInv(ls);
    hide Run, InOrder;
  }

  /** A runc that fails is told to systemd and put on file as an exit of the init helper, with runc's code,
      and fails the helper if the code is nonzero. */
  lemma RuncFailure(ls: seq<Label>)
    requires Run(ls).pc.Done? && Run(ls).runcFailed && !Run(ls).trouble
    ensures var s := Run(ls);
            && s.file.Some? && s.file.value.status == ExitedInit && s.file.value.exitedAt > 0
            && (s.pc.ok <==> s.file.value.exitCode == 0)
            && s.told == [FailedNote(s.file.value.exitCode)] && s.reaps == 0
  {
    RunInv(ls);
    hide Run, InOrder;
  }

  /** With the code and the pid of that very runc. */
  lemma RuncFailureCode(s: Sys, pid: uint32, now: int, code: uint32)
    requires s.pc.RunRunc? && now > 0
    ensures var n := Next(s, Helper(false, pid, now, code));
            && n.pc.FailWrite? && n.runcFailed && n.st == PState(now, code, pid, ExitedInit)
            && forall p, t, c :: t > 0 ==> Next(n, Helper(true, p, t, c)).file == Some(n.st)
  {
  }

  /** The helper consumes the status at most once, whatever fails. */
  lemma ReapedOnce(ls: seq<Label>)
    ensures Run(ls).reaps <= 1
  {
    RunInv(ls);
    hide Run, InOrder;
  }

  /** End to end: once the workload is dead and collected, its status is known from exactly one of the
      two places, unless the helper did not get it and systemd had not taken the pid in time, which
      takes a failed barrier. */
  lemma StatusDelivered(ls: seq<Label>)
    requires var s := Run(ls); s.pc.Done? && !s.trouble && !s.runcFailed && s.workload.Reaped?
    ensures var s := Run(ls);
            if s.reaps == 1 then Persisted(s, s.workload.ws) && s.reported.None?
            else && s.reported == (if s.owned then Some(s.workload.ws) else None)
                 && (s.owned || s.unsynced)
                 && s.file.Some? && !s.file.value.Exited()
  {
    RunInv(ls);
    hide Run, InOrder;
  }

  const STEP := Helper(true, 7, 1, 0)
  const MISS := Helper(false, 7, 1, 0)

  lemma Extend(ls: seq<Label>, l: Label)
    ensures Run(ls + [l]) == Next(Run(ls), l)
  {
    assert (ls + [l])[..|ls|] == ls;
  }

  const RUNNING := PState(GO_ZERO_TIME, 0, 7, StRunning)
  const OFFERED := START.(st := RUNNING, target := 7, file := Some(RUNNING), inbox := [ReadyMainPid], told := [ReadyMainPid])

  lemma HelperWrote() returns (ls: seq<Label>)
    ensures Run(ls) == OFFERED.(pc := Notify1, inbox := [], told := [])
  {
    ls := [];
    Extend(ls, STEP);
    ls := ls + [STEP];
    Extend(ls, STEP);
    ls := ls + [STEP];
    assert Run(ls) == START.(pc := Check1, target := 7);
    Extend(ls, STEP);
    ls := ls + [STEP];
    assert Run(ls) == START.(pc := Write1, target := 7, st := RUNNING);
    Extend(ls, STEP);
    ls := ls + [STEP];
  }

  lemma HelperDone() returns (ls: seq<Label>)
    ensures Run(ls) == OFFERED.(pc := Done(true), unsynced := true, seenAlive := true)
  {
    ls := HelperWrote();
    Extend(ls, STEP);
    ls := ls + [STEP];
    assert Run(ls) == OFFERED.(pc := SendBarrier);
    Extend(ls, MISS);
    ls := ls + [MISS];
    assert Run(ls) == OFFERED.(pc := Check2, unsynced := true);
    Extend(ls, STEP);
    ls := ls + [STEP];
  }

  /** The barrier is what closes the gap: without it a workload that dies after the second check and
      before systemd gets to the pid is reported by nobody. */
  lemma LostWithoutBarrier() returns (ls: seq<Label>)
    ensures var s := Run(ls);
            && s.pc.Done? && !s.trouble && !s.runcFailed && s.workload == Reaped(ExitedWith(3))
            && s.reported.None? && s.file.Some? && !s.file.value.Exited()
  {
    ls := HelperDone();
    Extend(ls, Dies(ExitedWith(3)));
    ls := ls + [Dies(ExitedWith(3))];
    Extend(ls, Systemd);
    ls := ls + [Systemd];
    Extend(ls, Collect);
    ls := ls + [Collect];
  }
}
