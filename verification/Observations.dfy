/** What the shim is told about a unit (state.go): one observation, and the merge
    that folds a stream of them into the process's stored state. */
module Observations {
  import opened Basics

  /** The unit sub-states the code names; Other is any string it does not name, Unset the empty one. */
  datatype Status =
    | Unset
    | StCreated | StartPre | StRunning | StartPost | Pausing | Paused
    | Stopped | Dead | Failed | StopPost | StExited | ExitedInit | ExitCode
    | Other(name: string)

  datatype TaskStatus = UNKNOWN | CREATED | RUNNING | STOPPED | PAUSED | PAUSING

  function ToStatus(s: Status): TaskStatus {
    match s
    case StCreated | StartPre => CREATED
    case StRunning | StartPost => RUNNING
    case Pausing => PAUSING
    case Paused => PAUSED
    case Stopped | Dead | Failed | StopPost | StExited | ExitedInit | ExitCode => STOPPED
    case Unset | Other(_) => UNKNOWN
  }

  /** exitedAt counts from timeZero, so "after timeZero" is "positive". */
  datatype PState = PState(exitedAt: int, exitCode: uint32, pid: uint32, status: Status) {

    predicate Exited() {
      exitCode > 0 || ToStatus(status) == STOPPED || exitedAt > 0
    }

    /** Carries no information: a read of a deleted or never-started unit. */
    predicate Hollow() {
      pid == 0 && !Exited()
    }

    /** CopyTo: merge this observation into dst without losing what dst already knows. */
    function CopyTo(dst: PState): PState {
      if Hollow() then dst
      else
        var merged := dst.(
          exitedAt := if exitedAt > 0 && dst.exitedAt <= 0 then exitedAt else dst.exitedAt,
          exitCode := if exitCode > 0 && dst.exitCode == 0 then exitCode else dst.exitCode,
          pid := if dst.pid == 0 then pid else dst.pid);
        if status != Unset && (!merged.Exited() || Exited()) then merged.(status := status) else merged
    }
  }

  /** What counts as having ended: a code, an exit time, or one of these seven words; and what containerd is
      told for the other words the code knows. */
  lemma EndedIff(p: PState)
    ensures p.Exited() <==>
            p.exitCode > 0 || p.exitedAt > 0
            || p.status in {Stopped, Dead, Failed, StopPost, StExited, ExitedInit, ExitCode}
    ensures ToStatus(p.status) == RUNNING <==> p.status in {StRunning, StartPost}
    ensures ToStatus(p.status) == CREATED <==> p.status in {StCreated, StartPre}
    ensures ToStatus(p.status) == PAUSED <==> p.status == Paused
    ensures ToStatus(p.status) == PAUSING <==> p.status == Pausing
    ensures ToStatus(p.status) == UNKNOWN <==> p.status.Unset? || p.status.Other?
  {
  }

  /** Go's zero time.Time lies before the Unix epoch, in microseconds. */
  const GO_ZERO_TIME := -62135596800000000

  const ZERO := PState(GO_ZERO_TIME, 0, 0, Unset)

  // ---------------------------------------------------------------- merging a stream

  /** The stored state after the observations obs, oldest first. */
  function MergeAll(obs: seq<PState>): PState {
    if obs == [] then ZERO
    else obs[|obs|-1].CopyTo(MergeAll(obs[..|obs|-1]))
  }

  /** Reference reading of the stream, front to back and one field at a time. */
  function FirstCode(obs: seq<PState>): uint32 {
    if obs == [] then 0 else if obs[0].exitCode > 0 then obs[0].exitCode else FirstCode(obs[1..])
  }

  function FirstPid(obs: seq<PState>): uint32 {
    if obs == [] then 0 else if obs[0].pid > 0 then obs[0].pid else FirstPid(obs[1..])
  }

  function FirstTime(obs: seq<PState>): (t: int)
    ensures t > 0 || t == GO_ZERO_TIME
  {
    if obs == [] then GO_ZERO_TIME else if obs[0].exitedAt > 0 then obs[0].exitedAt else FirstTime(obs[1..])
  }

  predicate AnyExited(obs: seq<PState>) {
    exists i :: 0 <= i < |obs| && obs[i].Exited()
  }

  /** Observation i may set the status: it has one, and it is terminal or informative and
      not preceded by a terminal one. */
  predicate SetsStatus(obs: seq<PState>, i: nat)
    requires i < |obs|
  {
    obs[i].status != Unset && (obs[i].Exited() || (obs[i].pid > 0 && !AnyExited(obs[..i])))
  }

  lemma {:induction false} FirstsOfSnoc(obs: seq<PState>, o: PState)
    ensures FirstCode(obs + [o]) == if FirstCode(obs) > 0 then FirstCode(obs) else o.exitCode
    ensures FirstPid(obs + [o]) == if FirstPid(obs) > 0 then FirstPid(obs) else o.pid
    ensures FirstTime(obs + [o]) ==
            if FirstTime(obs) > 0 then FirstTime(obs) else if o.exitedAt > 0 then o.exitedAt else GO_ZERO_TIME
  {
    if obs != [] {
      assert (obs + [o])[1..] == obs[1..] + [o];
      FirstsOfSnoc(obs[1..], o);
    }
  }

  lemma AnyExitedOfSnoc(obs: seq<PState>, o: PState)
    ensures AnyExited(obs + [o]) <==> AnyExited(obs) || o.Exited()
  {
    var all := obs + [o];
    if AnyExited(obs) {
      var i :| 0 <= i < |obs| && obs[i].Exited();
      assert all[i].Exited();
    }
    if o.Exited() {
      assert all[|obs|].Exited();
    }
  }

  /** Merging any stream keeps the first nonzero code, the first positive time and the first
      nonzero pid, and is terminal exactly when some observation was. */
  lemma {:induction false} MergeKeepsFirsts(obs: seq<PState>)
    ensures MergeAll(obs).exitCode == FirstCode(obs)
    ensures MergeAll(obs).pid == FirstPid(obs)
    ensures MergeAll(obs).exitedAt == FirstTime(obs)
    ensures MergeAll(obs).Exited() <==> AnyExited(obs)
  {
    if obs != [] {
      var init, last := obs[..|obs|-1], obs[|obs|-1];
      assert obs == init + [last];
      MergeKeepsFirsts(init);
      FirstsOfSnoc(init, last);
      AnyExitedOfSnoc(init, last);
    }
  }

  lemma SetsStatusInPrefix(obs: seq<PState>, n: nat, i: nat)
    requires i < n <= |obs|
    ensures SetsStatus(obs[..n], i) == SetsStatus(obs, i)
  {
    assert obs[..n][..i] == obs[..i];
  }

  /** The stored status is the one of the last observation entitled to set it... */
  lemma {:induction false} MergeStatus(obs: seq<PState>, i: nat)
    requires i < |obs| && SetsStatus(obs, i)
    requires forall j: nat :: i < j < |obs| ==> !SetsStatus(obs, j)
    ensures MergeAll(obs).status == obs[i].status
  {
    var k := |obs| - 1;
    var init := obs[..k];
    MergeKeepsFirsts(init);
    if i < k {
      forall j: nat | i <= j < k ensures SetsStatus(init, j) == SetsStatus(obs, j) {
        SetsStatusInPrefix(obs, k, j);
      }
      MergeStatus(init, i);
      assert !SetsStatus(obs, k);
    }
  }

  /** ...and nothing is stored when none is. */
  lemma {:induction false} MergeNoStatus(obs: seq<PState>)
    requires forall j: nat :: j < |obs| ==> !SetsStatus(obs, j)
    ensures MergeAll(obs).status == Unset
  {
    if obs != [] {
      var k := |obs| - 1;
      var init := obs[..k];
      MergeKeepsFirsts(init);
      forall j: nat | j < k ensures !SetsStatus(init, j) {
        SetsStatusInPrefix(obs, k, j);
      }
      MergeNoStatus(init);
      assert !SetsStatus(obs, k);
    }
  }

  // ---------------------------------------------------------------- decoding systemd's exit

  const CLD_KILLED := 2
  const CLD_DUMPED := 3
  const EXIT_SIGNAL_OFFSET := 128

  /** exitStatusFor: systemd reports a signal as its bare number, containerd as 128 + signal. */
  function ExitStatusFor(mainCode: int32, mainStatus: int32): uint32 {
    if mainStatus <= 0 then 0
    else if mainCode == CLD_KILLED || mainCode == CLD_DUMPED then mainStatus + EXIT_SIGNAL_OFFSET
    else mainStatus
  }

  /** serviceExitState: the properties of one Service signal, absent or of the wrong type as None. */
  datatype ServiceProps = ServiceProps(
    mainPid: Option<uint32>, mainStatus: Option<int32>, mainCode: Option<int32>, exitTimestamp: Option<uint64>)

  /** Go's int64(x) of an unsigned 64-bit x. */
  function ToInt64(x: uint64): int {
    if x < 0x8000_0000_0000_0000 then x else x - 0x1_0000_0000_0000_0000
  }

  /** A recorded observation is always terminal, whatever the code and however odd the timestamp. */
  function ServiceExitState(c: ServiceProps): (r: Option<PState>)
    ensures r.Some? ==> r.value.Exited() && r.value.pid > 0
  {
    if c.mainPid.None? || c.mainPid.value == 0 then None
    else if c.mainStatus.None? || c.mainStatus.value < 0 then None
    else if c.mainCode.None? then None
    else if c.exitTimestamp.None? || c.exitTimestamp.value == 0 then None
    else Some(PState(ToInt64(c.exitTimestamp.value), ExitStatusFor(c.mainCode.value, c.mainStatus.value), c.mainPid.value, StExited))
  }

  const CLD_EXITED := 1

  /** A signal whose four properties are all there and make sense is an exit of that process at that time:
      with its exit code, or with 128 more than the signal that ended it. Any other is none. */
  lemma ServiceExits(pid: uint32, status: int32, code: int32, timestamp: uint64)
    ensures var r := ServiceExitState(ServiceProps(Some(pid), Some(status), Some(code), Some(timestamp)));
            && (r.Some? <==> pid > 0 && status >= 0 && timestamp > 0)
            && (r.Some? ==> r.value.pid == pid && r.value.status == StExited)
            && (r.Some? ==> r.value.exitedAt == if timestamp < 0x8000_0000_0000_0000 then timestamp
                                               else timestamp - 0x1_0000_0000_0000_0000)
            && (r.Some? && code == CLD_EXITED ==> r.value.exitCode == status)
            && (r.Some? && status > 0 && (code == CLD_KILLED || code == CLD_DUMPED) ==> r.value.exitCode == 128 + status)
  {
  }

  lemma IncompleteIsNoExit(c: ServiceProps)
    ensures c.mainPid.None? || c.mainStatus.None? || c.mainCode.None? || c.exitTimestamp.None? ==> ServiceExitState(c).None?
  {
  }
}
