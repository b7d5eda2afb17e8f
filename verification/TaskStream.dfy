/** One task, a container's init process or an exec, as a concurrent system: any number of Create, Start, observer and Delete
    goroutines act on one process and one outbox, each lock-protected step atomic, in any order
    and with any send outcomes. What containerd sees stays sensible. */
module TaskStream {
  import opened Basics
  import opened Phases
  import opened Observations
  import opened Processes
  import opened Outbox

  type Thread = nat

  /** Where a goroutine stands between two of its atomic steps; an absent thread is idle. */
  datatype Pc =
    | Claiming                 // admitted by beginStart, attempt in flight
    | Announcing(pid: uint32)  // finishStart advanced the phase, running state not yet recorded
    | Reading                  // finishDelete advanced the phase, final state not yet read
    | Sending(evt: Event)      // about to hand evt to the outbox

  datatype Kind = CreateKind | StartKind | ExitKind | DeleteKind | NoKind

  function KindOf(e: Event): Kind {
    match e
    case TaskCreate(_) | TaskExecAdded => CreateKind
    case TaskStart(_) | TaskExecStarted(_) => StartKind
    case TaskExit(_, _, _) => ExitKind
    case TaskDelete(_, _, _) => DeleteKind
    case _ => NoKind
  }

  /** The kind of event a thread is on its way to sending. */
  function Carries(pc: Pc): Kind {
    match pc
    case Claiming | Announcing(_) => StartKind
    case Reading => DeleteKind
    case Sending(e) => KindOf(e)
  }

  datatype Role = Init | Exec

  datatype Sys = Sys(role: Role, proc: Proc, box: Box, threads: map<Thread, Pc>, created: bool)

  function Initial(role: Role): Sys {
    Sys(role, NEW, EMPTY, map[], false)
  }

  datatype Label =
    | CreateDone(t: Thread, pid: uint32)    // Service.Create succeeded: record and announce, once per process
    | BeginStart(t: Thread)
    | AbortStart(t: Thread)
    | FinishStart(t: Thread, pid: uint32)
    | RecordRunning(t: Thread)
    | Observe(t: Thread, obs: PState)       // any SetState, by the reactor, Start, Create, Wait or Delete
    | Quiet(op: Op)                         // recording an exit, clearing it, setting the deleting flag
    | FinishDelete(t: Thread)
    | ReadState(t: Thread)
    | Deliver(t: Thread)                    // outbox.Send

  predicate At(s: Sys, t: Thread, pc: Pc) {
    t in s.threads && s.threads[t] == pc
  }

  /** SetState by thread t: merge, and set out to report the exit if this update is the one that ended the process. */
  function DoObserve(s: Sys, t: Thread, obs: PState): Sys {
    if t in s.threads then s
    else
      var (q, u) := ApplyState(s.proc, obs);
      var n := s.(proc := q);
      // An init helper's own exit is no task exit: the task never started.
      if u.JustExited() && (s.role.Exec? || u.state.status != ExitedInit)
      then n.(threads := s.threads[t := Sending(TaskExit(u.state.exitCode, u.state.pid, u.state.exitedAt))])
      else n
  }

  /** A label whose goroutine is not at that point does nothing. */
  function Next(s: Sys, l: Label, fate: Fate): Sys {
    match l
    case CreateDone(t, pid) =>
      if s.created || t in s.threads then s
      else if s.role.Exec? then s.(created := true, threads := s.threads[t := Sending(TaskExecAdded)])
      else s.(proc := ApplyState(s.proc, PState(GO_ZERO_TIME, 0, pid, StCreated)).0,
              created := true, threads := s.threads[t := Sending(TaskCreate(pid))])
    case BeginStart(t) =>
      if t in s.threads || !s.proc.phase.CanBecome(Starting) then s
      else s.(proc := Step(s.proc, Op.BeginStart), threads := s.threads[t := Claiming])
    case AbortStart(t) =>
      if !At(s, t, Claiming) then s
      else s.(proc := Step(s.proc, Op.AbortStart), threads := s.threads - {t})
    case FinishStart(t, pid) =>
      if !At(s, t, Claiming) then s
      else s.(proc := Step(s.proc, Op.FinishStart), threads := s.threads[t := Announcing(pid)])
    case RecordRunning(t) =>
      if t !in s.threads || !s.threads[t].Announcing? then s
      else
        var pid := s.threads[t].pid;
        s.(proc := ApplyState(s.proc, PState(GO_ZERO_TIME, 0, pid, StRunning)).0,
           threads := s.threads[t := Sending(if s.role.Exec? then TaskExecStarted(pid) else TaskStart(pid))])
    case Observe(t, obs) => DoObserve(s, t, obs)
    case Quiet(op) =>
      if op.Record? || op.ClearRecord? || op.MarkDeleting? then s.(proc := Step(s.proc, op)) else s
    case FinishDelete(t) =>
      if t in s.threads || s.proc.phase == Deleted then s
      else if s.role.Exec? then s.(proc := Step(s.proc, Op.FinishDelete))  // an exec publishes no delete
      else s.(proc := Step(s.proc, Op.FinishDelete), threads := s.threads[t := Reading])
    case ReadState(t) =>
      if !At(s, t, Reading) then s
      else
        var st := s.proc.state.CopyTo(ZERO);
        s.(threads := s.threads[t := Sending(TaskDelete(st.exitCode, st.pid, st.exitedAt))])
    case Deliver(t) =>
      if t !in s.threads || !s.threads[t].Sending? then s
      else s.(box := Sent(s.box, s.threads[t].evt, fate), threads := s.threads - {t})
  }

  function Run(role: Role, ls: seq<Label>, fate: Fate): Sys {
    if ls == [] then Initial(role) else Next(Run(role, ls[..|ls|-1], fate), ls[|ls|-1], fate)
  }

  // ---------------------------------------------------------------- the invariant

  /** Every event ever handed to the outbox. */
  function Handed(s: Sys): multiset<Event> {
    multiset(s.box.published) + multiset(s.box.held)
  }

  /** The process can still set out to send its event of kind k. */
  predicate Fresh(s: Sys, k: Kind) {
    match k
    case CreateKind => !s.created
    case StartKind => s.proc.phase == Created
    case ExitKind => !s.proc.phase.Terminal()
    case DeleteKind => s.proc.phase != Deleted
    case NoKind => true
  }

  predicate Carrier(s: Sys, t: Thread, k: Kind) {
    t in s.threads && Carries(s.threads[t]) == k
  }

  ghost predicate NoneHanded(s: Sys, k: Kind) {
    forall e :: e in Handed(s) ==> KindOf(e) != k
  }

  /** One event per kind: it is not yet anybody's, or one thread carries it, or it was handed over once. */
  ghost predicate OneOfAKind(s: Sys, k: Kind) {
    && (Fresh(s, k) ==> NoneHanded(s, k) && forall t :: !Carrier(s, t, k))
    && (forall t, u :: Carrier(s, t, k) && Carrier(s, u, k) ==> t == u)
    && (forall t :: Carrier(s, t, k) ==> NoneHanded(s, k))
    && (forall e, f :: e in Handed(s) && f in Handed(s) && KindOf(e) == KindOf(f) == k ==> e == f && Handed(s)[e] == 1)
  }

  ghost predicate OneEach(s: Sys) {
    forall k :: OneOfAKind(s, k)
  }

  /** A start claim is held exactly while the phase says so, and never once the process runs. */
  ghost predicate ClaimHeld(s: Sys) {
    && (s.proc.phase == Starting ==> exists t :: At(s, t, Claiming))
    && (s.proc.phase == Running ==> forall t :: !At(s, t, Claiming))
  }

  /** e has been formed: handed over, or a thread is about to. */
  ghost predicate Formed(s: Sys, e: Event) {
    e in Handed(s) || exists t :: At(s, t, Sending(e))
  }

  /** A nonzero code reported by the task exit is the stored code, and the deleted task's code. */
  ghost predicate CodesAgree(s: Sys) {
    && (forall e :: Formed(s, e) && e.TaskExit? && e.code > 0 ==> s.proc.state.exitCode == e.code)
    && (forall e, d :: Formed(s, e) && Formed(s, d) && e.TaskExit? && e.code > 0 && d.TaskDelete? ==> d.code == e.code)
  }

  ghost predicate Inv(s: Sys) {
    && Consistent(s.proc) && Ordered(s.box)
    && OneEach(s) && ClaimHeld(s) && CodesAgree(s)
  }

  lemma InitialInv(role: Role)
    ensures Inv(Initial(role))
  {
    assert multiset(Initial(role).box.published) == multiset{};
  }

  /** A running observation, or a created one, never ends a process. */
  lemma HarmlessObservation(p: Proc, pid: uint32, st: Status)
    requires Consistent(p) && (st == StRunning || st == StCreated)
    ensures var (q, u) := ApplyState(p, PState(GO_ZERO_TIME, 0, pid, st));
            && q.phase == p.phase && !u.JustExited() && Consistent(q)
            && q.state.exitCode == p.state.exitCode
  {
  }

  /** Everything but Deliver leaves what was handed over alone. */
  lemma HandedGrows(s: Sys, l: Label, fate: Fate)
    requires Ordered(s.box)
    ensures Ordered(Next(s, l, fate).box)
    ensures var n := Next(s, l, fate);
            Handed(n) == if l.Deliver? && l.t in s.threads && s.threads[l.t].Sending?
                         then Handed(s) + multiset{s.threads[l.t].evt} else Handed(s)
  {
    hide ApplyState, Sent, Ordered;
    if l.Deliver? && l.t in s.threads && s.threads[l.t].Sending? {
      SendKeeps(s.box, s.threads[l.t].evt, fate);
    }
  }

  /** What a step does to the process is one of its operations, if anything. */
  lemma ProcStep(s: Sys, l: Label, fate: Fate) returns (op: Op)
    ensures Next(s, l, fate).proc == s.proc || Next(s, l, fate).proc == Step(s.proc, op)
  {
    hide ApplyState, Sent, Advance;
    op := match l
      case CreateDone(_, pid) => Op.Observe(PState(GO_ZERO_TIME, 0, pid, StCreated))
      case BeginStart(_) => Op.BeginStart
      case AbortStart(_) => Op.AbortStart
      case FinishStart(_, _) => Op.FinishStart
      case RecordRunning(t) =>
        Op.Observe(PState(GO_ZERO_TIME, 0, if t in s.threads && s.threads[t].Announcing? then s.threads[t].pid else 0, StRunning))
      case Observe(_, obs) => Op.Observe(obs)
      case Quiet(q) => q
      case _ => Op.FinishDelete;
  }

  lemma StepKeepsProc(s: Sys, l: Label, fate: Fate)
    requires Consistent(s.proc)
    ensures Consistent(Next(s, l, fate).proc)
    ensures s.proc.state.exitCode > 0 ==> Next(s, l, fate).proc.state.exitCode == s.proc.state.exitCode
  {
    var op := ProcStep(s, l, fate);
    hide Next, Step, Consistent;
    StepKeepsConsistent(s.proc, op);
    StepKeeps(s.proc, op);
  }

  // How a step can treat one kind of event: leave it, set out to send it, or hand it over.

  lemma KindLeft(s: Sys, n: Sys, k: Kind)
    requires OneOfAKind(s, k) && n.box == s.box
    requires forall t :: Carrier(n, t, k) ==> Carrier(s, t, k)
    requires Fresh(n, k) ==> Fresh(s, k) || exists t :: Carrier(s, t, k) && !Carrier(n, t, k)
    ensures OneOfAKind(n, k)
  {
    assert Handed(n) == Handed(s);
  }

  lemma KindTaken(s: Sys, n: Sys, k: Kind, who: Thread)
    requires OneOfAKind(s, k) && n.box == s.box
    requires Fresh(s, k) && !Fresh(n, k)
    requires forall t :: Carrier(n, t, k) && t != who ==> Carrier(s, t, k)
    ensures OneOfAKind(n, k)
  {
    assert Handed(n) == Handed(s);
  }

  lemma KindHanded(s: Sys, n: Sys, k: Kind, who: Thread, e: Event)
    requires OneOfAKind(s, k) && Handed(n) == Handed(s) + multiset{e}
    requires Carrier(s, who, KindOf(e)) && (Fresh(n, k) ==> Fresh(s, k))
    requires forall t :: Carrier(n, t, k) ==> Carrier(s, t, k) && t != who
    ensures OneOfAKind(n, k)
  {
    if KindOf(e) == k {
      assert NoneHanded(s, k) && forall t :: !Carrier(n, t, k);
      assert Handed(n)[e] == Handed(s)[e] + 1;
    } else {
      forall f | f in Handed(n) && KindOf(f) == k ensures f in Handed(s) && Handed(n)[f] == Handed(s)[f] {
      }
    }
  }

  /** A step moves only its own thread. */
  lemma OthersStay(s: Sys, l: Label, fate: Fate)
    ensures var n := Next(s, l, fate);
            && (forall t, k :: Carrier(n, t, k) && (l.Quiet? || t != l.t) ==> Carrier(s, t, k))
            && (forall t, pc :: At(n, t, pc) && (l.Quiet? || t != l.t) ==> At(s, t, pc))
            && (forall t, pc :: At(s, t, pc) && (l.Quiet? || t != l.t) ==> At(n, t, pc))
  {
    hide ApplyState, Sent;
  }

  lemma StartStepKeepsOne(s: Sys, l: Label, fate: Fate, k: Kind)
    requires Consistent(s.proc) && Ordered(s.box) && OneOfAKind(s, k)
    requires l.BeginStart? || l.AbortStart? || l.FinishStart?
    ensures OneOfAKind(Next(s, l, fate), k)
  {
    hide ApplyState, Sent, OneOfAKind;
    var n := Next(s, l, fate);
    OthersStay(s, l, fate);
    if n != s {
      if l.BeginStart? && k == StartKind {
        KindTaken(s, n, k, l.t);
      } else {
        assert !l.BeginStart? ==> Carrier(s, l.t, StartKind);
        assert l.AbortStart? ==> !Carrier(n, l.t, StartKind);
        KindLeft(s, n, k);
      }
    }
  }

  lemma RecordKeepsOne(s: Sys, l: Label, fate: Fate, k: Kind)
    requires Consistent(s.proc) && Ordered(s.box) && OneOfAKind(s, k)
    requires l.RecordRunning? || l.Quiet?
    ensures OneOfAKind(Next(s, l, fate), k)
  {
    hide ApplyState, Sent, OneOfAKind;
    var n := Next(s, l, fate);
    OthersStay(s, l, fate);
    if n != s {
      if l.RecordRunning? {
        HarmlessObservation(s.proc, s.threads[l.t].pid, StRunning);
        assert Carrier(s, l.t, StartKind);
      }
      KindLeft(s, n, k);
    }
  }

  lemma ObserveKeepsOne(s: Sys, t: Thread, obs: PState, k: Kind)
    requires Consistent(s.proc) && OneOfAKind(s, k)
    ensures OneOfAKind(DoObserve(s, t, obs), k)
  {
    hide ApplyState, OneOfAKind;
    var n := DoObserve(s, t, obs);
    ObserveOutcome(s.proc, obs);
    if n.threads == s.threads {
      KindLeft(s, n, k);
    } else if k == ExitKind {
      assert forall x :: Carrier(n, x, k) && x != t ==> Carrier(s, x, k);
      KindTaken(s, n, k, t);
    } else {
      assert forall x :: Carrier(n, x, k) ==> Carrier(s, x, k);
      KindLeft(s, n, k);
    }
  }

  lemma CreateKeepsOne(s: Sys, l: Label, fate: Fate, k: Kind)
    requires Consistent(s.proc) && Ordered(s.box) && OneOfAKind(s, k)
    requires l.CreateDone?
    ensures OneOfAKind(Next(s, l, fate), k)
  {
    hide ApplyState, Sent, OneOfAKind;
    var n := Next(s, l, fate);
    OthersStay(s, l, fate);
    HarmlessObservation(s.proc, l.pid, StCreated);
    if n != s && k == CreateKind {
      KindTaken(s, n, k, l.t);
    } else if n != s {
      assert !Carrier(n, l.t, k);
      KindLeft(s, n, k);
    }
  }

  lemma DeleteStepKeepsOne(s: Sys, l: Label, fate: Fate, k: Kind)
    requires Consistent(s.proc) && Ordered(s.box) && OneOfAKind(s, k)
    requires l.FinishDelete? || l.ReadState?
    ensures OneOfAKind(Next(s, l, fate), k)
  {
    hide ApplyState, Sent, OneOfAKind;
    var n := Next(s, l, fate);
    OthersStay(s, l, fate);
    if n != s {
      if l.FinishDelete? && k == DeleteKind {
        KindTaken(s, n, k, l.t);
      } else {
        assert l.ReadState? ==> Carrier(s, l.t, DeleteKind);
        KindLeft(s, n, k);
      }
    }
  }

  lemma DeliverKeepsOne(s: Sys, l: Label, fate: Fate, k: Kind)
    requires Consistent(s.proc) && Ordered(s.box) && OneOfAKind(s, k)
    requires l.Deliver?
    ensures OneOfAKind(Next(s, l, fate), k)
  {
    hide ApplyState, Sent, OneOfAKind;
    var n := Next(s, l, fate);
    HandedGrows(s, l, fate);
    OthersStay(s, l, fate);
    if n != s {
      assert !Carrier(n, l.t, k);
      KindHanded(s, n, k, l.t, s.threads[l.t].evt);
    }
  }

  lemma StepKeepsClaim(s: Sys, l: Label, fate: Fate)
    requires Consistent(s.proc) && OneOfAKind(s, StartKind) && ClaimHeld(s)
    ensures ClaimHeld(Next(s, l, fate))
  {
    hide Next, OneOfAKind, Consistent, ClaimHeld;
    if l.BeginStart? || l.AbortStart? || l.FinishStart? {
      StartStepKeepsClaim(s, l, fate);
    } else {
      RestKeepsClaim(s, l, fate);
    }
  }

  lemma StartStepKeepsClaim(s: Sys, l: Label, fate: Fate)
    requires OneOfAKind(s, StartKind) && ClaimHeld(s)
    requires l.BeginStart? || l.AbortStart? || l.FinishStart?
    ensures ClaimHeld(Next(s, l, fate))
  {
    hide ApplyState, Sent;
    var n := Next(s, l, fate);
    OthersStay(s, l, fate);
    assert forall u :: At(s, u, Claiming) ==> Carrier(s, u, StartKind);
    if n.proc.phase == Starting && s.proc.phase == Starting {
      var t :| At(s, t, Claiming);
      assert At(n, t, Claiming);
    } else if n.proc.phase == Starting {
      assert At(n, l.t, Claiming);
    }
  }

  /** Whatever is not a start leaves the claims alone, and the phase unless it ends the process. */
  lemma RestKeepsClaim(s: Sys, l: Label, fate: Fate)
    requires Consistent(s.proc) && ClaimHeld(s)
    requires !l.BeginStart? && !l.AbortStart? && !l.FinishStart?
    ensures ClaimHeld(Next(s, l, fate))
  {
    var n := Next(s, l, fate);
    PhaseStays(s, l, fate);
    ClaimsStay(s, l, fate);
    hide Next;
    if n.proc.phase == Starting {
      var t :| At(s, t, Claiming);
      assert At(n, t, Claiming);
    }
  }

  lemma PhaseStays(s: Sys, l: Label, fate: Fate)
    requires Consistent(s.proc) && !l.BeginStart? && !l.AbortStart? && !l.FinishStart?
    ensures var n := Next(s, l, fate); n.proc.phase == s.proc.phase || n.proc.phase.Terminal()
  {
    hide ApplyState, Sent;
    if l.CreateDone? { HarmlessObservation(s.proc, l.pid, StCreated); }
    if l.Observe? { ObserveOutcome(s.proc, l.obs); }
    if l.RecordRunning? && l.t in s.threads && s.threads[l.t].Announcing? {
      HarmlessObservation(s.proc, s.threads[l.t].pid, StRunning);
    }
  }

  lemma ClaimsStay(s: Sys, l: Label, fate: Fate)
    requires !l.BeginStart? && !l.AbortStart? && !l.FinishStart?
    ensures forall t :: At(Next(s, l, fate), t, Claiming) <==> At(s, t, Claiming)
  {
    hide ApplyState, Sent;
  }

  /** Who comes to the point of sending, and by which step. */
  lemma NewSender(s: Sys, l: Label, fate: Fate, t: Thread, e: Event)
    requires At(Next(s, l, fate), t, Sending(e)) && !At(s, t, Sending(e))
    ensures !l.Quiet? && t == l.t && !l.Deliver?
    ensures !e.Introduces() && !e.Starts() ==> l.Observe? || (l.ReadState? && At(s, l.t, Reading))
  {
    hide ApplyState, Sent;
  }

  /** Nothing is handed over that was not formed before. */
  lemma HandedWasFormed(s: Sys, l: Label, fate: Fate, e: Event)
    requires Ordered(s.box) && e in Handed(Next(s, l, fate))
    ensures Formed(s, e)
  {
    HandedGrows(s, l, fate);
    hide Next, Handed, Ordered;
    if l.Deliver? && l.t in s.threads && s.threads[l.t].Sending? && e == s.threads[l.t].evt {
      assert At(s, l.t, Sending(e));
    }
  }

  /** Apart from creates and starts, an event is formed only by the step that ends the process
      or the one that reads its final state. */
  lemma FormedGrows(s: Sys, l: Label, fate: Fate, e: Event)
    requires Consistent(s.proc) && Ordered(s.box) && Formed(Next(s, l, fate), e) && !Formed(s, e)
    ensures !e.Introduces() && !e.Starts() ==>
              !l.Quiet? && At(Next(s, l, fate), l.t, Sending(e)) && !At(s, l.t, Sending(e))
              && (l.Observe? || (l.ReadState? && At(s, l.t, Reading)))
  {
    hide Next, Handed, Ordered, Consistent;
    var n := Next(s, l, fate);
    assert e !in Handed(n) by {
      if e in Handed(n) { HandedWasFormed(s, l, fate, e); }
    }
    var t :| At(n, t, Sending(e));
    assert !At(s, t, Sending(e));
    NewSender(s, l, fate, t, e);
  }

  /** A task exit is formed with the code just stored, when no exit and no delete has been formed yet. */
  lemma NewExit(s: Sys, l: Label, fate: Fate, e: Event)
    requires Inv(s) && Formed(Next(s, l, fate), e) && !Formed(s, e) && e.TaskExit?
    ensures e.code == Next(s, l, fate).proc.state.exitCode
    ensures forall x :: Formed(s, x) ==> !x.TaskDelete? && !x.TaskExit?
  {
    hide ApplyState, Sent, ClaimHeld, CodesAgree, Ordered;
    FormedGrows(s, l, fate, e);
    assert l.Observe?;
    ObserveOutcome(s.proc, l.obs);
    ExitReport(s.proc, l.obs);
    assert OneOfAKind(s, DeleteKind) && OneOfAKind(s, ExitKind);
    forall x | Formed(s, x) ensures !x.TaskDelete? && !x.TaskExit? {
      if x !in Handed(s) {
        var u :| At(s, u, Sending(x));
        assert Carrier(s, u, KindOf(x));
      }
    }
  }

  lemma NewDelete(s: Sys, l: Label, fate: Fate, d: Event)
    requires Inv(s) && Formed(Next(s, l, fate), d) && !Formed(s, d) && d.TaskDelete?
    ensures l.ReadState? && d.code == s.proc.state.exitCode
  {
    FormedGrows(s, l, fate, d);
  }

  lemma StepKeepsCodes(s: Sys, l: Label, fate: Fate)
    requires Inv(s)
    ensures CodesAgree(Next(s, l, fate))
  {
    hide ApplyState, Sent;
    var n := Next(s, l, fate);
    StepKeepsProc(s, l, fate);
    forall e | Formed(n, e) && e.TaskExit? && e.code > 0 ensures n.proc.state.exitCode == e.code {
      if !Formed(s, e) {
        NewExit(s, l, fate, e);
      }
    }
    forall e, d | Formed(n, e) && Formed(n, d) && e.TaskExit? && e.code > 0 && d.TaskDelete? ensures d.code == e.code {
      if !Formed(s, d) {
        NewDelete(s, l, fate, d);
        assert Formed(s, e) by {
          if !Formed(s, e) { FormedGrows(s, l, fate, e); }
        }
      } else if !Formed(s, e) {
        NewExit(s, l, fate, e);
      }
    }
  }

  lemma StepKeepsInv(s: Sys, l: Label, fate: Fate)
    requires Inv(s)
    ensures Inv(Next(s, l, fate))
  {
    HandedGrows(s, l, fate);
    StepKeepsProc(s, l, fate);
    StepKeepsClaim(s, l, fate);
    StepKeepsCodes(s, l, fate);
    forall k ensures OneOfAKind(Next(s, l, fate), k) {
      assert OneOfAKind(s, k);
      match l {
        case CreateDone(_, _) => CreateKeepsOne(s, l, fate, k);
        case BeginStart(_) => StartStepKeepsOne(s, l, fate, k);
        case AbortStart(_) => StartStepKeepsOne(s, l, fate, k);
        case FinishStart(_, _) => StartStepKeepsOne(s, l, fate, k);
        case RecordRunning(_) => RecordKeepsOne(s, l, fate, k);
        case Observe(t, obs) => ObserveKeepsOne(s, t, obs, k);
        case Quiet(_) => RecordKeepsOne(s, l, fate, k);
        case FinishDelete(_) => DeleteStepKeepsOne(s, l, fate, k);
        case ReadState(_) => DeleteStepKeepsOne(s, l, fate, k);
        case Deliver(_) => DeliverKeepsOne(s, l, fate, k);
      }
    }
  }

  lemma {:induction false} RunInv(role: Role, ls: seq<Label>, fate: Fate)
    ensures Inv(Run(role, ls, fate))
  {
    if ls == [] {
      InitialInv(role);
    } else {
      RunInv(role, ls[..|ls|-1], fate);
      StepKeepsInv(Run(role, ls[..|ls|-1], fate), ls[|ls|-1], fate);
    }
  }

  // ---------------------------------------------------------------- the theorems

  lemma TwiceInMultiset(es: seq<Event>, i: nat, j: nat)
    requires i < j < |es| && es[i] == es[j]
    ensures multiset(es)[es[i]] >= 2
  {
    assert es == es[..j] + es[j..];
    assert es[i] in multiset(es[..j]) && es[j] in multiset(es[j..]) by {
      assert es[..j][i] == es[i] && es[j..][0] == es[j];
    }
  }

  lemma PublishedIsFormed(s: Sys, e: Event)
    requires e in s.box.published
    ensures e in Handed(s) && Formed(s, e)
  {
    assert e in multiset(s.box.published);
  }

  lemma KindsDiffer(s: Sys, i: nat, j: nat)
    requires i < j < |s.box.published| && OneOfAKind(s, KindOf(s.box.published[i]))
    ensures KindOf(s.box.published[i]) != KindOf(s.box.published[j])
  {
    var es := s.box.published;
    PublishedIsFormed(s, es[i]);
    PublishedIsFormed(s, es[j]);
    if es[i] == es[j] {
      TwiceInMultiset(es, i, j);
    }
  }

  /** What containerd sees of an init process or an exec, whatever the interleaving of creates, starts,
      observations and deletes and whatever sends fail: at most one event of each kind, an exit
      only after a start, a delete only after a create, nothing after the delete, and a nonzero
      code in the exit is the code in the delete and in every later read of the process. */
  lemma StreamIsSensible(role: Role, ls: seq<Label>, fate: Fate)
    ensures var s := Run(role, ls, fate); var es := s.box.published;
            && SensibleStream(es)
            && (forall i, j :: 0 <= i < j < |es| ==> KindOf(es[i]) != KindOf(es[j]))
            && (forall i, j :: 0 <= i < |es| && 0 <= j < |es| && es[i].TaskExit? && es[i].code > 0 && es[j].TaskDelete?
                  ==> es[j].code == es[i].code)
            && (forall i :: 0 <= i < |es| && es[i].TaskExit? && es[i].code > 0 ==> s.proc.state.exitCode == es[i].code)
  {
    hide Next, ClaimHeld, Consistent, Formed, OneOfAKind, KindOf;
    RunInv(role, ls, fate);
    var s := Run(role, ls, fate);
    var es := s.box.published;
    forall i | 0 <= i < |es| ensures Formed(s, es[i]) {
      PublishedIsFormed(s, es[i]);
    }
    forall i, j | 0 <= i < j < |es| ensures KindOf(es[i]) != KindOf(es[j]) {
      KindsDiffer(s, i, j);
    }
  }

  // ---------------------------------------------------------------- nothing goes unreported

  /** What has to be reported happens here: the task is created, a start finishes, the process ends other
      than by its init helper failing, or an init process is deleted. */
  ghost predicate Happens(s: Sys, l: Label, fate: Fate, k: Kind) {
    match k
    case CreateKind => l.CreateDone? && l.t !in s.threads && !s.created
    case StartKind => l.FinishStart? && At(s, l.t, Claiming)
    case ExitKind =>
      l.Observe? && l.t !in s.threads && !s.proc.phase.Terminal() && l.obs.Exited()
      && (s.role.Exec? || Next(s, l, fate).proc.state.status != ExitedInit)
    case DeleteKind => s.role.Init? && l.FinishDelete? && l.t !in s.threads && s.proc.phase != Deleted
    case NoKind => false
  }

  ghost predicate HandedKind(s: Sys, k: Kind) {
    exists e :: e in Handed(s) && KindOf(e) == k
  }

  ghost predicate Underway(s: Sys, k: Kind) {
    exists t :: Carrier(s, t, k) && s.threads[t] != Claiming
  }

  /** The event of kind k was handed over, or somebody is about to. */
  ghost predicate OnItsWay(s: Sys, k: Kind) {
    HandedKind(s, k) || Underway(s, k)
  }

  /** What is sent. */
  lemma SetsOut(s: Sys, l: Label, fate: Fate)
    requires Consistent(s.proc)
    ensures var n := Next(s, l, fate);
            && (Happens(s, l, fate, CreateKind) ==>
                  At(n, l.t, Sending(if s.role.Exec? then TaskExecAdded else TaskCreate(l.pid))))
            && (Happens(s, l, fate, StartKind) ==> At(n, l.t, Announcing(l.pid)))
            && (l.RecordRunning? && l.t in s.threads && s.threads[l.t].Announcing? ==>
                  var pid := s.threads[l.t].pid;
                  At(n, l.t, Sending(if s.role.Exec? then TaskExecStarted(pid) else TaskStart(pid))))
            && (Happens(s, l, fate, ExitKind) ==>
                  At(n, l.t, Sending(TaskExit(l.obs.exitCode, if l.obs.pid > 0 then l.obs.pid else s.proc.state.pid, l.obs.exitedAt))))
            && (Happens(s, l, fate, DeleteKind) ==> At(n, l.t, Reading) && n.proc.phase == Deleted)
  {
    hide ApplyState, Sent;
    if l.Observe? && !s.proc.phase.Terminal() && l.obs.Exited() {
      EndingUpdate(s.proc, l.obs);
    }
  }

  /** What a create and a start announce is also what is stored: the pid, if none was known, and for a process
      not over that it is created, or runs. */
  lemma WhatIsAnnouncedIsStored(s: Sys, l: Label, fate: Fate)
    requires Consistent(s.proc)
    ensures var p, q := s.proc, Next(s, l, fate).proc;
            && (Happens(s, l, fate, CreateKind) && s.role.Init? && l.pid > 0 ==>
                  q.state.pid == (if p.state.pid > 0 then p.state.pid else l.pid)
                  && (p.phase.Terminal() || q.state.status == StCreated))
            && (l.RecordRunning? && l.t in s.threads && s.threads[l.t].Announcing? && s.threads[l.t].pid > 0 ==>
                  q.state.pid == (if p.state.pid > 0 then p.state.pid else s.threads[l.t].pid)
                  && (p.phase != Running || q.state.status == StRunning))
  {
    hide ApplyState, Sent, Advance;
    if l.CreateDone? && l.pid > 0 { Announces(s.proc, l.pid, StCreated); }
    if l.RecordRunning? && l.t in s.threads && s.threads[l.t].Announcing? && s.threads[l.t].pid > 0 {
      Announces(s.proc, s.threads[l.t].pid, StRunning);
    }
  }

  lemma Announces(p: Proc, pid: uint32, st: Status)
    requires Consistent(p) && pid > 0 && (st == StCreated || st == StRunning)
    ensures var q := ApplyState(p, PState(GO_ZERO_TIME, 0, pid, st)).0;
            && q.state.pid == (if p.state.pid > 0 then p.state.pid else pid)
            && (p.phase.Terminal() || st == StCreated ==> p.phase.Terminal() || q.state.status == StCreated)
            && (st == StRunning && p.phase == Running ==> q.state.status == StRunning)
  {
  }

  lemma EndingUpdate(p: Proc, obs: PState)
    requires Consistent(p) && !p.phase.Terminal() && obs.Exited()
    ensures var (q, u) := ApplyState(p, obs);
            && u.JustExited() && u.state.status == q.state.status
            && u.state.exitCode == obs.exitCode && u.state.exitedAt == obs.exitedAt
            && u.state.pid == if obs.pid > 0 then obs.pid else p.state.pid
  {
  }

  /** What a delete reports of a process that is known to have run. */
  lemma DeleteReports(s: Sys, t: Thread, fate: Fate)
    requires At(s, t, Reading)
    ensures var st := s.proc.state;
            At(Next(s, ReadState(t), fate), t,
               Sending(if st.Hollow() then TaskDelete(0, 0, GO_ZERO_TIME)
                       else TaskDelete(st.exitCode, st.pid, if st.exitedAt > 0 then st.exitedAt else GO_ZERO_TIME)))
  {
  }

  lemma CarrierGoesOn(s: Sys, l: Label, fate: Fate, t: Thread, k: Kind)
    requires Carrier(s, t, k) && s.threads[t] != Claiming && k != NoKind
    requires !(l.Deliver? && l.t == t && s.threads[t].Sending?)
    ensures Carrier(Next(s, l, fate), t, k) && Next(s, l, fate).threads[t] != Claiming
  {
    hide ApplyState, Sent;
  }

  /** A thread that carries an event hands it over or goes on carrying it. */
  lemma UnderwayGoesOn(s: Sys, l: Label, fate: Fate, k: Kind)
    requires Underway(s, k) && k != NoKind && Ordered(s.box)
    ensures OnItsWay(Next(s, l, fate), k)
  {
    var n := Next(s, l, fate);
    var t :| Carrier(s, t, k) && s.threads[t] != Claiming;
    HandedGrows(s, l, fate);
    hide Next, Ordered, Handed;
    if l.Deliver? && l.t == t && s.threads[t].Sending? {
      assert s.threads[t].evt in Handed(n);
    } else {
      CarrierGoesOn(s, l, fate, t, k);
    }
  }

  lemma HandedStays(s: Sys, l: Label, fate: Fate, k: Kind)
    requires HandedKind(s, k) && Ordered(s.box)
    ensures HandedKind(Next(s, l, fate), k)
  {
    HandedGrows(s, l, fate);
    hide Next, Ordered, Handed;
    var e :| e in Handed(s) && KindOf(e) == k;
    assert e in Handed(Next(s, l, fate));
  }

  lemma HappeningSetsOut(s: Sys, l: Label, fate: Fate, k: Kind)
    requires Consistent(s.proc) && Happens(s, l, fate, k)
    ensures Underway(Next(s, l, fate), k)
  {
    SetsOut(s, l, fate);
    hide Next, Consistent;
    assert Carrier(Next(s, l, fate), l.t, k);
  }

  /** Nothing is reported that did not happen. */
  lemma NothingInvented(s: Sys, l: Label, fate: Fate, k: Kind)
    requires Consistent(s.proc) && Ordered(s.box) && OnItsWay(Next(s, l, fate), k) && k != NoKind
    ensures OnItsWay(s, k) || Happens(s, l, fate, k)
  {
    var n := Next(s, l, fate);
    if HandedKind(n, k) {
      var e :| e in Handed(n) && KindOf(e) == k;
      HandedWasFormed(s, l, fate, e);
      hide Next, Handed, Ordered, Consistent;
      if e !in Handed(s) {
        var t :| At(s, t, Sending(e));
        assert Carrier(s, t, k);
      }
    } else {
      var t :| Carrier(n, t, k) && n.threads[t] != Claiming;
      if !(Carrier(s, t, k) && s.threads[t] != Claiming) {
        NewCarrier(s, l, fate, t, k);
      }
    }
  }

  lemma NewCarrier(s: Sys, l: Label, fate: Fate, t: Thread, k: Kind)
    requires Consistent(s.proc) && k != NoKind
    requires Carrier(Next(s, l, fate), t, k) && Next(s, l, fate).threads[t] != Claiming
    requires !(Carrier(s, t, k) && s.threads[t] != Claiming)
    ensures Happens(s, l, fate, k)
  {
    hide ApplyState, Sent;
    if l.Observe? {
      ObserveOutcome(s.proc, l.obs);
      if !s.proc.phase.Terminal() && l.obs.Exited() {
        EndingUpdate(s.proc, l.obs);
      } else {
        QuietUpdate(s.proc, l.obs);
      }
    }
  }

  lemma QuietUpdate(p: Proc, obs: PState)
    requires Consistent(p) && (p.phase.Terminal() || !obs.Exited())
    ensures !ApplyState(p, obs).1.JustExited()
  {
  }

  /** It happened at the i-th step of the run. */
  ghost predicate HappenedAt(role: Role, ls: seq<Label>, fate: Fate, k: Kind, i: nat) {
    i < |ls| && Happens(Run(role, ls[..i], fate), ls[i], fate, k)
  }

  ghost predicate Happened(role: Role, ls: seq<Label>, fate: Fate, k: Kind) {
    exists i: nat :: HappenedAt(role, ls, fate, k, i)
  }

  lemma HappenedBefore(role: Role, ls: seq<Label>, n: nat, fate: Fate, k: Kind, i: nat)
    requires i < n <= |ls|
    ensures HappenedAt(role, ls[..n], fate, k, i) == HappenedAt(role, ls, fate, k, i)
  {
    assert ls[..n][..i] == ls[..i];
  }

  lemma HappenedSnoc(role: Role, ls: seq<Label>, fate: Fate, k: Kind)
    requires ls != []
    ensures var j := |ls| - 1;
            Happened(role, ls, fate, k) <==> Happened(role, ls[..j], fate, k) || HappenedAt(role, ls, fate, k, j)
  {
    var j := |ls| - 1;
    if i: nat :| HappenedAt(role, ls, fate, k, i) {
      if i < j { HappenedBefore(role, ls, j, fate, k, i); }
    }
    if i: nat :| HappenedAt(role, ls[..j], fate, k, i) {
      HappenedBefore(role, ls, j, fate, k, i);
      assert HappenedAt(role, ls, fate, k, i);
    }
  }

  /** On every run an event is handed over, or about to be, exactly if what it reports has happened. */
  lemma {:induction false} StreamIsComplete(role: Role, ls: seq<Label>, fate: Fate, k: Kind)
    requires k != NoKind
    ensures OnItsWay(Run(role, ls, fate), k) <==> Happened(role, ls, fate, k)
  {
    hide Next, Happens, OnItsWay, Happened, OneEach, ClaimHeld, CodesAgree;
    if ls == [] {
      NothingYet(role, k);
      assert !Happened(role, [], fate, k) by { NoneHappened(role, fate, k); }
    } else {
      var j := |ls| - 1;
      StreamIsComplete(role, ls[..j], fate, k);
      RunInv(role, ls[..j], fate);
      OnItsWayStep(Run(role, ls[..j], fate), ls[j], fate, k);
      HappenedSnoc(role, ls, fate, k);
    }
  }

  lemma NoneHappened(role: Role, fate: Fate, k: Kind)
    ensures !Happened(role, [], fate, k)
  {
  }

  lemma NothingYet(role: Role, k: Kind)
    ensures !OnItsWay(Initial(role), k)
  {
    assert Handed(Initial(role)) == multiset{};
  }

  lemma OnItsWayStep(s: Sys, l: Label, fate: Fate, k: Kind)
    requires Consistent(s.proc) && Ordered(s.box) && k != NoKind
    ensures OnItsWay(Next(s, l, fate), k) <==> OnItsWay(s, k) || Happens(s, l, fate, k)
  {
    hide Next, Happens, HandedKind, Underway, Consistent, Ordered;
    if HandedKind(s, k) { HandedStays(s, l, fate, k); }
    if Underway(s, k) { UnderwayGoesOn(s, l, fate, k); }
    if Happens(s, l, fate, k) { HappeningSetsOut(s, l, fate, k); }
    if OnItsWay(Next(s, l, fate), k) { NothingInvented(s, l, fate, k); }
  }

  // ---------------------------------------------------------------- whose events

  /** The events a task of this role may publish. */
  predicate Own(role: Role, e: Event) {
    match role
    case Init => e.TaskCreate? || e.TaskStart? || e.TaskExit? || e.TaskDelete?
    case Exec => e.TaskExecAdded? || e.TaskExecStarted? || e.TaskExit?
  }

  /** Where a task of this role can stand. */
  predicate OwnPlace(role: Role, pc: Pc) {
    match pc
    case Sending(e) => Own(role, e)
    case Reading => role.Init?
    case _ => true
  }

  ghost predicate OnlyOwn(s: Sys) {
    && Ordered(s.box)
    && (forall e :: e in Handed(s) ==> Own(s.role, e))
    && (forall t :: t in s.threads ==> OwnPlace(s.role, s.threads[t]))
  }

  lemma NewPlace(s: Sys, l: Label, fate: Fate, t: Thread)
    requires t in Next(s, l, fate).threads
    ensures (t in s.threads && Next(s, l, fate).threads[t] == s.threads[t])
            || (t in s.threads && s.threads[t] == Reading) || OwnPlace(s.role, Next(s, l, fate).threads[t])
    ensures t in s.threads && s.threads[t] == Reading && s.role.Init? ==> OwnPlace(s.role, Next(s, l, fate).threads[t])
  {
    hide ApplyState, Sent;
  }

  lemma StepKeepsOwn(s: Sys, l: Label, fate: Fate)
    requires OnlyOwn(s)
    ensures OnlyOwn(Next(s, l, fate)) && Next(s, l, fate).role == s.role
  {
    RoleStays(s, l, fate);
    hide Next, Ordered, Own;
    HandedGrows(s, l, fate);
    var n := Next(s, l, fate);
    forall t | t in n.threads ensures OwnPlace(s.role, n.threads[t]) {
      NewPlace(s, l, fate, t);
    }
  }

  lemma RoleStays(s: Sys, l: Label, fate: Fate)
    ensures Next(s, l, fate).role == s.role
  {
    hide ApplyState, Sent;
  }

  /** An exec reports being added, started and its exit, and no delete of its own; an init process the
      events of a task. */
  lemma {:induction false} StreamIsOwn(role: Role, ls: seq<Label>, fate: Fate)
    ensures var s := Run(role, ls, fate);
            s.role == role && OnlyOwn(s) && forall e :: e in s.box.published ==> Own(role, e)
  {
    hide Next, Own;
    if ls == [] {
      assert multiset(Initial(role).box.published) == multiset{};
    } else {
      StreamIsOwn(role, ls[..|ls|-1], fate);
      StepKeepsOwn(Run(role, ls[..|ls|-1], fate), ls[|ls|-1], fate);
    }
    var s := Run(role, ls, fate);
    assert forall e :: e in s.box.published ==> e in multiset(s.box.published) && e in Handed(s);
  }

  /** The start claim: at most one attempt holds it, none is admitted once the process has run,
      exited or been deleted, and a failed attempt never leaves the phase at Starting. */
  lemma StartClaim(role: Role, ls: seq<Label>, fate: Fate, t: Thread, u: Thread)
    ensures var s := Run(role, ls, fate);
            && (At(s, t, Claiming) && At(s, u, Claiming) ==> t == u)
            && (s.proc.phase == Starting ==> exists h :: At(s, h, Claiming))
            && (At(Next(s, Label.BeginStart(u), fate), u, Claiming) && !At(s, u, Claiming) ==>
                  s.proc.phase == Created && forall h :: !At(s, h, Claiming))
            && (u !in s.threads ==> (At(Next(s, Label.BeginStart(u), fate), u, Claiming) <==> s.proc.phase == Created))
            && (At(s, t, Claiming) ==> Next(s, Label.AbortStart(t), fate).proc.phase in {Created, Exited, Deleted})
  {
    hide ApplyState, Sent;
    RunInv(role, ls, fate);
    var s := Run(role, ls, fate);
    assert OneOfAKind(s, StartKind);
    assert forall h :: At(s, h, Claiming) ==> Carrier(s, h, StartKind);
  }
}
