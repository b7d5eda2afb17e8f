/** The event reactor (unitevents.go) as one system: the informer, the work queue with its worker
    pool and condition variable, the retry timers, and the tracked processes they reconcile. Every
    lock-protected step is atomic; anything may happen between two of them. */
module Reactor {
  import opened Basics
  import opened Observations
  import opened Processes
  import opened WorkQueue
  import RetryBackoff

  /** Identity of a process object; a unit name can be tracked again under a new one. */
  type Obj = nat

  const MAX_RETRIES: nat := RetryBackoff.RECONCILE_MAX_RETRIES

  /** Where a worker stands: in Get, inside reconcileUnit, or between Done and the next Get. */
  datatype Pc =
    | Awake | Parked | Stopped
    | Lookup(n: Name)
    | Check(n: Name, o: Obj)
    | Load(n: Name, o: Obj)
    | Consult(n: Name, o: Obj)
    | Consume(n: Name, o: Obj)
    | Apply(n: Name, o: Obj, st: PState)
    | Returned(n: Name, ok: bool)
    | PostDone(n: Name, ok: bool)
    | Exhausted(n: Name)
    | Scheduling(n: Name)
  {
    /** Between Get and Done. */
    predicate Reconciles() {
      Lookup? || Check? || Load? || Consult? || Consume? || Apply? || Returned?
    }

    predicate Named() {
      !Awake? && !Parked? && !Stopped?
    }

    predicate Holds(name: Name) {
      Named() && n == name
    }

    /** How far the worker still is from being done with its name. */
    function Stage(): nat {
      match this
      case Scheduling(_) => 14
      case Lookup(_) => 11
      case Check(_, _) => 10
      case Load(_, _) => 9
      case Consult(_, _) => 8
      case Consume(_, _) => 7
      case Apply(_, _, _) => 6
      case Returned(_, _) => 5
      case PostDone(_, _) => 4
      case Exhausted(_) => 3
      case Awake | Parked | Stopped => 0
    }
  }

  const TIMER_STAGE := 13
  const DIRTY_STAGE := 12

  /** The informer between two updates, or where it stands with one: a process found, with the terminal
      state a Service signal carried; not seen exited, so about to record that state; about to add. */
  datatype Informer =
    | Idle
    | Noting(n: Name, o: Obj, heard: Option<PState>)
    | Recording(n: Name, o: Obj, st: PState)
    | Adding(n: Name)

  datatype Sys = Sys(
    q: Queue, ws: seq<Pc>, timers: multiset<Name>, informer: Informer,
    index: map<Name, Obj>, procs: map<Obj, Proc>,
    abandoned: set<Name>,  // given up on after the last retry, not added since
    skipped: set<Obj>)     // passed over for having no pid, not added and nothing recorded since
  {
    function P(o: Obj): Proc {
      if o in procs then procs[o] else NEW
    }
  }

  /** What systemd and the file system answer. An exec never asks systemd in LoadState, and takes its
      exit file as it is. */
  datatype UnitRead = Read(obs: PState) | ReadError | NotAsked

  datatype Choice = Choice(file: Option<PState>, unit: UnitRead, fallback: Option<PState>, late: bool, wake: nat)

  datatype Label =
    | Work(w: nat, c: Choice)            // one step of worker w
    | Fire(n: Name, wake: nat)           // a retry timer fires and adds
    | Abandon(n: Name)                   // a timer sees the shutdown
    | HearService(n: Name, props: ServiceProps)
    | HearUnit(n: Name)
    | CheckExited
    | RecordService
    | InformerAdds(wake: nat)
    | Resync(n: Name, wake: nat)
    | Track(n: Name, o: Obj)
    | Untrack(n: Name)
    | Interfere(o: Obj, p: Proc)         // any other goroutine acts on the process
    | Halt                               // queue shutdown

  // ---------------------------------------------------------------- the condition variable

  function FirstParked(ws: seq<Pc>): (i: nat)
    ensures i <= |ws|
    ensures i < |ws| ==> ws[i].Parked?
    ensures i == |ws| ==> forall j :: 0 <= j < |ws| ==> !ws[j].Parked?
  {
    if ws == [] || ws[0].Parked? then 0 else 1 + FirstParked(ws[1..])
  }

  /** Signal: one parked worker, if any, wakes up. */
  function Signal(ws: seq<Pc>, k: nat): seq<Pc> {
    var i := if k < |ws| && ws[k].Parked? then k else FirstParked(ws);
    if i < |ws| then ws[i := Awake] else ws
  }

  function WakeAll(ws: seq<Pc>): seq<Pc> {
    seq(|ws|, i requires 0 <= i < |ws| => if ws[i].Parked? then Awake else ws[i])
  }

  // ---------------------------------------------------------------- one step

  function AddName(s: Sys, n: Name, wake: nat): Sys {
    var q := Added(s.q, n);
    s.(q := q,
       ws := if |q.queue| > |s.q.queue| then Signal(s.ws, wake) else s.ws,
       abandoned := if s.q.shutdown then s.abandoned else s.abandoned - {n},
       skipped := if s.q.shutdown || n !in s.index then s.skipped else s.skipped - {s.index[n]})
  }

  /** LoadState of process p: the new process, or nothing when the read failed. */
  function LoadState(p: Proc, c: Choice): Option<Proc> {
    if c.file.Some? then
      var st := c.file.value;
      Some(ApplyState(p, if st.pid > 0 && st.status == Unset && !c.unit.NotAsked? then st.(status := StRunning) else st).0)
    else if p.state.pid == 0 || c.unit.NotAsked? then Some(p)
    else if c.unit.Read? then Some(ApplyState(p, c.unit.obs).0)
    else None
  }

  /** One step inside reconcileUnit: where the worker goes... */
  function ReconcilePc(s: Sys, pc: Pc, c: Choice): (r: Pc)
    requires pc.Reconciles() && !pc.Returned?
    ensures r.Reconciles() && r.n == pc.n && r.Stage() < pc.Stage()
  {
    match pc
    case Lookup(n) => if n in s.index then Check(n, s.index[n]) else Returned(n, true)
    case Check(n, o) => if s.P(o).state.Exited() then Returned(n, true) else Load(n, o)
    case Load(n, o) => if LoadState(s.P(o), c).Some? then Consult(n, o) else Returned(n, false)
    case Consult(n, o) =>
      // The exited check precedes the pid check; an exit in between is not seen (late).
      if s.P(o).state.pid > 0 && (!s.P(o).state.Exited() || c.late) then Consume(n, o) else Returned(n, true)
    case Consume(n, o) =>
      if s.P(o).recorded.Some? then Apply(n, o, s.P(o).recorded.value)
      else if c.fallback.Some? then Apply(n, o, c.fallback.value)
      else Returned(n, false)
    case Apply(n, o, st) => Returned(n, true)
  }

  /** ...and what it does to the process it reconciles. */
  function ReconcileProcs(s: Sys, pc: Pc, c: Choice): map<Obj, Proc> {
    match pc
    case Load(_, o) =>
      var p := LoadState(s.P(o), c);
      if p.Some? then s.procs[o := p.value] else s.procs
    case Apply(_, o, st) => s.procs[o := ApplyState(s.P(o), st).0]
    case _ => s.procs
  }

  function WorkStep(s: Sys, w: nat, c: Choice): Sys
    requires w < |s.ws|
  {
    var pc := s.ws[w];
    if pc.Awake? then
      if s.q.queue != [] then s.(q := Taken(s.q), ws := s.ws[w := Lookup(s.q.queue[0])])
      else s.(ws := s.ws[w := if s.q.shutdown then Pc.Stopped else Parked])
    else if pc.Returned? then
      var ws := s.ws[w := PostDone(pc.n, pc.ok)];
      s.(q := Finished(s.q, pc.n), ws := if pc.n in s.q.dirty then Signal(ws, c.wake) else ws)
    else if pc.Reconciles() then
      s.(ws := s.ws[w := ReconcilePc(s, pc, c)], procs := ReconcileProcs(s, pc, c),
         skipped := if pc.Consult? && s.P(pc.o).state.pid == 0 then s.skipped + {pc.o} else s.skipped)
    else match pc
      case PostDone(n, ok) =>
        if ok then s.(q := Forgotten(s.q, n), ws := s.ws[w := Awake])
        else if MayRetry(s.q, n, MAX_RETRIES) then s.(q := Retried(s.q, n), ws := s.ws[w := Scheduling(n)])
        else s.(ws := s.ws[w := Exhausted(n)])
      case Exhausted(n) => s.(q := Forgotten(s.q, n), ws := s.ws[w := Awake], abandoned := s.abandoned + {n})
      case Scheduling(n) => s.(timers := s.timers + multiset{n}, ws := s.ws[w := Awake])
      case _ => s
  }

  /** What other goroutines may do to a process: never un-exit it, never record an exit. */
  predicate Rely(p: Proc, p': Proc) {
    (p.state.Exited() ==> p'.state.Exited()) && (p'.recorded == p.recorded || p'.recorded == None)
  }

  /** A label that does not apply leaves the state alone. */
  function Next(s: Sys, l: Label): Sys {
    match l
    case Work(w, c) => if w < |s.ws| then WorkStep(s, w, c) else s
    case Fire(n, wake) => if n in s.timers then AddName(s.(timers := s.timers - multiset{n}), n, wake) else s
    case Abandon(n) => if s.q.shutdown && n in s.timers then s.(timers := s.timers - multiset{n}) else s
    case HearService(n, props) =>
      var st := ServiceExitState(props);
      if s.informer.Idle? && st.Some? && n in s.index then s.(informer := Noting(n, s.index[n], st)) else s
    case HearUnit(n) =>
      if s.informer.Idle? && n in s.index then s.(informer := Noting(n, s.index[n], None)) else s
    case CheckExited =>
      if !s.informer.Noting? then s
      else
        var i := s.informer;
        s.(informer := if s.P(i.o).state.Exited() then Idle
                       else if i.heard.Some? then Recording(i.n, i.o, i.heard.value)
                       else Adding(i.n))
    case RecordService =>
      if !s.informer.Recording? then s
      else
        var o := s.informer.o;
        s.(procs := s.procs[o := RecordExit(s.P(o), s.informer.st)], skipped := s.skipped - {o}, informer := Adding(s.informer.n))
    case InformerAdds(wake) =>
      if s.informer.Adding? then AddName(s, s.informer.n, wake).(informer := Idle) else s
    case Resync(n, wake) => if s.informer.Idle? then AddName(s, n, wake) else s
    case Track(n, o) =>
      if o in s.procs || o in s.index.Values then s else s.(index := s.index[n := o], procs := s.procs[o := NEW])
    case Untrack(n) => s.(index := s.index - {n})
    case Interfere(o, p) => if o in s.procs && Rely(s.procs[o], p) then s.(procs := s.procs[o := p]) else s
    case Halt => s.(q := s.q.(shutdown := true), ws := WakeAll(s.ws))
  }

  /** The steps the reactor takes on its own; everything else comes from outside. */
  predicate Internal(l: Label) {
    l.Work? || l.Fire? || l.Abandon?
  }

  function Run(s: Sys, ls: seq<Label>): Sys {
    if ls == [] then s else Next(Run(s, ls[..|ls|-1]), ls[|ls|-1])
  }

  /** A fresh reactor with its pool of workers about to call Get. */
  ghost predicate Initial(s: Sys) {
    && s.q == FRESH && |s.ws| > 0 && (forall i :: 0 <= i < |s.ws| ==> s.ws[i] == Awake)
    && s.timers == multiset{} && s.informer == Idle && s.index == map[] && s.procs == map[]
    && s.abandoned == {} && s.skipped == {}
  }

  /** Every operation of other goroutines on a process is covered by Rely. */
  lemma OpsRely(p: Proc, op: Op)
    requires !op.Record?
    ensures Rely(p, Step(p, op))
  {
    StepKeeps(p, op);
  }

  // ---------------------------------------------------------------- sums over the worker pool

  function Sum(ws: seq<Pc>, f: Pc -> nat): nat {
    if ws == [] then 0 else f(ws[0]) + Sum(ws[1..], f)
  }

  lemma {:induction false} SumUpdate(ws: seq<Pc>, i: nat, pc: Pc, f: Pc -> nat)
    requires i < |ws|
    ensures Sum(ws[i := pc], f) == Sum(ws, f) - f(ws[i]) + f(pc)
    ensures Sum(ws, f) >= f(ws[i])
  {
    if i == 0 {
      assert ws[i := pc][1..] == ws[1..];
    } else {
      assert ws[i := pc][1..] == ws[1..][i-1 := pc];
      SumUpdate(ws[1..], i - 1, pc, f);
    }
  }

  function Names(pc: Pc): nat { if pc.Named() then 1 else 0 }
  function Stages(pc: Pc): nat { pc.Stage() }
  function Awakes(pc: Pc): nat { if pc.Awake? then 1 else 0 }

  /** A signal changes no worker that has a name, and wakes exactly one if one is parked. */
  lemma SignalSpec(ws: seq<Pc>, k: nat)
    ensures var v := Signal(ws, k);
            && |v| == |ws|
            && (forall i :: 0 <= i < |ws| ==> v[i] == ws[i] || (ws[i].Parked? && v[i].Awake?))
            && Sum(v, Names) == Sum(ws, Names) && Sum(v, Stages) == Sum(ws, Stages)
            && (if exists i :: 0 <= i < |ws| && ws[i].Parked? then Sum(v, Awakes) == Sum(ws, Awakes) + 1 else v == ws)
  {
    var i := if k < |ws| && ws[k].Parked? then k else FirstParked(ws);
    if i < |ws| {
      SumUpdate(ws, i, Awake, Names);
      SumUpdate(ws, i, Awake, Stages);
      SumUpdate(ws, i, Awake, Awakes);
    }
  }
}
