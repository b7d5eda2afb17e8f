/** Invariants of the queue and its workers on every run: exclusivity, no stranded work, and what a
    completed stop means. */
module ReactorQueue {
  import opened WorkQueue
  import opened Reactor

  ghost predicate Busy(ws: seq<Pc>, i: nat, n: Name) {
    i < |ws| && ws[i].Reconciles() && ws[i].n == n
  }

  /** processing is exactly what the workers reconcile, each name at one worker. */
  ghost predicate OneWorkerEach(q: Queue, ws: seq<Pc>) {
    && (forall n :: n in q.processing <==> exists i :: Busy(ws, i, n))
    && (forall i, j, n :: Busy(ws, i, n) && Busy(ws, j, n) ==> i == j)
  }

  ghost predicate SomeParked(ws: seq<Pc>) {
    exists i :: 0 <= i < |ws| && ws[i].Parked?
  }

  ghost predicate SomeStopped(ws: seq<Pc>) {
    exists i :: 0 <= i < |ws| && ws[i].Stopped?
  }

  ghost predicate SomeGoing(ws: seq<Pc>) {
    exists i :: 0 <= i < |ws| && !ws[i].Stopped?
  }

  /** No work is stranded: while a worker is parked there is an awake worker for every queued name,
      and after the shutdown nobody is parked and a queued name still has a worker to take it. */
  ghost predicate WorkGetsTaken(q: Queue, ws: seq<Pc>) {
    && (SomeParked(ws) ==> !q.shutdown && |q.queue| <= Sum(ws, Awakes))
    && (SomeStopped(ws) ==> q.shutdown)
    && (q.queue != [] ==> SomeGoing(ws))
  }

  ghost predicate QInv(s: Sys) {
    && ValidQueue(s.q) && |s.ws| > 0
    && OneWorkerEach(s.q, s.ws) && WorkGetsTaken(s.q, s.ws)
  }

  lemma InitialQInv(s: Sys)
    requires Initial(s)
    ensures QInv(s)
  {
    assert !s.ws[0].Stopped?;
  }

  // ---------------------------------------------------------------- one worker each

  /** Replacing what worker w does: it takes up `to`, having held `from` (a name or nothing). */
  lemma JobChange(q: Queue, ws: seq<Pc>, q': Queue, w: nat, pc: Pc)
    requires w < |ws| && OneWorkerEach(q, ws)
    requires ws[w].Reconciles() && pc.Reconciles() ==> pc.n == ws[w].n && q'.processing == q.processing
    requires ws[w].Reconciles() && !pc.Reconciles() ==> q'.processing == q.processing - {ws[w].n}
    requires !ws[w].Reconciles() && pc.Reconciles() ==> q'.processing == q.processing + {pc.n} && pc.n !in q.processing
    requires !ws[w].Reconciles() && !pc.Reconciles() ==> q'.processing == q.processing
    ensures OneWorkerEach(q', ws[w := pc])
  {
    var v := ws[w := pc];
    assert forall i, n :: i != w ==> (Busy(v, i, n) <==> Busy(ws, i, n));
    assert ws[w].Reconciles() ==> Busy(ws, w, ws[w].n);
    assert pc.Reconciles() ==> Busy(v, w, pc.n);
    forall n ensures n in q'.processing <==> exists i :: Busy(v, i, n) {
      if i :| Busy(v, i, n) {
        if i != w { assert Busy(ws, i, n); }
      }
      if n in q'.processing && !Busy(v, w, n) {
        var i :| Busy(ws, i, n);
        assert i != w && Busy(v, i, n);
      }
    }
  }

  /** Waking parked workers changes nobody's job. */
  lemma SameJobs(q: Queue, ws: seq<Pc>, v: seq<Pc>)
    requires |v| == |ws| && OneWorkerEach(q, ws)
    requires forall i :: 0 <= i < |ws| ==> v[i] == ws[i] || (ws[i].Parked? && v[i].Awake?)
    ensures OneWorkerEach(q, v)
  {
    assert forall i, n :: Busy(v, i, n) <==> Busy(ws, i, n);
  }

  lemma WorkKeepsOneWorker(s: Sys, w: nat, c: Choice)
    requires QInv(s) && w < |s.ws|
    ensures OneWorkerEach(WorkStep(s, w, c).q, WorkStep(s, w, c).ws)
  {
    hide ReconcilePc, ReconcileProcs, Signal, OneWorkerEach, WorkGetsTaken;
    var pc, n := s.ws[w], WorkStep(s, w, c);
    if pc.Awake? && s.q.queue != [] {
      TakenKeeps(s.q);
      JobChange(s.q, s.ws, n.q, w, Lookup(s.q.queue[0]));
    } else if pc.Returned? {
      var ws := s.ws[w := PostDone(pc.n, pc.ok)];
      JobChange(s.q, s.ws, n.q, w, PostDone(pc.n, pc.ok));
      SignalSpec(ws, c.wake);
      SameJobs(n.q, ws, n.ws);
    } else if n.ws != s.ws {
      JobChange(s.q, s.ws, n.q, w, n.ws[w]);
    }
  }

  lemma StepKeepsOneWorker(s: Sys, l: Label)
    requires QInv(s)
    ensures OneWorkerEach(Next(s, l).q, Next(s, l).ws)
  {
    hide WorkStep, Signal, Added, OneWorkerEach, WorkGetsTaken;
    match l {
      case Work(w, c) => if w < |s.ws| { WorkKeepsOneWorker(s, w, c); }
      case Fire(n, wake) => AddKeepsOneWorker(s, n, wake);
      case InformerAdds(wake) => if s.informer.Adding? { AddKeepsOneWorker(s, s.informer.n, wake); }
      case Resync(n, wake) => AddKeepsOneWorker(s, n, wake);
      case Halt => HaltKeepsOneWorker(s);
      case _ =>
    }
  }

  lemma HaltKeepsOneWorker(s: Sys)
    requires OneWorkerEach(s.q, s.ws)
    ensures OneWorkerEach(s.q.(shutdown := true), WakeAll(s.ws))
  {
    assert OneWorkerEach(s.q.(shutdown := true), s.ws);
    hide OneWorkerEach;
    SameJobs(s.q.(shutdown := true), s.ws, WakeAll(s.ws));
  }

  lemma AddKeepsOneWorker(s: Sys, n: Name, wake: nat)
    requires OneWorkerEach(s.q, s.ws)
    ensures OneWorkerEach(Added(s.q, n), s.ws) && OneWorkerEach(Added(s.q, n), Signal(s.ws, wake))
  {
    SignalSpec(s.ws, wake);
    SameJobs(Added(s.q, n), s.ws, Signal(s.ws, wake));
  }

  // ---------------------------------------------------------------- work gets taken

  /** One more queued name and one signal. */
  lemma GrowthIsSignalled(q: Queue, ws: seq<Pc>, q': Queue, k: nat)
    requires WorkGetsTaken(q, ws) && |ws| > 0 && (q'.queue == [] ==> q.queue == [])
    requires q'.shutdown == q.shutdown && |q'.queue| <= |q.queue| + 1 && SomeGoing(ws)
    ensures WorkGetsTaken(q', Signal(ws, k))
  {
    SignalSpec(ws, k);
    var v := Signal(ws, k);
    if i :| 0 <= i < |v| && v[i].Parked? { assert ws[i].Parked?; }
    if i :| 0 <= i < |v| && v[i].Stopped? { assert ws[i].Stopped?; }
    var g :| 0 <= g < |ws| && !ws[g].Stopped?;
    assert !v[g].Stopped?;
  }

  lemma AddKeepsTaken(s: Sys, n: Name, wake: nat)
    requires QInv(s)
    ensures var r := AddName(s, n, wake); WorkGetsTaken(r.q, r.ws)
  {
    AddedKeeps(s.q, n);
    if !s.q.shutdown {
      assert SomeGoing(s.ws) by {
        assert !SomeStopped(s.ws);
        assert !s.ws[0].Stopped?;
      }
      GrowthIsSignalled(s.q, s.ws, Added(s.q, n), wake);
    }
  }

  /** A worker that is not parked moves on, to anything but parking or stopping. */
  lemma PlainMove(q: Queue, ws: seq<Pc>, q': Queue, w: nat, pc: Pc)
    requires w < |ws| && WorkGetsTaken(q, ws) && !ws[w].Parked? && !ws[w].Stopped? && !pc.Parked? && !pc.Stopped?
    requires q'.shutdown == q.shutdown && |q'.queue| + (if ws[w].Awake? then 1 else 0) <= |q.queue| + (if pc.Awake? then 1 else 0)
    ensures WorkGetsTaken(q', ws[w := pc])
    ensures Sum(ws[w := pc], Awakes) == Sum(ws, Awakes) - Awakes(ws[w]) + Awakes(pc)
  {
    var v := ws[w := pc];
    SumUpdate(ws, w, pc, Awakes);
    if i :| 0 <= i < |v| && v[i].Parked? { assert ws[i].Parked?; }
    if i :| 0 <= i < |v| && v[i].Stopped? { assert ws[i].Stopped?; }
    assert !v[w].Stopped?;
  }

  lemma WorkKeepsTaken(s: Sys, w: nat, c: Choice)
    requires QInv(s) && w < |s.ws|
    ensures var n := WorkStep(s, w, c); WorkGetsTaken(n.q, n.ws)
  {
    hide ReconcilePc, ReconcileProcs, Sum, Signal, OneWorkerEach;
    var pc, n := s.ws[w], WorkStep(s, w, c);
    if pc.Awake? {
      if s.q.queue != [] {
        PlainMove(s.q, s.ws, n.q, w, Lookup(s.q.queue[0]));
      } else {
        var v := n.ws;
        assert n.q == s.q;
        if i :| 0 <= i < |v| && i != w && v[i].Parked? { assert s.ws[i].Parked?; }
        if i :| 0 <= i < |v| && i != w && v[i].Stopped? { assert s.ws[i].Stopped?; }
        assert SomeParked(v) ==> SomeParked(s.ws) || !s.q.shutdown;
      }
    } else if pc.Returned? {
      var ws := s.ws[w := PostDone(pc.n, pc.ok)];
      PlainMove(s.q, s.ws, s.q.(processing := n.q.processing), w, PostDone(pc.n, pc.ok));
      assert !ws[w].Stopped?;
      if pc.n in s.q.dirty {
        GrowthIsSignalled(s.q, ws, n.q, c.wake);
      }
    } else if n.ws != s.ws {
      PlainMove(s.q, s.ws, n.q, w, n.ws[w]);
    }
  }

  lemma HaltKeepsTaken(s: Sys)
    requires QInv(s)
    ensures WorkGetsTaken(Next(s, Halt).q, Next(s, Halt).ws)
  {
    var v := WakeAll(s.ws);
    if s.q.queue != [] {
      var g :| 0 <= g < |s.ws| && !s.ws[g].Stopped?;
      assert !v[g].Stopped?;
    }
    assert !SomeParked(v);
  }

  lemma StepKeepsValid(s: Sys, l: Label)
    requires QInv(s)
    ensures ValidQueue(Next(s, l).q)
  {
    hide ReconcilePc, ReconcileProcs, Sum, Signal, WorkGetsTaken;
    match l {
      case Work(w, c) =>
        if w < |s.ws| {
          if s.ws[w].Awake? && s.q.queue != [] {
            TakenKeeps(s.q);
          } else if s.ws[w].Returned? {
            assert Busy(s.ws, w, s.ws[w].n);
            FinishedKeeps(s.q, s.ws[w].n);
          }
        }
      case Fire(n, _) => AddedKeeps(s.q, n);
      case InformerAdds(_) => if s.informer.Adding? { AddedKeeps(s.q, s.informer.n); }
      case Resync(n, _) => AddedKeeps(s.q, n);
      case _ =>
    }
  }

  lemma StepKeepsQInv(s: Sys, l: Label)
    requires QInv(s)
    ensures QInv(Next(s, l))
  {
    hide LoadState, Sum, WorkStep;
    StepKeepsValid(s, l);
    StepKeepsOneWorker(s, l);
    match l {
      case Work(w, c) => if w < |s.ws| { WorkKeepsTaken(s, w, c); }
      case Fire(n, wake) => if n in s.timers { AddKeepsTaken(s.(timers := s.timers - multiset{n}), n, wake); }
      case InformerAdds(wake) => if s.informer.Adding? { AddKeepsTaken(s, s.informer.n, wake); }
      case Resync(n, wake) => AddKeepsTaken(s, n, wake);
      case Halt => HaltKeepsTaken(s);
      case _ =>
    }
    WorkersStay(s, l);
  }

  lemma WorkersStay(s: Sys, l: Label)
    ensures |Next(s, l).ws| == |s.ws|
  {
    hide WorkStep, AddName, LoadState;
    match l
    case Work(w, c) => if w < |s.ws| { WorkKeepsPool(s, w, c); }
    case Fire(n, wake) => AddKeepsPool(s.(timers := s.timers - multiset{n}), n, wake);
    case InformerAdds(wake) => if s.informer.Adding? { AddKeepsPool(s, s.informer.n, wake); }
    case Resync(n, wake) => AddKeepsPool(s, n, wake);
    case _ =>
  }

  lemma AddKeepsPool(s: Sys, n: Name, wake: nat)
    ensures |AddName(s, n, wake).ws| == |s.ws|
  {
  }

  lemma WorkKeepsPool(s: Sys, w: nat, c: Choice)
    requires w < |s.ws|
    ensures |WorkStep(s, w, c).ws| == |s.ws|
  {
    hide ReconcilePc, ReconcileProcs, Taken, Finished, FirstParked;
  }

  lemma {:induction false} RunQInv(s: Sys, ls: seq<Label>)
    requires Initial(s)
    ensures QInv(Run(s, ls))
  {
    if ls == [] {
      InitialQInv(s);
    } else {
      RunQInv(s, ls[..|ls|-1]);
      StepKeepsQInv(Run(s, ls[..|ls|-1]), ls[|ls|-1]);
    }
  }

  // ---------------------------------------------------------------- the theorems

  /** On every run: the queue holds each pending name once, exactly the dirty names nobody is
      reconciling, and no name is reconciled by two workers at once. */
  lemma Exclusive(s: Sys, ls: seq<Label>, i: nat, j: nat)
    requires Initial(s) && i < j < |s.ws|
    ensures var t := Run(s, ls);
            && |t.ws| == |s.ws|
            && Distinct(t.q.queue)
            && (forall n :: n in t.q.queue <==> n in t.q.dirty && n !in t.q.processing)
            && !(t.ws[i].Reconciles() && t.ws[j].Reconciles() && t.ws[i].n == t.ws[j].n)
  {
    RunWorkers(s, ls);
    RunQInv(s, ls);
    var t := Run(s, ls);
    if t.ws[i].Reconciles() && t.ws[j].Reconciles() && t.ws[i].n == t.ws[j].n {
      assert Busy(t.ws, i, t.ws[i].n) && Busy(t.ws, j, t.ws[i].n);
    }
  }

  lemma {:induction false} RunWorkers(s: Sys, ls: seq<Label>)
    ensures |Run(s, ls).ws| == |s.ws|
  {
    if ls != [] {
      RunWorkers(s, ls[..|ls|-1]);
      WorkersStay(Run(s, ls[..|ls|-1]), ls[|ls|-1]);
    }
  }

  /** When stop returns, every worker has stopped, and the queue has been drained completely. */
  lemma StopDrains(s: Sys, ls: seq<Label>)
    requires Initial(s)
    requires forall i :: 0 <= i < |Run(s, ls).ws| ==> Run(s, ls).ws[i].Stopped?
    ensures var q := Run(s, ls).q; q.queue == [] && q.dirty == {} && q.processing == {} && q.shutdown
  {
    RunQInv(s, ls);
    var t := Run(s, ls);
    assert t.ws[0].Stopped?;
    assert !SomeGoing(t.ws);
    assert t.q.processing == {} by {
      forall n ensures n !in t.q.processing {
        assert forall i :: !Busy(t.ws, i, n);
      }
    }
    assert forall n :: n in t.q.dirty ==> n in t.q.queue;
  }

  /** Worker w takes name n off the queue. */
  predicate HandsOut(s: Sys, l: Label, n: Name) {
    l.Work? && l.w < |s.ws| && s.ws[l.w].Awake? && s.q.queue != [] && s.q.queue[0] == n
  }

  lemma OnlyHandOutClears(s: Sys, l: Label, n: Name)
    requires n in s.q.dirty && n !in Next(s, l).q.dirty
    ensures HandsOut(s, l, n)
  {
    hide WorkStep, AddName, LoadState;
    assert forall r: Sys, m, wake :: AddName(r, m, wake).q == Added(r.q, m) by {
      forall r: Sys, m, wake ensures AddName(r, m, wake).q == Added(r.q, m) { AddNameAdds(r, m, wake); }
    }
    if l.Work? && l.w < |s.ws| {
      WorkClears(s, l.w, l.c, n);
    }
  }

  lemma AddNameAdds(s: Sys, n: Name, wake: nat)
    ensures AddName(s, n, wake).q == Added(s.q, n)
  {
  }

  lemma WorkClears(s: Sys, w: nat, c: Choice, n: Name)
    requires w < |s.ws| && n in s.q.dirty && n !in WorkStep(s, w, c).q.dirty
    ensures HandsOut(s, Work(w, c), n)
  {
    hide ReconcilePc, ReconcileProcs, Signal;
  }

  /** The queue only loses its first name, to a worker, and only grows at its end. */
  lemma QueueMoves(s: Sys, l: Label)
    ensures var q := Next(s, l).q.queue;
            || q == s.q.queue
            || (s.q.queue != [] && q == s.q.queue[1..] && HandsOut(s, l, s.q.queue[0]))
            || exists n :: q == s.q.queue + [n]
  {
    hide AddName, LoadState, ReconcilePc, ReconcileProcs, Signal;
    match l
    case Fire(n, wake) => AddNameAdds(s.(timers := s.timers - multiset{n}), n, wake);
    case InformerAdds(wake) => if s.informer.Adding? { AddNameAdds(s, s.informer.n, wake); }
    case Resync(n, wake) => AddNameAdds(s, n, wake);
    case _ =>
  }

  ghost predicate Ahead(q: seq<Name>, a: Name, b: Name) {
    exists i, j :: 0 <= i < j < |q| && q[i] == a && q[j] == b
  }

  lemma AheadStays(s: Sys, l: Label, a: Name, b: Name)
    requires Ahead(s.q.queue, a, b) && !HandsOut(s, l, a)
    ensures Ahead(Next(s, l).q.queue, a, b)
  {
    QueueMoves(s, l);
    var q, r := s.q.queue, Next(s, l).q.queue;
    var i, j :| 0 <= i < j < |q| && q[i] == a && q[j] == b;
    if r == q[1..] && r != q {
      assert i > 0;
      assert r[i-1] == a && r[j-1] == b;
    } else {
      assert r[i] == a && r[j] == b;
    }
  }

  /** First come, first served: a name that is queued behind another is not handed out before it. */
  lemma {:induction false} FirstComeFirstServed(s: Sys, ls: seq<Label>, l: Label, a: Name, b: Name)
    requires QInv(s) && Ahead(s.q.queue, a, b)
    requires HandsOut(Run(s, ls), l, b)
    ensures exists k :: 0 <= k < |ls| && HandsOut(Run(s, ls[..k]), ls[k], a)
  {
    hide Next, HandsOut, QInv;
    if forall k :: 0 <= k < |ls| ==> !HandsOut(Run(s, ls[..k]), ls[k], a) {
      StillAhead(s, ls, a, b);
      var q := Run(s, ls).q.queue;
      var i, j :| 0 <= i < j < |q| && q[i] == a && q[j] == b;
      assert Distinct(q);
      assert q[0] == b by { HandsOutFirst(Run(s, ls), l, b); }
    }
  }

  lemma HandsOutFirst(s: Sys, l: Label, n: Name)
    requires HandsOut(s, l, n)
    ensures s.q.queue != [] && s.q.queue[0] == n
  {
  }

  lemma {:induction false} StillAhead(s: Sys, ls: seq<Label>, a: Name, b: Name)
    requires QInv(s) && Ahead(s.q.queue, a, b)
    requires forall k :: 0 <= k < |ls| ==> !HandsOut(Run(s, ls[..k]), ls[k], a)
    ensures Ahead(Run(s, ls).q.queue, a, b) && Distinct(Run(s, ls).q.queue) && QInv(Run(s, ls))
  {
    hide Next, HandsOut, Ahead;
    if ls != [] {
      var init := ls[..|ls|-1];
      forall k | 0 <= k < |init| ensures !HandsOut(Run(s, init[..k]), init[k], a) {
        assert init[..k] == ls[..k];
      }
      StillAhead(s, init, a, b);
      StepKeepsQInv(Run(s, init), ls[|ls|-1]);
      AheadStays(Run(s, init), ls[|ls|-1], a, b);
    }
  }

  /** A pending name stays pending until it is handed out, also one added while being reconciled. */
  lemma {:induction false} PendingUntilHandedOut(s: Sys, ls: seq<Label>, n: Name)
    requires n in s.q.dirty && n !in Run(s, ls).q.dirty
    ensures exists k :: 0 <= k < |ls| && HandsOut(Run(s, ls[..k]), ls[k], n)
  {
    hide Next, HandsOut;
    var k := |ls| - 1;
    if n !in Run(s, ls[..k]).q.dirty {
      PendingUntilHandedOut(s, ls[..k], n);
      var j :| 0 <= j < k && HandsOut(Run(s, ls[..k][..j]), ls[..k][j], n);
      assert ls[..k][..j] == ls[..j];
      assert HandsOut(Run(s, ls[..j]), ls[j], n);
    } else {
      OnlyHandOutClears(Run(s, ls[..k]), ls[k], n);
    }
  }
}
