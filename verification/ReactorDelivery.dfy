/** No observed exit is lost: from the moment the informer records a terminal Service state until the
    process is exited, work for it is outstanding, with exactly two exceptions. */
module ReactorDelivery {
  import opened Basics
  import opened Observations
  import opened Processes
  import opened WorkQueue
  import opened Reactor
  import RQ = ReactorQueue
  import RZ = ReactorQuiesce

  /** A worker at this point will still act on an exit recorded for o under name n. */
  predicate WillHandle(pc: Pc, n: Name, o: Obj) {
    match pc
    case Lookup(m) => m == n
    case Check(m, p) => m == n && p == o
    case Load(m, p) => m == n && p == o
    case Consult(m, p) => m == n && p == o
    case Consume(m, p) => m == n && p == o
    case Apply(m, p, st) => m == n && p == o && st.Exited()
    case Returned(m, ok) => m == n && !ok
    case PostDone(m, ok) => m == n && !ok
    case Exhausted(m) => m == n
    case Scheduling(m) => m == n
    case Awake | Parked | Stopped => false
  }

  ghost predicate Handled(ws: seq<Pc>, n: Name, o: Obj) {
    exists i :: 0 <= i < |ws| && WillHandle(ws[i], n, o)
  }

  ghost predicate Pending(s: Sys, n: Name, o: Obj) {
    s.informer == Adding(n) || n in s.q.dirty || n in s.timers || Handled(s.ws, n, o)
  }

  predicate Unfinished(p: Proc) {
    p.recorded.Some? && !p.state.Exited()
  }

  /** A recorded exit not yet applied has work outstanding, unless its retries ran out or a
      reconcile passed the process over because it had no pid. */
  ghost predicate Covered(s: Sys, n: Name, o: Obj) {
    Unfinished(s.P(o)) ==> Pending(s, n, o) || n in s.abandoned || o in s.skipped
  }

  ghost predicate WellTracked(s: Sys) {
    && (forall n, m :: n in s.index && m in s.index && s.index[n] == s.index[m] ==> n == m)
    && (forall o :: s.P(o).recorded.Some? ==> s.P(o).recorded.value.Exited())
    && (forall n :: n in s.index ==> s.index[n] in s.procs)
    && (s.informer.Noting? && s.informer.heard.Some? ==> s.informer.heard.value.Exited())
    && (s.informer.Recording? ==> s.informer.st.Exited())
    && (s.informer.Noting? || s.informer.Recording? ==>
          && s.informer.o in s.procs
          && forall n :: n in s.index && s.index[n] == s.informer.o ==> n == s.informer.n)
  }

  lemma TrackedSame(s: Sys, t: Sys)
    requires WellTracked(s) && t.index == s.index && t.procs == s.procs && (t.informer.Noting? || t.informer.Recording? ==> t.informer == s.informer)
    ensures WellTracked(t)
  {
    assert forall o :: t.P(o) == s.P(o);
  }

  ghost predicate Delivery(s: Sys) {
    && WellTracked(s)
    && (!s.q.shutdown ==> forall n :: n in s.index ==> Covered(s, n, s.index[n]))
  }

  lemma HandledUpdate(ws: seq<Pc>, w: nat, pc: Pc, n: Name, o: Obj)
    requires w < |ws|
    ensures Handled(ws, n, o) && !WillHandle(ws[w], n, o) ==> Handled(ws[w := pc], n, o)
    ensures WillHandle(pc, n, o) ==> Handled(ws[w := pc], n, o)
  {
    var v := ws[w := pc];
    if Handled(ws, n, o) && !WillHandle(ws[w], n, o) {
      var i :| 0 <= i < |ws| && WillHandle(ws[i], n, o);
      assert WillHandle(v[i], n, o);
    }
    if WillHandle(pc, n, o) { assert WillHandle(v[w], n, o); }
  }

  lemma HandledSame(ws: seq<Pc>, v: seq<Pc>, n: Name, o: Obj)
    requires |v| == |ws| && forall i :: 0 <= i < |ws| ==> v[i] == ws[i] || (ws[i].Parked? && v[i].Awake?)
    ensures Handled(ws, n, o) ==> Handled(v, n, o)
  {
    if Handled(ws, n, o) {
      var i :| 0 <= i < |ws| && WillHandle(ws[i], n, o);
      assert WillHandle(v[i], n, o);
    }
  }

  /** Reconciling changes a process only by merging observations into it. */
  lemma MergeKeepsRecord(p: Proc, obs: PState)
    ensures var q := ApplyState(p, obs).0;
            && q.recorded == p.recorded && (p.state.Exited() ==> q.state.Exited())
            && (obs.Exited() ==> q.state.Exited()) && (p.state.pid > 0 ==> q.state.pid == p.state.pid)
  {
  }

  lemma LoadKeepsRecord(p: Proc, c: Choice)
    ensures LoadState(p, c).Some? ==>
              var q := LoadState(p, c).value;
              q.recorded == p.recorded && (p.state.Exited() ==> q.state.Exited())
  {
    hide ApplyState;
    if c.file.Some? {
      var st := c.file.value;
      MergeKeepsRecord(p, if st.pid > 0 && st.status == Unset && !c.unit.NotAsked? then st.(status := StRunning) else st);
    } else if c.unit.Read? {
      MergeKeepsRecord(p, c.unit.obs);
    }
  }

  /** One step inside reconcileUnit keeps the recorded exit in hand until the process is exited. */
  lemma ReconcileCovers(s: Sys, w: nat, c: Choice, n: Name, o: Obj)
    requires w < |s.ws| && s.ws[w].Reconciles() && !s.ws[w].Returned?
    requires n in s.index && s.index[n] == o && Covered(s, n, o) && WellTracked(s)
    ensures Covered(WorkStep(s, w, c), n, o)
  {
    hide ApplyState, LoadState, Signal, WellTracked;
    var pc, t := s.ws[w], WorkStep(s, w, c);
    if pc.Load? { LoadKeepsRecord(s.P(pc.o), c); }
    if pc.Apply? { MergeKeepsRecord(s.P(pc.o), pc.st); }
    assert t.P(o).recorded == s.P(o).recorded && (s.P(o).state.Exited() ==> t.P(o).state.Exited());
    HandledUpdate(s.ws, w, t.ws[w], n, o);
    if WillHandle(pc, n, o) && Unfinished(t.P(o)) {
      assert pc.Consume? ==> s.P(o).recorded.value.Exited() by { RecordedIsTerminal(s, o); }
      assert WillHandle(t.ws[w], n, o) || o in t.skipped;
    }
  }

  lemma RecordedIsTerminal(s: Sys, o: Obj)
    requires WellTracked(s) && s.P(o).recorded.Some?
    ensures s.P(o).recorded.value.Exited()
  {
  }

  lemma QueueStepCovers(s: Sys, w: nat, c: Choice, n: Name, o: Obj)
    requires w < |s.ws| && (!s.ws[w].Reconciles() || s.ws[w].Returned?)
    requires !s.q.shutdown && Covered(s, n, o) && WellTracked(s)
    ensures Covered(WorkStep(s, w, c), n, o)
  {
    hide Signal, WellTracked;
    var pc, t := s.ws[w], WorkStep(s, w, c);
    assert t.P(o) == s.P(o);
    if pc.Returned? {
      var ws := s.ws[w := PostDone(pc.n, pc.ok)];
      HandledUpdate(s.ws, w, PostDone(pc.n, pc.ok), n, o);
      SignalSpec(ws, c.wake);
      HandledSame(ws, t.ws, n, o);
    } else {
      HandledUpdate(s.ws, w, t.ws[w], n, o);
    }
  }

  lemma AddCovers(s: Sys, added: Name, wake: nat, n: Name, o: Obj)
    requires !s.q.shutdown && (n == added || Covered(s, n, o))
    requires WellTracked(s) && n in s.index && s.index[n] == o
    ensures Covered(AddName(s, added, wake), n, o)
  {
    hide Signal;
    var t := AddName(s, added, wake);
    assert t.P(o) == s.P(o);
    SignalSpec(s.ws, wake);
    HandledSame(s.ws, Signal(s.ws, wake), n, o);
  }

  lemma TrackedMerged(s: Sys, t: Sys)
    requires WellTracked(s) && t.index == s.index && t.informer == s.informer
    requires s.procs.Keys <= t.procs.Keys && forall o :: t.P(o).recorded == s.P(o).recorded
    ensures WellTracked(t)
  {
  }

  lemma WorkKeepsTracked(s: Sys, w: nat, c: Choice)
    requires w < |s.ws| && WellTracked(s)
    ensures WellTracked(WorkStep(s, w, c)) && WorkStep(s, w, c).index == s.index
    ensures WorkStep(s, w, c).q.shutdown == s.q.shutdown
  {
    hide ApplyState, LoadState, Signal, ReconcilePc, WellTracked;
    var pc, t := s.ws[w], WorkStep(s, w, c);
    if pc.Load? { LoadKeepsRecord(s.P(pc.o), c); }
    if pc.Apply? { MergeKeepsRecord(s.P(pc.o), pc.st); }
    TrackedMerged(s, t);
  }

  lemma StepKeepsDelivery(s: Sys, l: Label)
    requires Delivery(s)
    ensures Delivery(Next(s, l))
  {
    var t := Next(s, l);
    match l
    case Work(w, c) =>
      hide WorkStep, WellTracked, Covered;
      if w < |s.ws| {
        WorkKeepsTracked(s, w, c);
        if !s.q.shutdown {
          forall n | n in t.index ensures Covered(t, n, t.index[n]) {
            if s.ws[w].Reconciles() && !s.ws[w].Returned? {
              ReconcileCovers(s, w, c, n, s.index[n]);
            } else {
              QueueStepCovers(s, w, c, n, s.index[n]);
            }
          }
        }
      }
    case Fire(m, wake) =>
      hide AddName, WellTracked;
      AddKeepsTracked(s.(timers := s.timers - multiset{m}), m, wake);
      TrackedSame(s, t);
      if m in s.timers && !s.q.shutdown {
        TrackedSame(s, s.(timers := s.timers - multiset{m}));
        forall n | n in t.index ensures Covered(t, n, t.index[n]) {
          AddCovers(s.(timers := s.timers - multiset{m}), m, wake, n, s.index[n]);
        }
      }
    case InformerAdds(wake) => InformerAddsDelivery(s, wake);
    case Resync(m, wake) =>
      hide AddName, WellTracked;
      AddKeepsTracked(s, m, wake);
      TrackedSame(s, t);
      if !s.q.shutdown {
        forall n | n in t.index ensures Covered(t, n, t.index[n]) {
          AddCovers(s, m, wake, n, s.index[n]);
        }
      }
    case RecordService => RecordDelivery(s);
    case Track(m, o) => TrackDelivery(s, m, o);
    case Interfere(o, p) => InterfereDelivery(s, o, p);
    case Abandon(_) | Untrack(_) | Halt => UntrackDelivery(s, l);
    case HearService(_, _) | HearUnit(_) | CheckExited => HearDelivery(s, l);
  }

  lemma AddKeepsTracked(s: Sys, m: Name, wake: nat)
    ensures AddName(s, m, wake).index == s.index && AddName(s, m, wake).procs == s.procs
    ensures AddName(s, m, wake).informer == s.informer && AddName(s, m, wake).q.shutdown == s.q.shutdown
  {
  }

  lemma InformerAddsDelivery(s: Sys, wake: nat)
    requires Delivery(s)
    ensures Delivery(Next(s, InformerAdds(wake)))
  {
    var t := Next(s, InformerAdds(wake));
    if s.informer.Adding? {
      var m, b := s.informer.n, s.(informer := Idle);
      AddKeepsTracked(s, m, wake);
      assert AddName(b, m, wake) == t;
      TrackedSame(s, t);
      TrackedSame(s, b);
      if !s.q.shutdown {
        forall n | n in t.index ensures Covered(t, n, t.index[n]) {
          assert Covered(s, n, s.index[n]);
          assert n != m ==> Covered(b, n, s.index[n]);
          AddCovers(b, m, wake, n, s.index[n]);
        }
      }
    }
  }

  lemma RecordDelivery(s: Sys)
    requires Delivery(s)
    ensures Delivery(Next(s, RecordService))
  {
    var t := Next(s, RecordService);
    if s.informer.Recording? {
      var m, o := s.informer.n, s.informer.o;
      forall p ensures t.P(p).recorded.Some? ==> t.P(p).recorded.value.Exited() {
        assert p != o ==> t.P(p) == s.P(p);
      }
      if !s.q.shutdown {
        forall n | n in t.index ensures Covered(t, n, t.index[n]) {
          assert Covered(s, n, s.index[n]);
        }
      }
    }
  }

  lemma TrackDelivery(s: Sys, m: Name, o: Obj)
    requires Delivery(s)
    ensures Delivery(Next(s, Track(m, o)))
  {
    var t := Next(s, Track(m, o));
    if t != s {
      assert forall p :: t.P(p) == s.P(p);
      forall n | n in s.index ensures s.index[n] != o {
        assert s.index[n] in s.index.Values;
      }
      if !s.q.shutdown {
        forall n | n in t.index ensures Covered(t, n, t.index[n]) {
          assert n != m ==> Covered(s, n, s.index[n]);
        }
      }
    }
  }

  lemma InterfereDelivery(s: Sys, o: Obj, p: Proc)
    requires Delivery(s)
    ensures Delivery(Next(s, Interfere(o, p)))
  {
    var t := Next(s, Interfere(o, p));
    if t != s {
      forall x ensures t.P(x).recorded.Some? ==> s.P(x).recorded == t.P(x).recorded {
        assert x != o ==> t.P(x) == s.P(x);
      }
      if !s.q.shutdown {
        forall n | n in t.index ensures Covered(t, n, t.index[n]) {
          assert Covered(s, n, s.index[n]);
        }
      }
    }
  }

  lemma UntrackDelivery(s: Sys, l: Label)
    requires Delivery(s) && (l.Abandon? || l.Untrack? || l.Halt?)
    ensures Delivery(Next(s, l))
  {
    var t := Next(s, l);
    assert forall x :: t.P(x) == s.P(x);
    if !t.q.shutdown {
      forall n | n in t.index ensures Covered(t, n, t.index[n]) {
        assert Covered(s, n, s.index[n]);
      }
    }
  }

  lemma HearDelivery(s: Sys, l: Label)
    requires Delivery(s) && (l.HearService? || l.HearUnit? || l.CheckExited?)
    ensures Delivery(Next(s, l))
  {
    var t := Next(s, l);
    assert forall x :: t.P(x) == s.P(x);
    if !s.q.shutdown {
      forall n | n in t.index ensures Covered(t, n, t.index[n]) {
        assert Covered(s, n, s.index[n]);
      }
    }
  }

  lemma {:induction false} RunDelivery(s: Sys, ls: seq<Label>)
    requires Initial(s)
    ensures Delivery(Run(s, ls))
  {
    hide Next;
    if ls != [] {
      RunDelivery(s, ls[..|ls|-1]);
      StepKeepsDelivery(Run(s, ls[..|ls|-1]), ls[|ls|-1]);
    }
  }

  /** On every run, before the shutdown, a tracked process with a recorded exit that is not yet
      exited has its name about to be added, pending, in a worker's hands or on a timer, unless since it
      was last added its retries ran out or it was passed over without a pid; and when the reactor has nothing left to
      do, only those two exceptions remain. */
  lemma NoExitIsLost(s: Sys, ls: seq<Label>, n: Name)
    requires Initial(s)
    ensures var t := Run(s, ls);
            !t.q.shutdown && n in t.index && Unfinished(t.P(t.index[n])) ==>
              && (Pending(t, n, t.index[n]) || n in t.abandoned || t.index[n] in t.skipped)
              && (t.informer.Idle? && (forall l :: Internal(l) ==> Next(t, l) == t) ==>
                    n in t.abandoned || t.index[n] in t.skipped)
  {
    hide Next;
    var t := Run(s, ls);
    RunDelivery(s, ls);
    if !t.q.shutdown && n in t.index && Unfinished(t.P(t.index[n])) {
      assert Covered(t, n, t.index[n]);
      if forall l :: Internal(l) ==> Next(t, l) == t {
        RQ.RunQInv(s, ls);
        RZ.StuckIsDrained(t);
        assert !Handled(t.ws, n, t.index[n]);
      }
    }
  }

  /** An add takes both excuses away again. */
  lemma AddedIsFresh(s: Sys, n: Name, wake: nat)
    requires !s.q.shutdown
    ensures var t := AddName(s, n, wake);
            && n !in t.abandoned && (n in s.index ==> s.index[n] !in t.skipped)
            && t.abandoned + {n} == s.abandoned + {n}
  {
    hide Signal;
  }

  // ---------------------------------------------------------------- what the informer hears

  predicate Concerns(i: Informer, n: Name, o: Obj) {
    match i
    case Idle => false
    case Noting(m, p, _) => m == n && p == o
    case Recording(m, p, _) => m == n && p == o
    case Adding(m) => m == n
  }

  /** The informer is done with n: it adds it, or sees that the process has exited already. */
  predicate Settles(s: Sys, l: Label, n: Name, o: Obj) {
    || (l.InformerAdds? && s.informer == Adding(n))
    || (l.CheckExited? && s.informer.Noting? && s.informer.o == o && s.P(o).state.Exited())
  }

  /** A terminal Service signal of a tracked unit, or an exit signal of it, is taken up. */
  lemma HearsIt(s: Sys, n: Name, props: ServiceProps)
    requires s.informer.Idle? && n in s.index
    ensures Concerns(Next(s, HearUnit(n)).informer, n, s.index[n])
    ensures ServiceExitState(props).Some? ==>
              Next(s, HearService(n, props)).informer == Noting(n, s.index[n], ServiceExitState(props))
  {
  }

  lemma ConcernStays(s: Sys, l: Label, n: Name, o: Obj)
    requires Concerns(s.informer, n, o) && !Concerns(Next(s, l).informer, n, o)
    ensures Settles(s, l, n, o)
  {
    hide WorkStep, LoadState, AddName;
    match l
    case Fire(m, wake) => AddKeepsTracked(s.(timers := s.timers - multiset{m}), m, wake);
    case InformerAdds(wake) => if s.informer.Adding? { AddKeepsTracked(s, s.informer.n, wake); }
    case Resync(m, wake) => AddKeepsTracked(s, m, wake);
    case Work(w, c) => if w < |s.ws| { WorkKeepsInformer(s, w, c); }
    case _ =>
  }

  lemma WorkKeepsInformer(s: Sys, w: nat, c: Choice)
    requires w < |s.ws|
    ensures WorkStep(s, w, c).informer == s.informer
  {
    hide ReconcilePc, ReconcileProcs, Signal;
  }

  /** However the rest of the reactor is scheduled meanwhile, what the informer has taken up it either
      adds or finds exited already. */
  lemma {:induction false} HeardIsSettled(s: Sys, ls: seq<Label>, n: Name, o: Obj)
    requires Concerns(s.informer, n, o) && !Concerns(Run(s, ls).informer, n, o)
    ensures exists k :: 0 <= k < |ls| && Settles(Run(s, ls[..k]), ls[k], n, o)
  {
    hide Next, Concerns, Settles;
    var k := |ls| - 1;
    if Concerns(Run(s, ls[..k]).informer, n, o) {
      ConcernStays(Run(s, ls[..k]), ls[k], n, o);
    } else {
      HeardIsSettled(s, ls[..k], n, o);
      var j :| 0 <= j < k && Settles(Run(s, ls[..k][..j]), ls[..k][j], n, o);
      assert ls[..k][..j] == ls[..j];
    }
  }

  /** A heard exit is on record before the name is added: one at least as late, if the process was not seen
      exited. And what is added is pending. */
  lemma RecordedThenAdded(s: Sys, n: Name, o: Obj, st: PState, wake: nat)
    ensures s.informer == Noting(n, o, Some(st)) && !s.P(o).state.Exited() ==>
              Next(s, CheckExited).informer == Recording(n, o, st)
    ensures s.informer == Noting(n, o, None) && !s.P(o).state.Exited() ==> Next(s, CheckExited).informer == Adding(n)
    ensures s.informer == Recording(n, o, st) ==>
              var t := Next(s, RecordService);
              && t.informer == Adding(n) && t.P(o).state == s.P(o).state
              && t.P(o).recorded.Some? && t.P(o).recorded.value.exitedAt >= st.exitedAt
              && t.P(o).recorded in {s.P(o).recorded, Some(st)}
    ensures s.informer == Adding(n) && !s.q.shutdown ==> n in Next(s, InformerAdds(wake)).q.dirty
    ensures s.informer.Idle? && !s.q.shutdown ==> n in Next(s, Resync(n, wake)).q.dirty
  {
    hide Signal;
  }

  // ---------------------------------------------------------------- one reconcile, undisturbed

  /** What reconcileUnit makes of a tracked process, with nobody else acting on it: the process and
      whether the reconcile succeeded. */
  function ReconcileUnit(p: Proc, c: Choice): (Proc, bool) {
    if p.state.Exited() then (p, true)
    else
      var loaded := LoadState(p, c);
      if loaded.None? then (p, false)
      else
        var q := loaded.value;
        if q.state.Exited() || q.state.pid == 0 then (q, true)
        else if q.recorded.Some? then (ApplyState(q, q.recorded.value).0, true)
        else if c.fallback.Some? then (ApplyState(q, c.fallback.value).0, true)
        else (q, false)
  }

  /** Let worker w run on to the end of its reconcile. */
  function Through(s: Sys, w: nat, c: Choice): Sys
    requires w < |s.ws|
    decreases if w < |s.ws| then s.ws[w].Stage() else 0
  {
    if s.ws[w].Reconciles() && !s.ws[w].Returned? then Through(WorkStep(s, w, c), w, c) else s
  }

  /** The worker's single steps, when nothing comes between them, add up to the reference reconcile; an
      untracked name is nothing to do. */
  lemma StepsAreReconcile(s: Sys, w: nat, c: Choice, n: Name)
    requires w < |s.ws| && s.ws[w] == Lookup(n) && !c.late && (n in s.index ==> s.index[n] in s.procs)
    ensures var t := Through(s, w, c);
            if n !in s.index then t.ws == s.ws[w := Returned(n, true)] && t.procs == s.procs
            else var o := s.index[n];
              && t.ws == s.ws[w := Returned(n, ReconcileUnit(s.procs[o], c).1)]
              && t.procs == s.procs[o := ReconcileUnit(s.procs[o], c).0]
  {
    hide ReconcileUnit;
    var s1 := WorkStep(s, w, c);
    assert Through(s, w, c) == Through(s1, w, c);
    if n in s.index {
      CheckOn(s1, w, c, n, s.index[n]);
    }
  }

  lemma CheckOn(s: Sys, w: nat, c: Choice, n: Name, o: Obj)
    requires w < |s.ws| && s.ws[w] == Check(n, o) && o in s.procs && !c.late
    ensures var t := Through(s, w, c);
            && t.ws == s.ws[w := Returned(n, ReconcileUnit(s.procs[o], c).1)]
            && t.procs == s.procs[o := ReconcileUnit(s.procs[o], c).0]
  {
    hide ApplyState, LoadState, Signal;
    var s1 := WorkStep(s, w, c);
    assert Through(s, w, c) == Through(s1, w, c);
    if s1.ws[w].Load? {
      var s2 := WorkStep(s1, w, c);
      assert Through(s1, w, c) == Through(s2, w, c);
      if s2.ws[w].Consult? {
        ConsultOn(s2, w, c, n, o);
      }
    }
  }

  lemma ConsultOn(s: Sys, w: nat, c: Choice, n: Name, o: Obj)
    requires w < |s.ws| && s.ws[w] == Consult(n, o) && o in s.procs && !c.late
    ensures var t, q := Through(s, w, c), s.procs[o];
            if q.state.Exited() || q.state.pid == 0 then t.ws == s.ws[w := Returned(n, true)] && t.procs == s.procs
            else if q.recorded.None? && c.fallback.None? then t.ws == s.ws[w := Returned(n, false)] && t.procs == s.procs
            else && t.ws == s.ws[w := Returned(n, true)]
                 && t.procs == s.procs[o := ApplyState(q, if q.recorded.Some? then q.recorded.value else c.fallback.value).0]
  {
    hide ApplyState, LoadState, Signal;
    var s1 := WorkStep(s, w, c);
    assert Through(s, w, c) == Through(s1, w, c);
    if s1.ws[w].Consume? {
      var s2 := WorkStep(s1, w, c);
      assert Through(s1, w, c) == Through(s2, w, c);
      if s2.ws[w].Apply? {
        var s3 := WorkStep(s2, w, c);
        assert Through(s2, w, c) == Through(s3, w, c) == s3;
      }
    }
  }

  /** A reconcile that succeeds on a process with a recorded exit leaves it exited, except when it
      still has no pid after loading its state and that state is not terminal either. */
  lemma ReconcileConsumes(p: Proc, c: Choice)
    requires p.recorded.Some? && p.recorded.value.Exited() && ReconcileUnit(p, c).1
    ensures ReconcileUnit(p, c).0.state.Exited() <==>
            p.state.Exited() || LoadState(p, c).value.state.Exited() || LoadState(p, c).value.state.pid > 0
  {
    hide ApplyState, LoadState;
    LoadKeepsRecord(p, c);
    if !p.state.Exited() {
      var q := LoadState(p, c).value;
      MergeKeepsRecord(q, p.recorded.value);
    }
  }

  /** q ended with the code of this observation, and its time if it has one. */
  predicate EndedWith(q: Proc, obs: PState) {
    q.phase.Exited? && q.state.exitCode == obs.exitCode && (obs.exitedAt > 0 ==> q.state.exitedAt == obs.exitedAt)
  }

  /** q goes on, knowing the pid of the observation if it knew none. */
  predicate GoesOn(p: Proc, q: Proc, pid: uint32) {
    q.phase == p.phase && !q.state.Exited() && q.state.exitCode == 0
    && q.state.pid == if p.state.pid > 0 then p.state.pid else pid
  }

  lemma MergeDecides(p: Proc, obs: PState)
    requires Consistent(p) && !p.phase.Terminal()
    ensures var q := ApplyState(p, obs).0;
            && Consistent(q) && q.recorded == p.recorded
            && if obs.Exited() then EndedWith(q, obs) else GoesOn(p, q, obs.pid)
  {
  }

  /** What loading makes of a process that is not over. The exit file comes first: a terminal one ends it with
      its code, any other leaves it going. Without one, an init process with a pid is read from systemd, and
      only there can loading fail. */
  lemma LoadDecides(p: Proc, c: Choice)
    requires Consistent(p) && !p.phase.Terminal()
    ensures var r := LoadState(p, c);
            && (r.None? <==> c.file.None? && p.state.pid > 0 && c.unit.ReadError?)
            && (r.Some? ==> Consistent(r.value) && r.value.recorded == p.recorded)
            && (if c.file.Some? then
                  if c.file.value.Exited() then EndedWith(r.value, c.file.value) else GoesOn(p, r.value, c.file.value.pid)
                else if p.state.pid == 0 || c.unit.NotAsked? then r == Some(p)
                else if c.unit.ReadError? then r.None?
                else if c.unit.obs.Exited() then EndedWith(r.value, c.unit.obs)
                else GoesOn(p, r.value, 0))
  {
    hide ApplyState, Consistent;
    if c.file.Some? {
      var st := c.file.value;
      var seen := if st.pid > 0 && st.status == Unset && !c.unit.NotAsked? then st.(status := StRunning) else st;
      assert seen.Exited() == st.Exited();
      MergeDecides(p, seen);
    } else if c.unit.Read? {
      MergeDecides(p, c.unit.obs);
    }
  }

  /** A file without a status, written for a process that merely has a pid, says that an init process runs. */
  lemma BareFileMeansRunning(p: Proc, c: Choice)
    requires Consistent(p) && p.phase.Running? && c.file.Some? && c.file.value.pid > 0 && !c.file.value.Exited()
    ensures LoadState(p, c).value.state.status ==
            if c.file.value.status != Unset then c.file.value.status
            else if c.unit.NotAsked? then p.state.status else StRunning
  {
  }

  /** What a reconcile makes of a process that is not over, whatever it finds. The first terminal source
      ends it, with its code: the exit file, the unit, and, once a pid is known, the recorded exit or the
      fallback. It fails exactly if systemd was needed and could not be read. */
  lemma ReconcileDecides(p: Proc, c: Choice)
    requires Consistent(p) && !p.phase.Terminal() && (p.recorded.Some? ==> p.recorded.value.Exited())
    ensures var (q, ok) := ReconcileUnit(p, c);
            var asked := c.file.None? && p.state.pid > 0 && !c.unit.NotAsked?;
            var pid := if p.state.pid > 0 then p.state.pid else if c.file.Some? then c.file.value.pid else 0;
            && q.recorded == p.recorded
            && if c.file.Some? && c.file.value.Exited() then ok && EndedWith(q, c.file.value)
               else if asked && c.unit.ReadError? then !ok && q == p
               else if asked && c.unit.obs.Exited() then ok && EndedWith(q, c.unit.obs)
               else if pid == 0 then ok && GoesOn(p, q, 0)
               else if p.recorded.Some? then ok && EndedWith(q, p.recorded.value)
               else if c.fallback.Some? then
                 ok && if c.fallback.value.Exited() then EndedWith(q, c.fallback.value) else GoesOn(p, q, pid)
               else !ok && GoesOn(p, q, pid)
  {
    hide ApplyState, LoadState;
    LoadDecides(p, c);
    if LoadState(p, c).Some? {
      var q := LoadState(p, c).value;
      if !q.phase.Terminal() {
        if q.recorded.Some? { MergeDecides(q, q.recorded.value); }
        if c.fallback.Some? { MergeDecides(q, c.fallback.value); }
      }
    }
  }

  const U: Name := "u"
  const EXIT := PState(5, 0, 7, StExited)
  const SILENT := Choice(None, NotAsked, None, false, 0)
  const PAIR := Sys(FRESH, [Awake], multiset{}, Idle, map[], map[], {}, {})
  const NOTED := PAIR.(index := map[U := 0], procs := map[0 := NEW.(recorded := Some(EXIT))])

  lemma Extend(s: Sys, ls: seq<Label>, l: Label)
    ensures Run(s, ls + [l]) == Next(Run(s, ls), l)
  {
    assert (ls + [l])[..|ls|] == ls;
  }

  const PROPS := ServiceProps(Some(7), Some(0), Some(1), Some(5))

  lemma HeardEarly() returns (ls: seq<Label>)
    ensures Run(PAIR, ls) == PAIR.(index := map[U := 0], procs := map[0 := NEW], informer := Noting(U, 0, Some(EXIT)))
  {
    hide Next;
    ls := [];
    Extend(PAIR, ls, Track(U, 0));
    TrackFirst();
    ls := ls + [Track(U, 0)];
    Extend(PAIR, ls, HearService(U, PROPS));
    HearFirst();
    ls := ls + [HearService(U, PROPS)];
  }

  lemma TrackFirst()
    ensures Next(PAIR, Track(U, 0)) == PAIR.(index := map[U := 0], procs := map[0 := NEW])
  {
  }

  lemma HearFirst()
    ensures var s := PAIR.(index := map[U := 0], procs := map[0 := NEW]);
            Next(s, HearService(U, PROPS)) == s.(informer := Noting(U, 0, Some(EXIT)))
  {
    assert ServiceExitState(PROPS) == Some(EXIT);
  }

  /** The informer records an exit for a process whose pid is not known yet. */
  lemma NotedEarly() returns (ls: seq<Label>)
    ensures Run(PAIR, ls) == NOTED.(q := FRESH.(queue := [U], dirty := {U}))
  {
    ls := HeardEarly();
    Extend(PAIR, ls, CheckExited);
    ls := ls + [CheckExited];
    assert Run(PAIR, ls) == PAIR.(index := map[U := 0], procs := map[0 := NEW], informer := Recording(U, 0, EXIT));
    Extend(PAIR, ls, RecordService);
    ls := ls + [RecordService];
    assert Run(PAIR, ls) == NOTED.(informer := Adding(U));
    Extend(PAIR, ls, InformerAdds(0));
    ls := ls + [InformerAdds(0)];
  }

  /** The worker goes through reconcileUnit without finding file or pid... */
  lemma Loaded(ls: seq<Label>) returns (more: seq<Label>)
    requires Run(PAIR, ls) == NOTED.(q := FRESH.(queue := [U], dirty := {U}))
    ensures Run(PAIR, more) == NOTED.(q := FRESH.(processing := {U}), ws := [Consult(U, 0)])
  {
    hide WorkStep, LoadState;
    var w := Work(0, SILENT);
    var s0, s1 := NOTED.(q := FRESH.(queue := [U], dirty := {U})), NOTED.(q := FRESH.(processing := {U}));
    assert WorkStep(s0, 0, SILENT) == s1.(ws := [Lookup(U)]) by { TakesIt(); }
    Extend(PAIR, ls, w);
    more := ls + [w];
    assert WorkStep(s1.(ws := [Lookup(U)]), 0, SILENT) == s1.(ws := [Check(U, 0)]) by { LooksUp(); }
    Extend(PAIR, more, w);
    more := more + [w];
    assert WorkStep(s1.(ws := [Check(U, 0)]), 0, SILENT) == s1.(ws := [Load(U, 0)]) by { LooksUp(); }
    Extend(PAIR, more, w);
    more := more + [w];
    assert WorkStep(s1.(ws := [Load(U, 0)]), 0, SILENT) == s1.(ws := [Consult(U, 0)]) by { LoadsNothing(); }
    Extend(PAIR, more, w);
    more := more + [w];
  }

  lemma TakesIt()
    ensures WorkStep(NOTED.(q := FRESH.(queue := [U], dirty := {U})), 0, SILENT)
            == NOTED.(q := FRESH.(processing := {U}), ws := [Lookup(U)])
  {
  }

  lemma LooksUp()
    ensures var s := NOTED.(q := FRESH.(processing := {U}));
            && WorkStep(s.(ws := [Lookup(U)]), 0, SILENT) == s.(ws := [Check(U, 0)])
            && WorkStep(s.(ws := [Check(U, 0)]), 0, SILENT) == s.(ws := [Load(U, 0)])
  {
    hide LoadState;
  }

  lemma LoadsNothing()
    ensures var s := NOTED.(q := FRESH.(processing := {U}));
            WorkStep(s.(ws := [Load(U, 0)]), 0, SILENT) == s.(ws := [Consult(U, 0)])
  {
    var s := NOTED.(q := FRESH.(processing := {U}));
    assert s.procs[0 := s.P(0)] == s.procs;
  }

  /** ...and so passes the process over... */
  lemma PassedOver(ls: seq<Label>) returns (more: seq<Label>)
    requires Run(PAIR, ls) == NOTED.(q := FRESH.(processing := {U}), ws := [Consult(U, 0)])
    ensures Run(PAIR, more) == NOTED.(q := FRESH.(processing := {U}), ws := [Returned(U, true)], skipped := {0})
  {
    Extend(PAIR, ls, Work(0, SILENT));
    more := ls + [Work(0, SILENT)];
  }

  /** ...forgets the name and parks. */
  lemma DoneWithIt(ls: seq<Label>) returns (more: seq<Label>)
    requires Run(PAIR, ls) == NOTED.(q := FRESH.(processing := {U}), ws := [Returned(U, true)], skipped := {0})
    ensures Run(PAIR, more) == NOTED.(ws := [Parked], skipped := {0})
  {
    var w := Work(0, SILENT);
    hide ReconcilePc, ReconcileProcs;
    more := ls;
    Extend(PAIR, more, w);
    more := more + [w];
    assert Run(PAIR, more) == NOTED.(ws := [PostDone(U, true)], skipped := {0});
    Extend(PAIR, more, w);
    more := more + [w];
    assert Run(PAIR, more) == NOTED.(ws := [Awake], skipped := {0});
    Extend(PAIR, more, w);
    more := more + [w];
  }

  /** Such a skip does happen: a signal recorded before the pid is known, and a reconcile that finds
      neither file nor pid, leave the exit recorded and unapplied with nothing outstanding, although
      no retry ran out. */
  lemma SkippedExit() returns (ls: seq<Label>)
    ensures Initial(PAIR)
    ensures var t := Run(PAIR, ls);
            && U in t.index && Unfinished(t.P(t.index[U])) && t.informer.Idle?
            && !Pending(t, U, t.index[U]) && U !in t.abandoned && !t.q.shutdown
  {
    ls := NotedEarly();
    ls := Loaded(ls);
    ls := PassedOver(ls);
    ls := DoneWithIt(ls);
  }
}
