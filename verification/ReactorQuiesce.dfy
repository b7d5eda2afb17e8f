/** Bounded retries and quiescence: once nothing adds names from outside, the reactor takes only
    finitely many more steps on every schedule, and where it stops everything is drained. */
module ReactorQuiesce {
  import opened Basics
  import opened WorkQueue
  import opened Reactor
  import opened ReactorQueue

  // ---------------------------------------------------------------- bounded retries

  ghost predicate WorkerHas(ws: seq<Pc>, n: Name) {
    exists i :: 0 <= i < |ws| && ws[i].Holds(n)
  }

  /** Work for n is outstanding: it is pending, on a timer, or in a worker's hands. */
  ghost predicate Active(s: Sys, n: Name) {
    n in s.q.dirty || n in s.timers || WorkerHas(s.ws, n)
  }

  /** The retry counts never exceed the cap, and before the shutdown a count is only kept for a name
      with work outstanding. */
  ghost predicate Retries(s: Sys) {
    forall n :: s.q.failures[n] <= MAX_RETRIES && (!s.q.shutdown && s.q.failures[n] > 0 ==> Active(s, n))
  }

  lemma WorkerHasUpdate(ws: seq<Pc>, w: nat, pc: Pc, n: Name)
    requires w < |ws|
    ensures WorkerHas(ws[w := pc], n) ==> WorkerHas(ws, n) || pc.Holds(n)
    ensures WorkerHas(ws, n) && !ws[w].Holds(n) ==> WorkerHas(ws[w := pc], n)
    ensures pc.Holds(n) ==> WorkerHas(ws[w := pc], n)
  {
    var v := ws[w := pc];
    if WorkerHas(v, n) {
      var i :| 0 <= i < |v| && v[i].Holds(n);
      assert i != w ==> ws[i].Holds(n);
    }
    if WorkerHas(ws, n) && !ws[w].Holds(n) {
      var i :| 0 <= i < |ws| && ws[i].Holds(n);
      assert v[i].Holds(n);
    }
    if pc.Holds(n) { assert v[w].Holds(n); }
  }

  lemma WorkerHasSame(ws: seq<Pc>, v: seq<Pc>, n: Name)
    requires |v| == |ws| && forall i :: 0 <= i < |ws| ==> v[i] == ws[i] || (ws[i].Parked? && v[i].Awake?)
    ensures WorkerHas(v, n) <==> WorkerHas(ws, n)
  {
    if WorkerHas(ws, n) {
      var i :| 0 <= i < |ws| && ws[i].Holds(n);
      assert v[i].Holds(n);
    }
  }

  /** What worker w lets go of it has either forgotten or passed to a timer. */
  lemma WorkKeepsActive(s: Sys, w: nat, c: Choice, n: Name)
    requires QInv(s) && w < |s.ws| && Active(s, n)
    ensures var t := WorkStep(s, w, c); Active(t, n) || t.q.failures[n] == 0
  {
    hide ReconcilePc, ReconcileProcs, Signal, OneWorkerEach, WorkGetsTaken;
    var pc, t := s.ws[w], WorkStep(s, w, c);
    if pc.Returned? {
      var ws := s.ws[w := PostDone(pc.n, pc.ok)];
      WorkerHasUpdate(s.ws, w, PostDone(pc.n, pc.ok), n);
      SignalSpec(ws, c.wake);
      WorkerHasSame(ws, t.ws, n);
    } else {
      WorkerHasUpdate(s.ws, w, t.ws[w], n);
    }
  }

  lemma AddKeepsRetries(s: Sys, n: Name, wake: nat)
    requires Retries(s) || (!s.q.shutdown && Retries(s.(timers := s.timers + multiset{n})))
    ensures Retries(AddName(s, n, wake))
  {
    hide Signal;
    SignalSpec(s.ws, wake);
    var t := AddName(s, n, wake);
    forall m ensures WorkerHas(t.ws, m) <==> WorkerHas(s.ws, m) {
      WorkerHasSame(s.ws, Signal(s.ws, wake), m);
    }
  }

  lemma StepKeepsRetries(s: Sys, l: Label)
    requires QInv(s) && Retries(s)
    ensures Retries(Next(s, l))
  {
    match l
    case Work(w, c) =>
      hide WorkStep;
      if w < |s.ws| {
        var t := WorkStep(s, w, c);
        forall m ensures t.q.failures[m] <= MAX_RETRIES && (!t.q.shutdown && t.q.failures[m] > 0 ==> Active(t, m)) {
          WorkKeepsRetries(s, w, c, m);
        }
      }
    case Fire(n, wake) =>
      hide AddName, Retries;
      if n in s.timers {
        FireKeepsRetries(s, n, wake);
      }
    case InformerAdds(wake) =>
      hide AddName, WorkerHas;
      if s.informer.Adding? { AddKeepsRetries(s, s.informer.n, wake); }
    case Resync(n, wake) =>
      hide AddName;
      AddKeepsRetries(s, n, wake);
    case _ => RestKeepsRetries(s, l);
  }

  lemma FireKeepsRetries(s: Sys, n: Name, wake: nat)
    requires Retries(s) && n in s.timers
    ensures Retries(AddName(s.(timers := s.timers - multiset{n}), n, wake))
  {
    hide AddName;
    var b := s.(timers := s.timers - multiset{n});
    assert b.(timers := b.timers + multiset{n}) == s;
    AddKeepsRetries(b, n, wake);
  }

  lemma RestKeepsRetries(s: Sys, l: Label)
    requires Retries(s) && !l.Work? && !l.Fire? && !AddsFromOutside(l)
    ensures Retries(Next(s, l))
  {
    hide WorkStep, AddName, WorkerHas;
  }

  lemma WorkKeepsRetries(s: Sys, w: nat, c: Choice, m: Name)
    requires QInv(s) && Retries(s) && w < |s.ws|
    ensures var t := WorkStep(s, w, c);
            t.q.failures[m] <= MAX_RETRIES && (!t.q.shutdown && t.q.failures[m] > 0 ==> Active(t, m))
  {
    hide ReconcilePc, ReconcileProcs, Signal, QInv;
    var pc, t := s.ws[w], WorkStep(s, w, c);
    if Active(s, m) {
      WorkKeepsActive(s, w, c, m);
    } else if pc.Named() {
      assert !pc.Holds(m);
    }
  }

  lemma {:induction false} RunRetries(s: Sys, ls: seq<Label>)
    requires Initial(s)
    ensures Retries(Run(s, ls))
  {
    if ls != [] {
      RunQInv(s, ls[..|ls|-1]);
      RunRetries(s, ls[..|ls|-1]);
      StepKeepsRetries(Run(s, ls[..|ls|-1]), ls[|ls|-1]);
    }
  }

  // What becomes of a failed reconcile.

  predicate FailedAt(s: Sys, l: Label, n: Name) {
    l.Work? && l.w < |s.ws| && s.ws[l.w] == PostDone(n, false)
  }

  predicate Grants(s: Sys, l: Label, n: Name) {
    FailedAt(s, l, n) && Next(s, l).ws[l.w] == Scheduling(n)
  }

  predicate GivesUp(s: Sys, l: Label, n: Name) {
    FailedAt(s, l, n) && Next(s, l).ws[l.w] == Exhausted(n)
  }

  /** The worker is done with n for now: it was reconciled, or it has been given up on. */
  predicate Clears(s: Sys, l: Label, n: Name) {
    l.Work? && l.w < |s.ws| && (s.ws[l.w] == PostDone(n, true) || s.ws[l.w] == Exhausted(n))
  }

  /** How many retries of n were granted since a worker was last done with it. */
  function RetriesSince(s: Sys, ls: seq<Label>, n: Name): nat {
    if ls == [] then 0
    else
      var init, l := ls[..|ls|-1], ls[|ls|-1];
      if Grants(Run(s, init), l, n) then RetriesSince(s, init, n) + 1
      else if Clears(Run(s, init), l, n) then 0
      else RetriesSince(s, init, n)
  }

  lemma WorkCounts(s: Sys, w: nat, c: Choice, n: Name)
    requires w < |s.ws|
    ensures var t := WorkStep(s, w, c);
            && t.q.failures[n] ==
               (if s.ws[w] == PostDone(n, false) && t.ws[w] == Scheduling(n) then s.q.failures[n] + 1
                else if s.ws[w] == PostDone(n, true) || s.ws[w] == Exhausted(n) then 0 else s.q.failures[n])
            && (s.ws[w] == PostDone(n, false) ==>
                  t.ws[w] == if s.q.shutdown || s.q.failures[n] >= 5 then Exhausted(n) else Scheduling(n))
  {
    hide ReconcilePc, ReconcileProcs, Signal, LoadState;
  }

  lemma CountAfter(s: Sys, l: Label, n: Name)
    ensures Next(s, l).q.failures[n] ==
            if Grants(s, l, n) then s.q.failures[n] + 1 else if Clears(s, l, n) then 0 else s.q.failures[n]
    ensures FailedAt(s, l, n) ==>
              && (Grants(s, l, n) <==> !s.q.shutdown && s.q.failures[n] < 5)
              && (GivesUp(s, l, n) <==> s.q.shutdown || s.q.failures[n] >= 5)
  {
    hide WorkStep, Signal, LoadState;
    if l.Work? && l.w < |s.ws| {
      WorkCounts(s, l.w, l.c, n);
    }
  }

  lemma {:induction false} RetriesAreCounted(s: Sys, ls: seq<Label>, n: Name)
    requires Initial(s)
    ensures Run(s, ls).q.failures[n] == RetriesSince(s, ls, n)
  {
    hide Next, Grants, Clears;
    if ls != [] {
      RetriesAreCounted(s, ls[..|ls|-1], n);
      CountAfter(Run(s, ls[..|ls|-1]), ls[|ls|-1], n);
    }
  }

  /** On every run a failed reconcile is retried exactly if the reactor is not shut down and fewer than five
      retries of the name were granted since a worker was last done with it; else it is given up on. */
  lemma RetriedUpToTheCap(s: Sys, ls: seq<Label>, l: Label, n: Name)
    requires Initial(s) && FailedAt(Run(s, ls), l, n)
    ensures var t := Run(s, ls);
            && RetriesSince(s, ls, n) <= 5
            && (Grants(t, l, n) <==> !t.q.shutdown && RetriesSince(s, ls, n) < 5)
            && (GivesUp(t, l, n) <==> t.q.shutdown || RetriesSince(s, ls, n) == 5)
  {
    hide Next, Grants, GivesUp, FailedAt;
    RetriesAreCounted(s, ls, n);
    RunRetries(s, ls);
    CountAfter(Run(s, ls), l, n);
  }

  ghost predicate BeingAbandoned(s: Sys, n: Name) {
    n in s.abandoned || exists w :: 0 <= w < |s.ws| && s.ws[w] == Exhausted(n)
  }

  lemma OnlyGivingUpAbandons(s: Sys, l: Label, n: Name)
    requires !BeingAbandoned(s, n) && BeingAbandoned(Next(s, l), n)
    ensures GivesUp(s, l, n)
  {
    hide Next, GivesUp;
    var t := Next(s, l);
    WorkersStay(s, l);
    AbandonedStep(s, l, n);
    if n !in t.abandoned {
      var w :| 0 <= w < |t.ws| && t.ws[w] == Exhausted(n);
      ExhaustedStep(s, l, w, n);
    }
  }

  lemma AbandonedStep(s: Sys, l: Label, n: Name)
    ensures n in Next(s, l).abandoned ==> BeingAbandoned(s, n)
  {
    hide ReconcilePc, ReconcileProcs, Signal, LoadState;
  }

  lemma ExhaustedStep(s: Sys, l: Label, w: nat, n: Name)
    requires w < |s.ws| == |Next(s, l).ws| && s.ws[w] != Exhausted(n) && Next(s, l).ws[w] == Exhausted(n)
    ensures GivesUp(s, l, n)
  {
    hide LoadState, WorkStep, AddName;
    match l
    case Work(v, c) => if v < |s.ws| { WorkExhausts(s, v, c, w, n); }
    case Fire(m, wake) => AddWakes(s.(timers := s.timers - multiset{m}), m, wake);
    case InformerAdds(wake) => if s.informer.Adding? { AddWakes(s, s.informer.n, wake); }
    case Resync(m, wake) => AddWakes(s, m, wake);
    case _ =>
  }

  lemma AddWakes(s: Sys, n: Name, wake: nat)
    ensures var t := AddName(s, n, wake);
            |t.ws| == |s.ws| && forall i :: 0 <= i < |s.ws| ==> t.ws[i] == s.ws[i] || t.ws[i] == Awake
  {
    hide Signal;
    SignalSpec(s.ws, wake);
  }

  lemma WorkExhausts(s: Sys, v: nat, c: Choice, w: nat, n: Name)
    requires v < |s.ws| && w < |s.ws| == |WorkStep(s, v, c).ws|
    requires s.ws[w] != Exhausted(n) && WorkStep(s, v, c).ws[w] == Exhausted(n)
    ensures w == v && s.ws[v] == PostDone(n, false)
  {
    hide ReconcilePc, ReconcileProcs, Signal;
    var pc := s.ws[v];
    if pc.Returned? {
      SignalSpec(s.ws[v := PostDone(pc.n, pc.ok)], c.wake);
    }
  }

  /** So a name is given up on, on any run, only when a reconcile of it failed after the shutdown or after
      five retries in a row. */
  lemma {:induction false} AbandonedAfterRetries(s: Sys, ls: seq<Label>, n: Name)
    requires Initial(s) && BeingAbandoned(Run(s, ls), n)
    ensures exists k :: 0 <= k < |ls| && GivesUp(Run(s, ls[..k]), ls[k], n)
              && (Run(s, ls[..k]).q.shutdown || RetriesSince(s, ls[..k], n) == 5)
  {
    hide Next, GivesUp, BeingAbandoned, RetriesSince;
    assert !BeingAbandoned(s, n) by { FreshAbandonsNothing(s, n); }
    var k := |ls| - 1;
    if BeingAbandoned(Run(s, ls[..k]), n) {
      AbandonedAfterRetries(s, ls[..k], n);
      var j :| 0 <= j < k && GivesUp(Run(s, ls[..k][..j]), ls[..k][j], n)
               && (Run(s, ls[..k][..j]).q.shutdown || RetriesSince(s, ls[..k][..j], n) == 5);
      assert ls[..k][..j] == ls[..j];
    } else {
      OnlyGivingUpAbandons(Run(s, ls[..k]), ls[k], n);
      GivingUpIsFailing(Run(s, ls[..k]), ls[k], n);
      RetriedUpToTheCap(s, ls[..k], ls[k], n);
    }
  }

  lemma FreshAbandonsNothing(s: Sys, n: Name)
    requires Initial(s)
    ensures !BeingAbandoned(s, n)
  {
  }

  lemma GivingUpIsFailing(s: Sys, l: Label, n: Name)
    requires GivesUp(s, l, n)
    ensures FailedAt(s, l, n)
  {
  }

  // ---------------------------------------------------------------- the measure

  /** Pieces of outstanding work: running timers, pending names, names in workers' hands. */
  function Tokens(s: Sys): nat {
    |s.timers| + |s.q.dirty| + Sum(s.ws, Names)
  }

  function Outstanding(s: Sys): nat {
    Tokens(s) + if s.q.shutdown then 0 else 1
  }

  function RetriesLeft(s: Sys): int {
    if s.q.shutdown then 0 else MAX_RETRIES * Tokens(s) - |s.q.failures|
  }

  function Progress(s: Sys): nat {
    TIMER_STAGE * |s.timers| + DIRTY_STAGE * |s.q.dirty| + Sum(s.ws, Stages)
  }

  /** Lexicographically: less outstanding, else fewer retries left, else further along, else fewer awake. */
  ghost predicate Less(t: Sys, s: Sys) {
    || Outstanding(t) < Outstanding(s)
    || (Outstanding(t) == Outstanding(s) && RetriesLeft(t) < RetriesLeft(s))
    || (Outstanding(t) == Outstanding(s) && RetriesLeft(t) == RetriesLeft(s) && Progress(t) < Progress(s))
    || (Outstanding(t) == Outstanding(s) && RetriesLeft(t) == RetriesLeft(s) && Progress(t) == Progress(s)
        && Sum(t.ws, Awakes) < Sum(s.ws, Awakes))
  }

  lemma MoveSums(ws: seq<Pc>, w: nat, pc: Pc)
    requires w < |ws|
    ensures Sum(ws[w := pc], Names) == Sum(ws, Names) - Names(ws[w]) + Names(pc)
    ensures Sum(ws[w := pc], Stages) == Sum(ws, Stages) - Stages(ws[w]) + Stages(pc)
    ensures Sum(ws[w := pc], Awakes) == Sum(ws, Awakes) - Awakes(ws[w]) + Awakes(pc)
  {
    SumUpdate(ws, w, pc, Names);
    SumUpdate(ws, w, pc, Stages);
    SumUpdate(ws, w, pc, Awakes);
  }

  lemma GetDecreases(s: Sys, w: nat, c: Choice)
    requires QInv(s) && w < |s.ws| && s.ws[w].Awake?
    ensures Less(WorkStep(s, w, c), s)
  {
    hide Sum, WorkGetsTaken, OneWorkerEach, Signal;
    var t := WorkStep(s, w, c);
    MoveSums(s.ws, w, t.ws[w]);
    if s.q.queue != [] {
      TakenKeeps(s.q);
    }
  }

  lemma ReconcileDecreases(s: Sys, w: nat, c: Choice)
    requires w < |s.ws| && s.ws[w].Reconciles()
    ensures Less(WorkStep(s, w, c), s)
  {
    hide Sum, ReconcilePc, ReconcileProcs, Signal;
    var pc, t := s.ws[w], WorkStep(s, w, c);
    if pc.Returned? {
      MoveSums(s.ws, w, PostDone(pc.n, pc.ok));
      SignalSpec(s.ws[w := PostDone(pc.n, pc.ok)], c.wake);
    } else {
      MoveSums(s.ws, w, t.ws[w]);
    }
  }

  lemma AfterDecreases(s: Sys, w: nat, c: Choice)
    requires w < |s.ws| && s.ws[w].Named() && !s.ws[w].Reconciles()
    ensures Less(WorkStep(s, w, c), s)
  {
    if s.ws[w].PostDone? { DoneDecreases(s, w, c); } else { LastDecreases(s, w, c); }
  }

  lemma DoneDecreases(s: Sys, w: nat, c: Choice)
    requires w < |s.ws| && s.ws[w].PostDone?
    ensures Less(WorkStep(s, w, c), s)
  {
    hide Sum, ReconcilePc, ReconcileProcs, Signal;
    var pc, t := s.ws[w], WorkStep(s, w, c);
    MoveSums(s.ws, w, t.ws[w]);
    assert |Retried(s.q, pc.n).failures| == |s.q.failures| + 1;
  }

  lemma LastDecreases(s: Sys, w: nat, c: Choice)
    requires w < |s.ws| && (s.ws[w].Exhausted? || s.ws[w].Scheduling?)
    ensures Less(WorkStep(s, w, c), s)
  {
    hide Sum, ReconcilePc, ReconcileProcs, Signal;
    MoveSums(s.ws, w, WorkStep(s, w, c).ws[w]);
  }

  lemma TimerDecreases(s: Sys, n: Name, wake: nat)
    requires n in s.timers
    ensures Less(AddName(s.(timers := s.timers - multiset{n}), n, wake), s)
  {
    hide Sum, Signal;
    SignalSpec(s.ws, wake);
    assert |s.timers - multiset{n}| == |s.timers| - 1;
    assert n !in s.q.dirty ==> |s.q.dirty + {n}| == |s.q.dirty| + 1;
  }

  /** Every step the reactor takes by itself makes the measure smaller. */
  lemma InternalDecreases(s: Sys, l: Label)
    requires QInv(s) && Internal(l) && Next(s, l) != s
    ensures Less(Next(s, l), s)
  {
    hide WorkStep, AddName, Less;
    match l
    case Work(w, c) =>
      if s.ws[w].Awake? { GetDecreases(s, w, c); }
      else if s.ws[w].Reconciles() { ReconcileDecreases(s, w, c); }
      else if s.ws[w].Named() { AfterDecreases(s, w, c); }
      else { IdleStays(s, w, c); }
    case Fire(n, wake) => TimerDecreases(s, n, wake);
    case Abandon(n) => AbandonDecreases(s, n);
  }

  lemma IdleStays(s: Sys, w: nat, c: Choice)
    requires w < |s.ws| && (s.ws[w].Parked? || s.ws[w].Stopped?)
    ensures WorkStep(s, w, c) == s
  {
  }

  lemma AbandonDecreases(s: Sys, n: Name)
    requires n in s.timers
    ensures Less(s.(timers := s.timers - multiset{n}), s)
  {
    assert |s.timers - multiset{n}| == |s.timers| - 1;
  }

  // ---------------------------------------------------------------- bounds

  lemma {:induction false} MultisetBound(m: multiset<Name>, a: set<Name>, k: nat)
    requires forall x :: m[x] <= k && (m[x] > 0 ==> x in a)
    ensures |m| <= k * |a|
    decreases |a|
  {
    if a == {} {
      assert m == multiset{};
    } else {
      var x :| x in a;
      MultisetBound(m[x := 0], a - {x}, k);
      assert k * |a| == k * |a - {x}| + k;
    }
  }

  lemma {:induction false} SupportSize(m: multiset<Name>)
    ensures |set x | x in m| <= |m|
    decreases |m|
  {
    var a := set x | x in m;
    if m != multiset{} {
      var x :| x in m;
      var r := m[x := 0];
      SupportSize(r);
      assert (set y | y in r) == a - {x};
    } else {
      assert a == {};
    }
  }

  function WorkerNames(ws: seq<Pc>): set<Name> {
    if ws == [] then {} else (if ws[0].Named() then {ws[0].n} else {}) + WorkerNames(ws[1..])
  }

  lemma {:induction false} WorkerNamesSize(ws: seq<Pc>)
    ensures |WorkerNames(ws)| <= Sum(ws, Names)
    ensures forall n :: WorkerHas(ws, n) ==> n in WorkerNames(ws)
  {
    if ws != [] {
      WorkerNamesSize(ws[1..]);
      forall n | WorkerHas(ws, n) ensures n in WorkerNames(ws) {
        var i :| 0 <= i < |ws| && ws[i].Holds(n);
        assert i > 0 ==> ws[1..][i-1].Holds(n);
      }
    }
  }

  /** Every retry still counted belongs to a piece of outstanding work. */
  lemma RetriesCovered(s: Sys)
    requires Retries(s)
    ensures RetriesLeft(s) >= 0
  {
    if !s.q.shutdown {
      var pending := set n | n in s.timers;
      var names := s.q.dirty + pending + WorkerNames(s.ws);
      SupportSize(s.timers);
      WorkerNamesSize(s.ws);
      MultisetBound(s.q.failures, names, MAX_RETRIES);
      assert |names| <= Tokens(s);
    }
  }

  lemma {:induction false} SumBounds(ws: seq<Pc>)
    ensures Sum(ws, Stages) <= 14 * Sum(ws, Names)
    ensures Sum(ws, Awakes) <= |ws|
  {
    if ws != [] {
      SumBounds(ws[1..]);
    }
  }

  /** One more digit x behind the number a, in base k. */
  function Place(a: int, k: int, x: int): int {
    a * k + x
  }

  function Number(o: int, r: int, g: int, w: int, k2: int, k3: int, k4: int): int {
    Place(Place(Place(o, k2, r), k3, g), k4, w)
  }

  /** The measure as one number, for a system that never has more than `top` outstanding. */
  function Potential(s: Sys, top: nat): int {
    Number(Outstanding(s), RetriesLeft(s), Progress(s), Sum(s.ws, Awakes),
           MAX_RETRIES * top + 1, 14 * top + 1, |s.ws| + 1)
  }

  lemma OneMore(a: int, b: int, k: int)
    requires a < b && k > 0
    ensures a * k + k <= b * k
  {
    assert (b - a - 1) * k >= 0;
    assert (b - a - 1) * k == b * k - a * k - k;
  }

  lemma Digit(a: int, b: int, x: int, y: int, k: int)
    requires 0 <= x < k && 0 <= y < k && (a < b || (a == b && x < y))
    ensures Place(a, k, x) < Place(b, k, y)
  {
    if a < b {
      OneMore(a, b, k);
    }
  }

  /** Four numbers in lexicographic order, the lower three below their bases, as one number. */
  lemma Lexicographic(o: nat, r: nat, g: nat, w: nat, o': nat, r': nat, g': nat, w': nat, k2: nat, k3: nat, k4: nat)
    requires r < k2 && r' < k2 && g < k3 && g' < k3 && w < k4 && w' < k4
    requires o < o' || (o == o' && (r < r' || (r == r' && (g < g' || (g == g' && w < w')))))
    ensures Number(o, r, g, w, k2, k3, k4) < Number(o', r', g', w', k2, k3, k4)
  {
    hide Place;
    var a, a' := Place(o, k2, r), Place(o', k2, r');
    if o != o' || r != r' {
      Digit(o, o', r, r', k2);
    }
    var b, b' := Place(a, k3, g), Place(a', k3, g');
    if a != a' || g != g' {
      Digit(a, a', g, g', k3);
    }
    Digit(b, b', w, w', k4);
  }

  /** The digits of the potential stay below their bases. */
  lemma DigitsInRange(s: Sys, top: nat)
    requires Retries(s) && Outstanding(s) <= top
    ensures 0 <= RetriesLeft(s) <= MAX_RETRIES * top && Progress(s) <= 14 * top && Sum(s.ws, Awakes) <= |s.ws|
  {
    hide Sum, Retries;
    RetriesCovered(s);
    SumBounds(s.ws);
  }

  lemma LessIsSmaller(t: Sys, s: Sys, top: nat)
    requires Less(t, s) && Retries(t) && Retries(s) && |t.ws| == |s.ws|
    requires Outstanding(s) <= top && Outstanding(t) <= top
    ensures Potential(t, top) < Potential(s, top)
  {
    hide Sum, Retries, RetriesLeft, Progress, Outstanding, Number;
    DigitsInRange(t, top);
    DigitsInRange(s, top);
    Lexicographic(Outstanding(t), RetriesLeft(t), Progress(t), Sum(t.ws, Awakes),
                  Outstanding(s), RetriesLeft(s), Progress(s), Sum(s.ws, Awakes),
                  MAX_RETRIES * top + 1, 14 * top + 1, |s.ws| + 1);
  }

  // ---------------------------------------------------------------- quiescence

  predicate AddsFromOutside(l: Label) {
    l.InformerAdds? || l.Resync?
  }

  /** How many steps of the run the reactor itself took. */
  ghost function StepsTaken(s: Sys, ls: seq<Label>): nat {
    if ls == [] then 0
    else
      var before := Run(s, ls[..|ls|-1]);
      StepsTaken(s, ls[..|ls|-1]) + if Internal(ls[|ls|-1]) && Next(before, ls[|ls|-1]) != before then 1 else 0
  }

  lemma OutsideStays(s: Sys, l: Label, top: nat)
    requires QInv(s) && !AddsFromOutside(l) && !Internal(l) && !l.Halt?
    ensures Potential(Next(s, l), top) == Potential(s, top) && Outstanding(Next(s, l)) == Outstanding(s)
  {
  }

  lemma HaltLess(s: Sys)
    requires QInv(s)
    ensures Next(s, Halt) == s || Less(Next(s, Halt), s)
  {
    hide Sum;
    var v := WakeAll(s.ws);
    if s.q.shutdown {
      assert !SomeParked(s.ws);
      assert v == s.ws;
    } else {
      WakeAllSums(s.ws);
    }
  }

  lemma {:induction false} WakeAllSums(ws: seq<Pc>)
    ensures Sum(WakeAll(ws), Names) == Sum(ws, Names)
  {
    if ws != [] {
      WakeAllSums(ws[1..]);
      assert WakeAll(ws)[1..] == WakeAll(ws[1..]);
    }
  }

  lemma LessIsNoMore(t: Sys, s: Sys)
    requires Less(t, s)
    ensures Outstanding(t) <= Outstanding(s)
  {
  }

  /** Without names added from outside, the reactor takes at most Potential(s) more steps, however
      timers, workers, reconcile outcomes, other goroutines and a shutdown are scheduled. */
  lemma {:induction false} Quiesces(s: Sys, ls: seq<Label>)
    requires QInv(s) && Retries(s)
    requires forall l :: l in ls ==> !AddsFromOutside(l)
    ensures var t, top := Run(s, ls), Outstanding(s);
            && QInv(t) && Retries(t) && Outstanding(t) <= top
            && StepsTaken(s, ls) + Potential(t, top) <= Potential(s, top)
            && Potential(t, top) >= 0
  {
    hide Next, QInv, Retries, Potential, Outstanding, Less;
    var top := Outstanding(s);
    if ls == [] {
      PotentialNat(s, top);
    } else {
      var init, l := ls[..|ls|-1], ls[|ls|-1];
      assert forall x :: x in init ==> x in ls;
      Quiesces(s, init);
      var b := Run(s, init);
      var t := Next(b, l);
      StepKeepsQInv(b, l);
      StepKeepsRetries(b, l);
      WorkersStay(b, l);
      assert l in ls;
      if Internal(l) || l.Halt? {
        if t != b {
          if Internal(l) { InternalDecreases(b, l); } else { HaltLess(b); }
          LessIsNoMore(t, b);
          LessIsSmaller(t, b, top);
        }
      } else {
        OutsideStays(b, l, top);
      }
      PotentialNat(t, top);
    }
  }

  lemma PotentialNat(s: Sys, top: nat)
    requires Retries(s)
    ensures Potential(s, top) >= 0
  {
    hide Sum, Retries, RetriesLeft, Progress, Outstanding, Number;
    RetriesCovered(s);
    NatNumber(Outstanding(s), RetriesLeft(s), Progress(s), Sum(s.ws, Awakes),
              MAX_RETRIES * top + 1, 14 * top + 1, |s.ws| + 1);
  }

  lemma PlaceNat(a: nat, k: nat, x: nat)
    ensures Place(a, k, x) >= 0
  {
    assert a * k >= 0;
  }

  lemma NatNumber(o: nat, r: nat, g: nat, w: nat, k2: nat, k3: nat, k4: nat)
    ensures Number(o, r, g, w, k2, k3, k4) >= 0
  {
    hide Place;
    PlaceNat(o, k2, r);
    PlaceNat(Place(o, k2, r), k3, g);
    PlaceNat(Place(Place(o, k2, r), k3, g), k4, w);
  }

  /** Nothing is left to do: no pending, queued or reconciled name, no timer, every worker waiting or gone. */
  ghost predicate Drained(s: Sys) {
    && s.q.queue == [] && s.q.dirty == {} && s.q.processing == {} && s.timers == multiset{}
    && forall i :: 0 <= i < |s.ws| ==> s.ws[i].Parked? || s.ws[i].Stopped?
  }

  /** A reactor that cannot take another step is drained: nobody sleeps through work. */
  lemma StuckIsDrained(s: Sys)
    requires QInv(s)
    requires forall l :: Internal(l) ==> Next(s, l) == s
    ensures Drained(s)
  {
    hide Sum;
    forall n ensures n !in s.timers {
      if n in s.timers {
        TimerMoves(s, n);
      }
    }
    var c := Choice(None, NotAsked, None, false, 0);
    forall i | 0 <= i < |s.ws| ensures s.ws[i].Parked? || s.ws[i].Stopped? {
      assert Next(s, Work(i, c)) == s;
      if !s.ws[i].Parked? && !s.ws[i].Stopped? { WorkMoves(s, i, c); }
    }
    forall n ensures n !in s.q.processing {
      assert forall i :: !Busy(s.ws, i, n);
    }
    if s.q.queue != [] {
      var g :| 0 <= g < |s.ws| && !s.ws[g].Stopped?;
      assert s.ws[g].Parked?;
      NoneAwake(s.ws);
    }
    assert forall n :: n in s.q.dirty ==> n in s.q.queue;
  }

  lemma {:induction false} NoneAwake(ws: seq<Pc>)
    requires forall i :: 0 <= i < |ws| ==> !ws[i].Awake?
    ensures Sum(ws, Awakes) == 0
  {
    if ws != [] {
      NoneAwake(ws[1..]);
    }
  }

  /** The reactor as a whole: from any reachable state, once names stop coming in, it takes a bounded
      number of steps, and where it stops nothing is left and every name that was pending, including
      one added while it was being reconciled, has been handed out to a worker. */
  lemma EverythingGetsDone(s: Sys, before: seq<Label>, after: seq<Label>, n: Name)
    requires Initial(s) && forall l :: l in after ==> !AddsFromOutside(l)
    ensures var m := Run(s, before); var t := Run(m, after);
            && StepsTaken(m, after) <= Potential(m, Outstanding(m))
            && ((forall l :: Internal(l) ==> Next(t, l) == t) ==>
                  && Drained(t)
                  && (n in m.q.dirty ==> exists k :: 0 <= k < |after| && HandsOut(Run(m, after[..k]), after[k], n)))
  {
    hide Next, QInv, Retries, Potential, Outstanding, HandsOut;
    var m := Run(s, before);
    var t := Run(m, after);
    RunQInv(s, before);
    RunRetries(s, before);
    Quiesces(m, after);
    if forall l :: Internal(l) ==> Next(t, l) == t {
      StuckIsDrained(t);
      if n in m.q.dirty {
        PendingUntilHandedOut(m, after, n);
      }
    }
  }

  lemma TimerMoves(s: Sys, n: Name)
    requires n in s.timers
    ensures Next(s, Fire(n, 0)) != s
  {
    assert (s.timers - multiset{n})[n] != s.timers[n];
  }

  lemma WorkMoves(s: Sys, w: nat, c: Choice)
    requires w < |s.ws| && !s.ws[w].Parked? && !s.ws[w].Stopped?
    ensures WorkStep(s, w, c) != s
  {
    hide ReconcileProcs, Signal, ReconcilePc;
    var pc, t := s.ws[w], WorkStep(s, w, c);
    if pc.Returned? {
      SignalSpec(s.ws[w := PostDone(pc.n, pc.ok)], c.wake);
    }
    assert t.ws[w] != s.ws[w];
  }
}
