/** The registration of a container's execs (Service.Exec in create.go, Service.Delete and both Delete
    methods in delete.go): Exec registers, then checks the container's deleting flag; the container's
    Delete sets the flag, then sweeps; an exec's own Delete and a failed Start untrack it at any time. */
module ExecRegistry {
  type Id = string
  type Thread = nat

  /** An Exec call, between its atomic steps. */
  datatype Stage =
    | Listed        // added to the container's execs
    | Indexed       // added to the unit index as well
    | Creating      // saw no flag, now writing the exec's files
    | DropUnit      // saw the deleting flag, or Create failed: remove from the index...
    | DropExec      // ...and from the execs

  datatype Call = Call(e: Id, stage: Stage)

  /** An exec's own Delete: the exec was found; it is taken off the execs by itself, and again by the
      service, which then takes it off the index. */
  datatype Duty = Found | Unlisted | Unindex

  datatype Removal = Removal(e: Id, duty: Duty)

  /** The container's Delete. The sweep holds the lock of the exec list, so it visits what was listed
      when it began. */
  datatype Deleter =
    | NotYet
    | Marked
    | Sweeping(todo: set<Id>)
    | Done

  datatype Sys = Sys(execs: set<Id>, units: set<Id>, calls: map<Thread, Call>, removals: map<Thread, Removal>,
                     deleter: Deleter)

  const INITIAL := Sys({}, {}, map[], map[], NotYet)

  datatype Label =
    | List(t: Thread, e: Id)         // execs.Add; refused for an id already listed
    | Index(t: Thread)               // units.Add
    | CheckFlag(t: Thread)           // isDeleting
    | Create(t: Thread, ok: bool)    // execProcess.Create
    | RollBack(t: Thread)
    | Find(t: Thread, e: Id)         // execs.Get for the exec's own Delete
    | Remove(t: Thread, ok: bool)    // its next step; its teardown may fail
    | Untrack(e: Id)                 // a failed exec Start
    | Mark                           // markDeleting
    | BeginSweep                     // execs.Each takes the lock; runs only if the delete succeeded
    | SweepOne(e: Id)
    | EndSweep

  predicate Locked(s: Sys) {
    s.deleter.Sweeping?
  }

  predicate Deleting(s: Sys) {
    !s.deleter.NotYet?
  }

  predicate At(s: Sys, t: Thread, stage: Stage) {
    t in s.calls && s.calls[t].stage == stage
  }

  predicate CallFor(s: Sys, e: Id) {
    exists t :: t in s.calls && s.calls[t].e == e
  }

  predicate RemovalFor(s: Sys, e: Id) {
    exists t :: t in s.removals && s.removals[t].e == e
  }

  function Moved(s: Sys, t: Thread, stage: Stage): map<Thread, Call>
    requires t in s.calls
  {
    s.calls[t := s.calls[t].(stage := stage)]
  }

  /** A label whose thread is not at that point, or that has to wait for the lock, does nothing. */
  function Next(s: Sys, l: Label): Sys {
    match l
    case List(t, e) =>
      if Locked(s) || e in s.execs || t in s.calls then s
      else s.(execs := s.execs + {e}, calls := s.calls[t := Call(e, Listed)])
    case Index(t) =>
      if At(s, t, Listed) then s.(units := s.units + {s.calls[t].e}, calls := Moved(s, t, Indexed)) else s
    case CheckFlag(t) =>
      if At(s, t, Indexed) then s.(calls := Moved(s, t, if Deleting(s) then DropUnit else Creating)) else s
    case Create(t, ok) =>
      if !At(s, t, Creating) then s
      else s.(calls := if ok then s.calls - {t} else Moved(s, t, DropUnit))
    case RollBack(t) =>
      if At(s, t, DropUnit) then s.(units := s.units - {s.calls[t].e}, calls := Moved(s, t, DropExec))
      else if At(s, t, DropExec) && !Locked(s) then s.(execs := s.execs - {s.calls[t].e}, calls := s.calls - {t})
      else s
    case Find(t, e) =>
      if Locked(s) || e !in s.execs || t in s.removals then s
      else s.(removals := s.removals[t := Removal(e, Found)])
    case Remove(t, ok) => if t in s.removals then RemovalStep(s, t, ok) else s
    case Untrack(e) => s.(units := s.units - {e})
    case Mark => if s.deleter.NotYet? then s.(deleter := Marked) else s
    case BeginSweep => if s.deleter.Marked? then s.(deleter := Sweeping(s.execs)) else s
    case SweepOne(e) =>
      if s.deleter.Sweeping? && e in s.deleter.todo
      then s.(units := s.units - {e}, deleter := Sweeping(s.deleter.todo - {e})) else s
    case EndSweep => if s.deleter == Sweeping({}) then s.(deleter := Done) else s
  }

  function RemovalStep(s: Sys, t: Thread, ok: bool): Sys
    requires t in s.removals
  {
    var e := s.removals[t].e;
    match s.removals[t].duty
    case Found =>
      if !ok then s.(removals := s.removals - {t})
      else if Locked(s) then s
      else s.(execs := s.execs - {e}, removals := s.removals[t := Removal(e, Unlisted)])
    case Unlisted =>
      if Locked(s) then s else s.(execs := s.execs - {e}, removals := s.removals[t := Removal(e, Unindex)])
    case Unindex => s.(units := s.units - {e}, removals := s.removals - {t})
  }

  function RunFrom(s: Sys, ls: seq<Label>): Sys {
    if ls == [] then s else Next(RunFrom(s, ls[..|ls|-1]), ls[|ls|-1])
  }

  function Run(ls: seq<Label>): Sys {
    RunFrom(INITIAL, ls)
  }

  // ---------------------------------------------------------------- the invariant

  ghost predicate WillUnindex(s: Sys, e: Id) {
    exists t :: t in s.removals && s.removals[t].e == e && !s.removals[t].duty.Found?
  }

  ghost predicate CallAt(s: Sys, e: Id, stage: Stage) {
    exists t :: At(s, t, stage) && s.calls[t].e == e
  }

  /** Somebody other than call t may still take e off the list: another call by rolling back, or a removal. */
  ghost predicate Rival(s: Sys, t: Thread, e: Id) {
    || (exists u :: u in s.calls && u != t && s.calls[u].e == e)
    || (exists u :: u in s.removals && s.removals[u].e == e && !s.removals[u].duty.Unindex?)
  }

  /** Before the container's delete a call has listed e and not indexed it yet, and has a rival. */
  ghost predicate Endangered(s: Sys, e: Id) {
    s.deleter.NotYet? && exists t :: At(s, t, Listed) && s.calls[t].e == e && Rival(s, t, e)
  }

  ghost predicate EverEndangered(ls: seq<Label>, e: Id) {
    exists i :: 0 <= i <= |ls| && Endangered(Run(ls[..i]), e)
  }

  ghost predicate SweepWillCome(s: Sys, e: Id) {
    e in s.execs && !CallAt(s, e, DropExec)
    && (s.deleter.NotYet? || s.deleter.Marked? || (s.deleter.Sweeping? && e in s.deleter.todo))
  }

  /** An indexed exec is in the hands of a call that rolls back or, once the flag is set, will look at it,
      or of a removal, or it is listed to stay and the sweep will still come to it. */
  ghost predicate Reachable(s: Sys, e: Id) {
    e in s.units ==>
      CallAt(s, e, DropUnit) || WillUnindex(s, e) || SweepWillCome(s, e) || (Deleting(s) && CallAt(s, e, Indexed))
  }

  /** What a call has just listed is still listed until the container's delete. */
  ghost predicate ListedStays(s: Sys, e: Id) {
    s.deleter.NotYet? && CallAt(s, e, Listed) ==> e in s.execs
  }

  ghost predicate Inv(s: Sys, e: Id) {
    Reachable(s, e) && ListedStays(s, e)
  }

  lemma SweepKeeps(s: Sys, l: Label, e: Id)
    requires l.Untrack? || l.Mark? || l.BeginSweep? || l.SweepOne? || l.EndSweep?
    requires Inv(s, e)
    ensures Inv(Next(s, l), e)
  {
    var n := Next(s, l);
    assert n.calls == s.calls && n.removals == s.removals;
    assert forall g :: CallAt(n, e, g) <==> CallAt(s, e, g);
    assert WillUnindex(n, e) <==> WillUnindex(s, e);
  }

  lemma RemovalKeeps(s: Sys, l: Label, e: Id)
    requires l.Find? || l.Remove?
    requires Inv(s, e) && !Endangered(s, e)
    ensures Inv(Next(s, l), e)
  {
    var n := Next(s, l);
    assert n.calls == s.calls;
    assert forall g :: CallAt(n, e, g) <==> CallAt(s, e, g);
    if WillUnindex(s, e) {
      var t :| t in s.removals && s.removals[t].e == e && !s.removals[t].duty.Found?;
      assert t in n.removals ==> WillUnindex(n, e);
    }
    if e in s.execs && e !in n.execs {
      assert n.removals[l.t].e == e && !n.removals[l.t].duty.Found?;
      if t :| At(s, t, Listed) && s.calls[t].e == e {
        assert l.t in s.removals && s.removals[l.t].e == e && !s.removals[l.t].duty.Unindex?;
        assert Rival(s, t, e);
      }
    }
  }

  lemma ListKeeps(s: Sys, l: Label, e: Id)
    requires l.List? && Inv(s, e)
    ensures Inv(Next(s, l), e)
  {
    var n := Next(s, l);
    if n != s {
      assert forall t, g :: At(s, t, g) ==> At(n, t, g) && n.calls[t] == s.calls[t];
      assert forall t, g :: At(n, t, g) && t != l.t ==> At(s, t, g) && n.calls[t] == s.calls[t];
      assert WillUnindex(n, e) <==> WillUnindex(s, e);
      assert forall g :: CallAt(s, e, g) ==> CallAt(n, e, g);
      assert forall g :: g != Listed && CallAt(n, e, g) ==> CallAt(s, e, g);
    }
  }

  /** What call `who` does leaves the other calls where they are. */
  ghost predicate OthersStay(s: Sys, n: Sys, who: Thread) {
    forall t :: t != who ==> (t in s.calls <==> t in n.calls) && (t in s.calls ==> n.calls[t] == s.calls[t])
  }

  lemma OtherCallKeeps(s: Sys, n: Sys, who: Thread, e: Id)
    requires Inv(s, e) && OthersStay(s, n, who)
    requires n.removals == s.removals && n.deleter == s.deleter
    requires (e in n.units <==> e in s.units) && (e in n.execs <==> e in s.execs)
    requires who in s.calls && s.calls[who].e != e && (who in n.calls ==> n.calls[who].e != e)
    ensures Inv(n, e)
  {
    assert WillUnindex(n, e) <==> WillUnindex(s, e);
    assert forall g :: CallAt(n, e, g) <==> CallAt(s, e, g);
  }

  lemma IndexKeeps(s: Sys, t: Thread)
    requires At(s, t, Listed) && Inv(s, s.calls[t].e) && !Endangered(s, s.calls[t].e)
    ensures Inv(Next(s, Index(t)), s.calls[t].e)
  {
    var n, e := Next(s, Index(t)), s.calls[t].e;
    assert At(n, t, Indexed) && n.calls[t].e == e;
    assert CallAt(s, e, Listed);
    if s.deleter.NotYet? {
      assert !Rival(s, t, e);
      assert !CallAt(n, e, DropExec);
    }
    assert CallAt(n, e, Listed) ==> CallAt(s, e, Listed);
  }

  lemma CheckKeeps(s: Sys, t: Thread)
    requires At(s, t, Indexed) && Inv(s, s.calls[t].e)
    ensures Inv(Next(s, CheckFlag(t)), s.calls[t].e)
  {
    var n, e := Next(s, CheckFlag(t)), s.calls[t].e;
    assert OthersStay(s, n, t);
    assert Deleting(s) ==> At(n, t, DropUnit) && n.calls[t].e == e;
    StageKeeps(s, n, t, e);
  }

  lemma CreateKeeps(s: Sys, t: Thread, ok: bool)
    requires At(s, t, Creating) && Inv(s, s.calls[t].e)
    ensures Inv(Next(s, Create(t, ok)), s.calls[t].e)
  {
    var n, e := Next(s, Create(t, ok)), s.calls[t].e;
    assert OthersStay(s, n, t);
    StageKeeps(s, n, t, e);
  }

  /** A call past indexing that leaves, goes on creating or sets out to roll back. */
  lemma StageKeeps(s: Sys, n: Sys, t: Thread, e: Id)
    requires Inv(s, e) && OthersStay(s, n, t) && n == s.(calls := n.calls)
    requires t in s.calls && s.calls[t].e == e && (s.calls[t].stage.Indexed? || s.calls[t].stage.Creating?)
    requires t in n.calls ==> n.calls[t].e == e && (n.calls[t].stage.Creating? || n.calls[t].stage.DropUnit?)
    requires s.calls[t].stage.Indexed? && Deleting(s) ==> At(n, t, DropUnit)
    ensures Inv(n, e)
  {
    assert WillUnindex(n, e) <==> WillUnindex(s, e);
    assert CallAt(s, e, DropUnit) ==> CallAt(n, e, DropUnit);
    assert CallAt(n, e, DropExec) ==> CallAt(s, e, DropExec);
    assert CallAt(n, e, Listed) ==> CallAt(s, e, Listed);
    if Deleting(s) && CallAt(s, e, Indexed) {
      var u :| At(s, u, Indexed) && s.calls[u].e == e;
      assert CallAt(n, e, Indexed) || CallAt(n, e, DropUnit) by {
        assert u == t ==> At(n, t, DropUnit);
        assert u != t ==> At(n, u, Indexed);
      }
    }
  }

  lemma RollBackKeeps(s: Sys, t: Thread)
    requires t in s.calls && Inv(s, s.calls[t].e) && !Endangered(s, s.calls[t].e)
    ensures Inv(Next(s, RollBack(t)), s.calls[t].e)
  {
    var n, e := Next(s, RollBack(t)), s.calls[t].e;
    if n != s {
      assert OthersStay(s, n, t);
      assert WillUnindex(n, e) <==> WillUnindex(s, e);
      assert CallAt(n, e, Listed) ==> CallAt(s, e, Listed);
      if u :| At(s, u, Listed) && s.calls[u].e == e {
        assert u != t && Rival(s, u, e);
      }
      if At(s, t, DropExec) {
        assert CallAt(s, e, DropExec);
        assert CallAt(s, e, DropUnit) ==> CallAt(n, e, DropUnit);
        assert CallAt(s, e, Indexed) ==> CallAt(n, e, Indexed);
      }
    }
  }

  lemma CallKeeps(s: Sys, l: Label, e: Id)
    requires l.Index? || l.CheckFlag? || l.Create? || l.RollBack?
    requires Inv(s, e) && !Endangered(s, e)
    ensures Inv(Next(s, l), e)
  {
    hide Inv, Endangered;
    var n := Next(s, l);
    if n != s {
      if s.calls[l.t].e != e {
        OtherCallKeeps(s, n, l.t, e);
      } else {
        match l {
          case Index(t) => IndexKeeps(s, t);
          case CheckFlag(t) => CheckKeeps(s, t);
          case Create(t, ok) => CreateKeeps(s, t, ok);
          case RollBack(t) => RollBackKeeps(s, t);
        }
      }
    }
  }

  lemma StepKeepsInv(s: Sys, l: Label, e: Id)
    requires Inv(s, e) && !Endangered(s, e)
    ensures Inv(Next(s, l), e)
  {
    hide Next, Inv, Endangered;
    match l
    case List(_, _) => ListKeeps(s, l, e);
    case Find(_, _) => RemovalKeeps(s, l, e);
    case Remove(_, _) => RemovalKeeps(s, l, e);
    case Index(_) => CallKeeps(s, l, e);
    case CheckFlag(_) => CallKeeps(s, l, e);
    case Create(_, _) => CallKeeps(s, l, e);
    case RollBack(_) => CallKeeps(s, l, e);
    case _ => SweepKeeps(s, l, e);
  }

  lemma {:induction false} RunInv(ls: seq<Label>, e: Id)
    requires !EverEndangered(ls, e)
    ensures Inv(Run(ls), e)
  {
    hide Next, Endangered;
    if ls != [] {
      var init := ls[..|ls|-1];
      forall i | 0 <= i <= |init| ensures !Endangered(Run(init[..i]), e) {
        assert init[..i] == ls[..i];
      }
      assert init[..|init|] == init;
      RunInv(init, e);
      StepKeepsInv(Run(init), ls[|ls|-1], e);
    }
  }

  // ---------------------------------------------------------------- the theorems

  /** In every interleaving, once the container's delete has finished and no Exec call and no removal of
      an exec is in flight, it is not left in the unit index, unless it was endangered before the delete. */
  lemma NoExecStranded(ls: seq<Label>, e: Id)
    requires var s := Run(ls); s.deleter == Done && !CallFor(s, e) && !RemovalFor(s, e)
    ensures e in Run(ls).units ==> EverEndangered(ls, e)
  {
    if !EverEndangered(ls, e) {
      RunInv(ls, e);
      assert forall g :: CallAt(Run(ls), e, g) ==> CallFor(Run(ls), e);
    }
  }

  lemma {:induction false} DoneStays(s: Sys, ls: seq<Label>)
    requires s.deleter == Done
    ensures RunFrom(s, ls).deleter == Done
  {
    if ls != [] {
      DoneStays(s, ls[..|ls|-1]);
    }
  }

  lemma {:induction false} RunSplit(s: Sys, a: seq<Label>, b: seq<Label>)
    ensures RunFrom(s, a + b) == RunFrom(RunFrom(s, a), b)
  {
    hide Next;
    if b == [] {
      assert a + b == a;
    } else {
      assert (a + b)[..|a + b|-1] == a + b[..|b|-1];
      RunSplit(s, a, b[..|b|-1]);
    }
  }

  /** Nor does one reappear: a later Exec call rolls itself back. */
  lemma NoExecReappears(before: seq<Label>, after: seq<Label>, e: Id)
    requires Run(before).deleter == Done
    ensures var s := Run(before + after);
            e in s.units ==>
              CallAt(s, e, Indexed) || CallAt(s, e, DropUnit) || WillUnindex(s, e) || EverEndangered(before + after, e)
  {
    RunSplit(INITIAL, before, after);
    DoneStays(Run(before), after);
    if !EverEndangered(before + after, e) {
      RunInv(before + after, e);
    }
  }

  lemma ComesToTheFlag(s: Sys, t: Thread, e: Id)
    requires !Locked(s) && e !in s.execs && t !in s.calls
    ensures Next(Next(Next(s, List(t, e)), Index(t)), CheckFlag(t)) ==
            s.(execs := s.execs + {e}, units := s.units + {e},
               calls := s.calls[t := Call(e, if Deleting(s) then DropUnit else Creating)])
  {
    var n1 := Next(s, List(t, e));
    assert n1 == s.(execs := s.execs + {e}, calls := s.calls[t := Call(e, Listed)]);
    var n2 := Next(n1, Index(t));
    assert n2 == n1.(units := s.units + {e}, calls := s.calls[t := Call(e, Indexed)]);
  }

  /** An Exec call that nothing interferes with registers its exec in both places, and one that fails, or
      sees the flag, in neither. */
  lemma ExecRegisters(s: Sys, t: Thread, e: Id, ok: bool)
    requires !Locked(s) && e !in s.execs && e !in s.units && t !in s.calls
    ensures var n := Next(Next(Next(s, List(t, e)), Index(t)), CheckFlag(t));
            && (!Deleting(s) && ok ==>
                  Next(n, Create(t, ok)) == s.(execs := s.execs + {e}, units := s.units + {e}))
            && (!Deleting(s) && !ok ==> Next(Next(Next(n, Create(t, ok)), RollBack(t)), RollBack(t)) == s)
            && (Deleting(s) ==> Next(Next(n, RollBack(t)), RollBack(t)) == s)
  {
    ComesToTheFlag(s, t, e);
    RollsBack(s, t, e);
    if !Deleting(s) {
      Creates(s.(execs := s.execs + {e}, units := s.units + {e}), s.calls, t, e, ok);
    }
    hide Next;
  }

  lemma Creates(s: Sys, before: map<Thread, Call>, t: Thread, e: Id, ok: bool)
    requires s.calls == before && t !in before
    ensures var n := Next(s.(calls := before[t := Call(e, Creating)]), Create(t, ok));
            n == s.(calls := if ok then before else before[t := Call(e, DropUnit)])
  {
    assert before[t := Call(e, Creating)] - {t} == before;
  }

  lemma RollsBack(s: Sys, t: Thread, e: Id)
    requires !Locked(s) && e !in s.execs && e !in s.units && t !in s.calls
    ensures var n := s.(execs := s.execs + {e}, units := s.units + {e}, calls := s.calls[t := Call(e, DropUnit)]);
            Next(Next(n, RollBack(t)), RollBack(t)) == s
  {
    var n := s.(execs := s.execs + {e}, units := s.units + {e}, calls := s.calls[t := Call(e, DropUnit)]);
    var m := Next(n, RollBack(t));
    assert s.units + {e} - {e} == s.units;
    assert m == s.(execs := s.execs + {e}, calls := s.calls[t := Call(e, DropExec)]);
    assert s.calls[t := Call(e, DropExec)] - {t} == s.calls && s.execs + {e} - {e} == s.execs;
  }

  // ---------------------------------------------------------------- and only then

  /** Indexed but not listed, and nobody is left to notice. */
  ghost predicate Stranded(s: Sys, e: Id) {
    e in s.units && e !in s.execs && !CallFor(s, e) && !RemovalFor(s, e)
    && (s.deleter.Sweeping? ==> e !in s.deleter.todo)
  }

  /** A stranded exec stays so through any delete of the container, unless its id is registered again
      or a Start of it fails. */
  lemma {:induction false} StrandedStays(s: Sys, ls: seq<Label>, e: Id)
    requires Stranded(s, e)
    requires forall l :: l in ls ==> !(l.List? && l.e == e) && l != Untrack(e)
    ensures Stranded(RunFrom(s, ls), e)
  {
    hide Next, Stranded;
    if ls != [] {
      assert ls[|ls|-1] in ls;
      assert forall l :: l in ls[..|ls|-1] ==> l in ls;
      StrandedStays(s, ls[..|ls|-1], e);
      StrandedStep(RunFrom(s, ls[..|ls|-1]), ls[|ls|-1], e);
    }
  }

  lemma StrandedStep(s: Sys, l: Label, e: Id)
    requires Stranded(s, e) && !(l.List? && l.e == e) && l != Untrack(e)
    ensures Stranded(Next(s, l), e)
  {
    hide RemovalStep;
    if l.Remove? && l.t in s.removals {
      StrandedRemoval(s, l.t, l.ok, e);
    }
    assert l.Index? || l.CheckFlag? || l.Create? || l.RollBack? ==> l.t in s.calls ==> s.calls[l.t].e != e;
  }

  lemma StrandedRemoval(s: Sys, t: Thread, ok: bool, e: Id)
    requires Stranded(s, e) && t in s.removals
    ensures Stranded(RemovalStep(s, t, ok), e)
  {
    assert s.removals[t].e != e;
    assert RemovalStep(s, t, ok).calls == s.calls;
  }

  lemma Extend(s: Sys, ls: seq<Label>, l: Label)
    ensures RunFrom(s, ls + [l]) == Next(RunFrom(s, ls), l)
  {
    assert (ls + [l])[..|ls|] == ls;
  }

  lemma Prepend(s: Sys, l: Label, ls: seq<Label>)
    ensures RunFrom(s, [l] + ls) == RunFrom(Next(s, l), ls)
  {
    hide Next;
    RunSplit(s, [l], ls);
    Extend(s, [], l);
    assert [] + [l] == [l];
  }

  /** Before the container's delete, a call that goes on to fail, or is rolling back already, ends by
      taking its exec off the list. */
  lemma {:induction false} CallFails(s: Sys, u: Thread) returns (more: seq<Label>)
    requires s.deleter.NotYet? && u in s.calls
    ensures var n := RunFrom(s, more);
            n == s.(execs := s.execs - {s.calls[u].e}, units := n.units, calls := s.calls - {u})
    decreases match s.calls[u].stage
              case Listed => 4
              case Indexed => 3
              case Creating => 2
              case DropUnit => 1
              case DropExec => 0
  {
    var l := match s.calls[u].stage
      case Listed => Index(u)
      case Indexed => CheckFlag(u)
      case Creating => Create(u, false)
      case _ => RollBack(u);
    var n := Next(s, l);
    if s.calls[u].stage.DropExec? {
      more := [l];
      Prepend(s, l, []);
    } else {
      assert n.calls - {u} == s.calls - {u};
      var rest := CallFails(n, u);
      more := [l] + rest;
      Prepend(s, l, rest);
    }
  }

  /** A removal that succeeds ends by taking the exec off the list, unless it already has for good. */
  lemma {:induction false} RemovalEnds(s: Sys, u: Thread) returns (more: seq<Label>)
    requires s.deleter.NotYet? && u in s.removals
    ensures var n := RunFrom(s, more); var e := s.removals[u].e;
            && n == s.(execs := n.execs, units := n.units, removals := s.removals - {u})
            && n.execs == if s.removals[u].duty.Unindex? then s.execs else s.execs - {e}
    decreases match s.removals[u].duty
              case Found => 2
              case Unlisted => 1
              case Unindex => 0
  {
    var l := Remove(u, true);
    var n := Next(s, l);
    if s.removals[u].duty.Unindex? {
      more := [l];
      Prepend(s, l, []);
    } else {
      assert n.removals - {u} == s.removals - {u};
      var rest := RemovalEnds(n, u);
      more := [l] + rest;
      Prepend(s, l, rest);
    }
  }

  /** Let everybody else who has to do with e finish. */
  lemma {:induction false} LeaveAlone(s: Sys, t: Thread, e: Id) returns (more: seq<Label>)
    requires s.deleter.NotYet? && t in s.calls && s.calls[t] == Call(e, Listed)
    ensures var n := RunFrom(s, more);
            && n.deleter.NotYet? && t in n.calls && n.calls[t] == Call(e, Listed)
            && (forall u :: u in n.calls && n.calls[u].e == e ==> u == t) && !RemovalFor(n, e)
            && (e in n.execs ==> e in s.execs && !Rival(s, t, e))
    decreases |s.calls.Keys| + |s.removals.Keys|
  {
    hide Next;
    if u :| u in s.calls && u != t && s.calls[u].e == e {
      var first := CallFails(s, u);
      var n := RunFrom(s, first);
      assert n.calls.Keys == s.calls.Keys - {u};
      var rest := LeaveAlone(n, t, e);
      more := first + rest;
      RunSplit(s, first, rest);
    } else if u :| u in s.removals && s.removals[u].e == e {
      var first := RemovalEnds(s, u);
      var n := RunFrom(s, first);
      assert n.removals.Keys == s.removals.Keys - {u};
      RivalsLeft(s, n, t, u, e);
      var rest := LeaveAlone(n, t, e);
      more := first + rest;
      RunSplit(s, first, rest);
    } else {
      more := [];
    }
  }

  lemma RivalsLeft(s: Sys, n: Sys, t: Thread, u: Thread, e: Id)
    requires u in s.removals && s.removals[u].e == e && n.calls == s.calls && n.removals == s.removals - {u}
    ensures Rival(s, t, e) ==> Rival(n, t, e) || !s.removals[u].duty.Unindex?
  {
    if v :| v in s.removals && s.removals[v].e == e && !s.removals[v].duty.Unindex? {
      assert v != u ==> v in n.removals && n.removals[v] == s.removals[v];
    }
  }

  lemma AloneToTheEnd(s: Sys, t: Thread, e: Id)
    requires s.deleter.NotYet? && t in s.calls && s.calls[t] == Call(e, Listed)
    ensures RunFrom(s, [Index(t), CheckFlag(t), Create(t, true)]) ==
            s.(units := s.units + {e}, calls := s.calls - {t})
  {
    var s1 := Next(s, Index(t));
    assert s1 == s.(units := s.units + {e}, calls := s.calls[t := Call(e, Indexed)]);
    var s2 := Next(s1, CheckFlag(t));
    assert s2 == s1.(calls := s.calls[t := Call(e, Creating)]);
    assert s2.calls - {t} == s.calls - {t};
    RunThree(s, Index(t), CheckFlag(t), Create(t, true));
  }

  lemma RunThree(s: Sys, a: Label, b: Label, c: Label)
    ensures RunFrom(s, [a, b, c]) == Next(Next(Next(s, a), b), c)
  {
    hide Next;
    Prepend(s, a, [b, c]);
    Prepend(Next(s, a), b, [c]);
    Prepend(Next(Next(s, a), b), c, []);
    assert [a] + [b, c] == [a, b, c] && [b] + [c] == [b, c] && [c] + [] == [c];
  }

  /** An exec becomes endangered by being found for removal between the listing and the indexing of an
      Exec call, or by being listed while another Exec call or a removal may still take it off the list. */
  predicate Endangers(s: Sys, l: Label, e: Id) {
    && s.deleter.NotYet?
    && (|| (l.Find? && l.e == e && e in s.execs && l.t !in s.removals
            && exists t :: t in s.calls && s.calls[t] == Call(e, Listed))
        || (l.List? && l.e == e && e !in s.execs && l.t !in s.calls
            && (CallFor(s, e) || exists u :: u in s.removals && s.removals[u].e == e && !s.removals[u].duty.Unindex?)))
  }

  lemma EndangeredBy(s: Sys, l: Label, e: Id)
    requires !Endangered(s, e)
    ensures Endangered(Next(s, l), e) <==> Endangers(s, l, e)
  {
    hide Endangered;
    if l.Find? {
      FindEndangers(s, l.t, l.e, e);
    } else if l.List? {
      ListEndangers(s, l.t, l.e, e);
    } else {
      OthersDoNot(s, l, e);
    }
  }

  lemma FindEndangers(s: Sys, t: Thread, f: Id, e: Id)
    requires !Endangered(s, e)
    ensures Endangered(Next(s, Find(t, f)), e) <==> Endangers(s, Find(t, f), e)
  {
    var n := Next(s, Find(t, f));
    if n != s {
      assert t in n.removals && n.removals[t] == Removal(f, Found) && n.calls == s.calls;
      if f == e {
        assert forall c :: Rival(n, c, e);
        assert forall c :: At(s, c, Listed) && s.calls[c].e == e ==> s.calls[c] == Call(e, Listed);
        assert forall c :: c in s.calls && s.calls[c] == Call(e, Listed) ==> At(n, c, Listed);
      } else {
        assert forall c :: Rival(n, c, e) ==> Rival(s, c, e);
        assert forall c :: At(n, c, Listed) <==> At(s, c, Listed);
      }
    }
  }

  lemma ListEndangers(s: Sys, t: Thread, f: Id, e: Id)
    requires !Endangered(s, e)
    ensures Endangered(Next(s, List(t, f)), e) <==> Endangers(s, List(t, f), e)
  {
    var n := Next(s, List(t, f));
    if n != s {
      assert n.removals == s.removals && n.calls == s.calls[t := Call(f, Listed)];
      if f == e {
        assert At(n, t, Listed);
        assert Rival(n, t, e) <==>
               CallFor(s, e) || exists u :: u in s.removals && s.removals[u].e == e && !s.removals[u].duty.Unindex? by {
          if u :| u in s.calls && s.calls[u].e == e { assert u in n.calls && n.calls[u].e == e; }
        }
        if c :| At(n, c, Listed) && n.calls[c].e == e && Rival(n, c, e) {
          if c != t { assert CallFor(s, e); }
        }
      } else {
        assert forall c :: c != t ==> (Rival(n, c, e) ==> Rival(s, c, e));
        assert forall c :: c != t ==> (At(n, c, Listed) <==> At(s, c, Listed));
      }
    }
  }

  lemma OthersDoNot(s: Sys, l: Label, e: Id)
    requires !Endangered(s, e) && !l.Find? && !l.List?
    ensures !Endangered(Next(s, l), e)
  {
    NoNewcomers(s, l);
    hide Next;
    var n := Next(s, l);
    assert forall t :: Rival(n, t, e) ==> Rival(s, t, e);
  }

  lemma NoNewcomers(s: Sys, l: Label)
    requires !l.Find? && !l.List?
    ensures var n := Next(s, l);
            && (n.deleter.NotYet? ==> s.deleter.NotYet?)
            && (forall u :: u in n.calls ==> u in s.calls && n.calls[u].e == s.calls[u].e
                                             && (n.calls[u].stage.Listed? ==> s.calls[u].stage.Listed?))
            && (forall u :: u in n.removals ==> u in s.removals && n.removals[u].e == s.removals[u].e
                                                && (s.removals[u].duty.Unindex? ==> n.removals[u].duty.Unindex?))
  {
  }

  /** Wherever an exec is endangered, some continuation strands it. */
  lemma EndangeredStrands(s: Sys, e: Id) returns (more: seq<Label>)
    requires Endangered(s, e)
    ensures RunFrom(s, more).deleter.NotYet? && Stranded(RunFrom(s, more), e)
  {
    hide Next, Rival;
    var t :| At(s, t, Listed) && s.calls[t].e == e && Rival(s, t, e);
    var others := LeaveAlone(s, t, e);
    var n := RunFrom(s, others);
    AloneToTheEnd(n, t, e);
    more := others + [Index(t), CheckFlag(t), Create(t, true)];
    RunSplit(s, others, [Index(t), CheckFlag(t), Create(t, true)]);
  }

  lemma {:induction false} SweepAll(s: Sys) returns (more: seq<Label>)
    requires s.deleter.Sweeping?
    ensures RunFrom(s, more).deleter == Done && forall l :: l in more ==> l.SweepOne? || l.EndSweep?
    decreases |s.deleter.todo|
  {
    if s.deleter.todo == {} {
      more := [EndSweep];
      Prepend(s, EndSweep, []);
    } else {
      var e :| e in s.deleter.todo;
      var rest := SweepAll(Next(s, SweepOne(e)));
      more := [SweepOne(e)] + rest;
      Prepend(s, SweepOne(e), rest);
    }
  }

  /** So an exec that was endangered before the container's delete may be in the index when that delete
      has finished, with nobody left who would take it off. */
  lemma EndangeredIsLeftBehind(before: seq<Label>, e: Id) returns (more: seq<Label>)
    requires Endangered(Run(before), e)
    ensures var s := Run(before + more);
            s.deleter == Done && e in s.units && !CallFor(s, e) && !RemovalFor(s, e)
  {
    hide Endangered;
    var stranding := EndangeredStrands(Run(before), e);
    var s := RunFrom(Run(before), stranding);
    var swept := Next(Next(s, Mark), BeginSweep);
    var sweep := SweepAll(swept);
    hide Next;
    Prepend(s, Mark, [BeginSweep] + sweep);
    Prepend(Next(s, Mark), BeginSweep, sweep);
    var delete := [Mark] + ([BeginSweep] + sweep);
    StrandedStays(s, delete, e);
    more := stranding + delete;
    RunSplit(Run(before), stranding, delete);
    RunSplit(INITIAL, before, more);
  }

  /** It happens: an exec is found for removal while its Exec call has listed it and not indexed it. */
  lemma ExecLeftBehind(e: Id) returns (ls: seq<Label>)
    ensures var s := Run(ls); s.deleter == Done && e in s.units && !CallFor(s, e) && !RemovalFor(s, e)
  {
    var listed := Next(INITIAL, List(0, e));
    var found := Next(listed, Find(1, e));
    assert listed == INITIAL.(execs := {e}, calls := map[0 := Call(e, Listed)]);
    assert At(found, 0, Listed) && 1 in found.removals && found.removals[1] == Removal(e, Found);
    var early := [List(0, e)] + [Find(1, e)];
    Extend(INITIAL, [], List(0, e));
    Extend(INITIAL, [List(0, e)], Find(1, e));
    assert [] + [List(0, e)] == [List(0, e)];
    assert Rival(found, 0, e);
    var more := EndangeredIsLeftBehind(early, e);
    ls := early + more;
  }
}
