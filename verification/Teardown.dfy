/** Start racing Delete over one transient unit (start.go, delete.go, unitref.go). Any number of Start
    attempts and deletes interleave; a Start checks the deleting flag only after it is done creating
    the unit, and a Delete sets it before tearing anything down. */
module Teardown {
  import opened Phases

  type Thread = nat

  /** Whether the unit's processes run, or the shim holds a reference: not, yes, or yes and systemd has
      failed to kill them, or to drop it, since. */
  datatype Tie = No | Yes | Stuck {

    function Undone(works: bool): Tie {
      if works || No? then No else Stuck
    }
  }

  /** systemd's side. The reference comes from AddRef; a unit with neither tie is collected. */
  datatype Unit = Unit(running: Tie, referenced: Tie) {

    function Made(pinned: bool): Unit {
      Unit(if running.Stuck? then Stuck else Yes, if pinned && referenced.No? then Yes else referenced)
    }

    function Down(): Unit {
      this.(running := No)
    }

    /** A stop that fails is followed by a kill. */
    function Stopped(works: bool): Unit {
      if works then Down() else this
    }

    function Killed(works: bool): Unit {
      this.(running := running.Undone(works))
    }

    function Released(works: bool): Unit {
      this.(referenced := referenced.Undone(works))
    }
  }

  /** A Start attempt that was admitted. */
  datatype Starter =
    | Claimed               // before the deferred check is installed; has created nothing
    | Armed                 // check installed; may create the unit, also on its error paths
    | AbandonStop | AbandonKill | AbandonRelease
    | Ending(ok: bool)      // about to finish the start or hand the claim back

  /** A delete past its precondition. */
  datatype Deleter =
    | StopUnit | KillUnit | AwaitExit | Finish
    | LetGo

  datatype Sys = Sys(
    pinned: bool,           // a message bus is available, so units are created with AddRef
    phase: Phase, deleting: bool, unit: Unit,
    starters: map<Thread, Starter>, deleters: map<Thread, Deleter>,
    torn: bool)             // a full Delete, not just the sweep over a container's execs, has begun

  datatype Label =
    | Begin(t: Thread)
    | FailEarly(t: Thread)                // e.g. the container is not started
    | Arm(t: Thread)
    | Create(t: Thread, made: bool)       // StartTransientUnit; its reply may be lost either way
    | CleanUp(t: Thread, stop: bool)      // a retry path stops or releases its own earlier attempt
    | Leave(t: Thread, ok: bool)          // the deferred check of the deleting flag
    | Abandon(t: Thread, works: bool)     // next step of abandonStartedUnit; a failure is logged
    | End(t: Thread)
    | Delete(t: Thread)                   // markDeleting of an init or exec Delete
    | Sweep(t: Thread)                    // markDeleting of an exec by its container's Delete
    | Tear(t: Thread, works: bool)        // next step of the delete
    | ObserveExit
    | UnitDies

  const IDLE := Unit(No, No)

  /** A label whose thread is not at that point does nothing. */
  function Next(s: Sys, l: Label): Sys {
    match l
    case Begin(t) =>
      if t in s.starters || !s.phase.CanBecome(Starting) then s
      else s.(phase := Starting, starters := s.starters[t := Claimed])
    case FailEarly(t) => if At(s, t, Claimed) then s.(starters := s.starters[t := Ending(false)]) else s
    case Arm(t) => if At(s, t, Claimed) then s.(starters := s.starters[t := Armed]) else s
    case Create(t, made) => if At(s, t, Armed) && made then s.(unit := s.unit.Made(s.pinned)) else s
    case CleanUp(t, stop) =>
      if !At(s, t, Armed) then s
      else s.(unit := if stop then s.unit.Down() else s.unit.Released(true))
    case Leave(t, ok) =>
      if !At(s, t, Armed) then s
      else s.(starters := s.starters[t := if s.deleting then AbandonStop else Ending(ok)])
    case Abandon(t, works) =>
      if At(s, t, AbandonStop) then
        s.(unit := s.unit.Stopped(works), starters := s.starters[t := AbandonKill])
      else if At(s, t, AbandonKill) then s.(unit := s.unit.Killed(works), starters := s.starters[t := AbandonRelease])
      else if At(s, t, AbandonRelease) then s.(unit := s.unit.Released(works), starters := s.starters[t := Ending(false)])
      else s
    case End(t) =>
      if t !in s.starters || !s.starters[t].Ending? then s
      else s.(phase := Advance(s.phase, if s.starters[t].ok then Running else Created).0, starters := s.starters - {t})
    case Delete(t) =>
      if t in s.deleters then s else s.(deleting := true, torn := true, deleters := s.deleters[t := StopUnit])
    case Sweep(t) =>
      if t in s.deleters then s else s.(deleting := true, deleters := s.deleters[t := LetGo])
    case Tear(t, works) => if t in s.deleters then TearStep(s, t, works) else s
    case ObserveExit => s.(phase := Advance(s.phase, Exited).0)
    case UnitDies => s.(unit := s.unit.Down())
  }

  /** Stopping comes first and killing behind it; whatever fails after that, the release is attempted. */
  function TearStep(s: Sys, t: Thread, works: bool): Sys
    requires t in s.deleters
  {
    match s.deleters[t]
    case StopUnit =>
      s.(unit := s.unit.Stopped(works), deleters := s.deleters[t := KillUnit])
    case KillUnit => s.(unit := s.unit.Killed(works), deleters := s.deleters[t := AwaitExit])
    case AwaitExit => s.(deleters := s.deleters[t := if works then Finish else LetGo])
    case Finish => s.(phase := Advance(s.phase, Deleted).0, deleters := s.deleters[t := LetGo])
    case LetGo => s.(unit := s.unit.Released(works), deleters := s.deleters - {t})
  }

  predicate At(s: Sys, t: Thread, pc: Starter) {
    t in s.starters && s.starters[t] == pc
  }

  function Run(pinned: bool, ls: seq<Label>): Sys {
    if ls == [] then Sys(pinned, Created, false, IDLE, map[], map[], false)
    else Next(Run(pinned, ls[..|ls|-1]), ls[|ls|-1])
  }

  // ---------------------------------------------------------------- who still has to act

  predicate WillStop(s: Sys, t: Thread) {
    || (t in s.starters && (s.starters[t].Armed? || s.starters[t].AbandonStop? || s.starters[t].AbandonKill?))
    || (t in s.deleters && (s.deleters[t].StopUnit? || s.deleters[t].KillUnit?))
  }

  predicate WillRelease(s: Sys, t: Thread) {
    || (t in s.starters && !s.starters[t].Claimed? && !s.starters[t].Ending?)
    || t in s.deleters
  }

  /** Once a delete has begun, a running unit has somebody who will still stop it and a referenced
      one somebody who will still release it, unless a kill or a release failed on it. */
  ghost predicate Responsible(s: Sys) {
    && (s.torn ==> s.deleting)
    && (s.torn && s.unit.running.Yes? ==> exists t :: WillStop(s, t))
    && (s.deleting && s.unit.referenced.Yes? ==> exists t :: WillRelease(s, t))
  }

  lemma StarterKeepsStop(s: Sys, l: Label)
    requires Responsible(s) && !l.Delete? && !l.Sweep? && !l.Tear? && !l.Abandon?
    ensures var n := Next(s, l); n.torn && n.unit.running.Yes? ==> exists t :: WillStop(n, t)
  {
    var n := Next(s, l);
    if n.torn && n.unit.running.Yes? {
      if s.unit.running.Yes? {
        var t :| WillStop(s, t);
        assert WillStop(n, t);
      } else {
        assert WillStop(n, l.t);
      }
    }
  }

  lemma StarterKeepsRelease(s: Sys, l: Label)
    requires Responsible(s) && !l.Delete? && !l.Sweep? && !l.Tear? && !l.Abandon?
    ensures var n := Next(s, l); n.deleting && n.unit.referenced.Yes? ==> exists t :: WillRelease(n, t)
  {
    var n := Next(s, l);
    if n.deleting && n.unit.referenced.Yes? {
      if s.unit.referenced.Yes? {
        var t :| WillRelease(s, t);
        assert WillRelease(n, t);
      } else {
        assert WillRelease(n, l.t);
      }
    }
  }

  lemma AbandonKeepsStop(s: Sys, l: Label)
    requires Responsible(s) && l.Abandon?
    ensures var n := Next(s, l); n.torn && n.unit.running.Yes? ==> exists t :: WillStop(n, t)
  {
    var n := Next(s, l);
    if n.torn && n.unit.running.Yes? {
      var t :| WillStop(s, t);
      assert WillStop(n, t);
    }
  }

  lemma AbandonKeepsRelease(s: Sys, l: Label)
    requires Responsible(s) && l.Abandon?
    ensures var n := Next(s, l); n.deleting && n.unit.referenced.Yes? ==> exists t :: WillRelease(n, t)
  {
    var n := Next(s, l);
    if n.deleting && n.unit.referenced.Yes? {
      var t :| WillRelease(s, t);
      assert WillRelease(n, t);
    }
  }

  lemma MarkKeepsStop(s: Sys, l: Label)
    requires Responsible(s) && (l.Delete? || l.Sweep?)
    ensures var n := Next(s, l); n.torn && n.unit.running.Yes? ==> exists t :: WillStop(n, t)
  {
    var n := Next(s, l);
    if n.torn && n.unit.running.Yes? {
      if s.torn {
        var t :| WillStop(s, t);
        assert WillStop(n, t);
      } else {
        assert WillStop(n, l.t);
      }
    }
  }

  lemma MarkKeepsRelease(s: Sys, l: Label)
    requires Responsible(s) && (l.Delete? || l.Sweep?)
    ensures var n := Next(s, l); n.deleting && n.unit.referenced.Yes? ==> exists t :: WillRelease(n, t)
  {
    var n := Next(s, l);
    if n.deleting && n.unit.referenced.Yes? {
      if s.deleting {
        var t :| WillRelease(s, t);
        assert WillRelease(n, t);
      } else {
        assert WillRelease(n, l.t);
      }
    }
  }

  lemma TearKeepsStop(s: Sys, t: Thread, works: bool)
    requires t in s.deleters && (s.torn && s.unit.running.Yes? ==> exists u :: WillStop(s, u))
    ensures var n := TearStep(s, t, works); n.torn && n.unit.running.Yes? ==> exists u :: WillStop(n, u)
  {
    hide Advance;
    var n := TearStep(s, t, works);
    if n.torn && n.unit.running.Yes? {
      var u :| WillStop(s, u);
      assert WillStop(n, u);
    }
  }

  lemma TearKeepsRelease(s: Sys, t: Thread, works: bool)
    requires t in s.deleters && (s.deleting && s.unit.referenced.Yes? ==> exists u :: WillRelease(s, u))
    ensures var n := TearStep(s, t, works); n.deleting && n.unit.referenced.Yes? ==> exists u :: WillRelease(n, u)
  {
    hide Advance;
    var n := TearStep(s, t, works);
    if n.deleting && n.unit.referenced.Yes? {
      var u :| WillRelease(s, u);
      assert WillRelease(n, u);
    }
  }

  lemma StepKeepsResponsible(s: Sys, l: Label)
    requires Responsible(s)
    ensures Responsible(Next(s, l))
  {
    if l.Tear? {
      if l.t in s.deleters {
        TearKeepsStop(s, l.t, l.works);
        TearKeepsRelease(s, l.t, l.works);
      }
    } else if l.Delete? || l.Sweep? {
      MarkKeepsStop(s, l);
      MarkKeepsRelease(s, l);
    } else if l.Abandon? {
      AbandonKeepsStop(s, l);
      AbandonKeepsRelease(s, l);
    } else {
      StarterKeepsStop(s, l);
      StarterKeepsRelease(s, l);
    }
  }

  lemma {:induction false} RunResponsible(pinned: bool, ls: seq<Label>)
    ensures Responsible(Run(pinned, ls))
  {
    if ls != [] {
      var init, l := ls[..|ls|-1], ls[|ls|-1];
      RunResponsible(pinned, init);
      StepKeepsResponsible(Run(pinned, init), l);
    }
  }

  /** This label is the markDeleting of a delete: of the process itself, or of an exec by its container's. */
  predicate Marks(s: Sys, l: Label, whole: bool) {
    (l.Delete? && l.t !in s.deleters) || (!whole && l.Sweep? && l.t !in s.deleters)
  }

  ghost predicate MarkedAt(pinned: bool, ls: seq<Label>, whole: bool, i: nat) {
    i < |ls| && Marks(Run(pinned, ls[..i]), ls[i], whole)
  }

  ghost predicate Marked(pinned: bool, ls: seq<Label>, whole: bool) {
    exists i: nat :: MarkedAt(pinned, ls, whole, i)
  }

  lemma FlagAfter(s: Sys, l: Label)
    ensures Next(s, l).deleting <==> s.deleting || Marks(s, l, false)
    ensures Next(s, l).torn <==> s.torn || Marks(s, l, true)
  {
    hide Advance;
  }

  lemma MarkedBefore(pinned: bool, ls: seq<Label>, n: nat, whole: bool, i: nat)
    requires i < n <= |ls|
    ensures MarkedAt(pinned, ls[..n], whole, i) == MarkedAt(pinned, ls, whole, i)
  {
    hide Marks, Run;
    assert ls[..n][..i] == ls[..i];
  }

  lemma MarkedSnoc(pinned: bool, ls: seq<Label>, whole: bool)
    requires ls != []
    ensures var j := |ls| - 1;
            Marked(pinned, ls, whole) <==> Marked(pinned, ls[..j], whole) || MarkedAt(pinned, ls, whole, j)
  {
    hide Marks, Run;
    var j := |ls| - 1;
    if i: nat :| MarkedAt(pinned, ls, whole, i) {
      if i < j { MarkedBefore(pinned, ls, j, whole, i); }
    }
    if i: nat :| MarkedAt(pinned, ls[..j], whole, i) {
      MarkedBefore(pinned, ls, j, whole, i);
      assert MarkedAt(pinned, ls, whole, i);
    }
  }

  /** The flag is up exactly once some delete, or the sweep of the container's, has put it up. */
  lemma {:induction false} DeletingIff(pinned: bool, ls: seq<Label>)
    ensures Run(pinned, ls).deleting <==> Marked(pinned, ls, false)
    ensures Run(pinned, ls).torn <==> Marked(pinned, ls, true)
  {
    hide Next, Marks, Marked;
    if ls == [] {
      assert !Marked(pinned, [], false) && !Marked(pinned, [], true) by { NoneMarked(pinned); }
    } else {
      DeletingIff(pinned, ls[..|ls|-1]);
      FlagAfter(Run(pinned, ls[..|ls|-1]), ls[|ls|-1]);
      MarkedSnoc(pinned, ls, false);
      MarkedSnoc(pinned, ls, true);
    }
  }

  lemma NoneMarked(pinned: bool)
    ensures !Marked(pinned, [], false) && !Marked(pinned, [], true)
  {
  }

  // ---------------------------------------------------------------- what each side does on its own

  /** Without a pin connection no reference is ever taken. */
  lemma {:induction false} NoPinNoReference(ls: seq<Label>)
    ensures Run(false, ls).unit.referenced == No && !Run(false, ls).pinned
  {
    if ls != [] {
      NoPinNoReference(ls[..|ls|-1]);
      UnpinnedStep(Run(false, ls[..|ls|-1]), ls[|ls|-1]);
    }
  }

  lemma UnpinnedStep(s: Sys, l: Label)
    requires !s.pinned && s.unit.referenced == No
    ensures !Next(s, l).pinned && Next(s, l).unit.referenced == No
  {
    hide Advance;
  }

  /** An attempt that nobody deletes under its hands keeps its unit and ends running, or hands the claim back. */
  lemma StartSucceeds(s: Sys, t: Thread, ok: bool)
    requires At(s, t, Armed) && !s.deleting && s.phase == Starting
    ensures var n := Next(Next(s, Leave(t, ok)), End(t));
            n.unit == s.unit && n.phase == (if ok then Running else Created) && t !in n.starters
  {
  }

  /** An attempt that fails before it creates anything hands the claim back; and the retry paths take back the
      one tie they are meant to. */
  lemma FailuresHandBack(s: Sys, t: Thread)
    ensures At(s, t, Claimed) && s.phase == Starting ==>
              var n := Next(Next(s, FailEarly(t)), End(t)); n.unit == s.unit && n.phase == Created && t !in n.starters
    ensures At(s, t, Armed) ==>
              && Next(s, CleanUp(t, true)) == s.(unit := s.unit.(running := No))
              && Next(s, CleanUp(t, false)) == s.(unit := s.unit.(referenced := No))
    ensures Next(s, ObserveExit) == s.(phase := if s.phase == Deleted then Deleted else Exited)
    ensures Next(s, UnitDies) == s.(unit := s.unit.(running := No))
  {
    hide TearStep;
  }

  lemma AbandonsAll(s: Sys, t: Thread)
    requires At(s, t, AbandonStop)
    ensures var a := Abandon(t, true);
            Next(Next(Next(s, a), a), a) == s.(unit := IDLE, starters := s.starters[t := Ending(false)])
  {
    hide Advance;
    var n1 := Next(s, Abandon(t, true));
    assert n1 == s.(unit := s.unit.Down(), starters := s.starters[t := AbandonKill]);
    var n2 := Next(n1, Abandon(t, true));
    assert n2 == s.(unit := s.unit.Down(), starters := s.starters[t := AbandonRelease]);
    assert s.starters[t := AbandonRelease][t := Ending(false)] == s.starters[t := Ending(false)];
  }

  /** One that was tears its unit down and never counts as a start. */
  lemma StartIsAbandoned(s: Sys, t: Thread, ok: bool)
    requires At(s, t, Armed) && s.deleting && s.phase == Starting
    ensures var a := Abandon(t, true);
            var n := Next(Next(Next(Next(Next(s, Leave(t, ok)), a), a), a), End(t));
            n.unit == IDLE && n.phase == Created && t !in n.starters
  {
    hide Advance;
    var n1 := Next(s, Leave(t, ok));
    assert n1 == s.(starters := s.starters[t := AbandonStop]);
    AbandonsAll(n1, t);
    assert Advance(Starting, Created).0 == Created by { HandBack(); }
  }

  lemma HandBack()
    ensures Advance(Starting, Created).0 == Created
  {
  }

  /** A delete whose calls work leaves nothing and ends deleted. */
  lemma DeleteTearsDown(s: Sys, t: Thread)
    requires t !in s.deleters
    ensures var r := Tear(t, true);
            var n := Next(Next(Next(Next(Next(Next(s, Delete(t)), r), r), r), r), r);
            n.unit == IDLE && n.phase == Deleted && n.deleting && n.deleters == s.deleters
  {
    hide Advance;
    var d := s.(deleting := true, torn := true);
    var n1 := Next(s, Delete(t));
    assert n1 == d.(deleters := s.deleters[t := StopUnit]);
    var n2 := Next(n1, Tear(t, true));
    assert n2 == d.(unit := s.unit.Down(), deleters := s.deleters[t := KillUnit]);
    var n3 := Next(n2, Tear(t, true));
    assert n3 == d.(unit := s.unit.Down(), deleters := s.deleters[t := AwaitExit]);
    var n4 := Next(n3, Tear(t, true));
    assert n4 == d.(unit := s.unit.Down(), deleters := s.deleters[t := Finish]);
    var n5 := Next(n4, Tear(t, true));
    assert Advance(s.phase, Deleted).0 == Deleted by { AnyDeletes(s.phase); }
    assert n5 == d.(unit := s.unit.Down(), phase := Deleted, deleters := s.deleters[t := LetGo]);
    assert s.deleters[t := LetGo] - {t} == s.deleters;
  }

  lemma AnyDeletes(p: Phase)
    ensures Advance(p, Deleted).0 == Deleted
  {
  }

  // ---------------------------------------------------------------- the theorems

  /** In every interleaving, once no Start and no delete is in flight any more, a deleted process has
      left no running unit but one systemd failed to kill, and no referenced one but one it failed to
      release; an exec swept with its container likewise no referenced one. */
  lemma NothingStranded(pinned: bool, ls: seq<Label>)
    requires var s := Run(pinned, ls); s.starters == map[] && s.deleters == map[]
    ensures var s := Run(pinned, ls);
            && (Marked(pinned, ls, true) ==> !s.unit.running.Yes?)
            && (Marked(pinned, ls, false) ==> !s.unit.referenced.Yes?)
  {
    DeletingIff(pinned, ls);
    RunResponsible(pinned, ls);
    var s := Run(pinned, ls);
    assert forall t :: !WillStop(s, t) && !WillRelease(s, t);
  }

  /** And it stays that way: a deleted process admits no further start, so nothing creates a unit or
      takes a reference again. */
  lemma {:induction false} StaysDown(pinned: bool, before: seq<Label>, after: seq<Label>)
    requires Run(pinned, before).starters == map[] && Run(pinned, before).phase == Deleted
    ensures var b, s := Run(pinned, before), Run(pinned, before + after);
            && (b.unit.running.No? ==> s.unit.running.No?) && (b.unit.referenced.No? ==> s.unit.referenced.No?)
            && s.starters == map[] && s.phase == Deleted
  {
    if after == [] {
      assert before + after == before;
    } else {
      var init, l := after[..|after|-1], after[|after|-1];
      StaysDown(pinned, before, init);
      assert (before + after)[..|before + after|-1] == before + init;
      DownStep(Run(pinned, before + init), l);
    }
  }

  lemma DownStep(s: Sys, l: Label)
    requires s.starters == map[] && s.phase == Deleted
    ensures var n := Next(s, l);
            && (s.unit.running.No? ==> n.unit.running.No?) && (s.unit.referenced.No? ==> n.unit.referenced.No?)
            && n.starters == map[] && n.phase == Deleted
  {
    hide TearStep;
    if l.Tear? && l.t in s.deleters {
      DownTear(s, l.t, l.works);
    }
  }

  lemma DownTear(s: Sys, t: Thread, works: bool)
    requires t in s.deleters && s.phase == Deleted
    ensures var n := TearStep(s, t, works);
            && (s.unit.running.No? ==> n.unit.running.No?) && (s.unit.referenced.No? ==> n.unit.referenced.No?)
            && n.starters == s.starters && n.phase == Deleted
  {
    hide Advance;
    assert Advance(Deleted, Deleted).0 == Deleted by { DeletedStays(); }
  }

  lemma DeletedStays()
    ensures Advance(Deleted, Deleted).0 == Deleted
  {
  }

  lemma Extend(pinned: bool, ls: seq<Label>, l: Label)
    ensures Run(pinned, ls + [l]) == Next(Run(pinned, ls), l)
  {
    assert (ls + [l])[..|ls|] == ls;
  }

  const LIVE := Sys(true, Running, false, Unit(Yes, Yes), map[], map[], false)

  lemma Started() returns (ls: seq<Label>)
    ensures Run(true, ls) == LIVE
  {
    ls := [];
    Extend(true, ls, Begin(0));
    ls := ls + [Begin(0)];
    Extend(true, ls, Arm(0));
    ls := ls + [Arm(0)];
    assert Run(true, ls) == LIVE.(phase := Starting, unit := IDLE, starters := map[0 := Armed]);
    Extend(true, ls, Create(0, true));
    ls := ls + [Create(0, true)];
    Extend(true, ls, Leave(0, true));
    ls := ls + [Leave(0, true)];
    assert Run(true, ls) == LIVE.(phase := Starting, starters := map[0 := Ending(true)]);
    Extend(true, ls, End(0));
    ls := ls + [End(0)];
  }

  /** The exceptions are real: a delete that can neither stop nor kill nor release leaves all behind. */
  lemma DeletedButRunning() returns (ls: seq<Label>)
    ensures Run(true, ls) == LIVE.(phase := Deleted, deleting := true, torn := true, unit := Unit(Stuck, Stuck))
  {
    ls := Started();
    Extend(true, ls, Delete(1));
    ls := ls + [Delete(1)];
    var d := LIVE.(deleting := true, torn := true, deleters := map[1 := StopUnit]);
    assert Run(true, ls) == d;
    Extend(true, ls, Tear(1, false));
    ls := ls + [Tear(1, false)];
    Extend(true, ls, Tear(1, false));
    ls := ls + [Tear(1, false)];
    assert Run(true, ls) == d.(unit := Unit(Stuck, Yes), deleters := map[1 := AwaitExit]);
    Extend(true, ls, Tear(1, true));
    ls := ls + [Tear(1, true)];
    Extend(true, ls, Tear(1, true));
    ls := ls + [Tear(1, true)];
    assert Run(true, ls) == d.(phase := Deleted, unit := Unit(Stuck, Yes), deleters := map[1 := LetGo]);
    Extend(true, ls, Tear(1, false));
    ls := ls + [Tear(1, false)];
  }
}
