/** The informer predicate, the resync sweep and the reconcile of unitevents.go, on the objects they act on. */
module UnitEvents {
  import opened Basics
  import opened Observations
  import opened Processes
  import opened WorkQueue
  import opened Reactor
  import RD = ReactorDelivery

  /** A decoded PropertiesChanged signal; activeState is absent when it did not change. */
  datatype UnitUpdate =
    | ServiceUpdate(path: Name, props: ServiceProps)
    | UnitStateUpdate(path: Name, activeState: Option<string>)

  predicate UnitEventIsExit(activeState: Option<string>) {
    activeState.Some? && activeState.value in {"inactive", "failed"}
  }

  /** The index of tracked processes by escaped unit name. */
  class UnitManager {
    var byPath: map<Name, Process>

    /** Every process is tracked under its own name, and so under one name only. */
    ghost predicate Valid()
      reads this, byPath.Values
    {
      forall n :: n in byPath ==> byPath[n].Valid() && byPath[n].pathName == n
    }

    constructor ()
      ensures Valid() && byPath == map[]
    {
      byPath := map[];
    }

    /** A process tracked under the same name before is tracked no more. */
    method Add(p: Process)
      requires Valid() && p.Valid()
      modifies this
      ensures Valid() && byPath == old(byPath)[p.pathName := p]
      ensures forall n :: n in byPath && byPath[n] == p <==> n == p.pathName
    {
      byPath := byPath[p.pathName := p];
    }

    /** Whoever is tracked under the name of p goes, be it p or a later process of that name, and p
        cannot be found under any name any more. */
    method Delete(p: Process)
      requires Valid()
      modifies this
      ensures Valid() && byPath == old(byPath) - {p.pathName}
      ensures p !in byPath.Values
    {
      byPath := byPath - {p.pathName};
    }
  }

  // The index as the reactor sees it, with objects numbered by ids.

  ghost predicate Numbers(ids: map<Process, Obj>, byPath: map<Name, Process>) {
    && byPath.Values <= ids.Keys
    && (forall p, q :: p in ids && q in ids && ids[p] == ids[q] ==> p == q)
    && (forall n :: n in byPath ==> byPath[n].pathName == n)
  }

  ghost function Indexed(byPath: map<Name, Process>, ids: map<Process, Obj>): map<Name, Obj>
    requires byPath.Values <= ids.Keys
  {
    map n | n in byPath :: ids[byPath[n]]
  }

  /** No object is indexed under two names. */
  lemma OneNameEach(byPath: map<Name, Process>, ids: map<Process, Obj>, n: Name, m: Name)
    requires Numbers(ids, byPath) && n in byPath && m in byPath
    ensures Indexed(byPath, ids)[n] == Indexed(byPath, ids)[m] ==> n == m
  {
    assert byPath[n] in ids && byPath[m] in ids;
  }

  /** Deleting a process from the index is the reactor's Untrack... */
  lemma DeleteIsUntrack(byPath: map<Name, Process>, ids: map<Process, Obj>, s: Sys, p: Process)
    requires Numbers(ids, byPath) && s.index == Indexed(byPath, ids)
    ensures Numbers(ids, byPath - {p.pathName})
    ensures Next(s, Untrack(p.pathName)).index == Indexed(byPath - {p.pathName}, ids)
  {
    var left := byPath - {p.pathName};
    forall q | q in left.Values ensures q in ids {
      assert q in byPath.Values;
    }
  }

  /** ...and adding a process that was not tracked yet is its Track. */
  lemma AddIsTrack(byPath: map<Name, Process>, ids: map<Process, Obj>, s: Sys, p: Process)
    requires Numbers(ids, byPath) && s.index == Indexed(byPath, ids)
    requires p in ids && p !in byPath.Values && ids[p] !in s.procs
    ensures Numbers(ids, byPath[p.pathName := p])
    ensures Next(s, Track(p.pathName, ids[p])).index == Indexed(byPath[p.pathName := p], ids)
  {
    var more := byPath[p.pathName := p];
    forall q | q in more.Values ensures q in ids {
      assert q == p || q in byPath.Values;
    }
    forall n | n in byPath ensures ids[byPath[n]] != ids[p] {
      assert byPath[n] in byPath.Values;
    }
    assert ids[p] !in s.index.Values;
    IndexedAdd(byPath, ids, p);
    hide Indexed, Numbers;
    assert Next(s, Track(p.pathName, ids[p])).index == s.index[p.pathName := ids[p]];
  }

  lemma IndexedAdd(byPath: map<Name, Process>, ids: map<Process, Obj>, p: Process)
    requires byPath.Values <= ids.Keys && byPath[p.pathName := p].Values <= ids.Keys && p in ids
    ensures Indexed(byPath[p.pathName := p], ids) == Indexed(byPath, ids)[p.pathName := ids[p]]
  {
  }

  /** What the update says about a process we track and have not seen exit: nothing, or an exit to
      reconcile, with the terminal state to record if it is a Service signal. */
  datatype Verdict = Drop | Reconcile(record: Option<PState>)

  function Judge(u: UnitUpdate): Verdict {
    match u
    case ServiceUpdate(_, props) =>
      if ServiceExitState(props).Some? then Reconcile(ServiceExitState(props)) else Drop
    case UnitStateUpdate(_, activeState) =>
      if UnitEventIsExit(activeState) then Reconcile(None) else Drop
  }

  /** The updates that matter: a Service signal with the four properties of an exit, and a unit that became
      inactive or failed. Of the first the exit is recorded. */
  lemma ExitUpdates(u: UnitUpdate)
    ensures match u
            case ServiceUpdate(_, props) =>
              && (Judge(u).Reconcile? <==>
                    && props.mainPid.Some? && props.mainPid.value > 0 && props.mainStatus.Some? && props.mainStatus.value >= 0
                    && props.mainCode.Some? && props.exitTimestamp.Some? && props.exitTimestamp.value > 0)
              && (Judge(u).Reconcile? ==>
                    && Judge(u).record.Some? && Judge(u).record.value.Exited()
                    && Judge(u).record.value.pid == props.mainPid.value)
            case UnitStateUpdate(_, active) =>
              && (Judge(u).Reconcile? <==> active == Some("inactive") || active == Some("failed"))
              && (Judge(u).Reconcile? ==> Judge(u).record.None?)
  {
  }

  /** An exit of a process that is tracked and not yet exited is recorded first and then queued; every
      other update changes nothing. */
  method EnqueueIfExit(q: UnitWorkQueue, units: UnitManager, u: UnitUpdate)
    requires q.Valid() && units.Valid()
    modifies q`queue, q`dirty, set n | n in units.byPath :: units.byPath[n]`recorded
    ensures q.Valid() && units.Valid()
    ensures var relevant := Judge(u).Reconcile? && u.path in units.byPath && !old(units.byPath[u.path].state.Exited());
            && q.View() == (if relevant then Added(old(q.View()), u.path) else old(q.View()))
            && forall n :: n in units.byPath ==>
                 units.byPath[n].recorded ==
                 if relevant && Judge(u).record.Some? && n == u.path
                 then RecordExit(old(units.byPath[n].View().proc), Judge(u).record.value).recorded
                 else old(units.byPath[n].recorded)
  {
    match u
    case ServiceUpdate(path, props) =>
      var st := ServiceExitState(props);
      if st.None? {
        return;
      }
      if path !in units.byPath || units.byPath[path].state.Exited() {
        return;
      }
      units.byPath[path].RecordSystemdExitState(st.value);
      q.Add(path);
    case UnitStateUpdate(path, activeState) =>
      if !UnitEventIsExit(activeState) {
        return;
      }
      if path !in units.byPath || units.byPath[path].state.Exited() {
        return;
      }
      q.Add(path);
  }

  function AddedAll(q: Queue, names: seq<Name>): Queue {
    if names == [] then q else Added(AddedAll(q, names[..|names|-1]), names[|names|-1])
  }

  /** After a reconnect every tracked unit is pending again, each once, and nothing else changed. */
  lemma {:induction false} ResyncCovers(q: Queue, names: seq<Name>)
    requires ValidQueue(q)
    ensures var r := AddedAll(q, names);
            && ValidQueue(r) && r.processing == q.processing && r.failures == q.failures && r.shutdown == q.shutdown
            && (forall n :: n in r.dirty <==> n in q.dirty || (!q.shutdown && n in names))
            && q.queue <= r.queue
  {
    if names != [] {
      var init, n := names[..|names|-1], names[|names|-1];
      assert names == init + [n];
      ResyncCovers(q, init);
      AddedKeeps(AddedAll(q, init), n);
    }
  }

  method Resync(q: UnitWorkQueue, paths: seq<Name>)
    requires q.Valid()
    modifies q`queue, q`dirty
    ensures q.Valid() && q.View() == AddedAll(old(q.View()), paths)
    ensures !q.shutdown ==> forall n :: n in paths ==> n in q.dirty
  {
    ResyncCovers(q.View(), paths);
    var i := 0;
    while i < |paths|
      invariant 0 <= i <= |paths|
      invariant q.Valid() && q.View() == AddedAll(old(q.View()), paths[..i])
    {
      q.Add(paths[i]);
      assert paths[..i+1][..i] == paths[..i];
      i := i + 1;
    }
    assert paths[..i] == paths;
  }

  /** reconcileUnit, undisturbed: an untracked or exited unit is nothing to do, and otherwise it does to
      the process what the reference reconcile does. */
  method ReconcileUnit(units: UnitManager, path: Name, c: Choice) returns (ok: bool)
    requires units.Valid()
    modifies set n | n in units.byPath :: units.byPath[n]
    ensures units.Valid()
    ensures path !in units.byPath ==> ok
    ensures path in units.byPath ==>
              (units.byPath[path].View().proc, ok) == RD.ReconcileUnit(old(units.byPath[path].View().proc), c)
    ensures forall n :: n in units.byPath && n != path ==>
              units.byPath[n].View() == old(units.byPath[n].View())
  {
    if path !in units.byPath {
      return true;
    }
    var p := units.byPath[path];
    if p.state.Exited() {
      return true;
    }
    var loaded := LoadProcess(p, c);
    if !loaded {
      return false;
    }
    if !p.state.Exited() && p.state.pid > 0 {
      if p.recorded.Some? {
        var _ := p.ApplyObservation(p.recorded.value);
      } else if c.fallback.Some? {
        var _ := p.ApplyObservation(c.fallback.value);
      } else {
        return false;
      }
    }
    return true;
  }

  /** LoadState: the persisted exit file first, then, for a started init process, systemd itself. */
  method LoadProcess(p: Process, c: Choice) returns (ok: bool)
    requires p.Valid()
    modifies p
    ensures p.Valid() && ok == LoadState(old(p.View().proc), c).Some?
    ensures p.View().proc == if ok then LoadState(old(p.View().proc), c).value else old(p.View().proc)
  {
    if c.file.Some? {
      var st := c.file.value;
      if st.pid > 0 && st.status == Unset && !c.unit.NotAsked? {
        st := st.(status := StRunning);
      }
      var _ := p.ApplyObservation(st);
      return true;
    }
    if p.state.pid == 0 || c.unit.NotAsked? {
      return true;
    }
    if c.unit.Read? {
      var _ := p.ApplyObservation(c.unit.obs);
      return true;
    }
    return false;
  }
}
