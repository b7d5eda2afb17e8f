/** The event outbox of events.go: it holds the task events containerd cannot make sense
    of yet and publishes them, in passes, once their preconditions are met. */
module Outbox {
  import opened Basics

  datatype Event =
    | TaskCreate(pid: uint32)
    | TaskExecAdded
    | TaskStart(pid: uint32)
    | TaskExecStarted(pid: uint32)
    | TaskExit(code: uint32, pid: uint32, exitedAt: int)
    | TaskDelete(code: uint32, pid: uint32, exitedAt: int)
    | OtherEvent(topic: string)
  {
    predicate Introduces() { TaskCreate? || TaskExecAdded? }
    predicate Starts() { TaskStart? || TaskExecStarted? }
  }

  /** The outcome of the k-th attempt to hand an event to Forward. */
  type Fate = nat -> bool

  const RELIABLE: Fate := k => true

  /** The outbox, with what Forward received and how many attempts were made so far. */
  datatype Box = Box(known: bool, started: bool, deleted: bool, held: seq<Event>,
                     published: seq<Event>, attempts: nat)
  {
    predicate Publishable(e: Event) {
      if deleted then false
      else if e.TaskExit? then started
      else if e.TaskDelete? then known
      else true
    }

    /** A successful send: the event is handed over, then recorded. */
    function Publish(e: Event): Box {
      this.(published := published + [e], attempts := attempts + 1,
            known := known || e.Introduces(), started := started || e.Starts(), deleted := deleted || e.TaskDelete?)
    }
  }

  const EMPTY := Box(false, false, false, [], [], 0)

  // ---------------------------------------------------------------- flush as a function

  /** The state of one pass: b.held is what this pass keeps, in order. */
  datatype Pass = Pass(b: Box, sent: bool, stalled: bool)

  function PassOver(s: Pass, pending: seq<Event>, fate: Fate): Pass
    decreases |pending|
  {
    if pending == [] then s
    else
      var e, rest := pending[0], pending[1..];
      if !s.b.Publishable(e) then PassOver(s.(b := s.b.(held := s.b.held + [e])), rest, fate)
      else if !fate(s.b.attempts) then
        s.(b := s.b.(held := s.b.held + pending, attempts := s.b.attempts + 1), stalled := true)
      else PassOver(s.(b := s.b.Publish(e), sent := true), rest, fate)
  }

  function OnePass(b: Box, fate: Fate): Pass {
    PassOver(Pass(b.(held := []), false, false), b.held, fate)
  }

  /** A pass only appends to the published stream, and each event it sends leaves the outbox. */
  lemma {:induction false} PassProgress(s: Pass, pending: seq<Event>, fate: Fate)
    ensures var t := PassOver(s, pending, fate);
            && s.b.published <= t.b.published
            && |t.b.held| + |t.b.published| == |s.b.held| + |pending| + |s.b.published|
            && (t.sent ==> s.sent || |t.b.published| > |s.b.published|)
    decreases |pending|
  {
    if pending != [] {
      var e, rest := pending[0], pending[1..];
      if !s.b.Publishable(e) {
        PassProgress(s.(b := s.b.(held := s.b.held + [e])), rest, fate);
      } else if fate(s.b.attempts) {
        PassProgress(s.(b := s.b.Publish(e), sent := true), rest, fate);
      }
    }
  }

  function Flush(b: Box, fate: Fate): Box
    decreases |b.held|
  {
    var t := OnePass(b, fate);
    PassProgress(Pass(b.(held := []), false, false), b.held, fate);
    if !t.sent || t.stalled then t.b else Flush(t.b, fate)
  }

  function Sent(b: Box, e: Event, fate: Fate): Box {
    Flush(b.(held := b.held + [e]), fate)
  }

  function SentAll(b: Box, es: seq<Event>, fate: Fate): Box {
    if es == [] then b else Sent(SentAll(b, es[..|es|-1], fate), es[|es|-1], fate)
  }

  // ---------------------------------------------------------------- any send outcomes

  /** Facts about the published stream that every pass keeps: the flags say what was published,
      an exit follows a start, a delete follows a create, and nothing follows a delete. */
  ghost predicate Ordered(b: Box) {
    && (b.known <==> exists i :: 0 <= i < |b.published| && b.published[i].Introduces())
    && (b.started <==> exists i :: 0 <= i < |b.published| && b.published[i].Starts())
    && (b.deleted <==> exists i :: 0 <= i < |b.published| && b.published[i].TaskDelete?)
    && SensibleStream(b.published)
  }

  ghost predicate SensibleStream(es: seq<Event>) {
    && (forall i :: 0 <= i < |es| && es[i].TaskExit? ==> exists j :: 0 <= j < i && es[j].Starts())
    && (forall i :: 0 <= i < |es| && es[i].TaskDelete? ==> exists j :: 0 <= j < i && es[j].Introduces())
    && (forall i :: 0 <= i < |es| && es[i].TaskDelete? ==> i == |es| - 1)
  }

  lemma PublishKeepsOrdered(b: Box, e: Event)
    requires Ordered(b) && b.Publishable(e)
    ensures Ordered(b.Publish(e))
  {
    var n, c := |b.published|, b.Publish(e);
    assert forall i :: 0 <= i < n ==> c.published[i] == b.published[i];
    assert c.published[n] == e;
    if b.known {
      var k :| 0 <= k < n && b.published[k].Introduces();
      assert c.published[k].Introduces();
    }
    if b.started {
      var k :| 0 <= k < n && b.published[k].Starts();
      assert c.published[k].Starts();
    }
    forall i | 0 <= i <= n && c.published[i].TaskExit? ensures exists j :: 0 <= j < i && c.published[j].Starts() {
      if i < n {
        var j :| 0 <= j < i && b.published[j].Starts();
        assert c.published[j].Starts();
      }
    }
    forall i | 0 <= i <= n && c.published[i].TaskDelete? ensures i == n {
    }
  }

  lemma {:induction false} PassConserves(s: Pass, pending: seq<Event>, fate: Fate)
    ensures var t := PassOver(s, pending, fate);
            multiset(t.b.published) + multiset(t.b.held)
            == multiset(s.b.published) + multiset(s.b.held) + multiset(pending)
    decreases |pending|
  {
    if pending != [] {
      var e, rest := pending[0], pending[1..];
      assert pending == [e] + rest;
      if !s.b.Publishable(e) {
        PassConserves(s.(b := s.b.(held := s.b.held + [e])), rest, fate);
      } else if fate(s.b.attempts) {
        PassConserves(s.(b := s.b.Publish(e), sent := true), rest, fate);
      }
    }
  }

  lemma {:induction false} PassKeeps(s: Pass, pending: seq<Event>, fate: Fate)
    ensures var t := PassOver(s, pending, fate);
            && (Ordered(s.b) ==> Ordered(t.b))
            && (s.b.deleted ==> t.b.published == s.b.published && t.b.deleted)
    decreases |pending|
  {
    if pending != [] {
      var e, rest := pending[0], pending[1..];
      if !s.b.Publishable(e) {
        PassKeeps(s.(b := s.b.(held := s.b.held + [e])), rest, fate);
      } else if fate(s.b.attempts) {
        if Ordered(s.b) {
          PublishKeepsOrdered(s.b, e);
        }
        PassKeeps(s.(b := s.b.Publish(e), sent := true), rest, fate);
      }
    }
  }

  lemma {:induction false} FlushKeeps(b: Box, fate: Fate)
    ensures var c := Flush(b, fate);
            && multiset(c.published) + multiset(c.held) == multiset(b.published) + multiset(b.held)
            && (Ordered(b) ==> Ordered(c))
            && b.published <= c.published
            && (b.deleted ==> c.published == b.published && c.deleted)
    decreases |b.held|
  {
    var s, t := Pass(b.(held := []), false, false), OnePass(b, fate);
    PassProgress(s, b.held, fate);
    PassConserves(s, b.held, fate);
    PassKeeps(s, b.held, fate);
    if t.sent && !t.stalled {
      FlushKeeps(t.b, fate);
    }
  }

  /** With any send outcomes: nothing is lost or duplicated, the published stream stays sensible
      and only grows, and nothing is published after a delete. */
  lemma SendKeeps(b: Box, e: Event, fate: Fate)
    ensures var c := Sent(b, e, fate);
            && multiset(c.published) + multiset(c.held) == multiset(b.published) + multiset(b.held) + multiset{e}
            && (Ordered(b) ==> Ordered(c))
            && b.published <= c.published
            && (b.deleted ==> c.published == b.published && c.deleted)
  {
    FlushKeeps(b.(held := b.held + [e]), fate);
  }

  /** Over any number of sends: sent = published + held as multisets, in a sensible stream. */
  lemma {:induction false} AllSendsKeep(es: seq<Event>, fate: Fate)
    ensures var c := SentAll(EMPTY, es, fate);
            multiset(c.published) + multiset(c.held) == multiset(es) && Ordered(c)
  {
    if es != [] {
      var init, e := es[..|es|-1], es[|es|-1];
      assert es == init + [e];
      AllSendsKeep(init, fate);
      SendKeeps(SentAll(EMPTY, init, fate), e, fate);
    }
  }

  lemma Cancel(p: multiset<Event>, a: multiset<Event>, b: multiset<Event>)
    requires p + a == p + b
    ensures a == b
  {
    forall x: Event ensures a[x] == b[x] {
      assert (p + a)[x] == (p + b)[x];
    }
  }

  /** Once the delete is out, no later send publishes anything, so what is still held stays held. */
  lemma {:induction false} DeleteIsFinal(b: Box, es: seq<Event>, fate: Fate)
    requires b.deleted
    ensures var c := SentAll(b, es, fate);
            c.deleted && c.published == b.published && multiset(c.held) == multiset(b.held) + multiset(es)
  {
    if es != [] {
      var init, e := es[..|es|-1], es[|es|-1];
      assert es == init + [e];
      DeleteIsFinal(b, init, fate);
      var before, after := SentAll(b, init, fate), SentAll(b, es, fate);
      SendKeeps(before, e, fate);
      Cancel(multiset(b.published), multiset(after.held), multiset(before.held) + multiset{e});
    }
  }

  // ---------------------------------------------------------------- no send fails

  predicate Settled(b: Box) {
    forall e :: e in b.held ==> !b.Publishable(e)
  }

  /** Index of the oldest held event that can be published; |held| when there is none. */
  function Oldest(b: Box, from: nat): (i: nat)
    requires from <= |b.held|
    ensures from <= i <= |b.held|
    ensures forall j :: from <= j < i ==> !b.Publishable(b.held[j])
    ensures i < |b.held| ==> b.Publishable(b.held[i])
    decreases |b.held| - from
  {
    if from == |b.held| || b.Publishable(b.held[from]) then from else Oldest(b, from + 1)
  }

  /** The reference: as long as something held can be published, publish the oldest such event. */
  function Greedy(b: Box): Box
    decreases |b.held|
  {
    var i := Oldest(b, 0);
    if i == |b.held| then b
    else Greedy(b.Publish(b.held[i]).(held := b.held[..i] + b.held[i+1..]))
  }

  function GreedyAll(b: Box, es: seq<Event>): Box {
    if es == [] then b
    else
      var c := GreedyAll(b, es[..|es|-1]);
      Greedy(c.(held := c.held + [es[|es|-1]]))
  }

  /** Neither of these can make an event held ahead of it publishable. */
  predicate Inert(e: Event) {
    !e.Introduces() && !e.Starts()
  }

  lemma OldestIs(b: Box, i: nat)
    requires i < |b.held| && b.Publishable(b.held[i]) && forall j :: 0 <= j < i ==> !b.Publishable(b.held[j])
    ensures Oldest(b, 0) == i
  {
  }

  lemma InertPublish(b: Box, e: Event)
    requires Settled(b) && Inert(e) && b.Publishable(e)
    ensures Settled(b.Publish(e))
  {
    var n := b.Publish(e);
    forall x | x in n.held ensures !n.Publishable(x) {
      assert x in b.held;
    }
  }

  lemma OldestSkips(b: Box, e: Event, rest: seq<Event>)
    requires Settled(b) && b.Publishable(e)
    ensures Oldest(b.(held := b.held + [e] + rest), 0) == |b.held|
  {
    var g := b.(held := b.held + [e] + rest);
    forall j | 0 <= j < |b.held| ensures !g.Publishable(g.held[j]) {
      assert g.held[j] in b.held;
    }
    assert g.held[|b.held|] == e;
    OldestIs(g, |b.held|);
  }

  /** The reference skips what cannot be published and takes the first event that can. */
  lemma GreedyTakes(b: Box, e: Event, rest: seq<Event>)
    requires Settled(b) && b.Publishable(e)
    ensures Greedy(b.(held := b.held + [e] + rest)) == Greedy(b.Publish(e).(held := b.held + rest))
  {
    var g, k := b.(held := b.held + [e] + rest), |b.held|;
    OldestSkips(b, e, rest);
    assert g.held[k] == e;
    assert g.held[..k] + g.held[k+1..] == b.held + rest;
    assert g.Publish(e).(held := b.held + rest) == b.Publish(e).(held := b.held + rest);
  }

  /** A pass over inert events, with nothing publishable among those it already kept, does what the
      reference does and settles. */
  lemma {:induction false} InertPass(s: Pass, pending: seq<Event>)
    requires !s.stalled && Settled(s.b)
    requires forall e :: e in pending ==> Inert(e)
    ensures var t := PassOver(s, pending, RELIABLE);
            !t.stalled && t.b == Greedy(s.b.(held := s.b.held + pending)) && Settled(t.b)
    decreases |pending|
  {
    if pending == [] {
      assert s.b.held + pending == s.b.held;
      assert Oldest(s.b, 0) == |s.b.held|;
    } else {
      var e, rest := pending[0], pending[1..];
      assert s.b.held + [e] + rest == s.b.held + pending;
      assert Inert(e) by { assert e in pending; }
      if !s.b.Publishable(e) {
        InertPass(s.(b := s.b.(held := s.b.held + [e])), rest);
      } else {
        InertPublish(s.b, e);
        GreedyTakes(s.b, e, rest);
        InertPass(s.(b := s.b.Publish(e), sent := true), rest);
      }
    }
  }

  lemma HeldInert(b: Box)
    requires Settled(b) && !b.deleted
    ensures forall e :: e in b.held ==> Inert(e)
  {
  }

  lemma {:induction false} NothingToSend(s: Pass, pending: seq<Event>, fate: Fate)
    requires forall e :: e in pending ==> !s.b.Publishable(e)
    ensures PassOver(s, pending, fate) == s.(b := s.b.(held := s.b.held + pending))
    decreases |pending|
  {
    if pending != [] {
      var e, rest := pending[0], pending[1..];
      assert forall x :: x in rest ==> x in pending && !s.b.Publishable(x);
      NothingToSend(s.(b := s.b.(held := s.b.held + [e])), rest, fate);
      assert s.b.held + [e] + rest == s.b.held + pending;
    } else {
      assert s.b.held + pending == s.b.held;
    }
  }

  lemma SettledFlush(b: Box)
    requires Settled(b)
    ensures Flush(b, RELIABLE) == b && Greedy(b) == b
  {
    NothingToSend(Pass(b.(held := []), false, false), b.held, RELIABLE);
    assert [] + b.held == b.held;
    assert Oldest(b, 0) == |b.held|;
  }

  lemma {:induction false} PassSplit(s: Pass, ahead: seq<Event>, e: Event, fate: Fate)
    requires forall x :: x in ahead ==> !s.b.Publishable(x)
    ensures PassOver(s, ahead + [e], fate) == PassOver(s.(b := s.b.(held := s.b.held + ahead)), [e], fate)
    decreases |ahead|
  {
    var all := ahead + [e];
    if ahead == [] {
      assert all == [e] && s.b.held + ahead == s.b.held;
    } else {
      var x := ahead[0];
      assert all[0] == x && all[1..] == ahead[1..] + [e];
      assert x in ahead && forall y :: y in ahead[1..] ==> y in ahead && !s.b.Publishable(y);
      PassSplit(s.(b := s.b.(held := s.b.held + [x])), ahead[1..], e, fate);
      assert s.b.held + [x] + ahead[1..] == s.b.held + ahead;
    }
  }

  lemma FirstPass(b: Box, e: Event)
    requires Settled(b)
    ensures OnePass(b.(held := b.held + [e]), RELIABLE) ==
            if b.Publishable(e) then Pass(b.Publish(e), true, false) else Pass(b.(held := b.held + [e]), false, false)
  {
    var s := Pass(b.(held := []), false, false);
    PassSplit(s, b.held, e, RELIABLE);
    assert [] + b.held == b.held;
    assert [e][1..] == [];
  }

  /** With only inert events held, one pass already settles. */
  lemma InertFlush(b: Box)
    requires forall e :: e in b.held ==> Inert(e)
    ensures Flush(b, RELIABLE) == Greedy(b) && Settled(Greedy(b))
  {
    var s, t := Pass(b.(held := []), false, false), OnePass(b, RELIABLE);
    InertPass(s, b.held);
    assert [] + b.held == b.held;
    PassProgress(s, b.held, RELIABLE);
    SettledFlush(t.b);
  }

  /** When no send fails, one Send from a settled outbox settles it again and publishes exactly
      what the oldest-first reference publishes, in the same order. */
  lemma SendIsGreedy(b: Box, e: Event)
    requires Settled(b)
    ensures var c := Sent(b, e, RELIABLE);
            c == Greedy(b.(held := b.held + [e])) && Settled(c)
  {
    var g := b.(held := b.held + [e]);
    FirstPass(b, e);
    if b.Publishable(e) {
      HeldInert(b);
      InertFlush(b.Publish(e));
      GreedyTakes(b, e, []);
      assert b.held + [e] + [] == g.held && b.held + [] == b.held;
      PassProgress(Pass(g.(held := []), false, false), g.held, RELIABLE);
    } else {
      SettledFlush(g);
    }
  }

  /** Over any sequence of sends none of which fails, the outbox is the one-at-a-time reference and
      ends every send with nothing publishable left. */
  lemma {:induction false} SendsAreGreedy(es: seq<Event>)
    ensures SentAll(EMPTY, es, RELIABLE) == GreedyAll(EMPTY, es)
    ensures Settled(SentAll(EMPTY, es, RELIABLE))
  {
    if es != [] {
      SendsAreGreedy(es[..|es|-1]);
      SendIsGreedy(SentAll(EMPTY, es[..|es|-1], RELIABLE), es[|es|-1]);
    }
  }

  lemma {:induction false} SendsExtend(es: seq<Event>, n: nat, fate: Fate)
    requires n <= |es|
    ensures SentAll(EMPTY, es[..n], fate).published <= SentAll(EMPTY, es, fate).published
    decreases |es|
  {
    if n < |es| {
      var init := es[..|es|-1];
      assert init[..n] == es[..n];
      SendsExtend(init, n, fate);
      SendKeeps(SentAll(EMPTY, init, fate), es[|es|-1], fate);
    } else {
      assert es[..n] == es;
    }
  }

  lemma SameMembers(es: seq<Event>, fate: Fate, x: Event)
    ensures var c := SentAll(EMPTY, es, fate); x in es <==> x in c.published || x in c.held
  {
    var c := SentAll(EMPTY, es, fate);
    AllSendsKeep(es, fate);
    assert x in es <==> x in multiset(es);
    assert x in multiset(c.published) + multiset(c.held) <==> x in c.published || x in c.held;
  }

  /** With a start sent, no delete and no failure, every start and exit is out. */
  lemma ExitsAreOut(es: seq<Event>, start: Event, e: Event)
    requires start in es && start.Starts() && forall x :: x in es ==> !x.TaskDelete?
    requires e in es && (e.TaskExit? || e.Starts())
    ensures var c := SentAll(EMPTY, es, RELIABLE);
            e in c.published && forall x :: x in c.published ==> !x.TaskDelete?
  {
    var c := SentAll(EMPTY, es, RELIABLE);
    AllSendsKeep(es, RELIABLE);
    SendsAreGreedy(es);
    SameMembers(es, RELIABLE, start);
    SameMembers(es, RELIABLE, e);
    forall x | x in c.published ensures !x.TaskDelete? {
      SameMembers(es, RELIABLE, x);
    }
    assert !c.deleted;
    assert c.Publishable(start);
    var k :| 0 <= k < |c.published| && c.published[k] == start;
    assert c.published[k].Starts();
    assert c.Publishable(e);
  }

  /** When no send fails, every start and exit sent before the first delete is published, and hence
      ahead of that delete, provided a start was among them. */
  lemma ExitsPrecedeDelete(es: seq<Event>, n: nat, start: Event, e: Event)
    requires n <= |es| && start in es[..n] && start.Starts() && forall x :: x in es[..n] ==> !x.TaskDelete?
    requires e in es[..n] && (e.TaskExit? || e.Starts())
    ensures var before, all := SentAll(EMPTY, es[..n], RELIABLE).published, SentAll(EMPTY, es, RELIABLE).published;
            before <= all && e in before && forall x :: x in before ==> !x.TaskDelete?
  {
    ExitsAreOut(es[..n], start, e);
    SendsExtend(es, n, RELIABLE);
  }

  predicate AnyStarts(es: seq<Event>) {
    exists e :: e in es && e.Starts()
  }

  predicate AnyIntroduces(es: seq<Event>) {
    exists e :: e in es && e.Introduces()
  }

  predicate AnyDelete(es: seq<Event>) {
    exists e :: e in es && e.TaskDelete?
  }

  /** After sends none of which failed: the delete is out iff one was sent and the task was introduced. */
  lemma DeleteGoesOut(es: seq<Event>)
    ensures SentAll(EMPTY, es, RELIABLE).deleted <==> AnyDelete(es) && AnyIntroduces(es)
  {
    var c := SentAll(EMPTY, es, RELIABLE);
    AllSendsKeep(es, RELIABLE);
    SendsAreGreedy(es);
    if c.deleted {
      var i :| 0 <= i < |c.published| && c.published[i].TaskDelete?;
      SameMembers(es, RELIABLE, c.published[i]);
      var j :| 0 <= j < i && c.published[j].Introduces();
      SameMembers(es, RELIABLE, c.published[j]);
    } else {
      StartsAreOut(es);
      forall d | d in es && d.TaskDelete? ensures d in c.held && !c.known {
        SameMembers(es, RELIABLE, d);
      }
    }
  }

  /** And until then, all that was sent is out but exits without any start, and deletes without any create. */
  lemma HeldIff(es: seq<Event>, x: Event)
    requires !SentAll(EMPTY, es, RELIABLE).deleted
    ensures x in SentAll(EMPTY, es, RELIABLE).held <==>
            x in es && ((x.TaskExit? && !AnyStarts(es)) || (x.TaskDelete? && !AnyIntroduces(es)))
  {
    var c := SentAll(EMPTY, es, RELIABLE);
    AllSendsKeep(es, RELIABLE);
    SendsAreGreedy(es);
    SameMembers(es, RELIABLE, x);
    assert c.started <==> AnyStarts(es) by { StartsAreOut(es); }
    assert c.known <==> AnyIntroduces(es) by { StartsAreOut(es); }
    if x in c.published {
      var i :| 0 <= i < |c.published| && c.published[i] == x;
    }
  }

  /** Nothing holds a create or a start back but a delete. */
  lemma StartsAreOut(es: seq<Event>)
    requires !SentAll(EMPTY, es, RELIABLE).deleted
    ensures SentAll(EMPTY, es, RELIABLE).started <==> AnyStarts(es)
    ensures SentAll(EMPTY, es, RELIABLE).known <==> AnyIntroduces(es)
  {
    var c := SentAll(EMPTY, es, RELIABLE);
    AllSendsKeep(es, RELIABLE);
    SendsAreGreedy(es);
    forall x ensures x in es <==> x in c.published || x in c.held {
      SameMembers(es, RELIABLE, x);
    }
    assert forall x :: x in c.held ==> !x.Starts() && !x.Introduces();
  }

  // ---------------------------------------------------------------- order, and the end of a send

  /** a can be had from b by leaving events out. */
  predicate Within(a: seq<Event>, b: seq<Event>)
    decreases |b|
  {
    if a == [] then true else b != [] && (Within(a, b[1..]) || (a[0] == b[0] && Within(a[1..], b[1..])))
  }

  lemma {:induction false} WithinItself(a: seq<Event>)
    ensures Within(a, a)
  {
    if a != [] {
      WithinItself(a[1..]);
    }
  }

  lemma {:induction false} WithinTwice(a: seq<Event>, b: seq<Event>, c: seq<Event>)
    requires Within(a, b) && Within(b, c)
    ensures Within(a, c)
    decreases |b| + |c|
  {
    if a != [] {
      if Within(b, c[1..]) {
        WithinTwice(a, b, c[1..]);
      } else if Within(a, b[1..]) {
        WithinTwice(a, b[1..], c[1..]);
      } else {
        WithinTwice(a[1..], b[1..], c[1..]);
      }
    }
  }

  lemma {:induction false} WithinBehind(pre: seq<Event>, a: seq<Event>, b: seq<Event>)
    requires Within(a, b)
    ensures Within(pre + a, pre + b)
  {
    if pre == [] {
      assert pre + a == a && pre + b == b;
    } else {
      WithinBehind(pre[1..], a, b);
      assert (pre + a)[1..] == pre[1..] + a && (pre + b)[1..] == pre[1..] + b;
    }
  }

  lemma {:induction false} WithinAhead(a: seq<Event>, b: seq<Event>, post: seq<Event>)
    requires Within(a, b)
    ensures Within(a + post, b + post)
    decreases |b|
  {
    if a == [] {
      WithinSuffix(post, b);
      assert a + post == post;
    } else {
      assert (a + post)[1..] == a[1..] + post && (b + post)[1..] == b[1..] + post;
      if Within(a, b[1..]) {
        WithinAhead(a, b[1..], post);
      } else {
        WithinAhead(a[1..], b[1..], post);
      }
    }
  }

  lemma {:induction false} WithinSuffix(a: seq<Event>, pre: seq<Event>)
    ensures Within(a, pre + a)
  {
    if pre == [] {
      assert pre + a == a;
      WithinItself(a);
    } else {
      assert (pre + a)[1..] == pre[1..] + a;
      WithinSuffix(a, pre[1..]);
    }
  }

  /** A pass keeps what it keeps in order, and stops at the first attempt that fails. */
  lemma {:induction false} PassIsOrderly(s: Pass, pending: seq<Event>, fate: Fate)
    requires !s.stalled
    ensures var t := PassOver(s, pending, fate);
            && Within(t.b.held, s.b.held + pending)
            && s.b.attempts <= t.b.attempts
            && (forall k :: s.b.attempts <= k < t.b.attempts - (if t.stalled then 1 else 0) ==> fate(k))
            && (t.stalled ==> t.b.attempts > s.b.attempts && !fate(t.b.attempts - 1))
            && |t.b.published| - |s.b.published| == t.b.attempts - s.b.attempts - (if t.stalled then 1 else 0)
    decreases |pending|
  {
    if pending == [] {
      assert s.b.held + pending == s.b.held;
      WithinItself(s.b.held);
    } else {
      var e, rest := pending[0], pending[1..];
      assert pending == [e] + rest;
      PassStep(s, e, rest, fate);
      hide PassOver, Within;
      if !s.b.Publishable(e) {
        PassIsOrderly(s.(b := s.b.(held := s.b.held + [e])), rest, fate);
        assert s.b.held + [e] + rest == s.b.held + pending;
      } else if fate(s.b.attempts) {
        var m := s.(b := s.b.Publish(e), sent := true);
        PassIsOrderly(m, rest, fate);
        WithinSuffix(rest, [e]);
        WithinBehind(s.b.held, rest, pending);
        WithinTwice(PassOver(m, rest, fate).b.held, s.b.held + rest, s.b.held + pending);
      } else {
        WithinItself(s.b.held + pending);
      }
    }
  }

  lemma {:induction false} FlushIsOrderly(b: Box, fate: Fate)
    ensures var c := Flush(b, fate);
            && Within(c.held, b.held) && b.attempts <= c.attempts
            && (forall k :: b.attempts <= k < c.attempts - 1 ==> fate(k))
            && |c.published| - |b.published| == c.attempts - b.attempts - (if c.attempts > b.attempts && !fate(c.attempts - 1) then 1 else 0)
    decreases |b.held|
  {
    hide Within;
    var s, t := Pass(b.(held := []), false, false), OnePass(b, fate);
    PassIsOrderly(s, b.held, fate);
    assert [] + b.held == b.held;
    PassProgress(s, b.held, fate);
    if t.sent && !t.stalled {
      FlushIsOrderly(t.b, fate);
      WithinTwice(Flush(t.b, fate).held, t.b.held, b.held);
    }
  }

  /** Whatever fails, what is held is held in the order it was sent in; every attempt but the last of one
      Send succeeded, so a Send ends with the first that fails; and each that succeeded published one event. */
  lemma {:induction false} HeldInOrder(es: seq<Event>, fate: Fate)
    ensures Within(SentAll(EMPTY, es, fate).held, es)
  {
    hide Within, Sent;
    if es != [] {
      var init, e := es[..|es|-1], es[|es|-1];
      var b := SentAll(EMPTY, init, fate);
      assert es == init + [e];
      HeldInOrder(init, fate);
      WithinAhead(b.held, init, [e]);
      SendStopsAtFailure(b, e, fate);
      WithinTwice(Sent(b, e, fate).held, b.held + [e], es);
    } else {
      assert Within([], []) by { WithinItself([]); }
    }
  }

  lemma SendStopsAtFailure(b: Box, e: Event, fate: Fate)
    ensures var c := Sent(b, e, fate);
            && Within(c.held, b.held + [e])
            && (forall k :: b.attempts <= k < c.attempts - 1 ==> fate(k))
            && |c.published| - |b.published| == c.attempts - b.attempts - (if c.attempts > b.attempts && !fate(c.attempts - 1) then 1 else 0)
  {
    FlushIsOrderly(b.(held := b.held + [e]), fate);
  }

  // ---------------------------------------------------------------- a failed send strands an exit

  /** Exits held ahead of the first start, which one pass cannot publish before it has seen a start. */
  function Stranded(started: bool, ahead: seq<Event>): seq<Event>
    decreases |ahead|
  {
    if ahead == [] then []
    else
      var later := Stranded(started || ahead[0].Starts(), ahead[1..]);
      if ahead[0].TaskExit? && !started then [ahead[0]] + later else later
  }

  lemma AnyOfCons(e: Event, rest: seq<Event>)
    ensures AnyStarts([e] + rest) <==> e.Starts() || AnyStarts(rest)
    ensures AnyIntroduces([e] + rest) <==> e.Introduces() || AnyIntroduces(rest)
  {
    assert e in [e] + rest && forall x :: x in rest ==> x in [e] + rest;
  }

  /** A pass, one event at a time. */
  lemma PassStep(s: Pass, e: Event, rest: seq<Event>, fate: Fate)
    ensures PassOver(s, [e] + rest, fate) ==
            if !s.b.Publishable(e) then PassOver(s.(b := s.b.(held := s.b.held + [e])), rest, fate)
            else if !fate(s.b.attempts) then
              s.(b := s.b.(held := s.b.held + ([e] + rest), attempts := s.b.attempts + 1), stalled := true)
            else PassOver(s.(b := s.b.Publish(e), sent := true), rest, fate)
  {
    assert ([e] + rest)[1..] == rest;
  }

  /** A pass over two stretches: over the second, unless a send failed in the first. */
  lemma {:induction false} PassAppend(s: Pass, a: seq<Event>, b: seq<Event>, fate: Fate)
    requires !s.stalled
    ensures var m := PassOver(s, a, fate);
            PassOver(s, a + b, fate) ==
            if m.stalled then m.(b := m.b.(held := m.b.held + b)) else PassOver(m, b, fate)
    decreases |a|
  {
    if a == [] {
      assert a + b == b;
    } else {
      var e, rest := a[0], a[1..];
      assert a == [e] + rest && a + b == [e] + (rest + b);
      PassStep(s, e, rest, fate);
      PassStep(s, e, rest + b, fate);
      if !s.b.Publishable(e) {
        PassAppend(s.(b := s.b.(held := s.b.held + [e])), rest, b, fate);
      } else if fate(s.b.attempts) {
        PassAppend(s.(b := s.b.Publish(e), sent := true), rest, b, fate);
      } else {
        assert s.b.held + a + b == s.b.held + ([e] + (rest + b));
      }
    }
  }

  ghost predicate NoDelete(es: seq<Event>) {
    forall e :: e in es ==> !e.TaskDelete?
  }

  /** A pass from s over pending ended in t with all published but the exits ahead of every start. */
  predicate PassedAll(s: Pass, pending: seq<Event>, t: Pass) {
    && t.b.held == s.b.held + Stranded(s.b.started, pending)
    && (t.b.started <==> s.b.started || AnyStarts(pending))
    && (t.b.known <==> s.b.known || AnyIntroduces(pending))
    && (t.sent <==> s.sent || Stranded(s.b.started, pending) != pending)
  }

  lemma HoldFirst(s: Pass, e: Event, rest: seq<Event>, t: Pass)
    requires e.TaskExit? && !s.b.started && PassedAll(s.(b := s.b.(held := s.b.held + [e])), rest, t)
    ensures PassedAll(s, [e] + rest, t)
  {
    AnyOfCons(e, rest);
    hide AnyStarts, AnyIntroduces;
    assert ([e] + rest)[1..] == rest;
    assert s.b.held + [e] + Stranded(false, rest) == s.b.held + ([e] + Stranded(false, rest));
  }

  lemma SendFirst(s: Pass, e: Event, rest: seq<Event>, t: Pass)
    requires !(e.TaskExit? && !s.b.started) && PassedAll(s.(b := s.b.Publish(e), sent := true), rest, t)
    ensures PassedAll(s, [e] + rest, t)
  {
    AnyOfCons(e, rest);
    hide AnyStarts, AnyIntroduces;
    assert ([e] + rest)[1..] == rest;
    StrandedShorter(s.b.started || e.Starts(), rest);
  }

  /** A pass over no delete publishes none, and all but the exits ahead of every start unless a send fails. */
  lemma {:induction false} PassNoDelete(s: Pass, pending: seq<Event>, fate: Fate)
    requires !s.stalled && !s.b.deleted && NoDelete(pending)
    ensures var t := PassOver(s, pending, fate);
            && !t.b.deleted
            && ((forall k :: fate(k)) ==> !t.stalled)
            && (!t.stalled ==> PassedAll(s, pending, t))
    decreases |pending|
  {
    if pending == [] {
      assert s.b.held + [] == s.b.held;
    } else {
      hide PassOver, PassedAll;
      var e, rest := pending[0], pending[1..];
      assert pending == [e] + rest;
      PassStep(s, e, rest, fate);
      assert NoDelete(rest) && !e.TaskDelete?;
      var t := PassOver(s, pending, fate);
      if !s.b.Publishable(e) {
        PassNoDelete(s.(b := s.b.(held := s.b.held + [e])), rest, fate);
        if !t.stalled { HoldFirst(s, e, rest, t); }
      } else if fate(s.b.attempts) {
        PassNoDelete(s.(b := s.b.Publish(e), sent := true), rest, fate);
        if !t.stalled { SendFirst(s, e, rest, t); }
      }
    }
  }

  lemma {:induction false} StrandedShorter(started: bool, es: seq<Event>)
    ensures |Stranded(started, es)| <= |es|
    ensures forall e :: e in Stranded(started, es) ==> e.TaskExit?
    ensures started ==> Stranded(started, es) == []
    decreases |es|
  {
    if es != [] {
      StrandedShorter(started || es[0].Starts(), es[1..]);
    }
  }

  ghost predicate OnlyExits(es: seq<Event>) {
    forall e :: e in es ==> e.TaskExit?
  }

  lemma ExitsAreInert(es: seq<Event>)
    requires OnlyExits(es)
    ensures !AnyStarts(es) && !AnyIntroduces(es) && NoDelete(es)
  {
  }

  lemma {:induction false} AllStranded(es: seq<Event>)
    requires OnlyExits(es)
    ensures Stranded(false, es) == es
    decreases |es|
  {
    if es != [] {
      assert es[0] in es && OnlyExits(es[1..]);
      AllStranded(es[1..]);
    }
  }

  /** Exits only are all stranded or none. */
  lemma StrandedExits(started: bool, es: seq<Event>)
    requires OnlyExits(es)
    ensures Stranded(started, es) == if started then [] else es
    ensures !AnyStarts(es) && !AnyIntroduces(es) && NoDelete(es)
  {
    ExitsAreInert(es);
    if started { StrandedShorter(started, es); } else { AllStranded(es); }
  }

  /** A pass that comes to the one delete there is: it gets out if the create is, and then ends everything. */
  lemma PassToDelete(s: Pass, ahead: seq<Event>, d: Event, behind: seq<Event>, fate: Fate)
    requires !s.stalled && !s.b.deleted && d.TaskDelete? && NoDelete(ahead) && NoDelete(behind)
    ensures var t := PassOver(s, ahead + [d] + behind, fate);
            var known := s.b.known || AnyIntroduces(ahead);
            var started := s.b.started || AnyStarts(ahead);
            && ((forall k :: fate(k)) ==> !t.stalled)
            && (t.b.deleted ==> known)
            && (!t.stalled && known ==>
                  t.b.deleted && t.sent && t.b.held == s.b.held + Stranded(s.b.started, ahead) + behind)
            && (t.stalled ==> !t.b.deleted)
            && (!t.stalled && !known ==>
                  && t.b.held == s.b.held + Stranded(s.b.started, ahead) + [d] + Stranded(started, behind)
                  && (t.b.started <==> started || AnyStarts(behind))
                  && (t.b.known <==> AnyIntroduces(behind))
                  && (AnyIntroduces(behind) ==> t.sent))
  {
    var m := PassOver(s, ahead, fate);
    PassNoDelete(s, ahead, fate);
    assert ahead + [d] + behind == ahead + ([d] + behind);
    PassAppend(s, ahead, [d] + behind, fate);
    if !m.stalled {
      PassStep(m, d, behind, fate);
      if m.b.known {
        if fate(m.b.attempts) {
          NothingToSend(m.(b := m.b.Publish(d), sent := true), behind, fate);
        }
      } else {
        PassNoDelete(m.(b := m.b.(held := m.b.held + [d])), behind, fate);
        IntroducedIsSent(m.b.started, behind);
      }
    }
  }

  lemma IntroducedIsSent(started: bool, es: seq<Event>)
    ensures AnyIntroduces(es) ==> Stranded(started, es) != es
  {
    StrandedShorter(started, es);
  }

  lemma NothingMore(b: Box, fate: Fate)
    requires b.deleted
    ensures Flush(b, fate) == b
  {
    NothingToSend(Pass(b.(held := []), false, false), b.held, fate);
    assert [] + b.held == b.held;
  }

  /** With nothing to introduce the task, the delete never gets out. */
  lemma {:induction false} NeverKnown(b: Box, ahead: seq<Event>, d: Event, behind: seq<Event>, fate: Fate)
    requires !b.known && !b.deleted && b.held == ahead + [d] + behind && d.TaskDelete?
    requires forall e :: e in ahead + behind ==> e.TaskExit?
    ensures !Flush(b, fate).deleted
    decreases |b.held|
  {
    var s, t := Pass(b.(held := []), false, false), OnePass(b, fate);
    assert forall e :: e in ahead || e in behind ==> e in ahead + behind;
    StrandedExits(b.started, ahead);
    StrandedExits(b.started, behind);
    PassToDelete(s, ahead, d, behind, fate);
    PassProgress(s, b.held, fate);
    if t.sent && !t.stalled {
      var ahead', behind' := Stranded(b.started, ahead), Stranded(b.started, behind);
      assert [] + ahead' + [d] + behind' == ahead' + [d] + behind';
      assert forall e :: e in ahead' + behind' ==> e in ahead + behind;
      NeverKnown(t.b, ahead', d, behind', fate);
    }
  }

  /** What a flush that publishes the one delete among the held events leaves behind. If the create is out
      before it comes to the delete: the exits ahead of every start, and all that follows the delete.
      If the create only comes behind the delete, that takes a second pass, which finds only exits. */
  function LeftBehind(b: Box, ahead: seq<Event>, behind: seq<Event>): seq<Event> {
    if b.known || AnyIntroduces(ahead) then Stranded(b.started, ahead) + behind
    else
      (if AnyStarts(ahead) || AnyStarts(behind) then [] else Stranded(b.started, ahead))
      + Stranded(b.started || AnyStarts(ahead), behind)
  }

  lemma KnownFlush(b: Box, ahead: seq<Event>, d: Event, behind: seq<Event>, fate: Fate)
    requires !b.deleted && b.held == ahead + [d] + behind
    requires d.TaskDelete? && NoDelete(ahead) && NoDelete(behind)
    requires b.known || AnyIntroduces(ahead)
    ensures var c := Flush(b, fate);
            && (c.deleted ==> c.held == Stranded(b.started, ahead) + behind)
            && ((forall k :: fate(k)) ==> c.deleted)
  {
    var s, t := Pass(b.(held := []), false, false), OnePass(b, fate);
    PassToDelete(s, ahead, d, behind, fate);
    PassProgress(s, b.held, fate);
    if !t.stalled {
      NothingMore(t.b, fate);
      assert [] + Stranded(b.started, ahead) + behind == Stranded(b.started, ahead) + behind;
    }
  }

  /** Whatever failed before and fails now, from any outbox with one delete held: a flush that publishes
      the delete leaves exactly LeftBehind held, for ever; and one in which nothing fails publishes it
      exactly if the task is known or is introduced by a held event. */
  lemma FlushWithDelete(b: Box, ahead: seq<Event>, d: Event, behind: seq<Event>, fate: Fate)
    requires !b.deleted && b.held == ahead + [d] + behind
    requires d.TaskDelete? && NoDelete(ahead) && NoDelete(behind)
    ensures var c := Flush(b, fate);
            && (c.deleted ==> c.held == LeftBehind(b, ahead, behind))
            && ((forall k :: fate(k)) ==> (c.deleted <==> b.known || AnyIntroduces(ahead) || AnyIntroduces(behind)))
  {
    if b.known || AnyIntroduces(ahead) {
      KnownFlush(b, ahead, d, behind, fate);
    } else {
      var s, t := Pass(b.(held := []), false, false), OnePass(b, fate);
      PassToDelete(s, ahead, d, behind, fate);
      PassProgress(s, b.held, fate);
      if t.sent && !t.stalled {
        var ahead', behind' := Stranded(b.started, ahead), Stranded(b.started || AnyStarts(ahead), behind);
        assert [] + ahead' + [d] + behind' == ahead' + [d] + behind';
        StrandedShorter(b.started, ahead);
        StrandedShorter(b.started || AnyStarts(ahead), behind);
        StrandedExits(t.b.started, ahead');
        StrandedExits(t.b.started, behind');
        if t.b.known {
          KnownFlush(t.b, ahead', d, behind', fate);
        } else {
          NeverKnown(t.b, ahead', d, behind', fate);
        }
      }
    }
  }

  /** Every exit has a start ahead of it. */
  ghost predicate StartsFirst(started: bool, es: seq<Event>) {
    started || forall i :: 0 <= i < |es| && es[i].TaskExit? ==> exists j :: 0 <= j < i && es[j].Starts()
  }

  /** So the delete leaves nothing behind iff it comes last and starts come first: if the create is out
      by then, in what is ahead of the delete; else a start anywhere helps those, but behind the delete
      starts have to come first as well. */
  lemma NothingLeft(b: Box, ahead: seq<Event>, behind: seq<Event>)
    ensures LeftBehind(b, ahead, behind) == [] <==>
            if b.known || AnyIntroduces(ahead) then StartsFirst(b.started, ahead) && behind == []
            else (AnyStarts(ahead) || AnyStarts(behind) || StartsFirst(b.started, ahead))
                 && StartsFirst(b.started || AnyStarts(ahead), behind)
  {
    NoneStranded(b.started, ahead);
    NoneStranded(b.started || AnyStarts(ahead), behind);
  }

  lemma {:induction false} NoneStranded(started: bool, ahead: seq<Event>)
    ensures Stranded(started, ahead) == [] <==> StartsFirst(started, ahead)
    decreases |ahead|
  {
    if ahead != [] {
      var x, rest := ahead[0], ahead[1..];
      NoneStranded(started || x.Starts(), rest);
      if !started && !x.Starts() {
        if forall i :: 0 <= i < |ahead| && ahead[i].TaskExit? ==> exists j :: 0 <= j < i && ahead[j].Starts() {
          forall i | 0 <= i < |rest| && rest[i].TaskExit? ensures exists j :: 0 <= j < i && rest[j].Starts() {
            assert ahead[i+1].TaskExit?;
            var j :| 0 <= j < i + 1 && ahead[j].Starts();
            assert rest[j-1].Starts();
          }
          assert !x.TaskExit?;
        } else {
          var i :| 0 <= i < |ahead| && ahead[i].TaskExit? && !exists j :: 0 <= j < i && ahead[j].Starts();
          if i > 0 {
            assert rest[i-1].TaskExit?;
            forall j | 0 <= j < i - 1 ensures !rest[j].Starts() {
              assert ahead[j+1] == rest[j];
            }
          }
        }
      } else if x.Starts() && !started {
        assert ahead[0].Starts();
      }
    }
  }

  // A run in which it happens: the start's first attempt fails while its exit is already held.

  const CREATED := TaskCreate(7)
  const STARTED := TaskStart(7)
  const GONE := TaskExit(0, 7, 1)
  const REMOVED := TaskDelete(0, 7, 1)
  const SECOND_FAILS: Fate := k => k != 1

  const KNOWN := Box(true, false, false, [], [CREATED], 1)
  const STUCK := Box(true, true, true, [GONE], [CREATED, STARTED, REMOVED], 4)

  lemma {:induction false} SentAllSnoc(b: Box, es: seq<Event>, e: Event, fate: Fate)
    ensures SentAll(b, es + [e], fate) == Sent(SentAll(b, es, fate), e, fate)
  {
    assert (es + [e])[..|es|] == es;
  }

  lemma CreateGoesOut()
    ensures Sent(EMPTY, CREATED, SECOND_FAILS) == KNOWN
  {
    var b := EMPTY.(held := [CREATED]);
    assert [] + [CREATED] == [CREATED] + [] == [CREATED];
    PassStep(Pass(EMPTY, false, false), CREATED, [], SECOND_FAILS);
    assert OnePass(b, SECOND_FAILS) == Pass(KNOWN, true, false);
    assert OnePass(KNOWN, SECOND_FAILS) == Pass(KNOWN, false, false);
    assert Flush(b, SECOND_FAILS) == Flush(KNOWN, SECOND_FAILS) == KNOWN;
    assert EMPTY.held + [CREATED] == [CREATED];
  }

  lemma ExitIsHeld()
    ensures Sent(KNOWN, GONE, SECOND_FAILS) == KNOWN.(held := [GONE])
  {
    var b := KNOWN.(held := [GONE]);
    assert [] + [GONE] == [GONE] + [] == [GONE];
    PassStep(Pass(KNOWN, false, false), GONE, [], SECOND_FAILS);
    assert OnePass(b, SECOND_FAILS) == Pass(b, false, false);
  }

  lemma StartFails()
    ensures Sent(KNOWN.(held := [GONE]), STARTED, SECOND_FAILS) == KNOWN.(held := [GONE, STARTED], attempts := 2)
  {
    var b := KNOWN.(held := [GONE, STARTED]);
    assert [GONE] + [STARTED] == [GONE, STARTED] && [STARTED] + [] == [STARTED] && [] + [GONE] == [GONE];
    PassStep(Pass(KNOWN, false, false), GONE, [STARTED], SECOND_FAILS);
    PassStep(Pass(KNOWN.(held := [GONE]), false, false), STARTED, [], SECOND_FAILS);
    assert OnePass(b, SECOND_FAILS) == Pass(b.(attempts := 2), false, true);
  }

  lemma DeleteOvertakesExit()
    ensures Sent(KNOWN.(held := [GONE, STARTED], attempts := 2), REMOVED, SECOND_FAILS) == STUCK
  {
    var b := KNOWN.(held := [GONE, STARTED, REMOVED], attempts := 2);
    var held := KNOWN.(held := [GONE], attempts := 2);
    assert [GONE, STARTED] + [REMOVED] == [GONE, STARTED, REMOVED] == [GONE] + [STARTED, REMOVED];
    assert [STARTED] + [REMOVED] == [STARTED, REMOVED] && [REMOVED] + [] == [REMOVED] && [] + [GONE] == [GONE] + [] == [GONE];
    PassStep(Pass(KNOWN.(attempts := 2), false, false), GONE, [STARTED, REMOVED], SECOND_FAILS);
    PassStep(Pass(held, false, false), STARTED, [REMOVED], SECOND_FAILS);
    PassStep(Pass(held.Publish(STARTED), true, false), REMOVED, [], SECOND_FAILS);
    assert OnePass(b, SECOND_FAILS) == Pass(STUCK, true, false);
    PassStep(Pass(STUCK.(held := []), false, false), GONE, [], SECOND_FAILS);
    assert OnePass(STUCK, SECOND_FAILS) == Pass(STUCK, false, false);
    assert Flush(b, SECOND_FAILS) == Flush(STUCK, SECOND_FAILS) == STUCK;
  }

  /** Whatever is sent after it, and however those sends turn out, the exit is never published. */
  lemma ExitIsStranded(later: seq<Event>, fate: Fate)
    ensures var run := [CREATED, GONE, STARTED, REMOVED];
            var b := SentAll(EMPTY, run, SECOND_FAILS); var c := SentAll(b, later, fate);
            && b.deleted && b.held == [GONE]
            && c.published == [CREATED, STARTED, REMOVED] && GONE in c.held
  {
    hide Sent;
    SentAllSnoc(EMPTY, [], CREATED, SECOND_FAILS);
    CreateGoesOut();
    SentAllSnoc(EMPTY, [CREATED], GONE, SECOND_FAILS);
    ExitIsHeld();
    SentAllSnoc(EMPTY, [CREATED, GONE], STARTED, SECOND_FAILS);
    StartFails();
    SentAllSnoc(EMPTY, [CREATED, GONE, STARTED], REMOVED, SECOND_FAILS);
    DeleteOvertakesExit();
    assert SentAll(EMPTY, [CREATED, GONE, STARTED, REMOVED], SECOND_FAILS) == STUCK by {
      assert [] + [CREATED] == [CREATED] && [CREATED] + [GONE] == [CREATED, GONE];
      assert [CREATED, GONE] + [STARTED] == [CREATED, GONE, STARTED];
      assert [CREATED, GONE, STARTED] + [REMOVED] == [CREATED, GONE, STARTED, REMOVED];
    }
    DeleteIsFinal(STUCK, later, fate);
    assert multiset(STUCK.held)[GONE] == 1;
    assert GONE in multiset(SentAll(STUCK, later, fate).held);
  }

  // ---------------------------------------------------------------- the object

  class EventOutbox {
    const fate: Fate
    var known: bool
    var started: bool
    var deleted: bool
    var held: seq<Event>
    /** What Forward has been handed, and how many attempts were made. */
    var published: seq<Event>
    var attempts: nat

    function View(): Box
      reads this
    {
      Box(known, started, deleted, held, published, attempts)
    }

    constructor (fate: Fate)
      ensures View() == EMPTY && this.fate == fate
    {
      this.fate := fate;
      known, started, deleted, held, published, attempts := false, false, false, [], [], 0;
    }

    /** Hand one event to Forward, or give up when it has no room in time. */
    method HandOver(e: Event) returns (ok: bool)
      modifies this`published, this`attempts
      ensures ok == fate(old(attempts)) && attempts == old(attempts) + 1
      ensures published == if ok then old(published) + [e] else old(published)
    {
      ok := fate(attempts);
      attempts := attempts + 1;
      if ok {
        published := published + [e];
      }
    }

    method Note(e: Event)
      modifies this`known, this`started, this`deleted
      ensures known == (old(known) || e.Introduces())
      ensures started == (old(started) || e.Starts())
      ensures deleted == (old(deleted) || e.TaskDelete?)
    {
      match e
      case TaskCreate(_) | TaskExecAdded => known := true;
      case TaskStart(_) | TaskExecStarted(_) => started := true;
      case TaskDelete(_, _, _) => deleted := true;
      case _ =>
    }

    method FlushPass() returns (sent: bool, stalled: bool)
      modifies this
      ensures Pass(View(), sent, stalled) == OnePass(old(View()), fate)
    {
      var queue := held;
      var kept: seq<Event> := [];
      sent, stalled := false, false;
      var i := 0;
      while i < |queue| && !stalled
        invariant 0 <= i <= |queue|
        invariant held == queue
        invariant stalled ==> i == |queue|
        invariant PassOver(Pass(View().(held := kept), sent, stalled), if stalled then [] else queue[i..], fate)
                  == OnePass(old(View()), fate)
      {
        var e := queue[i];
        assert queue[i..][0] == e && queue[i..][1..] == queue[i+1..];
        if !View().Publishable(e) {
          kept := kept + [e];
          i := i + 1;
        } else {
          var ok := HandOver(e);
          if !ok {
            kept := kept + queue[i..];
            stalled := true;
            i := |queue|;
          } else {
            Note(e);
            sent := true;
            i := i + 1;
          }
        }
      }
      held := kept;
    }

    method Send(e: Event)
      modifies this
      ensures View() == Sent(old(View()), e, fate)
      ensures multiset(published) + multiset(held) == old(multiset(published) + multiset(held)) + multiset{e}
      ensures old(Ordered(View())) ==> Ordered(View())
    {
      SendKeeps(View(), e, fate);
      held := held + [e];
      var going := true;
      while going
        invariant (if going then Flush(View(), fate) else View()) == Sent(old(View()), e, fate)
        decreases going, |held|
      {
        PassProgress(Pass(View().(held := []), false, false), held, fate);
        var sent, stalled := FlushPass();
        going := sent && !stalled;
      }
    }
  }
}
