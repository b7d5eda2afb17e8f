/** The reconcile work queue of unitworkqueue.go, keyed by unit name. */
module WorkQueue {
  import opened Basics
  import opened RetryBackoff

  type Name = string

  /** The fields q.mu protects. The failure counters are a multiset: an absent key counts zero. */
  datatype Queue = Queue(queue: seq<Name>, dirty: set<Name>, processing: set<Name>,
                         failures: multiset<Name>, shutdown: bool)

  const FRESH := Queue([], {}, {}, multiset{}, false)

  ghost predicate Distinct(s: seq<Name>) {
    forall i, j :: 0 <= i < j < |s| ==> s[i] != s[j]
  }

  /** What is queued is what is dirty and not being processed, each name once. */
  ghost predicate ValidQueue(q: Queue) {
    && Distinct(q.queue)
    && (forall n :: n in q.queue <==> n in q.dirty && n !in q.processing)
  }

  function Added(q: Queue, n: Name): Queue {
    if q.shutdown || n in q.dirty then q
    else if n in q.processing then q.(dirty := q.dirty + {n})
    else q.(dirty := q.dirty + {n}, queue := q.queue + [n])
  }

  function Taken(q: Queue): Queue
    requires q.queue != []
  {
    var n := q.queue[0];
    q.(queue := q.queue[1..], dirty := q.dirty - {n}, processing := q.processing + {n})
  }

  function Finished(q: Queue, n: Name): Queue {
    q.(processing := q.processing - {n}, queue := if n in q.dirty then q.queue + [n] else q.queue)
  }

  predicate MayRetry(q: Queue, n: Name, maxRetries: nat) {
    !q.shutdown && q.failures[n] < maxRetries
  }

  function Retried(q: Queue, n: Name): Queue {
    q.(failures := q.failures[n := q.failures[n] + 1])
  }

  function Forgotten(q: Queue, n: Name): Queue {
    q.(failures := q.failures[n := 0])
  }

  lemma AddedKeeps(q: Queue, n: Name)
    requires ValidQueue(q)
    ensures var r := Added(q, n);
            && ValidQueue(r) && r.processing == q.processing && r.failures == q.failures && r.shutdown == q.shutdown
            && r.dirty == q.dirty + (if q.shutdown then {} else {n})
            && (r.queue == q.queue || r.queue == q.queue + [n])
  {
    assert (q.queue + [n])[|q.queue|] == n;
    assert n in q.dirty ==> q.dirty + {n} == q.dirty;
  }

  lemma TakenKeeps(q: Queue)
    requires ValidQueue(q) && q.queue != []
    ensures var r, n := Taken(q), q.queue[0];
            && ValidQueue(r) && n !in q.processing && n in q.dirty
            && r.dirty == q.dirty - {n} && r.processing == q.processing + {n} && r.queue == q.queue[1..]
            && r.failures == q.failures && r.shutdown == q.shutdown
  {
    var r, n := Taken(q), q.queue[0];
    assert n in q.queue;
    forall m ensures m in r.queue <==> m in q.queue && m != n {
      if m in q.queue && m != n {
        var i :| 0 <= i < |q.queue| && q.queue[i] == m;
        assert r.queue[i-1] == m;
      }
      if m in r.queue {
        var i :| 0 <= i < |r.queue| && r.queue[i] == m;
        assert q.queue[i+1] == m && q.queue[0] != q.queue[i+1];
      }
    }
  }

  lemma FinishedKeeps(q: Queue, n: Name)
    requires ValidQueue(q) && n in q.processing
    ensures var r := Finished(q, n);
            && ValidQueue(r) && r.processing == q.processing - {n} && r.dirty == q.dirty
            && r.queue == q.queue + (if n in q.dirty then [n] else [])
            && r.failures == q.failures && r.shutdown == q.shutdown
  {
    var r := Finished(q, n);
    assert n !in q.queue;
    assert n in q.dirty ==> r.queue[|q.queue|] == n;
  }

  /** What Get reports: an item, the end of the drained queue, or that it must wait. */
  datatype Got = Item(name: Name) | ShutDown | MustWait

  class UnitWorkQueue {
    var queue: seq<Name>
    var dirty: set<Name>
    var processing: set<Name>
    var failures: multiset<Name>
    var shutdown: bool
    /** Delayed adds whose timer is running: name and delay. */
    var timers: seq<(Name, int)>

    function View(): Queue
      reads this
    {
      Queue(queue, dirty, processing, failures, shutdown)
    }

    ghost predicate Valid()
      reads this
    {
      ValidQueue(View())
    }

    constructor ()
      ensures Valid() && View() == FRESH && timers == []
    {
      queue, dirty, processing, failures, shutdown, timers := [], {}, {}, multiset{}, false, [];
    }

    method Add(name: Name)
      requires Valid()
      modifies this`queue, this`dirty
      ensures Valid() && View() == Added(old(View()), name)
      ensures !shutdown ==> name in dirty
    {
      AddedKeeps(View(), name);
      if shutdown {
        return;
      }
      if name in dirty {
        return;
      }
      dirty := dirty + {name};
      if name in processing {
        return;
      }
      queue := queue + [name];
    }

    method AddAfter(name: Name, delay: int)
      requires Valid()
      modifies this`queue, this`dirty, this`timers
      ensures Valid()
      ensures delay <= 0 ==> View() == Added(old(View()), name) && timers == old(timers)
      ensures delay > 0 ==> View() == old(View()) && timers == old(timers) + [(name, delay)]
    {
      if delay <= 0 {
        Add(name);
        return;
      }
      timers := timers + [(name, delay)];
    }

    /** The k-th retry since the last Forget is added again after its backoff, which is
        min(base * 2^k, max) for every policy without wrap-around. */
    method Retry(name: Name, maxRetries: nat, base: int64, max: int64) returns (scheduled: bool)
      requires Valid()
      modifies this`failures, this`queue, this`dirty, this`timers
      ensures Valid() && (scheduled <==> !old(shutdown) && old(failures)[name] < maxRetries)
      ensures !scheduled ==> View() == old(View()) && timers == old(timers)
      ensures scheduled ==>
                var delay := Backoff(old(failures)[name], base, max);
                && failures[name] == old(failures)[name] + 1 <= maxRetries
                && (0 < base <= max && base * max < TWO_63 ==> delay == Ideal(old(failures)[name], base, max) >= base)
                && (if delay > 0 then View() == Retried(old(View()), name) && timers == old(timers) + [(name, delay)]
                    else View() == Added(Retried(old(View()), name), name) && timers == old(timers))
    {
      if shutdown {
        return false;
      }
      var attempts := failures[name];
      if attempts >= maxRetries {
        return false;
      }
      failures := failures[name := attempts + 1];
      if 0 < base <= max && base * max < TWO_63 {
        BackoffIsIdeal(attempts, base, max);
        BackoffMonotone(attempts, attempts, base, max);
      }
      AddAfter(name, Backoff(attempts, base, max));
      return true;
    }

    method Forget(name: Name)
      requires Valid()
      modifies this`failures
      ensures Valid() && View() == Forgotten(old(View()), name)
    {
      failures := failures[name := 0];
    }

    /** One turn of the wait loop of Get. */
    method Get() returns (got: Got)
      requires Valid()
      modifies this`queue, this`dirty, this`processing
      ensures Valid()
      ensures match got
              case MustWait => old(queue) == [] && !shutdown && View() == old(View())
              case ShutDown() => old(queue) == [] && shutdown && View() == old(View())
              case Item(n) => old(queue) != [] && n == old(queue)[0] && View() == Taken(old(View()))
                              && n !in old(processing)
    {
      if |queue| == 0 {
        return if shutdown then Got.ShutDown else MustWait;
      }
      TakenKeeps(View());
      var name := queue[0];
      queue := queue[1..];
      dirty := dirty - {name};
      processing := processing + {name};
      return Item(name);
    }

    /** name was handed out by Get and not finished since. */
    method Done(name: Name)
      requires Valid() && name in processing
      modifies this`queue, this`processing
      ensures Valid() && View() == Finished(old(View()), name)
    {
      FinishedKeeps(View(), name);
      processing := processing - {name};
      if name in dirty {
        queue := queue + [name];
      }
    }

    method ShutDown()
      requires Valid()
      modifies this`shutdown
      ensures Valid() && View() == old(View()).(shutdown := true)
    {
      shutdown := true;
    }
  }
}
