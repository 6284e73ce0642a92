/**
 * The admission controller of the action pool, as a state machine on values.
 *
 * A `PoolState` holds what the pool object holds (the limit, the FIFO queue
 * of waiting tasks and the set of running tasks) together with three history
 * logs that the source does not keep but that state its promises: every task
 * ever enqueued, in enqueue order; every task ever started, in start order;
 * and the set of tasks whose action has settled.
 *
 * The three transitions are the pool's own: one admission step (`_check`),
 * enqueueing a task (`enqueue`) and the settlement callback (`_remove`).
 */
module Admission {

  datatype PoolState<T> = PoolState(
    limit: nat,
    queue: seq<T>,
    running: set<T>,
    enqueued: seq<T>,
    started: seq<T>,
    done: set<T>)

  /** The elements of a sequence. */
  ghost function Elems<T>(xs: seq<T>): set<T>
  {
    set x | x in xs
  }

  /** No element occurs twice. */
  ghost predicate Distinct<T>(xs: seq<T>)
  {
    forall i, j | 0 <= i < j < |xs| :: xs[i] != xs[j]
  }

  /** A fresh pool: nothing queued, nothing running, nothing in the logs. */
  function Init<T>(limit: nat): (r: PoolState<T>)
    ensures limit > 0 ==> Valid(r)
    ensures r.limit == limit && |r.queue| == 0 && |r.running| == 0
  {
    PoolState(limit, [], {}, [], [], {})
  }

  // ---------------------------------------------------------------------------
  // Invariants
  // ---------------------------------------------------------------------------

  /**
   * Everything the pool keeps true except work conservation: the running set
   * respects the limit, the tasks started so far followed by the waiting ones
   * are exactly the tasks enqueued, in order (FIFO), no task was enqueued
   * twice, and every started task is either running or done, not both.
   */
  ghost predicate Consistent<T>(s: PoolState<T>)
  {
    && s.limit > 0
    && |s.running| <= s.limit
    && s.enqueued == s.started + s.queue
    && Distinct(s.enqueued)
    && Elems(s.started) == s.running + s.done
    && s.running !! s.done
  }

  /** How many waiting tasks could be started right now. */
  ghost function Pending<T>(s: PoolState<T>): nat
    requires |s.running| <= s.limit
  {
    if |s.queue| < s.limit - |s.running| then |s.queue| else s.limit - |s.running|
  }

  /** No task waits while a slot is free. */
  ghost predicate WorkConserving<T>(s: PoolState<T>)
  {
    |s.queue| > 0 ==> |s.running| == s.limit
  }

  /** The invariant of the pool between two operations. */
  ghost predicate Valid<T>(s: PoolState<T>)
  {
    Consistent(s) && WorkConserving(s)
  }

  /**
   * The state in which `_check` is entered: consistent, and at most one task
   * could be started. This is what makes the single `if` of `_check` enough.
   */
  ghost predicate ReadyToAdmit<T>(s: PoolState<T>)
  {
    Consistent(s) && Pending(s) <= 1
  }

  // ---------------------------------------------------------------------------
  // Transitions
  // ---------------------------------------------------------------------------

  /**
   * One admission step (`_check`): when a task waits and a slot is free, the
   * head of the queue joins the running set.
   */
  function AdmitStep<T>(s: PoolState<T>): (r: PoolState<T>)
    ensures r.limit == s.limit && r.enqueued == s.enqueued && r.done == s.done
  {
    if |s.queue| > 0 && |s.running| < s.limit then
      s.(queue := s.queue[1..],
         running := s.running + {s.queue[0]},
         started := s.started + [s.queue[0]])
    else
      s
  }

  /**
   * What one admission step promises: nothing is lost or reordered (the
   * started log followed by the queue spells out the same tasks), at most one
   * task starts, one starts exactly when a task waits and a slot is free, and
   * the task that started, if any, is now running while nobody else moved.
   */
  lemma AdmitStepMoves<T>(s: PoolState<T>)
    ensures var r := AdmitStep(s);
      && r.started + r.queue == s.started + s.queue
      && s.started <= r.started && |r.started| <= |s.started| + 1
      && (|r.started| == |s.started| + 1 <==> |s.queue| > 0 && |s.running| < s.limit)
      && r.running == s.running + Elems(r.started[|s.started|..])
  {
    if |s.queue| > 0 && |s.running| < s.limit {
      var head := s.queue[0];
      assert [head] + s.queue[1..] == s.queue;
      Reassociate(s.started, [head], s.queue[1..]);
      assert (s.started + [head])[|s.started|..] == [head];
      assert Elems([head]) == {head};
    } else {
      assert s.started[|s.started|..] == [];
    }
  }

  /**
   * Admission run to completion: start head tasks until the queue is empty
   * or the pool is full. `_check` runs one step of it.
   */
  function AdmitAll<T>(s: PoolState<T>): (r: PoolState<T>)
    ensures r.limit == s.limit && r.enqueued == s.enqueued && r.done == s.done
    ensures r.started + r.queue == s.started + s.queue
    ensures s.started <= r.started
    ensures |r.queue| == 0 || |r.running| >= r.limit
    decreases |s.queue|
  {
    if |s.queue| > 0 && |s.running| < s.limit then AdmitAll(AdmitStep(s)) else s
  }

  /** The first half of `enqueue`: the task is appended to the queue and the enqueue log. */
  function Push<T>(s: PoolState<T>, t: T): (r: PoolState<T>)
    ensures r.enqueued == s.enqueued + [t] && r.queue == s.queue + [t]
    ensures r.limit == s.limit && r.running == s.running && r.started == s.started && r.done == s.done
  {
    s.(queue := s.queue + [t], enqueued := s.enqueued + [t])
  }

  /**
   * `enqueue`: the task is appended to the queue, then one admission step
   * runs. The new task is logged last, and nothing is lost or reordered.
   */
  function EnqueueStep<T>(s: PoolState<T>, t: T): (r: PoolState<T>)
    ensures r.limit == s.limit && r.done == s.done
    ensures r.enqueued == s.enqueued + [t]
  {
    AdmitStep(Push(s, t))
  }

  /** The first half of `_remove`: the settled task leaves the running set and is done. */
  function Delete<T>(s: PoolState<T>, t: T): (r: PoolState<T>)
    ensures t !in r.running && t in r.done
    ensures r.limit == s.limit && r.queue == s.queue && r.enqueued == s.enqueued && r.started == s.started
  {
    s.(running := s.running - {t}, done := s.done + {t})
  }

  /**
   * `_remove`, the settlement callback of a running task: the task leaves the
   * running set, then one admission step runs.
   */
  function RemoveStep<T>(s: PoolState<T>, t: T): (r: PoolState<T>)
    requires t in s.running
    ensures r.limit == s.limit && r.enqueued == s.enqueued
    ensures r.done == s.done + {t}
  {
    AdmitStep(Delete(s, t))
  }

  // ---------------------------------------------------------------------------
  // Lemmas about single transitions
  // ---------------------------------------------------------------------------

  lemma DistinctAppend<T>(xs: seq<T>, x: T)
    requires Distinct(xs) && x !in xs
    ensures Distinct(xs + [x])
  {
    var ys := xs + [x];
    forall i, j | 0 <= i < j < |ys| ensures ys[i] != ys[j] {
      if j == |xs| {
        assert ys[i] == xs[i];
      }
    }
  }

  /** In a consistent state the head of the queue has not been started. */
  lemma HeadNotStarted<T>(s: PoolState<T>)
    requires Consistent(s) && |s.queue| > 0
    ensures s.queue[0] !in s.started
    ensures s.queue[0] !in s.running && s.queue[0] !in s.done
  {
    forall i | 0 <= i < |s.started| ensures s.started[i] != s.queue[0] {
      assert s.started[i] == s.enqueued[i] && s.queue[0] == s.enqueued[|s.started|];
    }
    assert s.queue[0] !in Elems(s.started);
  }

  /** Appending an element to a sequence adds it to its elements. */
  lemma ElemsAppend<T>(xs: seq<T>, x: T)
    ensures Elems(xs + [x]) == Elems(xs) + {x}
  {
    assert forall y :: y in xs + [x] <==> y in xs || y == x;
  }

  /** Starting the head of the queue keeps the started log followed by the queue. */
  lemma StartHeadOrder<T>(s: PoolState<T>)
    requires |s.queue| > 0 && |s.running| < s.limit
    ensures AdmitStep(s).started + AdmitStep(s).queue == s.started + s.queue
  {
    var head := s.queue[0];
    assert [head] + s.queue[1..] == s.queue;
    Reassociate(s.started, [head], s.queue[1..]);
  }

  /** Starting the head of the queue moves a task that was neither running nor done. */
  lemma StartHeadSets<T>(s: PoolState<T>)
    requires Consistent(s) && |s.queue| > 0 && |s.running| < s.limit
    ensures Elems(AdmitStep(s).started) == AdmitStep(s).running + AdmitStep(s).done
    ensures AdmitStep(s).running !! AdmitStep(s).done
    ensures |AdmitStep(s).running| == |s.running| + 1
  {
    HeadNotStarted(s);
    ElemsAppend(s.started, s.queue[0]);
  }

  /** A step that starts the head of the queue keeps the state consistent. */
  lemma StartHeadConsistent<T>(s: PoolState<T>)
    requires Consistent(s) && |s.queue| > 0 && |s.running| < s.limit
    ensures Consistent(AdmitStep(s))
    ensures |AdmitStep(s).running| == |s.running| + 1
  {
    StartHeadOrder(s);
    StartHeadSets(s);
  }

  /**
   * From the state `_check` is entered in, one admission step restores the
   * invariant, and it does everything a full admission loop would do.
   */
  lemma AdmitRestores<T>(s: PoolState<T>)
    requires ReadyToAdmit(s)
    ensures Valid(AdmitStep(s))
    ensures AdmitStep(s) == AdmitAll(s)
  {
    var r := AdmitStep(s);
    if |s.queue| > 0 && |s.running| < s.limit {
      StartHeadConsistent(s);
      assert |r.queue| == |s.queue| - 1;
      assert !(|r.queue| > 0 && |r.running| < r.limit);
    }
  }

  /**
   * Appending a fresh task to a pool in its invariant leaves at most one task
   * that could start: the queue was empty, or every slot was taken.
   */
  lemma PushReady<T>(s: PoolState<T>, t: T)
    requires Valid(s) && t !in s.enqueued
    ensures ReadyToAdmit(Push(s, t))
  {
    var p := Push(s, t);
    DistinctAppend(s.enqueued, t);
    assert p.enqueued == p.started + p.queue;
  }

  /** `enqueue` keeps the invariant. */
  lemma EnqueuePreserves<T>(s: PoolState<T>, t: T)
    requires Valid(s) && t !in s.enqueued
    ensures Valid(EnqueueStep(s, t))
  {
    PushReady(s, t);
    AdmitRestores(Push(s, t));
  }

  /**
   * What `enqueue` does: if a slot was free the queue was empty and the new
   * task starts at once; otherwise it waits at the tail of the queue and
   * nothing else changes.
   */
  lemma EnqueueEffect<T>(s: PoolState<T>, t: T)
    requires Valid(s) && t !in s.enqueued
    ensures var r := EnqueueStep(s, t);
      if |s.running| < s.limit then
        |s.queue| == 0 && |r.queue| == 0 && r.running == s.running + {t} && r.started == s.started + [t]
      else
        r.queue == s.queue + [t] && r.running == s.running && r.started == s.started
  {
  }

  /**
   * Settling a running task of a pool in its invariant frees exactly one slot,
   * so at most one task could start.
   */
  lemma DeleteReady<T>(s: PoolState<T>, t: T)
    requires Valid(s) && t in s.running
    ensures ReadyToAdmit(Delete(s, t))
  {
    var p := Delete(s, t);
    assert Elems(p.started) == p.running + p.done;
  }

  /** `_remove` keeps the invariant. */
  lemma RemovePreserves<T>(s: PoolState<T>, t: T)
    requires Valid(s) && t in s.running
    ensures Valid(RemoveStep(s, t))
  {
    DeleteReady(s, t);
    AdmitRestores(Delete(s, t));
  }

  /**
   * What `_remove` does: the settled task no longer runs; if a task was
   * waiting, the head of the queue takes the freed slot and the pool stays
   * full, otherwise the running set shrinks by one. Either way one task fewer
   * is waiting or running, so settlements cannot go on for ever.
   */
  lemma RemoveEffect<T>(s: PoolState<T>, t: T)
    requires Valid(s) && t in s.running
    ensures var r := RemoveStep(s, t);
      && t !in r.running
      && |r.queue| + |r.running| + 1 == |s.queue| + |s.running|
      && if |s.queue| == 0 then
           r.running == s.running - {t} && |r.queue| == 0 && r.started == s.started
         else
           r.running == s.running - {t} + {s.queue[0]} && r.queue == s.queue[1..]
           && r.started == s.started + [s.queue[0]] && |r.running| == s.limit
  {
    if |s.queue| > 0 {
      HeadNotStarted(s);
    }
  }

  /**
   * Conservation: every enqueued task is in exactly one of the queue, the
   * running set and the done set, and nothing else is in any of them; no task
   * starts twice.
   */
  lemma Conservation<T>(s: PoolState<T>)
    requires Valid(s)
    ensures forall t :: t in s.enqueued <==> t in s.queue || t in s.running || t in s.done
    ensures forall t | t in s.queue :: t !in s.running && t !in s.done
    ensures s.running !! s.done
    ensures Distinct(s.started) && Distinct(s.queue)
  {
    DistinctSplit(s.started, s.queue);
    forall t ensures t in s.enqueued <==> t in s.queue || t in s.running || t in s.done {
      assert t in s.enqueued <==> t in s.started || t in s.queue;
      assert t in s.started <==> t in Elems(s.started);
    }
  }

  /** The two parts of a sequence without repetitions have none and share nothing. */
  lemma DistinctSplit<T>(a: seq<T>, b: seq<T>)
    requires Distinct(a + b)
    ensures Distinct(a) && Distinct(b)
    ensures forall x | x in b :: x !in a
  {
    var ab := a + b;
    forall i, j | 0 <= i < j < |a| ensures a[i] != a[j] {
      assert a[i] == ab[i] && a[j] == ab[j];
    }
    forall i, j | 0 <= i < j < |b| ensures b[i] != b[j] {
      assert b[i] == ab[|a| + i] && b[j] == ab[|a| + j];
    }
    forall x | x in b ensures x !in a {
      var k :| 0 <= k < |b| && b[k] == x;
      forall i | 0 <= i < |a| ensures a[i] != x {
        assert a[i] == ab[i] && x == ab[|a| + k];
      }
    }
  }

  lemma CardElems<T>(xs: seq<T>)
    requires Distinct(xs)
    ensures |Elems(xs)| == |xs|
    decreases |xs|
  {
    if |xs| > 0 {
      var init := xs[..|xs| - 1];
      assert Distinct(init) by {
        forall i, j | 0 <= i < j < |init| ensures init[i] != init[j] {
          assert init[i] == xs[i] && init[j] == xs[j];
        }
      }
      CardElems(init);
      assert xs == init + [xs[|xs| - 1]];
      assert Elems(xs) == Elems(init) + {xs[|xs| - 1]};
      assert xs[|xs| - 1] !in Elems(init);
    }
  }

  lemma CardSubset<T>(a: set<T>, b: set<T>)
    requires a <= b
    ensures |a| <= |b|
    decreases |b|
  {
    if a != {} {
      var x :| x in a;
      CardSubset(a - {x}, b - {x});
    }
  }

  /**
   * When the limit is at least the number of tasks ever enqueued, no task
   * ever waits: each one starts as soon as it is enqueued.
   */
  lemma NoWaitingWithinLimit<T>(s: PoolState<T>)
    requires Valid(s) && |s.enqueued| <= s.limit
    ensures |s.queue| == 0 && s.started == s.enqueued
  {
    Conservation(s);
    CardElems(s.started);
    CardSubset(s.running, Elems(s.started));
  }

  /**
   * A pool with nothing running has nothing waiting, and every task ever
   * enqueued is done: no task is left behind.
   */
  lemma Quiescent<T>(s: PoolState<T>)
    requires Valid(s) && |s.running| == 0
    ensures |s.queue| == 0 && s.done == Elems(s.enqueued)
  {
    assert s.enqueued == s.started;
  }

  // ---------------------------------------------------------------------------
  // Runs: sequences of enqueue and settlement events
  // ---------------------------------------------------------------------------

  /**
   * An external event: a call of `enqueue` with the (fresh) task it creates,
   * or the settlement of a running task's action, which calls `_remove`.
   */
  datatype Event<T> = Submit(task: T) | Settle(task: T)

  /** Whether the event can happen in state `s`. */
  ghost predicate Enabled<T>(s: PoolState<T>, e: Event<T>)
  {
    match e
    case Submit(t) => t !in s.enqueued
    case Settle(t) => t in s.running
  }

  function Apply<T>(s: PoolState<T>, e: Event<T>): PoolState<T>
    requires Enabled(s, e)
  {
    match e
    case Submit(t) => EnqueueStep(s, t)
    case Settle(t) => RemoveStep(s, t)
  }

  /** Every event of `evs` is enabled when it happens. */
  ghost predicate Legal<T>(s: PoolState<T>, evs: seq<Event<T>>)
    decreases |evs|
  {
    |evs| == 0 || (Enabled(s, evs[0]) && Legal(Apply(s, evs[0]), evs[1..]))
  }

  function Run<T>(s: PoolState<T>, evs: seq<Event<T>>): PoolState<T>
    requires Legal(s, evs)
    decreases |evs|
  {
    if |evs| == 0 then s else Run(Apply(s, evs[0]), evs[1..])
  }

  /** The tasks submitted by `evs`, in order. */
  function Submitted<T>(evs: seq<Event<T>>): seq<T>
    decreases |evs|
  {
    if |evs| == 0 then []
    else (if evs[0].Submit? then [evs[0].task] else []) + Submitted(evs[1..])
  }

  /** The tasks settled by `evs`. */
  ghost function Settled<T>(evs: seq<Event<T>>): set<T>
    decreases |evs|
  {
    if |evs| == 0 then {}
    else (if evs[0].Settle? then {evs[0].task} else {}) + Settled(evs[1..])
  }

  /** One event keeps the invariant. */
  lemma ApplyPreserves<T>(s: PoolState<T>, e: Event<T>)
    requires Valid(s) && Enabled(s, e)
    ensures Valid(Apply(s, e))
  {
    match e {
      case Submit(t) => EnqueuePreserves(s, t);
      case Settle(t) => RemovePreserves(s, t);
    }
  }

  /** One event extends the logs by exactly the task it submits or settles. */
  lemma ApplyLogs<T>(s: PoolState<T>, e: Event<T>)
    requires Enabled(s, e)
    ensures Apply(s, e).limit == s.limit
    ensures Apply(s, e).enqueued == s.enqueued + (if e.Submit? then [e.task] else [])
    ensures Apply(s, e).done == s.done + (if e.Settle? then {e.task} else {})
  {
  }

  /** Every legal run keeps the invariant. */
  lemma {:induction false} RunPreserves<T>(s: PoolState<T>, evs: seq<Event<T>>)
    requires Valid(s) && Legal(s, evs)
    ensures Valid(Run(s, evs))
    decreases |evs|
  {
    if |evs| > 0 {
      ApplyPreserves(s, evs[0]);
      RunPreserves(Apply(s, evs[0]), evs[1..]);
    }
  }

  /** Every legal run keeps the limit and appends the submitted tasks to the enqueue log, in order. */
  lemma {:induction false} RunEnqueued<T>(s: PoolState<T>, evs: seq<Event<T>>)
    requires Legal(s, evs)
    ensures Run(s, evs).limit == s.limit
    ensures Run(s, evs).enqueued == s.enqueued + Submitted(evs)
    decreases |evs|
  {
    if |evs| > 0 {
      var s', rest := Apply(s, evs[0]), evs[1..];
      ApplyLogs(s, evs[0]);
      RunEnqueued(s', rest);
      var head := if evs[0].Submit? then [evs[0].task] else [];
      assert Submitted(evs) == head + Submitted(rest);
      Reassociate(s.enqueued, head, Submitted(rest));
    }
  }

  /** Concatenation of sequences is associative. */
  lemma Reassociate<T>(a: seq<T>, b: seq<T>, c: seq<T>)
    ensures (a + b) + c == a + (b + c)
  {
  }

  /** Every legal run marks exactly the settled tasks done. */
  lemma {:induction false} RunDone<T>(s: PoolState<T>, evs: seq<Event<T>>)
    requires Legal(s, evs)
    ensures Run(s, evs).done == s.done + Settled(evs)
    decreases |evs|
  {
    if |evs| > 0 {
      var s' := Apply(s, evs[0]);
      ApplyLogs(s, evs[0]);
      RunDone(s', evs[1..]);
    }
  }

  /**
   * The pool's promises over any run from a fresh pool: never more than
   * `limit` tasks run, tasks start in exactly the order they were enqueued
   * (the k-th task to start is the k-th task enqueued), none starts twice,
   * and the done tasks are exactly those whose action settled.
   */
  lemma FifoFromInit<T>(limit: nat, evs: seq<Event<T>>)
    requires limit > 0 && Legal(Init<T>(limit), evs)
    ensures var r := Run(Init<T>(limit), evs);
      && |r.running| <= limit
      && r.started <= Submitted(evs)
      && Distinct(r.started)
      && r.done == Settled(evs)
  {
    var s0 := Init<T>(limit);
    var r := Run(s0, evs);
    RunPreserves(s0, evs);
    RunEnqueued(s0, evs);
    RunDone(s0, evs);
    assert r.enqueued == Submitted(evs) by {
      assert s0.enqueued + Submitted(evs) == Submitted(evs);
    }
    assert r.done == Settled(evs) by {
      assert s0.done + Settled(evs) == Settled(evs);
    }
    assert r.started <= r.enqueued;
    Conservation(r);
  }

  /**
   * From any valid state there is an order of settlements that drains the
   * pool: one settlement per waiting or running task, after which nothing
   * waits, nothing runs and every task ever enqueued is done.
   */
  ghost function Drain<T>(s: PoolState<T>): (evs: seq<Event<T>>)
    requires Valid(s)
    ensures Legal(s, evs)
    ensures |evs| == |s.queue| + |s.running|
    ensures Submitted(evs) == []
    ensures var r := Run(s, evs);
      |r.queue| == 0 && |r.running| == 0 && r.done == Elems(s.enqueued)
    decreases |s.queue| + |s.running|
  {
    if |s.running| == 0 then
      Quiescent(s);
      []
    else
      var t :| t in s.running;
      RemovePreserves(s, t);
      RemoveEffect(s, t);
      var rest := Drain(RemoveStep(s, t));
      assert ([Settle(t)] + rest)[1..] == rest;
      [Settle(t)] + rest
  }

  /** One settlement keeps the invariant and removes one task from the pool. */
  lemma SettleShrinks<T>(s: PoolState<T>, e: Event<T>)
    requires Valid(s) && Enabled(s, e) && e.Settle?
    ensures Valid(Apply(s, e))
    ensures |Apply(s, e).queue| + |Apply(s, e).running| + 1 == |s.queue| + |s.running|
  {
    RemovePreserves(s, e.task);
    RemoveEffect(s, e.task);
  }

  /**
   * Each settlement of a legal run of settlements removes one task from the
   * pool: waiting plus running drops by one per event.
   */
  lemma {:induction false} SettleRunShrinks<T>(s: PoolState<T>, evs: seq<Event<T>>)
    requires Valid(s) && Legal(s, evs)
    requires forall i :: 0 <= i < |evs| ==> evs[i].Settle?
    ensures |Run(s, evs).queue| + |Run(s, evs).running| + |evs| == |s.queue| + |s.running|
    decreases |evs|
  {
    if |evs| > 0 {
      SettleShrinks(s, evs[0]);
      var rest := evs[1..];
      assert forall i :: 0 <= i < |rest| ==> rest[i] == evs[i + 1];
      SettleRunShrinks(Apply(s, evs[0]), rest);
    }
  }

  /** A run of settlements submits nothing. */
  lemma {:induction false} SettlesSubmitNothing<T>(evs: seq<Event<T>>)
    requires forall i :: 0 <= i < |evs| ==> evs[i].Settle?
    ensures Submitted(evs) == []
    decreases |evs|
  {
    if |evs| > 0 {
      var rest := evs[1..];
      assert forall i :: 0 <= i < |rest| ==> rest[i] == evs[i + 1];
      SettlesSubmitNothing(rest);
    }
  }

  /**
   * Settlements in any order drain the pool: every legal run of as many
   * settlements as there are waiting and running tasks ends with nothing
   * waiting, nothing running and every task ever enqueued done.
   */
  lemma DrainAnyOrder<T>(s: PoolState<T>, evs: seq<Event<T>>)
    requires Valid(s) && Legal(s, evs)
    requires forall i :: 0 <= i < |evs| ==> evs[i].Settle?
    requires |evs| == |s.queue| + |s.running|
    ensures var r := Run(s, evs);
      |r.queue| == 0 && |r.running| == 0 && r.done == Elems(s.enqueued)
  {
    RunPreserves(s, evs);
    RunEnqueued(s, evs);
    SettlesSubmitNothing(evs);
    SettleRunShrinks(s, evs);
    assert s.enqueued + [] == s.enqueued;
    Quiescent(Run(s, evs));
  }

  // ---------------------------------------------------------------------------
  // Scenario
  // ---------------------------------------------------------------------------

  /**
   * The unit test `enqueue works`: limit 2, three tasks whose actions take
   * 200, 100 and 50 time units. Tasks 1 and 2 start at once and task 3 waits;
   * task 2 settles first and task 3 takes its slot at that moment, so task 3
   * can settle before task 1, giving the completion order 2, 3, 1.
   */
  lemma ScenarioTwoSlots()
    // tasks 1 and 2 start at once, task 3 waits
    ensures EnqueueStep(EnqueueStep(EnqueueStep(Init<int>(2), 1), 2), 3)
         == PoolState(2, [3], {1, 2}, [1, 2, 3], [1, 2], {})
    // task 2 settles first, and task 3 takes its slot at once
    ensures RemoveStep(PoolState(2, [3], {1, 2}, [1, 2, 3], [1, 2], {}), 2)
         == PoolState(2, [], {1, 3}, [1, 2, 3], [1, 2, 3], {2})
    // task 3 settles before task 1, and then nothing is left
    ensures RemoveStep(PoolState(2, [], {1, 3}, [1, 2, 3], [1, 2, 3], {2}), 3)
         == PoolState(2, [], {1}, [1, 2, 3], [1, 2, 3], {2, 3})
    ensures RemoveStep(PoolState(2, [], {1}, [1, 2, 3], [1, 2, 3], {2, 3}), 1)
         == PoolState(2, [], {}, [1, 2, 3], [1, 2, 3], {1, 2, 3})
  {
    ScenarioEnqueues();
    ScenarioSecondSettles();
    ScenarioThirdSettles();
    ScenarioFirstSettles();
  }

  lemma ScenarioEnqueues()
    ensures EnqueueStep(EnqueueStep(EnqueueStep(Init<int>(2), 1), 2), 3)
         == PoolState(2, [3], {1, 2}, [1, 2, 3], [1, 2], {})
  {
    ScenarioFirstEnqueue();
    ScenarioSecondEnqueue();
    ScenarioThirdEnqueue();
  }

  lemma ScenarioFirstEnqueue()
    ensures EnqueueStep(Init<int>(2), 1) == PoolState(2, [], {1}, [1], [1], {})
  {
  }

  lemma ScenarioSecondEnqueue()
    ensures EnqueueStep(PoolState(2, [], {1}, [1], [1], {}), 2)
         == PoolState(2, [], {1, 2}, [1, 2], [1, 2], {})
  {
  }

  lemma ScenarioThirdEnqueue()
    ensures EnqueueStep(PoolState(2, [], {1, 2}, [1, 2], [1, 2], {}), 3)
         == PoolState(2, [3], {1, 2}, [1, 2, 3], [1, 2], {})
  {
    assert |{1, 2}| == 2;
  }

  lemma ScenarioSecondSettles()
    ensures RemoveStep(PoolState(2, [3], {1, 2}, [1, 2, 3], [1, 2], {}), 2)
         == PoolState(2, [], {1, 3}, [1, 2, 3], [1, 2, 3], {2})
  {
    assert {1, 2} - {2} == {1};
  }

  lemma ScenarioThirdSettles()
    ensures RemoveStep(PoolState(2, [], {1, 3}, [1, 2, 3], [1, 2, 3], {2}), 3)
         == PoolState(2, [], {1}, [1, 2, 3], [1, 2, 3], {2, 3})
  {
    assert {1, 3} - {3} == {1};
  }

  lemma ScenarioFirstSettles()
    ensures RemoveStep(PoolState(2, [], {1}, [1, 2, 3], [1, 2, 3], {2, 3}), 1)
         == PoolState(2, [], {}, [1, 2, 3], [1, 2, 3], {1, 2, 3})
  {
    assert {1} - {1} == {};
  }
}
