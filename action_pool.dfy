/**
 * The `ActionPool` class: a FIFO queue of waiting tasks, a set of running
 * tasks and a positive limit, mutated in place by `enqueue`, `_check` and
 * `_remove`. Every method is proved against the transitions of module
 * `Admission`, whose lemmas carry the pool's promises.
 */
module Pool {
  import opened Wrappers
  import opened JsValues
  import Admission

  const LimitMessage: string := "limit argument must be a positive finite number"
  const ActionMessage: string := "action argument must be a Function"

  /**
   * The argument check of the constructor: the limit must be a number and
   * greater than zero; the stored limit is that number.
   */
  function CheckLimit(limit: JsValue): (r: Result<nat, Error>)
    ensures r.Success? <==> limit.Number? && limit.n > 0
    ensures r.Success? ==> r.value == limit.n && r.value > 0
    ensures r.Failure? ==> r.error == TypeError(LimitMessage)
  {
    if TypeOf(limit) != "number" || limit.n <= 0 then Failure(TypeError(LimitMessage))
    else Success(limit.n)
  }

  /**
   * A delayed promise: the caller's handle on one enqueued action. Each call
   * of `enqueue` creates a new one, so tasks are told apart by identity.
   */
  class Task {
    const action: JsValue

    constructor (action: JsValue)
      requires TypeOf(action) == "function"
      ensures this.action == action
    {
      this.action := action;
    }
  }

  /** Wraps an action in a new task, or fails when the action is not a function. */
  method MakeDelayedPromise(action: JsValue) returns (r: Result<Task, Error>)
    ensures r.Success? <==> TypeOf(action) == "function"
    ensures r.Failure? ==> r.error == TypeError(ActionMessage)
    ensures r.Success? ==> fresh(r.value) && r.value.action == action
  {
    if TypeOf(action) != "function" {
      return Failure(TypeError(ActionMessage));
    }
    var task := new Task(action);
    r := Success(task);
  }

  class ActionPool {
    var queue: seq<Task>
    var running: set<Task>
    const limit: nat

    // history, kept for the specification only
    ghost var enqueued: seq<Task>
    ghost var started: seq<Task>
    ghost var done: set<Task>

    /** The pool as a value of the admission state machine. */
    ghost function State(): Admission.PoolState<Task>
      reads this
    {
      Admission.PoolState(limit, queue, running, enqueued, started, done)
    }

    ghost predicate Valid()
      reads this
    {
      Admission.Valid(State())
    }

    /** The `queued` getter: in the invariant, a task waits only while every slot is taken. */
    function Queued(): (n: nat)
      reads this
      ensures n == |queue|
      ensures Valid() && n > 0 ==> |running| == limit
    {
      |queue|
    }

    /** The `running` getter: never more than the limit. */
    function Running(): (n: nat)
      requires Admission.Consistent(State())
      reads this
      ensures n == |running| && n <= limit
    {
      |running|
    }

    /** The `limit` getter: the positive number the pool was created with. */
    function Limit(): (n: nat)
      requires Admission.Consistent(State())
      reads this
      ensures n == limit && n > 0
    {
      limit
    }

    /** The state the constructor leaves once its argument check passed. */
    constructor (limit: nat)
      requires limit > 0
      ensures Valid()
      ensures State() == Admission.Init(limit)
    {
      this.limit := limit;
      queue := [];
      running := {};
      enqueued, started, done := [], [], {};
    }

    /**
     * `new ActionPool({ limit })`: throws unless `limit` is a positive
     * number; otherwise a pool with nothing queued and nothing running.
     */
    static method Create(limit: JsValue) returns (r: Result<ActionPool, Error>)
      ensures r.Failure? <==> !(limit.Number? && limit.n > 0)
      ensures r.Failure? ==> r.error == TypeError(LimitMessage)
      ensures r.Success? ==>
        && fresh(r.value) && r.value.Valid()
        && r.value.limit == limit.n && r.value.queue == [] && r.value.running == {}
        && r.value.State() == Admission.Init(limit.n)
    {
      var checked := CheckLimit(limit);
      if checked.Failure? {
        return Failure(checked.error);
      }
      var pool := new ActionPool(checked.value);
      r := Success(pool);
    }

    /**
     * `enqueue(action)`: throws, changing nothing, when the action is not a
     * function; otherwise creates a task, appends it to the queue, runs one
     * admission step and returns the task.
     */
    method Enqueue(action: JsValue) returns (r: Result<Task, Error>)
      requires Valid()
      modifies this
      ensures Valid()
      ensures r.Failure? <==> TypeOf(action) != "function"
      ensures r.Failure? ==> r.error == TypeError(ActionMessage) && unchanged(this)
      ensures r.Success? ==>
        && fresh(r.value) && r.value.action == action
        && State() == Admission.EnqueueStep(old(State()), r.value)
      // the new task starts at once when a slot is free (the queue is then
      // empty), and otherwise waits at the tail of the queue
      ensures r.Success? ==>
        if old(|running|) < limit
        then old(queue) == [] && queue == [] && running == old(running) + {r.value}
        else queue == old(queue) + [r.value] && running == old(running)
    {
      if TypeOf(action) != "function" {
        return Failure(TypeError(ActionMessage));
      }
      var made := MakeDelayedPromise(action);
      var task := made.value;
      Admission.PushReady(State(), task);
      Admission.EnqueueEffect(State(), task);
      queue := queue + [task];
      enqueued := enqueued + [task];
      Check();
      r := Success(task);
    }

    /**
     * `_check`: if a task waits and a slot is free, the head of the queue
     * starts. Entered with the invariant broken by at most one slot or task.
     */
    method Check()
      requires Admission.ReadyToAdmit(State())
      modifies this
      ensures Admission.Valid(State())
      ensures State() == Admission.AdmitStep(old(State()))
      ensures if old(|queue| > 0 && |running| < limit)
        then queue == old(queue[1..]) && running == old(running) + {old(queue[0])}
        else queue == old(queue) && running == old(running)
    {
      ghost var before := State();
      Admission.AdmitRestores(before);
      if Queued() > 0 && Running() < Limit() {
        var task := queue[0];
        queue := queue[1..];
        running := running + {task};
        started := started + [task];
        assert State() == before.(queue := queue, running := running, started := started);
      }
    }

    /**
     * `_remove(task)`, the callback that the settlement of a running task's
     * action triggers: the task leaves the running set, then one admission
     * step runs.
     */
    method Remove(task: Task)
      requires Valid() && task in running
      modifies this
      ensures Valid()
      ensures State() == Admission.RemoveStep(old(State()), task)
      // the freed slot goes to the head of the queue, if a task waits
      ensures task !in running
      ensures if old(queue) == []
        then queue == [] && running == old(running) - {task}
        else queue == old(queue[1..]) && running == old(running) - {task} + {old(queue[0])}
    {
      Admission.DeleteReady(State(), task);
      Admission.RemoveEffect(State(), task);
      running := running - {task};
      done := done + {task};
      Check();
    }
  }

  /**
   * The unit test `enqueue works` on the class: limit 2 and three actions.
   * Two run and one waits; when the second settles the third starts; after
   * all three settle the pool is empty.
   */
  method EnqueueWorks() returns (queuedAfterEnqueue: nat, runningAfterEnqueue: nat,
                                 thirdStartsOnSecond: bool, queuedAtEnd: nat, runningAtEnd: nat)
    ensures queuedAfterEnqueue == 1 && runningAfterEnqueue == 2
    ensures thirdStartsOnSecond
    ensures queuedAtEnd == 0 && runningAtEnd == 0
  {
    var pool, t1, t2 := StartTwo();
    var r3 := pool.Enqueue(Function(3));
    var t3 := r3.value;
    queuedAfterEnqueue, runningAfterEnqueue := pool.Queued(), pool.Running();
    SettleSecond(pool, t1, t2, t3);
    thirdStartsOnSecond := t3 in pool.running;
    SettleThirdThenFirst(pool, t1, t3);
    queuedAtEnd, runningAtEnd := pool.Queued(), pool.Running();
  }

  /** A pool of limit 2 and two enqueued actions: both run at once. */
  method StartTwo() returns (pool: ActionPool, t1: Task, t2: Task)
    ensures fresh(pool) && pool.Valid()
    ensures pool.running == {t1, t2} && pool.queue == [] && pool.limit == 2 && t1 != t2
  {
    var created := ActionPool.Create(Number(2));
    pool := created.value;
    var r1 := pool.Enqueue(Function(1));
    t1 := r1.value;
    assert pool.running == {t1} && pool.queue == [];
    var r2 := pool.Enqueue(Function(2));
    t2 := r2.value;
  }

  /** The second task settles first, and the waiting third task takes its slot. */
  method SettleSecond(pool: ActionPool, t1: Task, t2: Task, t3: Task)
    requires pool.Valid() && pool.running == {t1, t2} && pool.queue == [t3]
    requires t1 != t2 && t1 != t3 && t2 != t3
    modifies pool
    ensures pool.Valid() && pool.running == {t1, t3} && pool.queue == []
  {
    assert {t1, t2} - {t2} == {t1};
    pool.Remove(t2);
    assert pool.running == {t1} + {t3};
  }

  /** The third task settles before the first; then nothing is left. */
  method SettleThirdThenFirst(pool: ActionPool, t1: Task, t3: Task)
    requires pool.Valid() && pool.running == {t1, t3} && pool.queue == [] && t1 != t3
    modifies pool
    ensures pool.Valid() && pool.running == {} && pool.queue == []
  {
    pool.Remove(t3);
    assert {t1, t3} - {t3} == {t1};
    pool.Remove(t1);
  }
}
