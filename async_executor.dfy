/**
 * The coroutine executor that runs inside every kernel thread
 * (platforms/qemu-virt/src/async_executor.rs): a map from coroutine id to
 * future, a bounded FIFO of ids whose wakers fired, a cache of wakers, and
 * `ticks`, the number of polls made so far.
 *
 * Futures are opaque. What a future reports when polled is an oracle
 * `poll(id, k)`: the answer of coroutine `id` when polled as the executor's
 * poll number `k` (its `ticks` at that moment), so repeated polls of one
 * coroutine may answer differently.
 */
module AsyncExecutor {
  import opened Wrappers
  import opened Futures
  import Atomic

  /** Capacity of the ready queue (`ArrayQueue::new(TASKNUM)`). */
  const TASKNUM: nat := 300

  /** `TaskId(u64)`. */
  type TaskId = nat

  /** The answers futures give: `poll(id, k)` for coroutine `id` at poll number `k`. */
  type PollOracle = (TaskId, nat) -> Poll<()>

  /** `TaskId::new`: the next value of the executor-wide id counter. */
  method NewTaskId(counter: Atomic.Counter) returns (id: TaskId)
    requires counter.Valid()
    modifies counter
    ensures counter.Valid() && counter.issued == old(counter.issued) + [id]
    ensures |old(counter.issued)| < WORD ==> forall x :: x in old(counter.issued) ==> x < id
  {
    id := counter.FetchAdd();
  }

  /** The fields of an executor, as one value. */
  datatype ExecState = ExecState(tasks: map<TaskId, Future>, queue: seq<TaskId>, wakers: set<TaskId>, ticks: nat)

  /**
   * `run_ready_tasks` on a state: pop ids front to back until the queue is
   * empty. An id with no live coroutine is skipped; a live one gets a cached
   * waker, is polled, is removed together with its waker when Ready, and
   * counts one tick.
   */
  function Drain(s: ExecState, poll: PollOracle): ExecState
    decreases |s.queue|
  {
    if s.queue == [] then s
    else
      var id := s.queue[0];
      var rest := s.(queue := s.queue[1..]);
      if id !in s.tasks then Drain(rest, poll)
      else if poll(id, s.ticks).Ready? then
        Drain(rest.(tasks := s.tasks - {id}, wakers := s.wakers - {id}, ticks := s.ticks + 1), poll)
      else
        Drain(rest.(wakers := s.wakers + {id}, ticks := s.ticks + 1), poll)
  }

  /** The ids `Drain` polls, in the order it polls them. */
  function Polled(s: ExecState, poll: PollOracle): seq<TaskId>
    decreases |s.queue|
  {
    if s.queue == [] then []
    else
      var id := s.queue[0];
      var rest := s.(queue := s.queue[1..]);
      if id !in s.tasks then Polled(rest, poll)
      else if poll(id, s.ticks).Ready? then
        [id] + Polled(rest.(tasks := s.tasks - {id}, wakers := s.wakers - {id}, ticks := s.ticks + 1), poll)
      else
        [id] + Polled(rest.(wakers := s.wakers + {id}, ticks := s.ticks + 1), poll)
  }

  /** The ids whose poll answered Ready during `Drain`. */
  function Completed(s: ExecState, poll: PollOracle): set<TaskId>
    decreases |s.queue|
  {
    if s.queue == [] then {}
    else
      var id := s.queue[0];
      var rest := s.(queue := s.queue[1..]);
      if id !in s.tasks then Completed(rest, poll)
      else if poll(id, s.ticks).Ready? then
        {id} + Completed(rest.(tasks := s.tasks - {id}, wakers := s.wakers - {id}, ticks := s.ticks + 1), poll)
      else
        Completed(rest.(wakers := s.wakers + {id}, ticks := s.ticks + 1), poll)
  }

  /**
   * Draining empties the ready queue; `ticks` grows by exactly the number of
   * polls, and every polled id was queued and, when polled, live: stale ids
   * are never polled and cost no tick.
   */
  lemma {:induction false} DrainTicks(s: ExecState, poll: PollOracle)
    ensures Drain(s, poll).queue == []
    ensures Drain(s, poll).ticks == s.ticks + |Polled(s, poll)|
    ensures |Polled(s, poll)| <= |s.queue|
    ensures forall id :: id in Polled(s, poll) ==> id in s.queue && id in s.tasks
    decreases |s.queue|
  {
    if s.queue != [] {
      var id := s.queue[0];
      var rest := s.(queue := s.queue[1..]);
      if id !in s.tasks {
        DrainTicks(rest, poll);
      } else if poll(id, s.ticks).Ready? {
        DrainTicks(rest.(tasks := s.tasks - {id}, wakers := s.wakers - {id}, ticks := s.ticks + 1), poll);
      } else {
        DrainTicks(rest.(wakers := s.wakers + {id}, ticks := s.ticks + 1), poll);
      }
    }
  }

  /**
   * Draining removes exactly the coroutines that completed, each with its
   * cached waker, and never changes a future; every coroutine polled and
   * still Pending keeps a cached waker.
   */
  lemma {:induction false} DrainCompletion(s: ExecState, poll: PollOracle)
    ensures Completed(s, poll) <= s.tasks.Keys
    ensures Drain(s, poll).tasks == s.tasks - Completed(s, poll)
    ensures Drain(s, poll).wakers == (s.wakers + (set id | id in Polled(s, poll))) - Completed(s, poll)
    decreases |s.queue|
  {
    if s.queue != [] {
      var id := s.queue[0];
      var rest := s.(queue := s.queue[1..]);
      if id !in s.tasks {
        DrainCompletion(rest, poll);
      } else if poll(id, s.ticks).Ready? {
        var next := rest.(tasks := s.tasks - {id}, wakers := s.wakers - {id}, ticks := s.ticks + 1);
        DrainCompletion(next, poll);
        DrainTicks(next, poll);
      } else {
        var next := rest.(wakers := s.wakers + {id}, ticks := s.ticks + 1);
        DrainCompletion(next, poll);
      }
    }
  }

  /** Every id occurs at most once in `q`. */
  predicate Distinct(q: seq<TaskId>)
  {
    forall i, j :: 0 <= i < j < |q| ==> q[i] != q[j]
  }

  /**
   * `steal` can move the queue without hitting its `unwrap`: every queued id
   * names a live coroutine, and none is queued twice.
   */
  predicate Stealable(q: seq<TaskId>, tasks: map<TaskId, Future>)
  {
    Distinct(q) && forall id :: id in q ==> id in tasks
  }

  /** The ids in a queue. */
  function Ids(q: seq<TaskId>): set<TaskId>
  {
    set id | id in q
  }

  /**
   * Part way through `steal`'s loop: `moved` has left the queue `q0` for the
   * new queue, with its coroutines and without its cached wakers, and `rest`
   * is still to go.
   */
  ghost predicate Moving(q0: seq<TaskId>, t0: map<TaskId, Future>, w0: set<TaskId>,
                         moved: seq<TaskId>, rest: seq<TaskId>,
                         tasks: map<TaskId, Future>, wakers: set<TaskId>, newTasks: map<TaskId, Future>)
  {
    q0 == moved + rest && Stealable(moved, t0) &&
    newTasks.Keys == Ids(moved) && (forall x :: x in newTasks ==> x in t0 && newTasks[x] == t0[x]) &&
    tasks == t0 - Ids(moved) && wakers == w0 - Ids(moved)
  }

  /** Moving the next id, when its coroutine is still here, keeps the picture. */
  lemma MoveStep(q0: seq<TaskId>, t0: map<TaskId, Future>, w0: set<TaskId>,
                 moved: seq<TaskId>, rest: seq<TaskId>,
                 tasks: map<TaskId, Future>, wakers: set<TaskId>, newTasks: map<TaskId, Future>)
    requires Moving(q0, t0, w0, moved, rest, tasks, wakers, newTasks)
    requires rest != [] && rest[0] in tasks
    ensures Moving(q0, t0, w0, moved + [rest[0]], rest[1..], tasks - {rest[0]}, wakers - {rest[0]},
                   newTasks[rest[0] := tasks[rest[0]]])
  {
    var id := rest[0];
    assert q0 == (moved + [id]) + rest[1..];
    assert Ids(moved + [id]) == Ids(moved) + {id};
  }

  /** Meeting an id whose coroutine is gone means the queue was not stealable. */
  lemma MoveStuck(q0: seq<TaskId>, t0: map<TaskId, Future>, w0: set<TaskId>,
                  moved: seq<TaskId>, rest: seq<TaskId>,
                  tasks: map<TaskId, Future>, wakers: set<TaskId>, newTasks: map<TaskId, Future>)
    requires Moving(q0, t0, w0, moved, rest, tasks, wakers, newTasks)
    requires rest != [] && rest[0] !in tasks
    ensures !Stealable(q0, t0)
  {
    var id := rest[0];
    assert q0[|moved|] == id;
    if id in t0 {
      assert id in Ids(moved);
      var j :| 0 <= j < |moved| && moved[j] == id;
      assert q0[j] == id;
    }
  }

  /** Once the whole queue has moved, the two executors split the coroutines. */
  lemma MoveDone(q0: seq<TaskId>, t0: map<TaskId, Future>, w0: set<TaskId>,
                 moved: seq<TaskId>,
                 tasks: map<TaskId, Future>, wakers: set<TaskId>, newTasks: map<TaskId, Future>)
    requires Moving(q0, t0, w0, moved, [], tasks, wakers, newTasks)
    ensures moved == q0 && Stealable(q0, t0)
    ensures newTasks == Split(t0, Ids(q0)).0 && tasks == Split(t0, Ids(q0)).1
    ensures wakers == w0 - Ids(q0)
  {
    assert moved == q0;
    assert newTasks == Split(t0, Ids(q0)).0;
  }

  /**
   * The split `steal` makes of a task map: the coroutines with a queued id
   * go, the rest stay. The two parts are disjoint and together are the
   * original map.
   */
  function Split(tasks: map<TaskId, Future>, ids: set<TaskId>): (r: (map<TaskId, Future>, map<TaskId, Future>))
    ensures r.0.Keys == tasks.Keys * ids && r.1.Keys == tasks.Keys - ids
    ensures r.0.Keys !! r.1.Keys
    ensures r.0 + r.1 == tasks
  {
    var moved := map id | id in tasks && id in ids :: tasks[id];
    var kept := tasks - ids;
    assert moved + kept == tasks;
    (moved, kept)
  }

  /**
   * What `spawn` does to an executor state: a registered id panics, a full
   * ready queue panics, and otherwise the coroutine is registered under the
   * id and the id queued at the back, nothing else changing.
   */
  predicate Spawned(s0: ExecState, s1: ExecState, id: TaskId, fut: Future, o: Outcome)
  {
    (id in s0.tasks ==> o == Panic("task with same ID already in tasks")) &&
    (id !in s0.tasks && |s0.queue| >= TASKNUM ==> o == Panic("queue full")) &&
    (id !in s0.tasks && |s0.queue| < TASKNUM ==>
      o == Done && s1 == s0.(tasks := s0.tasks[id := fut], queue := s0.queue + [id]))
  }

  /**
   * What `run` does to an executor state, with `resumes` the wakes that
   * arrive while the thread is yielded: drain; stop when no coroutine is
   * left or no resume is left; otherwise queue the woken ids, panicking when
   * they do not fit in the ready queue, and go on. The state is the one
   * reached before the panic, when there is one.
   */
  function RunOf(s: ExecState, poll: PollOracle, resumes: seq<seq<TaskId>>): (ExecState, Outcome, bool)
    decreases |resumes|
  {
    var d := Drain(s, poll);
    if d.tasks == map[] then (d, Done, true)
    else if resumes == [] then (d, Done, false)
    else if |d.queue| + |resumes[0]| > TASKNUM then (d, Panic("task_queue full"), false)
    else RunOf(d.(queue := d.queue + resumes[0]), poll, resumes[1..])
  }

  /**
   * `run` ends with no coroutine left exactly when it reports finishing,
   * and then with an empty ready queue; it never polls backwards.
   */
  lemma {:induction false} RunOfEnds(s: ExecState, poll: PollOracle, resumes: seq<seq<TaskId>>)
    ensures RunOf(s, poll, resumes).1.Done? ==> (RunOf(s, poll, resumes).2 <==> RunOf(s, poll, resumes).0.tasks == map[])
    ensures RunOf(s, poll, resumes).2 ==> RunOf(s, poll, resumes).1.Done? && RunOf(s, poll, resumes).0.queue == []
    ensures RunOf(s, poll, resumes).0.ticks >= s.ticks
    decreases |resumes|
  {
    var d := Drain(s, poll);
    DrainTicks(s, poll);
    if d.tasks != map[] && resumes != [] && |d.queue| + |resumes[0]| <= TASKNUM {
      RunOfEnds(d.(queue := d.queue + resumes[0]), poll, resumes[1..]);
    }
  }

  /**
   * Since every drain empties the ready queue, `run` panics only when one
   * batch of wakes alone exceeds the queue's capacity.
   */
  lemma {:induction false} RunOfPanics(s: ExecState, poll: PollOracle, resumes: seq<seq<TaskId>>)
    ensures RunOf(s, poll, resumes).1.Panic? <==>
      exists k :: 0 <= k < |resumes| && |resumes[k]| > TASKNUM && RunOf(s, poll, resumes[..k]).1 == Done &&
        !RunOf(s, poll, resumes[..k]).2
    decreases |resumes|
  {
    var d := Drain(s, poll);
    DrainTicks(s, poll);
    if d.tasks == map[] {
      forall k | 0 <= k < |resumes| ensures RunOf(s, poll, resumes[..k]).2 {}
    } else if resumes != [] {
      assert RunOf(s, poll, resumes[..0]) == (d, Done, false);
      if |resumes[0]| <= TASKNUM {
        var s1 := d.(queue := d.queue + resumes[0]);
        RunOfPanics(s1, poll, resumes[1..]);
        forall k | 1 <= k <= |resumes|
          ensures RunOf(s, poll, resumes[..k]) == RunOf(s1, poll, resumes[1..][..k - 1])
        {
          assert resumes[..k][0] == resumes[0] && resumes[..k][1..] == resumes[1..][..k - 1];
        }
        if RunOf(s, poll, resumes).1.Panic? {
          var k' :| 0 <= k' < |resumes[1..]| && |resumes[1..][k']| > TASKNUM &&
            RunOf(s1, poll, resumes[1..][..k']).1 == Done && !RunOf(s1, poll, resumes[1..][..k']).2;
          assert resumes[k' + 1] == resumes[1..][k'];
        }
        if exists k :: 0 <= k < |resumes| && |resumes[k]| > TASKNUM && RunOf(s, poll, resumes[..k]).1 == Done &&
            !RunOf(s, poll, resumes[..k]).2 {
          var k :| 0 <= k < |resumes| && |resumes[k]| > TASKNUM && RunOf(s, poll, resumes[..k]).1 == Done &&
            !RunOf(s, poll, resumes[..k]).2;
          assert k > 0;
          assert resumes[1..][k - 1] == resumes[k];
        }
      }
    }
  }

  /**
   * The ready queue is an `ArrayQueue` of capacity TASKNUM: it never holds
   * more ids, so a push fails exactly when it is at capacity, written
   * `>= TASKNUM` below.
   */
  class Executor {
    var tasks: map<TaskId, Future>
    var taskQueue: seq<TaskId>
    var wakerCache: set<TaskId>
    var ticks: nat

    ghost predicate Valid()
      reads this
    {
      |taskQueue| <= TASKNUM
    }

    function State(): ExecState
      reads this
    {
      ExecState(tasks, taskQueue, wakerCache, ticks)
    }

    /** `Executor::new`. */
    constructor ()
      ensures Valid() && tasks == map[] && taskQueue == [] && wakerCache == {} && ticks == 0
    {
      tasks := map[];
      taskQueue := [];
      wakerCache := {};
      ticks := 0;
    }

    /** The executor `steal` builds from the ids and coroutines it moved. */
    constructor FromParts(moved: map<TaskId, Future>, queue: seq<TaskId>)
      ensures tasks == moved && taskQueue == queue && wakerCache == {} && ticks == 0
    {
      tasks := moved;
      taskQueue := queue;
      wakerCache := {};
      ticks := 0;
    }

    /**
     * `spawn`: register the coroutine and queue its id. Panics when the id is
     * already registered, or when the ready queue already holds TASKNUM ids.
     */
    method Spawn(id: TaskId, fut: Future) returns (o: Outcome)
      modifies this
      ensures old(Valid()) ==> Valid()
      ensures Spawned(old(State()), State(), id, fut, o)
    {
      if id in tasks {
        return Panic("task with same ID already in tasks");
      }
      tasks := tasks[id := fut];
      if |taskQueue| >= TASKNUM {
        return Panic("queue full");
      }
      taskQueue := taskQueue + [id];
      o := Done;
    }

    /** `TaskWaker::wake_task`: queue the id again; panics when the queue is full. */
    method WakeTask(id: TaskId) returns (o: Outcome)
      modifies this
      ensures old(Valid()) ==> Valid()
      ensures tasks == old(tasks) && wakerCache == old(wakerCache) && ticks == old(ticks)
      ensures |old(taskQueue)| >= TASKNUM ==> o == Panic("task_queue full")
      ensures |old(taskQueue)| < TASKNUM ==> o == Done && taskQueue == old(taskQueue) + [id]
    {
      if |taskQueue| >= TASKNUM {
        return Panic("task_queue full");
      }
      taskQueue := taskQueue + [id];
      o := Done;
    }

    /** `ticks()`: the number of polls made so far. */
    function Ticks(): (n: nat)
      reads this
      ensures n == State().ticks
    {
      ticks
    }

    /**
     * `run_ready_tasks`: drain the ready queue in FIFO order, polling every
     * live coroutine once per queued id.
     */
    method RunReadyTasks(poll: PollOracle)
      modifies this
      ensures Valid()
      ensures State() == Drain(old(State()), poll)
      ensures taskQueue == [] && ticks == old(ticks) + |Polled(old(State()), poll)|
      ensures tasks == old(tasks) - Completed(old(State()), poll)
    {
      ghost var s0 := State();
      while taskQueue != []
        invariant Drain(State(), poll) == Drain(s0, poll)
        decreases |taskQueue|
      {
        ghost var pre := State();
        var id := taskQueue[0];
        taskQueue := taskQueue[1..];
        if id !in tasks {
          continue;
        }
        wakerCache := wakerCache + {id};
        match poll(id, ticks) {
          case Ready(_) =>
            tasks := tasks - {id};
            wakerCache := wakerCache - {id};
          case Pending =>
        }
        ticks := ticks + 1;
        assert wakerCache == (if id in tasks then pre.wakers + {id} else pre.wakers - {id});
        assert Drain(pre, poll) == Drain(State(), poll);
      }
      DrainTicks(s0, poll);
      DrainCompletion(s0, poll);
    }

    /**
     * `steal`: when more than one id is queued, move every queued id, in
     * order, with its coroutine into a new executor, dropping their cached
     * wakers here. Coroutines not queued stay. The `unwrap` panics on a
     * queued id whose coroutine is gone (completed, or queued twice).
     */
    method Steal() returns (o: Outcome, stolen: Option<Executor>)
      modifies this
      ensures ticks == old(ticks) && (old(Valid()) ==> Valid())
      ensures |old(taskQueue)| <= 1 ==> o == Done && stolen == None && State() == old(State())
      ensures |old(taskQueue)| > 1 && !Stealable(old(taskQueue), old(tasks)) ==>
        o == Panic("called `Option::unwrap()` on a `None` value")
      ensures |old(taskQueue)| > 1 && Stealable(old(taskQueue), old(tasks)) ==>
        o == Done && stolen.Some? && fresh(stolen.value) && (old(Valid()) ==> stolen.value.Valid()) &&
        stolen.value.taskQueue == old(taskQueue) &&
        stolen.value.tasks == Split(old(tasks), Ids(old(taskQueue))).0 &&
        stolen.value.wakerCache == {} && stolen.value.ticks == 0 &&
        taskQueue == [] &&
        tasks == Split(old(tasks), Ids(old(taskQueue))).1 &&
        wakerCache == old(wakerCache) - Ids(old(taskQueue))
    {
      stolen := None;
      o := Done;
      if |taskQueue| > 1 {
        var ok, newQueue, newTasks := MoveQueue();
        if !ok {
          return Panic("called `Option::unwrap()` on a `None` value"), None;
        }
        var e := new Executor.FromParts(newTasks, newQueue);
        stolen := Some(e);
      }
    }

    /**
     * The loop of `steal`: pop every queued id, push it onto the new queue and
     * move its coroutine, dropping its cached waker. `ok` is false when an id
     * has no coroutine left to move, where `steal` unwraps a `None`. The new
     * queue has the same capacity and receives at most as many ids, so its
     * `push(..).expect(..)` cannot fail.
     */
    method MoveQueue() returns (ok: bool, newQueue: seq<TaskId>, newTasks: map<TaskId, Future>)
      modifies this
      ensures ticks == old(ticks) && (old(Valid()) ==> Valid())
      ensures ok <==> Stealable(old(taskQueue), old(tasks))
      ensures ok ==>
        newQueue == old(taskQueue) && taskQueue == [] &&
        newTasks == Split(old(tasks), Ids(old(taskQueue))).0 &&
        tasks == Split(old(tasks), Ids(old(taskQueue))).1 &&
        wakerCache == old(wakerCache) - Ids(old(taskQueue))
    {
      ghost var q0, t0, w0 := taskQueue, tasks, wakerCache;
      newQueue := [];
      newTasks := map[];
      while taskQueue != []
        invariant Moving(q0, t0, w0, newQueue, taskQueue, tasks, wakerCache, newTasks)
        invariant ticks == old(ticks) && |taskQueue| <= |q0|
        decreases |taskQueue|
      {
        var id := taskQueue[0];
        if id !in tasks {
          MoveStuck(q0, t0, w0, newQueue, taskQueue, tasks, wakerCache, newTasks);
          taskQueue := taskQueue[1..];
          return false, newQueue + [id], newTasks;
        }
        MoveStep(q0, t0, w0, newQueue, taskQueue, tasks, wakerCache, newTasks);
        newQueue := newQueue + [id];
        taskQueue := taskQueue[1..];
        newTasks := newTasks[id := tasks[id]];
        tasks := tasks - {id};
        wakerCache := wakerCache - {id};
      }
      MoveDone(q0, t0, w0, newQueue, tasks, wakerCache, newTasks);
      ok := true;
    }

    /**
     * Queue every id woken while the thread was away, one `wake_task` each;
     * the first push that finds the queue full panics.
     */
    method WakeAll(ids: seq<TaskId>) returns (o: Outcome)
      requires Valid()
      modifies this
      ensures tasks == old(tasks) && ticks == old(ticks) && wakerCache == old(wakerCache)
      ensures o.Done? <==> |old(taskQueue)| + |ids| <= TASKNUM
      ensures o.Panic? ==> o == Panic("task_queue full")
      ensures o.Done? ==> Valid() && taskQueue == old(taskQueue) + ids
    {
      var i := 0;
      o := Done;
      while i < |ids|
        invariant 0 <= i <= |ids| && |old(taskQueue)| + i <= TASKNUM && o.Done?
        invariant tasks == old(tasks) && ticks == old(ticks) && wakerCache == old(wakerCache)
        invariant taskQueue == old(taskQueue) + ids[..i]
      {
        o := WakeTask(ids[i]);
        if o.Panic? {
          return;
        }
        i := i + 1;
      }
      assert ids[..i] == ids;
    }

    /**
     * `run`: drain the ready queue; stop once no coroutine is left, otherwise
     * yield the thread (`sys_yield`) and drain again when resumed. The
     * scheduler resumes the thread `|resumes|` times; `resumes[k]` are the ids
     * whose wakers fired while it was away the k-th time. `finished` is false
     * when the thread is still yielded at the end of `resumes`. Outcome and
     * ending are those of `RunOf`, and so is the state unless a wake panics.
     */
    method Run(poll: PollOracle, resumes: seq<seq<TaskId>>) returns (o: Outcome, finished: bool)
      modifies this
      ensures o == RunOf(old(State()), poll, resumes).1 && finished == RunOf(old(State()), poll, resumes).2
      ensures o.Done? ==> State() == RunOf(old(State()), poll, resumes).0
      ensures resumes == [] ==> o == Done && State() == Drain(old(State()), poll)
      ensures ticks >= old(ticks)
      ensures o.Done? ==> (finished <==> tasks == map[])
      ensures finished ==> o.Done? && taskQueue == []
    {
      var k := 0;
      o := Done;
      finished := false;
      RunOfEnds(State(), poll, resumes);
      while true
        invariant 0 <= k <= |resumes| && ticks >= old(ticks) && o.Done?
        invariant RunOf(State(), poll, resumes[k..]) == RunOf(old(State()), poll, resumes)
        decreases |resumes| - k
      {
        ghost var pre := State();
        RunReadyTasks(poll);
        if tasks == map[] {
          finished := true;
          return;
        }
        if k == |resumes| {
          return;
        }
        assert resumes[k..][0] == resumes[k] && resumes[k..][1..] == resumes[k + 1..];
        o := WakeAll(resumes[k]);
        if o.Panic? {
          return;
        }
        k := k + 1;
      }
    }
  }
}
