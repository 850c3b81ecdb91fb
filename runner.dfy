/**
 * The single-threaded round-robin executor of common/executor/src/lib.rs:
 * a queue of boxed futures; `block_on` pops the front future, polls it,
 * drops it when it is Ready and pushes it back when it is Pending, until the
 * queue is empty.
 *
 * What a poll answers is not part of the model: `block_on` takes the answers
 * of its successive polls, in order, as a sequence (true for Ready). When
 * the answers run out before the queue does, the model stops where the
 * source would go on polling.
 */
module Runner {
  import opened Wrappers
  import opened Futures

  /** Polling `queue` round robin with the given answers: the futures left and the futures polled, in order. */
  function RoundRobin(queue: seq<Future>, answers: seq<bool>): (seq<Future>, seq<Future>)
    decreases |answers|
  {
    if queue == [] || answers == [] then (queue, [])
    else
      var next := if answers[0] then queue[1..] else queue[1..] + [queue[0]];
      var (left, polled) := RoundRobin(next, answers[1..]);
      (left, [queue[0]] + polled)
  }

  /** One poll of a run in progress: the front future is polled and the run goes on with the rest. */
  lemma RoundRobinStep(queue: seq<Future>, answers: seq<bool>, polled: seq<Future>, total: (seq<Future>, seq<Future>))
    requires queue != [] && answers != []
    requires RoundRobin(queue, answers).0 == total.0 && polled + RoundRobin(queue, answers).1 == total.1
    ensures var next := if answers[0] then queue[1..] else queue[1..] + [queue[0]];
      RoundRobin(next, answers[1..]).0 == total.0 && (polled + [queue[0]]) + RoundRobin(next, answers[1..]).1 == total.1
  {
    var next := if answers[0] then queue[1..] else queue[1..] + [queue[0]];
    assert RoundRobin(queue, answers).1 == [queue[0]] + RoundRobin(next, answers[1..]).1;
    assert (polled + [queue[0]]) + RoundRobin(next, answers[1..]).1 == polled + ([queue[0]] + RoundRobin(next, answers[1..]).1);
  }

  /** Number of Ready answers. */
  function CountReady(answers: seq<bool>): nat
  {
    if answers == [] then 0 else (if answers[0] then 1 else 0) + CountReady(answers[1..])
  }

  /**
   * Each answer is used by exactly one poll; the run ends early only with an
   * empty queue; every Ready answer removes one future and every Pending
   * answer keeps the queue as long as it was.
   */
  lemma {:induction false} RoundRobinAccounts(queue: seq<Future>, answers: seq<bool>)
    ensures var (left, polled) := RoundRobin(queue, answers);
      |polled| <= |answers| &&
      (left != [] ==> |polled| == |answers|) &&
      |left| + CountReady(answers[..|polled|]) == |queue|
    decreases |answers|
  {
    if queue != [] && answers != [] {
      var next := if answers[0] then queue[1..] else queue[1..] + [queue[0]];
      RoundRobinAccounts(next, answers[1..]);
      var n := |RoundRobin(next, answers[1..]).1|;
      assert answers[..n + 1][1..] == answers[1..][..n];
    }
  }

  /** The queue is polled in FIFO order: the first polls take the queued futures front to back. */
  lemma {:induction false} RoundRobinFifo(queue: seq<Future>, answers: seq<bool>, k: nat)
    requires k <= |queue| && k <= |answers|
    ensures |RoundRobin(queue, answers).1| >= k && RoundRobin(queue, answers).1[..k] == queue[..k]
    decreases |answers|
  {
    if k > 0 {
      var next := if answers[0] then queue[1..] else queue[1..] + [queue[0]];
      RoundRobinFifo(next, answers[1..], k - 1);
      assert next[..k - 1] == queue[1..k];
    }
  }

  /** With a Ready answer for each queued future, one pass drains the queue. */
  lemma {:induction false} AllReadyDrains(queue: seq<Future>, answers: seq<bool>)
    requires |answers| >= |queue| && forall i :: 0 <= i < |queue| ==> answers[i]
    ensures RoundRobin(queue, answers) == ([], queue)
    decreases |queue|
  {
    if queue != [] {
      AllReadyDrains(queue[1..], answers[1..]);
      assert [queue[0]] + queue[1..] == queue;
    }
  }

  /** The index of the first Ready answer of a single future, if any. */
  function FirstReady<R>(answers: seq<Poll<R>>): Option<nat>
  {
    if answers == [] then None
    else if answers[0].Ready? then Some(0)
    else match FirstReady(answers[1..])
      case None => None
      case Some(k) => Some(k + 1)
  }

  /** The first Ready answer is Ready and every earlier one Pending; None means all Pending. */
  lemma {:induction false} FirstReadyIsFirst<R>(answers: seq<Poll<R>>)
    ensures FirstReady(answers).Some? ==> var k := FirstReady(answers).value;
      k < |answers| && answers[k].Ready? && forall i :: 0 <= i < k ==> answers[i].Pending?
    ensures FirstReady(answers).None? <==> forall i :: 0 <= i < |answers| ==> answers[i].Pending?
  {
    if answers != [] {
      FirstReadyIsFirst(answers[1..]);
      if answers[0].Pending? {
        forall i | 0 < i < |answers|
          ensures answers[i] == answers[1..][i - 1]
        {
        }
      }
    }
  }

  /** `Runtime`: the shared queue of futures. */
  class Runtime {
    var taskQueue: seq<Future>

    constructor ()
      ensures taskQueue == []
    {
      taskQueue := [];
    }

    /** `task_pop_front`. */
    method TaskPopFront() returns (task: Option<Future>)
      modifies this
      ensures old(taskQueue) == [] ==> task == None && taskQueue == []
      ensures old(taskQueue) != [] ==> task == Some(old(taskQueue)[0]) && taskQueue == old(taskQueue)[1..]
    {
      if taskQueue == [] {
        return None;
      }
      task := Some(taskQueue[0]);
      taskQueue := taskQueue[1..];
    }

    /** `task_push_back`. */
    method TaskPushBack(task: Future)
      modifies this
      ensures taskQueue == old(taskQueue) + [task]
    {
      taskQueue := taskQueue + [task];
    }
  }

  /** `Runner`. */
  class Runner {
    const runtime: Runtime

    /** `Runner::new`: an empty queue. */
    constructor ()
      ensures fresh(runtime) && runtime.taskQueue == []
    {
      runtime := new Runtime();
    }

    /** `spawn`: the future goes to the back of the queue. */
    method Spawn(future: Future)
      modifies runtime
      ensures runtime.taskQueue == old(runtime.taskQueue) + [future]
    {
      runtime.TaskPushBack(future);
    }

    /**
     * `block_on(future)`: queue the future, then poll round robin. `polled`
     * lists the futures polled, in order; `drained` says the loop ended
     * because the queue is empty.
     */
    method BlockOn(future: Future, answers: seq<bool>) returns (polled: seq<Future>, drained: bool)
      modifies runtime
      ensures (runtime.taskQueue, polled) == RoundRobin(old(runtime.taskQueue) + [future], answers)
      ensures drained <==> runtime.taskQueue == []
    {
      Spawn(future);
      ghost var q0 := runtime.taskQueue;
      polled := [];
      var k := 0;
      assert answers[0..] == answers && [] + RoundRobin(q0, answers).1 == RoundRobin(q0, answers).1;
      while k < |answers|
        invariant k <= |answers|
        invariant RoundRobin(runtime.taskQueue, answers[k..]).0 == RoundRobin(q0, answers).0
        invariant polled + RoundRobin(runtime.taskQueue, answers[k..]).1 == RoundRobin(q0, answers).1
        decreases |answers| - k
      {
        ghost var q := runtime.taskQueue;
        ghost var a := answers[k..];
        if q != [] {
          RoundRobinStep(q, a, polled, RoundRobin(q0, answers));
          assert a[1..] == answers[k + 1..] && a[0] == answers[k];
        }
        var handle := runtime.TaskPopFront();
        match handle {
          case None =>
            break;
          case Some(h) =>
            polled := polled + [h];
            if !answers[k] {
              runtime.TaskPushBack(h);
            }
            k := k + 1;
        }
      }
      assert RoundRobin(runtime.taskQueue, answers[k..]) == (runtime.taskQueue, []);
      assert polled + [] == polled;
      drained := runtime.taskQueue == [];
    }
  }

  /**
   * `async_block_on(future)`: poll the one future until it is Ready and
   * return its value; None when the answers run out first.
   */
  method AsyncBlockOn<R>(answers: seq<Poll<R>>) returns (r: Option<R>, polls: nat)
    ensures polls <= |answers|
    ensures r.Some? <==> FirstReady(answers).Some?
    ensures r.Some? ==> FirstReady(answers) == Some(polls - 1) && answers[polls - 1] == Ready(r.value)
    ensures r.None? ==> polls == |answers|
  {
    FirstReadyIsFirst(answers);
    polls := 0;
    while polls < |answers|
      invariant polls <= |answers|
      invariant forall i :: 0 <= i < polls ==> answers[i].Pending?
      decreases |answers| - polls
    {
      var p := answers[polls];
      polls := polls + 1;
      match p {
        case Ready(val) =>
          FirstReadyAt(answers, polls - 1);
          return Some(val), polls;
        case Pending =>
      }
    }
    r := None;
  }

  /** A Ready answer after only Pending ones is the first Ready answer. */
  lemma {:induction false} FirstReadyAt<R>(answers: seq<Poll<R>>, k: nat)
    requires k < |answers| && answers[k].Ready? && forall i :: 0 <= i < k ==> answers[i].Pending?
    ensures FirstReady(answers) == Some(k)
  {
    if k > 0 {
      FirstReadyAt(answers[1..], k - 1);
    }
  }
}
