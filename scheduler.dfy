/**
 * One turn of the scheduler loop (platforms/qemu-virt/src/lib.rs): take the
 * next task, arm the timer for a fresh slice, run the task until it traps,
 * and decide from the trap cause where the task goes next.
 *
 * What the machine does while the task runs is input to the step: the trap
 * cause, the number of polls its executor made (`polled`), the readings of
 * the `time` CSR, the interrupt the PLIC claims, and the answers of the
 * calls whose code is not part of the model. The calls to `set_timer` are
 * reported, in order, in `armed`.
 */
module Scheduler {
  import opened Wrappers
  import opened Futures
  import opened Atomic
  import opened Thread
  import opened AsyncExecutor
  import opened Tasks
  import opened Timer
  import opened Syscall

  /** The time slice, in ticks of the `time` CSR (1 ms). */
  const SLICE: nat := 12500

  /** `get_slice`: both kinds of task get the same slice. */
  function GetSlice(io: bool): (s: nat)
    ensures s == SLICE
  {
    if io then 12500 * 1 else 12500 * 1
  }

  /** The `scause` values the loop tells apart. */
  datatype TrapCause = SupervisorTimer | SupervisorExternal | UserEnvCall | OtherCause

  /** The spawn arguments of the thread `Task::steal` creates for a stolen executor. */
  datatype ThreadArgs = ThreadArgs(body: Closure, entry: bv64, runnerAddr: bv64, stackBase: bv64)

  /**
   * What one turn of the loop does besides the queues: a task that was
   * Blocking gets a fresh slice of `SLICE` ticks from `now`, the `u64` sum
   * wrapping at 2^64 (one that was
   * not gets no new deadline, or the timer switched off); a timer
   * interrupt that does not panic wakes exactly the sleepers expired at
   * `later` and switches the timer off; an external interrupt completes
   * what was claimed; any other cause changes no sleeper.
   */
  ghost predicate TurnEffect(cause: TrapCause, o: Outcome, armed: seq<nat>, woken: seq<TimerCondVar>,
                             completed: Option<nat>, wasBlocking: bool, now: nat, later: nat,
                             claim: Option<nat>, timers0: seq<TimerCondVar>, timers1: seq<TimerCondVar>)
  {
    (wasBlocking ==> |armed| >= 1 && armed[0] == (now + SLICE) % WORD) &&
    (!wasBlocking ==> armed == [] || armed == [U64_MAX]) &&
    (cause == SupervisorTimer && o.Done? ==>
      |armed| >= 1 && armed[|armed| - 1] == U64_MAX &&
      woken == Expired(timers0, GetTimeMs(later)) && timers1 == Kept(timers0, GetTimeMs(later))) &&
    (cause == SupervisorExternal ==> o == Done && completed == claim) &&
    (cause == OtherCause ==> o == Done && timers1 == timers0) &&
    (cause != SupervisorTimer ==> woken == [])
  }

  /**
   * Where the loop puts a task `t` it keeps, from levels `q0` and slot `s0`
   * to `q1` and `s1`: a Blocking task goes to the back of its level; any
   * other takes the slot, and a task it displaces from there goes to the
   * back of that task's level.
   */
  ghost predicate Placed(t: Task, blocking: bool, q0: seq<seq<Task>>, s0: Option<Task>, q1: seq<seq<Task>>, s1: Option<Task>)
  {
    |q0| == NUM_LEVELS &&
    (!blocking ==>
      s1 == Some(t) &&
      (s0.None? ==> q1 == q0) &&
      (s0.Some? ==> q1 == q0[LevelOf(s0.value) := q0[LevelOf(s0.value)] + [s0.value]])) &&
    (blocking ==> s1 == s0 && q1 == q0[LevelOf(t) := q0[LevelOf(t)] + [t]])
  }

  /**
   * The levels after the timer arm, from `q0` to `q1`. A task whose executor
   * made progress during its slice goes back as an I/O task to level 0. One
   * that made none goes back as it is, except an I/O task with more than one
   * coroutine queued (`queued`, with coroutines `tasks`): the steal panics
   * unless those can be moved, and when it does not, the new task holding
   * them goes to level 0 and the task itself, compute-bound now, to level 1.
   */
  ghost predicate TimerRequeue(t: Task, progressed: bool, queued: seq<TaskId>, tasks: map<TaskId, Future>,
                               o: Outcome, stolen: Option<Task>, q0: seq<seq<Task>>, q1: seq<seq<Task>>)
  {
    |q0| == NUM_LEVELS &&
    (progressed ==> o == Done && stolen == None && q1 == q0[0 := q0[0] + [t.(io := true)]]) &&
    (!progressed && !t.io ==> o == Done && stolen == None && q1 == q0[1 := q0[1] + [t]]) &&
    (!progressed && t.io && |queued| <= 1 ==> o == Done && stolen == None && q1 == q0[0 := q0[0] + [t]]) &&
    (!progressed && t.io && |queued| > 1 ==> (Stealable(queued, tasks) <==> o.Done?)) &&
    (!progressed && t.io && |queued| > 1 && o.Done? ==>
      stolen.Some? && stolen.value.io && q1 == q0[0 := q0[0] + [stolen.value]][1 := q0[1] + [t.(io := false)]])
  }

  /**
   * What `handle_syscall` leaves behind, besides the outcome: the task it
   * hands back (`back`) and the value for x10 (`result`), the levels once the
   * call is done (`mid`), and for APPEND_TASK the position of the I/O task
   * found (`i`, `j`) and the coroutine id issued (`id`).
   */
  datatype SyscallTrace = SyscallTrace(back: Option<Task>, result: bv64, mid: seq<seq<Task>>,
                                       i: nat, j: nat, id: TaskId)

  /**
   * What a system call reads and changes outside the levels: the call
   * decoded from x17, what `sleep` answers for x10, the task's status
   * before and after, the coroutine ids issued before and after, and the
   * state of the executor that receives a future before and after.
   */
  datatype CallStates = CallStates(call: Option<Call>, answer: SleepAnswer, status0: TaskStatus, status1: TaskStatus,
                                   issued0: seq<nat>, issued1: seq<nat>, e0: ExecState, e1: ExecState)

  /**
   * The levels and slot after the system call arm, from `q0` and `s0` to
   * `q1` and `s1`. The call changes what `cs` records and takes the levels
   * to `tr.mid`, as `CallEffect` says; `target` is the executor that
   * receives a future. The task is handed back when the call does not
   * panic and `handle_syscall` returns it, and is then placed by its new
   * status as `Placed` says. Otherwise it is dropped and the levels stay as
   * the call left them.
   */
  ghost predicate SyscallPlaced(t: Task, fut: Future, o: Outcome, handed: Option<Task>, tr: SyscallTrace,
                                target: Option<Executor>, cs: CallStates,
                                q0: seq<seq<Task>>, s0: Option<Task>, q1: seq<seq<Task>>, s1: Option<Task>)
  {
    CallEffect(cs.call, cs.answer, t, fut, o, tr.back, tr.result, tr.i, tr.j, tr.id, target,
               cs.status0, cs.status1, q0, tr.mid, s0, s0, cs.issued0, cs.issued1, cs.e0, cs.e1) &&
    handed == (if o.Done? then tr.back else None) &&
    (handed.None? ==> q1 == tr.mid && s1 == s0) &&
    (handed.Some? ==> Placed(t, cs.status1 == Blocking, tr.mid, s0, q1, s1))
  }

  /**
   * What one turn does to the levels and the slot, from `q0` and `s0` once
   * the task `t` is taken to `q1` and `s1`, by trap cause: the timer arm
   * requeues as `TimerRequeue` says; an external interrupt puts the task in
   * the slot; a system call places or drops it as `SyscallPlaced` says; any
   * other cause drops the task and changes nothing.
   */
  ghost predicate TurnQueues(t: Task, cause: TrapCause, o: Outcome, progressed: bool,
                             queued: seq<TaskId>, tasks: map<TaskId, Future>, stolen: Option<Task>,
                             fut: Future, handed: Option<Task>, tr: SyscallTrace, target: Option<Executor>,
                             cs: CallStates, q0: seq<seq<Task>>, s0: Option<Task>, q1: seq<seq<Task>>, s1: Option<Task>)
  {
    (cause == SupervisorTimer ==>
      TimerRequeue(t, progressed, queued, tasks, o, stolen, q0, q1) && (o.Done? ==> s1 == s0)) &&
    (cause == SupervisorExternal ==> Placed(t, false, q0, s0, q1, s1)) &&
    (cause == UserEnvCall ==>
      SyscallPlaced(t, fut, o, handed, tr, target, cs, q0, s0, q1, s1)) &&
    (cause == OtherCause ==> q1 == q0 && s1 == s0)
  }

  /**
   * The loop body. `now` is the `time` CSR when the slice is armed and
   * `later` when `check_timer` reads it; `claim` is what `plic_claim`
   * returns on an external interrupt, and `completed` what is passed to
   * `plic_complete`. `picked` is the task taken, `taken` the levels once it
   * is taken; the ghost results name what the turn did with it.
   */
  method Step(mlfq: Mlfq, timers: SleepList, taskIds: Counter, tids: Counter,
              cause: TrapCause, polled: nat, now: nat, later: nat, claim: Option<nat>,
              fut: Future, sleep: bv64 -> SleepAnswer, thread: ThreadArgs)
    returns (o: Outcome, picked: Option<Task>, armed: seq<nat>, woken: seq<TimerCondVar>, completed: Option<nat>,
             ghost wasBlocking: bool, ghost taken: seq<seq<Task>>, ghost stolen: Option<Task>,
             ghost handed: Option<Task>, ghost tr: SyscallTrace, ghost target: Option<Executor>,
             ghost pre: Snapshot, ghost e0: ExecState)
    requires mlfq.Valid() && taskIds.Valid() && tids.Valid() && taskIds != tids
    modifies mlfq, mlfq.Executors(), mlfq.Tcbs(), mlfq.RegisterFiles(), timers, taskIds, tids
    ensures mlfq.Valid() && taskIds.Valid() && tids.Valid()
    ensures picked.None? <==> old(mlfq.task).None? && forall i :: 0 <= i < NUM_LEVELS ==> old(mlfq.queue)[i] == []
    ensures picked.None? ==> o == Panic("no task, Shutdown")
    ensures picked.Some? && old(mlfq.task).Some? ==> picked == old(mlfq.task) && taken == old(mlfq.queue)
    ensures picked.Some? && old(mlfq.task).None? ==>
      Scan(old(mlfq.queue), old(mlfq.level), NUM_LEVELS).found == picked &&
      Scan(old(mlfq.queue), old(mlfq.level), NUM_LEVELS).queue == taken
    ensures picked.Some? ==>
      TurnEffect(cause, o, armed, woken, completed, wasBlocking, now, later, claim, old(timers.timers), timers.timers)
    ensures picked.Some? ==>
      old(allocated(picked.value.executor)) &&
      pre == Snapshot(old(picked.value.tcb.ctx.X(17)), old(picked.value.tcb.ctx.X(10)),
                      Trapped(old(picked.value.tcb.status)), old(picked.value.executor.taskQueue),
                      old(picked.value.executor.tasks), taken, None, old(taskIds.issued)) &&
      (target == Some(picked.value.executor) ==> e0 == RunState(old(picked.value.executor.State()), true, polled))
    ensures picked.Some? ==>
      TurnQueues(picked.value, cause, o, polled != 0, pre.queued, pre.tasks, stolen, fut, handed, tr, target,
                 CallStates(Decode(pre.x17), sleep(pre.x10), pre.status, picked.value.tcb.status,
                            pre.issued, taskIds.issued, e0, StateOf(target)),
                 pre.q, pre.s, mlfq.queue, mlfq.task)
    ensures cause != SupervisorTimer ==> woken == []
  {
    picked := PickTask(mlfq);
    taken := mlfq.queue;
    if picked.None? {
      return Panic("no task, Shutdown"), picked, [], [], None, false, taken, None, None,
        SyscallTrace(None, 0, taken, 0, 0, 0), None,
        Snapshot(0, 0, Running, [], map[], taken, None, []), ExecState(map[], [], {}, 0);
    }
    wasBlocking := picked.value.tcb.status == Blocking;
    var t := picked.value;
    assert t.tcb.ctx.X(17) == old(t.tcb.ctx.X(17)) && t.tcb.ctx.X(10) == old(t.tcb.ctx.X(10));
    assert t.tcb.status == old(t.tcb.status) && taskIds.issued == old(taskIds.issued);
    assert t.executor.taskQueue == old(t.executor.taskQueue) && t.executor.tasks == old(t.executor.tasks);
    assert timers.timers == old(timers.timers) && t.executor.State() == old(t.executor.State());
    label run:
    o, armed, woken, completed, stolen, handed, tr, target, pre, e0 := RunTask(t, mlfq, timers, taskIds, tids,
                                          cause, polled, now, later, claim, fut, sleep, thread);
  }

  /**
   * `next_task` as the loop calls it: the task taken is one the queues held,
   * so everything it owns was already owned by the queues.
   */
  method PickTask(mlfq: Mlfq) returns (picked: Option<Task>)
    requires mlfq.Valid()
    modifies mlfq
    ensures mlfq.Valid() && mlfq.task == None
    ensures picked.None? <==> old(mlfq.task).None? && forall i :: 0 <= i < NUM_LEVELS ==> old(mlfq.queue)[i] == []
    ensures picked.Some? && old(mlfq.task).Some? ==> picked == old(mlfq.task) && mlfq.queue == old(mlfq.queue)
    ensures picked.Some? && old(mlfq.task).None? ==>
      Scan(old(mlfq.queue), old(mlfq.level), NUM_LEVELS).found == picked &&
      Scan(old(mlfq.queue), old(mlfq.level), NUM_LEVELS).queue == mlfq.queue
    ensures mlfq.Executors() <= old(mlfq.Executors()) && mlfq.Tcbs() <= old(mlfq.Tcbs())
    ensures mlfq.RegisterFiles() <= old(mlfq.RegisterFiles())
    ensures picked.Some? ==> (picked.value.tcb.Valid() && picked.value.executor in old(mlfq.Executors()) &&
      picked.value.tcb in old(mlfq.Tcbs()) && picked.value.tcb.ctx.x in old(mlfq.RegisterFiles()))
  {
    ghost var q0, s0 := mlfq.queue, mlfq.task;
    picked := mlfq.NextTask();
    FootprintSub(mlfq.Contents(), old(mlfq.Contents()));
    if picked.Some? {
      HeldTask(q0, s0, picked.value);
    }
  }

  /**
   * A task that was Blocking is set Running and gets a fresh slice from
   * `now`, the `u64` deadline wrapping at 2^64; any other runs on. The task
   * then runs until it traps, and its executor polls `polled` times.
   */
  method ArmSlice(t: Task, now: nat, polled: nat) returns (armed: seq<nat>)
    modifies t.tcb, t.executor
    ensures old(t.tcb.status) == Blocking ==> armed == [(now + SLICE) % WORD]
    ensures old(t.tcb.status) != Blocking ==> armed == []
    ensures t.tcb.status == Trapped(old(t.tcb.status))
    ensures t.executor.State() == RunState(old(t.executor.State()), true, polled)
  {
    armed := [];
    if t.tcb.status == Blocking {
      t.tcb.status := Running;
      armed := [(now + GetSlice(t.io)) % WORD];
    }
    t.executor.ticks := t.executor.ticks + polled;
  }

  /** The status a task traps with: one that was Blocking was set Running for its slice. */
  function Trapped(status: TaskStatus): (r: TaskStatus)
    ensures r != Blocking && (status != Blocking ==> r == status)
  {
    if status == Blocking then Running else status
  }

  /**
   * The state of an executor when its task traps, from the state `e` before
   * the slice: the task's own executor (`own`) has polled `polled` times.
   */
  function RunState(e: ExecState, own: bool, polled: nat): (r: ExecState)
    ensures r.tasks == e.tasks && r.queue == e.queue && r.wakers == e.wakers
    ensures r.ticks == if own then e.ticks + polled else e.ticks
  {
    if own then e.(ticks := e.ticks + polled) else e
  }

  /**
   * What a turn reads of the task, its executor, the levels, the slot and
   * the coroutine ids when the task traps.
   */
  datatype Snapshot = Snapshot(x17: bv64, x10: bv64, status: TaskStatus, queued: seq<TaskId>,
                               tasks: map<TaskId, Future>, q: seq<seq<Task>>, s: Option<Task>, issued: seq<nat>)

  ghost function SnapshotOf(t: Task, mlfq: Mlfq, taskIds: Counter): Snapshot
    reads t.tcb, t.tcb.ctx, t.tcb.ctx.x, t.executor, mlfq, taskIds
    requires t.tcb.Valid()
  {
    Snapshot(t.tcb.ctx.X(17), t.tcb.ctx.X(10), t.tcb.status, t.executor.taskQueue, t.executor.tasks,
             mlfq.queue, mlfq.task, taskIds.issued)
  }

  /** The loop body after the task is taken from the queues. */
  method RunTask(t: Task, mlfq: Mlfq, timers: SleepList, taskIds: Counter, tids: Counter,
                 cause: TrapCause, polled: nat, now: nat, later: nat, claim: Option<nat>,
                 fut: Future, sleep: bv64 -> SleepAnswer, thread: ThreadArgs)
    returns (o: Outcome, armed: seq<nat>, woken: seq<TimerCondVar>, completed: Option<nat>,
             ghost stolen: Option<Task>, ghost handed: Option<Task>, ghost tr: SyscallTrace, ghost target: Option<Executor>,
             ghost pre: Snapshot, ghost e0: ExecState)
    requires mlfq.Valid() && taskIds.Valid() && tids.Valid() && taskIds != tids && t.tcb.Valid()
    modifies mlfq, mlfq.Executors(), mlfq.Tcbs(), timers, taskIds, tids, t.executor, t.tcb, t.tcb.ctx.x
    ensures mlfq.Valid() && taskIds.Valid() && tids.Valid()
    ensures TurnEffect(cause, o, armed, woken, completed, old(t.tcb.status) == Blocking, now, later, claim,
                       old(timers.timers), timers.timers)
    ensures pre == Snapshot(old(t.tcb.ctx.X(17)), old(t.tcb.ctx.X(10)), Trapped(old(t.tcb.status)),
                            old(t.executor.taskQueue), old(t.executor.tasks), old(mlfq.queue), old(mlfq.task),
                            old(taskIds.issued))
    ensures old(allocated(target)) && e0 == RunState(old(StateOf(target)), target == Some(t.executor), polled)
    ensures target.Some? ==> target.value == t.executor || target.value in old(mlfq.Executors())
    ensures TurnQueues(t, cause, o, polled != 0, pre.queued, pre.tasks, stolen, fut, handed, tr, target,
                       CallStates(Decode(pre.x17), sleep(pre.x10), pre.status, t.tcb.status, pre.issued, taskIds.issued,
                                  e0, StateOf(target)),
                       pre.q, pre.s, mlfq.queue, mlfq.task)
  {
    pre := Snapshot(t.tcb.ctx.X(17), t.tcb.ctx.X(10), Trapped(t.tcb.status),
                    t.executor.taskQueue, t.executor.tasks, mlfq.queue, mlfq.task, taskIds.issued);
    var ticks := t.executor.ticks;
    var slice := ArmSlice(t, now, polled);
    assert pre == SnapshotOf(t, mlfq, taskIds) && (t.executor.ticks != ticks) == (polled != 0);
    assert old(allocated(mlfq.Executors())) && mlfq.Executors() == old(mlfq.Executors());
    var off;
    assert timers.timers == old(timers.timers) && t.tcb.status == Trapped(old(t.tcb.status));
    label trapped:
    o, off, woken, completed, stolen, handed, tr, target, e0 :=
      Dispatch(t, ticks, mlfq, timers, taskIds, tids, cause, later, claim, fut, sleep, thread);
    assert old(allocated(target));
    assert old@trapped(StateOf(target)) == RunState(old(StateOf(target)), target == Some(t.executor), polled);
    armed := slice + off;
    TurnEffectArmed(cause, o, slice, off, woken, completed, old(t.tcb.status) == Blocking, now, later, claim,
                    old(timers.timers), timers.timers);
  }

  /** The slice armed before the task runs goes in front of what its trap arms. */
  lemma TurnEffectArmed(cause: TrapCause, o: Outcome, slice: seq<nat>, off: seq<nat>, woken: seq<TimerCondVar>,
                        completed: Option<nat>, wasBlocking: bool, now: nat, later: nat,
                        claim: Option<nat>, timers0: seq<TimerCondVar>, timers1: seq<TimerCondVar>)
    requires TurnEffect(cause, o, off, woken, completed, false, 0, later, claim, timers0, timers1)
    requires wasBlocking ==> slice == [(now + SLICE) % WORD]
    requires !wasBlocking ==> slice == []
    ensures TurnEffect(cause, o, slice + off, woken, completed, wasBlocking, now, later, claim, timers0, timers1)
  {
    if off != [] {
      assert (slice + off)[|slice + off| - 1] == off[|off| - 1];
    }
  }

  /**
   * The `match` on the trap cause. `off` are the calls to `set_timer` it
   * makes: the timer switched off, on a timer interrupt only.
   */
  method Dispatch(t: Task, ticks: nat, mlfq: Mlfq, timers: SleepList, taskIds: Counter, tids: Counter,
                  cause: TrapCause, later: nat, claim: Option<nat>,
                  fut: Future, sleep: bv64 -> SleepAnswer, thread: ThreadArgs)
    returns (o: Outcome, off: seq<nat>, woken: seq<TimerCondVar>, completed: Option<nat>,
             ghost stolen: Option<Task>, ghost handed: Option<Task>, ghost tr: SyscallTrace, ghost target: Option<Executor>,
             ghost e0: ExecState)
    requires mlfq.Valid() && taskIds.Valid() && tids.Valid() && taskIds != tids && t.tcb.Valid()
    modifies mlfq, mlfq.Executors(), mlfq.Tcbs(), timers, taskIds, tids, t.executor, t.tcb, t.tcb.ctx.x
    ensures mlfq.Valid() && taskIds.Valid() && tids.Valid()
    ensures off == if cause == SupervisorTimer then [U64_MAX] else []
    ensures TurnEffect(cause, o, off, woken, completed, false, 0, later, claim, old(timers.timers), timers.timers)
    ensures old(allocated(target)) && e0 == old(StateOf(target))
    ensures target.Some? ==> target.value == t.executor || target.value in old(mlfq.Executors())
    ensures TurnQueues(t, cause, o, old(t.executor.ticks) != ticks, old(t.executor.taskQueue), old(t.executor.tasks),
                       stolen, fut, handed, tr, target,
                       CallStates(Decode(old(t.tcb.ctx.X(17))), sleep(old(t.tcb.ctx.X(10))), old(t.tcb.status), t.tcb.status,
                                  old(taskIds.issued), taskIds.issued, e0, StateOf(target)),
                       old(mlfq.queue), old(mlfq.task), mlfq.queue, mlfq.task)
  {
    off, woken, completed := [], [], None;
    stolen, handed, tr, target := None, None, SyscallTrace(None, 0, mlfq.queue, 0, 0, 0), None;
    o := Done;
    match cause {
      case SupervisorTimer =>
        off := [U64_MAX];
        o, woken, stolen := OnTimer(t, ticks, mlfq, timers, tids, later, thread);
      case SupervisorExternal =>
        completed := claim;
        mlfq.AddTaskTransient(t);
      case UserEnvCall =>
        ghost var cs;
        o, handed, tr, target, cs := OnSyscall(t, fut, sleep, mlfq, taskIds);
      case OtherCause =>
    }
    e0 := old(StateOf(target));
  }

  /**
   * The timer arm: wake the sleepers whose deadline passed, mark the task
   * Blocking and queue it again. A task whose executor made progress during
   * its slice counts as I/O-bound from now on; an I/O task that made none has
   * its queued coroutines stolen into a new I/O task, and itself becomes
   * compute-bound, when the steal yields an executor.
   */
  method OnTimer(t: Task, ticks: nat, mlfq: Mlfq, timers: SleepList, tids: Counter, later: nat, thread: ThreadArgs)
    returns (o: Outcome, woken: seq<TimerCondVar>, stolen: Option<Task>)
    requires mlfq.Valid() && tids.Valid() && t.tcb.Valid()
    modifies mlfq, timers, tids, t.executor, t.tcb
    ensures mlfq.Valid() && tids.Valid()
    ensures woken == Expired(old(timers.timers), GetTimeMs(later))
    ensures timers.timers == Kept(old(timers.timers), GetTimeMs(later))
    ensures o.Done? ==> t.tcb.status == Blocking && mlfq.task == old(mlfq.task)
    ensures TimerRequeue(t, old(t.executor.ticks) != ticks, old(t.executor.taskQueue), old(t.executor.tasks),
                         o, stolen, old(mlfq.queue), mlfq.queue)
    ensures old(t.executor.ticks) == ticks && t.io && o.Done? && |old(t.executor.taskQueue)| > 1 ==>
      stolen.Some? && fresh(stolen.value.executor) && stolen.value.executor.taskQueue == old(t.executor.taskQueue)
  {
    woken := timers.CheckTimer(GetTimeMs(later));
    t.tcb.status := Blocking;
    o, stolen := ReturnToLevels(t, ticks, mlfq, tids, thread);
  }

  /** The second half of the timer arm: the task, and a task stolen from it, go back to the levels. */
  method ReturnToLevels(t: Task, ticks: nat, mlfq: Mlfq, tids: Counter, thread: ThreadArgs)
    returns (o: Outcome, stolen: Option<Task>)
    requires mlfq.Valid() && tids.Valid() && t.tcb.Valid()
    modifies mlfq, tids, t.executor, t.tcb
    ensures mlfq.Valid() && tids.Valid()
    ensures o.Done? ==> t.tcb.status == Blocking && mlfq.task == old(mlfq.task)
    ensures TimerRequeue(t, old(t.executor.ticks) != ticks, old(t.executor.taskQueue), old(t.executor.tasks),
                         o, stolen, old(mlfq.queue), mlfq.queue)
    ensures old(t.executor.ticks) == ticks && t.io && o.Done? && |old(t.executor.taskQueue)| > 1 ==>
      stolen.Some? && fresh(stolen.value.executor) && stolen.value.executor.taskQueue == old(t.executor.taskQueue)
  {
    stolen := None;
    o := Done;
    if t.executor.ticks != ticks {
      AddTaskToQueue(mlfq, t.(io := true));
    } else if !t.io {
      AddTaskToQueue(mlfq, t);
    } else {
      o, stolen := StealAndQueue(t, mlfq, tids, thread);
    }
  }

  /**
   * An I/O task that made no progress: its queued coroutines are stolen into
   * a new I/O task when there are at least two, and the task then goes back
   * as compute-bound; otherwise it goes back as it is.
   */
  method StealAndQueue(t: Task, mlfq: Mlfq, tids: Counter, thread: ThreadArgs)
    returns (o: Outcome, stolen: Option<Task>)
    requires mlfq.Valid() && tids.Valid() && t.tcb.Valid() && t.io
    modifies mlfq, tids, t.executor, t.tcb
    ensures mlfq.Valid() && tids.Valid()
    ensures o.Done? ==> t.tcb.status == Blocking && mlfq.task == old(mlfq.task)
    ensures |old(t.executor.taskQueue)| <= 1 ==>
      o == Done && stolen == None && mlfq.queue == old(mlfq.queue)[0 := old(mlfq.queue)[0] + [t]]
    ensures |old(t.executor.taskQueue)| > 1 ==>
      (Stealable(old(t.executor.taskQueue), old(t.executor.tasks)) <==> o.Done?)
    ensures o.Done? && |old(t.executor.taskQueue)| > 1 ==>
      stolen.Some? && stolen.value.io && fresh(stolen.value.executor) &&
      stolen.value.executor.taskQueue == old(t.executor.taskQueue) &&
      mlfq.queue == old(mlfq.queue)[0 := old(mlfq.queue)[0] + [stolen.value]][1 := old(mlfq.queue)[1] + [t.(io := false)]]
  {
    o, stolen := StealTask(t, tids, thread.body, thread.entry, thread.runnerAddr, thread.stackBase);
    if o.Panic? {
      return;
    }
    var task := t;
    if stolen.Some? {
      task := t.(io := false);
      AddTaskToQueue(mlfq, stolen.value);
    }
    AddTaskToQueue(mlfq, task);
  }

  /**
   * The system call arm: a task handed back goes to the transient slot
   * unless the call left it Blocking, in which case it goes back to its
   * level; a task not handed back is dropped. `tr` records what the call
   * left behind and `target` the executor an APPEND_TASK gave the future to.
   */
  method OnSyscall(t: Task, fut: Future, sleep: bv64 -> SleepAnswer, mlfq: Mlfq, taskIds: Counter)
    returns (o: Outcome, handed: Option<Task>, ghost tr: SyscallTrace, ghost target: Option<Executor>,
             ghost cs: CallStates)
    requires mlfq.Valid() && taskIds.Valid() && t.tcb.Valid()
    modifies t.tcb, t.tcb.ctx.x, mlfq, taskIds, t.executor, mlfq.Executors(), mlfq.Tcbs()
    ensures mlfq.Valid() && taskIds.Valid() && old(allocated(target))
    ensures cs == CallStates(Decode(old(t.tcb.ctx.X(17))), sleep(old(t.tcb.ctx.X(10))),
                             old(t.tcb.status), t.tcb.status, old(taskIds.issued), taskIds.issued,
                             old(StateOf(target)), StateOf(target))
    ensures SyscallPlaced(t, fut, o, handed, tr, target, cs, old(mlfq.queue), old(mlfq.task), mlfq.queue, mlfq.task)
    ensures handed.Some? ==> t.tcb.ctx.X(10) == tr.result
    ensures target.Some? ==> target.value == t.executor || target.value in old(mlfq.Executors())
  {
    var back, result;
    ghost var i, j, id;
    o, back, result, i, j, id, target := HandleSyscall(t, fut, sleep, mlfq, taskIds);
    tr := SyscallTrace(back, result, mlfq.queue, i, j, id);
    cs := CallStates(Decode(old(t.tcb.ctx.X(17))), sleep(old(t.tcb.ctx.X(10))),
                     old(t.tcb.status), t.tcb.status, old(taskIds.issued), taskIds.issued,
                     old(StateOf(target)), StateOf(target));
    handed := if o.Done? then back else None;
    if handed.Some? {
      label called:
      PlaceHandedBack(t, mlfq);
      assert StateOf(target) == old@called(StateOf(target));
    }
  }


  /** Where the loop puts a task a system call hands back: the slot, or its level when the call left it Blocking. */
  method PlaceHandedBack(t: Task, mlfq: Mlfq)
    requires mlfq.Valid() && t.tcb.Valid()
    modifies mlfq, t.tcb
    ensures mlfq.Valid() && t.tcb.status == old(t.tcb.status)
    ensures Placed(t, t.tcb.status == Blocking, old(mlfq.queue), old(mlfq.task), mlfq.queue, mlfq.task)
  {
    if t.tcb.status != Blocking {
      mlfq.AddTaskTransient(t);
    } else {
      AddTaskToQueue(mlfq, t);
    }
  }
}
