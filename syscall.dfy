/**
 * The scheduler's side of a system call (platforms/qemu-virt/src/syscall.rs):
 * read the call number from x17 and the argument from x10, perform the call
 * and, when the task is handed back, write the result into x10.
 */
module Syscall {
  import opened Wrappers
  import opened Futures
  import opened Atomic
  import opened KernelContext
  import opened Thread
  import opened AsyncExecutor
  import opened Tasks
  import Trap

  /** The call numbers. */
  const SYSCALL_SLEEP: bv64 := 101
  const SYSCALL_GET_TID: bv64 := 102
  const SYSCALL_APPEND_TASK: bv64 := 103
  const SYSCALL_YIELD: bv64 := 104
  const SYSCALL_EXIT: bv64 := 105

  datatype Call = Sleep | GetTid | AppendTask | Yield | Exit

  /** The number a call is requested with. */
  function Number(c: Call): (n: bv64)
    ensures SYSCALL_SLEEP <= n <= SYSCALL_EXIT
  {
    match c
    case Sleep => SYSCALL_SLEEP
    case GetTid => SYSCALL_GET_TID
    case AppendTask => SYSCALL_APPEND_TASK
    case Yield => SYSCALL_YIELD
    case Exit => SYSCALL_EXIT
  }

  /** The `match syscall_id`: the call a number requests; any other number is unsupported. */
  function Decode(id: bv64): (c: Option<Call>)
    ensures c.Some? ==> Number(c.value) == id
    ensures c.None? <==> id < 101 || 105 < id
  {
    if id == SYSCALL_SLEEP then Some(Sleep)
    else if id == SYSCALL_GET_TID then Some(GetTid)
    else if id == SYSCALL_APPEND_TASK then Some(AppendTask)
    else if id == SYSCALL_YIELD then Some(Yield)
    else if id == SYSCALL_EXIT then Some(Exit)
    else None
  }

  /** Every call is decoded from its own number, so no two calls share one. */
  lemma DecodeNumber(c: Call)
    ensures Decode(Number(c)) == Some(c)
  {
  }

  /** A count or id written into a register: `as usize`, the low 64 bits. */
  function Word(n: nat): bv64
  {
    (n % WORD) as bv64
  }

  /**
   * `timer::sleep` is not part of this model. What it answers for a given
   * argument is an input: whether it hands the task back, and the result.
   */
  datatype SleepAnswer = SleepAnswer(handBack: bool, result: bv64)

  /**
   * What the `match syscall_id` does, for the call decoded (`None` for an
   * unsupported number) and what `sleep` answers for the call's argument:
   * the outcome, the task handed back, the result, the thread's status
   * before and after, and the levels, the slot, the coroutine ids issued and
   * the receiving executor before and after. SLEEP and YIELD leave the
   * thread Blocking, GET_TID answers the tid, APPEND_TASK does what
   * `AppendEffect` says and answers the tid of the task that got the future,
   * EXIT hands nothing back, and only APPEND_TASK touches the levels, the
   * slot or the coroutine ids.
   */
  ghost predicate CallEffect(call: Option<Call>, answer: SleepAnswer, t: Task, fut: Future,
                             o: Outcome, r: Option<Task>, result: bv64,
                             i: nat, j: nat, id: TaskId, target: Option<Executor>,
                             status0: TaskStatus, status1: TaskStatus,
                             q0: seq<seq<Task>>, q1: seq<seq<Task>>, s0: Option<Task>, s1: Option<Task>,
                             issued0: seq<nat>, issued1: seq<nat>, e0: ExecState, e1: ExecState)
  {
    (call.None? ==> o == Panic("Unsupported syscall_id") && r == None) &&
    (call == Some(Sleep) ==>
      o == Done && status1 == Blocking && (r.Some? <==> answer.handBack) && result == answer.result) &&
    (call == Some(GetTid) ==> o == Done && r == Some(t) && result == Word(t.tid) && status1 == status0) &&
    (call == Some(AppendTask) ==>
      r == Some(t) && result == Word(if Redirects(t) then IO_TASK_TID else t.tid) &&
      AppendEffect(t, fut, o, i, j, id, target, q0, q1, issued0, issued1, e0, e1)) &&
    (call == Some(Yield) ==> o == Done && r == Some(t) && result == 0 && status1 == Blocking) &&
    (call == Some(Exit) ==> o == Done && r == None) &&
    (call != Some(AppendTask) ==> q1 == q0 && s1 == s0 && issued1 == issued0) &&
    (call == Some(AppendTask) ==> s1 == s0) &&
    (r.Some? ==> r == Some(t))
  }

  /**
   * `handle_syscall`. The call number is read from x17 and the first
   * argument from x10; `fut` is the future staged for an APPEND_TASK call
   * and `sleep` what `timer::sleep` answers for each argument. `result` is
   * the value the call produced, written into x10 of a task that is handed
   * back. No other register changes.
   */
  method HandleSyscall(t: Task, fut: Future, sleep: bv64 -> SleepAnswer, mlfq: Mlfq, taskIds: Counter)
    returns (o: Outcome, r: Option<Task>, result: bv64,
             ghost i: nat, ghost j: nat, ghost id: TaskId, ghost target: Option<Executor>)
    requires t.tcb.Valid() && mlfq.Valid() && taskIds.Valid()
    modifies t.tcb, t.tcb.ctx.x, mlfq, taskIds, t.executor, mlfq.Executors(), mlfq.Tcbs()
    ensures mlfq.Valid() && taskIds.Valid() && old(allocated(target))
    ensures CallEffect(Decode(old(t.tcb.ctx.X(17))), sleep(old(t.tcb.ctx.X(10))), t, fut, o, r, result, i, j, id, target,
                       old(t.tcb.status), t.tcb.status, old(mlfq.queue), mlfq.queue, old(mlfq.task), mlfq.task,
                       old(taskIds.issued), taskIds.issued, old(StateOf(target)), StateOf(target))
    ensures target.Some? ==> target.value == t.executor || target.value in old(mlfq.Executors())
    ensures o.Done? && r.Some? ==> t.tcb.ctx.X(10) == result
    ensures forall k :: 0 <= k < NUM_REGS && k != 9 ==> t.tcb.ctx.x[k] == old(t.tcb.ctx.x[k])
    ensures o.Done? && r.None? ==> t.tcb.ctx.x[9] == old(t.tcb.ctx.x[9])
  {
    var syscallId := t.tcb.ctx.X(17);
    var arg0 := t.tcb.ctx.X(10);
    i, j, id, target := 0, 0, 0, None;
    match Decode(syscallId) {
      case None =>
        return Panic("Unsupported syscall_id"), None, 0, i, j, id, target;
      case Some(c) =>
        o, r, result, i, j, id, target := Perform(c, t, fut, sleep(arg0), mlfq, taskIds);
    }
    label performed:
    if o.Done? && r.Some? {
      t.tcb.ctx.SetX(10, result);
    }
    assert StateOf(target) == old@performed(StateOf(target));
  }

  /** The arms of the `match syscall_id`, before the write-back; `answer` is what `sleep` answers. */
  method Perform(c: Call, t: Task, fut: Future, answer: SleepAnswer, mlfq: Mlfq, taskIds: Counter)
    returns (o: Outcome, r: Option<Task>, result: bv64,
             ghost i: nat, ghost j: nat, ghost id: TaskId, ghost target: Option<Executor>)
    requires mlfq.Valid() && taskIds.Valid()
    modifies t.tcb, mlfq, taskIds, t.executor, mlfq.Executors(), mlfq.Tcbs()
    ensures mlfq.Valid() && taskIds.Valid() && old(allocated(target))
    ensures CallEffect(Some(c), answer, t, fut, o, r, result, i, j, id, target,
                       old(t.tcb.status), t.tcb.status, old(mlfq.queue), mlfq.queue, old(mlfq.task), mlfq.task,
                       old(taskIds.issued), taskIds.issued, old(StateOf(target)), StateOf(target))
    ensures target.Some? ==> target.value == t.executor || target.value in old(mlfq.Executors())
  {
    r, result := None, 0;
    i, j, id, target := 0, 0, 0, None;
    match c {
      case Sleep =>
        t.tcb.status := Blocking;
        o := Done;
        if answer.handBack {
          r := Some(t);
        }
        result := answer.result;
      case GetTid =>
        o, r, result := Done, Some(t), Word(t.tid);
      case AppendTask =>
        var ret;
        o, ret, i, j, id, target := HandleAppendTask(t, fut, mlfq, taskIds);
        r, result := Some(t), Word(ret);
      case Yield =>
        t.tcb.status := Blocking;
        o, r, result := Done, Some(t), 0;
      case Exit =>
        o := Done;
    }
  }

  /**
   * `sys_spawn(f, is_io)`: spawn with interrupts off, then restore sstatus
   * exactly as it was.
   */
  method SysSpawn(sstatus: Trap.Sstatus, mlfq: Mlfq, f: Future, io: bool, taskIds: Counter, tids: Counter,
                  body: Closure, entry: bv64, runnerAddr: bv64, stackBase: bv64) returns (tid: nat)
    requires mlfq.Valid() && taskIds.Valid() && tids.Valid() && taskIds != tids
    modifies sstatus, mlfq, taskIds, tids
    ensures mlfq.Valid() && taskIds.Valid() && tids.Valid()
    ensures sstatus.value == old(sstatus.value)
    ensures tids.issued == old(tids.issued) + [tid]
    ensures var l := if io then 0 else 1;
      mlfq.queue[l] != [] && mlfq.queue[l][|mlfq.queue[l]| - 1].tid == tid &&
      mlfq.queue == old(mlfq.queue)[l := old(mlfq.queue)[l] + [mlfq.queue[l][|mlfq.queue[l]| - 1]]]
  {
    var saved := sstatus.PushOff();
    tid := Tasks.Spawn(mlfq, f, io, taskIds, tids, body, entry, runnerAddr, stackBase);
    sstatus.PopOn(saved);
  }
}
