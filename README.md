# try-libos scheduler and library structures, modelled in Dafny

This project models the sequential core of try-libos. Its main part is the
two-level scheduler of the qemu-virt platform:

- **Top level.** A multi-level feedback queue (`MlfqStruct`) holds kernel
  tasks. It has one FIFO per level, a transient slot for the task that did
  not use up its time slice, and a rotating level cursor.
- **Inside each task.** A coroutine executor holds an id→future map, a
  bounded ready queue of ids, a waker cache and a `ticks` poll counter.
- **Around them:**
  - one step of the scheduling loop, per trap cause;
  - the system-call dispatcher that reads x17/x10 and writes x10 back;
  - the sleep list that the timer sweep drains;
  - thread control blocks and their register files;
  - the `sstatus` interrupt-enable bit.

It also models the small library structures the system is built from:

- the binary min-heap;
- the MSB-first growable bitmap;
- the TCP port allocator on top of that bitmap;
- the round-robin `Runner`;
- the `Yield` and `SleepFuture` futures;
- the guest Ethernet frame filter and receive ring;
- the channel error conversions.

State that the source updates in place is a Dafny `class`:

- the MLFQ, executors, TCBs, register files, the sleep list and `sstatus`;
- the heap, the bitmap, the port allocator, the runner queue and the receive ring.

Each method's `ensures` ties its new state to a function of the old state,
and lemmas prove what the source promises about those functions. Pure code
is datatypes and functions: index arithmetic, time conversion, the
`TimerCondVar` ordering, packet filtering and error conversions.

Abstractions:

- **Futures** are opaque handles. What a poll answers is an input: an oracle
  `poll(id, k)` for the executor, or a sequence of answers for `block_on`.
- **Hardware** values are parameters: the `time` CSR reading, the claimed IRQ,
  stack addresses from the allocator, and the trap cause after a task runs.
- **Spin locks and `Arc`** are erased, so the model is single-threaded.
- **Panics** are an `Outcome` value (`Panic(reason)`) or an `Option`, never a
  precondition. The one exception is the register index bounds of
  `LocalContext::x`, whose callers always pass constants.

Facts about the code that the model follows:

- The sleep list is a linear `VecDeque` swept by rotation (platforms/qemu-virt/src/timer.rs:41-62); the `TimerCondVar` ordering is never used on it.
- `handle_append_task` hands the future to the I/O task when the calling task's `io` flag is set and the caller is not the I/O task itself (platforms/qemu-virt/src/tasks.rs:232).
- `handle_append_task` takes the future as a second argument (platforms/qemu-virt/src/tasks.rs:227). The call at platforms/qemu-virt/src/syscall.rs:39 passes only the task; the model passes the staged future.

## Model

| member | source | states |
|---|---|---|
| Atomic.Counter.constructor | platforms/qemu-virt/src/tasks.rs:117 | The counter starts at 0 with nothing issued. |
| Atomic.Counter.FetchAdd | platforms/qemu-virt/src/tasks.rs:116-126 | Returns the current value and advances by one modulo 2^64. While fewer than 2^64 values have been issued, the value is larger than every earlier one, so tids are unique and increasing. |
| Trap.WithSie | platforms/qemu-virt/src/trap.rs:34-36 | The written value has SIE (bit 1) set and every other bit as read. |
| Trap.WithoutSie | platforms/qemu-virt/src/trap.rs:38-40 | The written value has SIE clear and every other bit as read. |
| Trap.Sstatus.IntrOn | platforms/qemu-virt/src/trap.rs:34-36 | sstatus becomes WithSie of its old value. |
| Trap.Sstatus.IntrOff | platforms/qemu-virt/src/trap.rs:38-40 | sstatus becomes WithoutSie of its old value. |
| Trap.Sstatus.PushOff | platforms/qemu-virt/src/trap.rs:48-52 | Returns sstatus as it was before; afterwards SIE is clear and the other bits are unchanged. |
| Trap.Sstatus.PopOn | platforms/qemu-virt/src/trap.rs:43-45 | Writes back exactly the saved value, so `pop_on(push_off())` restores sstatus (see Syscall.SysSpawn). |
| Trap.Cpuid | platforms/qemu-virt/src/trap.rs:56-58 | The hart id is always 0. |
| KernelContext.LocalContext.Empty | platforms/qemu-virt/kernel-context/src/lib.rs:28-36 | All registers, sctx and sepc are 0; not supervisor, interrupts off. |
| KernelContext.LocalContext.User | platforms/qemu-virt/kernel-context/src/lib.rs:42-50 | Registers are zero and sepc = pc; user mode with interrupts on. |
| KernelContext.LocalContext.Thread | platforms/qemu-virt/kernel-context/src/lib.rs:54-62 | Registers are zero and sepc = pc; supervisor mode, with interrupts as given. |
| KernelContext.LocalContext.SetThread | platforms/qemu-virt/src/thread.rs:69 | Overwriting a context with `thread(pc, intr)` in place gives the same state as the constructor. |
| KernelContext.LocalContext.X | platforms/qemu-virt/kernel-context/src/lib.rs:66-68 | `x(n)` is slot n-1, for 1 ≤ n ≤ 31. |
| KernelContext.LocalContext.A | platforms/qemu-virt/kernel-context/src/lib.rs:78-80 | `a(n)` is x(n+10), slot n+9. |
| KernelContext.LocalContext.Ra | platforms/qemu-virt/kernel-context/src/lib.rs:90-92 | `ra()` is x(1). |
| KernelContext.LocalContext.Sp | platforms/qemu-virt/kernel-context/src/lib.rs:96-98 | `sp()` is x(2). |
| KernelContext.LocalContext.SetX | platforms/qemu-virt/kernel-context/src/lib.rs:72-74 | After a write through `x_mut(n)`, x(n) reads the value and every other register is unchanged. |
| KernelContext.LocalContext.SetA | platforms/qemu-virt/kernel-context/src/lib.rs:84-86 | After a write through `a_mut(n)`, a(n) reads the value and every other register is unchanged. |
| KernelContext.LocalContext.SetSp | platforms/qemu-virt/kernel-context/src/lib.rs:102-104 | After a write through `sp_mut()`, sp reads the value and every other register is unchanged. |
| KernelContext.LocalContext.Pc | platforms/qemu-virt/kernel-context/src/lib.rs:108-110 | `pc()` reads the saved sepc. |
| KernelContext.LocalContext.SetPc | platforms/qemu-virt/kernel-context/src/lib.rs:114-116 | After a write through `pc_mut()`, sepc is the value and the mode flags are unchanged. |
| KernelContext.LocalContext.MoveNext | platforms/qemu-virt/kernel-context/src/lib.rs:124-126 | sepc advances by 4, wrapping at 2^64; nothing else changes. |
| KernelContext.BuildSstatus | platforms/qemu-virt/kernel-context/src/lib.rs:164-179 | Bit 8 is set iff supervisor and bit 5 iff interrupt; every other bit of the current sstatus is kept. |
| KernelContext.SetMode | platforms/qemu-virt/kernel-context/src/lib.rs:170-177 | One `match`: the chosen mode bit is set exactly when asked, and the other mode bit and all bits outside the two are kept. |
| Thread.TaskControlBlock.Zero | platforms/qemu-virt/src/thread.rs:60-65 | `ZERO` has stack 0, no exit code, status UnInit and an empty context. |
| Thread.TaskControlBlock.Init | platforms/qemu-virt/src/thread.rs:68-74 | The thread context is supervisor mode with interrupts on and pc = entry. sp = stack + 0x8000, all other registers are 0, and status is Ready. |
| Thread.TaskControlBlock.InitWithArg | platforms/qemu-virt/src/thread.rs:77-80 | As `init`, and a0 holds the argument. |
| Thread.TaskControlBlock.Reinit | platforms/qemu-virt/src/thread.rs:83-91 | Keeps the stack base, resets sp to its top and the context to enter `entry`; status is Ready. |
| Thread.TaskControlBlock.MoveNext | platforms/qemu-virt/src/thread.rs:93-95 | The saved pc advances by 4; the mode flags are unchanged. |
| Thread.TaskControlBlock.Drop | platforms/qemu-virt/src/thread.rs:104-111 | A stack is freed iff `stack != 0`, and it is that stack. |
| Thread.ThreadRunner.Run | platforms/qemu-virt/src/thread.rs:129-133 | A second call panics with the source's message. The first runs the closure, empties it and sets status Finish. |
| Thread.Spawn | platforms/qemu-virt/src/thread.rs:153-173 | The new TCB is Ready and its context enters the runner trampoline, supervisor mode with interrupts on. Its a0 is the runner's address and sp is the top of the new stack; the runner owns the closure. |
| Timer.AsIsize | platforms/qemu-virt/src/timer.rs:30-31 | `as isize` yields the isize congruent to the deadline modulo 2^64. |
| Timer.NegIsize | platforms/qemu-virt/src/timer.rs:30-31 | Negation stays in isize range and is exact except at isize::MIN. |
| Timer.Eq | platforms/qemu-virt/src/timer.rs:22-26 | Entries equal under `eq` (the same deadline) compare Equal. |
| Timer.Cmp | platforms/qemu-virt/src/timer.rs:28-39 | As written: Equal iff the deadlines agree modulo 2^64 (the `as isize` cast), whatever their high bits. |
| Timer.CmpReversed | platforms/qemu-virt/src/timer.rs:22-39 | For deadlines below 2^63 the order is reversed: an earlier deadline compares Greater, a later one Less, and Equal iff `eq`. |
| Timer.CmpDisagreesWithEq | platforms/qemu-virt/src/timer.rs:28-34 | As written: deadlines 2^64 and 0 compare Equal although `eq` is false (see Findings). |
| Timer.CmpByDeadline | platforms/qemu-virt/src/timer.rs:22-39 | The intended ordering on the full 128-bit deadline: reversed, and Equal iff `eq`. |
| Timer.CmpAgreesBelowBound | platforms/qemu-virt/src/timer.rs:28-34 | Below 2^63 the written and the intended comparisons agree. |
| Timer.GetTimeUs | platforms/qemu-virt/src/timer.rs:65-67 | The result is time / 12: the largest us with us·12 ≤ time. |
| Timer.GetTimeMs | platforms/qemu-virt/src/timer.rs:70-72 | The result is time / 12500: the largest ms with ms·12500 ≤ time. |
| Timer.TimeMonotone | platforms/qemu-virt/src/timer.rs:65-72 | Both conversions are monotone in the CSR reading. |
| Timer.SplitAppend | platforms/qemu-virt/src/timer.rs:50-62 | The expired/kept split of a concatenation is the concatenation of the splits. |
| Timer.SplitPartition | platforms/qemu-virt/src/timer.rs:53-58 | Every entry goes exactly one way (multiset union). Expired entries have expire_ms ≤ now; kept ones have expire_ms > now. |
| Timer.SweepIdempotent | platforms/qemu-virt/src/timer.rs:55-59 | A second sweep at the same time wakes nothing and keeps everything. |
| Timer.SleepList.constructor | platforms/qemu-virt/src/timer.rs:41-42 | TIMERS starts empty. |
| Timer.SleepList.MoveTimer | platforms/qemu-virt/src/timer.rs:44-47 | The TCB becomes Blocking and exactly one entry is appended at the back. |
| Timer.SleepList.CheckTimer | platforms/qemu-virt/src/timer.rs:50-62 | Woken entries are exactly the expired ones, in list order; the list keeps exactly the unexpired ones, in their original order. |
| Timer.SysSleep | platforms/qemu-virt/src/timer.rs:75-86 | The thread is queued Blocking with deadline get_time_ms() + ms. Interrupts are off while queueing and on afterwards; the result is 0. |
| Syscall.Decode | platforms/qemu-virt/src/syscall.rs:29-47 | A number decodes to the call it is the number of; it is unsupported iff outside 101..=105. |
| Syscall.DecodeNumber | platforms/qemu-virt/src/consts.rs:10-14 | Every call decodes from its own number, so the numbers are distinct. |
| Syscall.Number | platforms/qemu-virt/src/consts.rs:10-14 | Every call number lies in 101..=105. |
| Syscall.HandleSyscall | platforms/qemu-virt/src/syscall.rs:15-57 | Per number in x17, as CallEffect states. An unknown number panics and drops the task. SLEEP sets Blocking; the result and hand-back are what `sleep` answers for the argument in x10. GET_TID hands back with the tid. APPEND_TASK hands back with the redirect result and has AppendEffect's effect on the levels, the coroutine ids and the receiving executor. YIELD sets Blocking and hands back 0. EXIT drops the task. Every call but APPEND_TASK leaves the levels, the slot and the ids unchanged. A handed-back task has x10 = result, and no other register changes. |
| Syscall.Perform | platforms/qemu-virt/src/syscall.rs:29-48 | The arms of the dispatch `match`, with the per-call results, status changes and queue effects of CallEffect. |
| Syscall.SysSpawn | platforms/qemu-virt/src/syscall.rs:93-101 | The task is spawned onto its level with interrupts off, and sstatus ends exactly as it was. |
| AsyncExecutor.NewTaskId | platforms/qemu-virt/src/async_executor.rs:27-32 | Ids come from one counter; each is larger than all earlier ones while fewer than 2^64 were issued. |
| AsyncExecutor.DrainTicks | platforms/qemu-virt/src/async_executor.rs:108-134 | Draining empties the ready queue and ticks grows by exactly the number of polls. Only queued ids with a live coroutine are polled; stale ids are skipped at no tick. |
| AsyncExecutor.DrainCompletion | platforms/qemu-virt/src/async_executor.rs:123-130 | The coroutines removed are exactly those that answered Ready, and their wakers go with them. Polled Pending coroutines keep a cached waker. |
| AsyncExecutor.Split | platforms/qemu-virt/src/async_executor.rs:145-158 | The two parts `steal` makes are disjoint and their union is the original map. |
| AsyncExecutor.MoveDone | platforms/qemu-virt/src/async_executor.rs:145-151 | Once the steal loop ends, every queued id has moved in order. The maps are the Split of the old map, and the moved ids' wakers are gone. |
| AsyncExecutor.MoveStuck | platforms/qemu-virt/src/async_executor.rs:147 | Meeting a queued id with no coroutine means the queue was not stealable (the `unwrap` panics). |
| AsyncExecutor.Executor.constructor | platforms/qemu-virt/src/async_executor.rs:85-92 | Starts with no tasks, an empty queue, an empty waker cache and ticks 0. |
| AsyncExecutor.Executor.FromParts | platforms/qemu-virt/src/async_executor.rs:153-158 | The stolen executor has the moved tasks and queue, an empty waker cache and ticks 0. |
| AsyncExecutor.Executor.Spawn | platforms/qemu-virt/src/async_executor.rs:96-102 | As Spawned states: a duplicate id panics, and a full queue (300 ids) panics. Otherwise the task is inserted, its id is pushed at the back, and nothing else changes. |
| AsyncExecutor.Executor.WakeTask | platforms/qemu-virt/src/async_executor.rs:61-63 | The id is pushed at the back of the queue; a full queue panics with "task_queue full". |
| AsyncExecutor.Executor.RunReadyTasks | platforms/qemu-virt/src/async_executor.rs:108-134 | The new state is Drain of the old: the queue is empty, ticks grows by the polls, and completed tasks are removed. |
| AsyncExecutor.Executor.Steal | platforms/qemu-virt/src/async_executor.rs:137-161 | With at most one queued id, returns None and changes nothing. Otherwise it panics unless stealable. When stealable, the new executor holds the queued ids in order with their tasks and the old queue is empty. |
| AsyncExecutor.Executor.MoveQueue | platforms/qemu-virt/src/async_executor.rs:145-151 | The loop succeeds iff the queue is stealable, and then moves the queue and the tasks as Split says. |
| AsyncExecutor.Executor.WakeAll | platforms/qemu-virt/src/async_executor.rs:61-73 | Succeeds iff the old queue plus the ids fit in 300 entries; then the ids are appended in order. Otherwise it panics with "task_queue full". Tasks, wakers and ticks are unchanged. |
| AsyncExecutor.Executor.Run | platforms/qemu-virt/src/async_executor.rs:163-172 | The outcome and the final state are those of RunOf: drain, stop when no task is left, otherwise yield and take the next wake-ups. With no wake-ups, the result is Done and exactly one Drain. ticks never decreases, and `run` finishes iff no task is left, with an empty queue. |
| AsyncExecutor.RunOfEnds | platforms/qemu-virt/src/async_executor.rs:163-172 | Without a panic, the loop finishes iff no task is left, and then the queue is empty; ticks never decreases. |
| AsyncExecutor.RunOfPanics | platforms/qemu-virt/src/async_executor.rs:61-63 | The loop panics iff some batch of wake-ups alone exceeds the 300-entry queue, the rounds before it having neither finished nor panicked. |
| AsyncExecutor.Executor.Ticks | platforms/qemu-virt/src/async_executor.rs:104-106 | `ticks()` reads the poll counter. |
| Tasks.LevelOf | platforms/qemu-virt/src/tasks.rs:69-75 | I/O tasks are on level 0 and all others on level 1. |
| Tasks.Swap | platforms/qemu-virt/src/tasks.rs:61 | `VecDeque::swap` exchanges two positions and permutes the level. |
| Tasks.SwapRemoveFront | platforms/qemu-virt/src/tasks.rs:61-62 | After swap(0, j) and pop_front, the old front sits at j-1 and every other task keeps its order. Exactly the task at j is removed. |
| Tasks.ScanUnfold | platforms/qemu-virt/src/tasks.rs:43-51 | The search tries `level`, then the other level, popping the first non-empty one and advancing the cursor mod NUM_LEVELS per try. |
| Tasks.ScanAllLevels | platforms/qemu-virt/src/tasks.rs:43-53 | The search finds nothing iff every level is empty; the cursor stays below NUM_LEVELS. |
| Tasks.ScanConserves | platforms/qemu-virt/src/tasks.rs:43-51 | The search loses and invents no task: what it finds left exactly one level. |
| Tasks.FlattenRemove | platforms/qemu-virt/src/tasks.rs:56-67 | Removing one task from one level removes exactly that task from the whole. |
| Tasks.Mlfq.constructor | platforms/qemu-virt/src/tasks.rs:91-101 | NUM_LEVELS empty levels, an empty slot and the cursor at 0. |
| Tasks.Mlfq.NextTask | platforms/qemu-virt/src/tasks.rs:32-54 | A task in the slot is returned, the slot is emptied and the levels are unchanged. Otherwise the result is the Scan of the levels. None iff the slot and every level are empty; the tasks held lose exactly the one returned. |
| Tasks.Mlfq.FindTid | platforms/qemu-virt/src/tasks.rs:58-60 | Finds the first position holding the tid, level 0 first, or reports that no level holds it. |
| Tasks.Mlfq.GetTaskByTid | platforms/qemu-virt/src/tasks.rs:56-67 | Returns the first task with the tid and leaves that level as SwapRemoveFront says. None iff no level holds it, and then nothing changes; the slot and cursor are untouched. |
| Tasks.Mlfq.TakeAt | platforms/qemu-virt/src/tasks.rs:61-62 | Removes exactly the task at (i, j) by swap(0, j) and pop_front. |
| Tasks.Mlfq.AddTaskToQueue | platforms/qemu-virt/src/tasks.rs:69-75 | The task goes to the back of its level (0 for I/O, else 1) and nothing else changes. |
| Tasks.Mlfq.AddTaskTransient | platforms/qemu-virt/src/tasks.rs:77-87 | The task takes the slot. A task already there goes to the back of its level, so none is lost or duplicated. |
| Tasks.NewTask | platforms/qemu-virt/src/tasks.rs:116-126 | The tid is the next counter value, larger than every earlier tid while fewer than 2^64 were issued. |
| Tasks.AddTaskToQueue | platforms/qemu-virt/src/tasks.rs:209-212 | The thread becomes Blocking and the task is queued at the back of its level. |
| Tasks.Spawn | platforms/qemu-virt/src/tasks.rs:187-206 | A new executor with the future and a new thread become a task with the next tid. That task is appended to level 0 (I/O) or 1, and its tid is returned. |
| Tasks.StealTask | platforms/qemu-virt/src/tasks.rs:155-171 | With at most one queued coroutine there is no new task. A stealable queue gives a new I/O task whose executor holds the queue. Otherwise it panics. |
| Tasks.Append | platforms/qemu-virt/src/tasks.rs:173-178 | The future is spawned on the task's executor under the next coroutine id, which is appended to the ids issued, with Spawn's panics (Spawned). |
| Tasks.HandleAppendTask | platforms/qemu-virt/src/tasks.rs:227-244 | As AppendEffect states. A caller that is not the I/O task and has `io` set gets IO_TASK_TID, and the future goes to the I/O task as IoAppended says. Otherwise the caller gets its own tid and the future is spawned on its own executor (Spawned), with the levels unchanged. A fresh coroutine id is issued exactly when an executor receives the future. The tasks held are unchanged. |
| Tasks.AppendToIoTask | platforms/qemu-virt/src/tasks.rs:233-236 | As IoAppended states. If no level holds the I/O task, nothing changes and no id is issued. Otherwise the first I/O task is taken out and its executor is spawned on (Spawned) under a fresh id. The task is queued again, Blocking, at the back of its level. |
| Tasks.Requeue | platforms/qemu-virt/src/tasks.rs:234-235 | The future is spawned on the task's executor under a fresh id (Spawned), and the task goes to the back of its level, Blocking. |
| Tasks.RequeueFound | platforms/qemu-virt/src/tasks.rs:233-236 | Given the I/O task just taken out, the levels before the lookup and those after satisfy IoAppended, and the tasks held are restored. |
| Scheduler.GetSlice | platforms/qemu-virt/src/lib.rs:99-104 | Both kinds of task get a 12500-tick slice. |
| Scheduler.Step | platforms/qemu-virt/src/lib.rs:113-180 | Empty queues and slot panic with "no task, Shutdown". Otherwise the task is the slot's or the Scan's. A task that was Blocking is armed for now + 12500 (mod 2^64). Then the arm of the trap cause applies to the timers as TurnEffect states and to the levels and slot as TurnQueues states. For a system call TurnQueues also fixes, through CallEffect, the call read from x17 before the turn, the task's status after the call (SLEEP and YIELD leave it Blocking, so it goes to the back of its level), the coroutine ids issued, and the levels and receiving executor an APPEND_TASK leaves. |
| Scheduler.PickTask | platforms/qemu-virt/src/lib.rs:114-115 | `get_task_from_queue().expect(..)`: the task comes from the slot, which is emptied, or from the Scan, whose levels remain. None iff the slot and every level are empty. The queues afterwards own no more than before. |
| Scheduler.ArmSlice | platforms/qemu-virt/src/lib.rs:121-124 | A task that was Blocking is set Running and gets a slice ending at now + 12500, wrapping at 2^64. Any other task keeps its status and arms nothing. |
| Scheduler.RunTask | platforms/qemu-virt/src/lib.rs:117-179 | The timer is armed only for a task that was Blocking. On a timer interrupt without a panic, the expired sleepers wake, the rest stay, the timer is switched off, and the task is requeued as TimerRequeue says. An external interrupt completes the claim and puts the task in the slot (Placed). A system call does what CallEffect says for the call in x17 and the task's status before the run: the status it leaves, the coroutine ids issued, the levels and the receiving executor's state, starting from the executor's state after the run. It places the task as SyscallPlaced says. Any other cause drops the task: the levels, slot and timers are unchanged. |
| Scheduler.Dispatch | platforms/qemu-virt/src/lib.rs:127-180 | The `match` on the trap cause: the timer arm switches the timer off, and each arm has the TurnEffect and TurnQueues effects listed for RunTask, the system-call arm with the status, coroutine ids and receiving executor CallEffect states. |
| Scheduler.TurnEffectArmed | platforms/qemu-virt/src/lib.rs:121-130 | The slice armed before the task runs comes before whatever its trap arms, so the trap's effects still hold. |
| Scheduler.OnTimer | platforms/qemu-virt/src/lib.rs:129-148 | The sleep sweep runs and the task becomes Blocking. The levels change as TimerRequeue says: progress sets io; a compute task returns to level 1; an idle I/O task is stolen from. With ≤ 1 coroutine queued it returns to level 0; a successful steal queues the new I/O task, which owns the old queue, on level 0, and the old task, now compute-bound, on level 1. |
| Scheduler.ReturnToLevels | platforms/qemu-virt/src/lib.rs:133-147 | The queue changes of the timer arm as listed for OnTimer. |
| Scheduler.StealAndQueue | platforms/qemu-virt/src/lib.rs:136-147 | For an idle I/O task with ≤ 1 queued coroutine, the task returns to level 0. With more, it panics unless the queue is stealable. A successful steal puts the new I/O task, owning the old queue, on level 0 and the old task, now compute-bound, on level 1. |
| Scheduler.OnSyscall | platforms/qemu-virt/src/lib.rs:162-172 | An unknown number panics. EXIT drops the task, and a SLEEP hands it back iff `sleep` answers so for x10. GET_TID and YIELD hand it back, and APPEND_TASK does iff the append did not panic. As SyscallPlaced states, a handed-back task goes to the slot unless Blocking, in which case it goes to the back of its level. A dropped task leaves the levels and slot as they were, except for APPEND_TASK's requeue of the I/O task. Through CallEffect: SLEEP and YIELD leave the task Blocking and GET_TID keeps its status; only APPEND_TASK issues a coroutine id, changes the levels or changes an executor, as AppendEffect states. |
| Scheduler.PlaceHandedBack | platforms/qemu-virt/src/lib.rs:164-168 | As Placed states: a task that is not Blocking takes the slot, and a task already there goes to the back of its level. A Blocking task goes to the back of its level and the slot is unchanged. Its status is unchanged. |
| BinaryHeap.IndexTree | common/collections/src/heap.rs:122-140 | The children of i are 2i+1 and 2i+2 and both have parent i. Only index 0 has no parent, and a parent index is smaller than its child's. |
| BinaryHeap.SwapPermutes | common/collections/src/heap.rs:86 | A swap only rearranges the elements. |
| BinaryHeap.SiftUpPermutes | common/collections/src/heap.rs:82-92 | Sifting up keeps the length and the multiset. |
| BinaryHeap.SiftUpStep | common/collections/src/heap.rs:85-87 | One swap with a larger parent moves the single order fault to the parent. |
| BinaryHeap.SiftUpRestores | common/collections/src/heap.rs:82-92 | Sifting up the only out-of-order element restores heap order. |
| BinaryHeap.SiftDownPermutes | common/collections/src/heap.rs:94-117 | Sifting down keeps the length and the multiset. |
| BinaryHeap.SmallerChild | common/collections/src/heap.rs:99-111 | The chosen child is a child of i and no larger than any child. |
| BinaryHeap.SiftDownStep | common/collections/src/heap.rs:113-116 | One swap with the smaller child moves the single order fault to that child. |
| BinaryHeap.SiftDownRestores | common/collections/src/heap.rs:94-117 | Sifting down the only out-of-order element restores heap order. |
| BinaryHeap.RootIsMinimum | common/collections/src/heap.rs:49-55 | The root of a heap is no larger than any element. |
| BinaryHeap.PushAdds | common/collections/src/heap.rs:59-68 | Push adds exactly the value, grows the length by one and keeps heap order. |
| BinaryHeap.PopRemovesMinimum | common/collections/src/heap.rs:35-45 | Pop on empty gives None and changes nothing. Otherwise it removes one element, shrinking the length by one; on a heap that element is a minimum and the rest is a heap. |
| BinaryHeap.PushAllAdds | common/collections/src/heap.rs:70-74 | insert_vec adds exactly the values and keeps heap order. |
| BinaryHeap.PushExample | common/collections/src/heap.rs:147-154 | Pushing 3, 4, 1, 9, 2 into an empty heap lays it out as [1, 2, 3, 9, 4]. |
| BinaryHeap.PopExampleFirst | common/collections/src/heap.rs:155-156 | The first two pops give 1 and then 2. |
| BinaryHeap.PopExampleRest | common/collections/src/heap.rs:157-159 | The next pops give 3, 4 and 9. |
| BinaryHeap.PopsInOrder | common/collections/src/heap.rs:147-160 | The repository's test: six pops yield 1, 2, 3, 4, 9, None. |
| BinaryHeap.Heap.constructor | common/collections/src/heap.rs:15-19 | A new heap is empty. |
| BinaryHeap.Heap.Len | common/collections/src/heap.rs:29-31 | The number of elements. |
| BinaryHeap.Heap.Peek | common/collections/src/heap.rs:49-55 | None iff empty; otherwise element 0, which in a heap is a minimum. |
| BinaryHeap.Heap.Pop | common/collections/src/heap.rs:35-45 | The new state is PopOf of the old: the multiset loses the returned value and heap order is kept. The value is a minimum. |
| BinaryHeap.Heap.Push | common/collections/src/heap.rs:59-68 | The new state is PushOf of the old: the multiset gains the value and heap order is kept. |
| BinaryHeap.Heap.InsertVec | common/collections/src/heap.rs:70-74 | The new state is the values pushed in order: the multiset gains them all and heap order is kept. |
| BinaryHeap.Heap.SiftUp | common/collections/src/heap.rs:82-92 | The data becomes SiftUpOf of the old data. |
| BinaryHeap.Heap.SiftDown | common/collections/src/heap.rs:94-117 | The data becomes SiftDownOf of the old data. |
| VarBitmap.SetBitOf | libs/var_bitmap/src/lib.rs:60-67 | The xor flip sets the chosen bit to the value and leaves the other seven bits. |
| VarBitmap.BytesFor | libs/var_bitmap/src/lib.rs:22-27 | ceil(n/8): enough bytes for n bits and not one more. |
| VarBitmap.SetThenGet | libs/var_bitmap/src/lib.rs:52-69 | After a set, that bit reads the value and every other bit reads as before. |
| VarBitmap.ZeroBits | libs/var_bitmap/src/lib.rs:20-33 | Every bit of the zero bytes `with_size` allocates reads false. |
| VarBitmap.Bitmap.WithSize | libs/var_bitmap/src/lib.rs:20-33 | Size n, ceil(n/8) zero bytes, every bit reads false. |
| VarBitmap.Bitmap.constructor | libs/var_bitmap/src/lib.rs:15-17 | `new()` has size 0 and no bytes. |
| VarBitmap.Bitmap.Size | libs/var_bitmap/src/lib.rs:36-38 | The number of bits. |
| VarBitmap.Bitmap.Get | libs/var_bitmap/src/lib.rs:41-49 | Panics (None) iff idx ≥ size; otherwise bit 7 - idx%8 of byte idx/8. |
| VarBitmap.Bitmap.Set | libs/var_bitmap/src/lib.rs:52-69 | Panics when idx ≥ size. Otherwise get(idx) reads the value afterwards and every other index reads as before. |
| VarBitmap.Bitmap.Push | libs/var_bitmap/src/lib.rs:72-81 | The size grows by one, the last bit reads the value and earlier bits are kept. A byte is added exactly when the old size was a multiple of 8. |
| Ethernet.MarkPortMarks | libs/net/src/ethernet.rs:208-215 | An unused port is marked and returned; a used port gives None and changes nothing; no other port changes. |
| Ethernet.FirstFreeIsSmallest | libs/net/src/ethernet.rs:226-235 | The search result is the smallest unused port from p to 65535. It is None iff all of them are used. |
| Ethernet.EphemeralCanBeMarked | libs/net/src/ethernet.rs:226-235 | The port `get_ephemeral_port` proposes can then be marked. |
| Ethernet.EraseKeepsPortUsed | libs/net/src/ethernet.rs:218-224 | As written: a port reported erased still cannot be marked again (see Findings). |
| Ethernet.ReleaseFreesPort | libs/net/src/ethernet.rs:218-224 | Corrected erase: Some iff the port was used; the port becomes free and can be marked again; no other port changes. |
| Ethernet.EthernetDriver.constructor | libs/net/src/ethernet.rs:157 | The port map has 65536 bits, all free. |
| Ethernet.EthernetDriver.MarkPort | libs/net/src/ethernet.rs:208-215 | The answer and the new map are MarkPortOf of the old map. |
| Ethernet.EthernetDriver.ErasePort | libs/net/src/ethernet.rs:218-224 | Some(p) iff p is used, and the map is not modified. |
| Ethernet.EthernetDriver.ReleasePort | libs/net/src/ethernet.rs:218-224 | The corrected erase: the answer and the new map are ReleasePortOf of the old map. |
| Ethernet.EthernetDriver.GetEphemeralPort | libs/net/src/ethernet.rs:226-235 | The smallest unused port in 49152..=65535, or None iff all are used; nothing is marked. |
| Runner.RoundRobinAccounts | common/executor/src/lib.rs:86-98 | Each answer serves exactly one poll and the run stops early only on an empty queue. Each Ready drops one future and each Pending keeps the length. |
| Runner.RoundRobinFifo | common/executor/src/lib.rs:86-98 | The first polls take the queued futures front to back (FIFO). |
| Runner.AllReadyDrains | common/executor/src/lib.rs:86-98 | With a Ready answer for each queued future, one pass empties the queue. |
| Runner.FirstReadyIsFirst | common/executor/src/lib.rs:127-137 | The first Ready answer is Ready and all earlier ones Pending; None iff all are Pending. |
| Runner.Runtime.TaskPopFront | common/executor/src/lib.rs:48-50 | Returns the front and removes it, or None on an empty queue. |
| Runner.Runtime.TaskPushBack | common/executor/src/lib.rs:52-54 | Appends at the back. |
| Runner.Runner.constructor | common/executor/src/lib.rs:62-67 | A new runner has an empty queue. |
| Runner.Runner.Spawn | common/executor/src/lib.rs:70-75 | The future is appended at the back of the queue. |
| Runner.Runner.BlockOn | common/executor/src/lib.rs:78-99 | The argument is queued first; the remaining queue and the futures polled are RoundRobin of that queue. It reports drained iff the queue is empty. |
| Runner.AsyncBlockOn | common/executor/src/lib.rs:119-137 | Returns the value of the first Ready poll, after exactly that many polls; None iff every answer is Pending. |
| AsyncUtils.Yield.constructor | common/executor/src/utils.rs:16-18 | A new Yield has not yielded. |
| AsyncUtils.Yield.Poll | common/executor/src/utils.rs:24-31 | Pending the first time, setting `yielded`; Ready once `yielded` is set. |
| AsyncUtils.AsyncYield | platforms/qemu-virt/src/async_utils.rs:25-37 | A fresh Yield is Pending on its first poll and Ready on its second. |
| AsyncUtils.NewSleepFuture | platforms/qemu-virt/src/async_utils.rs:45-52 | The deadline is now + dur, cut to 64 bits; without overflow it is exactly now + dur. The same code is at common/executor/src/utils.rs:43-50. |
| AsyncUtils.SleepWaitsItsDuration | common/executor/src/utils.rs:56-61 | A new sleep polls Ready iff the clock has reached now + dur. |
| AsyncUtils.SleepStaysReady | platforms/qemu-virt/src/async_utils.rs:58-63 | On the monotone CSR clock, a sleep that is Ready stays Ready. |
| GuestEth.IsValidPacket | platforms/guest/src/eth.rs:46-59 | Panics (None) iff the frame is too short for the byte a short-circuit reaches. Otherwise true iff bytes 0..6 are MACADDR or bytes 12-13 are 0x08 0x06 (ARP). |
| GuestEth.FullHeaderJudged | platforms/guest/src/eth.rs:49-53 | Every frame of at least 14 bytes is judged without a panic; ARP and frames to MACADDR are kept. |
| GuestEth.PopBackUndoesPush | platforms/guest/src/eth.rs:62 | `recv` after a push takes the frame just pushed: the ring is LIFO. |
| GuestEth.CopyPrefix | platforms/guest/src/eth.rs:63-65 | The first min(frame, buffer) bytes come from the frame and the rest of the buffer is kept. |
| GuestEth.EthDevice.constructor | platforms/guest/src/eth.rs:21 | RECV_RING starts empty. |
| GuestEth.EthDevice.Recv | platforms/guest/src/eth.rs:61-68 | On an empty ring, returns 0 and leaves the buffer untouched. Otherwise it pops the newest frame, copies min(len) bytes and returns that count. |
| GuestEth.EthDevice.AsyncRecv | platforms/guest/src/eth.rs:70-78 | A frame is pushed at the back iff IsValidPacket holds; a short frame panics. |
| ChannelError.SendConversionsKeepValue | common/mpmc/src/error.rs:80-84 | SendError(t) converts to TrySendError::Disconnected(t) and to SendTimeoutError::Disconnected(t) with the same payload (error.rs:189-195). |
| ChannelError.RecvConversionsDisconnect | common/mpmc/src/error.rs:125-129 | RecvError converts to TryRecvError::Disconnected and to RecvTimeoutError::Disconnected (error.rs:157-161). |
| ChannelError.ConversionKeepsMessage | common/mpmc/src/error.rs:33-37 | A SendError converted to a TrySendError, and a RecvError converted to a TryRecvError, display the same message as before (error.rs:59, 104). |
| ChannelError.TimeoutConversionsChangeMessage | common/mpmc/src/error.rs:132-137 | A RecvError converted to a RecvTimeoutError, and a SendError converted to a SendTimeoutError, display a different message from before (error.rs:89 and 136, 35 and 182). |
| ChannelError.MessagesDistinguishVariants | common/mpmc/src/error.rs:55-62 | Two errors display the same message iff they are the same variant: full/closed, empty/closed, timeout/closed. |

## Left out

- Raw context switching (`execute`, `execute_yield`, `execute_naked`, the assembly) and the inline-asm `syscall` trampoline. A task's run is an input: the trap cause, and how many polls its executor made. The run changes only the executor's `ticks`. Its queue and coroutines stay as they were before the run, and the timer arm's steal decision reads that queue.
- Spin locks, `force_unlock`, atomics and `Arc` sharing. The model is single-threaded and owns its state.
- MMIO: `plic_claim`/`plic_complete` are a parameter and a result; `set_timer` is recorded in `armed`. `e1000::handle_interrupt` is not part of this model.
- `timer::sleep` and `move_run` are not shown in the source. The SLEEP call takes what `sleep` answers as an input (`SleepAnswer`), and `check_timer` returns the sleepers it would hand to `move_run`.
- Thread.TaskControlBlock.Reinit: the zeroing of the stack memory (`write_bytes`) is not modelled, since stack memory is not part of the model.
- Stack allocation and deallocation happen in the global allocator. Addresses are parameters, and `Drop` reports the stack it would free.
- `async_spawn`/`GLOBAL_BOXED_FUTURE` and the boxing of futures are not shown. The future for APPEND_TASK is a parameter.
- AsyncExecutor.Executor.RunReadyTasks: a poll does not wake coroutines synchronously; wakes arrive through WakeTask/WakeAll between runs.
- AsyncExecutor.Executor.WakeAll: the queue after a "task_queue full" panic is unspecified, since the source aborts there.
- AsyncExecutor.Executor.Run: the wake-ups that arrive while the executor is yielded are an input list, one batch per `sys_yield`. The state after a panic is unspecified, and the scheduler's resumptions are a finite list, so an executor still yielded at its end is reported unfinished rather than run forever.
- Runner.Runner.BlockOn: the poll answers are a finite sequence; when they run out the model stops where the source would keep polling.
- Heap: elements are integers rather than any `PartialOrd` type; capacity, `shrink_to_fit` and `new_in` allocators are not modelled.
- Bitmap: a `usize` overflow of `size` is not modelled.
- `EthDevice::new`/`send` and the pnet calls are left out; `RECV_RING` is a field of the device. The smoltcp parts of `EthernetDriver` are left out too.
- Channel `Debug` impls and the channel implementations themselves are left out.
- Atomic.Counter.FetchAdd: a 64-bit wrap-around is modelled, but uniqueness is stated only while fewer than 2^64 values have been issued.
- Timer.NegIsize: `-(expire_ms as isize)` would panic at `isize::MIN` in a debug build; the model wraps as a release build does.
- AsyncUtils.NewSleepFuture: a debug build would panic on overflow in `now + dur`; the model wraps as a release build does.
- Scheduler.Step: the trap cause is an input and the loop is one step; the `Shutdown` reset after the loop is not modelled. The x10 write-back of a handed-back task is stated by OnSyscall and HandleSyscall and is not repeated in RunTask or Step. For APPEND_TASK, Step ties the receiving executor's state before the call to its state before the turn only when it is the task's own executor. When the future goes to the I/O task, that state is the one at the moment the task was picked, which RunTask's contract states.
- Scheduler.ArmSlice: `rdtime() as u64 + get_slice(..)` would panic on overflow in a debug build; the model wraps at 2^64 as a release build does.
- Scheduler.RunTask: after a panic (an unknown system call, a full coroutine queue, an unstealable I/O queue) the levels are left unspecified, since the source aborts the kernel there.

## Findings

| source | as written | input that shows it | evidently intended | confidence | as-written member | corrected member |
|---|---|---|---|---|---|---|
| platforms/qemu-virt/src/timer.rs:28-34 | `partial_cmp` compares `-(expire_ms as isize)`; the cast keeps only the low 64 bits of the `u128` deadline | deadlines 2^64 and 0: `cmp` says Equal although `eq` says they differ | compare the full deadlines, reversed, so Equal agrees with `eq` | not executed | Timer.CmpDisagreesWithEq | Timer.CmpByDeadline |
| libs/net/src/ethernet.rs:218-224 | `erase_port` returns Some(port) for a used port but never clears its bit | mark 5000, erase 5000, mark 5000 again: the second mark answers None | clear the bit so the port can be used again | not executed | Ethernet.EraseKeepsPortUsed | Ethernet.ReleaseFreesPort |
