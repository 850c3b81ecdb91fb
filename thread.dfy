/**
 * Kernel threads (platforms/qemu-virt/src/thread.rs): the task control block,
 * its life cycle and the one-shot runner that a new thread starts in.
 * Stack memory comes from the global allocator, which is not part of the
 * model: the address `alloc` returns is passed in.
 */
module Thread {
  import opened Wrappers
  import opened KernelContext

  /** Size, and alignment, of every thread stack. */
  const STACK_SIZE: bv64 := 0x8000

  datatype TaskStatus = UnInit | Ready | Running | Blocking | Finish

  class TaskControlBlock {
    /** The saved context, embedded in the block and overwritten in place. */
    const ctx: LocalContext
    /** Lowest address of the stack, 0 while none is allocated. */
    var stack: bv64
    var exitCode: Option<int>
    var status: TaskStatus

    ghost predicate Valid()
    {
      ctx.Valid()
    }

    /** Registers, pc and mode flags of a fresh `LocalContext::thread(entry, true)` with sp at the top of the stack. */
    ghost predicate FreshThreadContext(entry: bv64)
      reads this, ctx, ctx.x
      requires Valid()
    {
      ctx.supervisor && ctx.interrupt && ctx.sepc == entry && ctx.sctx == 0 &&
      ctx.Sp() == stack + STACK_SIZE &&
      forall i :: 0 <= i < NUM_REGS && i != 1 ==> ctx.x[i] == 0
    }

    /** `TaskControlBlock::ZERO`: no stack, no exit code, not initialised. */
    constructor Zero()
      ensures Valid() && fresh(ctx) && fresh(ctx.x)
      ensures ctx.RegistersCleared() && ctx.sepc == 0 && ctx.sctx == 0
      ensures !ctx.supervisor && !ctx.interrupt
      ensures stack == 0 && exitCode == None && status == UnInit
    {
      ctx := new LocalContext.Empty();
      stack := 0;
      exitCode := None;
      status := UnInit;
    }

    /**
     * `init(entry)`: a supervisor context with interrupts on that starts at
     * `entry` on a newly allocated stack at `stackBase`, sp at its top.
     */
    method Init(entry: bv64, stackBase: bv64)
      requires Valid()
      modifies this, ctx, ctx.x
      ensures stack == stackBase && FreshThreadContext(entry)
      ensures status == Ready && exitCode == old(exitCode)
    {
      ctx.SetThread(entry, true);
      stack := stackBase;
      ctx.SetSp(stack + STACK_SIZE);
      status := Ready;
    }

    /** `init_with_arg(entry, arg)`: as `init`, and the first argument register a0 holds `arg`. */
    method InitWithArg(entry: bv64, arg: bv64, stackBase: bv64)
      requires Valid()
      modifies this, ctx, ctx.x
      ensures stack == stackBase && status == Ready && exitCode == old(exitCode)
      ensures ctx.supervisor && ctx.interrupt && ctx.sepc == entry && ctx.sctx == 0
      ensures ctx.Sp() == stackBase + STACK_SIZE && ctx.A(0) == arg
      ensures forall i :: 0 <= i < NUM_REGS && i != 1 && i != 9 ==> ctx.x[i] == 0
    {
      Init(entry, stackBase);
      ctx.SetA(0, arg);
    }

    /**
     * `reinit(entry)`: run another function on the same stack. The stack base
     * is kept, sp goes back to its top and the thread is Ready again.
     */
    method Reinit(entry: bv64)
      requires Valid()
      modifies this, ctx, ctx.x
      ensures stack == old(stack) && FreshThreadContext(entry)
      ensures status == Ready && exitCode == old(exitCode)
    {
      ctx.SetThread(entry, true);
      ctx.SetSp(stack + STACK_SIZE);
      status := Ready;
    }

    /** `move_next`: advance the saved pc past the trapping instruction. */
    method MoveNext()
      requires Valid()
      modifies ctx
      ensures ctx.sepc == old(ctx.sepc) + 4
      ensures ctx.sctx == old(ctx.sctx) && ctx.supervisor == old(ctx.supervisor) && ctx.interrupt == old(ctx.interrupt)
    {
      ctx.MoveNext();
    }

    /**
     * `Drop`: the stack handed back to the allocator, if any. A block that
     * never got a stack (`stack == 0`) frees nothing.
     */
    method Drop() returns (freed: Option<bv64>)
      ensures freed.Some? <==> stack != 0
      ensures freed.Some? ==> freed.value == stack
    {
      if stack != 0 {
        freed := Some(stack);
      } else {
        freed := None;
      }
    }
  }

  /** The boxed closure a new thread runs; its code is not part of the model. */
  type Closure = nat

  /** `ThreadRunner`: the closure a thread starts with, runnable once. */
  class ThreadRunner {
    const tcb: TaskControlBlock
    var closure: Option<Closure>

    constructor (t: TaskControlBlock, f: Closure)
      ensures tcb == t && closure == Some(f)
    {
      tcb := t;
      closure := Some(f);
    }

    /**
     * `run`: take the closure (panicking on a second call), run it and mark
     * the thread Finish. `ran` is the closure that was run.
     */
    method Run() returns (o: Outcome, ran: Option<Closure>)
      modifies this, tcb
      ensures old(closure).None? ==> o == Panic("you can't run a thread twice!") && ran == None
      ensures old(closure).Some? ==> o == Done && ran == old(closure) && closure == None && tcb.status == Finish
    {
      if closure.None? {
        return Panic("you can't run a thread twice!"), None;
      }
      ran := closure;
      closure := None;
      tcb.status := Finish;
      o := Done;
    }
  }

  /**
   * `thread::spawn(f)`: a Ready thread whose context enters `entry`
   * (`run_boxed_thread`) with a0 = `runnerAddr`, the address of the leaked
   * runner that owns `f`, on a stack allocated at `stackBase`.
   */
  method Spawn(f: Closure, entry: bv64, runnerAddr: bv64, stackBase: bv64)
    returns (t: TaskControlBlock, runner: ThreadRunner)
    ensures fresh(t) && fresh(t.ctx) && fresh(t.ctx.x) && fresh(runner) && t.Valid()
    ensures t.status == Ready && t.exitCode == None && t.stack == stackBase
    ensures t.ctx.supervisor && t.ctx.interrupt && t.ctx.sepc == entry
    ensures t.ctx.Sp() == stackBase + STACK_SIZE && t.ctx.A(0) == runnerAddr
    ensures runner.tcb == t && runner.closure == Some(f)
  {
    t := new TaskControlBlock.Zero();
    t.status := Ready;
    runner := new ThreadRunner(t, f);
    t.InitWithArg(entry, runnerAddr, stackBase);
  }
}
