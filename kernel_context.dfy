/**
 * The saved register file of a kernel thread (platforms/qemu-virt/kernel-context):
 * `LocalContext` holds x1..x31, the resume address `sepc` and the two mode
 * flags that `execute` turns into `sstatus` bits.
 */
module KernelContext {

  /** Number of saved general registers: x1..x31 (x0 is hard-wired to zero). */
  const NUM_REGS: nat := 31

  /** sstatus.SPP: the previous privilege mode is supervisor. */
  const PREVILEGE_BIT: bv64 := 1 << 8
  /** sstatus.SPIE: interrupts are re-enabled on `sret`. */
  const INTERRUPT_BIT: bv64 := 1 << 5

  class LocalContext {
    /** `sscratch` slot used to save the scheduler's stack pointer. */
    var sctx: bv64
    /** x1..x31; x[n - 1] holds register xn. */
    const x: array<bv64>
    /** The address execution resumes at. */
    var sepc: bv64
    /** Whether the context runs in supervisor mode. */
    var supervisor: bool
    /** Whether interrupts are enabled while the context runs. */
    var interrupt: bool

    ghost predicate Valid()
    {
      x.Length == NUM_REGS
    }

    /** Every general register holds 0. */
    ghost predicate RegistersCleared()
      reads this, x
    {
      forall i :: 0 <= i < x.Length ==> x[i] == 0
    }

    /** `LocalContext::empty`. */
    constructor Empty()
      ensures Valid() && fresh(x) && RegistersCleared()
      ensures sctx == 0 && sepc == 0 && !supervisor && !interrupt
    {
      sctx := 0;
      x := new bv64[NUM_REGS](_ => 0);
      sepc := 0;
      supervisor := false;
      interrupt := false;
    }

    /** `LocalContext::user(pc)`: a user-mode context entering at `pc` with interrupts on. */
    constructor User(pc: bv64)
      ensures Valid() && fresh(x) && RegistersCleared()
      ensures sctx == 0 && sepc == pc && !supervisor && interrupt
    {
      sctx := 0;
      x := new bv64[NUM_REGS](_ => 0);
      sepc := pc;
      supervisor := false;
      interrupt := true;
    }

    /** `LocalContext::thread(pc, interrupt)`: a supervisor-mode context entering at `pc`. */
    constructor Thread(pc: bv64, intr: bool)
      ensures Valid() && fresh(x) && RegistersCleared()
      ensures sctx == 0 && sepc == pc && supervisor && interrupt == intr
    {
      sctx := 0;
      x := new bv64[NUM_REGS](_ => 0);
      sepc := pc;
      supervisor := true;
      interrupt := intr;
    }

    /**
     * Assigning `LocalContext::thread(pc, intr)` over this context: the value
     * a thread's embedded context is overwritten with.
     */
    method SetThread(pc: bv64, intr: bool)
      modifies this, x
      ensures RegistersCleared()
      ensures sctx == 0 && sepc == pc && supervisor && interrupt == intr
    {
      sctx := 0;
      forall i | 0 <= i < x.Length {
        x[i] := 0;
      }
      sepc := pc;
      supervisor := true;
      interrupt := intr;
    }

    /** `x(n)`: register xn, read from slot n - 1. Slot indexing panics outside 1..=31. */
    function X(n: nat): (v: bv64)
      requires Valid() && 1 <= n <= NUM_REGS
      reads this, x
      ensures v == x[n - 1]
    {
      x[n - 1]
    }

    /** `a(n)`: argument register an, which is x(n + 10). */
    function A(n: nat): (v: bv64)
      requires Valid() && n + 10 <= NUM_REGS
      reads this, x
      ensures v == x[n + 9]
    {
      X(n + 10)
    }

    /** `ra()`: the return address register x1. */
    function Ra(): (v: bv64)
      requires Valid()
      reads this, x
      ensures v == x[0]
    {
      X(1)
    }

    /** `sp()`: the stack pointer register x2. */
    function Sp(): (v: bv64)
      requires Valid()
      reads this, x
      ensures v == x[1]
    {
      X(2)
    }

    /** `pc()`: the resume address. */
    function Pc(): (v: bv64)
      reads this
      ensures v == sepc
    {
      sepc
    }

    /** Writing through `x_mut(n)`: only register xn changes. */
    method SetX(n: nat, v: bv64)
      requires Valid() && 1 <= n <= NUM_REGS
      modifies x
      ensures X(n) == v
      ensures forall i :: 0 <= i < NUM_REGS && i != n - 1 ==> x[i] == old(x[i])
    {
      x[n - 1] := v;
    }

    /** Writing through `a_mut(n)`: only register x(n + 10) changes. */
    method SetA(n: nat, v: bv64)
      requires Valid() && n + 10 <= NUM_REGS
      modifies x
      ensures A(n) == v
      ensures forall i :: 0 <= i < NUM_REGS && i != n + 9 ==> x[i] == old(x[i])
    {
      SetX(n + 10, v);
    }

    /** Writing through `sp_mut()`: only x2 changes. */
    method SetSp(v: bv64)
      requires Valid()
      modifies x
      ensures Sp() == v
      ensures forall i :: 0 <= i < NUM_REGS && i != 1 ==> x[i] == old(x[i])
    {
      SetX(2, v);
    }

    /** Writing through `pc_mut()`. */
    method SetPc(v: bv64)
      modifies this
      ensures sepc == v
      ensures sctx == old(sctx) && supervisor == old(supervisor) && interrupt == old(interrupt)
    {
      sepc := v;
    }

    /**
     * `move_next`: step over the (uncompressed, 4-byte) trapping instruction.
     * The addition wraps around like `wrapping_add`; nothing else changes.
     */
    method MoveNext()
      modifies this
      ensures sepc == old(sepc) + 4
      ensures sctx == old(sctx) && supervisor == old(supervisor) && interrupt == old(interrupt)
    {
      sepc := sepc + 4;
    }
  }

  /**
   * `build_sstatus`: the sstatus value `execute` installs, given the current
   * sstatus. Bit 8 says whether the context runs in supervisor mode, bit 5
   * whether interrupts are on; all other bits of the current sstatus are
   * kept.
   */
  function BuildSstatus(sstatus: bv64, supervisor: bool, interrupt: bool): (r: bv64)
    ensures (r & PREVILEGE_BIT != 0) == supervisor
    ensures (r & INTERRUPT_BIT != 0) == interrupt
    ensures r & !(PREVILEGE_BIT | INTERRUPT_BIT) == sstatus & !(PREVILEGE_BIT | INTERRUPT_BIT)
  {
    SetMode(SetMode(sstatus, PREVILEGE_BIT, supervisor), INTERRUPT_BIT, interrupt)
  }

  /**
   * One `match` of `build_sstatus`: set the mode bit `b` when `on`, clear it
   * otherwise. The other mode bit and all bits outside the two are kept.
   */
  function SetMode(x: bv64, b: bv64, on: bool): (r: bv64)
    requires b == PREVILEGE_BIT || b == INTERRUPT_BIT
    ensures (r & b != 0) == on
    ensures r & (PREVILEGE_BIT ^ INTERRUPT_BIT ^ b) == x & (PREVILEGE_BIT ^ INTERRUPT_BIT ^ b)
    ensures r & !(PREVILEGE_BIT | INTERRUPT_BIT) == x & !(PREVILEGE_BIT | INTERRUPT_BIT)
  {
    if on then x | b else x & !b
  }
}
