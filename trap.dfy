/**
 * The interrupt-enable bookkeeping of the scheduler (platforms/qemu-virt/src/trap.rs):
 * read-modify-write of the supervisor status register `sstatus`.
 */
module Trap {

  /** Supervisor Interrupt Enable, bit 1 of sstatus. */
  const SSTATUS_SIE: bv64 := 1 << 1

  /** The value `intr_on` writes back: SIE set, every other bit as read. */
  function WithSie(s: bv64): (r: bv64)
    ensures r & SSTATUS_SIE == SSTATUS_SIE
    ensures r & !SSTATUS_SIE == s & !SSTATUS_SIE
  {
    s | SSTATUS_SIE
  }

  /** The value `intr_off` writes back: SIE clear, every other bit as read. */
  function WithoutSie(s: bv64): (r: bv64)
    ensures r & SSTATUS_SIE == 0
    ensures r & !SSTATUS_SIE == s & !SSTATUS_SIE
  {
    s & !SSTATUS_SIE
  }

  /** The hart's `sstatus` CSR, the only state `r_sstatus`/`w_sstatus` touch. */
  class Sstatus {
    var value: bv64

    constructor (initial: bv64)
      ensures value == initial
    {
      value := initial;
    }

    /** `intr_on`: enable supervisor interrupts. */
    method IntrOn()
      modifies this
      ensures value == WithSie(old(value))
    {
      value := WithSie(value);
    }

    /** `intr_off`: disable supervisor interrupts. */
    method IntrOff()
      modifies this
      ensures value == WithoutSie(old(value))
    {
      value := WithoutSie(value);
    }

    /** `push_off`: disable interrupts and return sstatus as it was before. */
    method PushOff() returns (saved: bv64)
      modifies this
      ensures saved == old(value)
      ensures value & SSTATUS_SIE == 0
      ensures value & !SSTATUS_SIE == old(value) & !SSTATUS_SIE
    {
      saved := value;
      IntrOff();
    }

    /** `pop_on`: write back a value saved by `push_off`. */
    method PopOn(saved: bv64)
      modifies this
      ensures value == saved
    {
      value := saved;
    }
  }

  /** `cpuid`: the platform has a single hart, numbered 0. */
  function Cpuid(): (id: nat)
    ensures id == 0
  {
    0
  }
}
