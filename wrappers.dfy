/** Small value types shared by every module of the model. */
module Wrappers {

  /** Rust's `Option<T>`. */
  datatype Option<+T> = None | Some(value: T)

  /**
   * The result of an operation of the kernel that may panic. A panic ends the
   * whole kernel, so the state left behind by a `Panic` is never looked at.
   */
  datatype Outcome = Done | Panic(reason: string)

  /** Number of distinct values of a 64-bit `usize`/`u64`. */
  const WORD: nat := 0x1_0000_0000_0000_0000

  /** `u64::MAX`. */
  const U64_MAX: nat := 0xFFFF_FFFF_FFFF_FFFF
}

/** Futures and their polling, as seen from the executors that drive them. */
module Futures {

  /**
   * What a future reports when it is polled: `Poll::Ready(value)` or
   * `Poll::Pending`. Futures returning `()` use `Poll<()>`.
   */
  datatype Poll<+R> = Ready(value: R) | Pending

  /** A future is an opaque handle: its code is not part of the model. */
  type Future = nat
}
