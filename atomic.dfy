/**
 * The identity counters of the kernel: `static NEXT_ID: AtomicUsize` in
 * `Task::new` and `static NEXT_ID: AtomicU64` in `TaskId::new`. Both start at
 * 0 and are only ever used through `fetch_add(1, Relaxed)`, which wraps around
 * at 2^64.
 */
module Atomic {
  import opened Wrappers

  class Counter {
    /** The value the next `fetch_add` returns. */
    var next: nat
    /** Every value handed out so far, in order. */
    ghost var issued: seq<nat>

    ghost predicate Valid()
      reads this
    {
      next == |issued| % WORD &&
      forall i :: 0 <= i < |issued| ==> issued[i] == i % WORD
    }

    constructor ()
      ensures Valid() && next == 0 && issued == []
    {
      next := 0;
      issued := [];
    }

    /**
     * `fetch_add(1)`: returns the current value and advances the counter,
     * wrapping at 2^64. As long as fewer than 2^64 values have been handed
     * out, the new value is larger than, hence different from, every
     * earlier one.
     */
    method FetchAdd() returns (id: nat)
      requires Valid()
      modifies this
      ensures Valid()
      ensures id == old(next) && id < WORD
      ensures next == (old(next) + 1) % WORD
      ensures issued == old(issued) + [id]
      ensures |old(issued)| < WORD ==> forall x :: x in old(issued) ==> x < id
    {
      id := next;
      next := (next + 1) % WORD;
      issued := issued + [id];
    }
  }
}
