/**
 * Sleeping threads (platforms/qemu-virt/src/timer.rs): the `TIMERS` list of
 * deadline/thread pairs, the sweep that hands expired sleepers back to the
 * scheduler, and the conversion of the `time` CSR into micro- and
 * milliseconds. The CSR is read by the caller and passed in as `time`.
 */
module Timer {
  import opened Wrappers
  import opened Thread
  import opened Trap

  /** Frequency of the `time` CSR, in Hz. */
  const CLOCK_FREQ: nat := 12500000
  const MILLI_PER_SEC: nat := 1000
  const MICRO_PER_SEC: nat := 1000000

  /** `u128`: deadlines are 128-bit. */
  const U128: nat := 0x1_0000_0000_0000_0000_0000_0000_0000_0000
  /** Bounds of a 64-bit `isize`. */
  const ISIZE_MIN: int := -0x8000_0000_0000_0000
  const ISIZE_MAX: int := 0x7FFF_FFFF_FFFF_FFFF

  /** A sleeping thread and the millisecond at which it may run again. */
  datatype TimerCondVar = TimerCondVar(expireMs: nat, task: TaskControlBlock)

  datatype Ordering = Less | Equal | Greater

  /**
   * `PartialEq for TimerCondVar`: only the deadlines are compared, so equal
   * entries always compare `Equal` (the converse fails, see
   * `CmpDisagreesWithEq`).
   */
  predicate Eq(a: TimerCondVar, b: TimerCondVar): (r: bool)
    ensures r ==> Cmp(a, b) == Equal
  {
    a.expireMs == b.expireMs
  }

  /** `expire_ms as isize`: keep the low 64 bits, read them as two's complement. */
  function AsIsize(x: nat): (r: int)
    ensures ISIZE_MIN <= r <= ISIZE_MAX
    ensures (r - x) % WORD == 0
  {
    var low := x % WORD;
    if low <= ISIZE_MAX then low else low - WORD
  }

  /** Negation of an `isize`, wrapping at `isize::MIN` as in a release build. */
  function NegIsize(v: int): (r: int)
    requires ISIZE_MIN <= v <= ISIZE_MAX
    ensures ISIZE_MIN <= r <= ISIZE_MAX
    ensures v != ISIZE_MIN ==> r == -v
  {
    if v == ISIZE_MIN then ISIZE_MIN else -v
  }

  function CmpInt(a: int, b: int): Ordering
  {
    if a < b then Less else if a == b then Equal else Greater
  }

  /**
   * `partial_cmp`/`cmp`: the negated deadlines are compared, so that a
   * max-heap would hold the earliest deadline on top.
   */
  function Cmp(a: TimerCondVar, b: TimerCondVar): (r: Ordering)
    ensures r == Equal <==> a.expireMs % WORD == b.expireMs % WORD
  {
    CmpInt(NegIsize(AsIsize(a.expireMs)), NegIsize(AsIsize(b.expireMs)))
  }

  /**
   * For deadlines below 2^63 the order is exactly the reverse of the
   * deadlines' order: an earlier deadline compares greater, and `Equal` agrees
   * with `Eq`.
   */
  lemma CmpReversed(a: TimerCondVar, b: TimerCondVar)
    requires a.expireMs <= ISIZE_MAX && b.expireMs <= ISIZE_MAX
    ensures Cmp(a, b) == Greater <==> a.expireMs < b.expireMs
    ensures Cmp(a, b) == Less <==> a.expireMs > b.expireMs
    ensures Cmp(a, b) == Equal <==> Eq(a, b)
  {
  }

  /** Above 2^64 ms the truncating cast lets `cmp` call two different deadlines `Equal`. */
  lemma CmpDisagreesWithEq(t: TaskControlBlock)
    ensures var a, b := TimerCondVar(WORD, t), TimerCondVar(0, t);
      Cmp(a, b) == Equal && !Eq(a, b)
  {
    assert AsIsize(WORD) == 0;
  }

  /** The order the comparison is meant to be: by deadline, reversed, on the full 128 bits. */
  function CmpByDeadline(a: TimerCondVar, b: TimerCondVar): (r: Ordering)
    ensures r == Equal <==> Eq(a, b)
    ensures r == Greater <==> a.expireMs < b.expireMs
    ensures r == Less <==> a.expireMs > b.expireMs
  {
    CmpInt(b.expireMs, a.expireMs)
  }

  /** Below 2^63 the comparison as written and the intended one agree. */
  lemma CmpAgreesBelowBound(a: TimerCondVar, b: TimerCondVar)
    requires a.expireMs <= ISIZE_MAX && b.expireMs <= ISIZE_MAX
    ensures Cmp(a, b) == CmpByDeadline(a, b)
  {
    CmpReversed(a, b);
  }

  /** `get_time_us`: ticks of the `time` CSR divided by ticks per microsecond. */
  function GetTimeUs(time: nat): (us: nat)
    ensures us * (CLOCK_FREQ / MICRO_PER_SEC) <= time < (us + 1) * (CLOCK_FREQ / MICRO_PER_SEC)
  {
    time / (CLOCK_FREQ / MICRO_PER_SEC)
  }

  /** `get_time_ms`: ticks of the `time` CSR divided by ticks per millisecond. */
  function GetTimeMs(time: nat): (ms: nat)
    ensures ms * (CLOCK_FREQ / MILLI_PER_SEC) <= time < (ms + 1) * (CLOCK_FREQ / MILLI_PER_SEC)
  {
    time / (CLOCK_FREQ / MILLI_PER_SEC)
  }

  /** Both conversions are monotone: a later reading never gives an earlier time. */
  lemma TimeMonotone(t1: nat, t2: nat)
    requires t1 <= t2
    ensures GetTimeUs(t1) <= GetTimeUs(t2) && GetTimeMs(t1) <= GetTimeMs(t2)
  {
    DivMonotone(t1, t2, CLOCK_FREQ / MICRO_PER_SEC);
    DivMonotone(t1, t2, CLOCK_FREQ / MILLI_PER_SEC);
  }

  lemma DivMonotone(x: nat, y: nat, k: nat)
    requires x <= y && k > 0
    ensures x / k <= y / k
  {
    var a, b := x / k, y / k;
    if b < a {
      MulMonotone(b + 1, a, k);
      assert false;
    }
  }

  lemma MulMonotone(x: nat, y: nat, k: nat)
    requires x <= y
    ensures x * k <= y * k
  {
  }

  /** The entries whose deadline has passed at `now`, in list order. */
  function Expired(s: seq<TimerCondVar>, now: nat): seq<TimerCondVar>
  {
    if s == [] then []
    else if s[0].expireMs <= now then [s[0]] + Expired(s[1..], now)
    else Expired(s[1..], now)
  }

  /** The entries still sleeping at `now`, in list order. */
  function Kept(s: seq<TimerCondVar>, now: nat): seq<TimerCondVar>
  {
    if s == [] then []
    else if s[0].expireMs <= now then Kept(s[1..], now)
    else [s[0]] + Kept(s[1..], now)
  }

  /** Filtering a concatenation filters each part. */
  lemma {:induction false} SplitAppend(s: seq<TimerCondVar>, t: seq<TimerCondVar>, now: nat)
    ensures Expired(s + t, now) == Expired(s, now) + Expired(t, now)
    ensures Kept(s + t, now) == Kept(s, now) + Kept(t, now)
  {
    if s != [] {
      assert (s + t)[0] == s[0];
      assert (s + t)[1..] == s[1..] + t;
      SplitAppend(s[1..], t, now);
    } else {
      assert s + t == t;
    }
  }

  /**
   * The sweep splits the list: every entry goes exactly one way, the expired
   * ones have passed their deadline and the kept ones have not.
   */
  lemma {:induction false} SplitPartition(s: seq<TimerCondVar>, now: nat)
    ensures multiset(Expired(s, now)) + multiset(Kept(s, now)) == multiset(s)
    ensures forall c :: c in Expired(s, now) ==> c in s && c.expireMs <= now
    ensures forall c :: c in Kept(s, now) ==> c in s && c.expireMs > now
  {
    if s != [] {
      SplitPartition(s[1..], now);
      assert s == [s[0]] + s[1..];
    }
  }

  /** A second sweep at the same time finds nothing more to wake and keeps everything. */
  lemma {:induction false} SweepIdempotent(s: seq<TimerCondVar>, now: nat)
    ensures Expired(Kept(s, now), now) == []
    ensures Kept(Kept(s, now), now) == Kept(s, now)
  {
    if s != [] {
      SweepIdempotent(s[1..], now);
      if s[0].expireMs > now {
        assert Kept(s, now) == [s[0]] + Kept(s[1..], now);
        assert Kept(s, now)[1..] == Kept(s[1..], now);
      }
    }
  }

  /** The global `TIMERS` deque. */
  class SleepList {
    var timers: seq<TimerCondVar>

    constructor ()
      ensures timers == []
    {
      timers := [];
    }

    /** `move_timer`: mark the thread Blocking and append its deadline at the back. */
    method MoveTimer(expireMs: nat, task: TaskControlBlock)
      modifies this, task
      ensures task.status == Blocking
      ensures timers == old(timers) + [TimerCondVar(expireMs, task)]
    {
      task.status := Blocking;
      timers := timers + [TimerCondVar(expireMs, task)];
    }

    /**
     * `check_timer` at millisecond `now`: pop each entry present at the start
     * once; an expired one goes to `woken` (the threads `move_run` hands back
     * to the scheduler, in order), any other is pushed back.
     */
    method CheckTimer(now: nat) returns (woken: seq<TimerCondVar>)
      modifies this
      ensures woken == Expired(old(timers), now)
      ensures timers == Kept(old(timers), now)
    {
      ghost var s0 := timers;
      var n := |timers|;
      woken := [];
      for i := 0 to n
        invariant timers == s0[i..] + Kept(s0[..i], now)
        invariant woken == Expired(s0[..i], now)
      {
        assert s0[i..] == [s0[i]] + s0[i + 1..];
        var cond := timers[0];
        timers := timers[1..];
        assert cond == s0[i] && timers == s0[i + 1..] + Kept(s0[..i], now);
        assert s0[..i + 1] == s0[..i] + [cond];
        SplitAppend(s0[..i], [cond], now);
        assert [cond][1..] == [];
        if cond.expireMs <= now {
          woken := woken + [cond];
        } else {
          timers := timers + [cond];
        }
      }
      assert s0[..n] == s0;
    }
  }

  /**
   * `sys_sleep(ms)` called at CSR reading `time` by the thread `current`:
   * with interrupts off, queue it until `get_time_ms() + ms`, then turn
   * interrupts on and yield (the yield itself is a context switch, not part
   * of the model). The result is always 0.
   */
  method SysSleep(time: nat, ms: nat, timers: SleepList, current: TaskControlBlock, sstatus: Sstatus)
    returns (r: int)
    modifies timers, current, sstatus
    ensures r == 0 && current.status == Blocking
    ensures timers.timers == old(timers.timers) + [TimerCondVar(GetTimeMs(time) + ms, current)]
    ensures sstatus.value == WithSie(WithoutSie(old(sstatus.value)))
  {
    var expireMs := GetTimeMs(time) + ms;
    sstatus.IntrOff();
    timers.MoveTimer(expireMs, current);
    sstatus.IntrOn();
    r := 0;
  }
}
