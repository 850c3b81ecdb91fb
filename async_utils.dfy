/**
 * The two hand-written futures of common/executor/src/utils.rs, repeated in
 * platforms/qemu-virt/src/async_utils.rs: `Yield`, Pending once and then
 * Ready, and `SleepFuture`, Ready once the millisecond clock reaches its
 * deadline. The clock is read by the caller and passed in.
 */
module AsyncUtils {
  import opened Wrappers
  import opened Futures
  import Timer

  /** `Yield`. */
  class Yield {
    var yielded: bool

    /** `Yield::new`. */
    constructor ()
      ensures !yielded
    {
      yielded := false;
    }

    /** `poll`: Pending the first time, Ready from then on. */
    method Poll() returns (p: Poll<()>)
      modifies this
      ensures yielded
      ensures p == if old(yielded) then Ready(()) else Pending
    {
      if yielded {
        return Ready(());
      }
      yielded := true;
      return Pending;
    }
  }

  /** `async_yield`: a fresh `Yield` is Pending on its first poll and Ready on its second. */
  method AsyncYield() returns (first: Poll<()>, second: Poll<()>)
    ensures first == Pending && second == Ready(())
  {
    var y := new Yield();
    first := y.Poll();
    second := y.Poll();
  }

  /** `SleepFuture`: the deadline, in milliseconds of the clock. */
  datatype SleepFuture = SleepFuture(deadlineMs: nat)

  /**
   * `SleepFuture::new(dur)` at clock reading `nowMs`: the duration in
   * milliseconds cut to a `usize`, added to the clock, and the sum cut to
   * the `u64` of `Duration::from_millis`: wrap-around at 2^64 as in a
   * release build.
   */
  function NewSleepFuture(nowMs: nat, durMs: nat): (f: SleepFuture)
    ensures f.deadlineMs < WORD
    ensures nowMs + durMs < WORD ==> f.deadlineMs == nowMs + durMs
  {
    var dur := durMs % WORD;
    SleepFuture((nowMs + dur) % WORD)
  }

  /** `SleepFuture::poll` at clock reading `nowMs`. */
  function PollSleep(f: SleepFuture, nowMs: nat): Poll<()>
  {
    if nowMs >= f.deadlineMs then Ready(()) else Pending
  }

  /**
   * Without wrap-around a sleep is Pending before `dur` milliseconds have
   * passed and Ready from then on.
   */
  lemma SleepWaitsItsDuration(nowMs: nat, durMs: nat, t: nat)
    requires nowMs + durMs < WORD
    ensures PollSleep(NewSleepFuture(nowMs, durMs), t).Ready? <==> t >= nowMs + durMs
  {
  }

  /**
   * On the `time` CSR, which only moves forward, a sleep that is Ready stays
   * Ready.
   */
  lemma SleepStaysReady(f: SleepFuture, time1: nat, time2: nat)
    requires time1 <= time2 && PollSleep(f, Timer.GetTimeMs(time1)).Ready?
    ensures PollSleep(f, Timer.GetTimeMs(time2)).Ready?
  {
    Timer.TimeMonotone(time1, time2);
  }
}
