/** The stopwatch of app/helpers/elapsed_timer.py. Each method that reads the
    monotonic clock is given that reading as `now`. */
module Timing {
  import opened Wrappers

  class ElapsedTimer {
    var start: Option<real>
    var end: Option<real>

    /** A fresh timer has neither a start nor an end. */
    constructor ()
      ensures start.None? && end.None?
    {
      start := None;
      end := None;
    }

    /** `elapsed()` at clock reading `now`: None before any start, the frozen
        span once stopped, and the running span otherwise. */
    function Elapsed(now: real): (e: Option<real>)
      reads this
      ensures e.None? <==> start.None?
      ensures start.Some? && end.Some? ==> e == Some(end.value - start.value)
      ensures start.Some? && end.None? ==> e == Some(now - start.value)
    {
      if start.None? then None
      else if end.Some? then Some(end.value - start.value)
      else Some(now - start.value)
    }

    /** `start()`: records the start and clears any earlier stop; from then on
        the timer runs. */
    method Start(now: real)
      modifies this
      ensures start == Some(now) && end.None?
      ensures forall t :: Elapsed(t) == Some(t - now)
    {
      start := Some(now);
      end := None;
    }

    /** `stop()`: a RuntimeError before any start; otherwise the span is frozen
        at `now - start` whatever the clock reads later. */
    method Stop(now: real) returns (err: Option<Error>)
      modifies this
      ensures err.Some? <==> old(start).None?
      ensures err.Some? ==> err.value == RuntimeError && start == old(start) && end == old(end)
      ensures err.None? ==> start == old(start) && end == Some(now)
      ensures err.None? ==> forall t :: Elapsed(t) == Some(now - start.value)
    {
      if start.None? {
        return Some(RuntimeError);
      }
      end := Some(now);
      return None;
    }

    /** `reset()`: back to the state of a fresh timer. */
    method Reset()
      modifies this
      ensures start.None? && end.None?
      ensures forall t :: Elapsed(t).None?
    {
      start := None;
      end := None;
    }

    /** `__enter__`: starts the timer and returns it. */
    method Enter(now: real) returns (t: ElapsedTimer)
      modifies this
      ensures t == this && start == Some(now) && end.None?
    {
      Start(now);
      t := this;
    }

    /** `__exit__`: stops the timer whether or not the block raised. It returns
        None, so an exception raised in the block (`raised`) propagates; the
        RuntimeError of `stop()` takes its place when the timer never started. */
    method Exit(now: real, raised: Option<Error>) returns (propagated: Option<Error>)
      modifies this
      ensures old(start).Some? ==> propagated == raised && end == Some(now) && start == old(start)
      ensures old(start).None? ==> propagated == Some(RuntimeError)
    {
      var err := Stop(now);
      propagated := if err.Some? then err else raised;
    }
  }

  /** `with ElapsedTimer() as t: <block>` on a fresh timer: entered at
      `enterTime`, left at `exitTime` with the block's exception `raised`. The
      block's exception is passed on unchanged and the timer reports the span
      of the block, whether or not it raised. */
  method TimedBlock(enterTime: real, exitTime: real, raised: Option<Error>)
    returns (t: ElapsedTimer, propagated: Option<Error>)
    ensures propagated == raised
    ensures forall later :: t.Elapsed(later) == Some(exitTime - enterTime)
  {
    var timer := new ElapsedTimer();
    t := timer.Enter(enterTime);
    propagated := timer.Exit(exitTime, raised);
  }
}
