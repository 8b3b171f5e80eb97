/**
 * The SafeTimer class: a single-shot delayed callback that can be paused,
 * resumed and cancelled, and that ignores stale firings. Each method
 * updates the five private fields in place, step by step, and is proved to
 * perform the corresponding transition of module TimerSpec, where the
 * properties of the state machine are proved.
 */
module SafeTimers {
  import opened Options
  import TimerSpec
  import Numbers

  class SafeTimer<F> {
    var timer: Option<TimerSpec.Pending>
    var generation: nat
    var remaining: int
    var startTime: nat
    var callback: Option<F>

    /** The five fields as one value. */
    function State(): TimerSpec.TimerState<F>
      reads this
    {
      TimerSpec.TimerState(timer, generation, remaining, startTime, callback)
    }

    constructor ()
      ensures State() == TimerSpec.Initial()
    {
      timer := None;
      generation := 0;
      remaining := 0;
      startTime := 0;
      callback := None;
    }

    /** Arms the timer to invoke `fn` after `delay`, replacing whatever was armed. */
    method Run(fn: F, delay: int, now: nat)
      modifies this
      ensures State() == TimerSpec.Run(old(State()), fn, delay, now)
    {
      Cancel();
      callback := Some(fn);
      remaining := delay;
      Start(now);
    }

    /** Schedules a firing after the remaining time, tagged with a new generation. */
    method Start(now: nat)
      modifies this
      ensures State() == TimerSpec.Start(old(State()), now)
    {
      generation := generation + 1;
      var current := generation;
      startTime := now;
      timer := Some(TimerSpec.Pending(current, remaining));
    }

    /**
     * The scheduled closure, delivered with the generation it captured.
     * Returns the callback it invoked, if any.
     */
    method Fire(current: nat) returns (invoked: Option<F>)
      modifies this
      ensures (State(), invoked) == TimerSpec.Fire(old(State()), current)
      ensures invoked.Some? ==> invoked == old(callback) && callback.None?
    {
      if current != generation || callback.None? {
        return None;
      }
      var cb := callback;
      timer := None;
      callback := None;
      remaining := 0;
      invoked := cb;
    }

    /** Stops a pending firing and keeps the time still to run. */
    method Pause(now: nat)
      modifies this
      ensures State() == TimerSpec.Pause(old(State()), now)
    {
      if timer.None? {
        return;
      }
      timer := None;
      var elapsed := now - startTime;
      remaining := Numbers.Max(0, remaining - elapsed);
    }

    /** Re-arms a paused timer for the time it still had to run. */
    method Resume(now: nat)
      modifies this
      ensures State() == TimerSpec.Resume(old(State()), now)
    {
      if timer.Some? || remaining <= 0 || callback.None? {
        return;
      }
      Start(now);
    }

    /** Disarms the timer and invalidates every firing already scheduled. */
    method Cancel()
      modifies this
      ensures State() == TimerSpec.Cancel(old(State()))
    {
      generation := generation + 1;
      if timer.Some? {
        timer := None;
      }
      remaining := 0;
      callback := None;
    }
  }
}
