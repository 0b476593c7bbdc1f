/** A timer that fires once per delay, driven by a clock reading passed in
    by the caller (the engine's `get_time`). */
module Timers {

  /** Whether a timer last reset at `time` fires at `now`: strictly more
      than `delay` seconds have passed. */
  predicate Fires(time: real, delay: real, now: real) {
    now - time > delay
  }

  class Timer {
    /** Clock reading at the last reset. */
    var time: real
    /** Seconds between two firings; no code of the game writes it after
        construction. */
    const delay: real

    /** A timer that starts counting at `now`. */
    constructor FromSeconds(delay: real, now: real)
      ensures time == now && this.delay == delay
    {
      time := now;
      this.delay := delay;
    }

    /** Reports whether the delay has passed since the last reset; if so,
        the timer is reset to `now`, and otherwise nothing changes. */
    method TickAndFinished(now: real) returns (finished: bool)
      modifies this
      ensures finished == Fires(old(time), delay, now)
      ensures time == (if finished then now else old(time))
    {
      finished := now - time > delay;
      if finished {
        time := now;
      }
    }

    /** Starts a new interval at `now`. */
    method Restart(now: real)
      modifies this
      ensures time == now
    {
      time := now;
    }
  }

  /** No catch-up: however late a firing tick comes, a second tick at the
      same instant does not fire again. */
  lemma NoCatchUp(time: real, delay: real, now: real)
    requires delay >= 0.0
    ensures Fires(time, delay, now) ==> !Fires(now, delay, now)
  {
  }

  /** After a firing at `fired`, no tick fires again until more than `delay`
      seconds have passed. */
  lemma AtMostOncePerInterval(delay: real, fired: real, later: real)
    requires fired <= later <= fired + delay
    ensures !Fires(fired, delay, later)
  {
  }
}
