/**
 * The station countdown of src/hooks/useCircuitTimer.ts. A changed
 * `duration` or reset `key` restarts it; while it runs and is not paused, a
 * one-second tick counts it down and calls `onComplete` when it reaches 0;
 * `skip` jumps to 0 and schedules `onComplete`.
 *
 * `fired` counts the `onComplete` calls since construction, and
 * `tickFired` the ones made by a tick since the last reset.
 */
module CircuitTimer {
  import opened Wrappers

  /** The timer's state apart from its inputs. */
  datatype Countdown = Countdown(timeLeft: int, isPaused: bool, fired: nat)

  /** An interval is scheduled only while not paused and time remains. */
  predicate Running(c: Countdown) {
    !c.isPaused && c.timeLeft > 0
  }

  /** One interval callback: from 1 (or less) to 0 with a call of
      `onComplete`, else one second less; nothing when no interval runs. */
  function TickStep(c: Countdown): (r: Countdown)
    ensures !Running(c) ==> r == c
    ensures Running(c) && c.timeLeft > 1 ==> r == c.(timeLeft := c.timeLeft - 1)
    ensures Running(c) && c.timeLeft <= 1 ==> r == c.(timeLeft := 0, fired := c.fired + 1)
    ensures r.isPaused == c.isPaused
    ensures c.timeLeft >= 0 ==> 0 <= r.timeLeft <= c.timeLeft
  {
    if !Running(c) then c
    else if c.timeLeft <= 1 then c.(timeLeft := 0, fired := c.fired + 1)
    else c.(timeLeft := c.timeLeft - 1)
  }

  /** `n` ticks in a row. */
  function RunTicks(c: Countdown, n: nat): Countdown
    decreases n
  {
    if n == 0 then c else RunTicks(TickStep(c), n - 1)
  }

  /** While paused no tick changes anything. */
  lemma {:induction false} PausedIsFrozen(c: Countdown, n: nat)
    requires c.isPaused
    ensures RunTicks(c, n) == c
    decreases n
  {
    if n > 0 {
      PausedIsFrozen(c, n - 1);
    }
  }

  /** From `timeLeft` = T >= 0 and running, n <= T ticks leave T - n and call
      `onComplete` once exactly when they reach 0; any further ticks change
      nothing, so the tick path calls it at most once. The time never goes
      below 0. */
  lemma {:induction false} CountsDown(c: Countdown, n: nat)
    requires !c.isPaused && c.timeLeft >= 0
    ensures n <= c.timeLeft ==>
              RunTicks(c, n) == c.(timeLeft := c.timeLeft - n, fired := c.fired + (if n == c.timeLeft && n > 0 then 1 else 0))
    ensures n >= c.timeLeft ==>
              RunTicks(c, n) == c.(timeLeft := 0, fired := c.fired + (if c.timeLeft > 0 then 1 else 0))
    decreases n
  {
    if n > 0 {
      CountsDown(TickStep(c), n - 1);
    }
  }

  class Timer {
    var duration: int
    var key: Option<string>
    var timeLeft: int
    var isPaused: bool
    var fired: nat
    var tickFired: nat

    function State(): Countdown
      reads this
    {
      Countdown(timeLeft, isPaused, fired)
    }

    /** Ticks fire `onComplete` only on reaching 0, and then no tick runs
        until a reset: at most one tick-made call per reset. */
    ghost predicate Valid()
      reads this
    {
      tickFired <= 1 && (tickFired == 1 ==> timeLeft == 0)
    }

    /** First render: `timeLeft` starts at `duration`, not paused. */
    constructor (duration: int, key: Option<string>)
      ensures Valid()
      ensures this.duration == duration && this.key == key
      ensures timeLeft == duration && !isPaused && fired == 0 && tickFired == 0
    {
      this.duration, this.key := duration, key;
      timeLeft, isPaused := duration, false;
      fired, tickFired := 0, 0;
    }

    /** A render with (possibly) new inputs: when `duration` or `key`
        changed, the reset effect restores `timeLeft` and un-pauses. */
    method Render(newDuration: int, newKey: Option<string>)
      requires Valid()
      modifies this
      ensures Valid()
      ensures duration == newDuration && key == newKey && fired == old(fired)
      ensures (newDuration != old(duration) || newKey != old(key)) ==>
                timeLeft == newDuration && !isPaused && tickFired == 0
      ensures (newDuration == old(duration) && newKey == old(key)) ==>
                timeLeft == old(timeLeft) && isPaused == old(isPaused) && tickFired == old(tickFired)
    {
      if newDuration != duration || newKey != key {
        timeLeft, isPaused, tickFired := newDuration, false, 0;
      }
      duration, key := newDuration, newKey;
    }

    /** One interval callback. */
    method Tick()
      requires Valid()
      modifies this`timeLeft, this`fired, this`tickFired
      ensures Valid()
      ensures State() == TickStep(old(State()))
      ensures tickFired == old(tickFired) + (fired - old(fired))
    {
      if isPaused || timeLeft <= 0 {
        return;
      }
      var prev := timeLeft;
      if prev <= 1 {
        fired, tickFired := fired + 1, tickFired + 1;
        timeLeft := 0;
      } else {
        timeLeft := prev - 1;
      }
    }

    /** togglePause. */
    method TogglePause()
      requires Valid()
      modifies this`isPaused
      ensures Valid()
      ensures isPaused == !old(isPaused)
    {
      isPaused := !isPaused;
    }

    /** skip: 0 at once and `onComplete` scheduled, whether or not the
        countdown had already ended (a second call is possible). */
    method Skip()
      requires Valid()
      modifies this`timeLeft, this`fired
      ensures Valid()
      ensures timeLeft == 0 && fired == old(fired) + 1
    {
      timeLeft := 0;
      fired := fired + 1;
    }
  }
}
