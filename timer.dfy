/**
 * The per-question countdown (`useTimer`). While the timer is active and time is left, each one-second
 * interval applies the tick updater; the tick that reaches zero reports that time is up. The scheduling
 * itself (`setInterval`, effects) is left to the caller, who calls `Tick` once per elapsed second.
 */
module Timer {
  import opened Wrappers

  /** What one tick of the updater produces: the new time and whether `onTimeUp` fires. */
  datatype TickResult = TickResult(remaining: int, timeUp: bool)

  /** The updater passed to `setTimeRemaining` on each interval. */
  function TickValue(prev: int): (r: TickResult)
    ensures r.remaining >= 0
    ensures r.timeUp <==> r.remaining == 0
    ensures r.remaining == 0 || r.remaining == prev - 1
  {
    if prev <= 1 then TickResult(0, true) else TickResult(prev - 1, false)
  }

  /** The effect's guard: an interval runs only while active with time left. */
  predicate Ticking(isActive: bool, timeRemaining: int) {
    isActive && timeRemaining > 0
  }

  /** The time left after some seconds, and how many times `onTimeUp` fired meanwhile. */
  datatype RunResult = RunResult(remaining: int, timeUps: nat)

  /** `n` seconds of an active timer that starts at `t`. */
  function Run(t: int, n: nat): RunResult
    decreases n
  {
    if n == 0 || !Ticking(true, t) then RunResult(t, 0)
    else
      var step := TickValue(t);
      var rest := Run(step.remaining, n - 1);
      RunResult(rest.remaining, (if step.timeUp then 1 else 0) + rest.timeUps)
  }

  /** Fewer seconds than were set: the time has gone down by one per second and has not run out. */
  lemma {:induction false} RunBefore(t: int, n: nat)
    requires n < t
    ensures Run(t, n) == RunResult(t - n, 0)
    decreases n
  {
    if n > 0 {
      RunBefore(t - 1, n - 1);
    }
  }

  /** From `t > 0`, after `t` or more seconds the time is 0 and `onTimeUp` has fired exactly once. */
  lemma {:induction false} RunOut(t: int, n: nat)
    requires 0 < t <= n
    ensures Run(t, n) == RunResult(0, 1)
    decreases n
  {
    if t == 1 {
      assert Run(0, n - 1) == RunResult(0, 0);
    } else {
      RunOut(t - 1, n - 1);
    }
  }

  /** Time never goes below zero from a start that is not below zero. */
  lemma {:induction false} RunNonNegative(t: int, n: nat)
    requires t >= 0
    ensures Run(t, n).remaining >= 0
    decreases n
  {
    if n > 0 && t > 0 {
      RunNonNegative(TickValue(t).remaining, n - 1);
    }
  }

  /** The hook's state: the time per question it was started with, and the time left. */
  class CountdownTimer {
    var initialTime: int
    var timeRemaining: int

    constructor (initialTime: int)
      ensures this.initialTime == initialTime && timeRemaining == initialTime
    {
      this.initialTime := initialTime;
      timeRemaining := initialTime;
    }

    /** One interval: nothing when inactive or out of time, otherwise the updater. */
    method Tick(isActive: bool) returns (timeUp: bool)
      modifies this
      ensures initialTime == old(initialTime)
      ensures !Ticking(isActive, old(timeRemaining)) ==> timeRemaining == old(timeRemaining) && !timeUp
      ensures Ticking(isActive, old(timeRemaining)) ==>
        TickResult(timeRemaining, timeUp) == TickValue(old(timeRemaining))
      ensures old(timeRemaining) >= 0 ==> timeRemaining >= 0
      ensures timeUp ==> timeRemaining == 0
    {
      timeUp := false;
      if !isActive || timeRemaining <= 0 {
        return;
      }
      if timeRemaining <= 1 {
        timeRemaining := 0;
        timeUp := true;
      } else {
        timeRemaining := timeRemaining - 1;
      }
    }

    /** `resetTimer(newTime)`: the given time, or the initial time when none is given. */
    method ResetTimer(newTime: Option<int>)
      modifies this
      ensures initialTime == old(initialTime)
      ensures timeRemaining == if newTime.Some? then newTime.value else initialTime
    {
      timeRemaining := if newTime.Some? then newTime.value else initialTime;
    }

    /** The effect on a changed `initialTime`: the time left is set to it. */
    method SetInitialTime(n: int)
      modifies this
      ensures initialTime == n && timeRemaining == n
    {
      initialTime := n;
      timeRemaining := n;
    }

    /** `isWarning`: five seconds or less. */
    function IsWarning(): bool
      reads this
    {
      timeRemaining <= 5
    }

    /** `isCritical`: three seconds or less, which is always also a warning. */
    function IsCritical(): (c: bool)
      reads this
      ensures c ==> IsWarning()
    {
      timeRemaining <= 3
    }
  }
}
