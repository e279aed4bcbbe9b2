/**
 * The self-correcting periodic loop shared by every worker. Time is in seconds.
 * What a task does is abstracted to how it ended and how long it took; a run is
 * the finite list of task outcomes up to the moment the loop is cancelled.
 * Every clock reading is taken as given: the loop asks to sleep for some time, and
 * when it next reads the clock, that much time and an `overshoot` have passed.
 */
module BaseWorker {

  /**
   * How one call of `task` ended: it raised, or it returned after `duration` seconds,
   * and the next cycle then read the clock `overshoot` seconds later than the loop
   * asked for (a sleep that wakes late, or scheduling delay; never negative on a real clock).
   */
  datatype TaskOutcome = Finished(duration: real, overshoot: real) | Raised

  /** What the loop does, in order: start a task at time `start`, or sleep for `amount` seconds. */
  datatype Event = TaskCall(start: real) | Sleep(amount: real)

  /**
   * How `run` ends: cancellation is caught and ends the loop cleanly; any other
   * error raised by `task` is not caught and propagates.
   */
  datatype RunEnd = Cancelled | Propagated

  function Max(a: real, b: real): real
  {
    if a >= b then a else b
  }

  /**
   * The events of a run with period `period` whose first cycle starts at `start` and
   * whose task calls end as `outcomes` say. After a task that took `d` seconds the
   * loop sleeps `period - d` when that is not negative, and otherwise starts the
   * next cycle at once; the next clock reading comes the cycle's overshoot later.
   */
  function Trace(period: real, start: real, outcomes: seq<TaskOutcome>): (r: seq<Event>)
    ensures r == [] <==> outcomes == []
    ensures r != [] ==> r[0] == TaskCall(start)
    ensures |r| <= 2 * |outcomes|
    decreases |outcomes|
  {
    if outcomes == [] then []
    else match outcomes[0]
      case Raised => [TaskCall(start)]
      case Finished(d, late) =>
        var wait := period - d;
        if wait >= 0.0 then [TaskCall(start), Sleep(wait)] + Trace(period, start + d + wait + late, outcomes[1..])
        else [TaskCall(start)] + Trace(period, start + d + late, outcomes[1..])
  }

  /** How a run with these task outcomes ends. */
  function Ending(outcomes: seq<TaskOutcome>): (e: RunEnd)
    ensures e == Propagated <==> exists i :: 0 <= i < |outcomes| && outcomes[i] == Raised
    decreases |outcomes|
  {
    if outcomes == [] then Cancelled
    else if outcomes[0] == Raised then Propagated
    else
      var e := Ending(outcomes[1..]);
      assert forall i :: 1 <= i < |outcomes| ==> outcomes[1..][i - 1] == outcomes[i];
      e
  }

  /** The number of cycles that run: every outcome up to and including the first that raises. */
  function Cycles(outcomes: seq<TaskOutcome>): (n: nat)
    ensures n <= |outcomes|
    decreases |outcomes|
  {
    if outcomes == [] then 0
    else if outcomes[0] == Raised then 1
    else 1 + Cycles(outcomes[1..])
  }

  /** The start times of the task calls in a trace, in order. */
  function CallStarts(trace: seq<Event>): seq<real>
    decreases |trace|
  {
    if trace == [] then []
    else if trace[0].TaskCall? then [trace[0].start] + CallStarts(trace[1..])
    else CallStarts(trace[1..])
  }

  lemma CallStartsAppend(a: seq<Event>, b: seq<Event>)
    ensures CallStarts(a + b) == CallStarts(a) + CallStarts(b)
    decreases |a|
  {
    if a == [] {
      assert a + b == b;
    } else {
      assert (a + b)[1..] == a[1..] + b;
      CallStartsAppend(a[1..], b);
    }
  }

  /** Each cycle calls `task` exactly once: a run has as many task calls as cycles. */
  lemma {:induction false} OneTaskCallPerCycle(period: real, start: real, outcomes: seq<TaskOutcome>)
    ensures |CallStarts(Trace(period, start, outcomes))| == Cycles(outcomes)
    decreases |outcomes|
  {
    if outcomes != [] {
      match outcomes[0]
      case Raised =>
      case Finished(d, late) =>
        var wait := period - d;
        if wait >= 0.0 {
          CallStartsAppend([TaskCall(start), Sleep(wait)], Trace(period, start + d + wait + late, outcomes[1..]));
          OneTaskCallPerCycle(period, start + d + wait + late, outcomes[1..]);
        } else {
          CallStartsAppend([TaskCall(start)], Trace(period, start + d + late, outcomes[1..]));
          OneTaskCallPerCycle(period, start + d + late, outcomes[1..]);
        }
    }
  }

  /** When the cycle after a finished one reads the clock: `max(period, d)` after its start, plus the overshoot. */
  function NextStart(period: real, start: real, outcome: TaskOutcome): real
    requires outcome.Finished?
  {
    start + Max(period, outcome.duration) + outcome.overshoot
  }

  /** The events of a cycle whose task finished: the call, then a sleep if any time of the period remains. */
  function CycleEvents(period: real, start: real, outcome: TaskOutcome): (events: seq<Event>)
    requires outcome.Finished?
    ensures |events| >= 1 && events[0] == TaskCall(start)
    ensures |events| == 2 <==> outcome.duration <= period
    ensures |events| == 2 ==> events[1] == Sleep(period - outcome.duration)
  {
    if period - outcome.duration >= 0.0 then [TaskCall(start), Sleep(period - outcome.duration)] else [TaskCall(start)]
  }

  /**
   * A run whose first task raised is that one call, and it ends by propagating; a run
   * whose first task finished is that cycle's events, then the run from the next start on.
   */
  lemma TraceStep(period: real, start: real, outcomes: seq<TaskOutcome>)
    requires outcomes != []
    ensures outcomes[0] == Raised ==> Trace(period, start, outcomes) == [TaskCall(start)] && Ending(outcomes) == Propagated
    ensures outcomes[0].Finished? ==> Ending(outcomes) == Ending(outcomes[1..])
    ensures outcomes[0].Finished? ==>
              Trace(period, start, outcomes) ==
              CycleEvents(period, start, outcomes[0]) + Trace(period, NextStart(period, start, outcomes[0]), outcomes[1..])
  {
    if outcomes[0] == Raised {
    } else
    if outcomes[0].duration <= period {
      ShortTaskSleepsRemainder(period, start, outcomes);
    } else {
      OverrunStartsNextCycleAtOnce(period, start, outcomes);
    }
  }

  lemma AppendAssoc<T>(a: seq<T>, b: seq<T>, c: seq<T>)
    ensures (a + b) + c == a + (b + c)
  {
  }

  /** The task calls of a run: the first cycle's start, then those of the run from the next start on. */
  lemma CallStartsUnfold(period: real, start: real, outcomes: seq<TaskOutcome>)
    requires outcomes != [] && outcomes[0].Finished?
    ensures CallStarts(Trace(period, start, outcomes)) ==
            [start] + CallStarts(Trace(period, NextStart(period, start, outcomes[0]), outcomes[1..]))
  {
    var d := outcomes[0].duration;
    var rest := Trace(period, NextStart(period, start, outcomes[0]), outcomes[1..]);
    if period - d >= 0.0 {
      CallStartsAppend([TaskCall(start), Sleep(period - d)], rest);
    } else {
      CallStartsAppend([TaskCall(start)], rest);
    }
  }

  lemma FirstCallStart(period: real, start: real, outcomes: seq<TaskOutcome>)
    requires outcomes != []
    ensures CallStarts(Trace(period, start, outcomes)) != []
    ensures CallStarts(Trace(period, start, outcomes))[0] == start
  {
    if outcomes[0].Finished? {
      CallStartsUnfold(period, start, outcomes);
    }
  }

  /**
   * Self-correction: a cycle whose task took `d` seconds is followed by the next one
   * `max(period, d)` seconds after it started, plus that cycle's overshoot.
   */
  lemma {:induction false} CycleSpacing(period: real, start: real, outcomes: seq<TaskOutcome>, i: nat)
    requires i + 1 < Cycles(outcomes)
    ensures outcomes[i].Finished?
    ensures i + 1 < |CallStarts(Trace(period, start, outcomes))|
    ensures CallStarts(Trace(period, start, outcomes))[i + 1] ==
            CallStarts(Trace(period, start, outcomes))[i] + Max(period, outcomes[i].duration) + outcomes[i].overshoot
    decreases |outcomes|
  {
    var next := NextStart(period, start, outcomes[0]);
    var starts, rest := CallStarts(Trace(period, start, outcomes)), CallStarts(Trace(period, next, outcomes[1..]));
    CallStartsUnfold(period, start, outcomes);
    assert starts == [start] + rest;
    if i == 0 {
      FirstCallStart(period, next, outcomes[1..]);
    } else {
      CycleSpacing(period, next, outcomes[1..], i - 1);
    }
  }

  /**
   * On a real clock, where no wake-up comes early, consecutive cycles start at least
   * `max(period, d)` apart: the loop never runs a task early to catch up.
   */
  lemma CycleSpacingAtLeast(period: real, start: real, outcomes: seq<TaskOutcome>, i: nat)
    requires i + 1 < Cycles(outcomes)
    requires outcomes[i].Finished? ==> outcomes[i].overshoot >= 0.0
    ensures outcomes[i].Finished?
    ensures i + 1 < |CallStarts(Trace(period, start, outcomes))|
    ensures CallStarts(Trace(period, start, outcomes))[i + 1] >=
            CallStarts(Trace(period, start, outcomes))[i] + Max(period, outcomes[i].duration)
  {
    CycleSpacing(period, start, outcomes, i);
  }

  /** The loop never sleeps a negative amount: it sleeps only when `period - duration >= 0`. */
  lemma {:induction false} SleepsAreNonNegative(period: real, start: real, outcomes: seq<TaskOutcome>)
    ensures forall k :: 0 <= k < |Trace(period, start, outcomes)| && Trace(period, start, outcomes)[k].Sleep? ==>
              Trace(period, start, outcomes)[k].amount >= 0.0
    decreases |outcomes|
  {
    if outcomes != [] && outcomes[0].Finished? {
      SleepsAreNonNegative(period, NextStart(period, start, outcomes[0]), outcomes[1..]);
    }
  }

  /**
   * No catch-up: every trace starts with a task call, and a sleep is always followed
   * by a task call or the end of the run, never by another sleep.
   */
  lemma {:induction false} NoConsecutiveSleeps(period: real, start: real, outcomes: seq<TaskOutcome>)
    ensures Trace(period, start, outcomes) != [] ==> Trace(period, start, outcomes)[0].TaskCall?
    ensures forall k :: 0 <= k < |Trace(period, start, outcomes)| - 1 && Trace(period, start, outcomes)[k].Sleep? ==>
              Trace(period, start, outcomes)[k + 1].TaskCall?
    decreases |outcomes|
  {
    if outcomes != [] && outcomes[0].Finished? {
      NoConsecutiveSleeps(period, NextStart(period, start, outcomes[0]), outcomes[1..]);
    }
  }

  /** A task that overruns the period is followed by the next cycle at once, with no sleep. */
  lemma OverrunStartsNextCycleAtOnce(period: real, start: real, outcomes: seq<TaskOutcome>)
    requires outcomes != [] && outcomes[0].Finished? && outcomes[0].duration > period
    ensures Trace(period, start, outcomes) ==
            [TaskCall(start)] + Trace(period, start + outcomes[0].duration + outcomes[0].overshoot, outcomes[1..])
  {
  }

  /**
   * A task shorter than the period is followed by a sleep that brings the next start
   * to `start + period`, plus the overshoot.
   */
  lemma ShortTaskSleepsRemainder(period: real, start: real, outcomes: seq<TaskOutcome>)
    requires outcomes != [] && outcomes[0].Finished? && outcomes[0].duration <= period
    ensures Trace(period, start, outcomes) ==
            [TaskCall(start), Sleep(period - outcomes[0].duration)]
            + Trace(period, start + period + outcomes[0].overshoot, outcomes[1..])
  {
  }

  /** `Worker`: a period and a name, fixed by the constructor; `task` is what subclasses supply. */
  class Worker {
    var period: real
    var name: string

    constructor (period: real, name: string := "BaseWorker")
      ensures this.period == period && this.name == name
    {
      this.period := period;
      this.name := name;
    }

    /**
     * `run`: each cycle reads the clock, runs the task, measures its duration and
     * sleeps for what remains of the period, if anything. `now` is the clock at the
     * start; each later reading adds the task's duration, the sleep asked for and the
     * overshoot. The run ends when `outcomes` is exhausted, which stands for cancellation.
     */
    method Run(now: real, outcomes: seq<TaskOutcome>) returns (trace: seq<Event>, end: RunEnd)
      ensures trace == Trace(period, now, outcomes)
      ensures end == Ending(outcomes)
    {
      var clock := now;
      var i := 0;
      trace := [];
      end := Cancelled;
      while i < |outcomes|
        invariant 0 <= i <= |outcomes|
        invariant trace + Trace(period, clock, outcomes[i..]) == Trace(period, now, outcomes)
        invariant Ending(outcomes[i..]) == Ending(outcomes)
        decreases |outcomes| - i
      {
        var start := clock;
        TraceStep(period, start, outcomes[i..]);
        assert outcomes[i..][0] == outcomes[i] && outcomes[i..][1..] == outcomes[i + 1..];
        if outcomes[i] == Raised {
          trace := trace + [TaskCall(start)];
          end := Propagated;
          return;
        }
        var events := [TaskCall(start)];
        clock := clock + outcomes[i].duration;
        var taskDuration := clock - start;
        var timeToWait := period - taskDuration;
        if timeToWait >= 0.0 {
          events := events + [Sleep(timeToWait)];
          clock := clock + timeToWait;
        }
        clock := clock + outcomes[i].overshoot;
        assert events == CycleEvents(period, start, outcomes[i]);
        assert clock == NextStart(period, start, outcomes[i]);
        AppendAssoc(trace, events, Trace(period, clock, outcomes[i + 1..]));
        trace := trace + events;
        i := i + 1;
      }
    }
  }
}
