/**
 * The transition timer of transition.py: a duration, the time elapsed so far
 * and a completion flag that latches once the elapsed time reaches the
 * duration.  Time is an exact `real` number of seconds.
 */
module Transitions {

  /** The state of one transition timer. */
  datatype Timer = Timer(duration: real, elapsed: real, complete: bool)

  /** The state a freshly built transition starts in. */
  function Start(duration: real): Timer
  {
    Timer(duration, 0.0, false)
  }

  /** One `update(dt)`: accumulate `dt`, and latch completion once the duration is reached. */
  function Advance(t: Timer, dt: real): (r: Timer)
    ensures r.duration == t.duration && r.elapsed == t.elapsed + dt
    ensures t.complete ==> r.complete
    ensures r.elapsed >= r.duration ==> r.complete
    ensures r.complete ==> t.complete || r.elapsed >= r.duration
  {
    var elapsed := t.elapsed + dt;
    Timer(t.duration, elapsed, t.complete || elapsed >= t.duration)
  }

  /** The timer after the updates `dts`, in order. */
  function AdvanceAll(t: Timer, dts: seq<real>): Timer
    decreases |dts|
  {
    if dts == [] then t else AdvanceAll(Advance(t, dts[0]), dts[1..])
  }

  /** The total of a sequence of time steps. */
  function Sum(dts: seq<real>): real
    decreases |dts|
  {
    if dts == [] then 0.0 else dts[0] + Sum(dts[1..])
  }

  /** Every time step is non-negative, as the frame clock guarantees. */
  predicate NonNegative(dts: seq<real>)
  {
    forall i :: 0 <= i < |dts| ==> dts[i] >= 0.0
  }

  lemma {:induction false} SumNonNegative(dts: seq<real>)
    requires NonNegative(dts)
    ensures Sum(dts) >= 0.0
    decreases |dts|
  {
    if dts != [] {
      assert NonNegative(dts[1..]) by {
        forall i | 0 <= i < |dts[1..]| ensures dts[1..][i] >= 0.0 {
          assert dts[1..][i] == dts[i + 1];
        }
      }
      SumNonNegative(dts[1..]);
    }
  }

  /** The updates add exactly their sum to the elapsed time and keep the duration. */
  lemma {:induction false} AdvanceAllElapsed(t: Timer, dts: seq<real>)
    ensures AdvanceAll(t, dts).duration == t.duration
    ensures AdvanceAll(t, dts).elapsed == t.elapsed + Sum(dts)
    decreases |dts|
  {
    if dts != [] {
      AdvanceAllElapsed(Advance(t, dts[0]), dts[1..]);
    }
  }

  /** Updating by `dts` and then by `more` is updating by `dts + more`. */
  lemma {:induction false} AdvanceAllAppend(t: Timer, dts: seq<real>, more: seq<real>)
    ensures AdvanceAll(t, dts + more) == AdvanceAll(AdvanceAll(t, dts), more)
    decreases |dts|
  {
    if dts == [] {
      assert dts + more == more;
    } else {
      assert (dts + more)[0] == dts[0];
      assert (dts + more)[1..] == dts[1..] + more;
      AdvanceAllAppend(Advance(t, dts[0]), dts[1..], more);
    }
  }

  /** Completion is never reset: a complete timer stays complete under any updates. */
  lemma {:induction false} CompletionLatches(t: Timer, dts: seq<real>)
    requires t.complete
    ensures AdvanceAll(t, dts).complete
    decreases |dts|
  {
    if dts != [] {
      CompletionLatches(Advance(t, dts[0]), dts[1..]);
    }
  }

  /** Completion is monotonic over any sequence of updates. */
  lemma CompletionMonotone(t: Timer, dts: seq<real>, more: seq<real>)
    ensures AdvanceAll(t, dts).complete ==> AdvanceAll(t, dts + more).complete
  {
    AdvanceAllAppend(t, dts, more);
    if AdvanceAll(t, dts).complete {
      CompletionLatches(AdvanceAll(t, dts), more);
    }
  }

  /**
   * With non-negative steps, a timer is complete after the updates exactly when
   * it was complete already or at least one update brought the elapsed time to
   * the duration.
   */
  lemma {:induction false} CompletionExact(t: Timer, dts: seq<real>)
    requires NonNegative(dts)
    ensures AdvanceAll(t, dts).complete <==>
              t.complete || (|dts| > 0 && t.elapsed + Sum(dts) >= t.duration)
    decreases |dts|
  {
    if dts != [] {
      var rest := dts[1..];
      assert NonNegative(rest) by {
        forall i | 0 <= i < |rest| ensures rest[i] >= 0.0 {
          assert rest[i] == dts[i + 1];
        }
      }
      SumNonNegative(rest);
      CompletionExact(Advance(t, dts[0]), rest);
    }
  }

  /**
   * A fresh transition driven by non-negative steps is complete exactly when it
   * has been updated at least once and the steps add up to its duration.
   */
  lemma FreshCompletion(duration: real, dts: seq<real>)
    requires NonNegative(dts)
    ensures AdvanceAll(Start(duration), dts).complete <==> |dts| > 0 && Sum(dts) >= duration
    ensures |dts| > 0 ==>
              (AdvanceAll(Start(duration), dts).complete <==>
               AdvanceAll(Start(duration), dts).elapsed >= duration)
  {
    CompletionExact(Start(duration), dts);
    AdvanceAllElapsed(Start(duration), dts);
  }

  /** A transition: the timer fields of the abstract base class. */
  class Transition {
    const duration: real
    var elapsedTime: real
    var isComplete: bool

    /** The timer this object holds. */
    function State(): Timer
      reads this
    {
      Timer(duration, elapsedTime, isComplete)
    }

    constructor (duration: real)
      ensures State() == Start(duration)
    {
      this.duration := duration;
      elapsedTime := 0.0;
      isComplete := false;
    }

    method Update(dt: real)
      modifies this
      ensures State() == Advance(old(State()), dt)
    {
      elapsedTime := elapsedTime + dt;
      if elapsedTime >= duration {
        isComplete := true;
      }
    }
  }
}
