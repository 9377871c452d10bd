/** The 20 Hz throttle at the head of LeapListener::onFrame: a frame is
    handled only when at least 50 ms have passed since the last handled
    one. Times are integer nanoseconds, as rclcpp::Time stores them. */
module RateGate {

  /** 0.05 s, the minimum distance between two handled frames. */
  const PublishPeriodNs: int := 50_000_000

  /** One second. */
  const SecondNs: int := 1_000_000_000

  /** The gate lets a frame at `now` through when the last handled frame was
      at `last`. A clock that went backwards (now < last) keeps it shut. */
  predicate GateOpen(last: int, now: int)
    ensures GateOpen(last, now) ==> last < now
  {
    now - last >= PublishPeriodNs
  }

  /** Every two handled times lie at least one period apart per step
      between them. */
  ghost predicate Spaced(a: seq<int>)
  {
    forall j, k :: 0 <= j < k < |a| ==> a[k] - a[j] >= (k - j) * PublishPeriodNs
  }

  /** The times among `times` that the gate lets through, in order, when
      callbacks arrive at `times` and the last handled frame was at `last`:
      each handled time becomes the new `last`, a rejected one changes
      nothing. */
  function AcceptedTimes(last: int, times: seq<int>): (r: seq<int>)
    ensures |r| <= |times|
    ensures forall k :: 0 <= k < |r| ==> r[k] in times
    ensures forall k :: 0 <= k < |r| ==> r[k] >= last + PublishPeriodNs
    ensures Spaced(r)
    decreases |times|
  {
    if times == [] then []
    else if GateOpen(last, times[0]) then
      var rest := AcceptedTimes(times[0], times[1..]);
      SpacedPrepend(times[0], rest);
      [times[0]] + rest
    else AcceptedTimes(last, times[1..])
  }

  /** A time one period before every element of a spaced sequence can be
      put in front of it. */
  lemma {:induction false} SpacedPrepend(t: int, a: seq<int>)
    requires Spaced(a)
    requires forall k :: 0 <= k < |a| ==> a[k] >= t + PublishPeriodNs
    ensures Spaced([t] + a)
  {
    var b := [t] + a;
    forall j, k | 0 <= j < k < |b|
      ensures b[k] - b[j] >= (k - j) * PublishPeriodNs
    {
      if j == 0 && k > 1 {
        assert a[k - 1] - a[0] >= (k - 1) * PublishPeriodNs;
      }
    }
  }

  /** The rate bound: however often the callback fires, at most twenty of
      the handled times fall in any window shorter than one second. */
  lemma AtMostTwentyPerSecond(a: seq<int>, j: int, k: int)
    requires Spaced(a)
    requires 0 <= j <= k < |a|
    requires a[k] - a[j] < SecondNs
    ensures k - j + 1 <= 20
  {
    if j < k {
      assert a[k] - a[j] >= (k - j) * PublishPeriodNs;
    }
  }

  /** The time the gate compares against after the handled times
      `handled`: the latest of them, or `start` before any was handled. */
  function LastHandled(start: int, handled: seq<int>): (t: int)
    ensures handled != [] ==> t in handled
  {
    if handled == [] then start else handled[|handled| - 1]
  }

  /** One more callback at `t`: it is handled, and appended to the handled
      times, exactly when it clears the gate against the last handled time;
      otherwise nothing changes. This is the step the listener takes. */
  lemma {:induction false} AcceptedTimesStep(last: int, times: seq<int>, t: int)
    ensures AcceptedTimes(last, times + [t]) ==
      AcceptedTimes(last, times) +
      (if GateOpen(LastHandled(last, AcceptedTimes(last, times)), t) then [t] else [])
    decreases |times|
  {
    if times == [] {
      assert times + [t] == [t];
      assert [t][1..] == [];
    } else {
      assert (times + [t])[0] == times[0];
      assert (times + [t])[1..] == times[1..] + [t];
      AcceptedTimesStep(if GateOpen(last, times[0]) then times[0] else last, times[1..], t);
    }
  }

  /** The listener's bookkeeping for one more callback at `now`: if
      `handled` and `lastTime` describe the calls so far, the updated pair
      describes the calls with `now` appended, and the handled times stay
      spaced. */
  lemma CallStep(start: int, calls: seq<int>, handled: seq<int>, lastTime: int, now: int)
    requires handled == AcceptedTimes(start, calls) && lastTime == LastHandled(start, handled)
    ensures GateOpen(lastTime, now) ==>
      handled + [now] == AcceptedTimes(start, calls + [now]) &&
      LastHandled(start, handled + [now]) == now && Spaced(handled + [now])
    ensures !GateOpen(lastTime, now) ==>
      handled == AcceptedTimes(start, calls + [now]) && Spaced(handled)
  {
    AcceptedTimesStep(start, calls, now);
  }

  /** When every callback clears the gate against the one before it (the
      first against `last`), every callback is handled. */
  lemma {:induction false} AllClearAllHandled(last: int, times: seq<int>)
    requires times != [] ==> GateOpen(last, times[0])
    requires forall k :: 0 < k < |times| ==> GateOpen(times[k - 1], times[k])
    ensures AcceptedTimes(last, times) == times
    decreases |times|
  {
    if times != [] {
      var rest := times[1..];
      forall k | 0 < k < |rest|
        ensures GateOpen(rest[k - 1], rest[k])
      {
        assert rest[k - 1] == times[k] && rest[k] == times[k + 1];
      }
      if rest != [] {
        assert rest[0] == times[1];
      }
      AllClearAllHandled(times[0], rest);
    }
  }

  /** Calls at 0 s, 0.03 s and 0.06 s after a long pause: the second comes
      too early, the third is let through. */
  lemma GateScenario()
    ensures AcceptedTimes(-SecondNs, [0, 30_000_000, 60_000_000]) == [0, 60_000_000]
  {
    assert [0, 30_000_000, 60_000_000][1..] == [30_000_000, 60_000_000];
    assert [30_000_000, 60_000_000][1..] == [60_000_000];
    assert [60_000_000][1..] == [];
  }
}
