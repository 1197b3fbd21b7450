/** What the orientation animator promises, proved about the transitions of
    module Rotation: the shortest-path choice, idempotence, the timing of a
    transition, interpolation that never reaches or overshoots the target,
    settling, and the completion hook firing once per transition. */
module RotationProps {
  import opened JavaInt
  import opened Rotation

  // ---------------------------------------------------------------- shortest path

  /** The difference is the shortest of all signed rotations that reach the
      target, and when two rotations are equally short (180 degrees either way)
      it is the clockwise one. */
  lemma ShortestDiffIsShortest(current: int, target: int, k: int)
    requires 0 <= current <= 360 && 0 <= target <= 360
    requires (current + k - target) % 360 == 0
    ensures Abs(ShortestDiff(current, target)) <= Abs(k)
    ensures Abs(k) == Abs(ShortestDiff(current, target)) ==> k == ShortestDiff(current, target) || ShortestDiff(current, target) == 180
  {
  }

  /** The difference is the only rotation in [-179, 180] that reaches the target. */
  lemma ShortestDiffUnique(current: int, target: int, k: int)
    requires 0 <= current <= 360 && 0 <= target <= 360
    requires -179 <= k <= 180 && (current + k - target) % 360 == 0
    ensures k == ShortestDiff(current, target)
  {
  }

  // ---------------------------------------------------------------- setOrientation

  /** A request for the angle already targeted changes no angle and no time and
      asks for no redraw; only the animation flag is overwritten. Hence the
      second of two identical requests is a no-op. */
  lemma SetOrientationSameTarget(s: Animator, degree: int, animation: bool, now: int)
    requires Inv(s)
    requires Normalize(degree) == s.target
    ensures SetOrientation(s, degree, animation, now) == s.(enableAnimation := animation)
    ensures !SetOrientationRedraws(s, degree)
  {
  }

  lemma SetOrientationTwice(s: Animator, degree: int, animation: bool, now: int, later: int)
    requires Inv(s)
    ensures var r := SetOrientation(s, degree, animation, now);
      && r.target == Normalize(degree)
      && SetOrientation(r, degree, animation, later) == r
      && !SetOrientationRedraws(r, degree)
  {
  }

  /** An animated request for a new angle starts a transition from the live
      current angle (so the drawn angle does not jump), at the time of the
      request, in the direction of the shortest path, lasting |diff| * 1000 / 270
      milliseconds, at most 666. */
  lemma AnimatedRequest(s: Animator, degree: int, now: int)
    requires Inv(s)
    requires Normalize(degree) != s.target
    ensures var r := SetOrientation(s, degree, true, now);
      var d := ShortestDiff(s.current, r.target);
      && SetOrientationRedraws(s, degree)
      && r.target == Normalize(degree)
      && r.current == s.current && r.start == s.current
      && r.startTime == now
      && -179 <= d <= 180 && (s.current + d - r.target) % 360 == 0
      && r.clockwise == (d >= 0)
      && r.endTime - r.startTime == Abs(d) * 1000 / 270
      && 0 <= r.endTime - r.startTime <= 666
  {
  }

  /** A request without animation puts the current angle on the target at once. */
  lemma ImmediateRequest(s: Animator, degree: int, now: int)
    requires Inv(s)
    requires Normalize(degree) != s.target
    ensures var r := SetOrientation(s, degree, false, now);
      && SetOrientationRedraws(s, degree)
      && r.current == r.target == Normalize(degree)
      && Settled(r)
      && r.start == s.start && r.startTime == s.startTime && r.endTime == s.endTime
  {
  }

  // ---------------------------------------------------------------- advance

  /** Inside the window [startTime, endTime) the Java `int` cast, negation and
      multiplication do not wrap, and the truncating division gives
      `±(270 * elapsed / 1000)`. */
  lemma InterpolateNoWrap(startDeg: int, clockwise: bool, elapsed: int)
    requires 0 <= startDeg <= 360
    requires 0 <= elapsed <= 666
    ensures Interpolate(startDeg, clockwise, elapsed)
         == Normalize(startDeg + Signed(clockwise, Travel(elapsed)))
  {
  }

  /** Degrees covered never decrease as time goes on. */
  lemma TravelMonotone(e1: nat, e2: nat)
    requires e1 <= e2
    ensures Travel(e1) <= Travel(e2)
  {
  }

  /** Strictly inside the window the distance covered is less than the whole
      difference, since the window is |diff| * 1000 / 270 rounded down. */
  lemma TravelShort(d: int, elapsed: nat)
    requires -179 <= d <= 180
    requires elapsed < Duration(d)
    ensures Travel(elapsed) < Abs(d)
  {
  }

  /** Turning from `start` toward `target` along the shortest path by fewer
      degrees than the path is long does not land on `target`. */
  lemma ShortOfTarget(start: int, target: int, k: int)
    requires 0 <= start <= 360 && 0 <= target <= 360
    requires 0 <= k < Abs(ShortestDiff(start, target))
    ensures Normalize(start + Signed(ShortestDiff(start, target) >= 0, k)) != target
  {
  }

  /** While a transition is in progress, a frame drawn at `now` in
      [startTime, endTime) puts the current angle `k` degrees from the start
      angle in the chosen direction, with `0 <= k < |diff|`: the target is
      neither reached early nor overshot, and the frame asks for another. */
  lemma AdvanceInWindow(s: Animator, now: int)
    requires Inv(s) && !Settled(s)
    requires s.startTime <= now < s.endTime
    ensures var r := Advance(s, now);
      var d := ShortestDiff(s.start, s.target);
      var k := Travel(now - s.startTime);
      && 0 <= k < Abs(d)
      && r.current == Normalize(s.start + Signed(s.clockwise, k))
      && r.current != s.target
      && !Settled(r)
      && r == s.(current := r.current)
      && AdvanceRedraws(s, now) && !AdvanceCompletes(s, now)
  {
    var d := ShortestDiff(s.start, s.target);
    var e := now - s.startTime;
    assert 0 <= e < Duration(d) <= 666;
    var c := Interpolate(s.start, s.clockwise, e);
    assert Advance(s, now) == s.(current := c);
    InterpolateNoWrap(s.start, s.clockwise, e);
    TravelShort(d, e);
    ShortOfTarget(s.start, s.target, Travel(e));
  }

  /** A frame drawn at or after the end of the window puts the current angle on
      the target, calls the completion hook, and asks for no further frame. */
  lemma AdvanceAtEnd(s: Animator, now: int)
    requires Inv(s) && !Settled(s)
    requires s.endTime <= now
    ensures var r := Advance(s, now);
      && r == s.(current := s.target)
      && Settled(r)
      && AdvanceCompletes(s, now) && !AdvanceRedraws(s, now)
  {
  }

  /** A settled animator is a fixed point of the frame step: nothing changes,
      no redraw is requested and the hook is not called. */
  lemma SettledIsFixed(s: Animator, now: int)
    requires Inv(s) && Settled(s)
    ensures Advance(s, now) == s
    ensures !AdvanceRedraws(s, now) && !AdvanceCompletes(s, now)
  {
  }

  /** The completion hook runs once per transition: after the frame that
      calls it, no later frame calls it again or asks for a redraw. */
  lemma CompletesOnce(s: Animator, now: int, later: int)
    requires Inv(s) && AdvanceCompletes(s, now)
    ensures var r := Advance(s, now);
      Settled(r) && !AdvanceCompletes(r, later) && !AdvanceRedraws(r, later) && Advance(r, later) == r
  {
  }

  /** Inside the window, a frame's angle depends on the start angle, the
      direction and the start time, not on the angle drawn before it. */
  lemma AdvanceForgetsCurrent(s: Animator, c: int, now: int)
    requires Inv(s) && !Settled(s) && 0 <= c <= 360 && c != s.target
    requires now < s.endTime
    ensures Inv(s.(current := c))
    ensures Advance(s.(current := c), now) == Advance(s, now)
  {
  }

  /** Frames during a transition do not accumulate error: the angle at `t2`
      depends only on the start angle and `t2`, not on the frames drawn before,
      and the distance from the start angle grows with time. */
  lemma AdvanceFramesMonotone(s: Animator, t1: int, t2: int)
    requires Inv(s) && !Settled(s)
    requires s.startTime <= t1 <= t2
    requires t1 < s.endTime
    ensures Advance(Advance(s, t1), t2) == Advance(s, t2)
    ensures t2 < s.endTime ==> Travel(t1 - s.startTime) <= Travel(t2 - s.startTime)
  {
    AdvanceInWindow(s, t1);
    var s1 := Advance(s, t1);
    if t2 < s.endTime {
      AdvanceForgetsCurrent(s, s1.current, t2);
      TravelMonotone(t1 - s.startTime, t2 - s.startTime);
    } else {
      AdvanceAtEnd(s1, t2);
      AdvanceAtEnd(s, t2);
    }
  }

  // ---------------------------------------------------------------- runs of frames

  /** The animator after one frame at each of `times`, in order. */
  function Frames(s: Animator, times: seq<int>): (r: Animator)
    requires Inv(s)
    ensures Inv(r)
    decreases |times|
  {
    if times == [] then s else Frames(Advance(s, times[0]), times[1..])
  }

  /** How many of those frames call the completion hook. */
  function HookCalls(s: Animator, times: seq<int>): nat
    requires Inv(s)
    decreases |times|
  {
    if times == [] then 0
    else (if AdvanceCompletes(s, times[0]) then 1 else 0) + HookCalls(Advance(s, times[0]), times[1..])
  }

  /** Some frame is drawn at or after `endTime`. */
  predicate ReachesEnd(times: seq<int>, endTime: int) {
    exists i :: 0 <= i < |times| && endTime <= times[i]
  }

  /** Frames drawn on a settled animator change nothing and call no hook. */
  lemma {:induction false} SettledFrames(s: Animator, times: seq<int>)
    requires Inv(s) && Settled(s)
    ensures Frames(s, times) == s && HookCalls(s, times) == 0
    decreases |times|
  {
    if times != [] {
      SettledIsFixed(s, times[0]);
      SettledFrames(s, times[1..]);
    }
  }

  /** A run whose first frame is before `endTime` reaches it exactly when the
      rest of the run does. */
  lemma ReachesEndTail(times: seq<int>, endTime: int)
    requires times != [] && times[0] < endTime
    ensures ReachesEnd(times, endTime) <==> ReachesEnd(times[1..], endTime)
  {
    if ReachesEnd(times, endTime) {
      var i :| 0 <= i < |times| && endTime <= times[i];
      assert times[1..][i - 1] == times[i];
    }
    if ReachesEnd(times[1..], endTime) {
      var i :| 0 <= i < |times[1..]| && endTime <= times[1..][i];
      assert times[i + 1] == times[1..][i];
    }
  }

  /** Over any run of frames drawn no earlier than the start of a transition,
      whatever their order and spacing, the completion hook is called exactly
      once if some frame comes at or after the end time, and never otherwise. */
  lemma {:induction false} TransitionHookCalls(s: Animator, times: seq<int>)
    requires Inv(s) && !Settled(s)
    requires forall i :: 0 <= i < |times| ==> s.startTime <= times[i]
    ensures HookCalls(s, times) == if ReachesEnd(times, s.endTime) then 1 else 0
    decreases |times|
  {
    if times == [] {
      return;
    }
    var s1 := Advance(s, times[0]);
    if s.endTime <= times[0] {
      AdvanceAtEnd(s, times[0]);
      SettledFrames(s1, times[1..]);
      assert ReachesEnd(times, s.endTime) by {
        assert s.endTime <= times[0];
      }
    } else {
      AdvanceInWindow(s, times[0]);
      ReachesEndTail(times, s.endTime);
      assert forall i :: 0 <= i < |times[1..]| ==> times[1..][i] == times[i + 1];
      TransitionHookCalls(s1, times[1..]);
    }
  }

  /** Over the same runs, the angle ends on the target if some frame comes at
      or after the end time. */
  lemma {:induction false} TransitionReachesTarget(s: Animator, times: seq<int>)
    requires Inv(s) && !Settled(s)
    requires forall i :: 0 <= i < |times| ==> s.startTime <= times[i]
    requires ReachesEnd(times, s.endTime)
    ensures Frames(s, times) == s.(current := s.target)
    decreases |times|
  {
    var s1 := Advance(s, times[0]);
    if s.endTime <= times[0] {
      AdvanceAtEnd(s, times[0]);
      SettledFrames(s1, times[1..]);
    } else {
      AdvanceInWindow(s, times[0]);
      ReachesEndTail(times, s.endTime);
      assert forall i :: 0 <= i < |times[1..]| ==> times[1..][i] == times[i + 1];
      TransitionReachesTarget(s1, times[1..]);
    }
  }

  /** Otherwise the angle is the one interpolated for the last frame, which is
      short of the target. */
  lemma {:induction false} TransitionFallsShort(s: Animator, times: seq<int>)
    requires Inv(s) && !Settled(s)
    requires forall i :: 0 <= i < |times| ==> s.startTime <= times[i]
    requires times != [] && !ReachesEnd(times, s.endTime)
    ensures Frames(s, times) == Advance(s, times[|times| - 1])
    ensures !Settled(Frames(s, times))
    decreases |times|
  {
    assert forall i :: 0 <= i < |times| ==> times[i] < s.endTime;
    var s1 := Advance(s, times[0]);
    var rest := times[1..];
    AdvanceInWindow(s, times[0]);
    if rest != [] {
      ReachesEndTail(times, s.endTime);
      assert forall i :: 0 <= i < |rest| ==> rest[i] == times[i + 1];
      TransitionFallsShort(s1, rest);
      var last := rest[|rest| - 1];
      assert times[|times| - 1] == last;
      AdvanceForgetsCurrent(s, s1.current, last);
    }
  }

  // ---------------------------------------------------------------- scenarios

  /** From the initial state, a request for 270 degrees turns counter-clockwise
      by 90 degrees over 333 ms; 100 ms in the drawn angle is 333; at 333 ms it
      is 270 and the hook is called. */
  lemma QuarterTurnScenario()
    ensures var s1 := SetOrientation(Initial(), 270, true, 0);
      && !s1.clockwise && s1.startTime == 0 && s1.endTime == 333
      && Advance(s1, 100).current == 333
      && Advance(s1, 333).current == 270
      && AdvanceCompletes(s1, 333)
  {
    assert Normalize(270) == 270;
    assert ShortestDiff(0, 270) == -90 && Duration(-90) == 333;
    var s1 := SetOrientation(Initial(), 270, true, 0);
    assert s1 == Animator(0, 0, 270, false, true, 0, 333);
    InterpolateNoWrap(0, false, 100);
    assert Travel(100) == 27 && Normalize(-27) == 333;
  }

  /** A raw difference of 190 degrees is taken as 170 degrees counter-clockwise,
      over 629 ms; a raw difference of 180 stays clockwise. */
  lemma ShortestPathScenarios()
    ensures var s1 := SetOrientation(Initial(), 190, true, 0);
      !s1.clockwise && s1.endTime == 629
    ensures var s2 := SetOrientation(Initial(), 180, true, 0);
      s2.clockwise && s2.endTime == 666
    ensures var s3 := SetOrientation(Initial(), -180, true, 0);
      s3.target == 180 && s3.clockwise
  {
  }

  /** On a view resting at 0, `setOrientation(-360, true)` is not recognised as
      a request for the current target: the target becomes 360, a redraw is
      requested and a transition of length 0 starts, which the next frame
      settles at 360. With animation off the angle snaps to 360 at once. */
  lemma NegativeFullTurn(now: int)
    ensures var s1 := SetOrientation(Initial(), -360, true, now);
      && SetOrientationRedraws(Initial(), -360)
      && s1.target == 360 && s1.current == 0
      && s1.endTime == s1.startTime == now
      && Advance(s1, now).current == 360
      && AdvanceCompletes(s1, now)
    ensures var s2 := SetOrientation(Initial(), -360, false, now);
      s2.target == 360 && s2.current == 360 && Settled(s2)
  {
  }

  /** On any view whose target is 0, with either flag, `setOrientation(-360)`
      skips the early return: the target becomes 360 and one redraw is
      requested. Without animation the drawn angle snaps to 360; with it, a
      transition from the drawn angle toward 360 starts. */
  lemma NegativeFullTurnOnZeroTarget(s: Animator, animation: bool, now: int)
    requires Inv(s) && s.target == 0
    ensures var r := SetOrientation(s, -360, animation, now);
      && SetOrientationRedraws(s, -360)
      && r.target == 360
      && (!animation ==> r.current == 360)
      && (animation ==> r.start == s.current && r.startTime == now
                        && r.endTime == now + Duration(ShortestDiff(s.current, 360)))
  {
  }
}
