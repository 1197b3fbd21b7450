/** The orientation animator of RotateImageView, as values: the angle
    arithmetic (normalisation, shortest signed difference, duration,
    interpolation) and the two state transitions, `setOrientation` and the
    per-frame advance at the top of `onDraw`. The class in module RotateView
    runs these steps in place and is proved to agree with them. */
module Rotation {
  import opened JavaInt

  /** ANIMATION_SPEED: degrees per second. */
  const ANIMATION_SPEED: int := 270

  function Abs(x: int): nat {
    if x < 0 then -x else x
  }

  /** `degree >= 0 ? degree % 360 : degree % 360 + 360` with Java's `%`.
      The result is congruent to the input; it lies in [0, 359] except that a
      negative multiple of 360 gives 360 (Java's `-360 % 360` is 0, plus 360). */
  function Normalize(degree: int): (r: int)
    ensures 0 <= r <= 360
    ensures (r - degree) % 360 == 0
    ensures r == 360 <==> degree < 0 && degree % 360 == 0
  {
    if degree >= 0 then JavaRem(degree, 360) else JavaRem(degree, 360) + 360
  }

  /** The signed difference `setOrientation` computes from the current angle to
      the new target: folded into [0, 359] and then into [-179, 180]. */
  function ShortestDiff(current: int, target: int): (d: int)
    requires 0 <= current <= 360 && 0 <= target <= 360
    ensures -179 <= d <= 180
    ensures (current + d - target) % 360 == 0
  {
    var raw := target - current;
    var folded := if raw >= 0 then raw else 360 + raw;
    if folded > 180 then folded - 360 else folded
  }

  /** `Math.abs(diff) * 1000 / ANIMATION_SPEED`: the length of a transition in
      milliseconds, the largest whole number of milliseconds the rotation at
      270 degrees per second fits into. */
  function Duration(diff: int): (ms: int)
    requires -179 <= diff <= 180
    ensures 0 <= ms <= 666
    ensures ms * ANIMATION_SPEED <= Abs(diff) * 1000 < (ms + 1) * ANIMATION_SPEED
  {
    Abs(diff) * 1000 / ANIMATION_SPEED
  }

  /** The angle drawn `elapsed` milliseconds into a transition from `startDeg`,
      with Java's `int` cast of the `long` time difference, `int` negation and
      multiplication, truncating division by 1000, and normalisation. */
  function Interpolate(startDeg: int, clockwise: bool, elapsed: int): (r: int)
    requires 0 <= startDeg <= 360
    ensures 0 <= r <= 360
  {
    var deltaTime := Int32(elapsed);
    var signed := if clockwise then deltaTime else Int32(-deltaTime);
    var sum := startDeg + JavaDiv(Int32(ANIMATION_SPEED * signed), 1000);
    // The int sum does not wrap: startDeg <= 360 and abs(quotient) <= 2^31 / 1000.
    assert IsInt32(sum);
    Normalize(sum)
  }

  /** `k` degrees in the given direction (clockwise is the positive one). */
  function Signed(clockwise: bool, k: int): int {
    if clockwise then k else -k
  }

  /** Whole degrees covered `elapsed` milliseconds into a transition. */
  function Travel(elapsed: nat): nat {
    ANIMATION_SPEED * elapsed / 1000
  }

  /** The animator fields of RotateImageView (mCurrentDegree, mStartDegree,
      mTargetDegree, mClockwise, mEnableAnimation, mAnimationStartTime,
      mAnimationEndTime). */
  datatype Animator = Animator(
    current: int,
    start: int,
    target: int,
    clockwise: bool,
    enableAnimation: bool,
    startTime: int,
    endTime: int)

  /** The field initialisers: a settled view at angle 0 with animation on. */
  function Initial(): (r: Animator)
    ensures Inv(r) && Settled(r)
    ensures r.current == r.start == r.target == 0
    ensures r.enableAnimation && r.startTime == r.endTime == 0
  {
    Animator(0, 0, 0, false, true, 0, 0)
  }

  /** No transition in progress. */
  predicate Settled(s: Animator) {
    s.current == s.target
  }

  /** What every reachable state satisfies: the angles lie in [0, 360], the
      window is well ordered, and while a transition is in progress its
      direction and length are those of the shortest path from the start
      angle to the target. A transition then lasts at most 666 ms. */
  ghost predicate Inv(s: Animator)
    ensures Inv(s) && !Settled(s) ==> s.endTime - s.startTime <= 666
  {
    && 0 <= s.current <= 360
    && 0 <= s.start <= 360
    && 0 <= s.target <= 360
    && s.startTime <= s.endTime
    && (!Settled(s) ==>
          var d := ShortestDiff(s.start, s.target);
          s.clockwise == (d >= 0) && s.endTime == s.startTime + Duration(d))
  }

  /** `setOrientation(degree, animation)` with the clock reading `now`. */
  function SetOrientation(s: Animator, degree: int, animation: bool, now: int): (r: Animator)
    requires Inv(s)
    ensures Inv(r)
  {
    var n := Normalize(degree);
    var s' := s.(enableAnimation := animation);
    if n == s.target then s'
    else if animation then
      var d := ShortestDiff(s.current, n);
      s'.(target := n, start := s.current, startTime := now,
          clockwise := d >= 0, endTime := now + Duration(d))
    else
      s'.(target := n, current := n)
  }

  /** Whether `setOrientation` calls `invalidate()`: exactly when the request
      changes the target, whatever the animation flag and the clock; otherwise
      only the animation flag is written. */
  predicate SetOrientationRedraws(s: Animator, degree: int)
    ensures Inv(s) && SetOrientationRedraws(s, degree) ==>
      forall animation: bool, now: int :: SetOrientation(s, degree, animation, now).target != s.target
    ensures Inv(s) && !SetOrientationRedraws(s, degree) ==>
      forall animation: bool, now: int ::
        SetOrientation(s, degree, animation, now) == s.(enableAnimation := animation)
  {
    Normalize(degree) != s.target
  }

  /** The animation step at the top of `onDraw` (reached only when there is a
      drawable with non-zero width and height), with the clock reading `now`. */
  function Advance(s: Animator, now: int): (r: Animator)
    requires Inv(s)
    ensures Inv(r)
  {
    if Settled(s) then s
    else if now < s.endTime then s.(current := Interpolate(s.start, s.clockwise, now - s.startTime))
    else s.(current := s.target)
  }

  /** Whether the step calls `invalidate()` to ask for the next frame. It
      does so only while a transition is in progress, and never in the same
      frame as the hook. */
  predicate AdvanceRedraws(s: Animator, now: int)
    ensures AdvanceRedraws(s, now) ==> !Settled(s) && !AdvanceCompletes(s, now)
  {
    !Settled(s) && now < s.endTime
  }

  /** Whether the step calls the `updateStateAfterAnimation()` hook. While a
      transition is in progress every frame either asks for another frame or
      calls the hook, and a frame that calls the hook leaves the view settled. */
  predicate AdvanceCompletes(s: Animator, now: int)
    ensures !Settled(s) && !AdvanceCompletes(s, now) ==> now < s.endTime
    ensures Inv(s) && AdvanceCompletes(s, now) ==> Settled(Advance(s, now))
  {
    !Settled(s) && s.endTime <= now
  }
}
