/** RotateImageView's animator fields, updated in place by `setOrientation` and
    by the animation step of `onDraw`. The same code appears in
    camera2basic/RotateImageView.java and camera2basic/ui/RotateImageView.java;
    this one class stands for both. The clock is a parameter, and the calls to
    `invalidate()` and to the `updateStateAfterAnimation()` hook are counted in
    ghost fields. */
module RotateView {
  import opened JavaInt
  import opened Rotation

  /** A drawable's bounds rectangle. */
  datatype Rect = Rect(left: int, top: int, right: int, bottom: int)

  /** What `getDrawable()` returns: null, or a drawable with the bounds
      `onDraw` reads from it after the pre-Android-N snapshot block. That block
      may first call `setBounds(0, 0, width, height)` with the intrinsic size,
      so `bounds` are the bounds after that call, not the ones the drawable
      had on entry. */
  datatype Drawable = NoDrawable | Drawable(bounds: Rect)

  /** The bounds are four Java `int`s. */
  predicate IntBounds(r: Rect) {
    IsInt32(r.left) && IsInt32(r.top) && IsInt32(r.right) && IsInt32(r.bottom)
  }

  /** `onDraw` goes past its two early returns: a drawable is present and its
      bounds have non-zero width and height. With `int` bounds this is the
      same test as Java's wrapping subtractions. */
  predicate CanDraw(drawable: Drawable)
    ensures drawable.Drawable? && IntBounds(drawable.bounds) ==>
      (CanDraw(drawable) <==>
         Int32(drawable.bounds.right - drawable.bounds.left) != 0
         && Int32(drawable.bounds.bottom - drawable.bounds.top) != 0)
  {
    if drawable.NoDrawable? then false
    else
      var b := drawable.bounds;
      if IntBounds(b) then
        DiffWrapsToZero(b.right, b.left);
        DiffWrapsToZero(b.bottom, b.top);
        b.right - b.left != 0 && b.bottom - b.top != 0
      else
        b.right - b.left != 0 && b.bottom - b.top != 0
  }

  class RotateImageView {
    var currentDegree: int
    var startDegree: int
    var targetDegree: int
    var clockwise: bool
    var enableAnimation: bool
    var animationStartTime: int
    var animationEndTime: int

    /** Calls of `invalidate()` so far. */
    ghost var invalidations: nat
    /** Calls of the `updateStateAfterAnimation()` hook so far. */
    ghost var completions: nat

    ghost function State(): Animator
      reads this
    {
      Animator(currentDegree, startDegree, targetDegree, clockwise,
               enableAnimation, animationStartTime, animationEndTime)
    }

    ghost predicate Valid()
      reads this
    {
      Inv(State())
    }

    constructor ()
      ensures Valid()
      ensures State() == Initial()
      ensures currentDegree == startDegree == targetDegree == 0
      ensures !clockwise && enableAnimation
      ensures animationStartTime == animationEndTime == 0
      ensures invalidations == 0 && completions == 0
    {
      currentDegree, startDegree, targetDegree := 0, 0, 0;
      clockwise, enableAnimation := false, true;
      animationStartTime, animationEndTime := 0, 0;
      invalidations, completions := 0, 0;
    }

    /** `getDegree()`: the angle last requested, not the one being drawn. */
    method GetDegree() returns (degree: int)
      ensures degree == targetDegree
    {
      degree := targetDegree;
    }

    /** `invalidate()`: a request for another `onDraw`. */
    method Invalidate()
      modifies this
      ensures State() == old(State())
      ensures invalidations == old(invalidations) + 1 && completions == old(completions)
    {
      invalidations := invalidations + 1;
    }

    /** The `updateStateAfterAnimation()` hook: empty here, overridden by the
        shutter button to refresh its drawable state and redraw once. */
    method UpdateStateAfterAnimation()
      modifies this
      ensures State() == old(State())
      ensures completions == old(completions) + 1 && invalidations == old(invalidations)
    {
      completions := completions + 1;
    }

    /** `setOrientation(degree, animation)`, reading the clock as `now`. */
    method SetOrientation(degree: int, animation: bool, now: int)
      requires Valid()
      modifies this
      ensures Valid()
      ensures State() == Rotation.SetOrientation(old(State()), degree, animation, now)
      ensures enableAnimation == animation
      ensures invalidations == old(invalidations) + (if SetOrientationRedraws(old(State()), degree) then 1 else 0)
      ensures completions == old(completions)
    {
      enableAnimation := animation;
      var normalized := Normalize(degree);
      if normalized == targetDegree {
        return;
      }

      targetDegree := normalized;
      if enableAnimation {
        startDegree := currentDegree;
        animationStartTime := now;

        var diff := targetDegree - currentDegree;
        diff := if diff >= 0 then diff else 360 + diff;
        diff := if diff > 180 then diff - 360 else diff;

        clockwise := diff >= 0;
        animationEndTime := animationStartTime + Abs(diff) * 1000 / ANIMATION_SPEED;
      } else {
        currentDegree := targetDegree;
      }

      Invalidate();
    }

    /** The part of `onDraw` that moves the animation on, reading the clock as
        `now`; the drawing itself is not modelled. */
    method OnDraw(drawable: Drawable, now: int)
      requires Valid()
      modifies this
      ensures Valid()
      ensures !CanDraw(drawable) ==> State() == old(State())
      ensures CanDraw(drawable) ==> State() == Advance(old(State()), now)
      ensures invalidations == old(invalidations)
        + (if CanDraw(drawable) && AdvanceRedraws(old(State()), now) then 1 else 0)
      ensures completions == old(completions)
        + (if CanDraw(drawable) && AdvanceCompletes(old(State()), now) then 1 else 0)
    {
      if drawable == NoDrawable {
        return;
      }
      var bounds := drawable.bounds;
      var w := bounds.right - bounds.left;
      var h := bounds.bottom - bounds.top;
      if w == 0 || h == 0 {
        return;
      }

      if currentDegree != targetDegree {
        if now < animationEndTime {
          currentDegree := Interpolate(startDegree, clockwise, now - animationStartTime);
          Invalidate();
        } else {
          currentDegree := targetDegree;
          UpdateStateAfterAnimation();
        }
      }
    }
  }
}
