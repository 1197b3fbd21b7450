# Camera2Basic rotation animator and sound-clip player, in Dafny

This project models two pieces of the camera application's on-screen widgets.

- **The orientation animator of `RotateImageView`.** `setOrientation(degree, animation)` normalises the requested angle. A request for the angle already targeted returns early. Otherwise the call either starts a timed transition along the shortest path, at 270 degrees per second, or snaps to the new angle. The top of `onDraw` is the per-frame step: it either interpolates the drawn angle from the elapsed time and asks for another frame, or settles on the target and calls the `updateStateAfterAnimation()` hook. `camera2basic/RotateImageView.java` and `camera2basic/ui/RotateImageView.java` carry the same animator code, line for line. One model stands for both.
- **`SoundClips.SoundPoolPlayer`.** It keeps nine sound slots, each with a pool id and a ready flag, plus one pending id. `play(action)` either reloads the slot and defers, defers, or plays at once. `onLoadComplete` finds the first slot holding the reported id and updates it, and plays the pending sound when it is the one that finished loading. `release()` drops the pool once.

Files:

- `JavaInt.dfy`: Java `int` arithmetic over unbounded integers. It covers truncating `%` and `/` (`JavaRem`, `JavaDiv`) and the 32-bit wrap-around of the `(int)` cast, negation and multiplication (`Int32`).
- `Rotation.dfy`: the animator's fields as a value (`Animator`). It defines the angle arithmetic and the two transitions, `SetOrientation` and `Advance`, plus the reachable-state invariant `Inv`.
- `RotationProps.dfy`: lemmas about those transitions.
- `RotateView.dfy`: the class `RotateImageView`, whose methods update the fields in place. Each method is proved to agree with the transition functions. The clock is a parameter `now`. Calls to `invalidate()` and to the hook are counted in ghost fields.
- `SoundClips.dfy`: the player's state as a value (`PlayerState`) and its transitions. It also holds an abstract `SoundPool` (`load` hands out the fresh non-zero ids 1, 2, 3, …; `play` appends to a ghost log) and the class `SoundPoolPlayer` over two arrays.
- `SoundClipsProps.dfy`: lemmas about the player's transitions.

Where the code and its own comments disagree, the model follows the code:

- The comments at RotateImageView.java:48 and :104 say the angles lie in [0, 359]. The normalisation `degree >= 0 ? degree % 360 : degree % 360 + 360` does not keep that promise: with Java's truncating `%`, a negative multiple of 360 gives 360. So on any view whose target is 0, `setOrientation(-360, …)` does not take the early return, with either flag: it sets the target to 360 and requests a redraw (`RotationProps.NegativeFullTurnOnZeroTarget`). On a view resting at 0, `setOrientation(-360, true)` starts a zero-length transition that the next frame settles at 360, and with animation off the angle snaps to 360 at once (`RotationProps.NegativeFullTurn`). Angles therefore lie in [0, 360], not [0, 359].
- A raw difference of 190 degrees is folded to -170, and the duration is `170 * 1000 / 270`, which is 629 ms in Java integer division (`RotationProps.ShortestPathScenarios`).

## Model

| member | source | states |
|---|---|---|
| `JavaInt.Int32` | Application/src/main/java/com/example/android/camera2basic/RotateImageView.java:159 | the `(int)` narrowing and 32-bit wrap-around: the result is a Java `int`, congruent to the exact value modulo 2^32, and equal to it when it fits |
| `JavaInt.JavaRem` | Application/src/main/java/com/example/android/camera2basic/RotateImageView.java:105 | Java `%` by a positive divisor: abs(r) < b, the sign follows the dividend, and a - r is a multiple of b |
| `JavaInt.JavaDiv` | Application/src/main/java/com/example/android/camera2basic/RotateImageView.java:160-161 | Java `/` by a positive divisor rounds toward zero: `q*b + a%b == a`, and q*b lies between 0 and a |
| `JavaInt.JavaDivNegate` | Application/src/main/java/com/example/android/camera2basic/RotateImageView.java:160-161 | negating the dividend negates the truncated quotient, which makes the counter-clockwise interpolation the mirror of the clockwise one |
| `Rotation.Normalize` | Application/src/main/java/com/example/android/camera2basic/RotateImageView.java:105 | the normalised angle is congruent to the input modulo 360 and lies in [0, 360]; it is 360 exactly when the input is a negative multiple of 360 |
| `Rotation.ShortestDiff` | Application/src/main/java/com/example/android/camera2basic/RotateImageView.java:115-120 | for angles in [0, 360] the signed difference lies in [-179, 180] and turning the current angle by it reaches the target modulo 360 (also when either angle is 360) |
| `Rotation.Duration` | Application/src/main/java/com/example/android/camera2basic/RotateImageView.java:123-124 | the transition length is `abs(diff)*1000/270` rounded down: at most 666 ms, and the largest whole number of milliseconds the rotation fits into at 270 degrees per second |
| `JavaInt.DiffWrapsToZero` | Application/src/main/java/com/example/android/camera2basic/ui/RotateImageView.java:148-151 | the wrapping `int` difference of two `int`s is 0 exactly when they are equal |
| `Rotation.Initial` | Application/src/main/java/com/example/android/camera2basic/ui/RotateImageView.java:48-56 | the field initialisers give a settled view at angle 0 with animation on, empty window, and the invariant holds |
| `Rotation.Inv` | Application/src/main/java/com/example/android/camera2basic/ui/RotateImageView.java:110-124 | the invariant the transitions keep; under it a transition window lasts at most 666 ms |
| `Rotation.SetOrientationRedraws` | Application/src/main/java/com/example/android/camera2basic/ui/RotateImageView.java:106-108 | `invalidate()` is called exactly when the request changes the target, whatever the flag and clock; otherwise only the animation flag is written |
| `Rotation.AdvanceRedraws` | Application/src/main/java/com/example/android/camera2basic/ui/RotateImageView.java:158-164 | a frame asks for another only during a transition, and never in the frame that calls the hook |
| `Rotation.AdvanceCompletes` | Application/src/main/java/com/example/android/camera2basic/ui/RotateImageView.java:165-167 | during a transition every frame either asks for another or calls the hook, and a frame that calls the hook leaves the view settled |
| `RotateView.CanDraw` | Application/src/main/java/com/example/android/camera2basic/ui/RotateImageView.java:134-154 | the two early returns of `onDraw`; for `int` bounds the test with unbounded subtraction agrees with Java's wrapping one |
| `Rotation.Interpolate` | Application/src/main/java/com/example/android/camera2basic/RotateImageView.java:159-162 | for a start angle in [0, 360] the interpolated angle lies in [0, 360] for every clock reading, wrap-around included |
| `Rotation.SetOrientation` | Application/src/main/java/com/example/android/camera2basic/RotateImageView.java:101-130 | `setOrientation` preserves the invariant: angles in [0, 360], start time <= end time, and during a transition the direction and length are those of the shortest path from the start angle |
| `Rotation.Advance` | Application/src/main/java/com/example/android/camera2basic/RotateImageView.java:156-169 | the per-frame step preserves the same invariant |
| `RotationProps.ShortestDiffIsShortest` | Application/src/main/java/com/example/android/camera2basic/RotateImageView.java:115-122 | no rotation that reaches the target is shorter than the computed difference; when two are equally short (180 degrees), the computed one is +180, i.e. clockwise |
| `RotationProps.ShortestDiffUnique` | Application/src/main/java/com/example/android/camera2basic/RotateImageView.java:118-120 | the computed difference is the only rotation in [-179, 180] that reaches the target |
| `RotationProps.SetOrientationSameTarget` | Application/src/main/java/com/example/android/camera2basic/RotateImageView.java:103-108 | a request whose normalised angle equals the target changes no angle or time and requests no redraw; it still overwrites the animation flag |
| `RotationProps.SetOrientationTwice` | Application/src/main/java/com/example/android/camera2basic/ui/RotateImageView.java:103-110 | after any request the target is the normalised angle, and repeating the same request is a no-op with no redraw |
| `RotationProps.AnimatedRequest` | Application/src/main/java/com/example/android/camera2basic/RotateImageView.java:110-124 | an animated request for a new angle: the start angle is the live current angle (no jump), the start time is now, the diff lies in [-179, 180] and reaches the target, clockwise iff diff >= 0, the window lasts `abs(diff)*1000/270` ms (at most 666), and one redraw is requested |
| `RotationProps.ImmediateRequest` | Application/src/main/java/com/example/android/camera2basic/ui/RotateImageView.java:125-129 | a request without animation sets the current angle to the new target at once, leaves start angle and times alone, and requests one redraw |
| `RotationProps.InterpolateNoWrap` | Application/src/main/java/com/example/android/camera2basic/RotateImageView.java:159-162 | inside a window (0 to 666 ms) no Java `int` operation wraps, and the angle is `normalise(start ± 270*elapsed/1000)` |
| `RotationProps.TravelMonotone` | Application/src/main/java/com/example/android/camera2basic/RotateImageView.java:160-161 | the number of degrees covered never decreases as time goes on |
| `RotationProps.TravelShort` | Application/src/main/java/com/example/android/camera2basic/RotateImageView.java:123-124 | before the end time, the degrees covered are strictly fewer than abs(diff) |
| `RotationProps.ShortOfTarget` | Application/src/main/java/com/example/android/camera2basic/RotateImageView.java:160-163 | turning along the shortest path by fewer degrees than its length never lands on the target |
| `RotationProps.AdvanceInWindow` | Application/src/main/java/com/example/android/camera2basic/RotateImageView.java:156-164 | a frame inside [start time, end time) puts the angle k degrees from the start in the chosen direction with 0 <= k < abs(diff), never on the target, changes nothing else, and asks for another frame |
| `RotationProps.AdvanceAtEnd` | Application/src/main/java/com/example/android/camera2basic/RotateImageView.java:165-168 | a frame at or after the end time sets the current angle to the target, settles, and calls the completion hook |
| `RotationProps.SettledIsFixed` | Application/src/main/java/com/example/android/camera2basic/ui/RotateImageView.java:156 | once settled, frames change nothing, request no redraw and do not call the hook |
| `RotationProps.CompletesOnce` | Application/src/main/java/com/example/android/camera2basic/ui/RotateImageView.java:156-168 | after the frame that calls the hook, no later frame calls it again: the hook runs once per transition |
| `RotationProps.AdvanceFramesMonotone` | Application/src/main/java/com/example/android/camera2basic/ui/RotateImageView.java:158-164 | frames do not accumulate error: the angle at t2 does not depend on a frame drawn at an earlier t1, and the distance from the start angle grows with time |
| `RotationProps.AdvanceForgetsCurrent` | Application/src/main/java/com/example/android/camera2basic/ui/RotateImageView.java:158-162 | inside the window a frame's angle is computed from the start angle, direction and start time alone, whatever angle was drawn before |
| `RotationProps.SettledFrames` | Application/src/main/java/com/example/android/camera2basic/ui/RotateImageView.java:156 | any run of frames on a settled view changes nothing and calls the hook zero times |
| `RotationProps.TransitionHookCalls` | Application/src/main/java/com/example/android/camera2basic/ui/RotateImageView.java:156-168 | over any run of frames drawn after a transition starts, in any order and spacing, the hook is called exactly once if some frame comes at or after the end time, and zero times otherwise |
| `RotationProps.TransitionReachesTarget` | Application/src/main/java/com/example/android/camera2basic/ui/RotateImageView.java:165-167 | if some frame of the run comes at or after the end time, the run ends with the angle on the target and every other field unchanged |
| `RotationProps.TransitionFallsShort` | Application/src/main/java/com/example/android/camera2basic/ui/RotateImageView.java:158-164 | if no frame reaches the end time, the run ends in the state the last frame alone would produce, still short of the target |
| `RotationProps.QuarterTurnScenario` | Application/src/main/java/com/example/android/camera2basic/ui/RotateImageView.java:115-124 | from the initial state, 0 -> 270 turns counter-clockwise over 333 ms; at 100 ms the angle is 333, and at 333 ms it is 270 and the hook fires |
| `RotationProps.ShortestPathScenarios` | Application/src/main/java/com/example/android/camera2basic/RotateImageView.java:115-124 | 0 -> 190 goes counter-clockwise over 629 ms; 0 -> 180 and 0 -> -180 go clockwise, over 666 ms |
| `RotationProps.NegativeFullTurn` | Application/src/main/java/com/example/android/camera2basic/RotateImageView.java:105-127 | on a view resting at 0, `setOrientation(-360, true)` is not taken as a repeat: the target becomes 360, a redraw is requested, and the zero-length transition settles at 360 on the next frame; with animation off the angle snaps to 360 |
| `RotationProps.NegativeFullTurnOnZeroTarget` | Application/src/main/java/com/example/android/camera2basic/RotateImageView.java:105-129 | on any view whose target is 0, with either flag, `setOrientation(-360)` skips the early return, sets the target to 360 and requests a redraw; without animation the angle snaps to 360, with it a transition from the drawn angle starts now |
| `RotateView.RotateImageView.constructor` | Application/src/main/java/com/example/android/camera2basic/RotateImageView.java:48-56 | initial state: all three degrees 0, not clockwise, animation enabled, both times 0, no redraw or hook call yet |
| `RotateView.RotateImageView.GetDegree` | Application/src/main/java/com/example/android/camera2basic/RotateImageView.java:83-85 | `getDegree()` returns the target angle, not the angle being drawn |
| `RotateView.RotateImageView.SetOrientation` | Application/src/main/java/com/example/android/camera2basic/RotateImageView.java:101-130 | the in-place `setOrientation` leaves the fields equal to `Rotation.SetOrientation` of the old ones, keeps the invariant, and calls `invalidate()` exactly once when the target changes, never otherwise |
| `RotateView.RotateImageView.OnDraw` | Application/src/main/java/com/example/android/camera2basic/RotateImageView.java:133-169 | with no drawable or zero-width/height bounds nothing changes; otherwise the fields become `Rotation.Advance` of the old ones, with one `invalidate()` during a transition and one hook call when it ends |
| `RotateView.RotateImageView.Invalidate` | Application/src/main/java/com/example/android/camera2basic/RotateImageView.java:164 | a redraw request changes no animator field and is counted once |
| `RotateView.RotateImageView.UpdateStateAfterAnimation` | Application/src/main/java/com/example/android/camera2basic/ui/RotateImageView.java:232-234 | the completion hook changes no animator field and is counted once |
| `SoundClips.FirstMatch` | Application/src/main/java/com/example/android/camera2basic/sound/SoundClips.java:99-104 | the linear search with `break` finds the first slot holding the id: every earlier slot differs, and the result is the table length when no slot matches |
| `SoundClips.Branch` | Application/src/main/java/com/example/android/camera2basic/sound/SoundClips.java:132-147 | the branch of `play`: out of range exactly when the action is not 0..8; defer exactly when the slot has an id that is not ready; a NullPointerException exactly when the pool is released and the slot is unloaded or ready |
| `SoundClips.PlayedByPlay` | Application/src/main/java/com/example/android/camera2basic/sound/SoundClips.java:145-146 | `play` plays at most one id, exactly on the play-now branch, and it is the slot's non-zero id |
| `SoundClips.PlayedByLoadComplete` | Application/src/main/java/com/example/android/camera2basic/sound/SoundClips.java:115-117 | `onLoadComplete` plays at most the reported id, exactly when the load succeeded, the id is the pending one and the pool is live |
| `SoundClips.LoadCompleteThrows` | Application/src/main/java/com/example/android/camera2basic/sound/SoundClips.java:115-117 | when `onLoadComplete` reaches the released pool it plays nothing, but the pending id is already cleared |
| `SoundClips.AfterRelease` | Application/src/main/java/com/example/android/camera2basic/sound/SoundClips.java:121-128 | `release` drops only the pool reference, and afterwards no `play` reaches the pool |
| `SoundClips.AfterPlay` | Application/src/main/java/com/example/android/camera2basic/sound/SoundClips.java:130-148 | `play` keeps nine slots and does not touch the pool reference |
| `SoundClips.AfterLoadComplete` | Application/src/main/java/com/example/android/camera2basic/sound/SoundClips.java:95-119 | `onLoadComplete` keeps nine slots and does not touch the pool reference |
| `SoundClips.SoundPool.Load` | Application/src/main/java/com/example/android/camera2basic/sound/SoundClips.java:90 | the abstract pool's `load` returns a fresh non-zero id, larger than every id issued before, and logs the resource |
| `SoundClips.SoundPool.Play` | Application/src/main/java/com/example/android/camera2basic/sound/SoundClips.java:117 | the abstract pool's `play` appends the id to the play log |
| `SoundClips.SoundPool.Release` | Application/src/main/java/com/example/android/camera2basic/sound/SoundClips.java:125 | the abstract pool's `release` marks it released |
| `SoundClips.SoundPoolPlayer.constructor` | Application/src/main/java/com/example/android/camera2basic/sound/SoundClips.java:73-93 | after construction the pool has loaded the nine clips in order, slot i holds the id its load returned, no slot is ready, and the pending id is `ID_NOT_LOADED` (0) |
| `SoundClips.SoundPoolPlayer.Play` | Application/src/main/java/com/example/android/camera2basic/sound/SoundClips.java:130-148 | the in-place `play` leaves the fields equal to `AfterPlay` of the old ones, with one new load exactly on the reload branch, plays exactly on the play-now branch, keeps ids fresh and distinct, and reports the NullPointerException of a call after `release()` |
| `SoundClips.SoundPoolPlayer.OnLoadComplete` | Application/src/main/java/com/example/android/camera2basic/sound/SoundClips.java:95-119 | the in-place `onLoadComplete` with its two searches leaves the fields equal to `AfterLoadComplete` of the old ones, plays exactly the pending id when it completes, and reports the NullPointerException of that play after `release()` |
| `SoundClips.SoundPoolPlayer.ClearFirstMatch` | Application/src/main/java/com/example/android/camera2basic/sound/SoundClips.java:99-104 | the loop with `break` of a failed load sets the first slot holding the id to 0 and leaves every other slot as it was; with no match the table is unchanged |
| `SoundClips.SoundPoolPlayer.MarkFirstMatchReady` | Application/src/main/java/com/example/android/camera2basic/sound/SoundClips.java:108-113 | the loop with `break` of a successful load marks the first slot holding the id ready and leaves every other flag as it was; with no match the flags are unchanged |
| `SoundClips.SoundPoolPlayer.Release` | Application/src/main/java/com/example/android/camera2basic/sound/SoundClips.java:121-128 | `release` leaves the pool released and the reference null; a second call changes nothing |
| `SoundClipsProps.PlayOutOfRange` | Application/src/main/java/com/example/android/camera2basic/sound/SoundClips.java:132-135 | an action below 0 or at least 9 changes no state and plays nothing |
| `SoundClipsProps.PlayNullPool` | Application/src/main/java/com/example/android/camera2basic/sound/SoundClips.java:137-146 | after `release()`, a `play` that would reach the pool throws before changing anything: the state is unchanged and nothing plays |
| `SoundClipsProps.PlayUnloaded` | Application/src/main/java/com/example/android/camera2basic/sound/SoundClips.java:137-141 | on a slot whose id is 0, `play` reloads the slot, makes the new id pending, and plays nothing |
| `SoundClipsProps.PlayLoading` | Application/src/main/java/com/example/android/camera2basic/sound/SoundClips.java:142-144 | on a loaded slot that is not ready, `play` makes that id pending without playing; of two such calls the later one wins |
| `SoundClipsProps.PlayReady` | Application/src/main/java/com/example/android/camera2basic/sound/SoundClips.java:145-147 | on a ready slot, `play` plays its id at once and changes no slot and not the pending id |
| `SoundClipsProps.LoadFailed` | Application/src/main/java/com/example/android/camera2basic/sound/SoundClips.java:97-106 | a failed load resets only the first slot holding the id to 0; ready flags and the pending id stay, and nothing plays |
| `SoundClipsProps.LoadSucceeded` | Application/src/main/java/com/example/android/camera2basic/sound/SoundClips.java:108-118 | a successful load marks only the first matching slot ready and clears the pending id when it matches, whether or not the pool was released; on a live pool exactly that id plays when it was pending, otherwise nothing plays |
| `SoundClipsProps.UniqueMatch` | Application/src/main/java/com/example/android/camera2basic/sound/SoundClips.java:108-113 | with distinct ids, the first slot holding a non-zero id is the only one |
| `SoundClipsProps.PlayKeepsFresh` | Application/src/main/java/com/example/android/camera2basic/sound/SoundClips.java:137-141 | `play` keeps every id issued by the pool and the non-zero ids pairwise distinct |
| `SoundClipsProps.LoadCompleteKeepsFresh` | Application/src/main/java/com/example/android/camera2basic/sound/SoundClips.java:97-118 | `onLoadComplete` keeps every id issued by the pool and the non-zero ids pairwise distinct |
| `SoundClipsProps.DeferredPlayFires` | Application/src/main/java/com/example/android/camera2basic/sound/SoundClips.java:115-118 | a sound deferred by `play` is played when its load completes: that completion marks its slot ready, clears the pending id and plays exactly that id |
| `SoundClipsProps.FailedLoadReloads` | Application/src/main/java/com/example/android/camera2basic/sound/SoundClips.java:99-104 | after the load of a slot's id fails, that slot's id is 0 and the next `play` of it reloads |
| `SoundClipsProps.ReleaseIdempotent` | Application/src/main/java/com/example/android/camera2basic/sound/SoundClips.java:122-128 | releasing twice is releasing once, and afterwards the pool is gone |

## Left out

- Canvas work in `onDraw` is not modelled: the downscaling by a float ratio, the translate and rotate calls, and the drawing itself. It is Android graphics with floating point.
- The pre-Android-N bitmap snapshot cache (`mDrawableBitmap`) is not modelled. It can still decide whether the animator advances: it may call `setBounds(0, 0, width, height)` with the drawable's intrinsic size (RotateImageView.java:144), and a drawable with empty bounds then passes the zero-size check. `OnDraw` takes as its `Drawable` the bounds read at line 147, after that call; what the call itself does is not modelled.
- `cleanResource` is not modelled. It recycles a Bitmap and does not touch the animator.
- The thumbnail operations of camera2basic/RotateImageView.java are not modelled: `setBitmap`, `setThumbnailBitmap`, `initThumbnailView`, `initCropImageBitmap`, `setCropImageBitmapBg` and `setFlag`. They are Bitmap, ThumbnailUtils and PorterDuff calls on resources outside the model.
- `drawableStateChanged`, `setUpdateAlphaFlag` and `setImageViewPressBg` are not modelled. They set float alpha and background drawables from the View's press state.
- ShutterButton.java is not part of this model. It is listener delegation and `post()` deferral on the UI message queue. Its `updateStateAfterAnimation` override appears here only as the hook counter.
- TwoStateImageView.java is not part of this model. It only sets a float alpha.
- The clock (`AnimationUtils.currentAnimationTimeMillis`) is the parameter `now`. `invalidate()` is a ghost counter. `Log` calls are dropped.
- Java `long` time stamps are unbounded integers in the model; overflow of the millisecond clock is not modelled.
- `SoundPool` and `AudioAttributes` are abstracted. `load` returns consecutive ids starting at 1, which is one choice of fresh non-zero ids. The real pool's asynchronous loading is represented only by the `onLoadComplete` calls it makes.
- The `synchronized` methods and the loader's callback thread are not modelled; the model is sequential.
- The Context and the raw resource ids are not modelled. Resources are the nine `Clip` values of `SOUND_RES`.
