# First-person camera controller: cursor locking, selection and input map

This project models the first-person (FPS) camera controller of
smooth-bevy-cameras (`src/controllers/fps.rs`). It covers the parts of the
controller that decide things, and proves properties about them:

- **Selection.** The input map, the control system and start-up each act on
  the first camera that qualifies, in query order. The input map takes the first enabled camera. The control system takes the
  first enabled camera that also has a look transform. Start-up takes the
  first camera that is enabled and auto-hides the cursor.
- **Cursor locking.** The control system locks and releases the window
  cursor on the Alt keys. In `Trigger` mode a press releases the cursor and a
  release locks it again. In `Flip` mode every press flips the state. Each
  time the cursor locks, the camera gets a reset-next-frame marker.
- **Start-up.** `init` locks and hides the cursor and marks at most one camera.
- **The reset system.** It removes every marker.
- **The mode-change system.** A message with a target changes the toggle
  mode of the camera with that entity id. A message without one changes every
  enabled camera. Messages apply in the order they were sent.
- **The default input map.** When some camera is enabled, it sends one
  `Rotate` message per frame; otherwise it sends nothing. This message carries the frame's summed mouse motion only while the cursor is
  locked. It then sends one `TranslateEye` message per held movement key, in the
  order W, A, S, D, left Shift, Space.

Modules:

- `FpsTypes` (`fps_types.dfy`): values (cursor options, toggle modes, keys,
  integer vectors, cameras, messages).
- `Selection` (`selection.dfy`): which camera a system picks.
- `CursorLock` (`cursor_lock.dfy`): the cursor state machine as a pure function.
- `ModeMessages` (`mode_messages.dfy`): what a batch of mode messages does.
- `InputMap` (`input_map.dfy`): the default input map as a method with loops.
- `FpsWorld` (`fps_world.dfy`): the class `CameraWorld`. Its fields are the
  cursor, the cameras and the set of marked entities; its systems update them
  in place.

The ECS world is modelled like this:

- The cameras are a sequence in query order.
- Entity ids are unique naturals.
- The marker component is a set of entity ids.
- Deferred `Commands` (inserting or removing the marker) take effect at once,
  since no other step of the model reads the markers in between.

`control_system` queries only cameras that also have a `LookTransform`
(fps.rs:205). `ControlTarget` therefore asks for both, and
`ControlTargetIsInputTarget` shows that this picks the same camera as the
input map whenever every camera has one, as every camera spawned through
`FpsCameraBundle` has.

## Model

| member | source | states |
|---|---|---|
| FpsTypes.DefaultToggleMode | src/controllers/fps.rs:24-28 | the default toggle mode is `Trigger` |
| FpsTypes.DefaultCamera | src/controllers/fps.rs:105-116 | a camera built from a default controller keeps its id and sensitivities, is enabled, auto-hides, is in `Trigger` mode and (from the bundle, lines 68-88) has a look transform, so every system qualifies it |
| Selection.InputTarget | src/controllers/fps.rs:158-162 | the input map's camera is enabled and no earlier camera is; there is none exactly when no camera is enabled |
| Selection.ControlTarget | src/controllers/fps.rs:205-215 | the control system's camera is enabled and has a look transform, and no earlier camera is both; there is none exactly when no camera is both |
| Selection.InitTarget | src/controllers/fps.rs:140-146 | start-up's camera is enabled and auto-hides, and no earlier camera is both; there is none exactly when no camera is both |
| Selection.FirstMatch | src/controllers/fps.rs:158-162 | the index found qualifies and no earlier camera does; there is no index exactly when no camera qualifies |
| Selection.SelectedId | src/controllers/fps.rs:140-146 | the selected camera's id, or nothing when no camera is selected: at most one camera, and one that exists |
| Selection.ControlTargetIsInputTarget | src/controllers/fps.rs:211-215 | when every camera has a look transform, the control system and the input map act on the same camera |
| Selection.InitTargetFollowsInputTarget | src/controllers/fps.rs:140-146 | start-up marks nothing exactly when no camera is enabled and auto-hiding; it never marks a camera before the input map's one; it marks that one whenever it auto-hides |
| Selection.DefaultCamerasSelectFirst | src/controllers/fps.rs:24-116 | with default controllers, all three systems pick the first camera, whose toggle mode is `Trigger` |
| CursorLock.CursorStep | src/controllers/fps.rs:218-251 | without auto-hide or without an Alt event nothing changes; the cursor ends unchanged, released or locked-and-hidden; a marker is set only together with locking, and every move into the locked state sets one |
| CursorLock.StepPreservesConsistent | src/controllers/fps.rs:218-251 | "visible exactly when not locked" is kept by every step |
| CursorLock.TriggerPressReleases | src/controllers/fps.rs:221-224 | Trigger mode: a press releases and shows the cursor, even with a release in the same frame |
| CursorLock.TriggerReleaseLocks | src/controllers/fps.rs:225-232 | Trigger mode: a release without a press locks, hides and marks |
| CursorLock.FlipPressToggles | src/controllers/fps.rs:235-247 | Flip mode: a press flips locked and released, and marks exactly when it locks |
| CursorLock.FlipIgnoresRelease | src/controllers/fps.rs:235-248 | Flip mode: a release alone changes nothing |
| CursorLock.FlipTwiceRestores | src/controllers/fps.rs:235-248 | Flip mode: exactly one of two presses marks, and the two restore the cursor exactly when it started coherent and not merely confined |
| CursorLock.DefaultCameraPressThenRelease | src/controllers/fps.rs:105-116 | a default controller releases on an Alt press and locks and marks again on the release |
| ModeMessages.IndexOfId | src/controllers/fps.rs:289 | the lookup finds the camera with that id, or reports that there is none |
| ModeMessages.ApplyMessage | src/controllers/fps.rs:285-298 | only toggle modes change; with unique ids a camera gets the message's mode exactly when the message addresses it |
| ModeMessages.ApplyMessages | src/controllers/fps.rs:282-301 | a batch changes nothing but toggle modes |
| ModeMessages.SameExceptModeKeepsIds | src/controllers/fps.rs:282-301 | changing modes keeps the ids, so it keeps them unique |
| ModeMessages.LastMessageWins | src/controllers/fps.rs:282-301 | after a batch every camera has the mode of the last message addressing it, or its old mode |
| ModeMessages.UnknownTargetIgnored | src/controllers/fps.rs:286-290 | a target id that names no camera changes nothing |
| ModeMessages.TargetedMessageEffect | src/controllers/fps.rs:286-290 | a targeted message changes that camera's mode and no other camera |
| ModeMessages.UntargetedLastWins | src/controllers/fps.rs:291-297 | an untargeted message at the end of a batch leaves every enabled camera in its mode and leaves every disabled camera as the earlier messages left it |
| InputMap.MoveKeysTable | src/controllers/fps.rs:185-192 | the key table checks W, A, S, D, left Shift, Space in that order; each axis is a unit axis, and W/S, A/D, Shift/Space move along opposite axes |
| InputMap.SumMotion | src/controllers/fps.rs:173-179 | a single delta sums to itself; with no motion, or only zero deltas, the sum is zero |
| InputMap.SumMotionAppend | src/controllers/fps.rs:173-179 | the sum of a concatenation of motions is the sum of the two sums, so every delta counts once |
| InputMap.RotateDelta | src/controllers/fps.rs:165-183 | the rotation is zero unless the cursor is locked, and otherwise the rotate sensitivity times the summed motion, component by component |
| InputMap.Translations | src/controllers/fps.rs:185-199 | at most one message per table entry, and every one a translation |
| InputMap.EyeTotalTranslations | src/controllers/fps.rs:185-199 | the translations sum to the sensitivity times the axes of the held keys |
| InputMap.NetTranslation | src/controllers/fps.rs:185-199 | the translations sum to the sensitivity times the net direction; opposite keys cancel |
| InputMap.NoHeldKeyNoTranslation | src/controllers/fps.rs:185-199 | no translation is sent exactly when no movement key is held |
| InputMap.TranslationsEndWithHeldKey | src/controllers/fps.rs:185-199 | a held key's translation is its axis times the sensitivity and comes after those of every earlier key |
| InputMap.TranslationsSkipUnheldKey | src/controllers/fps.rs:195-197 | a key that is not held adds no translation |
| InputMap.DefaultInputMap | src/controllers/fps.rs:150-200 | nothing without an enabled camera; otherwise one rotation first, with the summed motion only while locked, then the translations in table order |
| FpsWorld.CameraWorld.Init | src/controllers/fps.rs:130-148 | the cursor ends locked and hidden; exactly the start-up camera, if any, gains a marker |
| FpsWorld.CameraWorld.ControlCursor | src/controllers/fps.rs:218-251 | cursor and markers change as `CursorStep` says for the control system's camera, and not at all without one; consistency is kept |
| FpsWorld.CameraWorld.ChangeCursorMode | src/controllers/fps.rs:282-301 | the cameras become `ApplyMessages` of the batch; cursor and markers stay |
| FpsWorld.CameraWorld.ResetCursor | src/controllers/fps.rs:304-318 | every marker is removed; nothing else changes |

## Left out

- The look and movement math of `control_system` (lines 253-278) is left out: it is floating-point quaternion and angle arithmetic.
- `LookAngles`, `LookTransform` and `Smoother` are not part of this model.
- The window cursor's re-centring in the reset system (lines 310-313) is left out: it is window I/O.
- Plugin registration, system scheduling and bundle construction (lines 39-89) are left out: they are engine wiring.
- Sensitivities and vectors are integers. The float defaults (0.2, 2.0, 0.9) are therefore left out, and the model does not capture float rounding.
- `on_controller_enabled_changed` is defined by a macro that is not part of this model.
- DefaultInputMap: the mouse-motion reader drains its events only while the cursor is locked, and keeps them unread otherwise. The model takes the frame's motions as a parameter and does not model the reader's unread events.
- Deferred `Commands` are applied at once. The model does not capture the end-of-stage order in which the engine applies them.
- Engine query order is taken to be sequence order.
- `init`, `control_system` and `default_input_map` take the cursor options as a `Single`, so the engine skips them unless exactly one cursor exists. The model always has exactly one cursor record and does not capture the skipped case.
- The `simple_look_transform.rs` example program is left out: it is not part of the controller.
