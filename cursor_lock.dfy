/** The cursor-locking state machine of the control system, as a function of
    the selected controller's settings, the current cursor options and the
    frame's two Alt events. */
module CursorLock {
  import opened FpsTypes

  /** The new cursor options, and whether the selected camera is marked so
      that the cursor is re-centred on the next frame. */
  datatype CursorOutcome = CursorOutcome(cursor: CursorOptions, mark: bool)

  /** One frame of the cursor branch. `altPressed` and `altReleased` say
      whether either Alt key went down, or came up, this frame. */
  function CursorStep(autoHide: bool, mode: CursorToggleMode, cursor: CursorOptions,
                      altPressed: bool, altReleased: bool): (r: CursorOutcome)
    // a controller that does not auto-hide never touches the cursor
    ensures !autoHide ==> r == CursorOutcome(cursor, false)
    // the cursor either stays as it was or lands in one of the two coherent states
    ensures r.cursor == cursor || r.cursor == Released || r.cursor == LockedHidden
    // a marker is set only together with locking, and every move into Locked sets one
    ensures r.mark ==> r.cursor == LockedHidden
    ensures cursor.grabMode != Locked && r.cursor.grabMode == Locked ==> r.mark
    // without any Alt event nothing happens
    ensures !altPressed && !altReleased ==> r == CursorOutcome(cursor, false)
  {
    if !autoHide then CursorOutcome(cursor, false)
    else match mode
      case Trigger =>
        if altPressed then CursorOutcome(Released, false)
        else if altReleased then CursorOutcome(LockedHidden, true)
        else CursorOutcome(cursor, false)
      case Flip =>
        if altPressed then
          if cursor.grabMode == Locked then CursorOutcome(Released, false)
          else CursorOutcome(LockedHidden, true)
        else CursorOutcome(cursor, false)
  }

  /** Each step keeps "visible exactly when not locked". */
  lemma StepPreservesConsistent(autoHide: bool, mode: CursorToggleMode, cursor: CursorOptions,
                                altPressed: bool, altReleased: bool)
    requires Consistent(cursor)
    ensures Consistent(CursorStep(autoHide, mode, cursor, altPressed, altReleased).cursor)
  {
  }

  /** Trigger mode: a press releases the cursor whatever its state, and wins
      over a release in the same frame. */
  lemma TriggerPressReleases(cursor: CursorOptions, altReleased: bool)
    ensures CursorStep(true, Trigger, cursor, true, altReleased) == CursorOutcome(Released, false)
  {
  }

  /** Trigger mode: a release without a press locks and hides the cursor
      and marks the camera. */
  lemma TriggerReleaseLocks(cursor: CursorOptions)
    ensures CursorStep(true, Trigger, cursor, false, true) == CursorOutcome(LockedHidden, true)
  {
  }

  /** Flip mode: a press flips between locked and released, and marks the
      camera exactly when it locks. */
  lemma FlipPressToggles(cursor: CursorOptions, altReleased: bool)
    ensures var r := CursorStep(true, Flip, cursor, true, altReleased);
            (r.cursor.grabMode == Locked <==> cursor.grabMode != Locked) &&
            r.cursor.visible == (cursor.grabMode == Locked) &&
            (r.mark <==> cursor.grabMode != Locked)
  {
  }

  /** Flip mode: a release alone is ignored. */
  lemma FlipIgnoresRelease(cursor: CursorOptions, altReleased: bool)
    ensures CursorStep(true, Flip, cursor, false, altReleased) == CursorOutcome(cursor, false)
  {
  }

  /** Flip mode: of two presses in a row exactly one marks the camera, and
      they bring the cursor back to where it was exactly when it started
      coherent and not merely confined. */
  lemma FlipTwiceRestores(cursor: CursorOptions, release1: bool, release2: bool)
    ensures var r1 := CursorStep(true, Flip, cursor, true, release1);
            var r2 := CursorStep(true, Flip, r1.cursor, true, release2);
            (r2.cursor == cursor <==> Consistent(cursor) && cursor.grabMode != Confined) &&
            r1.mark != r2.mark
  {
  }

  /** A default controller (auto-hiding, Trigger mode) releases the cursor
      on an Alt press and relocks it on the release. */
  lemma DefaultCameraPressThenRelease(cam: Camera, cursor: CursorOptions)
    requires cam == DefaultCamera(cam.id, cam.rotateSensitivity, cam.translateSensitivity)
    ensures var r1 := CursorStep(cam.autoHideCursor, cam.mode, cursor, true, false);
            var r2 := CursorStep(cam.autoHideCursor, cam.mode, r1.cursor, false, true);
            r1 == CursorOutcome(Released, false) && r2 == CursorOutcome(LockedHidden, true)
  {
  }
}
