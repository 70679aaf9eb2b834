/** The state the controller's systems change from frame to frame: the
    window's cursor options, the camera entities with their controllers, and
    the set of cameras marked for a cursor reset on the next frame. */
module FpsWorld {
  import opened FpsTypes
  import opened Selection
  import opened CursorLock
  import opened ModeMessages

  class CameraWorld {
    var cursor: CursorOptions
    var cameras: seq<Camera>
    /** The entities that carry the reset-next-frame marker. */
    var markers: set<EntityId>

    /** Every entity id is unique and only camera entities carry a marker. */
    ghost predicate Valid()
      reads this
    {
      UniqueIds(cameras) && markers <= IdsOf(cameras)
    }

    constructor (cams: seq<Camera>, initialCursor: CursorOptions)
      requires UniqueIds(cams)
      ensures Valid()
      ensures cameras == cams && cursor == initialCursor && markers == {}
    {
      cameras := cams;
      cursor := initialCursor;
      markers := {};
    }

    /** Start-up: lock and hide the cursor, then mark the first camera that
        is enabled and auto-hides, if there is one, and no other. */
    method Init()
      requires Valid()
      modifies this
      ensures Valid()
      ensures cursor == LockedHidden
      ensures cameras == old(cameras)
      ensures markers == old(markers) + SelectedId(cameras, InitTarget(cameras))
    {
      cursor := cursor.(grabMode := Locked);
      cursor := cursor.(visible := false);
      var i := 0;
      while i < |cameras|
        invariant 0 <= i <= |cameras|
        invariant forall j :: 0 <= j < i ==> !(cameras[j].enabled && cameras[j].autoHideCursor)
        invariant cursor == LockedHidden
        invariant cameras == old(cameras) && markers == old(markers)
      {
        var c := cameras[i];
        if c.enabled && c.autoHideCursor {
          cursor := cursor.(visible := false);
          cursor := cursor.(grabMode := Locked);
          assert c in cameras;
          markers := markers + {c.id};
          return;
        }
        i := i + 1;
      }
    }

    /** The cursor branch of the control system: on the selected camera, as
        `CursorStep` describes it; with no selected camera nothing changes. */
    method ControlCursor(keys: KeyInput)
      requires Valid()
      modifies this
      ensures Valid()
      ensures cameras == old(cameras)
      ensures ControlTarget(cameras).None? ==> cursor == old(cursor) && markers == old(markers)
      ensures ControlTarget(cameras).Some? ==>
                var c := cameras[ControlTarget(cameras).value];
                var r := CursorStep(c.autoHideCursor, c.mode, old(cursor),
                                    AltJustPressed(keys), AltJustReleased(keys));
                cursor == r.cursor && markers == old(markers) + (if r.mark then {c.id} else {})
      ensures old(Consistent(cursor)) ==> Consistent(cursor)
    {
      var selected := ControlTarget(cameras);
      if selected.None? {
        return;
      }
      var c := cameras[selected.value];
      assert c in cameras;
      var pressed := AltJustPressed(keys);
      var released := AltJustReleased(keys);
      if c.autoHideCursor {
        match c.mode {
          case Trigger =>
            if pressed {
              cursor := cursor.(grabMode := NoGrab);
              cursor := cursor.(visible := true);
            } else if released {
              cursor := cursor.(grabMode := Locked);
              cursor := cursor.(visible := false);
              markers := markers + {c.id};
            }
          case Flip =>
            if pressed {
              if cursor.grabMode == Locked {
                cursor := cursor.(grabMode := NoGrab);
                cursor := cursor.(visible := true);
              } else {
                cursor := cursor.(grabMode := Locked);
                cursor := cursor.(visible := false);
                markers := markers + {c.id};
              }
            }
        }
      }
    }

    /** The mode-change system: the messages in the order they were sent, a
        targeted one on the camera with that id, an untargeted one on every
        enabled camera. */
    method ChangeCursorMode(msgs: seq<ChangeCursorModeMessage>)
      requires Valid()
      modifies this
      ensures Valid()
      ensures cameras == ApplyMessages(old(cameras), msgs)
      ensures cursor == old(cursor) && markers == old(markers)
    {
      var k := 0;
      while k < |msgs|
        invariant 0 <= k <= |msgs|
        invariant cameras == ApplyMessages(old(cameras), msgs[..k])
        invariant cursor == old(cursor) && markers == old(markers)
        invariant Valid()
      {
        var msg := msgs[k];
        assert msgs[..k + 1][..k] == msgs[..k];
        ghost var before := cameras;
        match msg.target {
          case Some(t) =>
            var found := IndexOfId(cameras, t);
            if found.Some? {
              var i := found.value;
              cameras := cameras[i := cameras[i].(mode := msg.mode)];
            }
          case None =>
            var j := 0;
            while j < |cameras|
              invariant 0 <= j <= |cameras| == |before|
              invariant forall i :: 0 <= i < j ==>
                          cameras[i] == if before[i].enabled then before[i].(mode := msg.mode) else before[i]
              invariant forall i :: j <= i < |cameras| ==> cameras[i] == before[i]
              invariant cursor == old(cursor) && markers == old(markers)
            {
              if cameras[j].enabled {
                cameras := cameras[j := cameras[j].(mode := msg.mode)];
              }
              j := j + 1;
            }
        }
        assert cameras == ApplyMessage(before, msg);
        SameExceptModeKeepsIds(before, cameras);
        k := k + 1;
      }
      assert msgs[..|msgs|] == msgs;
    }

    /** The reset system: every marker is removed (the re-centring of the
        window's cursor that goes with it is not part of this model). */
    method ResetCursor()
      modifies this
      ensures markers == {}
      ensures cameras == old(cameras) && cursor == old(cursor)
      ensures old(Valid()) ==> Valid()
    {
      while markers != {}
        invariant cameras == old(cameras) && cursor == old(cursor)
        invariant markers <= old(markers)
        decreases |markers|
      {
        var e :| e in markers;
        markers := markers - {e};
      }
    }
  }
}
