/** Which camera a system acts on. The engine hands each system its cameras
    in query order; the model takes that order as the order of a sequence,
    and each selecting system acts on the first camera that qualifies. */
module Selection {
  import opened FpsTypes

  /** The index of the first camera that satisfies `p`, or `None` when no
      camera does. */
  function FirstMatch(cams: seq<Camera>, p: Camera -> bool): (r: Option<nat>)
    ensures r.Some? ==> r.value < |cams| && p(cams[r.value])
    ensures r.Some? ==> forall j :: 0 <= j < r.value ==> !p(cams[j])
    ensures r.None? <==> forall j :: 0 <= j < |cams| ==> !p(cams[j])
  {
    if cams == [] then None
    else if p(cams[0]) then Some(0)
    else match FirstMatch(cams[1..], p)
      case None => None
      case Some(k) => Some(k + 1)
  }

  /** The camera the input map reads: the first enabled one. */
  function InputTarget(cams: seq<Camera>): (r: Option<nat>)
    ensures r.Some? ==> r.value < |cams| && cams[r.value].enabled
    ensures r.Some? ==> forall j :: 0 <= j < r.value ==> !cams[j].enabled
    ensures r.None? <==> forall j :: 0 <= j < |cams| ==> !cams[j].enabled
  {
    FirstMatch(cams, (c: Camera) => c.enabled)
  }

  /** The camera the control system drives: the first enabled one among the
      cameras that also have a look transform. */
  function ControlTarget(cams: seq<Camera>): (r: Option<nat>)
    ensures r.Some? ==> r.value < |cams| && cams[r.value].enabled && cams[r.value].hasLookTransform
    ensures r.Some? ==> forall j :: 0 <= j < r.value ==> !(cams[j].enabled && cams[j].hasLookTransform)
    ensures r.None? <==> forall j :: 0 <= j < |cams| ==> !(cams[j].enabled && cams[j].hasLookTransform)
  {
    FirstMatch(cams, (c: Camera) => c.enabled && c.hasLookTransform)
  }

  /** The camera start-up marks for a cursor reset: the first one that is
      both enabled and auto-hiding. */
  function InitTarget(cams: seq<Camera>): (r: Option<nat>)
    ensures r.Some? ==> r.value < |cams| && cams[r.value].enabled && cams[r.value].autoHideCursor
    ensures r.Some? ==> forall j :: 0 <= j < r.value ==> !(cams[j].enabled && cams[j].autoHideCursor)
    ensures r.None? <==> forall j :: 0 <= j < |cams| ==> !(cams[j].enabled && cams[j].autoHideCursor)
  {
    FirstMatch(cams, (c: Camera) => c.enabled && c.autoHideCursor)
  }

  /** The id of the selected camera as a set: empty when nothing is selected. */
  function SelectedId(cams: seq<Camera>, sel: Option<nat>): (ids: set<EntityId>)
    ensures |ids| <= 1
    ensures ids <= IdsOf(cams)
    ensures sel.Some? && sel.value < |cams| ==> ids == {cams[sel.value].id}
    ensures sel.None? ==> ids == {}
  {
    match sel
    case Some(i) => if i < |cams| then {cams[i].id} else {}
    case None => {}
  }

  /** When every camera has a look transform, as every camera spawned
      through the camera bundle does, the input map and the control system
      select the same camera. */
  lemma ControlTargetIsInputTarget(cams: seq<Camera>)
    requires forall i :: 0 <= i < |cams| ==> cams[i].hasLookTransform
    ensures ControlTarget(cams) == InputTarget(cams)
  {
  }

  /** Start-up marks nothing exactly when no camera is enabled and
      auto-hiding; what it marks is never before the selected camera, and is
      the selected camera whenever that one auto-hides. */
  lemma InitTargetFollowsInputTarget(cams: seq<Camera>)
    ensures InitTarget(cams).None? <==> forall i :: 0 <= i < |cams| ==> !(cams[i].enabled && cams[i].autoHideCursor)
    ensures InitTarget(cams).Some? ==>
              InputTarget(cams).Some? && InputTarget(cams).value <= InitTarget(cams).value
    ensures InputTarget(cams).Some? && cams[InputTarget(cams).value].autoHideCursor ==>
              InitTarget(cams) == InputTarget(cams)
  {
  }

  /** A non-empty sequence of default cameras: all three systems pick the
      first one. */
  lemma DefaultCamerasSelectFirst(cams: seq<Camera>)
    requires |cams| > 0
    requires forall i :: 0 <= i < |cams| ==>
               cams[i] == DefaultCamera(cams[i].id, cams[i].rotateSensitivity, cams[i].translateSensitivity)
    ensures InputTarget(cams) == ControlTarget(cams) == InitTarget(cams) == Some(0)
    ensures cams[0].mode == Trigger
  {
    assert cams[0] == DefaultCamera(cams[0].id, cams[0].rotateSensitivity, cams[0].translateSensitivity);
  }
}
