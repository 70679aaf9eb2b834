/** What a batch of cursor-mode change messages does to the cameras. */
module ModeMessages {
  import opened FpsTypes

  /** The index of the camera with entity id `id`, if there is one. */
  function IndexOfId(cams: seq<Camera>, id: EntityId): (r: Option<nat>)
    ensures r.Some? ==> r.value < |cams| && cams[r.value].id == id
    ensures r.None? <==> forall i :: 0 <= i < |cams| ==> cams[i].id != id
  {
    if cams == [] then None
    else if cams[0].id == id then Some(0)
    else match IndexOfId(cams[1..], id)
      case None => None
      case Some(k) => Some(k + 1)
  }

  /** `after` is `before` with at most the toggle modes changed. */
  predicate SameExceptMode(before: seq<Camera>, after: seq<Camera>)
  {
    |after| == |before| &&
    forall i :: 0 <= i < |before| ==> after[i] == before[i].(mode := after[i].mode)
  }

  /** The message addresses this camera: by its id, or, without a target,
      because the camera is enabled. */
  predicate Addresses(msg: ChangeCursorModeMessage, c: Camera)
  {
    match msg.target
    case Some(t) => c.id == t
    case None => c.enabled
  }

  /** One message: a targeted one updates the camera with that id, if any;
      an untargeted one updates every enabled camera. */
  function ApplyMessage(cams: seq<Camera>, msg: ChangeCursorModeMessage): (r: seq<Camera>)
    ensures SameExceptMode(cams, r)
    ensures UniqueIds(cams) ==>
              forall i :: 0 <= i < |cams| ==>
                r[i].mode == (if Addresses(msg, cams[i]) then msg.mode else cams[i].mode)
  {
    match msg.target
    case Some(t) =>
      (match IndexOfId(cams, t)
       case Some(i) => cams[i := cams[i].(mode := msg.mode)]
       case None => cams)
    case None =>
      seq(|cams|, i requires 0 <= i < |cams| =>
        if cams[i].enabled then cams[i].(mode := msg.mode) else cams[i])
  }

  /** The messages in the order they were sent. */
  function ApplyMessages(cams: seq<Camera>, msgs: seq<ChangeCursorModeMessage>): (r: seq<Camera>)
    ensures SameExceptMode(cams, r)
  {
    if msgs == [] then cams
    else ApplyMessage(ApplyMessages(cams, msgs[..|msgs| - 1]), msgs[|msgs| - 1])
  }

  /** The mode of the last message that addresses `c`, if one does. */
  function LastAddressing(msgs: seq<ChangeCursorModeMessage>, c: Camera): Option<CursorToggleMode>
  {
    if msgs == [] then None
    else if Addresses(msgs[|msgs| - 1], c) then Some(msgs[|msgs| - 1].mode)
    else LastAddressing(msgs[..|msgs| - 1], c)
  }

  /** Changing only modes keeps every id, so it keeps ids unique. */
  lemma SameExceptModeKeepsIds(before: seq<Camera>, after: seq<Camera>)
    requires SameExceptMode(before, after)
    ensures UniqueIds(before) ==> UniqueIds(after)
    ensures IdsOf(after) == IdsOf(before)
  {
    forall i | 0 <= i < |before|
      ensures after[i].id == before[i].id && after[i].enabled == before[i].enabled
    {
    }
    forall x | x in IdsOf(after) ensures x in IdsOf(before) {
      var c :| c in after && c.id == x;
      var i :| 0 <= i < |after| && after[i] == c;
      assert before[i].id == x;
    }
    forall x | x in IdsOf(before) ensures x in IdsOf(after) {
      var c :| c in before && c.id == x;
      var i :| 0 <= i < |before| && before[i] == c;
      assert after[i].id == x;
    }
  }

  /** Messages apply in order and the last one wins: after the batch each
      camera has the mode of the last message that addresses it, or its old
      mode when none does. */
  lemma {:induction false} LastMessageWins(cams: seq<Camera>, msgs: seq<ChangeCursorModeMessage>, i: nat)
    requires UniqueIds(cams)
    requires i < |cams|
    ensures ApplyMessages(cams, msgs)[i].mode ==
              match LastAddressing(msgs, cams[i])
              case Some(m) => m
              case None => cams[i].mode
  {
    if msgs != [] {
      var prefix := msgs[..|msgs| - 1];
      var mid := ApplyMessages(cams, prefix);
      SameExceptModeKeepsIds(cams, mid);
      LastMessageWins(cams, prefix, i);
      assert Addresses(msgs[|msgs| - 1], mid[i]) == Addresses(msgs[|msgs| - 1], cams[i]);
    }
  }

  /** A targeted message whose id names no camera changes nothing. */
  lemma UnknownTargetIgnored(cams: seq<Camera>, mode: CursorToggleMode, t: EntityId)
    requires t !in IdsOf(cams)
    ensures ApplyMessage(cams, ChangeCursorModeMessage(mode, Some(t))) == cams
  {
    forall i | 0 <= i < |cams| ensures cams[i].id != t {
      assert cams[i] in cams;
    }
  }

  /** A targeted message sets the mode of that camera and leaves every other
      camera as it was. */
  lemma TargetedMessageEffect(cams: seq<Camera>, mode: CursorToggleMode, k: nat)
    requires UniqueIds(cams)
    requires k < |cams|
    ensures var r := ApplyMessage(cams, ChangeCursorModeMessage(mode, Some(cams[k].id)));
            r[k] == cams[k].(mode := mode) &&
            forall i :: 0 <= i < |cams| && i != k ==> r[i] == cams[i]
  {
  }

  /** An untargeted message as the last of a batch leaves every enabled
      camera in its mode, and does not touch a disabled one. */
  lemma UntargetedLastWins(cams: seq<Camera>, msgs: seq<ChangeCursorModeMessage>, mode: CursorToggleMode)
    requires UniqueIds(cams)
    ensures var r := ApplyMessages(cams, msgs + [ChangeCursorModeMessage(mode, None)]);
            forall i :: 0 <= i < |cams| && cams[i].enabled ==> r[i].mode == mode
    ensures var r := ApplyMessages(cams, msgs + [ChangeCursorModeMessage(mode, None)]);
            forall i :: 0 <= i < |cams| && !cams[i].enabled ==> r[i] == ApplyMessages(cams, msgs)[i]
  {
    var all := msgs + [ChangeCursorModeMessage(mode, None)];
    assert all[..|all| - 1] == msgs;
    SameExceptModeKeepsIds(cams, ApplyMessages(cams, msgs));
    forall i | 0 <= i < |cams| && cams[i].enabled
      ensures ApplyMessages(cams, all)[i].mode == mode
    {
      LastMessageWins(cams, all, i);
    }
  }
}
