/** The default input map: turns one frame of mouse motion and keyboard
    state into the control messages for the selected camera. */
module InputMap {
  import opened FpsTypes
  import opened Selection

  /** The movement keys, in the order the map checks them, each with the
      axis it moves the eye along. */
  const MoveKeys: seq<(KeyCode, Vec3)> := [
    (KeyW, Vec3(0, 0, 1)),
    (KeyA, Vec3(1, 0, 0)),
    (KeyS, Vec3(0, 0, -1)),
    (KeyD, Vec3(-1, 0, 0)),
    (ShiftLeft, Vec3(0, -1, 0)),
    (Space, Vec3(0, 1, 0))
  ]

  /** `v` is a unit vector along one of the three axes. */
  predicate UnitAxis(v: Vec3)
  {
    v.x * v.x + v.y * v.y + v.z * v.z == 1
  }

  /** The table checks W, A, S, D, left Shift and Space, in that order; every
      axis is a unit axis, and the keys of each opposite pair (W/S, A/D,
      Shift/Space) move along opposite axes. */
  lemma MoveKeysTable()
    ensures |MoveKeys| == 6
    ensures [MoveKeys[0].0, MoveKeys[1].0, MoveKeys[2].0, MoveKeys[3].0, MoveKeys[4].0, MoveKeys[5].0]
            == [KeyW, KeyA, KeyS, KeyD, ShiftLeft, Space]
    ensures forall i :: 0 <= i < |MoveKeys| ==> UnitAxis(MoveKeys[i].1)
    ensures MoveKeys[2].1 == Scale3(-1, MoveKeys[0].1)
    ensures MoveKeys[3].1 == Scale3(-1, MoveKeys[1].1)
    ensures MoveKeys[4].1 == Scale3(-1, MoveKeys[5].1)
  {
  }

  /** The sum of the mouse-motion deltas of the frame. */
  function SumMotion(motions: seq<Vec2>): (r: Vec2)
    ensures |motions| == 1 ==> r == motions[0]
    ensures (forall i :: 0 <= i < |motions| ==> motions[i] == Zero2) ==> r == Zero2
  {
    if motions == [] then Zero2
    else
      var earlier := motions[..|motions| - 1];
      assert forall i :: 0 <= i < |earlier| ==> earlier[i] == motions[i];
      var sum, last := SumMotion(earlier), motions[|motions| - 1];
      Vec2(sum.x + last.x, sum.y + last.y)
  }

  /** The frame's motions can be summed in any split: the sum of a
      concatenation is the sum of the two sums. */
  lemma {:induction false} SumMotionAppend(a: seq<Vec2>, b: seq<Vec2>)
    ensures SumMotion(a + b) == Add2(SumMotion(a), SumMotion(b))
    decreases |b|
  {
    if b == [] {
      assert a + b == a;
    } else {
      var all := a + b;
      var init, last := b[..|b| - 1], b[|b| - 1];
      assert all[..|all| - 1] == a + init;
      assert all[|all| - 1] == last;
      SumMotionAppend(a, init);
      var sa, si := SumMotion(a), SumMotion(init);
      assert SumMotion(all) == Vec2(sa.x + si.x + last.x, sa.y + si.y + last.y);
      assert SumMotion(b) == Vec2(si.x + last.x, si.y + last.y);
    }
  }

  /** One translation message per held key among the first `n` entries of
      the key table, in table order, each the key's axis scaled by the
      sensitivity `s`. */
  function Translations(pressed: set<KeyCode>, s: int, n: nat): (r: seq<ControlMessage>)
    requires n <= |MoveKeys|
    ensures |r| <= n
    ensures forall i :: 0 <= i < |r| ==> r[i].TranslateEye?
  {
    if n == 0 then []
    else
      Translations(pressed, s, n - 1) + TranslationAt(pressed, s, n - 1)
  }

  /** How far one message moves the eye. */
  function EyeDelta(m: ControlMessage): Vec3
  {
    if m.TranslateEye? then m.eyeDelta else Zero3
  }

  /** The total eye movement a message list asks for. */
  function EyeTotal(msgs: seq<ControlMessage>): Vec3
  {
    if msgs == [] then Zero3
    else Add3(EyeTotal(msgs[..|msgs| - 1]), EyeDelta(msgs[|msgs| - 1]))
  }

  /** 1 if the key is held, else 0. */
  function Held(k: KeyCode, pressed: set<KeyCode>): int
  {
    if k in pressed then 1 else 0
  }

  /** The net direction of the held movement keys: forward/back on Z, left/right
      on X, up/down on Y; opposite keys cancel. */
  function NetDirection(pressed: set<KeyCode>): Vec3
  {
    Vec3(Held(KeyA, pressed) - Held(KeyD, pressed),
         Held(Space, pressed) - Held(ShiftLeft, pressed),
         Held(KeyW, pressed) - Held(KeyS, pressed))
  }

  /** The rotation delta the map sends: the motion only counts while the
      cursor is locked. */
  function RotateDelta(cam: Camera, cursor: CursorOptions, motions: seq<Vec2>): (r: Vec2)
    ensures cursor.grabMode != Locked ==> r == Zero2
    ensures cursor.grabMode == Locked ==> r == Mul2(cam.rotateSensitivity, SumMotion(motions))
  {
    Mul2(cam.rotateSensitivity, if cursor.grabMode == Locked then SumMotion(motions) else Zero2)
  }

  /** The axis table entry `i` contributes when its key is held. */
  function HeldAxis(pressed: set<KeyCode>, i: nat): Vec3
    requires i < |MoveKeys|
  {
    var (key, dir) := MoveKeys[i];
    var held := key in pressed;
    Vec3(if held then dir.x else 0, if held then dir.y else 0, if held then dir.z else 0)
  }

  /** The sum of the axes of the held keys among the first `n` table entries. */
  function HeldAxes(pressed: set<KeyCode>, n: nat): Vec3
    requires n <= |MoveKeys|
  {
    if n == 0 then Zero3
    else
      var h, c := HeldAxes(pressed, n - 1), HeldAxis(pressed, n - 1);
      Vec3(h.x + c.x, h.y + c.y, h.z + c.z)
  }

  lemma {:induction false} EyeTotalAppend(msgs: seq<ControlMessage>, more: seq<ControlMessage>)
    ensures EyeTotal(msgs + more) == Add3(EyeTotal(msgs), EyeTotal(more))
    decreases |more|
  {
    if more == [] {
      assert msgs + more == msgs;
    } else {
      var all := msgs + more;
      var init, last := more[..|more| - 1], more[|more| - 1];
      assert all[..|all| - 1] == msgs + init;
      assert all[|all| - 1] == last;
      var a, b, d := EyeTotal(msgs), EyeTotal(init), EyeDelta(last);
      calc {
        EyeTotal(all);
        Add3(EyeTotal(msgs + init), d);
        { EyeTotalAppend(msgs, init); }
        Add3(Add3(a, b), d);
        Add3(a, Add3(b, d));
        Add3(a, EyeTotal(more));
      }
    }
  }

  /** The translation message for table entry `i`, if its key is held. */
  function TranslationAt(pressed: set<KeyCode>, s: int, i: nat): seq<ControlMessage>
    requires i < |MoveKeys|
  {
    if MoveKeys[i].0 in pressed then [TranslateEye(Scale3(s, MoveKeys[i].1))] else []
  }

  lemma TranslationAtMoves(pressed: set<KeyCode>, s: int, i: nat)
    requires i < |MoveKeys|
    ensures EyeTotal(TranslationAt(pressed, s, i)) == Scale3(s, HeldAxis(pressed, i))
  {
    var one := TranslationAt(pressed, s, i);
    if one != [] {
      assert one[..0] == [];
    }
  }

  lemma ScaleAdd(s: int, a: Vec3, b: Vec3)
    ensures Scale3(s, Vec3(a.x + b.x, a.y + b.y, a.z + b.z)) == Add3(Scale3(s, a), Scale3(s, b))
  {
    assert s * (a.x + b.x) == s * a.x + s * b.x;
    assert s * (a.y + b.y) == s * a.y + s * b.y;
    assert s * (a.z + b.z) == s * a.z + s * b.z;
  }

  /** The translation messages for the first `n` entries move the eye, in
      sum, by the sensitivity times the axes of the held keys. */
  lemma {:induction false} EyeTotalTranslations(pressed: set<KeyCode>, s: int, n: nat)
    requires n <= |MoveKeys|
    ensures EyeTotal(Translations(pressed, s, n)) == Scale3(s, HeldAxes(pressed, n))
  {
    if n > 0 {
      var before, one := Translations(pressed, s, n - 1), TranslationAt(pressed, s, n - 1);
      var h, c := HeldAxes(pressed, n - 1), HeldAxis(pressed, n - 1);
      assert Translations(pressed, s, n) == before + one;
      assert HeldAxes(pressed, n) == Vec3(h.x + c.x, h.y + c.y, h.z + c.z);
      EyeTotalTranslations(pressed, s, n - 1);
      EyeTotalAppend(before, one);
      TranslationAtMoves(pressed, s, n - 1);
      ScaleAdd(s, h, c);
    }
  }

  /** The axes of the held keys of the whole table add up to the net direction. */
  lemma HeldAxesNetDirection(p: set<KeyCode>)
    ensures HeldAxes(p, |MoveKeys|) == NetDirection(p)
  {
    assert HeldAxes(p, 1) == Vec3(0, 0, Held(KeyW, p));
    assert HeldAxes(p, 2) == Vec3(Held(KeyA, p), 0, Held(KeyW, p));
    assert HeldAxes(p, 3) == Vec3(Held(KeyA, p), 0, Held(KeyW, p) - Held(KeyS, p));
    assert HeldAxes(p, 4) == Vec3(Held(KeyA, p) - Held(KeyD, p), 0, Held(KeyW, p) - Held(KeyS, p));
    assert HeldAxes(p, 5) == Vec3(Held(KeyA, p) - Held(KeyD, p), -Held(ShiftLeft, p), Held(KeyW, p) - Held(KeyS, p));
  }

  /** The translation messages move the eye, in sum, by the sensitivity
      times the net direction of the held keys. */
  lemma NetTranslation(pressed: set<KeyCode>, s: int)
    ensures EyeTotal(Translations(pressed, s, |MoveKeys|)) == Scale3(s, NetDirection(pressed))
  {
    EyeTotalTranslations(pressed, s, |MoveKeys|);
    HeldAxesNetDirection(pressed);
  }

  /** The first `n` entries send no translation exactly when none of their
      keys is held. */
  lemma {:induction false} NoHeldKeyNoTranslation(pressed: set<KeyCode>, s: int, n: nat)
    requires n <= |MoveKeys|
    ensures Translations(pressed, s, n) == [] <==> forall j :: 0 <= j < n ==> MoveKeys[j].0 !in pressed
  {
    if n > 0 {
      NoHeldKeyNoTranslation(pressed, s, n - 1);
      assert Translations(pressed, s, n) == Translations(pressed, s, n - 1) + TranslationAt(pressed, s, n - 1);
    }
  }

  /** The translation for a held key is the key's axis scaled by the
      sensitivity, and lands after the translations of every earlier entry. */
  lemma TranslationsEndWithHeldKey(pressed: set<KeyCode>, s: int, n: nat)
    requires 0 < n <= |MoveKeys|
    requires MoveKeys[n - 1].0 in pressed
    ensures var r := Translations(pressed, s, n);
            |r| > 0 && r[|r| - 1] == TranslateEye(Scale3(s, MoveKeys[n - 1].1)) &&
            r[..|r| - 1] == Translations(pressed, s, n - 1)
  {
  }

  /** A key that is not held adds no translation. */
  lemma TranslationsSkipUnheldKey(pressed: set<KeyCode>, s: int, n: nat)
    requires 0 < n <= |MoveKeys|
    requires MoveKeys[n - 1].0 !in pressed
    ensures Translations(pressed, s, n) == Translations(pressed, s, n - 1)
  {
  }

  /** The map sends nothing when no camera is enabled; otherwise exactly one
      rotation first, carrying the summed motion only while the cursor is
      locked, then one translation per held movement key in the order
      W, A, S, D, left Shift, Space. */
  method DefaultInputMap(cams: seq<Camera>, cursor: CursorOptions, keyboard: KeyInput, motions: seq<Vec2>)
    returns (out: seq<ControlMessage>)
    ensures InputTarget(cams).None? ==> out == []
    ensures InputTarget(cams).Some? ==>
              var cam := cams[InputTarget(cams).value];
              |out| >= 1 && out[0] == Rotate(RotateDelta(cam, cursor, motions)) &&
              out[1..] == Translations(keyboard.pressed, cam.translateSensitivity, |MoveKeys|)
  {
    out := [];
    var selected := InputTarget(cams);
    if selected.None? {
      return;
    }
    var cam := cams[selected.value];
    var cursorLocked := cursor.grabMode == Locked;

    var cursorDelta := Zero2;
    if cursorLocked {
      var i := 0;
      while i < |motions|
        invariant 0 <= i <= |motions|
        invariant cursorDelta == SumMotion(motions[..i])
      {
        assert motions[..i + 1][..i] == motions[..i];
        cursorDelta := Add2(cursorDelta, motions[i]);
        i := i + 1;
      }
      assert motions[..|motions|] == motions;
    }
    out := [Rotate(Mul2(cam.rotateSensitivity, cursorDelta))];

    var s := cam.translateSensitivity;
    var k := 0;
    while k < |MoveKeys|
      invariant 0 <= k <= |MoveKeys|
      invariant |out| >= 1 && out[0] == Rotate(RotateDelta(cam, cursor, motions))
      invariant out[1..] == Translations(keyboard.pressed, s, k)
    {
      var (key, dir) := MoveKeys[k];
      if key in keyboard.pressed {
        out := out + [TranslateEye(Scale3(s, dir))];
      }
      k := k + 1;
    }
  }
}
