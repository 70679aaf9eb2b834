/** Plain values for the first-person camera controller: cursor options,
    toggle modes, keyboard state, integer vectors, camera entities and the
    two kinds of messages the controller exchanges. */
module FpsTypes {

  datatype Option<T> = None | Some(value: T)

  /** How the Alt keys lock and release the cursor. */
  datatype CursorToggleMode =
    | Trigger  // release while Alt is held, lock again when it is let go
    | Flip     // every Alt press flips between locked and released

  /** The toggle mode a controller gets by default. */
  function DefaultToggleMode(): (m: CursorToggleMode)
    ensures m == Trigger
  {
    Trigger
  }

  /** The window's cursor grab mode (named `None` upstream; `NoGrab` here so
      that it does not clash with `Option.None`). */
  datatype GrabMode = NoGrab | Confined | Locked

  /** The window's cursor options, as far as the controller touches them. */
  datatype CursorOptions = CursorOptions(grabMode: GrabMode, visible: bool)

  /** The cursor is released and shown. */
  const Released := CursorOptions(NoGrab, true)

  /** The cursor is locked and hidden. */
  const LockedHidden := CursorOptions(Locked, false)

  /** The cursor is shown exactly when it is not locked. */
  predicate Consistent(c: CursorOptions)
  {
    c.visible <==> c.grabMode != Locked
  }

  /** The keys the controller reads; every other key is `OtherKey`. */
  datatype KeyCode =
    | KeyW | KeyA | KeyS | KeyD | ShiftLeft | Space | AltLeft | AltRight
    | OtherKey(code: nat)

  /** The keyboard state of one frame: keys held down, keys that went down
      this frame and keys that came up this frame. */
  datatype KeyInput = KeyInput(pressed: set<KeyCode>, justPressed: set<KeyCode>, justReleased: set<KeyCode>)

  predicate AltJustPressed(k: KeyInput)
  {
    AltLeft in k.justPressed || AltRight in k.justPressed
  }

  predicate AltJustReleased(k: KeyInput)
  {
    AltLeft in k.justReleased || AltRight in k.justReleased
  }

  /** Integer stand-ins for the engine's float vectors. */
  datatype Vec2 = Vec2(x: int, y: int)
  datatype Vec3 = Vec3(x: int, y: int, z: int)

  const Zero2 := Vec2(0, 0)
  const Zero3 := Vec3(0, 0, 0)

  function Add2(a: Vec2, b: Vec2): Vec2 { Vec2(a.x + b.x, a.y + b.y) }

  /** Component-wise product, as the engine multiplies two 2-vectors. */
  function Mul2(a: Vec2, b: Vec2): Vec2 { Vec2(a.x * b.x, a.y * b.y) }

  function Add3(a: Vec3, b: Vec3): Vec3 { Vec3(a.x + b.x, a.y + b.y, a.z + b.z) }

  function Scale3(s: int, v: Vec3): Vec3 { Vec3(s * v.x, s * v.y, s * v.z) }

  type EntityId = nat

  /** A camera entity that carries a first-person controller: the entity id,
      the controller's fields (sensitivities as integer multipliers) and
      whether the entity also has a look transform. */
  datatype Camera = Camera(
    id: EntityId,
    enabled: bool,
    autoHideCursor: bool,
    mode: CursorToggleMode,
    rotateSensitivity: Vec2,
    translateSensitivity: int,
    hasLookTransform: bool)

  /** A camera as the camera bundle builds it from a default controller:
      enabled, auto-hiding, in the default toggle mode, with a look
      transform. The float sensitivities are given by the caller. */
  function DefaultCamera(id: EntityId, rotateSensitivity: Vec2, translateSensitivity: int): (c: Camera)
    ensures c.id == id && c.rotateSensitivity == rotateSensitivity && c.translateSensitivity == translateSensitivity
    // every system qualifies it: enabled, auto-hiding, with a look transform
    ensures c.enabled && c.autoHideCursor && c.hasLookTransform
    ensures c.mode == Trigger
  {
    Camera(id, true, true, DefaultToggleMode(), rotateSensitivity, translateSensitivity, true)
  }

  /** Entity ids are unique, as every ECS entity is. */
  predicate UniqueIds(cams: seq<Camera>)
  {
    forall i, j :: 0 <= i < j < |cams| ==> cams[i].id != cams[j].id
  }

  function IdsOf(cams: seq<Camera>): set<EntityId>
  {
    set c | c in cams :: c.id
  }

  /** A request to change the cursor toggle mode of one camera, or of every
      enabled camera when no target is given. */
  datatype ChangeCursorModeMessage = ChangeCursorModeMessage(mode: CursorToggleMode, target: Option<EntityId>)

  /** What the input map sends to the controller. */
  datatype ControlMessage = Rotate(delta: Vec2) | TranslateEye(eyeDelta: Vec3)
}
