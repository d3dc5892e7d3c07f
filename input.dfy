/**
 * Input state of game.js: the held-keys map, the press-duration rule that
 * tells a click from a drag, the click target, and the orbit angles driven by
 * mouse movement.
 */
module Input {
  import opened Options
  import opened Vectors

  /** `keys`: a key name maps to whether it is held; a missing key is not held. */
  type KeyMap = map<string, bool>

  predicate Held(keys: KeyMap, k: string) {
    k in keys && keys[k]
  }

  /** `toLowerCase` on the ASCII letters. */
  function LowerChar(c: char): (r: char)
    ensures !('A' <= r <= 'Z')
    ensures 'A' <= c <= 'Z' ==> r as int == c as int + 32
    ensures !('A' <= c <= 'Z') ==> r == c
  {
    if 'A' <= c <= 'Z' then (c as int + 32) as char else c
  }

  function ToLower(s: string): (r: string)
    ensures |r| == |s|
    ensures forall i :: 0 <= i < |s| ==> r[i] == LowerChar(s[i])
  {
    if s == [] then [] else [LowerChar(s[0])] + ToLower(s[1..])
  }

  /**
   * `onKeyDown` (`down`) and `onKeyUp` (`!down`), game.js:501-507: the
   * lower-cased name is set and every other entry is kept.
   */
  function Press(keys: KeyMap, key: string, down: bool): (r: KeyMap)
    ensures ToLower(key) in r && r[ToLower(key)] == down
    ensures r.Keys == keys.Keys + {ToLower(key)}
    ensures forall k :: k in keys && k != ToLower(key) ==> r[k] == keys[k]
  {
    keys[ToLower(key) := down]
  }

  /** After a key event exactly the lower-cased key changes whether it is held. */
  lemma PressHeld(keys: KeyMap, key: string, down: bool, k: string)
    ensures Held(Press(keys, key, down), k) <==> if k == ToLower(key) then down else Held(keys, k)
  {
  }

  /** An upper-case key event holds the lower-case name that movement looks up. */
  lemma PressFoldsCase(keys: KeyMap)
    ensures Held(Press(keys, "W", true), "w")
    ensures Held(Press(keys, "ArrowUp", true), "arrowup")
    ensures !Held(Press(Press(keys, "D", true), "d", false), "d")
  {
    assert ToLower("W") == "w";
    assert ToLower("ArrowUp") == "arrowup";
    assert ToLower("D") == "d";
  }

  /** game.js:445: presses strictly shorter than this many milliseconds are clicks. */
  const ClickThreshold: int := 150

  /** `onMouseUp` (game.js:451-458): the press lasted less than the threshold. */
  predicate IsClick(downTime: int, upTime: int) {
    upTime - downTime < ClickThreshold
  }

  /** Lowest floor hit a click accepts, and the height a target is lifted to (game.js:471-474). */
  const FloorCutoff: real := -25.0
  const TargetHeight: real := 20.0

  /**
   * The new click target for a floor hit (`None` when the ray misses the
   * floor): accepted only above the cutoff, then raised to the avatar's height.
   */
  function ClickTarget(hit: Option<Vec3>): (t: Option<Vec3>)
    ensures t.Some? <==> hit.Some? && hit.value.y > FloorCutoff
    ensures t.Some? ==> t.value == hit.value.(y := TargetHeight)
  {
    match hit
    case Some(p) => if p.y > FloorCutoff then Some(Vec3(p.x, TargetHeight, p.z)) else None
    case None => None
  }

  /** `currentRotation`: x is the pitch, y the yaw of the camera rig. */
  datatype Orbit = Orbit(pitch: real, yaw: real)

  /** game.js:12 and 700-701: radians per pixel with and without a drag. */
  const CameraRotationSpeed: real := 0.0008
  const PassiveRotationSpeed: real := 0.00005

  /** game.js:691-694: the pitch is kept within a quarter turn either way. */
  function ClampPitch(p: real): (r: real)
    ensures -HalfPi <= r <= HalfPi
    ensures -HalfPi <= p <= HalfPi ==> r == p
    ensures p > HalfPi ==> r == HalfPi
    ensures p < -HalfPi ==> r == -HalfPi
  {
    if p > HalfPi then HalfPi else if p < -HalfPi then -HalfPi else p
  }

  /**
   * One `mousemove` (game.js:682-708) moved by `(dx, dy)` pixels: a drag turns
   * the rig at the camera speed and clamps the pitch, a passive move turns it
   * slowly and does not clamp.
   */
  function MouseMove(o: Orbit, dragging: bool, dx: real, dy: real): (r: Orbit)
    ensures dragging ==> -HalfPi <= r.pitch <= HalfPi
    ensures dragging ==> r.yaw == o.yaw - dx * CameraRotationSpeed
    ensures dragging ==> r.pitch == ClampPitch(o.pitch - dy * CameraRotationSpeed)
    ensures !dragging ==> r == Orbit(o.pitch - dy * PassiveRotationSpeed, o.yaw - dx * PassiveRotationSpeed)
  {
    if dragging then
      Orbit(ClampPitch(o.pitch - dy * CameraRotationSpeed), o.yaw - dx * CameraRotationSpeed)
    else
      Orbit(o.pitch - dy * PassiveRotationSpeed, o.yaw - dx * PassiveRotationSpeed)
  }

  /** A mouse move: the drag flag at that moment and the pixel deltas. */
  datatype Move = Move(dragging: bool, dx: real, dy: real)

  function MouseMoves(o: Orbit, moves: seq<Move>): Orbit
    decreases |moves|
  {
    if moves == [] then o
    else
      var last := moves[|moves| - 1];
      MouseMove(MouseMoves(o, moves[..|moves| - 1]), last.dragging, last.dx, last.dy)
  }

  function SumDy(moves: seq<Move>): real
    decreases |moves|
  {
    if moves == [] then 0.0 else SumDy(moves[..|moves| - 1]) + moves[|moves| - 1].dy
  }

  /**
   * Without a drag nothing bounds the pitch: it drifts by the slow factor
   * times the summed vertical deltas.
   */
  lemma {:induction false} PassiveMovesDrift(o: Orbit, moves: seq<Move>)
    requires forall i :: 0 <= i < |moves| ==> !moves[i].dragging
    ensures MouseMoves(o, moves).pitch == o.pitch - SumDy(moves) * PassiveRotationSpeed
    decreases |moves|
  {
    if moves != [] {
      PassiveMovesDrift(o, moves[..|moves| - 1]);
    }
  }

  /** A passive move from the upper limit goes past it: the unclamped branch. */
  lemma PassiveMoveLeavesRange()
    ensures MouseMove(Orbit(HalfPi, 0.0), false, 0.0, -1.0).pitch > HalfPi
  {
  }
}
