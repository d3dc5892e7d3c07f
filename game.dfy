/**
 * The module state of game.js and its event handlers and per-frame update,
 * as a class whose methods are proved against the functions of the other
 * modules. `Frame` states one `updateGame` call on a snapshot of the state;
 * the lemmas after it are about whole frames.
 */
module Game {
  import opened Options
  import opened Vectors
  import opened Collision
  import opened Input
  import opened Motion
  import opened Camera
  import opened Doorways

  /** game.js:25: `startPosition`. */
  const StartPosition: Vec3 := Vec3(93.0, -8.0, -134.0)

  /** game.js:135 and 800: the facing the avatar is given on load and on reset. */
  const StartRotation: real := -Pi / 4.0

  /** `previousMousePosition`. */
  datatype MousePosition = MousePosition(x: real, y: real)

  /** What one frame reads and writes. */
  datatype Snapshot = Snapshot(
    keys: KeyMap, clickMoving: bool, target: Vec3, avatar: Avatar, orbit: Orbit,
    camera: Vec3, view: Vec3, walls: seq<Box3>, popup: Popup, inMainScene: bool)

  /**
   * `updateGame(visited, sceneReady)` (game.js:39-70), in the main scene:
   * the popup for the doorways stood on once the scene has loaded, then the
   * camera and the way it looks, the keyboard direction (which switches click movement off when a
   * movement key is held), click-to-move and the keyboard step.
   */
  function Frame(m: MathLib, s: Snapshot, visited: bool, sceneReady: bool): (r: Snapshot)
    requires SqrtExact(m)
    ensures r.keys == s.keys && r.target == s.target && r.orbit == s.orbit && r.inMainScene == s.inMainScene
    ensures !s.inMainScene ==> r == s
  {
    if !s.inMainScene then s
    else
      var popup := if sceneReady then PopupFor(Occupied(Doors, s.avatar.position)) else s.popup;
      var camera := Follow(s.camera, DesiredCamera(m, s.orbit, s.avatar.position));
      FrameMoves(m, s.(popup := popup, camera := camera, view := ViewDirection(m, camera, s.avatar.position)), visited)
  }

  /**
   * game.js:64-67, once the camera has moved: the keyboard direction
   * relative to the way the camera looks, click-to-move, then the keyboard step.
   */
  function FrameMoves(m: MathLib, s: Snapshot, visited: bool): (r: Snapshot)
    requires SqrtExact(m)
    ensures r.keys == s.keys && r.target == s.target && r.orbit == s.orbit && r.inMainScene == s.inMainScene
    ensures r.camera == s.camera && r.view == s.view && r.popup == s.popup
  {
    var d := KeyboardDirection(m, s.keys, visited, s.view);
    var moving := s.clickMoving && !(visited && MovementKeyHeld(s.keys));
    var c := ClickToMove(m, s.walls, s.avatar, s.target, moving);
    var o := KeyboardMovingSlide(m, c.walls, c.avatar, d);
    s.(clickMoving := c.moving, avatar := o.avatar, walls := o.walls)
  }

  /** `FrameMoves` from the results of its three steps. */
  lemma FrameMovesSteps(m: MathLib, s: Snapshot, visited: bool, d: Vec3, moving: bool, c: ClickOutcome, o: SlideOutcome)
    requires SqrtExact(m)
    requires d == KeyboardDirection(m, s.keys, visited, s.view)
    requires moving == (s.clickMoving && !(visited && MovementKeyHeld(s.keys)))
    requires c == ClickToMove(m, s.walls, s.avatar, s.target, moving)
    requires o == KeyboardMovingSlide(m, c.walls, c.avatar, d)
    ensures FrameMoves(m, s, visited) == s.(clickMoving := c.moving, avatar := o.avatar, walls := o.walls)
  {
  }

  /** In the main scene a frame is the popup and camera update followed by the moves. */
  lemma FrameInMainScene(m: MathLib, s: Snapshot, visited: bool, sceneReady: bool, camera: Vec3)
    requires SqrtExact(m) && s.inMainScene
    requires camera == Follow(s.camera, DesiredCamera(m, s.orbit, s.avatar.position))
    ensures Frame(m, s, visited, sceneReady) ==
      FrameMoves(m, s.(popup := if sceneReady then PopupFor(Occupied(Doors, s.avatar.position)) else s.popup,
                       camera := camera, view := ViewDirection(m, camera, s.avatar.position)), visited)
  {
  }

  /** Outside the main scene a frame changes nothing. */
  lemma FrameOutsideMainScene(m: MathLib, s: Snapshot, visited: bool, sceneReady: bool)
    requires SqrtExact(m) && !s.inMainScene
    ensures Frame(m, s, visited, sceneReady) == s
  {
  }

  /**
   * A held movement key switches click movement off before `clickToMove`
   * runs, so no click step is probed that frame: the avatar and the walls
   * are exactly what the keyboard step alone makes of them.
   */
  lemma KeyCancelsClick(m: MathLib, s: Snapshot, visited: bool, sceneReady: bool)
    requires SqrtExact(m) && s.inMainScene && visited && MovementKeyHeld(s.keys)
    ensures var r := Frame(m, s, visited, sceneReady);
      && !r.clickMoving
      && (r.walls == s.walls + PushedWalls || r.walls == s.walls + PushedWalls + PushedWalls)
    ensures var camera := Follow(s.camera, DesiredCamera(m, s.orbit, s.avatar.position));
      var d := KeyboardDirection(m, s.keys, visited, ViewDirection(m, camera, s.avatar.position));
      var o := KeyboardMovingSlide(m, s.walls, s.avatar, d);
      var r := Frame(m, s, visited, sceneReady);
      r.avatar == o.avatar && r.walls == o.walls
  {
    var camera := Follow(s.camera, DesiredCamera(m, s.orbit, s.avatar.position));
    var d := KeyboardDirection(m, s.keys, visited, ViewDirection(m, camera, s.avatar.position));
    ClickIdle(m, s.walls, s.avatar, s.target);
    SlideWalls(m, s.walls, s.avatar, d);
  }

  /** No frame changes the avatar's height: every move is horizontal. */
  lemma FrameKeepsHeight(m: MathLib, s: Snapshot, visited: bool, sceneReady: bool)
    requires SqrtExact(m)
    ensures Frame(m, s, visited, sceneReady).avatar.position.y == s.avatar.position.y
  {
    if s.inMainScene {
      var camera := Follow(s.camera, DesiredCamera(m, s.orbit, s.avatar.position));
      var d := KeyboardDirection(m, s.keys, visited, ViewDirection(m, camera, s.avatar.position));
      var moving := s.clickMoving && !(visited && MovementKeyHeld(s.keys));
      var c := ClickToMove(m, s.walls, s.avatar, s.target, moving);
      ClickKeepsHeight(m, s.walls, s.avatar, s.target, moving);
      SlideKeepsHeight(m, c.walls, c.avatar, d);
    }
  }

  /**
   * In the main scene every frame lengthens `invisWalls` by one to three
   * wall pairs and only ever appends copies of the two walls.
   */
  lemma FrameWalls(m: MathLib, s: Snapshot, visited: bool, sceneReady: bool)
    requires SqrtExact(m) && WallCopies(s.walls) && s.inMainScene
    ensures var r := Frame(m, s, visited, sceneReady);
      && WallCopies(r.walls)
      && |s.walls| + 2 <= |r.walls| <= |s.walls| + 6
      && r.walls[..|s.walls|] == s.walls
  {
    var camera := Follow(s.camera, DesiredCamera(m, s.orbit, s.avatar.position));
    var d := KeyboardDirection(m, s.keys, visited, ViewDirection(m, camera, s.avatar.position));
    var moving := s.clickMoving && !(visited && MovementKeyHeld(s.keys));
    MovesWalls(m, s.walls, s.avatar, s.target, moving, d);
  }

  /** Click-to-move followed by the keyboard step, as far as `invisWalls` is concerned. */
  lemma MovesWalls(m: MathLib, walls: seq<Box3>, a: Avatar, target: Vec3, moving: bool, d: Vec3)
    requires SqrtExact(m) && WallCopies(walls)
    ensures var c := ClickToMove(m, walls, a, target, moving);
      var w := KeyboardMovingSlide(m, c.walls, c.avatar, d).walls;
      && WallCopies(w)
      && (w == walls + PushedWalls || w == walls + PushedWalls + PushedWalls
          || w == walls + PushedWalls + PushedWalls + PushedWalls)
      && w[..|walls|] == walls
  {
    var c := ClickToMove(m, walls, a, target, moving);
    ClickKeepsHeight(m, walls, a, target, moving);
    assert WallCopies(c.walls) by { WallCopiesAppend(walls); }
    SlideWalls(m, c.walls, c.avatar, d);
    var w := KeyboardMovingSlide(m, c.walls, c.avatar, d).walls;
    WallCopiesAppend(c.walls);
    WallCopiesAppend(c.walls + PushedWalls);
    assert c.walls[..|walls|] == walls;
    assert w[..|c.walls|] == c.walls;
  }

  /** Each frame the camera closes a tenth of its remaining way to the desired position. */
  lemma FrameCamera(m: MathLib, s: Snapshot, visited: bool, sceneReady: bool)
    requires SqrtExact(m) && s.inMainScene
    ensures var desired := DesiredCamera(m, s.orbit, s.avatar.position);
      var c := Frame(m, s, visited, sceneReady).camera;
      && DistanceSq(c, desired) == 0.81 * DistanceSq(s.camera, desired)
      && c.y - s.avatar.position.y >= MinCameraHeight - 0.9 * (desired.y - s.camera.y)
  {
    var desired := DesiredCamera(m, s.orbit, s.avatar.position);
    FollowCloser(s.camera, desired);
    var c := Follow(s.camera, desired);
    assert c.y - desired.y == (s.camera.y - desired.y) * (1.0 - FollowFactor);
  }

  /** The popup follows the doorways the avatar stands on, once the scene has loaded. */
  lemma FramePopup(m: MathLib, s: Snapshot, visited: bool, sceneReady: bool)
    requires SqrtExact(m) && s.inMainScene
    ensures var p := Frame(m, s, visited, sceneReady).popup;
      && (sceneReady ==> p == PopupFor(Occupied(Doors, s.avatar.position)))
      && (!sceneReady ==> p == s.popup)
  {
  }

  /**
   * Whatever the camera position, holding only the forward key after the
   * first visit moves the avatar along a unit direction.
   */
  lemma ForwardKeyAlwaysMoves(m: MathLib, keys: KeyMap, camera: Vec3, avatar: Vec3)
    requires SqrtExact(m)
    requires ForwardHeld(keys) && !BackHeld(keys) && !LeftHeld(keys) && !RightHeld(keys)
    ensures LengthSq(KeyboardDirection(m, keys, true, ViewDirection(m, camera, avatar))) == 1.0
  {
    var view := ViewDirection(m, camera, avatar);
    ViewNotVertical(m, camera, avatar);
    SingleKeyDirection(m, keys, view);
  }

  /** The module-level state of game.js. */
  class Game {
    const math: MathLib
    var keys: KeyMap
    var clickMoving: bool
    var targetPosition: Vec3
    var avatar: Avatar
    var orbit: Orbit
    var isDragging: bool
    var previousMouse: MousePosition
    var mouseDownTime: int
    var cameraPosition: Vec3
    /** The camera's world direction as its last `lookAt` left it (three.js's `getWorldDirection`). */
    var cameraView: Vec3
    var invisWalls: seq<Box3>
    var popup: Popup
    /** `currentScene === mainScene`. */
    var inMainScene: bool

    ghost predicate Valid()
      reads this`invisWalls
    {
      SqrtExact(math) && WallCopies(invisWalls)
    }

    function Current(): Snapshot
      reads this
    {
      Snapshot(keys, clickMoving, targetPosition, avatar, orbit, cameraPosition, cameraView, invisWalls, popup, inMainScene)
    }

    /**
     * `initGame` (game.js:72-166) up to the avatar model loading: the
     * placeholder avatar at the origin, the default target and direction,
     * the camera at the origin looking along -z, as a fresh three.js camera does.
     */
    constructor(m: MathLib)
      requires SqrtExact(m)
      ensures Valid() && math == m
      ensures keys == map[] && !clickMoving && targetPosition == Vec3(0.0, 20.0, 0.0)
      ensures avatar == Avatar(Zero, 0.0, Vec3(0.0, 0.0, 1.0))
      ensures orbit == Orbit(0.0, 0.0) && !isDragging && previousMouse == MousePosition(0.0, 0.0)
      ensures mouseDownTime == 0 && cameraPosition == Zero && cameraView == Vec3(0.0, 0.0, -1.0)
      ensures invisWalls == [] && popup == Hidden
      ensures inMainScene
    {
      math := m;
      keys := map[];
      clickMoving := false;
      targetPosition := Vec3(0.0, 20.0, 0.0);
      avatar := Avatar(Zero, 0.0, Vec3(0.0, 0.0, 1.0));
      orbit := Orbit(0.0, 0.0);
      isDragging := false;
      previousMouse := MousePosition(0.0, 0.0);
      mouseDownTime := 0;
      cameraPosition := Zero;
      cameraView := Vec3(0.0, 0.0, -1.0);
      invisWalls := [];
      popup := Hidden;
      inMainScene := true;
    }

    /**
     * The avatar model's load callback (game.js:125-153): start position and
     * facing, camera behind it and looking at it.
     */
    method OnAvatarLoaded()
      requires Valid()
      modifies this`avatar, this`cameraPosition, this`cameraView
      ensures avatar == old(avatar).(position := StartPosition, rotationY := StartRotation)
      ensures cameraPosition == Add(StartPosition, CameraOffset)
      ensures cameraView == ViewDirection(math, cameraPosition, StartPosition)
    {
      avatar := avatar.(position := StartPosition);
      avatar := avatar.(rotationY := StartRotation);
      cameraPosition := Add(avatar.position, CameraOffset);
      cameraView := ViewDirection(math, cameraPosition, avatar.position);
    }

    /** `onKeyDown` (game.js:501-503). */
    method KeyDown(key: string)
      modifies this`keys
      ensures keys == Press(old(keys), key, true)
    {
      keys := keys[ToLower(key) := true];
    }

    /** `onKeyUp` (game.js:505-507). */
    method KeyUp(key: string)
      modifies this`keys
      ensures keys == Press(old(keys), key, false)
    {
      keys := keys[ToLower(key) := false];
    }

    /** `onWindowBlur` (game.js:497-499): no key is held afterwards. */
    method WindowBlur()
      modifies this`keys
      ensures keys == map[]
      ensures forall k :: !Held(keys, k)
    {
      keys := map[];
    }

    /** `onMouseDown` on the canvas (game.js:447-449), at time `now`. */
    method CanvasMouseDown(now: int)
      modifies this`mouseDownTime
      ensures mouseDownTime == now
    {
      mouseDownTime := now;
    }

    /**
     * `onMouseUp` on the canvas (game.js:451-458) at time `now`; `floorHit`
     * is the point the click ray meets the floor at, if any.
     */
    method CanvasMouseUp(now: int, floorHit: Option<Vec3>)
      modifies this`targetPosition, this`clickMoving
      ensures IsClick(mouseDownTime, now) && ClickTarget(floorHit).Some? ==>
                targetPosition == ClickTarget(floorHit).value && clickMoving
      ensures !(IsClick(mouseDownTime, now) && ClickTarget(floorHit).Some?) ==>
                targetPosition == old(targetPosition) && clickMoving == old(clickMoving)
    {
      if now - mouseDownTime < ClickThreshold {
        MouseClick(floorHit);
      }
    }

    /** `onMouseClick` (game.js:460-479). */
    method MouseClick(floorHit: Option<Vec3>)
      modifies this`targetPosition, this`clickMoving
      ensures ClickTarget(floorHit).Some? ==> targetPosition == ClickTarget(floorHit).value && clickMoving
      ensures ClickTarget(floorHit).None? ==>
                targetPosition == old(targetPosition) && clickMoving == old(clickMoving)
    {
      if floorHit.Some? && floorHit.value.y > FloorCutoff {
        targetPosition := floorHit.value;
        targetPosition := targetPosition.(y := TargetHeight);
        clickMoving := true;
      }
    }

    /** The document's `mousedown` listener (game.js:667-670). */
    method DocumentMouseDown(x: real, y: real)
      modifies this`isDragging, this`previousMouse
      ensures isDragging && previousMouse == MousePosition(x, y)
    {
      isDragging := true;
      previousMouse := MousePosition(x, y);
    }

    /** The document's `mouseup` listener (game.js:672-674). */
    method DocumentMouseUp()
      modifies this`isDragging
      ensures !isDragging
    {
      isDragging := false;
    }

    /** The document's `mouseleave` listener (game.js:676-680). */
    method MouseLeave()
      modifies this`isDragging
      ensures !isDragging
    {
      if isDragging {
        isDragging := false;
      }
    }

    /** The document's `mousemove` listener (game.js:682-708) at mouse position `(x, y)`. */
    method MouseMoved(x: real, y: real)
      modifies this`orbit, this`previousMouse
      ensures orbit == MouseMove(old(orbit), isDragging, x - old(previousMouse).x, y - old(previousMouse).y)
      ensures previousMouse == MousePosition(x, y)
    {
      var dx := x - previousMouse.x;
      var dy := y - previousMouse.y;
      if isDragging {
        orbit := orbit.(pitch := orbit.pitch - dy * CameraRotationSpeed);
        orbit := orbit.(yaw := orbit.yaw - dx * CameraRotationSpeed);
        orbit := orbit.(pitch := ClampPitch(orbit.pitch));
        previousMouse := MousePosition(x, y);
      } else {
        orbit := orbit.(pitch := orbit.pitch - dy * PassiveRotationSpeed);
        orbit := orbit.(yaw := orbit.yaw - dx * PassiveRotationSpeed);
        previousMouse := MousePosition(x, y);
      }
    }

    /**
     * `isCollision(p, ignore)` (game.js:740-785): both walls are appended to
     * `invisWalls`, then every entry is tested.
     */
    method IsCollision(p: Vec3, ignore: Option<nat>) returns (r: Option<Hit>)
      requires Valid()
      modifies this`invisWalls
      ensures Valid()
      ensures invisWalls == old(invisWalls) + PushedWalls
      ensures r == Scan(math, invisWalls, p, ignore)
    {
      WallCopiesAppend(invisWalls);
      invisWalls := invisWalls + [LeftWall];
      invisWalls := invisWalls + [RightWall];
      r := LastHit(math, invisWalls, p, ignore);
    }

    /** `updateRotation(v)` (game.js:641-658); `u` is `v` after it was normalised in place. */
    method UpdateRotation(v: Vec3) returns (u: Vec3)
      requires Valid()
      modifies this`avatar
      ensures Turned(avatar, u) == Motion.UpdateRotation(math, old(avatar), v)
    {
      u := v;
      if Length(math, u) > 0.0 {
        u := Normalize(math, u);
        avatar := avatar.(lastDirection := u);
        var targetAngle := math.atan2(u.x, u.z) - HalfPi;
        avatar := avatar.(rotationY := LerpScalar(avatar.rotationY, targetAngle, 1.0));
      }
    }

    /**
     * `keyboardMovement` (game.js:533-571), after the camera has been turned
     * towards the avatar: the summed direction of the held keys.
     */
    method KeyboardMovement(visited: bool) returns (d: Vec3)
      requires Valid()
      modifies this`clickMoving
      ensures d == KeyboardDirection(math, keys, visited, cameraView)
      ensures clickMoving == (old(clickMoving) && !(visited && MovementKeyHeld(keys)))
    {
      d := Zero;
      var view := cameraView;
      if visited {
        if ForwardHeld(keys) {
          clickMoving := false;
          d := Add(d, Forward(math, view));
        }
        if BackHeld(keys) {
          clickMoving := false;
          d := Add(d, Neg(Forward(math, view)));
        }
        if LeftHeld(keys) {
          clickMoving := false;
          d := Add(d, LeftOf(math, view));
        }
        if RightHeld(keys) {
          clickMoving := false;
          d := Add(d, RightOf(math, view));
        }
      }
    }

    /** `clickToMove` (game.js:573-597). */
    method ClickToMove()
      requires Valid()
      modifies this`avatar, this`clickMoving, this`invisWalls
      ensures Valid()
      ensures ClickOutcome(avatar, clickMoving, invisWalls) ==
              Motion.ClickToMove(math, old(invisWalls), old(avatar), targetPosition, old(clickMoving))
    {
      if clickMoving {
        var moving := ToTarget(avatar, targetPosition);
        if Length(math, moving) > Speed {
          var step := Scale(Normalize(math, moving), Speed);
          var probe := Add(avatar.position, step);
          var r := IsCollision(probe, None);
          if r.None? {
            avatar := avatar.(position := probe);
            var _ := UpdateRotation(step);
          } else {
            clickMoving := false;
          }
        } else {
          clickMoving := false;
        }
      }
    }

    /** `keyboardMovingSlide(d)` (game.js:599-638). */
    method KeyboardMovingSlide(d: Vec3)
      requires Valid()
      modifies this`avatar, this`invisWalls
      ensures Valid()
      ensures SlideOutcome(avatar, invisWalls) == Motion.KeyboardMovingSlide(math, old(invisWalls), old(avatar), d)
    {
      ghost var walls0, avatar0 := invisWalls, avatar;
      var hit := IsCollision(Add(avatar.position, d), None);
      ghost var t := Motion.UpdateRotation(math, avatar, d);
      var u := UpdateRotation(d);
      assert Turned(avatar, u) == t;
      match hit {
        case None =>
          avatar := avatar.(position := Add(avatar.position, Scale(u, Speed)));
        case Some(h) =>
          var slide := ProjectOnPlane(u, h.normal);
          if Length(math, slide) > 0.0 {
            var n := Normalize(math, slide);
            var sliding := Add(avatar.position, Scale(n, Speed));
            var after := IsCollision(sliding, Some(h.wall));
            if after.None? {
              avatar := avatar.(position := sliding);
            }
          }
      }
      assert SlideOutcome(avatar, invisWalls) == SlideFrom(math, walls0 + PushedWalls, t, hit);
    }

    /** `updateCamera` (game.js:710-733): the camera follows the avatar and looks at it. */
    method UpdateCamera()
      requires Valid()
      modifies this`cameraPosition, this`cameraView
      ensures cameraPosition == Follow(old(cameraPosition), DesiredCamera(math, orbit, avatar.position))
      ensures cameraView == ViewDirection(math, cameraPosition, avatar.position)
    {
      var offset := math.rotateYXZ(CameraOffset, orbit.pitch, orbit.yaw);
      if offset.y < MinCameraHeight {
        offset := offset.(y := MinCameraHeight);
      }
      var desired := Add(avatar.position, offset);
      cameraPosition := Lerp(cameraPosition, desired, FollowFactor);
      cameraView := ViewDirection(math, cameraPosition, avatar.position);
    }

    /** `onDoorway` (game.js:381-397). */
    method OnDoorway()
      modifies this`popup
      ensures popup == PopupFor(Occupied(Doors, avatar.position))
    {
      var standing := StandingOn(Doors, avatar.position);
      var length := |standing|;
      if length > 0 {
        popup := TurnOptionsOn(standing, length);
      } else {
        popup := Hidden;
      }
    }

    /** `moveScene` (game.js:399-405): no key held, click movement off, popup hidden. */
    method MoveScene()
      modifies this`clickMoving, this`keys, this`popup
      ensures !clickMoving && keys == map[] && popup == Hidden
    {
      clickMoving := false;
      keys := map[];
      popup := Hidden;
    }

    /** Any enter button (game.js:407-437): leave the main scene for the showcase scene. */
    method EnterShowcase()
      modifies this`clickMoving, this`keys, this`popup, this`inMainScene
      ensures !clickMoving && keys == map[] && popup == Hidden && !inMainScene
    {
      MoveScene();
      inMainScene := false;
    }

    /** The reset button (game.js:794-801). */
    method Reset()
      modifies this`inMainScene, this`avatar, this`clickMoving, this`keys
      ensures inMainScene && !clickMoving && keys == map[]
      ensures avatar == old(avatar).(position := StartPosition, rotationY := StartRotation)
    {
      inMainScene := true;
      avatar := avatar.(position := StartPosition);
      clickMoving := false;
      keys := map[];
      avatar := avatar.(rotationY := StartRotation);
    }

    /** The back button (game.js:803-805). */
    method Back()
      modifies this`inMainScene
      ensures inMainScene
    {
      inMainScene := true;
    }

    /** game.js:64-67: the movement part of `updateGame`. */
    method Move(visited: bool)
      requires Valid()
      modifies this`clickMoving, this`avatar, this`invisWalls
      ensures Valid()
      ensures Current() == FrameMoves(math, old(Current()), visited)
    {
      ghost var s := Current();
      var d := KeyboardMovement(visited);
      ghost var moving := clickMoving;
      ClickToMove();
      ghost var c := Motion.ClickToMove(math, s.walls, s.avatar, s.target, moving);
      assert c == ClickOutcome(avatar, clickMoving, invisWalls);
      KeyboardMovingSlide(d);
      ghost var o := Motion.KeyboardMovingSlide(math, c.walls, c.avatar, d);
      assert o == SlideOutcome(avatar, invisWalls);
      assert Current() == s.(clickMoving := c.moving, avatar := o.avatar, walls := o.walls);
      FrameMovesSteps(math, s, visited, d, moving, c, o);
    }

    /**
     * `updateGame` (game.js:39-70): `visited` is the stored first-visit flag
     * and `sceneReady` says the scene's models have all been added.
     */
    method UpdateGame(visited: bool, sceneReady: bool)
      requires Valid()
      modifies this`popup, this`cameraPosition, this`cameraView, this`clickMoving, this`avatar, this`invisWalls
      ensures Valid()
      ensures Current() == Frame(math, old(Current()), visited, sceneReady)
    {
      ghost var s := Current();
      if inMainScene {
        if sceneReady {
          OnDoorway();
        }
        ghost var popup1 := if sceneReady then PopupFor(Occupied(Doors, s.avatar.position)) else s.popup;
        assert popup == popup1;
        UpdateCamera();
        ghost var s1 := Current();
        assert s1 == s.(popup := popup1, camera := cameraPosition, view := cameraView);
        Move(visited);
        FrameInMainScene(math, s, visited, sceneReady, s1.camera);
      } else {
        FrameOutsideMainScene(math, s, visited, sceneReady);
      }
    }
  }
}
