# Avatar movement, collision, camera follow and doorways of the portfolio game

The portfolio is browser-based. Its main scene is a street, and an avatar walks
along it. `frontend/src/game.js` moves the avatar once per animation frame, either
with the keyboard (W/A/S/D or the arrow keys, relative to where the camera looks)
or by clicking on the floor, which walks the avatar towards the clicked point.

Movement is blocked by two invisible wall boxes. The avatar is a sphere of
radius 5. When a keyboard step hits a wall, the avatar tries to slide along it.
A camera rig orbits with the mouse and follows the avatar smoothly. Five doorway
boxes decide which "enter" buttons the entrance popup shows.

This project models that core over exact reals and proves properties of it:

- `vectors.dfy` holds the `Vector3` operations the code uses, and `MathLib`.
  `MathLib` stands for the host's `Math.sqrt` and `Math.atan2` and the Euler/quaternion
  rotation, which are parameters; only the square root is constrained, to be exact.
- `collision.dfy` holds `Box3`, `intersectsSphere`, the two walls, the
  collision normal, and `isCollision`'s scan over `invisWalls`. The scan is
  given both as a function (`Scan`) and as the loop (`LastHit`).
- `input.dfy` holds the key map with lower-cased names, the click-versus-drag
  rule, the click target and the mouse-driven orbit angles.
- `motion.dfy` holds `keyboardMovement`, `updateRotation`, `clickToMove` and
  `keyboardMovingSlide`, as functions of the state before the step.
- `camera.dfy` holds `updateCamera`: the rotated and raised offset, the 10 %
  smoothing, and the view direction that `lookAt` leaves behind, with its
  fallbacks for a camera on the target and for a vertical view.
- `doorways.dfy` holds the doorway boxes, `onDoorway`'s list of showcases
  stood on, and the popup state it selects.
- `game.dfy` holds the module state of `game.js` as the class `Game.Game`, with
  one method per event handler and per frame step. Each method is proved
  against the functions above. `Game.Frame` states a whole `updateGame`
  call on a snapshot of the state, and the lemmas beside it are about whole frames.

## Model

| member | source | states |
|---|---|---|
| Vectors.LengthZero | frontend/src/game.js:578 | a vector has length zero exactly when it is the zero vector |
| Vectors.NormalizeLength | frontend/src/game.js:579 | `normalize` turns every non-zero vector into a unit vector |
| Vectors.NormalizeTimesLength | frontend/src/game.js:644 | the normalised vector scaled by the old length gives the input back, so normalising keeps the direction |
| Vectors.NormalizeUnit | frontend/src/game.js:644 | a unit vector has length 1 and is left unchanged by `normalize` |
| Vectors.ProjectOnPlane | frontend/src/game.js:618-620 | projecting on the plane of a zero normal returns the direction unchanged |
| Vectors.ProjectOnPlaneOrthogonal | frontend/src/game.js:618-620 | the projected direction is orthogonal to a non-zero normal, and it agrees with the input along every direction orthogonal to the normal |
| Vectors.ProjectZero | frontend/src/game.js:618-620 | nothing is left after projecting the zero vector |
| Vectors.Lerp | frontend/src/game.js:729 | the interpolated point's offset from the goal is the old offset times `1 - t` |
| Vectors.LerpScalar | frontend/src/game.js:653 | interpolation with factor 1 lands exactly on the target angle, and with factor 0 stays at the start |
| Collision.Clamp | frontend/src/game.js:766-768 | the clamped coordinate lies within the box's range, and one already inside is kept |
| Collision.ClampPoint | frontend/src/game.js:765-769 | the closest point lies in the box, and it is the point itself exactly when the box contains that point |
| Collision.ClampPointNearest | frontend/src/game.js:763-769 | no point of the box is nearer to the avatar than the clamped point |
| Collision.IntersectsSphereMeaning | frontend/src/game.js:743 | the clamp-and-compare test of `intersectsSphere` holds exactly when some point of the box lies in the avatar's ball |
| Collision.WallNormal | frontend/src/game.js:771-775 | the collision normal is horizontal, and it is zero when the probe is inside the wall |
| Collision.WallCopiesAppend | frontend/src/game.js:756-757 | appending the two walls keeps the list made of copies of the two walls |
| Collision.Scan | frontend/src/game.js:759-778 | a reported hit names an entry that is not the ignored one and meets the sphere, and it carries that entry's normal |
| Collision.ScanFindsBlocker | frontend/src/game.js:759-784 | a collision is reported exactly when some tested entry meets the sphere |
| Collision.ScanReportsLast | frontend/src/game.js:759-778 | no entry after the reported one meets the sphere, so the last colliding wall wins |
| Collision.ScanNoneClear | frontend/src/game.js:780-784 | when `null` is returned, no tested non-empty entry meets the sphere |
| Collision.IgnoreNeverMatters | frontend/src/game.js:756-761 | the list always ends with fresh copies of both walls, so ignoring one entry never changes whether a collision is reported |
| Collision.LastHit | frontend/src/game.js:759-778 | the loop over the wall list returns the result of the scan |
| Input.LowerChar | frontend/src/game.js:502 | the result is never an upper-case ASCII letter; an upper-case letter maps to its lower-case form and every other character is kept |
| Input.ToLower | frontend/src/game.js:502 | lower-casing keeps the length and maps each character by `LowerChar` |
| Input.Press | frontend/src/game.js:501-507 | the lower-cased key is set to held or released, it is added to the map's keys, and every other entry is kept |
| Input.PressHeld | frontend/src/game.js:501-507 | after a key event only the lower-cased key may change whether it is held |
| Input.PressFoldsCase | frontend/src/game.js:502 | "W" and "ArrowUp" hold the names "w" and "arrowup" that movement looks up, and releasing "d" undoes pressing "D" |
| Input.ClickTarget | frontend/src/game.js:470-475 | a target exists exactly when the ray hits the floor above -25, and it is the hit point raised to height 20 |
| Input.ClampPitch | frontend/src/game.js:691-694 | the pitch is kept within plus or minus half pi: a pitch above is set to half pi, one below to minus half pi, and one already inside is left unchanged |
| Input.MouseMove | frontend/src/game.js:682-708 | a drag turns the yaw at 0.0008 per pixel and sets the pitch to the clamped result of turning it at that speed; a passive move turns both at 0.00005 per pixel, unclamped |
| Input.PassiveMovesDrift | frontend/src/game.js:699-707 | over any run of passive moves the pitch drifts by 0.00005 times the summed vertical deltas |
| Input.PassiveMoveLeavesRange | frontend/src/game.js:699-707 | a passive move can take the pitch past the limit that a drag enforces |
| Motion.Forward | frontend/src/game.js:540-542 | the forward direction is horizontal |
| Motion.LeftOf | frontend/src/game.js:556-558 | the left direction is horizontal |
| Motion.RightOf | frontend/src/game.js:564-566 | the right direction is horizontal |
| Motion.KeyboardDirection | frontend/src/game.js:533-571 | the summed direction is horizontal, and it is zero before the first visit or when no movement key is held |
| Motion.RightIsOppositeLeft | frontend/src/game.js:553-567 | the right direction is the negation of the left one |
| Motion.SidesPerpendicular | frontend/src/game.js:540-567 | left and right are both perpendicular to forward |
| Motion.DirectionsUnit | frontend/src/game.js:540-567 | unless the camera looks straight down, forward, left and right are unit vectors |
| Motion.OppositeKeysCancel | frontend/src/game.js:533-571 | holding both of each opposite pair (or neither) gives the zero direction |
| Motion.SingleKeyDirection | frontend/src/game.js:537-544 | forward alone gives exactly the unit forward direction |
| Motion.UpdateRotation | frontend/src/game.js:641-658 | turning never moves the avatar, and a zero input changes nothing |
| Motion.UpdateRotationFaces | frontend/src/game.js:641-658 | a non-zero input becomes its unit vector in the same direction; it is stored as the last direction, and the facing is `atan2(x, z) - pi/2` of it |
| Motion.LongerThanSpeed | frontend/src/game.js:578 | the distance exceeds the speed exactly when its square exceeds the speed squared |
| Motion.ClickArrives | frontend/src/game.js:592-595 | within one step of the target the avatar stops where it is, click movement is switched off, and no wall is pushed |
| Motion.ClickBlocked | frontend/src/game.js:582-591 | a colliding step switches click movement off and leaves the avatar in place, after one wall pair was pushed |
| Motion.ClickAdvances | frontend/src/game.js:575-587 | a free step moves the avatar horizontally by exactly 0.8 towards the target, stores the unit direction to it as the last direction and sets the facing to `atan2(x, z) - pi/2` of that direction; the horizontal distance shrinks by exactly 0.8, and the new position is clear of every wall entry |
| Motion.ClickKeepsHeight | frontend/src/game.js:573-597 | in every branch the height is kept and at most one wall pair is pushed; with click movement off the state is returned unchanged, nothing pushed |
| Motion.NormalizeScaled | frontend/src/game.js:579 | the step of length 0.8 points along the unit direction it was built from |
| Motion.RemainingDistance | frontend/src/game.js:575-586 | after a step towards the target, the remaining horizontal distance is 0.8 less |
| Motion.SlideFromShape | frontend/src/game.js:611-637 | after the turn, only the position can change, and the list grows by at most one more pair |
| Motion.SlideWalls | frontend/src/game.js:601-602 | one keyboard step pushes one wall pair, or two when a slide is probed |
| Motion.SlideFromZeroClear | frontend/src/game.js:612-615 | with a zero direction and a clear probe the avatar stays where it is |
| Motion.SlideFromZeroHit | frontend/src/game.js:616-622 | with a zero direction there is nothing to slide along, and the avatar stays |
| Motion.SlideZeroDirection | frontend/src/game.js:599-638 | a zero direction changes neither the position nor the facing, whatever the probe finds |
| Motion.SlideFacing | frontend/src/game.js:611 | the facing and the last direction follow a non-zero direction, whether or not the move is blocked |
| Motion.SlideUnobstructed | frontend/src/game.js:611-615 | with a clear probe, the avatar moves exactly 0.8 along the normalised direction, however many keys are held |
| Motion.UnitStepClear | frontend/src/game.js:611-615 | with a clear probe, a unit direction is applied as it is, scaled by 0.8 |
| Motion.SlideFromHit | frontend/src/game.js:616-635 | on a hit the avatar moves to the slid position exactly when the slide direction is non-zero and that position is clear of all but the reported wall |
| Motion.SlideOrthogonal | frontend/src/game.js:617-620 | the slide direction is orthogonal to a non-zero wall normal |
| Motion.SlideOnCollision | frontend/src/game.js:601-636 | after a collision, the avatar ends at the slid position or stays put, exactly as the second probe decides |
| Motion.SlideEndsClear | frontend/src/game.js:624-633 | an accepted slide ends clear of every wall entry, the ignored one included |
| Motion.SlideFromKeepsHeight | frontend/src/game.js:611-636 | a horizontal direction and a horizontal normal keep the height |
| Motion.SlideKeepsHeight | frontend/src/game.js:599-638 | a horizontal keyboard direction never changes the avatar's height |
| Motion.ProbeMissesDestination | frontend/src/game.js:601-615 | the probe is one raw direction ahead while the move is 0.8 along it, so a clear probe can lead into the left wall |
| Camera.RaiseOffset | frontend/src/game.js:724-726 | the offset's height is at least 10, with x and z kept; only a lower height is changed |
| Camera.RotatedOffset | frontend/src/game.js:712-726 | the rotated offset is never lower than 10 |
| Camera.DesiredCamera | frontend/src/game.js:728 | the desired camera position is the avatar plus the rotated offset, so at least 10 above the avatar |
| Camera.Follow | frontend/src/game.js:729 | the camera's offset from the desired position shrinks to nine tenths |
| Camera.FollowCloser | frontend/src/game.js:729 | the squared distance to the desired position becomes 0.81 of what it was; it strictly shrinks unless the camera is already there, where it stays |
| Camera.FollowFramesGeometric | frontend/src/game.js:729 | after n frames standing still, the remaining offset is 0.9^n of the first one |
| Camera.PowerBounds | frontend/src/game.js:729 | the per-frame factor's powers stay in (0, 1], so the camera never overshoots and never quite arrives |
| Camera.EyeOffsetNonZero | frontend/src/game.js:732 | the eye-to-target offset `lookAt` works with is never zero: a zero offset is replaced by (0, 0, 1), any other is kept |
| Camera.UnparallelUnit | frontend/src/game.js:732 | after `lookAt`'s nudge of a vertical axis, the axis is still a unit vector and is no longer vertical |
| Camera.ViewDirection | frontend/src/game.js:732 | the direction the camera looks in after `lookAt` is always a unit vector, the fallbacks of `lookAt` included |
| Camera.ViewNotVertical | frontend/src/game.js:732 | the camera never looks straight up or down after `lookAt`: the view always has a horizontal part |
| Camera.ViewTowardsAvatar | frontend/src/game.js:732 | unless the camera is straight above or below the avatar, it looks along the unit vector from the camera to the avatar |
| Game.ForwardKeyAlwaysMoves | frontend/src/game.js:537-544 | wherever the camera is, holding only the forward key after the first visit gives a unit direction |
| Doorways.Occupied | frontend/src/game.js:381-390 | at most one showcase is listed per door |
| Doorways.OccupiedMembers | frontend/src/game.js:385-389 | a showcase is listed exactly when one of its doors contains the avatar's position |
| Doorways.StandingOn | frontend/src/game.js:381-390 | the loop builds the list of showcases stood on |
| Doorways.OccupiedInOrder | frontend/src/game.js:317-321 | the list holds the showcases whose box contains the point, in the order the doors were assigned |
| Doorways.SkillsWithShop | frontend/src/game.js:312-321 | the skills and shop boxes coincide, so the two are listed together, skills then shop, at the end |
| Doorways.TurnOptionsOn | frontend/src/game.js:341-379 | the popup is shown; the two-option text appears exactly when more than one showcase is given, the one-option text otherwise; the buttons shown are exactly the given showcases |
| Doorways.PopupMeaning | frontend/src/game.js:391-396 | the popup is shown exactly when something is stood on and offers two options exactly when more than one is; its buttons are exactly those stood on, and everything is hidden when nothing is |
| Doorways.SkillsDoorOffersTwo | frontend/src/game.js:312-315 | on the skills and shop entrance the popup always offers two options, with both buttons |
| Game.Frame | frontend/src/game.js:39-70 | a frame never changes the keys, the click target, the orbit or the scene; outside the main scene it changes nothing at all |
| Game.FrameMoves | frontend/src/game.js:64-67 | the movement part of a frame leaves the camera, the way it looks and the popup alone |
| Game.KeyCancelsClick | frontend/src/game.js:536-539 | after the first visit, a held movement key switches click movement off before `clickToMove` runs, so no click step is taken that frame: the avatar and the walls end exactly as the keyboard step alone leaves them, with one or two wall pairs pushed |
| Game.FrameKeepsHeight | frontend/src/game.js:64-67 | no frame changes the avatar's height |
| Game.FrameWalls | frontend/src/game.js:756-757 | each frame in the main scene appends two to six wall entries, all copies of the two walls, and keeps the existing entries |
| Game.MovesWalls | frontend/src/game.js:66-67 | click-to-move followed by the keyboard step appends exactly one, two or three whole wall pairs, all copies of the two walls, and keeps the existing entries |
| Game.FrameCamera | frontend/src/game.js:62 | each frame the camera's squared distance to the desired position becomes 0.81 of what it was |
| Game.FramePopup | frontend/src/game.js:49-60 | once the scene has loaded, the popup follows the doorways stood on; before that it is left alone |
| Game.Game.constructor | frontend/src/game.js:72-121 | the initial state: no key held, click movement off, target (0, 20, 0), last direction (0, 0, 1), the camera at the origin looking along -z, no walls, popup hidden, main scene |
| Game.Game.OnAvatarLoaded | frontend/src/game.js:125-150 | the avatar is placed at (93, -8, -134) facing -pi/4, and the camera at that position plus the camera offset (400, 300, 400), looking at the avatar |
| Game.Game.KeyDown | frontend/src/game.js:501-503 | the key map afterwards is the key press applied to the old one |
| Game.Game.KeyUp | frontend/src/game.js:505-507 | the key map afterwards is the key release applied to the old one |
| Game.Game.WindowBlur | frontend/src/game.js:497-499 | no key is held afterwards |
| Game.Game.CanvasMouseDown | frontend/src/game.js:447-449 | the press time is recorded |
| Game.Game.CanvasMouseUp | frontend/src/game.js:451-458 | a press shorter than 150 ms that hits the floor above -25 sets the target and starts click movement; otherwise both are kept |
| Game.Game.MouseClick | frontend/src/game.js:460-479 | an accepted floor hit becomes the target and starts click movement; otherwise both are kept |
| Game.Game.DocumentMouseDown | frontend/src/game.js:667-670 | dragging starts at the mouse position |
| Game.Game.DocumentMouseUp | frontend/src/game.js:672-674 | dragging stops |
| Game.Game.MouseLeave | frontend/src/game.js:676-680 | dragging stops |
| Game.Game.MouseMoved | frontend/src/game.js:682-708 | the orbit moves by the mouse deltas as `MouseMove` states, and the mouse position is recorded |
| Game.Game.IsCollision | frontend/src/game.js:740-785 | both walls are appended to `invisWalls`, and the result is the scan of the grown list |
| Game.Game.UpdateRotation | frontend/src/game.js:641-658 | the avatar and the normalised input are those `Motion.UpdateRotation` gives |
| Game.Game.KeyboardMovement | frontend/src/game.js:533-571 | the direction is the keyboard direction for the way the camera looks; click movement is switched off exactly when a movement key is held after the first visit |
| Game.Game.ClickToMove | frontend/src/game.js:573-597 | the avatar, `clickMoving` and `invisWalls` afterwards are `Motion.ClickToMove` of the old state |
| Game.Game.KeyboardMovingSlide | frontend/src/game.js:599-638 | the avatar and `invisWalls` afterwards are `Motion.KeyboardMovingSlide` of the old state |
| Game.Game.UpdateCamera | frontend/src/game.js:710-733 | the camera moves a tenth of the way to the avatar plus the rotated and raised offset, then looks along `ViewDirection` from its new position to the avatar |
| Game.Game.OnDoorway | frontend/src/game.js:381-397 | the popup becomes the one for the doorways containing the avatar |
| Game.Game.MoveScene | frontend/src/game.js:399-405 | click movement is off, no key is held, and the popup is hidden |
| Game.Game.EnterShowcase | frontend/src/game.js:407-438 | as `MoveScene`, and the main scene is left |
| Game.Game.Reset | frontend/src/game.js:794-801 | back in the main scene at the start position facing -pi/4, with click movement off and no key held |
| Game.Game.Back | frontend/src/game.js:803-805 | back in the main scene |
| Game.Game.Move | frontend/src/game.js:64-67 | the state afterwards is `FrameMoves` of the old state, and the wall list still holds only copies of the two walls |
| Game.Game.UpdateGame | frontend/src/game.js:39-70 | the state afterwards is `Frame` of the old state, and the wall list still holds only copies of the two walls |

## Left out

- The DOM is not modelled: the loading screen, the welcome popup and its OK button, the game buttons, the cursor style, the dark spot marking a click target, and the texts turned towards the camera. Only the entrance popup is modelled, as the abstract `Popup` state.
- `localStorage`'s `visited` flag is a parameter (`visited`) of the frame and of `KeyboardMovement`. Writing the flag (the welcome popup's OK button) is DOM and storage I/O.
- What `updateGame` reads from the scene graph is also a parameter (`sceneReady`): the `loading` flag and whether the buildings, shop and floor have been added. `appearingItemsAfterLoad` itself is DOM only.
- The click's raycast against the floor is a parameter: `floorHit` is the first intersection point, if any. `Date.now()` is also a parameter (`now`).
- `Math.sqrt`, `Math.atan2` and the `YXZ` Euler-to-quaternion rotation are parameters (`MathLib`). Only the square root is constrained, to be the exact root. Floating-point rounding is not modelled: all arithmetic is on exact reals.
- `toLowerCase` is modelled on ASCII letters only. Other scripts' case mappings are not modelled.
- `initGame` is modelled only through the state it leaves. Model loading (GLTF and fonts), the meshes, shadows, the animation mixer, `createBuildings`, `createDetails` and `createText` are left out. The window resize handler is left out too.
- The `character !== undefined` guards and `if (character)` are left out: the model always has an avatar. The constructor gives it the placeholder transform at the origin; `OnAvatarLoaded` moves it to the start.
- `mainScene` is undefined until the first `updateGame` assigns it (game.js:40); `moveScene` also assigns it (game.js:403). The model's `inMainScene` stands for `currentScene === mainScene` once the first assignment has happened.
- `Game.Game.constructor`: the popup starts hidden because the page's initial markup hides it; that markup is not part of this model.
- `Game.Game.EnterShowcase` sets `inMainScene` to false in place of `initProjectsGame()`. `frontend/src/projects.js`, `frontend/src/building.js` and the rest of `frontend/src/main.js` are not part of this model. The only piece of `main.js` used is `CAMERA_OFFSET` (main.js:18).
- three.js's `lookAt` is modelled for a camera without a parent and with the default up (0, 1, 0). Its zero-length tests are made on exact reals.
- `Camera.RotatedOffset` does not constrain the rotation. It only states that the offset is raised to a height of at least 10, because the rotation is a host primitive.
- Wall identity (`wall === ignoreWall`) is modelled as the entry's index in `invisWalls`. Every push creates a new `Box3`, so identity and position coincide.

The model follows the code wherever the code's behaviour could be misread:

- When several walls intersect the sphere, the last one in list order is reported (`Collision.ScanReportsLast`).
- `invisWalls` grows by a wall pair on every `isCollision` call and is never cleared (`Game.FrameWalls`).
- The passive (non-drag) mouse look does not clamp the pitch (`Input.PassiveMoveLeavesRange`).
- The keyboard probe is taken at `position + direction` with the raw summed direction. The move itself is 0.8 along the normalised direction. A clear probe can therefore lead into a wall (`Motion.ProbeMissesDestination`).
- A zero keyboard direction still calls `isCollision`, and so still pushes walls (`Motion.SlideWalls`).
- Click movement stops within 0.8 of the target without stepping onto it (`Motion.ClickArrives`).
