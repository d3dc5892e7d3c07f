/**
 * Avatar motion of game.js: the keyboard direction, the facing update, one
 * click-to-move step and one keyboard step with sliding along walls, as
 * functions of the state before the step.
 */
module Motion {
  import opened Options
  import opened Vectors
  import opened Collision
  import opened Input

  /** game.js:11: distance covered per frame. */
  const Speed: real := 0.8

  predicate ForwardHeld(keys: KeyMap) { Held(keys, "w") || Held(keys, "arrowup") }
  predicate BackHeld(keys: KeyMap) { Held(keys, "s") || Held(keys, "arrowdown") }
  predicate LeftHeld(keys: KeyMap) { Held(keys, "a") || Held(keys, "arrowleft") }
  predicate RightHeld(keys: KeyMap) { Held(keys, "d") || Held(keys, "arrowright") }

  predicate MovementKeyHeld(keys: KeyMap) {
    ForwardHeld(keys) || BackHeld(keys) || LeftHeld(keys) || RightHeld(keys)
  }

  /** The camera's viewing direction flattened and normalised. */
  function Forward(m: MathLib, view: Vec3): (f: Vec3)
    requires SqrtExact(m)
    ensures f.y == 0.0
  {
    Normalize(m, Flat(view))
  }

  /** `(f.z, 0, -f.x)` normalised, for the flattened view `f`. */
  function LeftOf(m: MathLib, view: Vec3): (l: Vec3)
    requires SqrtExact(m)
    ensures l.y == 0.0
  {
    Normalize(m, Vec3(view.z, 0.0, -view.x))
  }

  /** `(-f.z, 0, f.x)` normalised, for the flattened view `f`. */
  function RightOf(m: MathLib, view: Vec3): (r: Vec3)
    requires SqrtExact(m)
    ensures r.y == 0.0
  {
    Normalize(m, Vec3(-view.z, 0.0, view.x))
  }

  /**
   * `keyboardMovement` (game.js:533-571): the sum of the unit directions of
   * the held keys, taken relative to the camera's view; nothing before the
   * first visit.
   */
  function KeyboardDirection(m: MathLib, keys: KeyMap, visited: bool, view: Vec3): (d: Vec3)
    requires SqrtExact(m)
    ensures d.y == 0.0
    ensures !visited || !MovementKeyHeld(keys) ==> d == Zero
  {
    if !visited then Zero
    else
      var d1 := if ForwardHeld(keys) then Add(Zero, Forward(m, view)) else Zero;
      var d2 := if BackHeld(keys) then Add(d1, Neg(Forward(m, view))) else d1;
      var d3 := if LeftHeld(keys) then Add(d2, LeftOf(m, view)) else d2;
      if RightHeld(keys) then Add(d3, RightOf(m, view)) else d3
  }

  /** Right is the opposite of left. */
  lemma RightIsOppositeLeft(m: MathLib, view: Vec3)
    requires SqrtExact(m)
    ensures RightOf(m, view) == Neg(LeftOf(m, view))
  {
    var l := Vec3(view.z, 0.0, -view.x);
    var r := Vec3(-view.z, 0.0, view.x);
    assert r == Neg(l);
    assert LengthSq(r) == LengthSq(l);
    var k := InverseLength(m, l);
    assert InverseLength(m, r) == k;
    NegScale(view.z, view.x, k);
  }

  lemma NegScale(z: real, x: real, k: real)
    ensures (-z) * k == -(z * k) && x * k == -((-x) * k) && 0.0 * k == -(0.0 * k)
  {
  }

  /** Left (and so right) is perpendicular to forward. */
  lemma SidesPerpendicular(m: MathLib, view: Vec3)
    requires SqrtExact(m)
    ensures Dot(LeftOf(m, view), Forward(m, view)) == 0.0
    ensures Dot(RightOf(m, view), Forward(m, view)) == 0.0
  {
    var f := Flat(view);
    var l := Vec3(view.z, 0.0, -view.x);
    assert LengthSq(l) == LengthSq(f);
    var k := InverseLength(m, f);
    assert InverseLength(m, l) == k;
    CrossTermsCancel(view.x, view.z, k);
    RightIsOppositeLeft(m, view);
    var lo := LeftOf(m, view);
    var fo := Forward(m, view);
    assert Dot(Neg(lo), fo) == -Dot(lo, fo) by { DotNeg(lo, fo); }
  }

  lemma DotNeg(a: Vec3, b: Vec3)
    ensures Dot(Neg(a), b) == -Dot(a, b)
  {
    NegMul(a.x, b.x);
    NegMul(a.y, b.y);
    NegMul(a.z, b.z);
  }

  lemma NegMul(a: real, b: real)
    ensures (-a) * b == -(a * b)
  {
  }

  lemma CrossTermsCancel(x: real, z: real, k: real)
    ensures (z * k) * (x * k) + (0.0 * k) * (0.0 * k) + ((-x) * k) * (z * k) == 0.0
  {
  }

  /** Unless the view is vertical, forward and the sides are unit vectors. */
  lemma DirectionsUnit(m: MathLib, view: Vec3)
    requires SqrtExact(m) && Flat(view) != Zero
    ensures LengthSq(Forward(m, view)) == 1.0
    ensures LengthSq(LeftOf(m, view)) == 1.0
    ensures LengthSq(RightOf(m, view)) == 1.0
  {
    var f := Flat(view);
    var l := Vec3(view.z, 0.0, -view.x);
    var r := Vec3(-view.z, 0.0, view.x);
    assert LengthSq(l) == LengthSq(f) && LengthSq(r) == LengthSq(f);
    LengthSqZero(f);
    LengthSqZero(l);
    LengthSqZero(r);
    NormalizeLength(m, f);
    NormalizeLength(m, l);
    NormalizeLength(m, r);
  }

  /** Opposite keys cancel: forward with back, left with right, or all four. */
  lemma OppositeKeysCancel(m: MathLib, keys: KeyMap, view: Vec3)
    requires SqrtExact(m)
    requires (ForwardHeld(keys) <==> BackHeld(keys)) && (LeftHeld(keys) <==> RightHeld(keys))
    ensures KeyboardDirection(m, keys, true, view) == Zero
  {
    RightIsOppositeLeft(m, view);
  }

  /** One held direction gives exactly that unit direction. */
  lemma SingleKeyDirection(m: MathLib, keys: KeyMap, view: Vec3)
    requires SqrtExact(m) && Flat(view) != Zero
    requires ForwardHeld(keys) && !BackHeld(keys) && !LeftHeld(keys) && !RightHeld(keys)
    ensures KeyboardDirection(m, keys, true, view) == Forward(m, view)
    ensures LengthSq(KeyboardDirection(m, keys, true, view)) == 1.0
  {
    DirectionsUnit(m, view);
  }

  /**
   * The avatar's transform (`character.position`, `character.rotation.y`)
   * and the module-level `lastDirection`.
   */
  datatype Avatar = Avatar(position: Vec3, rotationY: real, lastDirection: Vec3)

  /** `updateRotation(v)`: the avatar afterwards and `v` after it was normalised in place. */
  datatype Turned = Turned(avatar: Avatar, direction: Vec3)

  /**
   * `updateRotation` (game.js:641-658): a non-zero input is normalised and
   * becomes the last direction, and the avatar faces it; `lerp` with factor 1
   * lands exactly on the target angle. A zero input changes nothing.
   */
  function UpdateRotation(m: MathLib, a: Avatar, v: Vec3): (t: Turned)
    requires SqrtExact(m)
    ensures t.avatar.position == a.position
    ensures v == Zero ==> t == Turned(a, v)
  {
    LengthZero(m, v);
    if Length(m, v) > 0.0 then
      var u := Normalize(m, v);
      Turned(Avatar(a.position, LerpScalar(a.rotationY, m.atan2(u.x, u.z) - HalfPi, 1.0), u), u)
    else
      Turned(a, v)
  }

  /**
   * For a non-zero input the direction becomes a unit vector pointing the
   * same way, is recorded as the last direction, and sets the facing.
   */
  lemma UpdateRotationFaces(m: MathLib, a: Avatar, v: Vec3)
    requires SqrtExact(m) && v != Zero
    ensures var t := UpdateRotation(m, a, v);
      && t.direction == Normalize(m, v)
      && LengthSq(t.direction) == 1.0
      && Scale(t.direction, Length(m, v)) == v
      && t.avatar.lastDirection == t.direction
      && t.avatar.rotationY == m.atan2(t.direction.x, t.direction.z) - HalfPi
  {
    NormalizeLength(m, v);
    NormalizeTimesLength(m, v);
  }

  /** The result of `clickToMove`: the avatar, `clickMoving`, and `invisWalls`. */
  datatype ClickOutcome = ClickOutcome(avatar: Avatar, moving: bool, walls: seq<Box3>)

  function ToTarget(a: Avatar, target: Vec3): Vec3 {
    Flat(Sub(target, a.position))
  }

  /** The step of length `Speed` towards the target. */
  function ClickStep(m: MathLib, a: Avatar, target: Vec3): Vec3
    requires SqrtExact(m)
  {
    Scale(Normalize(m, ToTarget(a, target)), Speed)
  }

  /**
   * `clickToMove` (game.js:573-597): while click movement is on, step
   * `Speed` towards the target when it is further than that and the step is
   * clear; stop when it is not further, or when the step collides.
   */
  function ClickToMove(m: MathLib, walls: seq<Box3>, a: Avatar, target: Vec3, moving: bool): (o: ClickOutcome)
    requires SqrtExact(m)
  {
    if !moving then ClickOutcome(a, moving, walls)
    else if Length(m, ToTarget(a, target)) > Speed then
      var step := ClickStep(m, a, target);
      var probe := Add(a.position, step);
      var walls' := walls + PushedWalls;
      if Scan(m, walls', probe, None).None? then
        ClickOutcome(UpdateRotation(m, a.(position := probe), step).avatar, true, walls')
      else
        ClickOutcome(a, false, walls')
    else
      ClickOutcome(a, false, walls)
  }

  lemma LongerThanSpeed(m: MathLib, v: Vec3)
    requires SqrtExact(m)
    ensures Length(m, v) > Speed <==> LengthSq(v) > Speed * Speed
  {
    var l := Length(m, v);
    LengthSquared(m, v);
    if l > Speed {
      StrictSquareMono(l, Speed);
    } else {
      SquareMono(Speed, l);
    }
  }

  lemma StrictSquareMono(big: real, small: real)
    requires 0.0 <= small < big
    ensures small * small < big * big
  {
    PositiveProduct(big - small, big + small);
    assert (big - small) * (big + small) == big * big - small * small;
  }

  lemma PositiveProduct(a: real, b: real)
    requires a > 0.0 && b > 0.0
    ensures a * b > 0.0
  {
  }

  /** Click movement that is off stays off and changes nothing. */
  lemma ClickIdle(m: MathLib, walls: seq<Box3>, a: Avatar, target: Vec3)
    requires SqrtExact(m)
    ensures ClickToMove(m, walls, a, target, false) == ClickOutcome(a, false, walls)
  {
  }

  /**
   * Within one step of the target (horizontally) the avatar stops where
   * it is, without snapping onto the target and without a collision test.
   */
  lemma ClickArrives(m: MathLib, walls: seq<Box3>, a: Avatar, target: Vec3)
    requires SqrtExact(m)
    requires LengthSq(ToTarget(a, target)) <= Speed * Speed
    ensures ClickToMove(m, walls, a, target, true) == ClickOutcome(a, false, walls)
  {
    LongerThanSpeed(m, ToTarget(a, target));
  }

  /** A colliding step stops click movement and leaves the avatar where it is. */
  lemma ClickBlocked(m: MathLib, walls: seq<Box3>, a: Avatar, target: Vec3)
    requires SqrtExact(m)
    requires LengthSq(ToTarget(a, target)) > Speed * Speed
    requires Scan(m, walls + PushedWalls, Add(a.position, ClickStep(m, a, target)), None).Some?
    ensures ClickToMove(m, walls, a, target, true) == ClickOutcome(a, false, walls + PushedWalls)
  {
    LongerThanSpeed(m, ToTarget(a, target));
  }

  /**
   * A clear step moves the avatar horizontally by exactly `Speed` towards the
   * target, leaves it clear of every wall, faces it along the step, and
   * shortens the horizontal distance to the target by exactly `Speed`.
   */
  lemma ClickAdvances(m: MathLib, walls: seq<Box3>, a: Avatar, target: Vec3)
    requires SqrtExact(m)
    requires LengthSq(ToTarget(a, target)) > Speed * Speed
    requires Scan(m, walls + PushedWalls, Add(a.position, ClickStep(m, a, target)), None).None?
    ensures var o := ClickToMove(m, walls, a, target, true);
      && o.moving
      && o.walls == walls + PushedWalls
      && o.avatar.position.y == a.position.y
      && Sub(o.avatar.position, a.position) == Scale(Normalize(m, ToTarget(a, target)), Speed)
      && LengthSq(Sub(o.avatar.position, a.position)) == Speed * Speed
      && o.avatar.lastDirection == Normalize(m, ToTarget(a, target))
      && o.avatar.rotationY == m.atan2(o.avatar.lastDirection.x, o.avatar.lastDirection.z) - HalfPi
      && Length(m, ToTarget(o.avatar, target)) == Length(m, ToTarget(a, target)) - Speed
      && forall i :: 0 <= i < |o.walls| && NonEmpty(o.walls[i]) ==>
           !IntersectsSphere(o.walls[i], o.avatar.position, CharacterRadius)
  {
    var v := ToTarget(a, target);
    LongerThanSpeed(m, v);
    var l := Length(m, v);
    var u := Normalize(m, v);
    var step := Scale(u, Speed);
    var probe := Add(a.position, step);
    assert v != Zero;
    NormalizeLength(m, v);
    ScaleLengthSq(u, Speed);
    assert LengthSq(step) == Speed * Speed;
    assert step != Zero by { LengthSqZero(step); }
    var t := UpdateRotation(m, a.(position := probe), step);
    UpdateRotationFaces(m, a.(position := probe), step);
    assert Normalize(m, step) == u by { NormalizeScaled(m, u, Speed); }
    assert Sub(probe, a.position) == step;
    forall i | 0 <= i < |walls + PushedWalls| && NonEmpty((walls + PushedWalls)[i])
      ensures !IntersectsSphere((walls + PushedWalls)[i], probe, CharacterRadius)
    {
      ScanNoneClear(m, walls + PushedWalls, probe, None, i);
    }
    RemainingDistance(m, a, target, probe);
  }

  /** Whatever branch is taken, click-to-move keeps the height and pushes at most one wall pair. */
  lemma ClickKeepsHeight(m: MathLib, walls: seq<Box3>, a: Avatar, target: Vec3, moving: bool)
    requires SqrtExact(m)
    ensures var o := ClickToMove(m, walls, a, target, moving);
      && o.avatar.position.y == a.position.y
      && (o.walls == walls || o.walls == walls + PushedWalls)
      && (!moving ==> o.walls == walls)
    ensures !moving ==> ClickToMove(m, walls, a, target, moving) == ClickOutcome(a, false, walls)
  {
    var v := ToTarget(a, target);
    if !moving {
      ClickIdle(m, walls, a, target);
    } else if LengthSq(v) <= Speed * Speed {
      ClickArrives(m, walls, a, target);
    } else if Scan(m, walls + PushedWalls, Add(a.position, ClickStep(m, a, target)), None).Some? {
      ClickBlocked(m, walls, a, target);
    } else {
      ClickAdvances(m, walls, a, target);
    }
  }

  /** Scaling a unit vector by a positive factor does not change its direction. */
  lemma NormalizeScaled(m: MathLib, u: Vec3, k: real)
    requires SqrtExact(m) && LengthSq(u) == 1.0 && k > 0.0
    ensures Normalize(m, Scale(u, k)) == u
  {
    ScaleLengthSq(u, k);
    SqrtOfSquare(m, k);
    assert LengthSq(Scale(u, k)) == k * k;
    assert Length(m, Scale(u, k)) == k;
    assert (1.0 / k) * k == 1.0;
    assert Scale(u, k).x * (1.0 / k) == u.x * (k * (1.0 / k));
    assert Scale(u, k).y * (1.0 / k) == u.y * (k * (1.0 / k));
    assert Scale(u, k).z * (1.0 / k) == u.z * (k * (1.0 / k));
  }

  /** After a step of `Speed` along the target direction the target is `Speed` nearer. */
  lemma RemainingDistance(m: MathLib, a: Avatar, target: Vec3, probe: Vec3)
    requires SqrtExact(m) && Length(m, ToTarget(a, target)) > Speed
    requires probe == Add(a.position, ClickStep(m, a, target))
    ensures Length(m, Flat(Sub(target, probe))) == Length(m, ToTarget(a, target)) - Speed
  {
    var v := ToTarget(a, target);
    var l := Length(m, v);
    var k := InverseLength(m, v);
    assert k * l == 1.0 by { LengthZero(m, v); InverseOfLength(m, v); }
    var rest := Flat(Sub(target, probe));
    var c := 1.0 - Speed * k;
    assert rest == Scale(v, c) by {
      assert rest.x == v.x - v.x * k * Speed;
      assert rest.z == v.z - v.z * k * Speed;
    }
    assert c * l == l - Speed;
    assert c > 0.0 by { PositiveFactor(c, l, Speed); }
    ScaleLengthSq(v, c);
    LengthOfScaled(m, v, c);
  }

  lemma PositiveFactor(c: real, l: real, s: real)
    requires l > s > 0.0 && c * l == l - s
    ensures c > 0.0
  {
  }

  /** `|c v| = c |v|` for a non-negative factor. */
  lemma LengthOfScaled(m: MathLib, v: Vec3, c: real)
    requires SqrtExact(m) && c >= 0.0
    ensures Length(m, Scale(v, c)) == c * Length(m, v)
  {
    var w := Scale(v, c);
    var r := Length(m, w);
    var l := Length(m, v);
    LengthSquared(m, v);
    LengthSquared(m, w);
    ScaleLengthSq(v, c);
    SquareOfProduct(c, l);
    RootUnique(r, c * l);
  }

  lemma SquareOfProduct(c: real, l: real)
    requires c >= 0.0 && l >= 0.0
    ensures (c * c) * (l * l) == (c * l) * (c * l) && c * l >= 0.0
  {
  }

  lemma RootUnique(r: real, s: real)
    requires r >= 0.0 && s >= 0.0 && r * r == s * s
    ensures r == s
  {
    assert (r - s) * (r + s) == r * r - s * s;
    ProductZero(r - s, r + s);
  }

  /** The result of `keyboardMovingSlide`: the avatar and `invisWalls`. */
  datatype SlideOutcome = SlideOutcome(avatar: Avatar, walls: seq<Box3>)

  /**
   * `keyboardMovingSlide(d)` (game.js:599-638). The collision probe is taken
   * at `position + d` with `d` as given; `updateRotation` then normalises `d`
   * in place, so every move below is by `Speed` along the unit direction. On
   * a collision the unit direction is projected on the wall's plane and the
   * avatar slides along it if that is non-zero and clear of every other wall
   * entry.
   */
  function KeyboardMovingSlide(m: MathLib, walls: seq<Box3>, a: Avatar, d: Vec3): (o: SlideOutcome)
    requires SqrtExact(m)
  {
    var walls1 := walls + PushedWalls;
    SlideFrom(m, walls1, UpdateRotation(m, a, d), Scan(m, walls1, Add(a.position, d), None))
  }

  /**
   * game.js:611-637, once the probe has been tested and the avatar turned:
   * `t` holds the turned avatar and the normalised direction, `hit` the
   * probe's collision.
   */
  function SlideFrom(m: MathLib, walls1: seq<Box3>, t: Turned, hit: Option<Hit>): (o: SlideOutcome)
    requires SqrtExact(m)
  {
    var p := t.avatar.position;
    match hit
    case None =>
      SlideOutcome(t.avatar.(position := Add(p, Scale(t.direction, Speed))), walls1)
    case Some(h) =>
      var slide := ProjectOnPlane(t.direction, h.normal);
      if Length(m, slide) > 0.0 then
        var sliding := Add(p, Scale(Normalize(m, slide), Speed));
        var walls2 := walls1 + PushedWalls;
        if Scan(m, walls2, sliding, Some(h.wall)).None? then
          SlideOutcome(t.avatar.(position := sliding), walls2)
        else
          SlideOutcome(t.avatar, walls2)
      else
        SlideOutcome(t.avatar, walls1)
  }

  /** Only the position can change after the turn, and only if a move is made. */
  lemma SlideFromShape(m: MathLib, walls1: seq<Box3>, t: Turned, hit: Option<Hit>)
    requires SqrtExact(m)
    ensures var o := SlideFrom(m, walls1, t, hit);
      && o.avatar.rotationY == t.avatar.rotationY
      && o.avatar.lastDirection == t.avatar.lastDirection
      && (o.walls == walls1 || o.walls == walls1 + PushedWalls)
  {
  }

  /** The wall list grows by one pair, or by two when a slide is tried. */
  lemma SlideWalls(m: MathLib, walls: seq<Box3>, a: Avatar, d: Vec3)
    requires SqrtExact(m)
    ensures var w := KeyboardMovingSlide(m, walls, a, d).walls;
      w == walls + PushedWalls || w == walls + PushedWalls + PushedWalls
  {
    var walls1 := walls + PushedWalls;
    SlideFromShape(m, walls1, UpdateRotation(m, a, d), Scan(m, walls1, Add(a.position, d), None));
  }

  /** A clear probe moves the avatar by `Speed` along the unit direction. */
  lemma SlideFromClear(m: MathLib, walls1: seq<Box3>, t: Turned)
    requires SqrtExact(m)
    ensures SlideFrom(m, walls1, t, None) ==
            SlideOutcome(t.avatar.(position := Add(t.avatar.position, Scale(t.direction, Speed))), walls1)
  {
  }

  /** With a zero direction and a clear probe nothing moves. */
  lemma SlideFromZeroClear(m: MathLib, walls1: seq<Box3>, t: Turned)
    requires SqrtExact(m) && t.direction == Zero
    ensures SlideFrom(m, walls1, t, None).avatar == t.avatar
  {
    SlideFromClear(m, walls1, t);
    var p := t.avatar.position;
    StayPut(p, t.direction, Speed);
    assert t.avatar.(position := p) == t.avatar;
  }

  /** With a zero direction there is nothing to slide along. */
  lemma SlideFromZeroHit(m: MathLib, walls1: seq<Box3>, t: Turned, h: Hit)
    requires SqrtExact(m) && t.direction == Zero
    ensures SlideFrom(m, walls1, t, Some(h)).avatar == t.avatar
  {
    SlideFromShape(m, walls1, t, Some(h));
    SlideFromHit(m, walls1, t, h);
    ProjectZero(h.normal);
  }

  /** A zero direction changes neither the position nor the facing, whatever the probe found. */
  lemma SlideZeroDirection(m: MathLib, walls: seq<Box3>, a: Avatar)
    requires SqrtExact(m)
    ensures KeyboardMovingSlide(m, walls, a, Zero).avatar == a
  {
    var walls1 := walls + PushedWalls;
    var t := UpdateRotation(m, a, Zero);
    var hit := Scan(m, walls1, Add(a.position, Zero), None);
    if hit.Some? {
      SlideFromZeroHit(m, walls1, t, hit.value);
    } else {
      SlideFromZeroClear(m, walls1, t);
    }
  }

  /** The facing follows a non-zero direction whether or not the move is blocked. */
  lemma SlideFacing(m: MathLib, walls: seq<Box3>, a: Avatar, d: Vec3)
    requires SqrtExact(m) && d != Zero
    ensures var b := KeyboardMovingSlide(m, walls, a, d).avatar;
      && b.lastDirection == Normalize(m, d)
      && b.rotationY == m.atan2(Normalize(m, d).x, Normalize(m, d).z) - HalfPi
  {
    var walls1 := walls + PushedWalls;
    UpdateRotationFaces(m, a, d);
    SlideFromShape(m, walls1, UpdateRotation(m, a, d), Scan(m, walls1, Add(a.position, d), None));
  }

  /**
   * With a clear probe the avatar moves by `Speed` along the normalised
   * direction, however many keys make it up.
   */
  lemma SlideUnobstructed(m: MathLib, walls: seq<Box3>, a: Avatar, d: Vec3)
    requires SqrtExact(m) && d != Zero
    requires Scan(m, walls + PushedWalls, Add(a.position, d), None).None?
    ensures var p := KeyboardMovingSlide(m, walls, a, d).avatar.position;
      && Sub(p, a.position) == Scale(Normalize(m, d), Speed)
      && LengthSq(Sub(p, a.position)) == Speed * Speed
  {
    var u := Normalize(m, d);
    UpdateRotationFaces(m, a, d);
    ScaleLengthSq(u, Speed);
    assert Sub(Add(a.position, Scale(u, Speed)), a.position) == Scale(u, Speed);
  }

  /** How the collision branch decides, for a given hit. */
  lemma SlideFromHit(m: MathLib, walls1: seq<Box3>, t: Turned, h: Hit)
    requires SqrtExact(m)
    ensures var slide := ProjectOnPlane(t.direction, h.normal);
      var sliding := Add(t.avatar.position, Scale(Normalize(m, slide), Speed));
      var moves := slide != Zero && Scan(m, walls1 + PushedWalls, sliding, Some(h.wall)).None?;
      SlideFrom(m, walls1, t, Some(h)).avatar.position == (if moves then sliding else t.avatar.position)
  {
    LengthZero(m, ProjectOnPlane(t.direction, h.normal));
  }

  /**
   * On a collision the slide direction is the turned (unit) direction with
   * its component along the wall normal removed, so it is orthogonal to a
   * non-zero normal.
   */
  lemma SlideOrthogonal(m: MathLib, walls: seq<Box3>, a: Avatar, d: Vec3)
    requires SqrtExact(m)
    requires Scan(m, walls + PushedWalls, Add(a.position, d), None).Some?
    ensures var n := Scan(m, walls + PushedWalls, Add(a.position, d), None).value.normal;
      n != Zero ==> Dot(ProjectOnPlane(UpdateRotation(m, a, d).direction, n), n) == 0.0
  {
    var n := Scan(m, walls + PushedWalls, Add(a.position, d), None).value.normal;
    ProjectOnPlaneOrthogonal(UpdateRotation(m, a, d).direction, n, Zero);
  }

  /**
   * On a collision the avatar moves to the slid position exactly when the
   * slide direction is non-zero and the slid position is clear of every
   * entry but the reported one, and otherwise stays put.
   */
  lemma SlideOnCollision(m: MathLib, walls: seq<Box3>, a: Avatar, d: Vec3)
    requires SqrtExact(m)
    requires Scan(m, walls + PushedWalls, Add(a.position, d), None).Some?
    ensures var hit := Scan(m, walls + PushedWalls, Add(a.position, d), None).value;
      var slide := ProjectOnPlane(UpdateRotation(m, a, d).direction, hit.normal);
      var sliding := Add(a.position, Scale(Normalize(m, slide), Speed));
      var moves := slide != Zero && Scan(m, walls + PushedWalls + PushedWalls, sliding, Some(hit.wall)).None?;
      KeyboardMovingSlide(m, walls, a, d).avatar.position == (if moves then sliding else a.position)
  {
    var walls1 := walls + PushedWalls;
    var hit := Scan(m, walls1, Add(a.position, d), None).value;
    SlideFromHit(m, walls1, UpdateRotation(m, a, d), hit);
  }

  /**
   * An accepted slide ends clear of every entry of the wall list, the
   * ignored one included: the list holds a fresh copy of that wall.
   */
  lemma SlideEndsClear(m: MathLib, walls: seq<Box3>, a: Avatar, d: Vec3)
    requires SqrtExact(m) && WallCopies(walls)
    requires Scan(m, walls + PushedWalls, Add(a.position, d), None).Some?
    ensures var o := KeyboardMovingSlide(m, walls, a, d);
      o.avatar.position != a.position ==>
        forall i :: 0 <= i < |o.walls| && NonEmpty(o.walls[i]) ==>
          !IntersectsSphere(o.walls[i], o.avatar.position, CharacterRadius)
  {
    var walls1 := walls + PushedWalls;
    var hit := Scan(m, walls1, Add(a.position, d), None).value;
    var o := KeyboardMovingSlide(m, walls, a, d);
    if o.avatar.position != a.position {
      var p := o.avatar.position;
      WallCopiesAppend(walls);
      IgnoreNeverMatters(m, walls1, p, hit.wall);
      forall i | 0 <= i < |o.walls| && NonEmpty(o.walls[i])
        ensures !IntersectsSphere(o.walls[i], p, CharacterRadius)
      {
        ScanNoneClear(m, o.walls, p, None, i);
      }
    }
  }

  /** A flat direction and a flat normal keep the height. */
  lemma SlideFromKeepsHeight(m: MathLib, walls1: seq<Box3>, t: Turned, hit: Option<Hit>)
    requires SqrtExact(m) && t.direction.y == 0.0
    requires hit.Some? ==> hit.value.normal.y == 0.0
    ensures SlideFrom(m, walls1, t, hit).avatar.position.y == t.avatar.position.y
  {
    if hit.Some? {
      var slide := ProjectOnPlane(t.direction, hit.value.normal);
      assert slide.y == 0.0;
      assert Normalize(m, slide).y == 0.0;
    }
  }

  /** A flat direction never changes the avatar's height. */
  lemma SlideKeepsHeight(m: MathLib, walls: seq<Box3>, a: Avatar, d: Vec3)
    requires SqrtExact(m) && d.y == 0.0
    ensures KeyboardMovingSlide(m, walls, a, d).avatar.position.y == a.position.y
  {
    var walls1 := walls + PushedWalls;
    var t := UpdateRotation(m, a, d);
    assert t.direction.y == 0.0 by {
      if d != Zero { UpdateRotationFaces(m, a, d); }
    }
    SlideFromKeepsHeight(m, walls1, t, Scan(m, walls1, Add(a.position, d), None));
  }

  /**
   * The probe is taken one raw direction ahead while the move is `Speed`
   * along the unit direction, so the two differ: here the probe clears the
   * left wall but the destination overlaps it.
   */
  lemma ProbeMissesDestination(m: MathLib, r: real, last: Vec3)
    requires SqrtExact(m)
    ensures var a := Avatar(Vec3(69.2, -8.0, 108.999), r, last);
      var d := Vec3(1.0, 0.0, 0.0);
      var p := KeyboardMovingSlide(m, [], a, d).avatar.position;
      && !IntersectsSphere(LeftWall, a.position, CharacterRadius)
      && Scan(m, PushedWalls, Add(a.position, d), None).None?
      && p == Vec3(70.0, -8.0, 108.999)
      && DistanceSq(ClampPoint(LeftWall, p), p) < CharacterRadius * CharacterRadius
  {
    var a := Avatar(Vec3(69.2, -8.0, 108.999), r, last);
    var d := Vec3(1.0, 0.0, 0.0);
    ProbeClear(m, Add(a.position, d));
    ProbeStep(m, a, d);
    DestinationOverlaps();
  }

  /** With the clear probe a unit direction is taken as it is. */
  lemma ProbeStep(m: MathLib, a: Avatar, d: Vec3)
    requires SqrtExact(m) && a.position == Vec3(69.2, -8.0, 108.999) && d == Vec3(1.0, 0.0, 0.0)
    requires Scan(m, PushedWalls, Add(a.position, d), None).None?
    ensures KeyboardMovingSlide(m, [], a, d).avatar.position == Vec3(70.0, -8.0, 108.999)
  {
    assert [] + PushedWalls == PushedWalls;
    assert LengthSq(d) == 1.0;
    UnitStepClear(m, [], a, d);
    UnitX(a.position, d, Speed);
  }

  lemma UnitStepClear(m: MathLib, walls: seq<Box3>, a: Avatar, d: Vec3)
    requires SqrtExact(m) && LengthSq(d) == 1.0
    requires Scan(m, walls + PushedWalls, Add(a.position, d), None).None?
    ensures KeyboardMovingSlide(m, walls, a, d).avatar.position == Add(a.position, Scale(d, Speed))
  {
    LengthSqZero(d);
    SlideUnobstructed(m, walls, a, d);
    NormalizeUnit(m, d);
  }

  lemma UnitX(p: Vec3, d: Vec3, s: real)
    requires d == Vec3(1.0, 0.0, 0.0)
    ensures Add(p, Scale(d, s)) == Vec3(p.x + s, p.y, p.z)
  {
  }

  lemma ProbeClear(m: MathLib, probe: Vec3)
    requires SqrtExact(m) && probe == Vec3(70.2, -8.0, 108.999)
    ensures Scan(m, PushedWalls, probe, None).None?
  {
    assert !Blocks(PushedWalls, 0, probe, None);
    assert !Blocks(PushedWalls, 1, probe, None);
    ScanFindsBlocker(m, PushedWalls, probe, None);
  }

  lemma DestinationOverlaps()
    ensures !IntersectsSphere(LeftWall, Vec3(69.2, -8.0, 108.999), CharacterRadius)
    ensures DistanceSq(ClampPoint(LeftWall, Vec3(70.0, -8.0, 108.999)), Vec3(70.0, -8.0, 108.999))
            < CharacterRadius * CharacterRadius
  {
  }
}
