/**
 * The camera rig of game.js: the base offset turned by the orbit angles and
 * kept above a minimum height, the desired position behind the avatar, the
 * per-frame smoothing towards it, and the viewing direction after `lookAt`.
 */
module Camera {
  import opened Vectors
  import opened Input

  /** main.js:18: `CAMERA_OFFSET`. */
  const CameraOffset: Vec3 := Vec3(400.0, 300.0, 400.0)

  /** game.js:724-726: the rotated offset is never lower than this. */
  const MinCameraHeight: real := 10.0

  /** game.js:729: the fraction of the way the camera moves each frame. */
  const FollowFactor: real := 0.1

  /** game.js:724-726: the offset's height raised to the minimum when below it. */
  function RaiseOffset(raw: Vec3): (r: Vec3)
    ensures r.y >= MinCameraHeight
    ensures r.x == raw.x && r.z == raw.z
    ensures raw.y >= MinCameraHeight ==> r == raw
    ensures raw.y < MinCameraHeight ==> r.y == MinCameraHeight
  {
    if raw.y < MinCameraHeight then raw.(y := MinCameraHeight) else raw
  }

  /**
   * game.js:712-726: `CAMERA_OFFSET` turned by the YXZ Euler rotation of the
   * orbit (pitch about x, yaw about y), then raised.
   */
  function RotatedOffset(m: MathLib, o: Orbit): (r: Vec3)
    ensures r.y >= MinCameraHeight
  {
    RaiseOffset(m.rotateYXZ(CameraOffset, o.pitch, o.yaw))
  }

  /** game.js:728: where the camera is heading, the avatar position plus the offset. */
  function DesiredCamera(m: MathLib, o: Orbit, avatar: Vec3): (c: Vec3)
    ensures c.y >= avatar.y + MinCameraHeight
    ensures Sub(c, avatar) == RotatedOffset(m, o)
  {
    Add(avatar, RotatedOffset(m, o))
  }

  /**
   * game.js:729: `camera.position.lerp(desired, 0.1)`; what was left of the
   * way to the desired position shrinks to nine tenths.
   */
  function Follow(camera: Vec3, desired: Vec3): (c: Vec3)
    ensures Sub(c, desired) == Scale(Sub(camera, desired), 1.0 - FollowFactor)
  {
    Lerp(camera, desired, FollowFactor)
  }

  /** Each frame the camera gets strictly nearer the desired position, unless it is already there. */
  lemma FollowCloser(camera: Vec3, desired: Vec3)
    ensures DistanceSq(Follow(camera, desired), desired) == 0.81 * DistanceSq(camera, desired)
    ensures camera != desired ==> DistanceSq(Follow(camera, desired), desired) < DistanceSq(camera, desired)
    ensures camera == desired ==> Follow(camera, desired) == desired
  {
    var k := 1.0 - FollowFactor;
    Contract(camera, desired, Follow(camera, desired), k);
    assert k * k == 0.81;
  }

  /** A point whose offset from `desired` is `k` times that of `camera`, for `0 <= k < 1`. */
  lemma Contract(camera: Vec3, desired: Vec3, c: Vec3, k: real)
    requires 0.0 <= k < 1.0 && Sub(c, desired) == Scale(Sub(camera, desired), k)
    ensures DistanceSq(c, desired) == (k * k) * DistanceSq(camera, desired)
    ensures camera != desired ==> DistanceSq(c, desired) < DistanceSq(camera, desired)
    ensures camera == desired ==> c == desired
  {
    var v := Sub(camera, desired);
    ScaleLengthSq(v, k);
    if camera != desired {
      assert v != Zero;
      ScaledShorter(v, k);
    } else {
      ScaledZero(v, k);
      SubZero(c, desired);
    }
  }

  lemma ScaledShorter(v: Vec3, k: real)
    requires 0.0 <= k < 1.0 && v != Zero
    ensures LengthSq(Scale(v, k)) < LengthSq(v)
  {
    ScaleLengthSq(v, k);
    assert LengthSq(v) > 0.0 by { LengthSqZero(v); }
    SquareBelowOne(k);
    Shrink(LengthSq(Scale(v, k)), k * k, LengthSq(v));
  }

  lemma SquareBelowOne(k: real)
    requires 0.0 <= k < 1.0
    ensures k * k < 1.0
  {
    assert k * k <= k;
  }

  lemma Shrink(a: real, q: real, l: real)
    requires a == q * l && 0.0 <= q < 1.0 && l > 0.0
    ensures a < l
  {
  }

  lemma ScaledZero(v: Vec3, k: real)
    requires v == Zero
    ensures Scale(v, k) == Zero
  {
  }

  lemma SubZero(a: Vec3, b: Vec3)
    requires Sub(a, b) == Zero
    ensures a == b
  {
  }

  /** `n` frames with the avatar and the orbit standing still. */
  function FollowFrames(camera: Vec3, desired: Vec3, n: nat): Vec3
    decreases n
  {
    if n == 0 then camera else Follow(FollowFrames(camera, desired, n - 1), desired)
  }

  function Power(k: real, n: nat): real
    decreases n
  {
    if n == 0 then 1.0 else Power(k, n - 1) * k
  }

  /**
   * The remaining way after `n` frames is `0.9^n` of the initial one: the
   * smoothing is a fixed per-frame factor, independent of elapsed time.
   */
  lemma {:induction false} FollowFramesGeometric(camera: Vec3, desired: Vec3, n: nat)
    ensures Sub(FollowFrames(camera, desired, n), desired) == Scale(Sub(camera, desired), Power(1.0 - FollowFactor, n))
    decreases n
  {
    var v := Sub(camera, desired);
    if n == 0 {
      assert Scale(v, 1.0) == v;
    } else {
      FollowFramesGeometric(camera, desired, n - 1);
      var p := Power(1.0 - FollowFactor, n - 1);
      ScaleScale(v, p, 1.0 - FollowFactor);
    }
  }

  lemma ScaleScale(v: Vec3, a: real, b: real)
    ensures Scale(Scale(v, a), b) == Scale(v, a * b)
  {
    assert v.x * a * b == v.x * (a * b);
    assert v.y * a * b == v.y * (a * b);
    assert v.z * a * b == v.z * (a * b);
  }

  /** The factor stays in (0, 1]: the camera approaches but never overshoots or reaches the target. */
  lemma {:induction false} PowerBounds(k: real, n: nat)
    requires 0.0 < k < 1.0
    ensures 0.0 < Power(k, n) <= 1.0
    ensures n > 0 ==> Power(k, n) < 1.0
    decreases n
  {
    if n > 0 {
      PowerBounds(k, n - 1);
      var p := Power(k, n - 1);
      assert p * k <= p;
      assert 0.0 < p * k;
    }
  }

  /**
   * The first step of three.js's `Matrix4.lookAt(eye, target, up)`: the
   * offset from the target to the eye, taken as `(0, 0, 1)` when they coincide.
   */
  function EyeOffset(z0: Vec3): Vec3 {
    if LengthSq(z0) == 0.0 then z0.(z := 1.0) else z0
  }

  /** The offset is never zero: a zero one becomes `(0, 0, 1)` and any other is kept. */
  lemma EyeOffsetNonZero(z0: Vec3)
    ensures EyeOffset(z0) != Zero
    ensures z0 == Zero ==> EyeOffset(z0) == z0.(z := 1.0)
    ensures z0 != Zero ==> EyeOffset(z0) == z0
  {
    LengthSqZero(z0);
  }

  /**
   * The fallback of `Matrix4.lookAt` for the default up `(0, 1, 0)`: when
   * `up x z`, which is `(z.z, 0, -z.x)`, has length zero, the z component
   * is nudged by 0.0001 and the axis is normalised again.
   */
  function Unparallel(m: MathLib, z: Vec3): Vec3
    requires SqrtExact(m)
  {
    if LengthSq(UpCross(z)) == 0.0 then Normalize(m, z.(z := z.z + 0.0001)) else z
  }

  /** `up x z` for the default up `(0, 1, 0)`. */
  function UpCross(z: Vec3): Vec3 {
    Vec3(z.z, 0.0, -z.x)
  }

  /** `up x z` vanishes exactly when `z` is vertical. */
  lemma UpCrossZero(z: Vec3)
    ensures LengthSq(UpCross(z)) == 0.0 <==> z.x == 0.0 && z.z == 0.0
  {
    if LengthSq(UpCross(z)) == 0.0 {
      SquaresZero(z.z, 0.0, -z.x);
    }
  }

  /** The nudged axis is a unit vector with a horizontal part. */
  lemma UnparallelUnit(m: MathLib, z: Vec3)
    requires SqrtExact(m) && LengthSq(z) == 1.0
    ensures LengthSq(Unparallel(m, z)) == 1.0
    ensures Flat(Unparallel(m, z)) != Zero
  {
    UpCrossZero(z);
    if LengthSq(UpCross(z)) == 0.0 {
      var w := z.(z := z.z + 0.0001);
      assert w.z != 0.0;
      NudgedUnit(m, w);
    } else {
      assert z.x != 0.0 || z.z != 0.0;
    }
  }

  lemma NudgedUnit(m: MathLib, w: Vec3)
    requires SqrtExact(m) && w.z != 0.0
    ensures LengthSq(Normalize(m, w)) == 1.0
    ensures Flat(Normalize(m, w)) != Zero
  {
    assert w != Zero;
    NormalizeLength(m, w);
    var k := InverseLength(m, w);
    assert Normalize(m, w).z == w.z * k;
    NonZeroProduct(w.z, k);
  }

  lemma NonZeroProduct(a: real, k: real)
    requires a != 0.0 && k > 0.0
    ensures a * k != 0.0
  {
  }

  /**
   * The camera's local z axis after `camera.lookAt(avatar)` (three.js's
   * `Matrix4.lookAt(eye, target, up)` with the default up): the unit vector
   * from the avatar to the camera, with the two fallbacks above.
   */
  function LookAtAxis(m: MathLib, camera: Vec3, avatar: Vec3): Vec3
    requires SqrtExact(m)
  {
    Unparallel(m, Normalize(m, EyeOffset(Sub(camera, avatar))))
  }

  /**
   * `camera.lookAt(avatar)` then `getWorldDirection` (game.js:732 and 540):
   * the camera looks down its negated z axis, always a unit vector.
   */
  function ViewDirection(m: MathLib, camera: Vec3, avatar: Vec3): (v: Vec3)
    requires SqrtExact(m)
    ensures LengthSq(v) == 1.0
  {
    AxisUnit(m, camera, avatar);
    Neg(LookAtAxis(m, camera, avatar))
  }

  /** The look-at axis is a unit vector that is not vertical. */
  lemma AxisUnit(m: MathLib, camera: Vec3, avatar: Vec3)
    requires SqrtExact(m)
    ensures LengthSq(LookAtAxis(m, camera, avatar)) == 1.0
    ensures Flat(LookAtAxis(m, camera, avatar)) != Zero
  {
    var z1 := EyeOffset(Sub(camera, avatar));
    EyeOffsetNonZero(Sub(camera, avatar));
    NormalizeLength(m, z1);
    UnparallelUnit(m, Normalize(m, z1));
  }

  /**
   * The view always has a horizontal part, even with the camera on the
   * avatar or straight above it, so the keyboard always has a forward
   * direction to move along.
   */
  lemma ViewNotVertical(m: MathLib, camera: Vec3, avatar: Vec3)
    requires SqrtExact(m)
    ensures Flat(ViewDirection(m, camera, avatar)) != Zero
  {
    AxisUnit(m, camera, avatar);
    var z := LookAtAxis(m, camera, avatar);
    assert Flat(Neg(z)) == Neg(Flat(z));
  }

  /** Negating a vector negates its normalisation. */
  lemma NormalizeNeg(m: MathLib, v: Vec3)
    requires SqrtExact(m)
    ensures Normalize(m, Neg(v)) == Neg(Normalize(m, v))
  {
    assert LengthSq(Neg(v)) == LengthSq(v);
    var k := InverseLength(m, v);
    assert InverseLength(m, Neg(v)) == k;
    NegTimes(v.x, k);
    NegTimes(v.y, k);
    NegTimes(v.z, k);
  }

  lemma NegTimes(a: real, k: real)
    ensures (-a) * k == -(a * k)
  {
  }

  /**
   * Away from the two degenerate cases the camera looks straight at the
   * avatar: the direction is the normalised offset from camera to avatar.
   */
  lemma ViewTowardsAvatar(m: MathLib, camera: Vec3, avatar: Vec3)
    requires SqrtExact(m) && Flat(Sub(avatar, camera)) != Zero
    ensures ViewDirection(m, camera, avatar) == Normalize(m, Sub(avatar, camera))
  {
    var z0 := Sub(camera, avatar);
    assert z0 != Zero;
    var z2 := Normalize(m, z0);
    EyeOffsetNonZero(z0);
    assert z0.x != 0.0 || z0.z != 0.0;
    StaysUnparallel(m, z0);
    assert LookAtAxis(m, camera, avatar) == z2;
    assert Sub(avatar, camera) == Neg(z0);
    NormalizeNeg(m, z0);
  }

  /** A vector with a horizontal part normalises to an axis the fallback leaves alone. */
  lemma StaysUnparallel(m: MathLib, z0: Vec3)
    requires SqrtExact(m) && (z0.x != 0.0 || z0.z != 0.0)
    ensures Unparallel(m, Normalize(m, z0)) == Normalize(m, z0)
  {
    var z2 := Normalize(m, z0);
    HorizontalAfterScale(z0, InverseLength(m, z0));
    UpCrossZero(z2);
  }

  lemma HorizontalAfterScale(v: Vec3, k: real)
    requires (v.x != 0.0 || v.z != 0.0) && k > 0.0
    ensures Scale(v, k).x != 0.0 || Scale(v, k).z != 0.0
  {
    if v.x != 0.0 { NonZeroProduct(v.x, k); } else { NonZeroProduct(v.z, k); }
  }
}
