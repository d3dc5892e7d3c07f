/** The optional value of the source's `null`-or-object results. */
module Options {
  datatype Option<T> = None | Some(value: T)
}

/**
 * The part of three.js's `Vector3` that the movement code relies on, over
 * exact reals, and the host's `Math` primitives that it cannot do without.
 */
module Vectors {

  datatype Vec3 = Vec3(x: real, y: real, z: real)

  const Zero: Vec3 := Vec3(0.0, 0.0, 0.0)

  function Add(a: Vec3, b: Vec3): Vec3 { Vec3(a.x + b.x, a.y + b.y, a.z + b.z) }

  function Sub(a: Vec3, b: Vec3): Vec3 { Vec3(a.x - b.x, a.y - b.y, a.z - b.z) }

  /** `multiplyScalar`; `addScaledVector(v, s)` is `Add(p, Scale(v, s))`. */
  function Scale(v: Vec3, s: real): Vec3 { Vec3(v.x * s, v.y * s, v.z * s) }

  /** A step along the zero vector goes nowhere, whatever its length. */
  lemma StayPut(p: Vec3, v: Vec3, s: real)
    requires v == Zero
    ensures Add(p, Scale(v, s)) == p
  {
  }

  function Neg(v: Vec3): Vec3 { Vec3(-v.x, -v.y, -v.z) }

  function Dot(a: Vec3, b: Vec3): real { a.x * b.x + a.y * b.y + a.z * b.z }

  function LengthSq(v: Vec3): (r: real)
    ensures r >= 0.0
  {
    Square(v.x); Square(v.y); Square(v.z);
    v.x * v.x + v.y * v.y + v.z * v.z
  }

  /** Only the zero vector has squared length zero. */
  lemma LengthSqZero(v: Vec3)
    ensures LengthSq(v) == 0.0 <==> v == Zero
  {
    if LengthSq(v) == 0.0 {
      SquaresZero(v.x, v.y, v.z);
    }
  }

  lemma SquaresZero(a: real, b: real, c: real)
    requires a * a + b * b + c * c == 0.0
    ensures a == 0.0 && b == 0.0 && c == 0.0
  {
    Square(a); Square(b); Square(c);
    SumZero(a * a, b * b, c * c);
    ProductZero(a, a);
    ProductZero(b, b);
    ProductZero(c, c);
  }

  lemma Square(a: real)
    ensures a * a >= 0.0
  {
  }

  lemma SumZero(p: real, q: real, s: real)
    requires p >= 0.0 && q >= 0.0 && s >= 0.0 && p + q + s == 0.0
    ensures p == 0.0 && q == 0.0 && s == 0.0
  {
  }

  lemma ProductZero(a: real, b: real)
    requires a * b == 0.0
    ensures a == 0.0 || b == 0.0
  {
    if a != 0.0 {
      assert b == (a * b) / a;
    }
  }

  function DistanceSq(a: Vec3, b: Vec3): real { LengthSq(Sub(a, b)) }

  /** The vector with its vertical component set to zero (`v.y = 0`). */
  function Flat(v: Vec3): Vec3 { v.(y := 0.0) }

  /** `Vector3.lerp(b, t)`: each component moves by `(b - a) * t`. */
  function Lerp(a: Vec3, b: Vec3, t: real): (r: Vec3)
    ensures Sub(r, b) == Scale(Sub(a, b), 1.0 - t)
  {
    Vec3(a.x + (b.x - a.x) * t, a.y + (b.y - a.y) * t, a.z + (b.z - a.z) * t)
  }

  /** `MathUtils.lerp(x, y, t)`. */
  function LerpScalar(x: real, y: real, t: real): (r: real)
    ensures t == 1.0 ==> r == y
    ensures t == 0.0 ==> r == x
  {
    (1.0 - t) * x + t * y
  }

  /** `projectOnVector`'s factor: 0 for a zero `n`, else `(n . d) / (n . n)`. */
  function ProjectionFactor(d: Vec3, n: Vec3): real {
    var den := LengthSq(n);
    if den == 0.0 then 0.0 else Dot(n, d) / den
  }

  /**
   * `Vector3.projectOnPlane(n)`: `d` minus its projection on `n`; the
   * projection on a zero vector is zero, so then `d` is returned.
   */
  function ProjectOnPlane(d: Vec3, n: Vec3): (r: Vec3)
    ensures n == Zero ==> r == d
  {
    Sub(d, Scale(n, ProjectionFactor(d, n)))
  }

  /** Nothing is left of a zero vector. */
  lemma ProjectZero(n: Vec3)
    ensures ProjectOnPlane(Zero, n) == Zero
  {
    assert Dot(n, Zero) == 0.0;
    assert ProjectionFactor(Zero, n) == 0.0;
  }

  /**
   * What is left after the projection is orthogonal to `n`, and it agrees
   * with `d` in every direction orthogonal to `n`.
   */
  lemma ProjectOnPlaneOrthogonal(d: Vec3, n: Vec3, t: Vec3)
    ensures n != Zero ==> Dot(ProjectOnPlane(d, n), n) == 0.0
    ensures Dot(t, n) == 0.0 ==> Dot(ProjectOnPlane(d, n), t) == Dot(d, t)
  {
    LengthSqZero(n);
    var den := LengthSq(n);
    if den != 0.0 {
      var k := Dot(n, d) / den;
      assert ProjectOnPlane(d, n) == Sub(d, Scale(n, k));
      DotLinear(d, n, t, k);
      DotLinear(d, n, n, k);
      DotSymmetric(n, t);
      DotSymmetric(n, d);
      assert Dot(n, n) == den;
      QuotientTimes(Dot(n, d), den);
    }
  }

  lemma QuotientTimes(a: real, b: real)
    requires b != 0.0
    ensures a / b * b == a
  {
  }

  lemma DotSymmetric(a: Vec3, b: Vec3)
    ensures Dot(a, b) == Dot(b, a)
  {
  }

  lemma DotLinear(d: Vec3, n: Vec3, t: Vec3, k: real)
    ensures Dot(Sub(d, Scale(n, k)), t) == Dot(d, t) - k * Dot(n, t)
  {
    Lin3(d.x, d.y, d.z, n.x, n.y, n.z, t.x, t.y, t.z, k);
  }

  lemma Lin3(dx: real, dy: real, dz: real, nx: real, ny: real, nz: real,
             tx: real, ty: real, tz: real, k: real)
    ensures (dx - nx * k) * tx + (dy - ny * k) * ty + (dz - nz * k) * tz
         == (dx * tx + dy * ty + dz * tz) - k * (nx * tx + ny * ty + nz * tz)
  {
  }

  /**
   * The host primitives the code calls: `Math.sqrt`, `Math.atan2(y, x)` and
   * `applyQuaternion(setFromEuler(Euler(pitch, yaw, 0, "YXZ")))` applied to a
   * vector. They are parameters of the model; only the square root is
   * constrained.
   */
  datatype MathLib = MathLib(
    sqrt: real -> real,
    atan2: (real, real) -> real,
    rotateYXZ: (Vec3, real, real) -> Vec3)

  /** `m.sqrt` applied to `s`; the exactness fact below is stated about this term only. */
  function Sqrt(m: MathLib, s: real): real {
    m.sqrt(s)
  }

  /** `sqrt` is the exact non-negative square root on the non-negative reals. */
  ghost predicate SqrtExact(m: MathLib) {
    forall s :: 0.0 <= s ==> 0.0 <= Sqrt(m, s) && Sqrt(m, s) * Sqrt(m, s) == s
  }

  lemma SqrtFacts(m: MathLib, s: real)
    requires SqrtExact(m) && 0.0 <= s
    ensures 0.0 <= m.sqrt(s) && m.sqrt(s) * m.sqrt(s) == s
  {
    assert Sqrt(m, s) == m.sqrt(s);
  }

  /** `Vector3.length()`. */
  function Length(m: MathLib, v: Vec3): (r: real)
    requires SqrtExact(m)
    ensures r >= 0.0
  {
    var s := LengthSq(v);
    SqrtFacts(m, s);
    m.sqrt(s)
  }

  /** Only the zero vector has length zero. */
  lemma LengthZero(m: MathLib, v: Vec3)
    requires SqrtExact(m)
    ensures Length(m, v) == 0.0 <==> v == Zero
  {
    var s := LengthSq(v);
    SqrtFacts(m, s);
    RootZero(m.sqrt(s), s);
    LengthSqZero(v);
  }

  /** The length is the square root of the squared length. */
  lemma LengthSquared(m: MathLib, v: Vec3)
    requires SqrtExact(m)
    ensures Length(m, v) * Length(m, v) == LengthSq(v)
  {
    SqrtFacts(m, LengthSq(v));
  }

  lemma RootZero(r: real, s: real)
    requires r >= 0.0 && r * r == s
    ensures r == 0.0 <==> s == 0.0
  {
    if s == 0.0 { ProductZero(r, r); }
  }

  /** The factor `normalize` scales by: `1 / (length() || 1)`. */
  function InverseLength(m: MathLib, v: Vec3): (k: real)
    requires SqrtExact(m)
    ensures k > 0.0
  {
    var l := Length(m, v);
    if l == 0.0 then 1.0 else 1.0 / l
  }

  lemma InverseOfLength(m: MathLib, v: Vec3)
    requires SqrtExact(m) && v != Zero
    ensures InverseLength(m, v) * Length(m, v) == 1.0
  {
    LengthZero(m, v);
  }

  /** `Vector3.normalize()`. */
  function Normalize(m: MathLib, v: Vec3): Vec3
    requires SqrtExact(m)
  {
    Scale(v, InverseLength(m, v))
  }

  /** The zero vector normalises to itself. */
  lemma NormalizeZero(m: MathLib, v: Vec3)
    requires SqrtExact(m) && v == Zero
    ensures Normalize(m, v) == Zero
  {
    StayPut(Zero, v, InverseLength(m, v));
  }

  /** A non-zero vector normalises to a unit vector. */
  lemma NormalizeLength(m: MathLib, v: Vec3)
    requires SqrtExact(m)
    ensures v != Zero ==> LengthSq(Normalize(m, v)) == 1.0
  {
    if v != Zero {
      var l := Length(m, v);
      LengthZero(m, v);
      LengthSquared(m, v);
      UnitAfterDivision(v, l);
    }
  }

  lemma ScaleLengthSq(v: Vec3, k: real)
    ensures LengthSq(Scale(v, k)) == (k * k) * LengthSq(v)
  {
    assert (v.x * k) * (v.x * k) == (k * k) * (v.x * v.x);
    assert (v.y * k) * (v.y * k) == (k * k) * (v.y * v.y);
    assert (v.z * k) * (v.z * k) == (k * k) * (v.z * v.z);
  }

  lemma UnitAfterDivision(v: Vec3, l: real)
    requires l > 0.0 && l * l == LengthSq(v)
    ensures LengthSq(Scale(v, 1.0 / l)) == 1.0
  {
    var k := 1.0 / l;
    ScaleLengthSq(v, k);
    assert (k * k) * (l * l) == (k * l) * (k * l);
    assert k * l == 1.0;
  }

  /** The root of a square of a non-negative number is that number. */
  lemma SqrtOfSquare(m: MathLib, a: real)
    requires SqrtExact(m) && a >= 0.0
    ensures m.sqrt(a * a) == a
  {
    Square(a);
    var r := m.sqrt(a * a);
    SqrtFacts(m, a * a);
    assert (r - a) * (r + a) == r * r - a * a;
    ProductZero(r - a, r + a);
  }

  /** A unit vector normalises to itself. */
  lemma NormalizeUnit(m: MathLib, u: Vec3)
    requires SqrtExact(m) && LengthSq(u) == 1.0
    ensures Length(m, u) == 1.0
    ensures Normalize(m, u) == u
  {
    SqrtOfSquare(m, 1.0);
  }

  /** `Normalize(v)` scaled by `|v|` gives back `v`. */
  lemma NormalizeTimesLength(m: MathLib, v: Vec3)
    requires SqrtExact(m)
    ensures Scale(Normalize(m, v), Length(m, v)) == v
  {
    var l := Length(m, v);
    LengthZero(m, v);
    if l != 0.0 {
      assert 1.0 / l * l == 1.0;
    }
  }

  /** `Math.PI` and the right angle the code derives from it. */
  const Pi: real := 3.141592653589793
  const HalfPi: real := Pi / 2.0
}
