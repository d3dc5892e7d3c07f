/**
 * Sphere-against-box collision of game.js: the avatar is a sphere of radius 5
 * tested against axis-aligned wall boxes, the last intersecting wall in list
 * order is reported, with the flattened direction from the wall to the
 * avatar as its normal.
 */
module Collision {
  import opened Options
  import opened Vectors

  /** three.js `Box3`. */
  datatype Box3 = Box3(min: Vec3, max: Vec3)

  /** `Box3.containsPoint`: every face is inclusive. */
  predicate ContainsPoint(b: Box3, p: Vec3) {
    && b.min.x <= p.x <= b.max.x
    && b.min.y <= p.y <= b.max.y
    && b.min.z <= p.z <= b.max.z
  }

  predicate NonEmpty(b: Box3) {
    b.min.x <= b.max.x && b.min.y <= b.max.y && b.min.z <= b.max.z
  }

  /** `Math.max(lo, Math.min(v, hi))`. */
  function Clamp(lo: real, v: real, hi: real): (r: real)
    requires lo <= hi
    ensures lo <= r <= hi
    ensures lo <= v <= hi ==> r == v
  {
    if v > hi then (if lo > hi then lo else hi) else if lo > v then lo else v
  }

  /**
   * The closest point of the box to `p` (game.js:765-769, and `Box3.clampPoint`
   * inside `intersectsSphere`).
   */
  function ClampPoint(b: Box3, p: Vec3): (c: Vec3)
    requires NonEmpty(b)
    ensures ContainsPoint(b, c)
    ensures ContainsPoint(b, p) <==> c == p
  {
    Vec3(Clamp(b.min.x, p.x, b.max.x), Clamp(b.min.y, p.y, b.max.y), Clamp(b.min.z, p.z, b.max.z))
  }

  /** `Box3.intersectsSphere`: the closest point lies in the closed ball. */
  predicate IntersectsSphere(b: Box3, center: Vec3, radius: real)
    requires NonEmpty(b)
  {
    DistanceSq(ClampPoint(b, center), center) <= radius * radius
  }

  /** No point of the box is nearer to `p` than the clamped point. */
  lemma {:induction false} ClampPointNearest(b: Box3, p: Vec3, q: Vec3)
    requires NonEmpty(b) && ContainsPoint(b, q)
    ensures DistanceSq(ClampPoint(b, p), p) <= DistanceSq(q, p)
  {
    var c := ClampPoint(b, p);
    ClampNearest(b.min.x, p.x, b.max.x, q.x);
    ClampNearest(b.min.y, p.y, b.max.y, q.y);
    ClampNearest(b.min.z, p.z, b.max.z, q.z);
    SumLe(c.x - p.x, c.y - p.y, c.z - p.z, q.x - p.x, q.y - p.y, q.z - p.z);
  }

  lemma SumLe(a: real, b: real, c: real, a': real, b': real, c': real)
    requires a * a <= a' * a' && b * b <= b' * b' && c * c <= c' * c'
    ensures a * a + b * b + c * c <= a' * a' + b' * b' + c' * c'
  {
  }

  lemma ClampNearest(lo: real, v: real, hi: real, q: real)
    requires lo <= q <= hi
    ensures (Clamp(lo, v, hi) - v) * (Clamp(lo, v, hi) - v) <= (q - v) * (q - v)
  {
    var c := Clamp(lo, v, hi);
    if v > hi {
      SquareMono(v - q, v - c);
    } else if v < lo {
      SquareMono(q - v, c - v);
    } else {
      Square(q - v);
      assert c - v == 0.0;
    }
  }

  lemma SquareMono(big: real, small: real)
    requires 0.0 <= small <= big
    ensures small * small <= big * big
  {
    assert small * small <= small * big;
    assert small * big <= big * big;
  }

  /**
   * The box meets the ball exactly when some point of the box lies in the ball:
   * the clamp-and-compare test is the geometric intersection.
   */
  lemma IntersectsSphereMeaning(b: Box3, center: Vec3, radius: real)
    requires NonEmpty(b)
    ensures IntersectsSphere(b, center, radius) <==>
            exists q :: ContainsPoint(b, q) && DistanceSq(q, center) <= radius * radius
  {
    if exists q :: ContainsPoint(b, q) && DistanceSq(q, center) <= radius * radius {
      var q :| ContainsPoint(b, q) && DistanceSq(q, center) <= radius * radius;
      ClampPointNearest(b, center, q);
    }
  }

  /** game.js:742: the avatar's hitbox radius. */
  const CharacterRadius: real := 5.0

  /** game.js:748-749 and 753: the wall called the right wall. */
  const RightWall: Box3 := Box3(Vec3(0.0, -21.0, -190.0), Vec3(560.0, 31.0, -190.0))

  /** game.js:750-751 and 754: the wall called the left wall. */
  const LeftWall: Box3 := Box3(Vec3(70.0, -21.0, -300.0), Vec3(70.0, 31.0, 104.0))

  /** What each `isCollision` call appends to `invisWalls`, in order (game.js:756-757). */
  const PushedWalls: seq<Box3> := [LeftWall, RightWall]

  /** Every entry of the list is a copy of one of the two walls. */
  ghost predicate WallCopies(walls: seq<Box3>) {
    forall i :: 0 <= i < |walls| ==> walls[i] == LeftWall || walls[i] == RightWall
  }

  lemma WallCopiesAppend(walls: seq<Box3>)
    requires WallCopies(walls)
    ensures WallCopies(walls + PushedWalls)
  {
  }

  /**
   * A reported collision. `wall` is the index of the colliding `Box3` in
   * `invisWalls`: every push creates a fresh object, so the source's identity
   * test `wall === ignoreWall` compares positions in the list.
   */
  datatype Hit = Hit(normal: Vec3, wall: nat)

  /**
   * The collision normal (game.js:771-775): from the closest point towards
   * the avatar, normalised, then with its vertical component zeroed.
   */
  function WallNormal(m: MathLib, b: Box3, p: Vec3): (n: Vec3)
    requires SqrtExact(m) && NonEmpty(b)
    ensures n.y == 0.0
    ensures ContainsPoint(b, p) ==> n == Zero
  {
    Flat(Normalize(m, Sub(p, ClampPoint(b, p))))
  }

  /** Entry `i` is tested (it is not the ignored object) and meets the avatar's sphere. */
  predicate Blocks(walls: seq<Box3>, i: int, p: Vec3, ignore: Option<nat>)
  {
    0 <= i < |walls| && ignore != Some(i) && Touches(walls[i], p)
  }

  /** The wall meets the avatar's sphere centred at `p`. */
  predicate Touches(b: Box3, p: Vec3) {
    NonEmpty(b) && IntersectsSphere(b, p, CharacterRadius)
  }

  /**
   * The outcome of the `forEach` at game.js:759-778 over `walls`: each
   * blocking entry overwrites the result, so the last one wins.
   */
  function Scan(m: MathLib, walls: seq<Box3>, p: Vec3, ignore: Option<nat>): (r: Option<Hit>)
    requires SqrtExact(m)
    ensures r.Some? ==> Blocks(walls, r.value.wall, p, ignore)
    ensures r.Some? ==> r.value.normal == WallNormal(m, walls[r.value.wall], p)
    decreases |walls|
  {
    if walls == [] then None
    else
      var k := |walls| - 1;
      if Blocks(walls, k, p, ignore) then Some(Hit(WallNormal(m, walls[k], p), k))
      else
        var before := Scan(m, walls[..k], p, ignore);
        assert before.Some? ==> walls[..k][before.value.wall] == walls[before.value.wall];
        before
  }

  /** A collision is reported exactly when some entry blocks. */
  lemma {:induction false} ScanFindsBlocker(m: MathLib, walls: seq<Box3>, p: Vec3, ignore: Option<nat>)
    requires SqrtExact(m)
    ensures Scan(m, walls, p, ignore).Some? <==> exists i :: Blocks(walls, i, p, ignore)
    decreases |walls|
  {
    if walls != [] {
      var k := |walls| - 1;
      if !Blocks(walls, k, p, ignore) {
        assert Scan(m, walls, p, ignore) == Scan(m, walls[..k], p, ignore);
        ScanFindsBlocker(m, walls[..k], p, ignore);
        if exists i :: Blocks(walls, i, p, ignore) {
          var i :| Blocks(walls, i, p, ignore);
          BlocksPrefix(walls, k, i, p, ignore);
        }
        if exists i :: Blocks(walls[..k], i, p, ignore) {
          var i :| Blocks(walls[..k], i, p, ignore);
          BlocksPrefix(walls, k, i, p, ignore);
        }
      }
    }
  }

  /** An entry before `k` blocks in the prefix exactly when it blocks in the whole list. */
  lemma BlocksPrefix(walls: seq<Box3>, k: int, i: int, p: Vec3, ignore: Option<nat>)
    requires 0 <= k <= |walls|
    ensures i < k ==> (Blocks(walls[..k], i, p, ignore) <==> Blocks(walls, i, p, ignore))
    ensures Blocks(walls[..k], i, p, ignore) ==> i < k
  {
    if 0 <= i < k {
      assert walls[..k][i] == walls[i];
    }
  }

  /** The reported wall is the last blocking entry in list order. */
  lemma {:induction false} ScanReportsLast(m: MathLib, walls: seq<Box3>, p: Vec3, ignore: Option<nat>, j: int)
    requires SqrtExact(m)
    requires Scan(m, walls, p, ignore).Some?
    requires Scan(m, walls, p, ignore).value.wall < j < |walls|
    ensures !Blocks(walls, j, p, ignore)
    decreases |walls|
  {
    var k := |walls| - 1;
    if !Blocks(walls, k, p, ignore) {
      assert Scan(m, walls, p, ignore) == Scan(m, walls[..k], p, ignore);
      if j < k {
        ScanReportsLast(m, walls[..k], p, ignore, j);
        assert walls[..k][j] == walls[j];
      }
    }
  }

  /**
   * Because every call appends fresh copies of both walls, an ignored entry
   * always has an unignored copy of the same geometry at the end of the list:
   * ignoring it never changes whether a collision is reported.
   */
  lemma IgnoreNeverMatters(m: MathLib, walls: seq<Box3>, p: Vec3, k: nat)
    requires SqrtExact(m) && WallCopies(walls) && k < |walls|
    ensures Scan(m, walls + PushedWalls, p, Some(k)).Some? == Scan(m, walls + PushedWalls, p, None).Some?
  {
    var all := walls + PushedWalls;
    ScanFindsBlocker(m, all, p, Some(k));
    ScanFindsBlocker(m, all, p, None);
    if exists i :: Blocks(all, i, p, None) {
      var i :| Blocks(all, i, p, None);
      if i == k {
        var copy := if all[k] == LeftWall then |walls| else |walls| + 1;
        assert all[copy] == all[k];
        assert Blocks(all, copy, p, Some(k));
      } else {
        assert Blocks(all, i, p, Some(k));
      }
    }
  }

  /** When nothing is reported, no tested entry meets the avatar's sphere. */
  lemma ScanNoneClear(m: MathLib, walls: seq<Box3>, p: Vec3, ignore: Option<nat>, i: int)
    requires SqrtExact(m) && Scan(m, walls, p, ignore).None?
    requires 0 <= i < |walls| && ignore != Some(i) && NonEmpty(walls[i])
    ensures !IntersectsSphere(walls[i], p, CharacterRadius)
  {
    ScanFindsBlocker(m, walls, p, ignore);
    assert !Blocks(walls, i, p, ignore);
  }

  /** The `forEach` of game.js:759-778 as a loop over the list. */
  method LastHit(m: MathLib, walls: seq<Box3>, p: Vec3, ignore: Option<nat>) returns (r: Option<Hit>)
    requires SqrtExact(m)
    ensures r == Scan(m, walls, p, ignore)
  {
    r := None;
    var i := 0;
    while i < |walls|
      invariant 0 <= i <= |walls|
      invariant r == Scan(m, walls[..i], p, ignore)
    {
      assert walls[..i + 1][..i] == walls[..i];
      if ignore != Some(i) && Touches(walls[i], p) {
        r := Some(Hit(WallNormal(m, walls[i], p), i));
      }
      i := i + 1;
    }
    assert walls[..i] == walls;
  }
}
