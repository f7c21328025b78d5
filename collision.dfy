/**
  checkCollision: a separating-axis test between two game objects. Both
  corner sets are built from obj1's half-extents, and the four candidate axes
  are the edge normals of obj1's axis-parallel box, so the test amounts to an
  axis-aligned overlap test with obj1's full extents.
 */
module Collision {
  import opened Geometry
  import opened Entities

  /** The four corners, in the order the game lists them: top-left, top-right, bottom-right, bottom-left. */
  function Corners(c: Vec, w: real, h: real): seq<Vec>
  {
    [Vec(c.x - w, c.y + h), Vec(c.x + w, c.y + h), Vec(c.x + w, c.y - h), Vec(c.x - w, c.y - h)]
  }

  /**
    The normal of the edge from corner i to the next corner. The game then
    normalises it; that only rescales the normal by a non-zero factor, which
    cannot change the verdict (NormalisationIrrelevant), and a zero-length
    edge gives NaN components there, on which no comparison succeeds, just as
    the zero axis here never separates.
   */
  function EdgeNormal(vs: seq<Vec>, i: nat): Vec
    requires |vs| == 4 && i < 4
  {
    var n := if i + 1 > 3 then 0 else i + 1;
    Vec(-(vs[n].y - vs[i].y), vs[n].x - vs[i].x)
  }

  function Min(m: real, p: real): real { if p < m then p else m }

  function Max(m: real, p: real): real { if p > m then p else m }

  /** The least projection of the points onto axis a, folded in list order. */
  function Lo(a: Vec, vs: seq<Vec>): real
    requires |vs| > 0
  {
    if |vs| == 1 then Dot(a, vs[0]) else Min(Lo(a, vs[..|vs| - 1]), Dot(a, vs[|vs| - 1]))
  }

  /** The greatest projection of the points onto axis a. */
  function Hi(a: Vec, vs: seq<Vec>): real
    requires |vs| > 0
  {
    if |vs| == 1 then Dot(a, vs[0]) else Max(Hi(a, vs[..|vs| - 1]), Dot(a, vs[|vs| - 1]))
  }

  /** The projection intervals of the two point sets on axis a are disjoint. */
  predicate Separates(a: Vec, v1: seq<Vec>, v2: seq<Vec>)
    requires |v1| > 0 && |v2| > 0
  {
    Hi(a, v1) < Lo(a, v2) || Lo(a, v1) > Hi(a, v2)
  }

  /** The separating-axis test as the game states it. */
  predicate SatCollides(obj1: Entity, obj2: Entity)
  {
    var w, h := obj1.scale.x / 2.0, obj1.scale.y / 2.0;
    var v1, v2 := Corners(obj1.pos, w, h), Corners(obj2.pos, w, h);
    forall i :: 0 <= i < 4 ==> !Separates(EdgeNormal(v1, i), v1, v2)
  }

  /**
    The same test in closed form: the centres are within obj1's extents on
    each axis, where an axis whose normal vanishes (a zero extent on the other
    axis) is not tested. obj2's scale plays no part.
   */
  predicate Overlaps(obj1: Entity, obj2: Entity)
  {
    var dx, dy := obj1.pos.x - obj2.pos.x, obj1.pos.y - obj2.pos.y;
    (obj1.scale.x == 0.0 || Abs(dy) <= Abs(obj1.scale.y))
    && (obj1.scale.y == 0.0 || Abs(dx) <= Abs(obj1.scale.x))
  }

  method CheckCollision(obj1: Entity, obj2: Entity) returns (isCollision: bool)
    ensures isCollision == SatCollides(obj1, obj2)
    ensures isCollision == Overlaps(obj1, obj2)
  {
    var width, height := obj1.scale.x / 2.0, obj1.scale.y / 2.0;
    var vertices1 := Corners(obj1.pos, width, height);
    var vertices2 := Corners(obj2.pos, width, height);
    var axes := new Vec[4];

    for i := 0 to 4
      invariant forall k :: 0 <= k < i ==> axes[k] == EdgeNormal(vertices1, k)
    {
      var second := i + 1;
      if second > 3 { second := 0; }
      axes[i] := Vec(-(vertices1[second].y - vertices1[i].y), vertices1[second].x - vertices1[i].x);
    }

    isCollision := true;
    var i := 0;
    while i < 4
      invariant 0 <= i <= 4
      invariant forall k :: 0 <= k < i ==> !Separates(axes[k], vertices1, vertices2)
    {
      var obj1Min := Dot(axes[i], vertices1[0]);
      var obj1Max := obj1Min;
      var obj2Min := Dot(axes[i], vertices2[0]);
      var obj2Max := obj2Min;
      for j := 1 to 4
        invariant obj1Min == Lo(axes[i], vertices1[..j]) && obj1Max == Hi(axes[i], vertices1[..j])
        invariant obj2Min == Lo(axes[i], vertices2[..j]) && obj2Max == Hi(axes[i], vertices2[..j])
      {
        assert vertices1[..j + 1][..j] == vertices1[..j];
        assert vertices2[..j + 1][..j] == vertices2[..j];
        var projectionA := Dot(axes[i], vertices1[j]);
        if projectionA < obj1Min { obj1Min := projectionA; }
        if projectionA > obj1Max { obj1Max := projectionA; }
        var projectionB := Dot(axes[i], vertices2[j]);
        if projectionB < obj2Min { obj2Min := projectionB; }
        if projectionB > obj2Max { obj2Max := projectionB; }
      }
      assert vertices1[..4] == vertices1 && vertices2[..4] == vertices2;
      if obj1Max < obj2Min || obj1Min > obj2Max {
        isCollision := false;
        break;
      }
      i := i + 1;
    }
    SatIsOverlap(obj1, obj2);
  }

  // ---------------------------------------------------------------------------
  // Arithmetic helpers

  lemma MulPosLess(k: real, a: real, b: real)
    requires k > 0.0
    ensures k * a < k * b <==> a < b
  {
    if a < b {
      assert k * b - k * a == k * (b - a);
      assert k * (b - a) > 0.0;
    } else {
      assert k * a - k * b == k * (a - b);
      assert k * (a - b) >= 0.0;
    }
  }

  lemma AbsMul(k: real, a: real)
    ensures Abs(k * a) == Abs(k) * Abs(a)
  {
    if k < 0.0 && a < 0.0 { assert k * a == (-k) * (-a); }
    else if k < 0.0 { assert -(k * a) == (-k) * a; }
    else if a < 0.0 { assert -(k * a) == k * (-a); }
  }

  lemma ScaledCompare(k: real, x: real, y: real)
    ensures Abs(k * x) > Abs(k * y) <==> k != 0.0 && Abs(x) > Abs(y)
  {
    AbsMul(k, x);
    AbsMul(k, y);
    if k != 0.0 {
      PositiveFactor(Abs(k), Abs(x), Abs(y), Abs(k * x), Abs(k * y));
    } else {
      assert k * x == 0.0 && k * y == 0.0;
    }
  }

  lemma PositiveFactor(k: real, a: real, b: real, ka: real, kb: real)
    requires k > 0.0 && ka == k * a && kb == k * b
    ensures ka > kb <==> a > b
  {
    MulPosLess(k, b, a);
  }

  lemma Distribute(k: real, a: real, b: real)
    ensures k * a - k * b == k * (a - b)
  {
  }

  // ---------------------------------------------------------------------------
  // The separating-axis test is the axis-aligned overlap test

  lemma LoHi4(a: Vec, vs: seq<Vec>)
    requires |vs| == 4
    ensures Lo(a, vs) == Min(Min(Min(Dot(a, vs[0]), Dot(a, vs[1])), Dot(a, vs[2])), Dot(a, vs[3]))
    ensures Hi(a, vs) == Max(Max(Max(Dot(a, vs[0]), Dot(a, vs[1])), Dot(a, vs[2])), Dot(a, vs[3]))
  {
    var s3, s2, s1 := vs[..3], vs[..2], vs[..1];
    assert s3[..2] == s2 && s2[..1] == s1;
    assert s1[0] == vs[0] && s2[1] == vs[1] && s3[2] == vs[2];
    assert Lo(a, s1) == Dot(a, vs[0]) && Hi(a, s1) == Dot(a, vs[0]);
    assert Lo(a, s2) == Min(Dot(a, vs[0]), Dot(a, vs[1]));
    assert Hi(a, s2) == Max(Dot(a, vs[0]), Dot(a, vs[1]));
    assert Lo(a, s3) == Min(Lo(a, s2), Dot(a, vs[2]));
    assert Hi(a, s3) == Max(Hi(a, s2), Dot(a, vs[2]));
  }

  /**
    Two intervals of the same width e, the second shifted by d from the first:
    they are disjoint exactly when the shift exceeds the width.
   */
  lemma ShiftedIntervals(t1: real, b1: real, t2: real, b2: real, d: real, e: real)
    requires t1 - b1 == e && t2 - b2 == e && t2 - t1 == d
    ensures (Max(t1, b1) < Min(t2, b2) || Min(t1, b1) > Max(t2, b2)) <==> Abs(d) > Abs(e)
  {
  }

  /** Four points whose projections come in two equal pairs span the interval between the two values. */
  lemma LoHiPairs(a: Vec, vs: seq<Vec>, p: real, q: real)
    requires |vs| == 4
    requires (Dot(a, vs[0]) == p && Dot(a, vs[1]) == p && Dot(a, vs[2]) == q && Dot(a, vs[3]) == q)
          || (Dot(a, vs[0]) == q && Dot(a, vs[1]) == p && Dot(a, vs[2]) == p && Dot(a, vs[3]) == q)
    ensures Lo(a, vs) == Min(p, q) && Hi(a, vs) == Max(p, q)
  {
    LoHi4(a, vs);
  }

  lemma DotAxes(k: real, v: Vec)
    ensures Dot(Vec(0.0, k), v) == k * v.y
    ensures Dot(Vec(k, 0.0), v) == k * v.x
  {
  }

  /** The projections of a box onto an axis along y lie between its top and bottom edges. */
  lemma VerticalProjections(k: real, c: Vec, w: real, h: real)
    ensures Lo(Vec(0.0, k), Corners(c, w, h)) == Min(k * (c.y + h), k * (c.y - h))
    ensures Hi(Vec(0.0, k), Corners(c, w, h)) == Max(k * (c.y + h), k * (c.y - h))
  {
    var vs := Corners(c, w, h);
    DotAxes(k, vs[0]);
    DotAxes(k, vs[1]);
    DotAxes(k, vs[2]);
    DotAxes(k, vs[3]);
    LoHiPairs(Vec(0.0, k), vs, k * (c.y + h), k * (c.y - h));
  }

  /** The projections of a box onto an axis along x lie between its left and right edges. */
  lemma HorizontalProjections(k: real, c: Vec, w: real, h: real)
    ensures Lo(Vec(k, 0.0), Corners(c, w, h)) == Min(k * (c.x + w), k * (c.x - w))
    ensures Hi(Vec(k, 0.0), Corners(c, w, h)) == Max(k * (c.x + w), k * (c.x - w))
  {
    var vs := Corners(c, w, h);
    DotAxes(k, vs[0]);
    DotAxes(k, vs[1]);
    DotAxes(k, vs[2]);
    DotAxes(k, vs[3]);
    LoHiPairs(Vec(k, 0.0), vs, k * (c.x + w), k * (c.x - w));
  }

  /** Along an axis with normal k, intervals [b1, t1] and [b2, t2] around centres p1 and p2 with half-size r. */
  lemma AxisSeparation(k: real, p1: real, p2: real, r: real)
    ensures var t1, b1, t2, b2 := k * (p1 + r), k * (p1 - r), k * (p2 + r), k * (p2 - r);
      (Max(t1, b1) < Min(t2, b2) || Min(t1, b1) > Max(t2, b2)) <==> k != 0.0 && Abs(p1 - p2) > 2.0 * Abs(r)
  {
    var t1, b1, t2, b2 := k * (p1 + r), k * (p1 - r), k * (p2 + r), k * (p2 - r);
    var d, e := k * (p2 - p1), k * (2.0 * r);
    Distribute(k, p1 + r, p1 - r);
    Distribute(k, p2 + r, p2 - r);
    Distribute(k, p2 + r, p1 + r);
    assert (p1 + r) - (p1 - r) == 2.0 * r && (p2 + r) - (p2 - r) == 2.0 * r && (p2 + r) - (p1 + r) == p2 - p1;
    assert t1 - b1 == e && t2 - b2 == e && t2 - t1 == d;
    CentresApart(k, p1, p2, r);
    SeparationByShift(t1, b1, t2, b2, d, e, k != 0.0 && Abs(p1 - p2) > 2.0 * Abs(r));
  }

  /** The scaled distance of the centres exceeds the scaled width exactly when the scale is non-zero and the centres are more than a width apart. */
  lemma CentresApart(k: real, p1: real, p2: real, r: real)
    ensures Abs(k * (p2 - p1)) > Abs(k * (2.0 * r)) <==> k != 0.0 && Abs(p1 - p2) > 2.0 * Abs(r)
  {
    ScaledCompare(k, p2 - p1, 2.0 * r);
    assert Abs(p2 - p1) == Abs(p1 - p2) && Abs(2.0 * r) == 2.0 * Abs(r);
  }

  lemma SeparationByShift(t1: real, b1: real, t2: real, b2: real, d: real, e: real, apart: bool)
    requires t1 - b1 == e && t2 - b2 == e && t2 - t1 == d
    requires (Abs(d) > Abs(e)) == apart
    ensures (Max(t1, b1) < Min(t2, b2) || Min(t1, b1) > Max(t2, b2)) == apart
  {
    ShiftedIntervals(t1, b1, t2, b2, d, e);
  }

  /** An axis along y (normal (0, k)) separates the two boxes iff k is non-zero and the centres are more than a full height apart. */
  lemma VerticalAxis(k: real, c1: Vec, c2: Vec, w: real, h: real)
    ensures Separates(Vec(0.0, k), Corners(c1, w, h), Corners(c2, w, h))
        <==> k != 0.0 && Abs(c1.y - c2.y) > 2.0 * Abs(h)
  {
    VerticalProjections(k, c1, w, h);
    VerticalProjections(k, c2, w, h);
    AxisSeparation(k, c1.y, c2.y, h);
  }

  /** An axis along x (normal (k, 0)) separates the boxes iff k is non-zero and the centres are more than a full width apart. */
  lemma HorizontalAxis(k: real, c1: Vec, c2: Vec, w: real, h: real)
    ensures Separates(Vec(k, 0.0), Corners(c1, w, h), Corners(c2, w, h))
        <==> k != 0.0 && Abs(c1.x - c2.x) > 2.0 * Abs(w)
  {
    HorizontalProjections(k, c1, w, h);
    HorizontalProjections(k, c2, w, h);
    AxisSeparation(k, c1.x, c2.x, w);
  }

  /** The separating-axis test and the closed form agree on every pair of objects. */
  lemma SatIsOverlap(obj1: Entity, obj2: Entity)
    ensures SatCollides(obj1, obj2) == Overlaps(obj1, obj2)
  {
    var w, h := obj1.scale.x / 2.0, obj1.scale.y / 2.0;
    var v1, v2 := Corners(obj1.pos, w, h), Corners(obj2.pos, w, h);
    assert EdgeNormal(v1, 0) == Vec(0.0, 2.0 * w);
    assert EdgeNormal(v1, 1) == Vec(2.0 * h, 0.0);
    assert EdgeNormal(v1, 2) == Vec(0.0, -(2.0 * w));
    assert EdgeNormal(v1, 3) == Vec(-(2.0 * h), 0.0);
    VerticalAxis(2.0 * w, obj1.pos, obj2.pos, w, h);
    HorizontalAxis(2.0 * h, obj1.pos, obj2.pos, w, h);
    VerticalAxis(-(2.0 * w), obj1.pos, obj2.pos, w, h);
    HorizontalAxis(-(2.0 * h), obj1.pos, obj2.pos, w, h);
    var yClear := w != 0.0 && Abs(obj1.pos.y - obj2.pos.y) > 2.0 * Abs(h);
    var xClear := h != 0.0 && Abs(obj1.pos.x - obj2.pos.x) > 2.0 * Abs(w);
    assert SatCollides(obj1, obj2) <==> !yClear && !xClear by {
      assert SatCollides(obj1, obj2) <==>
        !Separates(EdgeNormal(v1, 0), v1, v2) && !Separates(EdgeNormal(v1, 1), v1, v2)
        && !Separates(EdgeNormal(v1, 2), v1, v2) && !Separates(EdgeNormal(v1, 3), v1, v2);
    }
    assert 2.0 * Abs(h) == Abs(obj1.scale.y) && 2.0 * Abs(w) == Abs(obj1.scale.x);
    assert w == 0.0 <==> obj1.scale.x == 0.0;
    assert h == 0.0 <==> obj1.scale.y == 0.0;
  }

  /**
    Normalising an edge normal only rescales it by a non-zero factor, and for
    the axis-parallel normals the test meets, any non-zero factor gives the
    same verdict on every pair of boxes.
   */
  lemma NormalisationIrrelevant(k: real, k': real, c1: Vec, c2: Vec, w: real, h: real)
    requires k != 0.0 && k' != 0.0
    ensures Separates(Vec(0.0, k), Corners(c1, w, h), Corners(c2, w, h))
        == Separates(Vec(0.0, k'), Corners(c1, w, h), Corners(c2, w, h))
    ensures Separates(Vec(k, 0.0), Corners(c1, w, h), Corners(c2, w, h))
        == Separates(Vec(k', 0.0), Corners(c1, w, h), Corners(c2, w, h))
  {
    VerticalAxis(k, c1, c2, w, h);
    VerticalAxis(k', c1, c2, w, h);
    HorizontalAxis(k, c1, c2, w, h);
    HorizontalAxis(k', c1, c2, w, h);
  }

  /** For objects of positive size the test is |dx| <= obj1.scale.x and |dy| <= obj1.scale.y. */
  lemma OverlapsPositiveScale(obj1: Entity, obj2: Entity)
    requires obj1.scale.x > 0.0 && obj1.scale.y > 0.0
    ensures Overlaps(obj1, obj2) <==>
      Abs(obj1.pos.x - obj2.pos.x) <= obj1.scale.x && Abs(obj1.pos.y - obj2.pos.y) <= obj1.scale.y
  {
  }

  /**
    The result depends on obj1's extents only: it is symmetric when both
    objects have the same extents, and not in general.
   */
  lemma SymmetricForEqualScales(a: Entity, b: Entity)
    requires Abs(a.scale.x) == Abs(b.scale.x) && Abs(a.scale.y) == Abs(b.scale.y)
    requires a.scale.x == 0.0 <==> b.scale.x == 0.0
    requires a.scale.y == 0.0 <==> b.scale.y == 0.0
    ensures Overlaps(a, b) == Overlaps(b, a)
  {
    assert Abs(a.pos.x - b.pos.x) == Abs(b.pos.x - a.pos.x);
    assert Abs(a.pos.y - b.pos.y) == Abs(b.pos.y - a.pos.y);
  }

  /** An asteroid (50 wide) and a bullet (25 wide) 40 apart: the asteroid's test hits, the bullet's misses. */
  lemma NotSymmetric()
    ensures var asteroid := Spawned(Asteroid, Vec(0.0, 0.0), Vec(0.0, 0.0), Vec(AsteroidSize, AsteroidSize), 0.0);
      var bullet := Spawned(Bullet, Vec(40.0, 0.0), Vec(0.0, 0.0), Vec(ProjectileSize, ProjectileSize), 0.0);
      Overlaps(asteroid, bullet) && !Overlaps(bullet, asteroid)
  {
  }
}
