/** Option, as the pool's "no slot" sentinel (a NULL pointer in the game). */
module Wrappers {
  datatype Option<+T> = None | Some(value: T)
}

/**
  Two-dimensional vectors over the reals, and the floating-point library calls
  the level makes (cos, sin, atan2, sqrt and the constant PI) passed in as a
  record of functions, since their IEEE behaviour is not part of this model.
  Only x and y are modelled; the game keeps z at 0 for every moving entity.
 */
module Geometry {

  datatype Vec = Vec(x: real, y: real)

  function Plus(a: Vec, b: Vec): Vec { Vec(a.x + b.x, a.y + b.y) }

  function Minus(a: Vec, b: Vec): Vec { Vec(a.x - b.x, a.y - b.y) }

  function Scale(a: Vec, k: real): Vec { Vec(a.x * k, a.y * k) }

  function Dot(a: Vec, b: Vec): real { a.x * b.x + a.y * b.y }

  /** Squared length, so that length comparisons need no square root. */
  function SqLen(a: Vec): real { Dot(a, a) }

  function Abs(r: real): real { if r < 0.0 then -r else r }

  /** The maths library as the level sees it. */
  datatype Math = Math(
    pi: real,
    cos: real -> real,
    sin: real -> real,
    atan2: (real, real) -> real,
    sqrt: real -> real)

  /** glm::length */
  function Length(m: Math, a: Vec): real { m.sqrt(SqLen(a)) }

  /**
    The "forward" unit vector of an entity: its orientation is measured from
    the screen's x axis, and the sprite points a quarter turn further.
   */
  function Heading(m: Math, orient: real): Vec
  {
    Vec(m.cos(orient + m.pi / 2.0), m.sin(orient + m.pi / 2.0))
  }

  /** A square root that is exact on the non-negative reals. */
  ghost predicate ExactSqrt(m: Math)
  {
    forall r :: 0.0 <= r ==> 0.0 <= m.sqrt(r) && m.sqrt(r) * m.sqrt(r) == r
  }

  lemma SqLenNonNegative(a: Vec)
    ensures 0.0 <= SqLen(a)
  {
    assert a.x * a.x >= 0.0 && a.y * a.y >= 0.0;
  }

  lemma SqLenScale(a: Vec, k: real)
    ensures SqLen(Scale(a, k)) == k * k * SqLen(a)
  {
    calc {
      SqLen(Scale(a, k));
      (a.x * k) * (a.x * k) + (a.y * k) * (a.y * k);
      k * k * (a.x * a.x) + k * k * (a.y * a.y);
      k * k * SqLen(a);
    }
  }
}
