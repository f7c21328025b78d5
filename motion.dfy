/**
  The per-object rules of one frame of level 1: the ship's controls, the
  motion of each kind of object, the homing missile's bounded turn, and the
  screen wrap / despawn rule.
 */
module Motion {
  import opened Wrappers
  import opened Geometry
  import opened Entities

  /** The keys the update polls: W, S, A, D, J and K. */
  datatype Input = Input(
    forward: bool,
    backward: bool,
    turnLeft: bool,
    turnRight: bool,
    fireBullet: bool,
    fireMissile: bool)

  /** SHIP_ROT_SPEED, in radians per second. */
  function ShipRotSpeed(m: Math): real { 2.0 * m.pi }

  /** HOMING_MISSILE_ROT_SPEED, in radians per second. */
  function HomingRotSpeed(m: Math): real { m.pi / 2.0 }

  // ---------------------------------------------------------------------------
  // Ship controls

  /** The velocity cap: a velocity longer than MAX_SHIP_VELOCITY is rescaled to that length. */
  function CapSpeed(m: Math, v: Vec): Vec
  {
    var l := Length(m, v);
    if l > MaxShipVelocity then Scale(v, MaxShipVelocity / l) else v
  }

  /**
    W and S add and subtract the same thrust along the ship's heading, each
    followed by the cap; A and D turn the ship. The thrust uses the heading
    from before the turn.
   */
  function SteerShip(e: Entity, keys: Input, dt: real, m: Math): Entity
  {
    var thrust := Scale(Heading(m, e.orient), ShipAccFwd * dt);
    var v1 := if keys.forward then CapSpeed(m, Plus(e.vel, thrust)) else e.vel;
    var v2 := if keys.backward then CapSpeed(m, Minus(v1, thrust)) else v1;
    var o1 := if keys.turnLeft then e.orient + dt * ShipRotSpeed(m) else e.orient;
    var o2 := if keys.turnRight then o1 - dt * ShipRotSpeed(m) else o1;
    e.(vel := v2, orient := o2)
  }

  /** A bullet or missile fired from the ship: its position, heading and orientation, at BULLET_SPEED. */
  function Projectile(kind: Kind, ship: Entity, m: Math): Entity
  {
    Spawned(kind, ship.pos, Scale(Heading(m, ship.orient), BulletSpeed),
            Vec(ProjectileSize, ProjectileSize), ship.orient)
  }

  // ---------------------------------------------------------------------------
  // Motion

  /** position += velocity * dt */
  function Advance(e: Entity, dt: real): Entity
  {
    e.(pos := Plus(e.pos, Scale(e.vel, dt)))
  }

  /** The ship: friction first, then integration with the slowed velocity. */
  function ShipMotion(e: Entity, dt: real): Entity
  {
    var v := Scale(e.vel, 1.0 - ShipFriction);
    e.(vel := v, pos := Plus(e.pos, Scale(v, dt)))
  }

  /**
    The homing turn: when the desired angle is further than maxRotate from
    the orientation, turn by exactly maxRotate toward it (toward the larger
    number, with no regard for angle wrap-around); otherwise take the angle.
   */
  function Turn(orient: real, angle: real, maxRotate: real): (r: real)
    ensures Abs(r - orient) <= Abs(maxRotate)
    ensures r == angle <==> Abs(angle - orient) <= maxRotate
    ensures r != angle ==> Abs(r - orient) == Abs(maxRotate)
    ensures 0.0 <= maxRotate ==> (orient <= r <= angle || angle <= r <= orient)
  {
    if Abs(angle - orient) > maxRotate then
      if angle > orient then orient + maxRotate else orient - maxRotate
    else angle
  }

  /** glm::normalize; the game's NaN for a zero vector is not modelled (the vector is kept). */
  function Direction(m: Math, d: Vec): Vec
  {
    var l := Length(m, d);
    if l == 0.0 then d else Scale(d, 1.0 / l)
  }

  /** The orientation that points from p at t: the angle of the normalised direction, less pi / 2. */
  function AimAngle(m: Math, p: Vec, t: Vec): real
  {
    var dir := Direction(m, Minus(t, p));
    m.atan2(dir.y, dir.x) - m.pi / 2.0
  }

  /**
    The homing step of a missile that has a target: turn toward it by at
    most HOMING_MISSILE_ROT_SPEED * dt and take BULLET_SPEED along the new
    heading.
   */
  function Homed(e: Entity, t: Vec, dt: real, m: Math): Entity
  {
    var o := Turn(e.orient, AimAngle(m, e.pos, t), HomingRotSpeed(m) * dt);
    e.(orient := o, vel := Scale(Heading(m, o), BulletSpeed))
  }

  /** A missile: home in on the target when there is one, then move by velocity * dt. */
  function MissileMotion(e: Entity, dt: real, target: Option<Vec>, m: Math): Entity
  {
    match target
    case None => Advance(e, dt)
    case Some(t) => Advance(Homed(e, t, dt, m), dt)
  }

  /** One object's motion for the frame, by kind; inactive slots and the background stay put. */
  function MoveEntity(e: Entity, dt: real, target: Option<Vec>, m: Math): Entity
  {
    if !e.active then e
    else match e.kind
      case Ship => ShipMotion(e, dt)
      case Bullet => Advance(e, dt)
      case Asteroid => Advance(e, dt)
      case Missile => MissileMotion(e, dt, target, m)
      case Background => e
  }

  // ---------------------------------------------------------------------------
  // Wrap and despawn

  /** The game's `int d = abs(x)`: the absolute value truncated to an integer. */
  function Distance(r: real): int { Abs(r).Floor }

  /** |r| truncated exceeds n exactly when |r| reaches n + 1. */
  lemma DistanceExceeds(r: real, n: int)
    ensures Distance(r) > n <==> Abs(r) >= (n + 1) as real
  {
  }

  /**
    Ships and asteroids beyond half the screen on an axis have that
    coordinate negated; bullets and missiles beyond it on either axis are
    destroyed. W and H are the window's width and height.
   */
  function WrapEntity(e: Entity, W: nat, H: nat): Entity
  {
    if !e.active then e
    else
      var outX, outY := Distance(e.pos.x) > W / 2, Distance(e.pos.y) > H / 2;
      match e.kind
      case Ship => e.(pos := Vec(if outX then -e.pos.x else e.pos.x, if outY then -e.pos.y else e.pos.y))
      case Asteroid => e.(pos := Vec(if outX then -e.pos.x else e.pos.x, if outY then -e.pos.y else e.pos.y))
      case Bullet => if outX || outY then e.(active := false) else e
      case Missile => if outX || outY then e.(active := false) else e
      case Background => e
  }

  // ---------------------------------------------------------------------------
  // Properties

  /** Motion never creates, destroys or retypes an object. */
  lemma MoveKeepsIdentity(e: Entity, dt: real, target: Option<Vec>, m: Math)
    ensures var e' := MoveEntity(e, dt, target, m);
      e'.active == e.active && e'.kind == e.kind && e'.scale == e.scale && e'.asset == e.asset
  {
  }

  /** Without a target a missile keeps its orientation and velocity and only moves by velocity * dt. */
  lemma NoTargetFliesStraight(e: Entity, dt: real, m: Math)
    requires e.active && e.kind == Missile
    ensures var e' := MoveEntity(e, dt, None, m);
      e'.orient == e.orient && e'.vel == e.vel && e'.pos == Plus(e.pos, Scale(e.vel, dt))
  {
  }

  /** With a target, a missile turns by at most HOMING_MISSILE_ROT_SPEED * |dt| and then flies along its new heading. */
  lemma HomingTurnBounded(e: Entity, dt: real, t: Vec, m: Math)
    requires e.active && e.kind == Missile
    ensures var e' := MoveEntity(e, dt, Some(t), m);
      Abs(e'.orient - e.orient) <= Abs(HomingRotSpeed(m) * dt)
      && e'.vel == Scale(Heading(m, e'.orient), BulletSpeed)
      && e'.pos == Plus(e.pos, Scale(e'.vel, dt))
  {
  }

  /**
    The turn decides its direction by comparing the numbers only: at an
    orientation just below +pi and a target just above -pi, the missile turns
    the long way round, away from the target.
   */
  lemma TurnIgnoresWrapAround()
    ensures Turn(3.0, -3.0, 0.1) == 2.9
  {
  }

  /** With an exact square root the cap bounds the speed by MAX_SHIP_VELOCITY, keeps slower velocities and only shortens faster ones, keeping their direction. */
  lemma CapSpeedBounded(m: Math, v: Vec)
    requires ExactSqrt(m)
    ensures SqLen(CapSpeed(m, v)) <= MaxShipVelocity * MaxShipVelocity
    ensures SqLen(v) <= MaxShipVelocity * MaxShipVelocity ==> CapSpeed(m, v) == v
    ensures SqLen(v) > MaxShipVelocity * MaxShipVelocity ==>
      SqLen(CapSpeed(m, v)) == MaxShipVelocity * MaxShipVelocity
      && exists c :: 0.0 < c < 1.0 && CapSpeed(m, v) == Scale(v, c)
  {
    SqLenNonNegative(v);
    var q := SqLen(v);
    var l := Length(m, v);
    assert 0.0 <= l && l * l == q;
    if l > MaxShipVelocity {
      var c := MaxShipVelocity / l;
      SqLenScale(v, c);
      assert c * l == MaxShipVelocity;
      assert c * c * q == (c * l) * (c * l);
      assert 0.0 < c < 1.0;
      assert q > MaxShipVelocity * MaxShipVelocity by {
        assert l * l > MaxShipVelocity * l > MaxShipVelocity * MaxShipVelocity;
      }
    } else {
      SquareMonotone(l, MaxShipVelocity);
    }
  }

  lemma SquareMonotone(a: real, b: real)
    requires 0.0 <= a <= b
    ensures a * a <= b * b
  {
    assert a * a <= a * b;
    assert a * b <= b * b;
  }

  /** Friction never speeds the ship up. */
  lemma FrictionSlows(e: Entity, dt: real)
    ensures SqLen(ShipMotion(e, dt).vel) <= SqLen(e.vel)
  {
    SqLenScale(e.vel, 1.0 - ShipFriction);
    SqLenNonNegative(e.vel);
  }

  /** Steering keeps a ship within the speed cap when it was, whatever keys are pressed. */
  lemma SteerKeepsCap(e: Entity, keys: Input, dt: real, m: Math)
    requires ExactSqrt(m)
    requires SqLen(e.vel) <= MaxShipVelocity * MaxShipVelocity
    ensures SqLen(SteerShip(e, keys, dt, m).vel) <= MaxShipVelocity * MaxShipVelocity
  {
    var thrust := Scale(Heading(m, e.orient), ShipAccFwd * dt);
    var v1 := if keys.forward then CapSpeed(m, Plus(e.vel, thrust)) else e.vel;
    CapSpeedBounded(m, Plus(e.vel, thrust));
    CapSpeedBounded(m, Minus(v1, thrust));
  }

  /**
    A ship within the speed cap stays within it through a frame of controls
    and motion, whatever keys are pressed.
   */
  lemma ShipSpeedStaysCapped(e: Entity, keys: Input, dt: real, m: Math)
    requires ExactSqrt(m)
    requires SqLen(e.vel) <= MaxShipVelocity * MaxShipVelocity
    ensures SqLen(ShipMotion(SteerShip(e, keys, dt, m), dt).vel) <= MaxShipVelocity * MaxShipVelocity
  {
    SteerKeepsCap(e, keys, dt, m);
    FrictionSlows(SteerShip(e, keys, dt, m), dt);
  }

  /**
    Wrap keeps ships and asteroids alive and flips exactly the coordinates
    whose magnitude reaches half the screen plus one; bullets and missiles
    keep their place and die exactly when out on some axis.
   */
  lemma WrapRule(e: Entity, W: nat, H: nat)
    requires e.active
    ensures var e' := WrapEntity(e, W, H);
      && e'.kind == e.kind && e'.vel == e.vel
      && (e.kind == Ship || e.kind == Asteroid ==>
            e'.active
            && e'.pos.x == (if Abs(e.pos.x) >= (W / 2 + 1) as real then -e.pos.x else e.pos.x)
            && e'.pos.y == (if Abs(e.pos.y) >= (H / 2 + 1) as real then -e.pos.y else e.pos.y))
      && (e.kind == Bullet || e.kind == Missile ==>
            e'.pos == e.pos
            && (!e'.active <==> Abs(e.pos.x) >= (W / 2 + 1) as real || Abs(e.pos.y) >= (H / 2 + 1) as real))
      && (e.kind == Background ==> e' == e)
  {
    DistanceExceeds(e.pos.x, W / 2);
    DistanceExceeds(e.pos.y, H / 2);
  }

  /** Wrapping never changes the magnitude of a coordinate. */
  lemma WrapKeepsMagnitude(e: Entity, W: nat, H: nat)
    ensures Abs(WrapEntity(e, W, H).pos.x) == Abs(e.pos.x)
    ensures Abs(WrapEntity(e, W, H).pos.y) == Abs(e.pos.y)
  {
  }
}
