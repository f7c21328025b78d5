/** The game object record of level 1 and the level's constants. */
module Entities {
  import opened Wrappers
  import opened Geometry

  /** GAME_OBJ_INST_MAX: the number of slots in the instance pool. */
  const Capacity: nat := 1024
  /** PLAYER_INITIAL_NUM */
  const PlayerInitialLives: int := 3
  /** NUM_ASTEROID */
  const NumAsteroid: nat := 33
  /** SHIP_ACC_FWD; the S key subtracts this same acceleration. */
  const ShipAccFwd: real := 150.0
  const BulletSpeed: real := 300.0
  /** ASTEROID_SPEED, as the integer the spawn code works with. */
  const AsteroidSpeed: int := 100
  const MaxShipVelocity: real := 200.0
  const ShipFriction: real := 0.005
  const ShipSize: real := 50.0
  const AsteroidSize: real := 50.0
  const ProjectileSize: real := 25.0

  /** GAMEOBJ_TYPE */
  datatype Kind = Ship | Bullet | Asteroid | Background | Missile

  /** The enum value of a kind, which is also its index in the mesh and texture tables. */
  function TypeIndex(k: Kind): (n: nat)
    ensures n < 5
  {
    match k
    case Ship => 0
    case Bullet => 1
    case Asteroid => 2
    case Background => 3
    case Missile => 4
  }

  /**
    One slot of the pool. `asset` is the common index into the mesh and the
    texture table (None is the null pointers of a zero-filled slot); the
    render matrix is not modelled.
   */
  datatype Entity = Entity(
    kind: Kind,
    active: bool,
    pos: Vec,
    vel: Vec,
    scale: Vec,
    orient: real,
    asset: Option<nat>)

  /** A slot after memset(0): type 0, inactive, everything zero, no mesh. */
  const Zero: Entity :=
    Entity(Ship, false, Vec(0.0, 0.0), Vec(0.0, 0.0), Vec(0.0, 0.0), 0.0, None)

  /** The record gameObjInstCreate writes into the slot it takes. */
  function Spawned(kind: Kind, pos: Vec, vel: Vec, scale: Vec, orient: real): Entity
  {
    Entity(kind, true, pos, vel, scale, orient, Some(TypeIndex(kind)))
  }
}
