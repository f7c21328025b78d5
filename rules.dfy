/**
  The level's state as a value and the specification of every step of the
  level: creation and destruction of instances, Free, Init and restart, the
  input phase, the missile-target search, motion, wrap, and the collision
  pass. The class in GameStateLevel1 is proved to follow these functions.
 */
module Rules {
  import opened Wrappers
  import opened Geometry
  import opened Entities
  import opened Pool
  import opened Collision
  import opened Motion

  /**
    The level's variables: the instance array, the live-object counter
    sNumGameObj, the slots sPlayer and sBackground point to (None for NULL),
    sPlayerLives and sScore.
   */
  datatype World = World(
    slots: seq<Entity>,
    count: int,
    player: Option<nat>,
    background: Option<nat>,
    lives: int,
    score: int)

  /** The four rand() draws that place one asteroid: x, y, vx, vy. */
  datatype Spawn = Spawn(rx: nat, ry: nat, rvx: nat, rvy: nat)

  // ---------------------------------------------------------------------------
  // Creation and destruction

  /** gameObjInstCreate: the lowest free slot takes e and the counter goes up; a full pool is left alone. */
  function CreateIn(w: World, e: Entity): (r: World)
    ensures |r.slots| == |w.slots|
  {
    w.(slots := Add(w.slots, e), count := if FirstFree(w.slots).Some? then w.count + 1 else w.count)
  }

  /** gameObjInstDestroy: an active slot is cleared and the counter goes down; an inactive one is left alone. */
  function DestroyIn(w: World, i: nat): (r: World)
    requires i < |w.slots|
    ensures |r.slots| == |w.slots|
  {
    if !w.slots[i].active then w else w.(slots := Kill(w.slots, i), count := w.count - 1)
  }

  /** The counter agrees with the slots. */
  predicate Counted(w: World) { w.count == CountActive(w.slots) }

  /**
    Creation takes the lowest free slot, writes the object with its type's
    asset, keeps the counter equal to the number of live slots, and changes
    nothing else; a full pool refuses and nothing changes at all.
   */
  lemma CreateInRule(w: World, kind: Kind, pos: Vec, vel: Vec, scale: Vec, orient: real)
    requires Counted(w)
    ensures var e := Spawned(kind, pos, vel, scale, orient);
      var r := CreateIn(w, e);
      && Counted(r) && |r.slots| == |w.slots|
      && r.(slots := w.slots, count := w.count) == w
      && (AllActive(w.slots) ==> r == w)
      && (!AllActive(w.slots) ==>
            exists i :: 0 <= i < |w.slots| && !w.slots[i].active
              && (forall j :: 0 <= j < i ==> w.slots[j].active)
              && r.slots == w.slots[i := e] && r.slots[i].asset == Some(TypeIndex(kind))
              && r.count == w.count + 1)
  {
    var e := Spawned(kind, pos, vel, scale, orient);
    AddTakesLowestFree(w.slots, e);
  }

  /** Destruction is idempotent and keeps the counter equal to the number of live slots. */
  lemma DestroyInRule(w: World, i: nat)
    requires i < |w.slots| && Counted(w)
    ensures Counted(DestroyIn(w, i))
    ensures DestroyIn(DestroyIn(w, i), i) == DestroyIn(w, i)
    ensures DestroyIn(w, i).slots == w.slots[i := w.slots[i].(active := false)]
    ensures DestroyIn(w, i).count == w.count - Bit(w.slots[i])
  {
    KillClearsFlag(w.slots, i);
    if w.slots[i].active {
      var s := Kill(w.slots, i);
      assert !s[i].active;
      KillClearsFlag(s, i);
    }
  }

  // ---------------------------------------------------------------------------
  // Free, Init and restart

  /** GameStateLevel1Free: every slot destroyed in turn; the counter drops once per live slot. */
  function FreeWorld(w: World): World
  {
    w.(slots := seq(|w.slots|, k requires 0 <= k < |w.slots| => w.slots[k].(active := false)),
       count := w.count - CountActive(w.slots))
  }

  /** memset of the instance array and sPlayer = NULL, as restart does after Free. */
  function Zeroed(w: World): World
  {
    w.(slots := seq(|w.slots|, k => Zero), player := None)
  }

  function BackgroundAt(W: nat, H: nat): Entity
  {
    Spawned(Background, Vec(0.0, 0.0), Vec(0.0, 0.0), Vec(W as real, H as real), 0.0)
  }

  /** The ship starts at rest at (0, -H/4) (integer division, as the window height is an int). */
  function ShipAtStart(H: nat): Entity
  {
    Spawned(Ship, Vec(0.0, -((H / 4) as real)), Vec(0.0, 0.0), Vec(ShipSize, ShipSize), 0.0)
  }

  /**
    One asteroid from its draws: x = -(W/2) + rx % W, y = (ry % H) / 2 and
    each velocity component -ASTEROID_SPEED + rv % 200, all in integer
    arithmetic before the conversion to float.
   */
  function AsteroidFrom(sp: Spawn, W: nat, H: nat): Entity
    requires W > 0 && H > 0
  {
    Spawned(Asteroid,
      Vec((-(W / 2) + sp.rx % W) as real, ((sp.ry % H) / 2) as real),
      Vec((-AsteroidSpeed + sp.rvx % (2 * AsteroidSpeed)) as real,
          (-AsteroidSpeed + sp.rvy % (2 * AsteroidSpeed)) as real),
      Vec(AsteroidSize, AsteroidSize), 0.0)
  }

  /** Asteroids spawn inside the window's width, in its upper half, with speed components in [-100, 99]. */
  lemma AsteroidSpawnRange(sp: Spawn, W: nat, H: nat)
    requires W > 0 && H > 0
    ensures var e := AsteroidFrom(sp, W, H);
      && e.active && e.kind == Asteroid
      && -((W / 2) as real) <= e.pos.x <= ((W - 1) - W / 2) as real
      && 0.0 <= e.pos.y <= ((H - 1) / 2) as real
      && -100.0 <= e.vel.x <= 99.0 && -100.0 <= e.vel.y <= 99.0
  {
  }

  /** The asteroid loop of Init: asteroid k of NUM_ASTEROID is placed by the draws draw(k). */
  function AddAsteroids(w: World, draw: nat -> Spawn, k: nat, W: nat, H: nat): (r: World)
    requires W > 0 && H > 0
    ensures |r.slots| == |w.slots|
    decreases NumAsteroid - k
  {
    if k >= NumAsteroid then w
    else AddAsteroids(CreateIn(w, AsteroidFrom(draw(k), W, H)), draw, k + 1, W, H)
  }

  lemma AddAsteroidsStep(w: World, draw: nat -> Spawn, k: nat, W: nat, H: nat)
    requires W > 0 && H > 0 && k < NumAsteroid
    ensures AddAsteroids(w, draw, k, W, H) == AddAsteroids(CreateIn(w, AsteroidFrom(draw(k), W, H)), draw, k + 1, W, H)
  {
  }

  /**
    GameStateLevel1Init: the background first, then the ship, then the
    asteroids, each through gameObjInstCreate; sBackground and sPlayer are
    the slots the first two creations returned; score 0 and full lives.
   */
  function InitWorld(w: World, draw: nat -> Spawn, W: nat, H: nat): (r: World)
    requires W > 0 && H > 0
    ensures |r.slots| == |w.slots|
  {
    AddAsteroids(PlaceShip(PlaceBackground(w, W, H), H), draw, 0, W, H).(score := 0, lives := PlayerInitialLives)
  }

  /** The background's creation; sBackground takes the slot it got. */
  function PlaceBackground(w: World, W: nat, H: nat): World
  {
    CreateIn(w, BackgroundAt(W, H)).(background := FirstFree(w.slots))
  }

  /** The ship's creation; sPlayer takes the slot it got. */
  function PlaceShip(w: World, H: nat): World
  {
    CreateIn(w, ShipAtStart(H)).(player := FirstFree(w.slots))
  }

  /**
    restart: Free, clear the array, forget the player, Init. Stated here by
    its outcome, a fresh level whatever was in the pool; RestartIsFreeThenInit
    proves that this is what that sequence of steps produces. The counter is
    not part of the cleared array, so it keeps any error it had.
   */
  function Restart(w: World, draw: nat -> Spawn, W: nat, H: nat): (r: World)
    requires W > 0 && H > 0
  {
    World(StartSlots(draw, W, H), w.count - CountActive(w.slots) + 2 + NumAsteroid,
          Some(1), Some(0), PlayerInitialLives, 0)
  }

  /** The slots of a freshly started level: background, ship, NUM_ASTEROID asteroids, then cleared slots. */
  function StartSlots(draw: nat -> Spawn, W: nat, H: nat): (s: seq<Entity>)
    requires W > 0 && H > 0
    ensures |s| == Capacity
  {
    seq(Capacity, q requires 0 <= q < Capacity =>
      if q == 0 then BackgroundAt(W, H)
      else if q == 1 then ShipAtStart(H)
      else if q < 2 + NumAsteroid then AsteroidFrom(draw(q - 2), W, H)
      else Zero)
  }

  lemma StartSlot(draw: nat -> Spawn, W: nat, H: nat, q: nat)
    requires W > 0 && H > 0 && q < Capacity
    ensures var s := StartSlots(draw, W, H);
      && (q == 0 ==> s[q] == BackgroundAt(W, H))
      && (q == 1 ==> s[q] == ShipAtStart(H))
      && (2 <= q < 2 + NumAsteroid ==> s[q] == AsteroidFrom(draw(q - 2), W, H))
      && (2 + NumAsteroid <= q ==> s[q] == Zero)
  {
  }

  /** After Free every slot is inactive and, when the counter was right, it is zero; nothing but the flags changes. */
  lemma FreeClears(w: World)
    requires Counted(w)
    ensures var r := FreeWorld(w);
      NoneActive(r.slots) && r.count == 0 && Counted(r) && |r.slots| == |w.slots|
      && (forall k :: 0 <= k < |w.slots| ==> r.slots[k] == w.slots[k].(active := false))
  {
    var r := FreeWorld(w);
    CountPrefix(r.slots, 0);
  }

  lemma {:induction false} AddAsteroidsPrefix(w: World, draw: nat -> Spawn, k: nat, W: nat, H: nat)
    requires W > 0 && H > 0 && k <= NumAsteroid
    requires 2 + NumAsteroid <= |w.slots| && ActivePrefix(w.slots, 2 + k)
    ensures var r := AddAsteroids(w, draw, k, W, H);
      && |r.slots| == |w.slots| && ActivePrefix(r.slots, 2 + NumAsteroid)
      && r.count == w.count + (NumAsteroid - k)
      && r.player == w.player && r.background == w.background
      && r.lives == w.lives && r.score == w.score
      && forall q :: 0 <= q < |w.slots| ==>
           r.slots[q] == if 2 + k <= q < 2 + NumAsteroid then AsteroidFrom(draw(q - 2), W, H) else w.slots[q]
    decreases NumAsteroid - k
  {
    if k < NumAsteroid {
      var e := AsteroidFrom(draw(k), W, H);
      AddToPrefix(w.slots, 2 + k, e);
      AddAsteroidsPrefix(CreateIn(w, e), draw, k + 1, W, H);
    }
  }

  /**
    Init on an empty pool lays out the level exactly: background in slot 0,
    the ship in slot 1, the asteroids in slots 2 to 34, 35 more live objects
    on the counter, three lives and score 0.
   */
  lemma InitOnEmptyPool(w: World, draw: nat -> Spawn, W: nat, H: nat)
    requires W > 0 && H > 0 && |w.slots| == Capacity
    requires forall k :: 0 <= k < Capacity ==> w.slots[k] == Zero
    ensures var r := InitWorld(w, draw, W, H);
      && r.slots == StartSlots(draw, W, H)
      && r.count == w.count + 2 + NumAsteroid && CountActive(r.slots) == 2 + NumAsteroid
      && r.background == Some(0) && r.player == Some(1)
      && r.lives == PlayerInitialLives && r.score == 0
  {
    PlaceOnEmptyPool(w, W, H);
    var w2 := PlaceShip(PlaceBackground(w, W, H), H);
    AddAsteroidsPrefix(w2, draw, 0, W, H);
    var r := InitWorld(w, draw, W, H);
    var t := StartSlots(draw, W, H);
    forall q | 0 <= q < Capacity
      ensures r.slots[q] == t[q]
    {
      StartSlot(draw, W, H, q);
    }
    assert r.slots == t;
    CountPrefix(r.slots, 2 + NumAsteroid);
  }

  /** On an empty pool the background's creation takes slot 0 and the ship's slot 1. */
  lemma PlaceOnEmptyPool(w: World, W: nat, H: nat)
    requires |w.slots| == Capacity
    requires forall k :: 0 <= k < Capacity ==> w.slots[k] == Zero
    ensures var r := PlaceShip(PlaceBackground(w, W, H), H);
      && r.slots == w.slots[0 := BackgroundAt(W, H)][1 := ShipAtStart(H)]
      && ActivePrefix(r.slots, 2)
      && r.count == w.count + 2 && r.background == Some(0) && r.player == Some(1)
      && r.lives == w.lives && r.score == w.score
  {
    assert ActivePrefix(w.slots, 0);
    AddToPrefix(w.slots, 0, BackgroundAt(W, H));
    var w1 := PlaceBackground(w, W, H);
    AddToPrefix(w1.slots, 1, ShipAtStart(H));
  }

  /** restart's steps, Free, the cleared array, the forgotten player and Init, give exactly Restart. */
  lemma RestartIsFreeThenInit(w: World, draw: nat -> Spawn, W: nat, H: nat)
    requires W > 0 && H > 0 && |w.slots| == Capacity
    ensures InitWorld(Zeroed(FreeWorld(w)), draw, W, H) == Restart(w, draw, W, H)
  {
    InitOnEmptyPool(Zeroed(FreeWorld(w)), draw, W, H);
  }

  /** A fresh level has 35 live objects, in the slots below 35. */
  lemma StartSlotsCounted(draw: nat -> Spawn, W: nat, H: nat)
    requires W > 0 && H > 0
    ensures ActivePrefix(StartSlots(draw, W, H), 2 + NumAsteroid)
    ensures CountActive(StartSlots(draw, W, H)) == 2 + NumAsteroid
  {
    var s := StartSlots(draw, W, H);
    forall q | 0 <= q < Capacity
      ensures s[q].active <==> q < 2 + NumAsteroid
    {
      StartSlot(draw, W, H, q);
    }
    CountPrefix(s, 2 + NumAsteroid);
  }

  // ---------------------------------------------------------------------------
  // The running level

  predicate Dynamic(k: Kind) { k == Bullet || k == Asteroid || k == Missile }

  /**
    The shape of a running level: the counter is right, the background is
    slot 0 and the ship slot 1, both alive, every other live object is a
    bullet, an asteroid or a missile, at least one life is left and the
    score is 0 (nothing in the level adds to it).
   */
  predicate WellFormed(w: World)
  {
    && |w.slots| == Capacity && Counted(w)
    && w.background == Some(0) && w.player == Some(1)
    && w.slots[0].active && w.slots[0].kind == Background
    && w.slots[1].active && w.slots[1].kind == Ship
    && (forall k :: 2 <= k < |w.slots| && w.slots[k].active ==> Dynamic(w.slots[k].kind))
    && 1 <= w.lives <= PlayerInitialLives
    && w.score == 0
  }

  /** A restart from a level whose counter is right leaves a running level. */
  lemma RestartWellFormed(w: World, draw: nat -> Spawn, W: nat, H: nat)
    requires W > 0 && H > 0 && Counted(w)
    ensures WellFormed(Restart(w, draw, W, H))
  {
    StartSlotsCounted(draw, W, H);
    var s := StartSlots(draw, W, H);
    StartSlot(draw, W, H, 0);
    StartSlot(draw, W, H, 1);
    forall k | 2 <= k < Capacity && s[k].active
      ensures Dynamic(s[k].kind)
    {
      StartSlot(draw, W, H, k);
    }
  }

  // ---------------------------------------------------------------------------
  // Input

  /**
    The input phase: W/S/A/D steer the player's slot, J fires a bullet on
    every eighth frame and K a missile on every tenth, each from the
    player's slot as it is at that moment.
   */
  function ApplyInput(w: World, keys: Input, dt: real, frame: int, m: Math): World
    requires w.player.Some? && w.player.value < |w.slots|
  {
    var p := w.player.value;
    var w1 := w.(slots := w.slots[p := SteerShip(w.slots[p], keys, dt, m)]);
    var w2 := if keys.fireBullet && frame % 8 == 0 then CreateIn(w1, Projectile(Bullet, w1.slots[p], m)) else w1;
    if keys.fireMissile && frame % 10 == 0 then CreateIn(w2, Projectile(Missile, w2.slots[p], m)) else w2
  }

  lemma CreateDynamicKeepsWellFormed(w: World, e: Entity)
    requires WellFormed(w) && e.active && Dynamic(e.kind)
    ensures WellFormed(CreateIn(w, e))
  {
    AddTakesLowestFree(w.slots, e);
  }

  lemma {:induction false} CountSameFlags(s: seq<Entity>, t: seq<Entity>)
    requires |s| == |t| && forall k :: 0 <= k < |s| ==> s[k].active == t[k].active
    ensures CountActive(s) == CountActive(t)
  {
    if s != [] {
      CountSameFlags(s[1..], t[1..]);
    }
  }

  /**
    The input phase keeps the level's shape, creates at most two objects,
    and the ship in slot 1 is exactly the steered ship.
   */
  lemma InputKeepsWellFormed(w: World, keys: Input, dt: real, frame: int, m: Math)
    requires WellFormed(w)
    ensures var r := ApplyInput(w, keys, dt, frame, m);
      && WellFormed(r)
      && w.count <= r.count <= w.count + 2
      && r.slots[1] == SteerShip(w.slots[1], keys, dt, m)
  {
    var p := 1;
    var e := SteerShip(w.slots[p], keys, dt, m);
    var w1 := w.(slots := w.slots[p := e]);
    CountSameFlags(w.slots, w1.slots);
    assert WellFormed(w1);
    var w2 := if keys.fireBullet && frame % 8 == 0 then CreateIn(w1, Projectile(Bullet, w1.slots[p], m)) else w1;
    if keys.fireBullet && frame % 8 == 0 {
      CreateDynamicKeepsWellFormed(w1, Projectile(Bullet, w1.slots[p], m));
    }
    assert WellFormed(w2) && w2.slots[1] == e && w.count <= w2.count <= w.count + 1;
    if keys.fireMissile && frame % 10 == 0 {
      CreateDynamicKeepsWellFormed(w2, Projectile(Missile, w2.slots[p], m));
    }
  }

  /** With an exact square root, a ship within the speed cap is still within it after the input phase. */
  lemma InputKeepsSpeedCap(w: World, keys: Input, dt: real, frame: int, m: Math)
    requires WellFormed(w) && ExactSqrt(m)
    requires SqLen(w.slots[1].vel) <= MaxShipVelocity * MaxShipVelocity
    ensures SqLen(ApplyInput(w, keys, dt, frame, m).slots[1].vel) <= MaxShipVelocity * MaxShipVelocity
  {
    InputKeepsWellFormed(w, keys, dt, frame, m);
    SteerKeepsCap(w.slots[1], keys, dt, m);
  }

  // ---------------------------------------------------------------------------
  // Missile target and motion

  predicate LiveAsteroid(e: Entity) { e.active && e.kind == Asteroid }

  /** The missile target: the live asteroid in the lowest slot, if any. */
  function FirstAsteroid(s: seq<Entity>): (t: Option<nat>)
    ensures t.Some? ==> t.value < |s| && LiveAsteroid(s[t.value])
    ensures t.Some? ==> forall k :: 0 <= k < t.value ==> !LiveAsteroid(s[k])
    ensures t.None? <==> forall k :: 0 <= k < |s| ==> !LiveAsteroid(s[k])
  {
    FirstFrom(s, (e: Entity) => LiveAsteroid(e), 0)
  }

  /**
    The target position a missile in slot k sees: the motion pass updates
    slots in order through a pointer, so a target in a lower slot has
    already moved this frame and one in a higher slot has not.
   */
  function TargetAt(s: seq<Entity>, t: Option<nat>, k: nat, dt: real, m: Math): Option<Vec>
  {
    match t
    case None => None
    case Some(j) =>
      if j >= |s| then None
      else if j < k then Some(MoveEntity(s[j], dt, None, m).pos)
      else Some(s[j].pos)
  }

  /** The motion pass over every slot. */
  function MoveSlots(s: seq<Entity>, t: Option<nat>, dt: real, m: Math): seq<Entity>
  {
    seq(|s|, k requires 0 <= k < |s| => MoveEntity(s[k], dt, TargetAt(s, t, k, dt, m), m))
  }

  /**
    Every missile's turn this frame is bounded by HOMING_MISSILE_ROT_SPEED * |dt|;
    without a target every missile keeps its orientation and velocity; the
    pass never creates, destroys or retypes an object.
   */
  lemma MotionPass(s: seq<Entity>, t: Option<nat>, dt: real, m: Math)
    ensures |MoveSlots(s, t, dt, m)| == |s|
    ensures CountActive(MoveSlots(s, t, dt, m)) == CountActive(s)
    ensures forall k :: 0 <= k < |s| ==>
      MoveSlots(s, t, dt, m)[k].active == s[k].active && MoveSlots(s, t, dt, m)[k].kind == s[k].kind
    ensures forall k :: 0 <= k < |s| && s[k].active && s[k].kind == Missile ==>
      Abs(MoveSlots(s, t, dt, m)[k].orient - s[k].orient) <= Abs(HomingRotSpeed(m) * dt)
    ensures t.None? ==> forall k :: 0 <= k < |s| && s[k].kind == Missile ==>
      MoveSlots(s, t, dt, m)[k].orient == s[k].orient && MoveSlots(s, t, dt, m)[k].vel == s[k].vel
  {
    var r := MoveSlots(s, t, dt, m);
    forall k | 0 <= k < |s|
      ensures r[k].active == s[k].active && r[k].kind == s[k].kind
      ensures s[k].active && s[k].kind == Missile ==> Abs(r[k].orient - s[k].orient) <= Abs(HomingRotSpeed(m) * dt)
    {
      MoveKeepsIdentity(s[k], dt, TargetAt(s, t, k, dt, m), m);
      if s[k].active && s[k].kind == Missile {
        match TargetAt(s, t, k, dt, m)
        case None =>
        case Some(p) => HomingTurnBounded(s[k], dt, p, m);
      }
    }
    CountSameFlags(s, r);
  }

  // ---------------------------------------------------------------------------
  // Wrap and despawn

  function WrapSlots(s: seq<Entity>, W: nat, H: nat): seq<Entity>
  {
    seq(|s|, k requires 0 <= k < |s| => WrapEntity(s[k], W, H))
  }

  /** The wrap pass; each despawned projectile goes through gameObjInstDestroy and so takes one off the counter. */
  function WrapWorld(w: World, W: nat, H: nat): World
  {
    var s := WrapSlots(w.slots, W, H);
    w.(slots := s, count := w.count - (CountActive(w.slots) - CountActive(s)))
  }

  /**
    The wrap pass keeps the counter right, keeps every ship and asteroid
    alive inside the square |x|, |y| < half the window plus one, and
    removes exactly the bullets and missiles outside it.
   */
  lemma WrapPass(w: World, W: nat, H: nat)
    requires Counted(w)
    ensures var r := WrapWorld(w, W, H);
      && Counted(r) && |r.slots| == |w.slots|
      && forall k :: 0 <= k < |w.slots| && w.slots[k].active ==>
           var e, e' := w.slots[k], r.slots[k];
           && e'.kind == e.kind
           && (e.kind == Ship || e.kind == Asteroid ==>
                 e'.active && Abs(e'.pos.x) == Abs(e.pos.x) && Abs(e'.pos.y) == Abs(e.pos.y))
           && (e.kind == Bullet || e.kind == Missile ==>
                 (!e'.active <==> Abs(e.pos.x) >= (W / 2 + 1) as real || Abs(e.pos.y) >= (H / 2 + 1) as real))
           && (e.kind == Background ==> e' == e)
  {
    var r := WrapWorld(w, W, H);
    forall k | 0 <= k < |w.slots| && w.slots[k].active
      ensures var e, e' := w.slots[k], r.slots[k];
        && e'.kind == e.kind
        && (e.kind == Ship || e.kind == Asteroid ==>
              e'.active && Abs(e'.pos.x) == Abs(e.pos.x) && Abs(e'.pos.y) == Abs(e.pos.y))
        && (e.kind == Bullet || e.kind == Missile ==>
              (!e'.active <==> Abs(e.pos.x) >= (W / 2 + 1) as real || Abs(e.pos.y) >= (H / 2 + 1) as real))
        && (e.kind == Background ==> e' == e)
    {
      WrapRule(w.slots[k], W, H);
      WrapKeepsMagnitude(w.slots[k], W, H);
    }
  }

  lemma WrapKeepsWellFormed(w: World, W: nat, H: nat)
    requires WellFormed(w)
    ensures WellFormed(WrapWorld(w, W, H))
  {
    WrapPass(w, W, H);
    var r := WrapWorld(w, W, H);
    forall k | 2 <= k < |r.slots| && r.slots[k].active
      ensures Dynamic(r.slots[k].kind)
    {
      assert r.slots[k] == WrapEntity(w.slots[k], W, H);
    }
  }

  // ---------------------------------------------------------------------------
  // Collisions

  /** What an asteroid can collide with: a live ship, bullet or missile overlapping it (by the asteroid's extents). */
  predicate Hits(a: Entity, e: Entity)
  {
    e.active && (e.kind == Ship || e.kind == Bullet || e.kind == Missile) && Overlaps(a, e)
  }

  /** The inner loop of the collision pass: the lowest slot the asteroid in slot i collides with. */
  function FirstHit(s: seq<Entity>, i: nat): (r: Option<nat>)
    requires i < |s|
    ensures r.Some? ==> r.value < |s| && Hits(s[i], s[r.value])
    ensures r.Some? ==> forall k :: 0 <= k < r.value ==> !Hits(s[i], s[k])
    ensures r.None? <==> forall k :: 0 <= k < |s| ==> !Hits(s[i], s[k])
  {
    FirstFrom(s, (e: Entity) => Hits(s[i], e), 0)
  }

  /**
    One step of the collision pass, for slot i: a live asteroid that hits
    the ship is destroyed and costs a life, and when the last life goes the
    level restarts (with the draws respawn(i)); one that hits a bullet or a
    missile is destroyed together with it; at most one of these happens.
   */
  function ResolveAt(w: World, i: nat, respawn: nat -> nat -> Spawn, W: nat, H: nat): (r: World)
    requires |w.slots| == Capacity && i < Capacity && W > 0 && H > 0
    ensures |r.slots| == |w.slots|
  {
    var a := w.slots[i];
    if !a.active || a.kind != Asteroid then w
    else match FirstHit(w.slots, i)
      case None => w
      case Some(j) =>
        if w.slots[j].kind == Ship then StrikeShip(w, i, respawn(i), W, H)
        else DestroyIn(DestroyIn(w, i), j)
  }

  /** An asteroid in slot i hits the ship: it is destroyed, a life goes, and with no life left the level restarts. */
  function StrikeShip(w: World, i: nat, draw: nat -> Spawn, W: nat, H: nat): (r: World)
    requires |w.slots| == Capacity && i < Capacity && W > 0 && H > 0
    ensures |r.slots| == Capacity
  {
    var w1 := DestroyIn(w, i).(lives := w.lives - 1);
    if w1.lives <= 0 then Restart(w1, draw, W, H) else w1
  }

  /** The collision pass from slot i on; after a restart it carries on over the new level from slot i + 1. */
  function ResolveFrom(w: World, i: nat, respawn: nat -> nat -> Spawn, W: nat, H: nat): World
    requires |w.slots| == Capacity && i <= Capacity && W > 0 && H > 0
    decreases Capacity - i
  {
    if i == Capacity then w
    else ResolveFrom(ResolveAt(w, i, respawn, W, H), i + 1, respawn, W, H)
  }

  /**
    The outcomes of one step of the collision pass on a running level:
    nothing; the asteroid destroyed, the ship kept alive and one life lost;
    the asteroid and the bullet or missile it hit both destroyed; or, on
    the last life, a restarted level.
   */
  lemma ResolveAtOutcome(w: World, i: nat, respawn: nat -> nat -> Spawn, W: nat, H: nat)
    requires WellFormed(w) && i < Capacity && W > 0 && H > 0
    ensures var r := ResolveAt(w, i, respawn, W, H);
      && WellFormed(r)
      && (!LiveAsteroid(w.slots[i]) || FirstHit(w.slots, i).None? ==> r == w)
      && (LiveAsteroid(w.slots[i]) && FirstHit(w.slots, i).Some? ==>
            var j := FirstHit(w.slots, i).value;
            if w.slots[j].kind == Ship then
              if w.lives > 1 then
                r == w.(slots := w.slots[i := w.slots[i].(active := false)], count := w.count - 1, lives := w.lives - 1)
                && j == 1 && r.slots[1] == w.slots[1]
              else r.slots == StartSlots(respawn(i), W, H)
                   && r.count == 2 + NumAsteroid && r.lives == PlayerInitialLives
            else
              i != j && 2 <= j
              && r == w.(slots := w.slots[i := w.slots[i].(active := false)][j := w.slots[j].(active := false)],
                         count := w.count - 2))
  {
    var a := w.slots[i];
    if LiveAsteroid(a) && FirstHit(w.slots, i).Some? {
      var j := FirstHit(w.slots, i).value;
      if w.slots[j].kind == Ship {
        ShipHit(w, i, j, respawn, W, H);
      } else {
        ProjectileHit(w, i, j, respawn, W, H);
      }
    }
  }

  lemma ShipHit(w: World, i: nat, j: nat, respawn: nat -> nat -> Spawn, W: nat, H: nat)
    requires WellFormed(w) && i < Capacity && W > 0 && H > 0
    requires LiveAsteroid(w.slots[i]) && FirstHit(w.slots, i) == Some(j) && w.slots[j].kind == Ship
    ensures j == 1
    ensures var r := ResolveAt(w, i, respawn, W, H);
      && WellFormed(r)
      && (w.lives > 1 ==>
            r == w.(slots := w.slots[i := w.slots[i].(active := false)], count := w.count - 1, lives := w.lives - 1)
            && r.slots[1] == w.slots[1])
      && (w.lives <= 1 ==>
            r.slots == StartSlots(respawn(i), W, H)
            && r.count == 2 + NumAsteroid && r.lives == PlayerInitialLives)
  {
    if w.lives > 1 {
      ShipHitSpareLife(w, i, j, respawn, W, H);
    } else {
      ShipHitLastLife(w, i, j, respawn, W, H);
    }
  }

  lemma ShipHitSpareLife(w: World, i: nat, j: nat, respawn: nat -> nat -> Spawn, W: nat, H: nat)
    requires WellFormed(w) && i < Capacity && W > 0 && H > 0 && w.lives > 1
    requires LiveAsteroid(w.slots[i]) && FirstHit(w.slots, i) == Some(j) && w.slots[j].kind == Ship
    ensures j == 1
    ensures var r := ResolveAt(w, i, respawn, W, H);
      && WellFormed(r)
      && r == w.(slots := w.slots[i := w.slots[i].(active := false)], count := w.count - 1, lives := w.lives - 1)
  {
    assert 2 <= i;
    DestroyInRule(w, i);
    var w1 := DestroyIn(w, i).(lives := w.lives - 1);
    assert ResolveAt(w, i, respawn, W, H) == w1;
    assert WellFormed(w1);
  }

  lemma ShipHitLastLife(w: World, i: nat, j: nat, respawn: nat -> nat -> Spawn, W: nat, H: nat)
    requires WellFormed(w) && i < Capacity && W > 0 && H > 0 && w.lives <= 1
    requires LiveAsteroid(w.slots[i]) && FirstHit(w.slots, i) == Some(j) && w.slots[j].kind == Ship
    ensures j == 1
    ensures var r := ResolveAt(w, i, respawn, W, H);
      && WellFormed(r) && r.slots == StartSlots(respawn(i), W, H)
      && r.count == 2 + NumAsteroid && r.lives == PlayerInitialLives
  {
    DestroyInRule(w, i);
    var w1 := DestroyIn(w, i).(lives := w.lives - 1);
    assert ResolveAt(w, i, respawn, W, H) == Restart(w1, respawn(i), W, H);
    RestartWellFormed(w1, respawn(i), W, H);
    StartSlotsCounted(respawn(i), W, H);
  }

  lemma ProjectileHit(w: World, i: nat, j: nat, respawn: nat -> nat -> Spawn, W: nat, H: nat)
    requires WellFormed(w) && i < Capacity && W > 0 && H > 0
    requires LiveAsteroid(w.slots[i]) && FirstHit(w.slots, i) == Some(j) && w.slots[j].kind != Ship
    ensures i != j && 2 <= j
    ensures var r := ResolveAt(w, i, respawn, W, H);
      && WellFormed(r)
      && r == w.(slots := w.slots[i := w.slots[i].(active := false)][j := w.slots[j].(active := false)],
                 count := w.count - 2)
  {
    assert 2 <= i;
    DestroyInRule(w, i);
    var w1 := DestroyIn(w, i);
    assert j != i && 2 <= j;
    assert w1.slots[j] == w.slots[j];
    DestroyInRule(w1, j);
    var r := DestroyIn(w1, j);
    assert ResolveAt(w, i, respawn, W, H) == r;
    assert WellFormed(r);
  }

  lemma {:induction false} ResolveFromKeepsWellFormed(w: World, i: nat, respawn: nat -> nat -> Spawn, W: nat, H: nat)
    requires WellFormed(w) && i <= Capacity && W > 0 && H > 0
    ensures WellFormed(ResolveFrom(w, i, respawn, W, H))
    decreases Capacity - i
  {
    if i < Capacity {
      ResolveAtOutcome(w, i, respawn, W, H);
      ResolveFromKeepsWellFormed(ResolveAt(w, i, respawn, W, H), i + 1, respawn, W, H);
    }
  }

  /**
    Losing the last life does not end the pass: the level is restarted and
    the pass goes on from the next slot over the fresh level.
   */
  lemma RestartThenContinue(w: World, i: nat, respawn: nat -> nat -> Spawn, W: nat, H: nat)
    requires WellFormed(w) && i < Capacity && W > 0 && H > 0 && w.lives == 1
    requires LiveAsteroid(w.slots[i]) && FirstHit(w.slots, i).Some?
    requires w.slots[FirstHit(w.slots, i).value].kind == Ship
    ensures var level := ResolveAt(w, i, respawn, W, H);
      && level.slots == StartSlots(respawn(i), W, H) && level.lives == PlayerInitialLives
      && level.count == 2 + NumAsteroid
      && ResolveFrom(w, i, respawn, W, H) == ResolveFrom(level, i + 1, respawn, W, H)
  {
    ResolveAtOutcome(w, i, respawn, W, H);
  }

  // ---------------------------------------------------------------------------
  // One frame

  /** The simulation part of GameStateLevel1Update: input, target search, motion, wrap, collisions. */
  function Frame(w: World, keys: Input, dt: real, frame: int, W: nat, H: nat, m: Math,
                 respawn: nat -> nat -> Spawn): World
    requires w.player.Some? && w.player.value < |w.slots| && |w.slots| == Capacity && W > 0 && H > 0
  {
    var w1 := ApplyInput(w, keys, dt, frame, m);
    var w2 := w1.(slots := MoveSlots(w1.slots, FirstAsteroid(w1.slots), dt, m));
    ResolveFrom(WrapWorld(w2, W, H), 0, respawn, W, H)
  }

  /**
    A frame keeps the level running in shape: the counter equals the
    number of live objects, the background and the ship stay in slots 0
    and 1 and alive, lives stay between 1 and 3 and the score stays 0.
   */
  lemma FrameKeepsWellFormed(w: World, keys: Input, dt: real, frame: int, W: nat, H: nat, m: Math,
                             respawn: nat -> nat -> Spawn)
    requires WellFormed(w) && W > 0 && H > 0
    ensures WellFormed(Frame(w, keys, dt, frame, W, H, m, respawn))
  {
    InputKeepsWellFormed(w, keys, dt, frame, m);
    var w1 := ApplyInput(w, keys, dt, frame, m);
    var w2 := w1.(slots := MoveSlots(w1.slots, FirstAsteroid(w1.slots), dt, m));
    MotionPass(w1.slots, FirstAsteroid(w1.slots), dt, m);
    assert WellFormed(w2);
    WrapKeepsWellFormed(w2, W, H);
    ResolveFromKeepsWellFormed(WrapWorld(w2, W, H), 0, respawn, W, H);
  }
}
