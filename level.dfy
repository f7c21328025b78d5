/**
  The level's mutable state and its operations, written the way the game
  runs them: the instance array is updated in place slot by slot, and the
  counters and pointers are fields. Each method is proved to leave the
  state the corresponding function of Rules describes.
 */
module GameStateLevel1 {
  import opened Wrappers
  import opened Geometry
  import opened Entities
  import opened Pool
  import opened Collision
  import opened Motion
  import opened Rules

  class Level {
    /** sGameObjInstArray */
    const slots: array<Entity>
    /** sNumGameObj */
    var count: int
    /** The slot sPlayer points to, None for NULL. */
    var player: Option<nat>
    /** The slot sBackground points to, None for NULL. */
    var background: Option<nat>
    /** sPlayerLives */
    var lives: int
    /** sScore */
    var score: int

    /** The level's variables as a value. */
    function State(): World
      reads this, slots
    {
      World(slots[..], count, player, background, lives, score)
    }

    /** The file-scope variables before anything runs: a zeroed array, NULL pointers, zero counters. */
    constructor()
      ensures fresh(slots) && slots.Length == Capacity
      ensures forall k :: 0 <= k < slots.Length ==> slots[k] == Zero
      ensures count == 0 && player == None && background == None && lives == 0 && score == 0
    {
      slots := new Entity[Capacity];
      count, player, background, lives, score := 0, None, None, 0, 0;
      new;
      forall k | 0 <= k < slots.Length {
        slots[k] := Zero;
      }
    }

    /** gameObjInstCreate: scan for the first inactive slot and fill it. */
    method Create(kind: Kind, pos: Vec, vel: Vec, scale: Vec, orient: real) returns (r: Option<nat>)
      modifies this, slots
      ensures r == FirstFree(old(slots[..]))
      ensures State() == CreateIn(old(State()), Spawned(kind, pos, vel, scale, orient))
    {
      var i := 0;
      while i < slots.Length
        invariant 0 <= i <= slots.Length
        invariant forall k :: 0 <= k < i ==> slots[k].active
        invariant slots[..] == old(slots[..])
      {
        if !slots[i].active {
          slots[i] := Spawned(kind, pos, vel, scale, orient);
          count := count + 1;
          return Some(i);
        }
        i := i + 1;
      }
      return None;
    }

    /** gameObjInstDestroy: lazy deletion of slot i. */
    method Destroy(i: nat)
      requires i < slots.Length
      modifies this, slots
      ensures State() == DestroyIn(old(State()), i)
    {
      if !slots[i].active {
        return;
      }
      count := count - 1;
      slots[i] := slots[i].(active := false);
    }

    /** GameStateLevel1Free: destroy every slot (the camera reset is not modelled). */
    method Free()
      modifies this, slots
      ensures State() == FreeWorld(old(State()))
    {
      for i := 0 to slots.Length
        invariant forall k :: 0 <= k < i ==> slots[k] == old(slots[k]).(active := false)
        invariant forall k :: i <= k < slots.Length ==> slots[k] == old(slots[k])
        invariant count - CountActive(slots[..]) == old(count) - CountActive(old(slots[..]))
        invariant player == old(player) && background == old(background)
        invariant lives == old(lives) && score == old(score)
      {
        ghost var before := slots[..];
        Destroy(i);
        CountUpdate(before, i, before[i].(active := false));
        assert slots[..] == before[i := before[i].(active := false)];
      }
      assert slots[..] == FreeWorld(old(State())).slots;
      CountPrefix(slots[..], 0);
    }

    /** GameStateLevel1Init: background, ship and NUM_ASTEROID asteroids placed by the draws draw(0), draw(1), ... */
    method Init(draw: nat -> Spawn, W: nat, H: nat)
      requires W > 0 && H > 0
      modifies this, slots
      ensures State() == InitWorld(old(State()), draw, W, H)
    {
      CreateBackgroundAndShip(W, H);
      CreateAsteroids(draw, W, H);
      ResetScoreAndLives();
    }

    /** The last lines of GameStateLevel1Init: score 0 and PLAYER_INITIAL_NUM lives. */
    method ResetScoreAndLives()
      modifies this
      ensures State() == old(State()).(score := 0, lives := PlayerInitialLives)
    {
      score := 0;
      lives := PlayerInitialLives;
    }

    /** The first two creations of GameStateLevel1Init; sBackground and sPlayer keep what they return. */
    method CreateBackgroundAndShip(W: nat, H: nat)
      modifies this, slots
      ensures State() == PlaceShip(PlaceBackground(old(State()), W, H), H)
    {
      ghost var w0 := State();
      background := Create(Background, Vec(0.0, 0.0), Vec(0.0, 0.0), Vec(W as real, H as real), 0.0);
      assert State() == PlaceBackground(w0, W, H);
      ghost var w1 := State();
      player := Create(Ship, Vec(0.0, -((H / 4) as real)), Vec(0.0, 0.0), Vec(ShipSize, ShipSize), 0.0);
    }

    /** The asteroid loop of GameStateLevel1Init. */
    method CreateAsteroids(draw: nat -> Spawn, W: nat, H: nat)
      requires W > 0 && H > 0
      modifies this, slots
      ensures State() == AddAsteroids(old(State()), draw, 0, W, H)
    {
      for k := 0 to NumAsteroid
        invariant AddAsteroids(State(), draw, k, W, H) == AddAsteroids(old(State()), draw, 0, W, H)
      {
        var a := AsteroidFrom(draw(k), W, H);
        ghost var pre := State();
        var _ := Create(Asteroid, a.pos, a.vel, a.scale, a.orient);
        AddAsteroidsStep(pre, draw, k, W, H);
      }
    }

    /** restart: Free, clear the whole array, drop the player pointer, Init again. */
    method Restart(draw: nat -> Spawn, W: nat, H: nat)
      requires slots.Length == Capacity && W > 0 && H > 0
      modifies this, slots
      ensures State() == Rules.Restart(old(State()), draw, W, H)
    {
      Free();
      ClearArray();
      Init(draw, W, H);
      RestartIsFreeThenInit(old(State()), draw, W, H);
    }

    /** The memset of restart and sPlayer = NULL. */
    method ClearArray()
      modifies this, slots
      ensures State() == Zeroed(old(State()))
    {
      forall k | 0 <= k < slots.Length {
        slots[k] := Zero;
      }
      player := None;
    }

    /** The key handling of GameStateLevel1Update: W/S/A/D steer the ship, J/K fire from it. */
    method HandleInput(keys: Input, dt: real, frame: int, m: Math)
      requires player.Some? && player.value < slots.Length
      modifies this, slots
      ensures State() == ApplyInput(old(State()), keys, dt, frame, m)
    {
      var p := player.value;
      SteerPlayer(keys, dt, m);
      ghost var w1 := State();
      if keys.fireBullet && frame % 8 == 0 {
        var _ := Create(Bullet, slots[p].pos, Scale(Heading(m, slots[p].orient), BulletSpeed),
                        Vec(ProjectileSize, ProjectileSize), slots[p].orient);
        assert State() == CreateIn(w1, Projectile(Bullet, w1.slots[p], m));
      }
      ghost var w2 := State();
      if keys.fireMissile && frame % 10 == 0 {
        var _ := Create(Missile, slots[p].pos, Scale(Heading(m, slots[p].orient), BulletSpeed),
                        Vec(ProjectileSize, ProjectileSize), slots[p].orient);
        assert State() == CreateIn(w2, Projectile(Missile, w2.slots[p], m));
      }
    }

    /** W/S: thrust along the heading, each followed by the speed cap; A/D: turn. */
    method SteerPlayer(keys: Input, dt: real, m: Math)
      requires player.Some? && player.value < slots.Length
      modifies slots
      ensures slots[..] == old(slots[..])[player.value := SteerShip(old(slots[player.value]), keys, dt, m)]
    {
      var p := player.value;
      var ship := slots[p];
      var thrust := Scale(Heading(m, ship.orient), ShipAccFwd * dt);
      if keys.forward {
        ship := ship.(vel := CapSpeed(m, Plus(ship.vel, thrust)));
      }
      if keys.backward {
        ship := ship.(vel := CapSpeed(m, Minus(ship.vel, thrust)));
      }
      if keys.turnLeft {
        ship := ship.(orient := ship.orient + dt * ShipRotSpeed(m));
      }
      if keys.turnRight {
        ship := ship.(orient := ship.orient - dt * ShipRotSpeed(m));
      }
      assert ship == SteerShip(old(slots[p]), keys, dt, m);
      slots[p] := ship;
    }

    /** The missile-target search: the first live asteroid in slot order. */
    method FindMissileTarget() returns (t: Option<nat>)
      ensures t.Some? ==> t.value < slots.Length && LiveAsteroid(slots[t.value])
      ensures t.Some? ==> forall k :: 0 <= k < t.value ==> !LiveAsteroid(slots[k])
      ensures t.None? ==> forall k :: 0 <= k < slots.Length ==> !LiveAsteroid(slots[k])
      ensures t == FirstAsteroid(slots[..])
    {
      t := None;
      var i := 0;
      while i < slots.Length
        invariant 0 <= i <= slots.Length
        invariant forall k :: 0 <= k < i ==> !LiveAsteroid(slots[k])
      {
        if slots[i].active && slots[i].kind == Asteroid {
          t := Some(i);
          break;
        }
        i := i + 1;
      }
    }

    /** The motion pass: every live object moves in slot order; missiles home on slot t's current position. */
    method MoveAll(t: Option<nat>, dt: real, m: Math)
      requires t.Some? ==> t.value < slots.Length && slots[t.value].kind == Asteroid
      modifies slots
      ensures slots[..] == MoveSlots(old(slots[..]), t, dt, m)
    {
      ghost var s := slots[..];
      for i := 0 to slots.Length
        invariant forall k :: 0 <= k < i ==> slots[k] == MoveSlots(s, t, dt, m)[k]
        invariant forall k :: i <= k < slots.Length ==> slots[k] == s[k]
      {
        var target := if t.Some? then Some(slots[t.value].pos) else None;
        if t.Some? && t.value < i {
          var j := t.value;
          assert MoveEntity(s[j], dt, TargetAt(s, t, j, dt, m), m).pos == MoveEntity(s[j], dt, None, m).pos;
        }
        assert target == TargetAt(s, t, i, dt, m);
        slots[i] := MoveOne(slots[i], target, dt, m);
      }
    }

    /** The body of the motion loop for one object, given the target's position as it is at that moment. */
    static method MoveOne(e: Entity, target: Option<Vec>, dt: real, m: Math) returns (r: Entity)
      ensures r == MoveEntity(e, dt, target, m)
    {
      r := e;
      if !r.active {
        return;
      }
      if r.kind == Ship {
        r := r.(vel := Scale(r.vel, 1.0 - ShipFriction));
        r := r.(pos := Plus(r.pos, Scale(r.vel, dt)));
      } else if r.kind == Bullet || r.kind == Asteroid {
        r := r.(pos := Plus(r.pos, Scale(r.vel, dt)));
      } else if r.kind == Missile {
        if target.Some? {
          r := Home(r, target.value, dt, m);
        }
        r := r.(pos := Plus(r.pos, Scale(r.vel, dt)));
      }
    }

    /** The homing step of the motion loop: turn toward the target by at most max_rotate, then take the bullet speed along the new heading. */
    static method Home(e: Entity, t: Vec, dt: real, m: Math) returns (r: Entity)
      ensures r == Homed(e, t, dt, m)
    {
      var angle := AimAngle(m, e.pos, t);
      var maxRotate := HomingRotSpeed(m) * dt;
      var o := TurnToward(e.orient, angle, maxRotate);
      assert o == Homed(e, t, dt, m).orient;
      r := e.(orient := o, vel := Scale(Heading(m, o), BulletSpeed));
    }

    /** The missile's turn: by max_rotate toward the angle when it is further than that, onto it otherwise. */
    static method TurnToward(orient: real, angle: real, maxRotate: real) returns (o: real)
      ensures o == Turn(orient, angle, maxRotate)
    {
      o := orient;
      if Abs(angle - o) > maxRotate {
        if angle > o {
          o := o + maxRotate;
        } else {
          o := o - maxRotate;
        }
      } else {
        o := angle;
      }
    }

    /** The wrap pass: ships and asteroids wrap, bullets and missiles leaving the window are destroyed. */
    method WrapAll(W: nat, H: nat)
      modifies this, slots
      ensures State() == WrapWorld(old(State()), W, H)
    {
      for i := 0 to slots.Length
        invariant forall k :: 0 <= k < i ==> slots[k] == WrapEntity(old(slots[k]), W, H)
        invariant forall k :: i <= k < slots.Length ==> slots[k] == old(slots[k])
        invariant count - CountActive(slots[..]) == old(count) - CountActive(old(slots[..]))
        invariant player == old(player) && background == old(background)
        invariant lives == old(lives) && score == old(score)
      {
        ghost var before := slots[..];
        WrapSlot(i, W, H);
        CountUpdate(before, i, slots[i]);
      }
      assert slots[..] == WrapSlots(old(slots[..]), W, H);
    }

    /** The body of the wrap loop for slot i. */
    method WrapSlot(i: nat, W: nat, H: nat)
      requires i < slots.Length
      modifies this, slots
      ensures slots[..] == old(slots[..])[i := WrapEntity(old(slots[i]), W, H)]
      ensures count == old(count) - Bit(old(slots[i])) + Bit(slots[i])
      ensures player == old(player) && background == old(background)
      ensures lives == old(lives) && score == old(score)
    {
      if !slots[i].active {
        return;
      }
      var dx := Distance(slots[i].pos.x);
      var dy := Distance(slots[i].pos.y);
      if slots[i].kind == Ship || slots[i].kind == Asteroid {
        if dx > W / 2 {
          slots[i] := slots[i].(pos := Vec(-slots[i].pos.x, slots[i].pos.y));
        }
        if dy > H / 2 {
          slots[i] := slots[i].(pos := Vec(slots[i].pos.x, -slots[i].pos.y));
        }
      } else if slots[i].kind == Bullet || slots[i].kind == Missile {
        if dx > W / 2 || dy > H / 2 {
          Destroy(i);
        }
      }
    }

    /** The inner loop of the collision pass for the asteroid in slot i: the first ship, bullet or missile it collides with. */
    method FindHit(i: nat) returns (hit: Option<nat>)
      requires i < slots.Length
      ensures hit.Some? ==> hit.value < slots.Length && Hits(slots[i], slots[hit.value])
      ensures hit.Some? ==> forall k :: 0 <= k < hit.value ==> !Hits(slots[i], slots[k])
      ensures hit.None? ==> forall k :: 0 <= k < slots.Length ==> !Hits(slots[i], slots[k])
      ensures hit == FirstHit(slots[..], i)
    {
      hit := None;
      var j := 0;
      while j < slots.Length
        invariant 0 <= j <= slots.Length
        invariant forall k :: 0 <= k < j ==> !Hits(slots[i], slots[k])
      {
        var e := slots[j];
        if e.active && e.kind != Asteroid && (e.kind == Ship || e.kind == Bullet || e.kind == Missile) {
          var collide := CheckCollision(slots[i], e);
          if collide {
            hit := Some(j);
            break;
          }
        }
        j := j + 1;
      }
    }

    /**
      The collision pass: each live asteroid, in slot order, against the
      first ship, bullet or missile it collides with; the last life lost
      restarts the level with the draws respawn(i) and the pass goes on.
     */
    method ResolveCollisions(respawn: nat -> nat -> Spawn, W: nat, H: nat)
      requires slots.Length == Capacity && W > 0 && H > 0
      modifies this, slots
      ensures State() == ResolveFrom(old(State()), 0, respawn, W, H)
    {
      for i := 0 to slots.Length
        invariant ResolveFrom(State(), i, respawn, W, H) == ResolveFrom(old(State()), 0, respawn, W, H)
      {
        ResolveSlot(i, respawn, W, H);
      }
    }

    /** The body of the collision loop for slot i. */
    method ResolveSlot(i: nat, respawn: nat -> nat -> Spawn, W: nat, H: nat)
      requires slots.Length == Capacity && i < Capacity && W > 0 && H > 0
      modifies this, slots
      ensures State() == ResolveAt(old(State()), i, respawn, W, H)
    {
      if !slots[i].active || slots[i].kind != Asteroid {
        return;
      }
      var hit := FindHit(i);
      if hit.None? {
        return;
      }
      var j := hit.value;
      if slots[j].kind == Ship {
        StrikeShip(i, respawn(i), W, H);
      } else {
        Destroy(i);
        Destroy(j);
      }
    }

    /** The ship branch of the collision loop: destroy the asteroid, take a life, restart when none is left. */
    method StrikeShip(i: nat, draw: nat -> Spawn, W: nat, H: nat)
      requires slots.Length == Capacity && i < Capacity && W > 0 && H > 0
      modifies this, slots
      ensures State() == Rules.StrikeShip(old(State()), i, draw, W, H)
    {
      Destroy(i);
      LoseLife();
      if lives <= 0 {
        Restart(draw, W, H);
      }
    }

    /** --sPlayerLives */
    method LoseLife()
      modifies this
      ensures State() == old(State()).(lives := old(lives) - 1)
    {
      lives := lives - 1;
    }

    /**
      The simulation part of GameStateLevel1Update; a level in shape stays
      in shape.
     */
    method Update(keys: Input, dt: real, frame: int, W: nat, H: nat, m: Math, respawn: nat -> nat -> Spawn)
      requires slots.Length == Capacity && player.Some? && player.value < Capacity && W > 0 && H > 0
      modifies this, slots
      ensures State() == Frame(old(State()), keys, dt, frame, W, H, m, respawn)
      ensures WellFormed(old(State())) ==> WellFormed(State())
    {
      HandleInput(keys, dt, frame, m);
      var target := FindMissileTarget();
      MoveAll(target, dt, m);
      WrapAll(W, H);
      ResolveCollisions(respawn, W, H);
      if WellFormed(old(State())) {
        FrameKeepsWellFormed(old(State()), keys, dt, frame, W, H, m, respawn);
      }
    }
  }
}
