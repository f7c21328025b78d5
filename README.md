# Asteroid game, level 1: a verified model of the level simulation

This project models the simulation core of level 1 of the Asteroid game
(`Project1/GameStateLevel1.cpp`). The level keeps a fixed pool of 1024 game
object slots. Each slot has a type, an active flag, a position, a velocity, a
scale and an orientation. The level also keeps a counter of live objects,
pointers to the player's ship and to the background, the number of lives
left and the score.

The model follows the program's structure:

- `geometry.dfy`: `Wrappers.Option` and `Geometry`.
  - 2-D vectors over the reals.
  - A `Math` record that carries `pi`, `cos`, `sin`, `atan2` and `sqrt` as
    parameters.
- `entities.dfy`: `Entities`, the `GameObj` record as a datatype, the type
  enum and the level's constants.
- `pool.dfy`: `Pool`, the instance array as a sequence of slots.
  - Lowest-free-slot creation and lazy deletion.
  - The live-object count.
- `collision.dfy`: `Collision`, `checkCollision` as the game writes it.
  - A separating-axis test with loops over an array of axes.
  - A proof that it is an axis-aligned overlap test with the first object's
    extents.
- `motion.dfy`: `Motion`, the per-object rules of one frame.
  - Ship controls, friction and integration.
  - The homing missile's bounded turn.
  - Screen wrap and despawn.
- `rules.dfy`: `Rules`, the whole level as a value (`World`) and a function
  for every step:
  - create and destroy;
  - Free, Init and restart;
  - the input phase, the missile-target search, the motion pass, the wrap
    pass and the collision pass;
  - one frame.
  The lemmas about the level's invariants live here.
- `level.dfy`: `GameStateLevel1.Level`, the level as a class.
  - The instance array is an `array<Entity>`, updated in place slot by slot.
  - The counters and pointers are fields.
  - Every method (create, destroy, Free, Init, restart and each loop of the
    update) is proved to leave exactly the state that the `Rules` function
    gives for the old state.

The random numbers, the window size, the key states and the frame time are
parameters:

- Each asteroid's placement comes from a `Spawn` of four raw `rand()` draws.
- Init takes a sequence of draws, `draw(k)` for asteroid `k`.
- A restart triggered in the collision pass by the asteroid in slot `i` uses
  `respawn(i)`.

Where the design text and the code differ, the model follows the code:

- The S key subtracts the forward thrust `SHIP_ACC_FWD` (150). The unused
  `SHIP_ACC_BWD` (-180) plays no part.
- `checkCollision` builds both corner sets from obj1's half-extents, so only
  obj1's size matters. The test is not symmetric (`Collision.NotSymmetric`).
- After a restart inside the collision pass, the outer loop carries on over
  the fresh level from the next slot (`Rules.RestartThenContinue`).
- The missile turns toward the numerically larger angle. It ignores angle
  wrap-around (`Motion.TurnIgnoresWrapAround`).
- restart clears the array but not the live-object counter. The counter keeps
  whatever error it had before. On a level whose counter was right, it is
  right again afterwards.
- Nothing in the level adds to the score, so it stays 0.

## Model

| member | source | states |
|---|---|---|
| Pool.FirstFree | Project1/GameStateLevel1.cpp:86-107 | The slot creation takes is inactive, every slot below it is active, and there is none exactly when every slot is active. |
| Pool.AddTakesLowestFree | Project1/GameStateLevel1.cpp:86-107 | Creation writes the new object into the lowest free slot and changes no other slot. The live count grows by one. A full pool is left unchanged. |
| Pool.FullPoolRefuses | Project1/GameStateLevel1.cpp:104-107 | When the live count equals the capacity, no slot is free and creation changes nothing (it returns NULL). |
| Rules.CreateInRule | Project1/GameStateLevel1.cpp:83-108 | On a level whose counter is right, creation takes the lowest free slot and binds the mesh and texture of the object's type. The counter goes up by one and stays equal to the number of live slots. Nothing else changes. A full pool leaves the whole level unchanged. |
| GameStateLevel1.Level.Create | Project1/GameStateLevel1.cpp:83-108 | The scan returns the lowest free slot (None for NULL). The array and the counter become exactly the creation rule applied to the old state. |
| Pool.KillClearsFlag | Project1/GameStateLevel1.cpp:110-118 | Destruction clears only the flag of that slot. It is idempotent, changes nothing on an inactive slot, and lowers the live count by one exactly when the slot was active. |
| Rules.DestroyInRule | Project1/GameStateLevel1.cpp:110-118 | Destruction keeps the counter equal to the number of live slots. Destroying twice is the same as destroying once. The counter drops by one only for an active slot. |
| GameStateLevel1.Level.Destroy | Project1/GameStateLevel1.cpp:110-118 | The in-place destruction leaves exactly the state of the destruction rule. |
| Collision.CheckCollision | Project1/GameStateLevel1.cpp:120-173 | The loops over the corners and the four axes return the separating-axis verdict (no axis separates the projections). That verdict equals the closed form: the centres are within obj1's extents on each axis. |
| Collision.SatIsOverlap | Project1/GameStateLevel1.cpp:122-170 | For every pair of objects, the separating-axis test with obj1's edge normals holds exactly when abs(dx) <= abs(obj1.scale.x) and abs(dy) <= abs(obj1.scale.y). An axis with a zero normal is never tested. |
| Collision.NormalisationIrrelevant | Project1/GameStateLevel1.cpp:138-145 | Rescaling an axis-parallel normal by any non-zero factor, which is what normalisation does, never changes whether it separates the two boxes. |
| Collision.OverlapsPositiveScale | Project1/GameStateLevel1.cpp:120-173 | For an obj1 of positive size, the test is abs(dx) <= obj1.scale.x && abs(dy) <= obj1.scale.y. |
| Collision.SymmetricForEqualScales | Project1/GameStateLevel1.cpp:122-135 | When both objects have the same extents, swapping them does not change the verdict. |
| Collision.NotSymmetric | Project1/GameStateLevel1.cpp:122-135 | An asteroid and a bullet 40 apart collide by the asteroid's extents but not by the bullet's, so the argument order matters. |
| GameStateLevel1.Level.constructor | Project1/GameStateLevel1.cpp:60-71 | The file-scope variables start zeroed: every slot inactive with no mesh, NULL pointers, zero counters. |
| Rules.FreeClears | Project1/GameStateLevel1.cpp:636-642 | After Free every slot is inactive. Nothing but the flags changes. On a level whose counter was right, the counter is 0. |
| GameStateLevel1.Level.Free | Project1/GameStateLevel1.cpp:636-642 | Destroying every slot in turn leaves exactly the Free rule's state. The loop keeps the counter's offset from the live count unchanged. |
| Rules.PlaceOnEmptyPool | Project1/GameStateLevel1.cpp:271-281 | On a cleared pool the background is created in slot 0 and the ship in slot 1. sBackground and sPlayer point at those slots. The counter goes up by two. |
| Rules.AddAsteroidsPrefix | Project1/GameStateLevel1.cpp:286-296 | When the slots below 2 + k are the only live ones, the rest of the asteroid loop puts asteroid q in slot q + 2. The counter goes up by the number of asteroids added. Everything else is untouched. |
| Rules.AsteroidSpawnRange | Project1/GameStateLevel1.cpp:286-296 | Every spawned asteroid is live and lies within the window's width and the upper half of its height. Each velocity component is in [-100, 99]. |
| Rules.InitOnEmptyPool | Project1/GameStateLevel1.cpp:267-305 | Init on a cleared pool lays out the level exactly: background in slot 0, ship at (0, -H/4) in slot 1, the 33 asteroids in slots 2 to 34, and everything else cleared. 35 live objects, 3 lives, score 0. |
| Rules.StartSlotsCounted | Project1/GameStateLevel1.cpp:267-305 | A freshly started level has exactly 35 live objects, in the slots below 35. |
| GameStateLevel1.Level.CreateBackgroundAndShip | Project1/GameStateLevel1.cpp:271-281 | The two creations, with the pointers keeping what they return, leave exactly the background-then-ship placement. |
| GameStateLevel1.Level.CreateAsteroids | Project1/GameStateLevel1.cpp:286-296 | The loop of 33 creations leaves exactly the state of the asteroid placement over the draws. |
| GameStateLevel1.Level.ResetScoreAndLives | Project1/GameStateLevel1.cpp:300-302 | Score becomes 0 and lives become PLAYER_INITIAL_NUM. Nothing else changes. |
| GameStateLevel1.Level.Init | Project1/GameStateLevel1.cpp:267-305 | Init leaves exactly the Init rule's state: background, ship, asteroids, score and lives. |
| Rules.RestartIsFreeThenInit | Project1/GameStateLevel1.cpp:175-185 | restart's steps (Free, the cleared array, the NULL player, Init) give the fresh level. Its slots are the start layout and its pointers are slots 0 and 1. Lives are 3 and score is 0. The counter is the old counter's offset plus 35. |
| Rules.RestartWellFormed | Project1/GameStateLevel1.cpp:175-185 | A restart from a level whose counter is right gives a running level (see WellFormed below). |
| GameStateLevel1.Level.ClearArray | Project1/GameStateLevel1.cpp:179-182 | Every slot becomes the zeroed record and the player pointer becomes NULL. Nothing else changes. |
| GameStateLevel1.Level.Restart | Project1/GameStateLevel1.cpp:175-185 | Free, clear and Init in place leave exactly the restarted level. |
| Motion.CapSpeedBounded | Project1/GameStateLevel1.cpp:325-328 | With an exact square root, the cap bounds the speed by MAX_SHIP_VELOCITY. It keeps a velocity within the cap unchanged. It rescales a faster one to exactly that speed, in the same direction. |
| Motion.SteerKeepsCap | Project1/GameStateLevel1.cpp:316-353 | Whatever keys are pressed, W/S/A/D keep a ship within the speed cap. |
| Motion.FrictionSlows | Project1/GameStateLevel1.cpp:414-421 | Friction never increases the ship's speed. |
| Motion.ShipSpeedStaysCapped | Project1/GameStateLevel1.cpp:316-421 | A ship within the speed cap stays within it through the controls and the motion of one frame. |
| GameStateLevel1.Level.SteerPlayer | Project1/GameStateLevel1.cpp:316-353 | Only the player's slot changes, and it becomes the steered ship. |
| Rules.InputKeepsWellFormed | Project1/GameStateLevel1.cpp:316-376 | The input phase keeps the level running. It creates at most two objects (a bullet and a missile). The ship in slot 1 is exactly the steered ship. |
| Rules.InputKeepsSpeedCap | Project1/GameStateLevel1.cpp:316-376 | With an exact square root, a player's ship within the speed cap stays within it through the input phase. |
| GameStateLevel1.Level.HandleInput | Project1/GameStateLevel1.cpp:316-376 | Steering and then firing on frames divisible by 8 (J) and 10 (K) leave exactly the input rule's state. |
| Rules.FirstAsteroid | Project1/GameStateLevel1.cpp:387-400 | The missile target is a live asteroid, and no slot below it holds one. There is no target exactly when no live asteroid exists. |
| GameStateLevel1.Level.FindMissileTarget | Project1/GameStateLevel1.cpp:387-400 | The search loop returns the first live asteroid in slot order, or None when there is none. |
| Motion.Turn | Project1/GameStateLevel1.cpp:436-448 | One homing step turns by at most max_rotate. It lands on the aim angle exactly when that is within max_rotate. Otherwise it turns by exactly max_rotate, and never past the angle. |
| GameStateLevel1.Level.TurnToward | Project1/GameStateLevel1.cpp:436-448 | The if/else on the orientation computes that turn. |
| Motion.TurnIgnoresWrapAround | Project1/GameStateLevel1.cpp:437-444 | At orientation 3 aiming at -3, the missile turns away to 2.9, the long way round. |
| Motion.HomingTurnBounded | Project1/GameStateLevel1.cpp:429-457 | With a target, a missile's orientation changes by at most HOMING_MISSILE_ROT_SPEED * abs(dt). It then flies at BULLET_SPEED along its new heading. |
| Motion.NoTargetFliesStraight | Project1/GameStateLevel1.cpp:427-458 | Without a target, a missile keeps its orientation and velocity and moves by velocity * dt. |
| Motion.MoveKeepsIdentity | Project1/GameStateLevel1.cpp:407-459 | Motion never activates, deactivates or retypes an object, and never changes its scale or asset. |
| GameStateLevel1.Level.Home | Project1/GameStateLevel1.cpp:429-454 | The homing step in place equals the specified bounded turn and re-aimed velocity. |
| GameStateLevel1.Level.MoveOne | Project1/GameStateLevel1.cpp:408-458 | The body of the motion loop moves one object by its type's rule. |
| Rules.MotionPass | Project1/GameStateLevel1.cpp:407-459 | The motion pass keeps every slot's flag and type and the live count. Every missile turns by at most HOMING_MISSILE_ROT_SPEED * abs(dt). With no target, every missile keeps its orientation and velocity. |
| GameStateLevel1.Level.MoveAll | Project1/GameStateLevel1.cpp:407-459 | The in-place pass equals the motion pass. A missile after the target's slot sees the target's already-moved position. |
| Motion.DistanceExceeds | Project1/GameStateLevel1.cpp:475-491 | The truncated `int` distance exceeds half the window exactly when abs(x) reaches half the window plus one. |
| Motion.WrapRule | Project1/GameStateLevel1.cpp:468-496 | Ships and asteroids stay alive, and only the coordinates past half the window plus one are negated. Bullets and missiles stay in place and die exactly when out on some axis. The background is untouched. |
| Motion.WrapKeepsMagnitude | Project1/GameStateLevel1.cpp:478-487 | Wrapping never changes the magnitude of a coordinate. |
| GameStateLevel1.Level.WrapSlot | Project1/GameStateLevel1.cpp:469-495 | The body of the wrap loop changes only slot i. The counter drops only when that slot is destroyed. |
| Rules.WrapPass | Project1/GameStateLevel1.cpp:468-496 | The wrap pass keeps the counter right. Every ship and asteroid stays alive with the same coordinate magnitudes. Exactly the bullets and missiles out of the window are removed. |
| Rules.WrapKeepsWellFormed | Project1/GameStateLevel1.cpp:468-496 | The wrap pass keeps the level running. |
| GameStateLevel1.Level.WrapAll | Project1/GameStateLevel1.cpp:468-496 | The in-place loop leaves exactly the wrap pass's state. |
| Rules.FirstHit | Project1/GameStateLevel1.cpp:513-569 | The inner loop stops at a live ship, bullet or missile that overlaps the asteroid, and none in a lower slot does. There is no hit exactly when none anywhere does. |
| GameStateLevel1.Level.FindHit | Project1/GameStateLevel1.cpp:513-569 | The inner loop returns that first hit, calling checkCollision with the asteroid first. |
| Rules.ShipHitSpareLife | Project1/GameStateLevel1.cpp:524-539 | An asteroid hitting the ship with lives to spare is destroyed and costs one life. The ship stays alive and unchanged in slot 1. |
| Rules.ShipHitLastLife | Project1/GameStateLevel1.cpp:529-537 | An asteroid hitting the ship on the last life restarts the level: the start layout, 35 live objects, 3 lives. |
| Rules.ShipHit | Project1/GameStateLevel1.cpp:524-539 | The hit ship is the one in slot 1. Either a life is lost with the ship kept alive, or the level restarts. |
| Rules.ProjectileHit | Project1/GameStateLevel1.cpp:541-567 | An asteroid hitting a bullet or missile is destroyed together with it, and nothing else changes. The counter drops by two. |
| Rules.ResolveAtOutcome | Project1/GameStateLevel1.cpp:502-571 | One step of the collision pass keeps the level running and has exactly one of four outcomes: nothing, a life lost, a restart, or asteroid and projectile destroyed. |
| Rules.RestartThenContinue | Project1/GameStateLevel1.cpp:529-538 | Losing the last life restarts the level, and the pass then continues from the next slot over the fresh level. |
| Rules.ResolveFromKeepsWellFormed | Project1/GameStateLevel1.cpp:502-571 | The whole collision pass keeps the level running. |
| GameStateLevel1.Level.LoseLife | Project1/GameStateLevel1.cpp:534 | The decrement of sPlayerLives changes nothing else. |
| GameStateLevel1.Level.StrikeShip | Project1/GameStateLevel1.cpp:529-537 | Destroy the asteroid, lose a life, and restart when none is left. This leaves exactly the specified state. |
| GameStateLevel1.Level.ResolveSlot | Project1/GameStateLevel1.cpp:503-570 | The body of the outer collision loop leaves exactly one step of the specified pass. |
| GameStateLevel1.Level.ResolveCollisions | Project1/GameStateLevel1.cpp:502-571 | The whole in-place collision pass equals the specified pass. |
| Rules.FrameKeepsWellFormed | Project1/GameStateLevel1.cpp:308-571 | A frame keeps the level running. A running level has these properties: the counter equals the number of live objects; the background and the ship stay alive in slots 0 and 1; every other live object is a bullet, asteroid or missile; lives stay between 1 and 3; the score stays 0. |
| GameStateLevel1.Level.Update | Project1/GameStateLevel1.cpp:308-571 | Input, target search, motion, wrap and collisions in place leave exactly the specified frame, and a running level stays running. |

## Left out

- Load and Unload (meshes, textures, files), Draw, the model-matrix loop at the end of Update, the camera zoom keys, ResetCam and every printf: rendering and I/O only. The model matrix is not a field of the entity.
- srand(time(NULL)) and rand(): the raw draws are parameters (`Spawn`, `draw`, `respawn`). A restart in the collision pass draws `respawn(i)`, keyed by the slot of the asteroid that caused it.
- glfwGetKey and the window size: parameters (`Input`, `W`, `H`). The `state` out-parameter of the update is never written and is not modelled.
- The z components of the vectors: the level keeps them 0 for positions and velocities. Only x and y are modelled.
- Floating point: positions, velocities and angles are reals, with no rounding, overflow or NaN. cos, sin, atan2, sqrt and PI are uninterpreted parameters (`Geometry.Math`). The float-to-int cast in the wrap is Floor of the absolute value, and its overflow for huge coordinates is not modelled.
- Motion.Direction: normalising a zero vector keeps the vector rather than producing NaN, so a missile on top of its target aims by atan2(0, 0).
- Collision.EdgeNormal: the axes are not normalised. Collision.NormalisationIrrelevant shows this cannot change the verdict. A zero-length edge, where the game gets NaN axes that never separate, gives a zero axis here, which never separates either.
- Motion.CapSpeedBounded, Motion.SteerKeepsCap, Motion.ShipSpeedStaysCapped, Rules.InputKeepsSpeedCap: the speed bound is proved only for a square root that is exact (`ExactSqrt`), not for the float sqrt.
- Motion.Turn: the game's unqualified `abs` on the angle difference is read as the float overload. The integer overload would truncate the difference first.
- GameStateLevel1.Level.Update, GameStateLevel1.Level.HandleInput: they require a non-NULL player pointer, because the game dereferences sPlayer without a check.
- The unused helpers of `Project1/matvec.cpp` and `Project1/input.cpp`: matvec.cpp and input.cpp are not part of this model.
