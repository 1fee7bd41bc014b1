# Salmon game: per-frame simulation core in Dafny

This project models the deterministic per-frame logic of a small
entity-component-system (ECS) game. In the game a player-controlled salmon
eats fish (soft shells), dies on turtles (hard shells) and on vortices (pits).
Every entity's data lives in component containers of one global registry. The
model covers three systems:

- **Physics step** (`PhysicsSystem`, physics_system.dfy).
  - The bounding box and the circle test `collides`.
  - Integration of every motion, with the player pinned to a wall it touches.
  - The all-ordered-pairs loop that appends collision events, duplicates included.
  - The fish's vertical reflection at the top and bottom walls.
  - The recomputation of the player's two wall-contact flags from its mesh vertices.
- **World rules** (`WorldSystem`, world_system.dfy; `Impulse`, impulse.dfy).
  - The collision-event handler: death on a hard shell, eating a soft shell, falling into a vortex, and vortices swallowing other entities.
  - Removal of entities that left the screen.
  - The vortex rotation.
  - The death and light-up timers and the screen darkening.
  - `restart_game`.
  - The restart, debug, speed, movement and mode keys.
  - The standalone collision-velocity formula, whose only call site is commented out.
- **Fish AI** (`AiSystem`, ai_system.dfy): the proximity latch. A fish within 200 of the salmon is latched and dodges vertically away from it. A latched fish that is out of range swims off to the left. Any fish in range sets the freeze flag.

The registry is the class `Ecs.Registry` (registry.dfy). It has one field per component container, and the systems update those fields in place.

- Containers that the source walks by index are `Container`s: an ordered sequence of entities plus a map to their components.
- Tag containers are sets or maps.
- `Snapshot()` turns the registry into a `Components.Store` value (components.dfy).

Every method that changes the registry is proved against a function on stores (`PhysicsStep`, `Handled`, `RemoveSet`, `TimersStepped`, `VorticesSpun`, `KeyHandled`, `AiStepped`, ...). The properties of the game are lemmas about those functions.

Floats are modelled as Dafny `real`. The functions the source calls but does not define are taken as inputs:

- `sqrt` is a radius with `r >= 0 && r * r == |bb / 2|^2` (`PhysicsSystem.IsRadius`), or a comparison of squares (`AiSystem.DistanceThreshold`).
- The mesh-vertex transform is a function `worldY` from a motion and a local vertex to a world-space height.
- `cos`/`sin` of the salmon's angle are a `heading` vector.
- The default timer lengths of the `DeathTimer` and `LightUpTimer` components (`deathMs`, `lightUpMs`) are parameters.

Where the prose description of the game and the code disagree, the model follows the code:

- The broad-phase test is strict. It compares the squared centre distance with the larger of the two squared radii (src/physics_system.cpp:23-24). The description instead states an inclusive test against the sum of the radii.
- Entity pairs are not refined by a vertex-in-box test.
- Integration has no gravity term.

## Model

| member | source | states |
|---|---|---|
| PhysicsSystem.BoundingBox | src/physics_system.cpp:6-10 | each component of the box is non-negative and is plus or minus the matching scale component |
| PhysicsSystem.BoundingBoxIgnoresFacing | src/physics_system.cpp:6-10 | negating either scale component leaves the box unchanged |
| PhysicsSystem.RadiusSquared | src/physics_system.cpp:19-22 | the squared radius of the circle around half the box is `(sx^2 + sy^2) / 4`, never negative |
| PhysicsSystem.Collides | src/physics_system.cpp:15-27 | true exactly when the squared centre distance is strictly below one of the two squared radii |
| PhysicsSystem.CollidesSymmetric | src/physics_system.cpp:15-27 | the test gives the same answer with its arguments swapped |
| PhysicsSystem.TouchingIsNoCollision | src/physics_system.cpp:23-26 | a squared distance equal to the larger squared radius is no collision |
| PhysicsSystem.CollidesByShape | src/physics_system.cpp:17-22 | only positions and scales take part in the test |
| PhysicsSystem.CollidesIffCentreInsideCircle | src/physics_system.cpp:12-27 | with the roots taken, a collision means the centre distance is below one of the two radii, and conversely |
| PhysicsSystem.Integrate | src/physics_system.cpp:43-62 | a player flagged at the top gets `y = r`; one flagged only at the bottom gets `y = H - r`; every other motion moves by `elapsed / 1000` times its velocity; velocity, angle and scale are unchanged |
| PhysicsSystem.IntegrateAdditive | src/physics_system.cpp:58-62 | two free steps are one free step of the summed time |
| PhysicsSystem.ClampTouchesWall | src/physics_system.cpp:43-54 | a pinned player's circle touches its wall, and pinning it again changes nothing |
| PhysicsSystem.IntegrateAll | src/physics_system.cpp:33-63 | the integration pass keeps the container's order and keys |
| PhysicsSystem.IntegrateOne | src/physics_system.cpp:37-62 | the loop body computes `Integrate` |
| PhysicsSystem.IntegrateMotions | src/physics_system.cpp:33-63 | the in-order integration loop leaves exactly `IntegrateAll` of its input |
| PhysicsSystem.Reflect | src/physics_system.cpp:79-93 | position, angle, scale and horizontal velocity are kept; the vertical velocity is negated when exactly one wall is reached, and the motion is unchanged when both or neither are |
| PhysicsSystem.ReflectInvolution | src/physics_system.cpp:79-93 | reflecting twice restores the motion |
| PhysicsSystem.HitsUpperWall | src/physics_system.cpp:82-85 | the upper test holds exactly when the centre lies less than `0.2 + r / 2` below the top, so always when the centre itself is within 0.2 of it |
| PhysicsSystem.HitsLowerWall | src/physics_system.cpp:83-89 | the lower test holds exactly when the centre lies at or past `H - 0.2 - r / 2`, so always when the centre itself is within 0.2 of the bottom |
| PhysicsSystem.ReflectAll | src/physics_system.cpp:73-93 | the reflection pass keeps the container's order and keys |
| PhysicsSystem.ReflectOne | src/physics_system.cpp:79-93 | the two wall tests in sequence compute `Reflect` |
| PhysicsSystem.PairEvent | src/physics_system.cpp:97-109 | one inner step emits two events or none, and two exactly when the entities differ and collide |
| PhysicsSystem.RowEvents | src/physics_system.cpp:95-110 | the inner loop emits at most two events per entity it visits |
| PhysicsSystem.RowEventsEnds | src/physics_system.cpp:95-110 | each event of the inner loop joins the outer entity with a visited one, and never an entity with itself |
| PhysicsSystem.PairEvents | src/physics_system.cpp:73-110 | the outer loop over an empty inner list emits nothing |
| PhysicsSystem.PairEventsEnds | src/physics_system.cpp:73-110 | each event of the outer loop joins an outer entity with an inner one, and never an entity with itself |
| PhysicsSystem.PairEventCount | src/physics_system.cpp:97-109 | one inner step emits `(x, y)` and `(y, x)` once each when `x != y` and they collide, and nothing else |
| PhysicsSystem.RowEventsCount | src/physics_system.cpp:95-110 | the exact number of copies of each event that one inner loop emits |
| PhysicsSystem.PairEventsCount | src/physics_system.cpp:73-111 | the exact number of copies of each event that the outer loop emits over a prefix of the rows |
| PhysicsSystem.EventCount | src/physics_system.cpp:73-111 | each ordered pair of distinct colliding entities is emitted exactly twice per pass, and every other event zero times |
| PhysicsSystem.AllPairEvents | src/physics_system.cpp:73-111 | no event of a pass pairs an entity with itself, and both ends of every event are listed entities |
| PhysicsSystem.RowCollisions | src/physics_system.cpp:95-110 | the inner loop appends exactly the row's events, in order |
| PhysicsSystem.CollisionRow | src/physics_system.cpp:75-110 | one outer iteration reflects the `i`-th fish and emits its row's events |
| PhysicsSystem.DetectCollisions | src/physics_system.cpp:72-111 | the pair loop leaves the motions as `ReflectAll` and appends `AllPairEvents` of the motions it started from; reflecting in between changes no event |
| PhysicsSystem.ScanVertices | src/physics_system.cpp:141-157 | the vertex scan never sets both wall flags |
| PhysicsSystem.ScanFindsFirstHit | src/physics_system.cpp:141-157 | the first vertex that is not clear of the walls decides the flags, top before bottom |
| PhysicsSystem.ScanAllClear | src/physics_system.cpp:141-158 | with every vertex clear of both walls, no flag is set |
| PhysicsSystem.WallContact | src/physics_system.cpp:122-158 | at most one flag is set, and none when the corner pre-check fails |
| PhysicsSystem.ScanMesh | src/physics_system.cpp:138-158 | the vertex loop with its `break`s computes `ScanVertices` of the world-space heights |
| PhysicsSystem.NearWall | src/physics_system.cpp:128-136 | the corner pre-check passes whenever the centre is within 0.5 of a wall, and fails only when the whole circle keeps 0.5 clear of both walls |
| PhysicsSystem.WorldYs | src/physics_system.cpp:141-147 | one world-space height per mesh vertex, in vertex order |
| PhysicsSystem.UpdateWallFlags | src/physics_system.cpp:122-160 | the first player's flags become `WallContact` of its motion and the world heights of its mesh; every other player's flags and the rest of the store are kept, and the store stays well formed |
| PhysicsSystem.UpdatePlayerWallFlags | src/physics_system.cpp:122-160 | the flag recomputation on the registry computes `UpdateWallFlags` |
| PhysicsSystem.PhysicsStep | src/physics_system.cpp:29-160 | the whole step keeps the store well formed |
| PhysicsSystem.PhysicsStepEvents | src/physics_system.cpp:71-111 | the collision list only grows, and it gains exactly two copies of `(a, b)` for each distinct pair whose integrated motions collide |
| PhysicsSystem.Step | src/physics_system.cpp:29-160 | `PhysicsSystem::step` on the registry computes `PhysicsStep` and keeps the registry valid |
| Impulse.ProjectedAntisymmetric | src/world_system.cpp:29-33 | seen from the other body, the squared distance is the same and the projected term is negated |
| Impulse.CollisionVelocity | src/world_system.cpp:23-43 | `computeCollisionVelocity`: equal velocities are returned unchanged, and a velocity component along whose axis the two centres agree is kept |
| Impulse.CollisionVelocityIgnoresGravity | src/world_system.cpp:38-40 | the gravity flags have no effect on the result |
| Impulse.CollisionConservesMomentum | src/world_system.cpp:23-43 | applied to both bodies, the formula as written conserves momentum |
| Impulse.CollisionVelocityLosesEnergy | src/world_system.cpp:23-43 | on the two-body example with unit masses, both bodies leave with velocity (0.5, 0) and twice the kinetic energy afterwards equals the energy before |
| Impulse.ElasticVelocity | src/world_system.cpp:23-43 | the dot-product response the formula stands for: a velocity difference perpendicular to the line of centres leaves the velocity unchanged |
| Impulse.ElasticConservesMomentum | src/world_system.cpp:23-43 | the dot-product response conserves momentum |
| Impulse.ElasticConservesEnergy | src/world_system.cpp:23-43 | the dot-product response conserves kinetic energy |
| Components.Without | src/world_system.cpp:292 | removal from a container drops exactly the removed keys and keeps every other component |
| Components.RemoveSet | src/world_system.cpp:409 | removing an entity's components drops it from the motions and keeps every other motion, the collision list and the darkening |
| Components.RemoveSetWellFormed | src/world_system.cpp:409 | removal keeps the store well formed and leaves the removed entities in no container |
| Components.RemoveSetTwice | src/world_system.cpp:355-356 | removing one set after another is removing their union |
| Ecs.Registry.RemoveAllComponentsOf | src/world_system.cpp:181 | `remove_all_components_of` on the registry computes `RemoveSet` with one entity and keeps it valid |
| WorldSystem.Emplace | src/world_system.cpp:396 | `emplace` appends the entity and adds its key, keeping the container indexed |
| WorldSystem.StartDying | src/world_system.cpp:396-402 | the start of a death keeps the store well formed |
| WorldSystem.Eaten | src/world_system.cpp:409-414 | eating keeps the store well formed and the collision list unchanged |
| WorldSystem.Swirled | src/world_system.cpp:445-451 | falling into a vortex keeps the store well formed and the collision list unchanged |
| WorldSystem.Swallowed | src/world_system.cpp:455-463 | vortex swallowing keeps the store well formed and the collision list unchanged |
| WorldSystem.ApplyEvent | src/world_system.cpp:385-463 | handling one event keeps the store well formed and the collision list unchanged |
| WorldSystem.Handled | src/world_system.cpp:384-485 | handling a list of events keeps the store well formed and the collision list unchanged |
| WorldSystem.ApplyEventScores | src/world_system.cpp:406-411 | an event scores exactly one point when a living player meets a soft shell that is not a hard shell, and no point otherwise |
| WorldSystem.HandledScores | src/world_system.cpp:384-485 | points never decrease, and a list scores at most one point per event |
| WorldSystem.DyingPlayerIgnoresEvents | src/world_system.cpp:390-454 | a player with a death timer ignores every collision |
| WorldSystem.NonPlayerEventsWaitForDeath | src/world_system.cpp:455 | events between non-players change nothing while any death timer runs |
| WorldSystem.HardShellKills | src/world_system.cpp:392-404 | a living player hitting a hard shell gets a death timer, angle 3.1415, velocity (0, 80) and colour (1, 0, 0); nothing is eaten or scored, even when the shell is also soft or a vortex |
| WorldSystem.EatRemovesShell | src/world_system.cpp:406-414 | eating removes the shell from every container, scores one point and sets the player's light-up timer |
| WorldSystem.VortexKills | src/world_system.cpp:441-453 | a living player meeting a vortex starts dying, is marked dead and takes the vortex's x, keeping its y |
| WorldSystem.VortexSwallows | src/world_system.cpp:455-463 | while nobody is dying, a vortex removes its non-player partner; when both are vortices only the partner of the first is removed |
| WorldSystem.RepeatedEatScoresOnce | src/world_system.cpp:406-411 | the duplicate of an eat event finds the shell gone and scores nothing more |
| WorldSystem.StartDeath | src/world_system.cpp:394-403 | the start of a death on the registry computes `StartDying` |
| WorldSystem.World.HandleEvent | src/world_system.cpp:385-463 | one iteration of the handler computes `ApplyEvent` on the registry, points and death flag |
| WorldSystem.World.Eat | src/world_system.cpp:407-414 | eating on the registry computes `Eaten` |
| WorldSystem.World.FallIntoPit | src/world_system.cpp:442-453 | falling into a vortex on the registry computes `Swirled` |
| WorldSystem.World.PitSwallows | src/world_system.cpp:455-463 | vortex swallowing on the registry computes `Swallowed` |
| WorldSystem.World.HandleCollisions | src/world_system.cpp:381-489 | `handle_collisions` handles every event in order, as `Handled` does, and then leaves the collision list empty |
| WorldSystem.World.RestartGame | src/world_system.cpp:345-356 | `restart_game` sets the speed to 0.4 and removes every entity with a motion from every container |
| WorldSystem.RemoveLastMover | src/world_system.cpp:355-356 | the loop body removes the last entity with a motion, which shortens the motions |
| WorldSystem.Restarted | src/world_system.cpp:353-356 | after a restart no entity has a motion; the collision list and the darkening are kept |
| WorldSystem.RestartClears | src/world_system.cpp:353-356 | after a restart no motion, player, fish or vortex is left, nor any death timer of a player |
| WorldSystem.RestartIdempotent | src/world_system.cpp:355-356 | restarting twice is restarting once |
| WorldSystem.OffScreen | src/world_system.cpp:180 | an entity is off screen exactly when its box's right edge, for either sign of the x scale, is left of 0; its centre then is too |
| WorldSystem.OffScreenSet | src/world_system.cpp:178-183 | the off-screen entities all have a motion and a centre left of 0 |
| WorldSystem.RemoveOffScreen | src/world_system.cpp:172-183 | the backward loop removes exactly the entities whose motion has `x + abs(scale.x) < 0` |
| WorldSystem.VisitOffScreen | src/world_system.cpp:178-182 | visiting index `i` removes its entity exactly when it is off screen |
| WorldSystem.OffScreenRemovalIdempotent | src/world_system.cpp:178-183 | after the removal no entity is off screen |
| WorldSystem.OffScreenRemovalExact | src/world_system.cpp:178-183 | an entity keeps its motion exactly when it is on screen |
| WorldSystem.FirstExpired | src/world_system.cpp:282-296 | the index of the first counter that goes below zero, with every earlier counter still non-negative; none when all stay non-negative |
| WorldSystem.MinCounter | src/world_system.cpp:281-288 | the darkening minimum is at most 3000 and at most every decremented counter, and it is 3000 or one of them |
| WorldSystem.DarkenInRange | src/world_system.cpp:298-299 | while no timer expired, the darkening lies between 0 and 1 |
| WorldSystem.NoTimersNoDarkening | src/world_system.cpp:281-299 | without death timers the darkening is 0 |
| WorldSystem.DeathTimersStepped | src/world_system.cpp:281-299 | an expiry leaves no motion and darkening 0; otherwise only the death counters and the darkening change, on the same entities; the collision list is kept |
| WorldSystem.CountDown | src/world_system.cpp:281-297 | the death-timer loop stops at the first expired counter; it decrements the counters up to and including that one, or all of them, and computes their minimum |
| WorldSystem.CountDownOne | src/world_system.cpp:282-296 | one round decrements the next counter and either stops at the first expired one or keeps the loop invariant |
| WorldSystem.World.UpdateDeathTimers | src/world_system.cpp:281-299 | the death-timer part of `step` computes `DeathTimersStepped` and reports a restart exactly when a counter expired |
| WorldSystem.World.ExpireDeathTimer | src/world_system.cpp:291-295 | an expired timer is removed, the darkening reset to 0 and the game restarted |
| WorldSystem.World.KeepDeathTimers | src/world_system.cpp:298-299 | with no timer expired, the counters are stored and the darkening set from their minimum |
| WorldSystem.DeathTimerExpiresIff | src/world_system.cpp:282-296 | a timer expires exactly when some counter drops below zero |
| WorldSystem.DeathTimerExpiryRestarts | src/world_system.cpp:291-295 | an expiry leaves no motion or player, darkening 0, and removes the expired timer |
| WorldSystem.DeathTimersTick | src/world_system.cpp:282-299 | with no expiry every counter drops by the elapsed time and stays non-negative, the darkening lies in [0, 1], and nothing else changes |
| WorldSystem.LightUpTicked | src/world_system.cpp:302-309 | a light-up timer stays exactly when its decremented counter is non-negative, and then holds that counter |
| WorldSystem.TickLightUps | src/world_system.cpp:302-309 | the light-up loop computes `LightUpTicked` |
| WorldSystem.LightUpTickedTwice | src/world_system.cpp:302-309 | two frames of countdown are one frame of their summed duration |
| WorldSystem.TimersStepped | src/world_system.cpp:281-309 | after an expiry no motion is left and the darkening is 0; otherwise the light-up timers are ticked and only the timers and the darkening change |
| WorldSystem.World.UpdateTimers | src/world_system.cpp:281-309 | the timer part of `step` computes `TimersStepped`; the light-up timers are not touched after a restart |
| WorldSystem.SpinVortices | src/world_system.cpp:223-230 | the vortex loop computes `SpinPits` |
| WorldSystem.World.RotateVortices | src/world_system.cpp:215-232 | the vortex part of `step` computes `VorticesSpun` |
| WorldSystem.SpinPits | src/world_system.cpp:223-230 | the vortex pass keeps every key, changes only angles, and leaves every entity outside the visited set as it was |
| WorldSystem.VorticesSpun | src/world_system.cpp:215-230 | only motions change, with the same entities and keys; motions that are not vortices are kept; in basic mode or without a mode nothing changes |
| WorldSystem.Spun | src/world_system.cpp:226-229 | a vortex angle is either reset to 0 or advanced by 0.5, and an angle in `[0, 2 pi)` stays in it |
| WorldSystem.SpinCycle | src/world_system.cpp:226-229 | a vortex starting at angle 0 is at `0.5 * (n mod 13)` after `n` frames |
| WorldSystem.VortexRotation | src/world_system.cpp:215-230 | outside basic mode every vortex turns and stays within one turn, and nothing else changes |
| WorldSystem.BasicModeStill | src/world_system.cpp:215 | in basic mode, or without a mode, nothing turns |
| WorldSystem.KeySpeed | src/world_system.cpp:505-596 | the speed after a key event is never negative; a living salmon's A press gives 3 and B press gives 1; an R release gives 0.4 |
| WorldSystem.SpeedChanged | src/world_system.cpp:522-531 | the `<`/`>` speed is never negative, and it is unchanged by other keys when it was not negative |
| WorldSystem.Moved | src/world_system.cpp:536-585 | a key event never changes the salmon's angle or scale; releases and non-arrow keys change nothing; left/right set the x velocity to 10 and keep y; up/down move the position by the new velocity |
| WorldSystem.ModeKeyed | src/world_system.cpp:588-596 | A pressed clears and B pressed sets the salmon's basic mode, other entities' modes and all keys are kept, and other keys change nothing |
| WorldSystem.KeyHandled | src/world_system.cpp:505-597 | an R release leaves no motion; a dying salmon's other key events change nothing; the collision list is kept |
| WorldSystem.SalmonKeyed | src/world_system.cpp:535-597 | a key event changes only motions and modes, keeping their entities and keys |
| WorldSystem.SalmonMoved | src/world_system.cpp:536-585 | moving the salmon changes only its own motion, keeping every entity and key |
| WorldSystem.World.OnKey | src/world_system.cpp:497-598 | the key callback computes `KeyHandled` on the registry, `KeySpeed` for the speed and the debug flag, and keeps the freeze flag |
| WorldSystem.World.RestartKey | src/world_system.cpp:505-510 | an R release restarts the game |
| WorldSystem.World.ChangeSpeed | src/world_system.cpp:522-531 | the `<`/`>` keys and the clamp compute `SpeedChanged` |
| WorldSystem.World.SalmonKey | src/world_system.cpp:535-597 | a dying salmon's keys change nothing; otherwise movement and mode follow `SalmonKeyed`, and A/B set the speed |
| WorldSystem.World.SteerSalmon | src/world_system.cpp:536-596 | movement and mode on the registry compute `SalmonKeyed` |
| WorldSystem.MoveSalmon | src/world_system.cpp:536-585 | the arrow keys replace the salmon's motion by `Moved` |
| WorldSystem.SetMode | src/world_system.cpp:588-596 | A pressed clears and B pressed sets the salmon's basic mode; nothing else changes |
| WorldSystem.DebugKey | src/world_system.cpp:513-518 | the D key sets the debug view exactly while it is not released |
| WorldSystem.SpeedKeysCancel | src/world_system.cpp:522-531 | `>` then `<` restores a non-negative speed; `<` then `>` restores one of at least 0.1 and gives 0.1 from below it |
| WorldSystem.LeftRightCancel | src/world_system.cpp:561-568 | left then right puts the salmon back where it was |
| WorldSystem.DyingSalmonIgnoresKeys | src/world_system.cpp:535 | a dying salmon's key events, other than a restart, change nothing |
| WorldSystem.ModeKeysDriveVortices | src/world_system.cpp:588-596 | after A the vortices turn on the next frame, and after B they stay still |
| WorldSystem.KeyHandledWellFormed | src/world_system.cpp:497-598 | a key event keeps the store well formed |
| WorldSystem.SalmonKeyedFrame | src/world_system.cpp:535-596 | a key event changes no motion or mode except the salmon's, and nothing else |
| WorldSystem.SalmonMovedFrame | src/world_system.cpp:536-585 | moving the salmon changes no other motion and keeps the store well formed |
| AiSystem.DistanceThreshold | src/ai_system.cpp:18-20 | comparing the root distance with 200 is comparing its square with `200^2` |
| AiSystem.Steered | src/ai_system.cpp:17-39 | a fish in range keeps its horizontal velocity and gets vertical velocity -180 when above the salmon and +180 otherwise; out of range a latched fish gets (-200, 0) and an unlatched one is kept; position, angle and scale never change |
| AiSystem.Latched | src/ai_system.cpp:20-21 | a fish is latched afterwards exactly when it was latched or is in range |
| AiSystem.AiStepped | src/ai_system.cpp:14-40 | the AI step changes only motions and soft shells, and keeps every entity and key |
| AiSystem.AiFreezes | src/ai_system.cpp:20-25 | a set freeze flag stays set, and without a player the flag is kept |
| AiSystem.Step | src/ai_system.cpp:5-42 | `AISystem::step` computes `AiStepped` on the registry and `AiFreezes` for the freeze flag, and keeps the debug flag |
| AiSystem.SteerFish | src/ai_system.cpp:16-40 | the loop over the fish steers and latches every fish and reports whether any was in range |
| AiSystem.AiKeepsPositions | src/ai_system.cpp:14-40 | the AI moves nothing and adds or removes no entity; only velocities and latches change |
| AiSystem.InRangeDodges | src/ai_system.cpp:20-32 | a fish in range is latched and gets vertical velocity -180 when above the salmon (smaller y) and +180 otherwise; its horizontal velocity is kept |
| AiSystem.LatchedRetreats | src/ai_system.cpp:35-38 | a latched fish out of range gets velocity (-200, 0) and stays latched |
| AiSystem.UnlatchedOutOfRangeUnchanged | src/ai_system.cpp:35-39 | a fish that was never latched and is out of range is left exactly as it was |
| AiSystem.LatchMonotone | src/ai_system.cpp:20-21 | a fish is latched afterwards exactly when it was latched before or is in range |
| AiSystem.NoPlayerNoChange | src/ai_system.cpp:14 | without a player nothing changes and the freeze flag is kept |
| AiSystem.SalmonUntouched | src/ai_system.cpp:15-17 | the salmon's motion is not changed, unless the salmon is itself a fish |
| AiSystem.FreezeIff | src/ai_system.cpp:20-25 | the freeze flag is set afterwards exactly when it was set before or some fish is in range |
| AiSystem.AiIdempotent | src/ai_system.cpp:14-40 | running the step twice in one frame is running it once |

## Left out

- Window, rendering, audio and window-title output: the `glfw*`, `Mix_*` and GL calls and the debug overlay drawing. They change no simulation state.
- Random spawning of turtles, fish and vortices, and the death particles. They depend on random generators.
- The mesh-vertex transform (translate, rotate, scale). It is the input `worldY`.
- `sqrt`, `atan2`, `sin` and `cos`. They are radii, a comparison of squares, the sign of the vertical offset, and the input `heading`.
- IEEE float rounding. Floats are reals, so `0.1f`, `3.1415f` and `2 * M_PI` are the exact decimals 0.1, 3.1415 and 6.283185307179586.
- The ECS containers' swap-with-last removal is not part of this model: removal keeps the order of the remaining entities. The container code is not part of this model.
- The default lengths of `DeathTimer` and `LightUpTimer`. They are defined in components.hpp, which is not part of this model, so they are the parameters `deathMs` and `lightUpMs`.
- Pebbles and the narrow phase against shapes. The code has neither.
- The frame loop in src/main.cpp. It only fixes the order of the systems.
- WorldSystem.World.RestartGame: the creation of the new salmon and its colour and mode. The salmon factory is not part of this model, so a restart leaves no entity with a motion and `playerSalmon` unchanged.
- WorldSystem.World.OnKey: when the salmon has no motion or no mode, the source's `get` fails. The model leaves the motion or mode unchanged instead.
- WorldSystem.World.UpdateTimers: light-up timers are removed while their container is iterated. The model visits every timer once and does not capture any element that removal may make the loop skip.
- WorldSystem.World.HandleCollisions: the handler iterates a copy of the event list. Removals made while handling an event do not shorten the loop.
- WorldSystem.World.RotateVortices: the vortices are visited as a set. The result does not depend on their order.
- AiSystem.Step: when the vertical offset is zero, or `-0.0`, the angle test is decided by the sign of the offset (+180). `atan2(-0.0, x < 0)` returning `-pi` is not modelled.
- AiSystem.Step: the salmon's position is read once. When the salmon is itself a fish, the source re-reads a motion it has just changed, which the model does not capture.
- Impulse.CollisionVelocity: requires a non-zero squared distance and a non-zero mass sum. A division by zero, which yields an infinity or NaN in the source, is not modelled.
- WorldSystem.World.ChangeSpeed: `fmax` with a NaN speed is not modelled, because reals have no NaN.

## Findings

| source | as written | input that shows it | evidently intended | confidence | as-written member | corrected member |
|---|---|---|---|---|---|---|
| src/world_system.cpp:31-33 | glm's `vec2 * vec2` is a component-wise product, so the velocity difference is multiplied with the position difference component by component, not dotted with it | unit masses; one body at (1, 1) with velocity (1, 0), the other at (0, 0) at rest. Both leave with velocity (0.5, 0), so momentum is kept but half the kinetic energy is lost | the elastic response `v - 2 mo / (m + mo) * ((v - vo) . (x - xo)) / abs(x - xo)^2 * (x - xo)`, which conserves momentum and kinetic energy; the only call site is commented out | not executed | Impulse.CollisionVelocityLosesEnergy | Impulse.ElasticConservesEnergy |
