# ArcadeThesis game rules in Dafny

This project models the simulation rules of the three pygame games of the
ArcadeThesis arcade, together with the small pure helpers they use, and proves
properties about them.

- **Cycle Forest** is a side-scroller on an 800 × 480 screen. It has gravity and
  ground snapping, a jump with one extra air jump, and fire projectiles on a 0.3 s
  cooldown. Each projectile destroys the first monster it touches for 10 points.
  Monsters spawn every 2 s, and touching one costs a health point and opens a 1 s
  invincibility window. The player is kept on screen, and the game ends at zero
  health. The module-level globals of the game are the fields of one `ForestGame`
  object, and each step of the main loop is a method on it.
- **Asteroid Shooter** is a ship in a 1280 × 720 window. Lasers fly up and
  meteors fall, and both lists drop what left the window, in place. Shooting has a
  400 ms cooldown latch. The stick has a dead-zone remap, the ship is clamped to
  the window, and lasers and meteors destroy each other. A ship–meteor contact
  (rectangle, then pixel mask) ends the game, and a restart resets the state.
- **Traffic Dash** has three parts:
  - the `Player`: input arbitration (keyboard, then every controller's stick,
    then its D-pad), a move split into axes with collision against obstacle
    hitboxes, game over on touching a car, the animation frame counter, and
    the playfield restriction;
  - the `Car`: its heading, its hitbox, its movement and its despawn;
  - the main loop: water-bottle spawning under a cap of 20 with a minimum
    separation, the car timer's list of recently used lanes (kept at most five
    long and free of duplicates once it starts that way), and the bottle pickup
    loop.
- **Helpers**:
  - the theme table and `AssetLoader` of Cycle Forest;
  - the launcher's `darken_color`;
  - Traffic Dash's path helpers, over POSIX `join`/`dirname`.

Each source file that changes state step by step is modelled as a class:

- the fields are the globals or attributes it updates;
- each method names the fields it changes in its `modifies` clause;
- each loop of the source is a `while` loop whose result is proved equal to a pure
  function (an event loop to a fold of its per-event step), and the properties are
  lemmas about that function;
- each pass of a main loop is a method whose new state is a pure function of the
  old one (`FrameStep`), composed from the functions of its stages.

Pure source code becomes functions and lemmas.

Some things are parameters or predicates, because they are outside the rules:

- the clock: pygame ticks in integer milliseconds;
- `dt`;
- random draws;
- controller and keyboard readings;
- pixel-mask overlap: a predicate over the offset, consulted only after the
  rectangles collide;
- the file system: a predicate over paths;
- the absolute path of a script;
- vector lengths for normalisation.

Floats stored into a pygame `Rect` are truncated (`Common.Trunc`). Python's
`round` is round-half-even (`Common.RoundHalfEven`).

Modules:

- `Common`: Option, truncation, rounding and an order-keeping filter.
- `Geometry`: pygame `Rect`: edges, setters, `colliderect`, `clamp_ip` and
  `inflate`.
- `Paths`: `posixpath.join` and `dirname`.
- `CycleForest`, `AsteroidShooter`, `TrafficPlayer`, `TrafficCar`,
  `TrafficMain`, `AssetsConfig`, `Launcher` and `TrafficUtils`: one module per
  source file.

## Model

| member | source | states |
|---|---|---|
| Common.Trunc | Cycleforest/main.py:348-351 | A float stored into a Rect field is cut toward zero: the result is within 1 of the input, on the zero side. |
| Common.RoundHalfEven | TrafficDash/player.py:96 | `round` gives the nearest integer, and a tie goes to the even one. |
| Common.Filter | GameShooter/asteriodShooter.py:57-60 | Removing from a list while looping over a copy keeps only elements that pass, from the original list, and never grows the list. |
| Common.FilterKeepsExactly | GameShooter/asteriodShooter.py:57-60 | An element survives the removal loop exactly when it was in the list and passes the test. |
| Common.FilterAllKept | GameShooter/asteriodShooter.py:57-60 | When every element passes, the list is left as it was. |
| Geometry.Rect.WithLeft | TrafficDash/player.py:52 | Setting `left` moves the rect to that left edge and keeps its y and size. |
| Geometry.Rect.WithRight | TrafficDash/player.py:48 | Setting `right` moves the rect to that right edge and keeps its y and size. |
| Geometry.Rect.WithTop | TrafficDash/player.py:66 | Setting `top` moves the rect to that top edge and keeps its x and size. |
| Geometry.Rect.WithBottom | Cycleforest/main.py:355 | Setting `bottom` moves the rect to that bottom edge and keeps its x and size. |
| Geometry.Rect.WithCenterX | TrafficDash/player.py:96-97 | Setting `centerx` puts the centre there and keeps the y and size. |
| Geometry.Rect.WithCenterY | TrafficDash/player.py:102-103 | Setting `centery` puts the centre there and keeps the x and size. |
| Geometry.Rect.WithCenter | TrafficDash/car.py:39-40 | Setting `center` puts both centre coordinates there and keeps the size. |
| Geometry.CenteredAt | TrafficDash/player.py:14 | `get_rect(center=pos)` has the surface's size and is centred on pos. |
| Geometry.OverlapsSymmetric | TrafficDash/player.py:43 | The colliderect test does not depend on which rect asks. |
| Geometry.ClampAxis | GameShooter/asteriodShooter.py:200 | Along one axis, an extent no longer than the bounds ends up inside them, and one already inside does not move. |
| Geometry.Clamp | GameShooter/asteriodShooter.py:200 | `clamp_ip` keeps the size, puts a rect that fits inside the bounds, and leaves a rect already inside unchanged. |
| Geometry.HalfHeightHitbox | TrafficDash/car.py:35 | The hitbox keeps the rect's x, width and horizontal centre. Its height is halved, rounded up. Its vertical centre matches, except when the height is 2 mod 4, where it is one pixel higher. |
| CycleForest.SpawnedMonster | Cycleforest/main.py:92-117 | A spawned monster stands on the ground and has the monster's size. From the left edge it starts just off screen and moves right. From the right edge it starts at x = 800 and moves left. On the ground it starts at the drawn x and moves right exactly when it is left of the player's centre. |
| CycleForest.FirstOverlap | Cycleforest/main.py:207-212 | The index found is the first monster, in list order, whose rect collides; None means none collides. |
| CycleForest.MovedProjectile | Cycleforest/main.py:203 | Defines a projectile's move: x advances by direction × 400 × dt, truncated into the rect. |
| CycleForest.ProjectileStep | Cycleforest/main.py:202-216 | Defines one turn of the outer loop: move the projectile, remove the first monster it touches and score 10, and keep it only if it hit nothing and 0 < x < 800. |
| CycleForest.ProjectilePass | Cycleforest/main.py:197-220 | Defines update_projectiles as ProjectileStep over the projectiles in order; ProjectilePassAccounting states its properties. |
| Common.RemoveAt | Cycleforest/main.py:209 | Removing one element (a monster here, a meteor at GameShooter/asteriodShooter.py:233) leaves the others: one shorter, and the multiset loses exactly that element. |
| CycleForest.MovedMonsters | Cycleforest/main.py:227-229 | Every monster is moved, and the order is kept. |
| CycleForest.MovedMonster | Cycleforest/main.py:228-229 | Defines a monster's move: x advances by direction × 100 × dt, truncated; y is unchanged. |
| CycleForest.KnockedBack | Cycleforest/main.py:239-240 | Defines the knockback: the player's x and y each move 50 along the given vector, truncated. |
| CycleForest.ProjectilePassAccounting | Cycleforest/main.py:197-220 | Over a whole update_projectiles pass: the score gained is 10 per destroyed monster; each projectile destroys at most one monster; a projectile that hit is not kept; the survivors are among the original monsters; every kept projectile has 0 < x < 800 and touches no surviving monster. |
| CycleForest.KeepAxis | Cycleforest/main.py:364-369 | On one axis, the clamp keeps an extent no longer than the screen inside [0, len], and leaves one already inside unchanged. |
| CycleForest.KeepOnScreen | Cycleforest/main.py:364-369 | The screen clamp keeps the size. A player no wider than 800 has 0 ≤ left and right ≤ 800. A player no taller than 480 has 0 ≤ top and bottom ≤ 480. A player already on screen does not move. |
| CycleForest.FindFirstOverlap | Cycleforest/main.py:207-212 | The inner scan of update_projectiles returns the first colliding monster. |
| CycleForest.ForestGame.constructor | Cycleforest/main.py:27-82 | The initial state: player centred, 3 health points, not invincible, no projectiles or monsters, on the ground with the air jump available, score 0, default theme. |
| CycleForest.ForestGame.SpawnMonster | Cycleforest/main.py:92-117 | spawn_monster appends exactly the monster SpawnedMonster describes. |
| CycleForest.ForestGame.SpawnTick | Cycleforest/main.py:282-285 | A monster spawns and the timer resets to now exactly when strictly more than 2 s have passed. Otherwise nothing changes. |
| CycleForest.ForestGame.InvincibilityTick | Cycleforest/main.py:287-290 | Invincibility clears only once strictly more than 1 s has passed since the hit. |
| CycleForest.ForestGame.HandleJumpInput | Cycleforest/main.py:151-169 | A press on the ground sets velocity -400 and leaves the ground. A press in the air with the air jump available sets -400 × 0.8 and spends the air jump. Any other case changes nothing: the whole state becomes Jumped of the old one. |
| CycleForest.ForestGame.SwitchTheme | Cycleforest/main.py:309-313 | Key k switches to the k-th available theme when there is one, and otherwise keeps the theme. |
| CycleForest.ForestGame.FireProjectile | Cycleforest/main.py:172-194 | Within 0.3 s of the last shot nothing changes. Otherwise exactly one projectile is appended at the player's centre, with direction +1 or -1 from the facing, and the last fire time becomes now. |
| CycleForest.Shot | Cycleforest/main.py:172-194 | Defines the projectile fire_projectile creates: at the player's centre, direction +1 facing right and -1 otherwise. |
| CycleForest.Fired | Cycleforest/main.py:172-194 | Defines fire_projectile on the event state: nothing within 300 ms of the last shot, otherwise the shot appended and the time recorded. |
| CycleForest.Jumped | Cycleforest/main.py:151-169 | Defines handle_jump_input on the event state: the ground jump, the weaker air jump, or nothing. |
| CycleForest.Themed | Cycleforest/main.py:309-313 | Defines the theme switch: the index-th available theme when there is one. |
| CycleForest.EventStep | Cycleforest/main.py:297-320 | Defines one event: quit and Q stop the loop, X fires, keys 1 and 2 switch the theme, and with a controller button A jumps and button B fires. |
| CycleForest.EventsApplied | Cycleforest/main.py:296-320 | Defines the event loop as EventStep over the queue in order, with the i-th event handled at clock reading i, as fire_projectile reads the clock again for every shot. |
| CycleForest.EventStepRunning | Cycleforest/main.py:297-298 | One event stops the loop exactly when it is a quit event or Q, and never restarts it. |
| CycleForest.EventStepFire | Cycleforest/main.py:306-320 | One event adds no projectile, or exactly the one shot outside the cooldown with the time recorded. |
| CycleForest.EventStepTheme | Cycleforest/main.py:309-313 | One event changes the theme only when it is key 1 or 2 with an available index, and then to that theme. |
| CycleForest.EventsStopRunning | Cycleforest/main.py:296-298 | Over a queue, a quit event or Q anywhere stops the loop, and nothing restarts it. |
| CycleForest.EventsFireOnce | Cycleforest/main.py:296-320 | Over a queue whose clock readings all lie within 300 ms of each other, at most one projectile is added. When one is, the last fire time becomes the reading of some event of the queue that was at least 300 ms after the previous shot. |
| CycleForest.EventsFireShots | Cycleforest/main.py:296-320 | Over any queue, the old projectiles stay first and every added one is the player's shot. The last fire time is unchanged or the clock reading of one of the events. |
| CycleForest.EventsThemes | Cycleforest/main.py:309-313 | Over a queue, the theme ends as it was or as an available theme, and without theme keys it is unchanged. |
| CycleForest.ForestGame.HandleEvent | Cycleforest/main.py:297-320 | Handling one event changes the event state exactly as EventStep says. |
| CycleForest.ForestGame.HandleEvents | Cycleforest/main.py:296-320 | The event loop changes the event state exactly as EventsApplied says, with the clock read per event. A quit event or Q stops the loop and nothing restarts it. The old projectiles stay first and every added one is the player's shot, and when all readings lie within 300 ms at most one is added. Without theme keys the theme is unchanged. |
| CycleForest.ForestGame.EventLoop | Cycleforest/main.py:296-320 | The loop over the queue leaves the event state EventsApplied describes. |
| CycleForest.ForestGame.KeyboardMove | Cycleforest/main.py:323-337 | With no arrow held nothing changes. Left wins the facing. With exactly one arrow held the direction is that arrow's. Both arrows together leave the direction as it was. The whole state becomes KeyboardSteered of the old one. |
| CycleForest.KeyboardSteered | Cycleforest/main.py:323-337 | Defines the keyboard movement on the whole state: the facing from Left or Right, Left winning, and the direction from exactly one arrow. |
| CycleForest.ForestGame.HandleControllerInput | Cycleforest/main.py:120-148 | No controller, or a stick inside the dead zone, changes nothing. Otherwise the facing and the direction follow the stick's sign. The whole state becomes ControllerSteered of the old one. |
| CycleForest.ControllerSteered | Cycleforest/main.py:120-148 | Defines the stick movement on the whole state: nothing inside the dead zone, otherwise the facing and the direction by the stick's sign. |
| CycleForest.ForestGame.ApplyPhysics | Cycleforest/main.py:346-361 | Gravity goes into the velocity, then the vertical step happens, then the horizontal step. Reaching the ground snaps the bottom to it, zeroes the velocity, sets on-ground and restores the air jump. Otherwise the player is not on the ground. The whole state becomes Fell of the old one. |
| CycleForest.Fell | Cycleforest/main.py:346-361 | Defines the physics on the whole state: gravity, the vertical and horizontal steps, then the ground snap that restores the air jump, or leaving the ground. |
| CycleForest.Fallen | Cycleforest/main.py:348 | Defines the vertical step: y advances by the velocity × dt, truncated. |
| CycleForest.Slid | Cycleforest/main.py:351 | Defines the horizontal step: x advances by the direction × 300 × dt, truncated. |
| CycleForest.ForestGame.ClampPlayer | Cycleforest/main.py:363-369 | After the clamp the player lies within the 800 × 480 screen. |
| CycleForest.ForestGame.UpdateProjectiles | Cycleforest/main.py:197-220 | The new projectiles, monsters and score are those of the pass, and nothing else changes (ProjectilesResolved). The score rises by 10 per removed monster, and monsters are never added. |
| CycleForest.ProjectilesResolved | Cycleforest/main.py:197-220 | Defines update_projectiles on the whole state: the projectiles, monsters and score of ProjectilePass. |
| CycleForest.RunProjectiles | Cycleforest/main.py:201-220 | The loops of update_projectiles give exactly ProjectilePass. |
| CycleForest.ForestGame.UpdateMonsters | Cycleforest/main.py:223-240 | Every monster moves. Unless already invincible, the first moved monster touching the player costs exactly one health point. It starts invincibility at now and knocks the player 50 px along the given vector. Otherwise health, invincibility and the player are unchanged, and nothing else changes (MonstersResolved). |
| CycleForest.Contact | Cycleforest/main.py:231-240 | Defines a monster contact: unless invincible, the first moved monster touching the player costs one health point, starts invincibility at the hit time and knocks the player back. |
| CycleForest.MonstersResolved | Cycleforest/main.py:223-240 | Defines update_monsters on the whole state: MovedMonsters, then Contact. |
| CycleForest.RunMonsters | Cycleforest/main.py:227-240 | The loop of update_monsters gives the moved monsters and the contact with the first one touching a non-invincible player. |
| CycleForest.ForestGame.CheckGameOver | Cycleforest/main.py:375-377 | The loop stops exactly when health drops to 0 or below. |
| CycleForest.ForestGame.FrameTimers | Cycleforest/main.py:281-293 | The spawn timer adds exactly one monster when strictly more than 2 s have passed, and none otherwise. Invincibility ends only after strictly more than 1 s. The direction is reset to 0. The whole state becomes Timed of the old one. |
| CycleForest.Timed | Cycleforest/main.py:281-293 | Defines the top of a pass: a monster spawned and the timer reset once strictly more than 2 s have passed, invincibility cleared after strictly more than 1 s, and the direction reset to 0. |
| CycleForest.ForestGame.FrameControls | Cycleforest/main.py:295-344 | The whole state becomes Controlled of the old one: the event loop, then the keyboard, the space jump and the stick. A quit event or the Q key stops the loop, and the input never restarts a stopped loop. |
| CycleForest.Controlled | Cycleforest/main.py:295-344 | Defines the input part of a pass: EventsApplied over the queue, then InputSteered. |
| CycleForest.ForestGame.FrameSteering | Cycleforest/main.py:322-344 | The polled input leaves the state InputSteered describes: the keyboard, the space jump, then the stick. |
| CycleForest.InputSteered | Cycleforest/main.py:322-344 | Defines the polled input: KeyboardSteered, then Jumped when space is held, then ControllerSteered. |
| CycleForest.ControlledFacts | Cycleforest/main.py:295-344 | The input part of a pass stops the game on a quit request and never restarts it. It leaves health, invincibility, the score, the monsters, the spawn timer and the player's rectangle alone. |
| CycleForest.ForestGame.FrameMovement | Cycleforest/main.py:346-369 | The whole state becomes PlayerMoved of the old one: gravity, movement and the ground test, then the clamp. Afterwards the player is inside the screen. |
| CycleForest.PlayerMoved | Cycleforest/main.py:346-369 | Defines the movement part of a pass: Fell, then KeepOnScreen. |
| CycleForest.ForestGame.FrameCombat | Cycleforest/main.py:371-377 | The whole state becomes Fought of the old one. Projectiles, monsters and the game-over test cost at most one health point, and none while invincible. The score rises by exactly 10 per destroyed monster, monsters are never added, and the loop keeps running only with health above 0. |
| CycleForest.Fought | Cycleforest/main.py:371-377 | Defines the end of a pass: ProjectilesResolved, then MonstersResolved, then the loop stops when health is 0 or below. |
| CycleForest.FoughtFacts | Cycleforest/main.py:371-377 | The end of a pass costs at most one health point, none while invincible, never adds monsters, pays 10 per destroyed monster, and leaves the loop running exactly when it was running and health is above 0. |
| CycleForest.ForestGame.Frame | Cycleforest/main.py:278-377 | The whole state becomes FrameStep of the old one, the composition of the timer, input, movement and combat stages. One frame costs at most one health point, and none inside the invincibility window. At most one monster is added, the score rises by exactly 10 per monster destroyed, and the loop stops at zero health. |
| CycleForest.FrameStep | Cycleforest/main.py:278-377 | Defines one pass of the main loop: Timed, Controlled, PlayerMoved, then Fought. |
| CycleForest.FrameStepFacts | Cycleforest/main.py:278-377 | Over one pass of the main loop: at most one health point lost and none inside the invincibility window, at most the one monster the timer allows, 10 points per monster destroyed, a stop at zero health, and no restart. |
| AsteroidShooter.MovedLasers | GameShooter/asteriodShooter.py:58 | Every laser moves up, and the order is kept. |
| AsteroidShooter.MovedLaser | GameShooter/asteriodShooter.py:58 | Defines a laser's move: y decreases by 300 × dt, truncated. |
| AsteroidShooter.LaserUpdate | GameShooter/asteriodShooter.py:56-60 | Defines laser_update as the moved lasers filtered by the on-screen test; LaserUpdateKeepsExactly states which survive. |
| AsteroidShooter.LaserOnScreen | GameShooter/asteriodShooter.py:59 | Defines laser_update's keep test: the bottom is not above the window. |
| AsteroidShooter.LaserUpdateKeepsExactly | GameShooter/asteriodShooter.py:56-60 | A laser survives laser_update exactly when, once moved, its bottom is not above the window. |
| AsteroidShooter.MovedMeteors | GameShooter/asteriodShooter.py:66 | Every meteor moves along its direction, and the order is kept. |
| AsteroidShooter.MovedMeteor | GameShooter/asteriodShooter.py:66 | Defines a meteor's move: the centre moves by its direction × 200 × dt, truncated. |
| AsteroidShooter.MeteorUpdate | GameShooter/asteriodShooter.py:62-68 | Defines meteor_update as the moved meteors filtered by the top ≤ 720 test; MeteorUpdateKeepsExactly states which survive. |
| AsteroidShooter.MeteorOnScreen | GameShooter/asteriodShooter.py:67 | Defines meteor_update's keep test: the top is not below 720. |
| AsteroidShooter.MeteorUpdateKeepsExactly | GameShooter/asteriodShooter.py:62-68 | A meteor survives meteor_update exactly when, once moved, its top is not below 720. |
| AsteroidShooter.LaserCooldown | GameShooter/asteriodShooter.py:77-82 | The cooldown never clears an allowed shot. It allows one again exactly when strictly more than the duration has passed. |
| AsteroidShooter.DeadzoneRemap | GameShooter/asteriodShooter.py:181-189 | Inside the dead zone the result is 0. Outside it the result has the input's sign and magnitude \|a\| - 0.2. Inputs in [-1, 1] map into [-0.8, 0.8]. |
| AsteroidShooter.DeadzoneMonotone | GameShooter/asteriodShooter.py:181-189 | A larger deflection never gives a smaller output. |
| AsteroidShooter.StickStepBound | GameShooter/asteriodShooter.py:192-193 | With the stick in [-1, 1], one frame moves the ship at most 640 × dt pixels per axis. |
| AsteroidShooter.LaserFrom | GameShooter/asteriodShooter.py:146 | A new laser sits on top of the ship (its bottom is the ship's top) and is centred on it. |
| AsteroidShooter.MeteorStrikesShip | GameShooter/asteriodShooter.py:220-224 | Defines a strike: the rects collide and the masks overlap at the offset of the top-left corners. |
| AsteroidShooter.ShipHit | GameShooter/asteriodShooter.py:218-227 | Defines the game-over test: some meteor strikes the ship. |
| AsteroidShooter.ScanShipHit | GameShooter/asteriodShooter.py:218-227 | The ship–meteor loop reports a hit exactly when some meteor collides by rect and by mask. |
| AsteroidShooter.FirstMeteorHit | GameShooter/asteriodShooter.py:231-236 | The index found is the first meteor, in list order, colliding with the laser; None means none does. |
| AsteroidShooter.FindMeteorHit | GameShooter/asteriodShooter.py:231-236 | The inner scan of the laser–meteor loop returns the first colliding meteor. |
| AsteroidShooter.LaserStep | GameShooter/asteriodShooter.py:231-236 | Defines one turn of the laser loop: the laser and the first meteor it touches are both removed, or nothing changes. |
| AsteroidShooter.LaserMeteorPass | GameShooter/asteriodShooter.py:229-236 | Defines the laser–meteor loop as LaserStep over the lasers in order; LaserMeteorAccounting states its properties. |
| AsteroidShooter.LaserMeteorAccounting | GameShooter/asteriodShooter.py:230-236 | Over the laser–meteor loop, lasers and meteors are lost in equal numbers, and each laser removes at most one meteor. The survivors of both lists are among the originals, and no surviving laser touches a surviving meteor. |
| AsteroidShooter.Recentered | GameShooter/asteriodShooter.py:261 | The restart centres the ship in the window and keeps its size. |
| AsteroidShooter.RecenteredIdempotent | GameShooter/asteriodShooter.py:259-265 | Re-centring twice is the same as once. |
| AsteroidShooter.RestartedIdempotent | GameShooter/asteriodShooter.py:258-273 | Restarting twice gives the same state as restarting once. |
| AsteroidShooter.Steered | GameShooter/asteriodShooter.py:173-197 | Steering keeps the size. Without a controller the ship is centred on the mouse. With one, an axis inside the dead zone does not move. |
| AsteroidShooter.ShooterGame.constructor | GameShooter/asteriodShooter.py:105-121 | The initial state: ship centred, no lasers or meteors, shooting allowed, no shot time yet, game active. |
| AsteroidShooter.ShooterGame.TryShoot | GameShooter/asteriodShooter.py:143-159 | When allowed, a shot appends exactly one laser above the ship, forbids shooting and records the time. When not allowed, no laser is added. |
| AsteroidShooter.ShooterGame.SpawnMeteor | GameShooter/asteriodShooter.py:161-166 | The meteor timer appends exactly one meteor, centred on the drawn point with the drawn heading. |
| AsteroidShooter.ShooterGame.UpdateLasers | GameShooter/asteriodShooter.py:56-60 | The in-place laser_update leaves exactly the moved lasers still on screen, in order. |
| AsteroidShooter.ShooterGame.UpdateMeteors | GameShooter/asteriodShooter.py:62-68 | The in-place meteor_update leaves exactly the moved meteors not below the window, in order. |
| AsteroidShooter.ShooterGame.SteerShip | GameShooter/asteriodShooter.py:172-200 | After steering and `clamp_ip` the ship lies inside (0, 0, 1280, 720). |
| AsteroidShooter.ShooterGame.CoolDown | GameShooter/asteriodShooter.py:213 | The main loop's cooldown call, with 400 ms, never forbids shooting. It allows it exactly when more than 400 ms have passed since the shot. |
| AsteroidShooter.ShooterGame.ShipMeteorCollision | GameShooter/asteriodShooter.py:215-227 | The game ends exactly when some meteor overlaps the ship by rect and by mask. |
| AsteroidShooter.ShooterGame.LaserMeteorCollisions | GameShooter/asteriodShooter.py:229-236 | The lists become those of the pass, and lasers and meteors are lost in equal numbers. |
| AsteroidShooter.ShooterGame.Restart | GameShooter/asteriodShooter.py:258-273 | Restart empties both lists, re-centres the ship, allows shooting and reactivates the game, and changes nothing else (Restarted). |
| AsteroidShooter.Restarted | GameShooter/asteriodShooter.py:259-265 | Defines the restart on the whole state: active, ship recentred, both lists empty, shooting allowed. |
| AsteroidShooter.TimerMeteors | GameShooter/asteriodShooter.py:161-166 | Defines the meteors a run of timer events spawns, in queue order. |
| AsteroidShooter.TimerMeteorsAbove | GameShooter/asteriodShooter.py:161-166 | At most one meteor per event, each with the meteor's size, centred at most 50 px above the window's top and at most 100 px beyond either side, with a slope in [-0.5, 0.5]. |
| AsteroidShooter.ShooterGame.HandleEvents | GameShooter/asteriodShooter.py:124-166 | While the game is over, events change nothing. While it is active, the meteors become the old ones followed by TimerMeteors of the events. If shooting was allowed and some button 0-3 or space event occurs, exactly one laser is added above the ship, shooting is forbidden and the time recorded. Otherwise lasers, canShoot and the shot time are unchanged. The whole state becomes EventPass of the old one. |
| AsteroidShooter.Shoots | GameShooter/asteriodShooter.py:143-159 | Defines the shooting events: a controller button 0-3 or the space bar. |
| AsteroidShooter.EventPass | GameShooter/asteriodShooter.py:124-166 | Defines the event loop on the whole state: nothing while the game is over. Otherwise the timer meteors are appended and, when shooting is allowed and some event shoots, one laser above the ship with the time recorded. |
| AsteroidShooter.ShooterGame.MovePhase | GameShooter/asteriodShooter.py:171-213 | The whole state becomes MovePass of the old one: steering and clamp, the held-button shot, the laser and meteor updates, then the 400 ms cooldown. Afterwards the ship lies inside the window. |
| AsteroidShooter.MovePass | GameShooter/asteriodShooter.py:171-213 | Defines the movement phase: steering and clamp, the held-button shot, LaserUpdate, MeteorUpdate, then the 400 ms cooldown. |
| AsteroidShooter.ShooterGame.CollisionPhase | GameShooter/asteriodShooter.py:215-236 | The whole state becomes CollisionPass of the old one. The collisions never reactivate the game. Afterwards no laser overlaps a meteor, and lasers and meteors are lost in equal numbers. |
| AsteroidShooter.CollisionPass | GameShooter/asteriodShooter.py:215-236 | Defines the collision phase: a ship hit ends the game, then the lists become those of LaserMeteorPass. |
| AsteroidShooter.ShooterGame.Frame | GameShooter/asteriodShooter.py:123-273 | The whole state becomes FrameStep of the old one: events, both phases while active, then the restart test. A game-over frame without a restart changes nothing. A restart after game over gives the reset state. An active frame keeps the ship in the window and leaves no laser overlapping a meteor. |
| AsteroidShooter.FrameStep | GameShooter/asteriodShooter.py:123-273 | Defines one pass of the main loop: EventPass, then MovePass and CollisionPass while active, then Restarted when the game is over and a restart is asked for. |
| TrafficPlayer.KeyboardSteering | TrafficDash/player.py:109-126 | The direction starts at zero. Right beats Left on x and Up beats Down on y, and the status follows the last key that applied. |
| TrafficPlayer.JoystickSteering | TrafficDash/player.py:130-159 | A stick axis beyond 0.2 overrides that axis, and a pushed hat overrides the stick. Hat y > 0 gives y = +1 with status up, as written. |
| TrafficPlayer.KeyboardDecidesIdleAxes | TrafficDash/player.py:110-161 | When no controller moves an axis, the keyboard alone decides it. |
| TrafficPlayer.SteeringBounded | TrafficDash/player.py:110-161 | With stick readings in [-1, 1], the direction lies in [-1, 1] on both axes. |
| TrafficPlayer.LastHatWins | TrafficDash/player.py:130-159 | A controller whose hat is pushed on an axis decides that axis, +1 or -1 by the push's sign, when every later controller is idle on it (stick inside the dead zone, hat centred). Hat y > 0 gives +1, as written. |
| TrafficPlayer.InputSteering | TrafficDash/player.py:106-161 | Defines Player.input: the keyboard stage, then each controller's stick and hat in order; KeyboardDecidesIdleAxes, SteeringBounded and LastHatWins state its properties. |
| TrafficPlayer.PlacedX | TrafficDash/player.py:48-50 | After a horizontal push, the rect's centerx and pos.x follow the new hitbox, and the rect keeps its y and size. |
| TrafficPlayer.PlacedY | TrafficDash/player.py:62-64 | After a vertical push, the rect's centery and pos.y follow the new hitbox, and the rect keeps its x and size. |
| TrafficPlayer.PushX | TrafficDash/player.py:41-54 | A touched car ends the game, whatever the direction. A non-touching obstacle, or direction x = 0, moves nothing. Moving right puts the hitbox's right on the obstacle's left, and moving left puts its left on the obstacle's right. |
| TrafficPlayer.PushY | TrafficDash/player.py:55-68 | The vertical counterpart of PushX, with bottom/top. |
| TrafficPlayer.CollideX | TrafficDash/player.py:41-54 | Defines the horizontal collision pass as PushX over the obstacles in order, stopping at a car. |
| TrafficPlayer.CollideY | TrafficDash/player.py:55-68 | Defines the vertical collision pass as PushY over the obstacles in order, stopping at a car. |
| TrafficPlayer.CollideXCrashSticks | TrafficDash/player.py:42-46 | Once a car has been touched, later obstacles do not undo the game over. |
| TrafficPlayer.CollideYCrashSticks | TrafficDash/player.py:56-60 | The same for the vertical pass. |
| TrafficPlayer.CollideXShape | TrafficDash/player.py:41-54 | The horizontal pass keeps the hitbox's size and vertical position, and the rect's size and vertical position. |
| TrafficPlayer.CollideYShape | TrafficDash/player.py:55-68 | The vertical pass keeps the hitbox's size and horizontal position, and the rect's size and horizontal position. |
| TrafficPlayer.CollideXIdle | TrafficDash/player.py:41-54 | With direction x = 0 nothing moves, and the pass ends the game exactly when a car is touched. |
| TrafficPlayer.CollideYIdle | TrafficDash/player.py:55-68 | With direction y = 0 nothing moves, and the pass ends the game exactly when a car is touched. |
| TrafficPlayer.SteppedX | TrafficDash/player.py:95-97 | Defines the horizontal step: pos.x advances by direction × 200 × dt, and the hitbox and rect are centred on round(pos.x). |
| TrafficPlayer.SteppedY | TrafficDash/player.py:101-103 | Defines the vertical step, with round(pos.y). |
| TrafficPlayer.Advanced | TrafficDash/player.py:95-101 | Defines one coordinate's step: pos advances by direction × 200 × dt. |
| TrafficPlayer.StepX | TrafficDash/player.py:95-98 | Defines move's horizontal half: SteppedX, then CollideX. |
| TrafficPlayer.StepY | TrafficDash/player.py:101-104 | Defines move's vertical half: SteppedY, then CollideY. |
| TrafficPlayer.MoveSpec | TrafficDash/player.py:88-104 | Defines the move after normalisation: StepX, then StepY unless a car ended the game; MoveAlignsCentres states its property. |
| TrafficPlayer.MoveAlignsCentres | TrafficDash/player.py:88-104 | After a move that does not end the game, the rect's centre equals the hitbox's centre on both axes. |
| TrafficPlayer.NextFrameIndex | TrafficDash/player.py:163-171 | The frame index stays in [0, frame count). Standing still gives 0, and moving adds 10 × dt until it wraps. |
| TrafficPlayer.Player.constructor | TrafficDash/player.py:6-24 | The rect is centred on the spawn point, and the hitbox is its half-height inflate. pos is the spawn point, the direction is zero, and the status is down with frame 0. |
| TrafficPlayer.Player.Input | TrafficDash/player.py:106-161 | The direction and status are those of the keyboard stage followed by every controller in order. |
| TrafficPlayer.Player.CollideHorizontal | TrafficDash/player.py:41-54 | The horizontal collision loop gives the hitbox, rect and pos.x of the pass, or the game over. |
| TrafficPlayer.Player.CollideVertical | TrafficDash/player.py:55-68 | The vertical collision loop gives the hitbox, rect and pos.y of the pass, or the game over. |
| TrafficPlayer.Player.MoveHorizontal | TrafficDash/player.py:95-98 | Step pos.x, centre the hitbox and rect on round(pos.x), then resolve horizontally. |
| TrafficPlayer.Player.MoveVertical | TrafficDash/player.py:101-104 | Step pos.y, centre the hitbox and rect on round(pos.y), then resolve vertically. |
| TrafficPlayer.Player.Move | TrafficDash/player.py:88-104 | A non-zero direction is normalised. The horizontal step and collision come before the vertical ones. |
| TrafficPlayer.Player.Animate | TrafficDash/player.py:163-173 | The frame index is advanced as NextFrameIndex says, and stays in range for the current status. |
| TrafficPlayer.ClampedLeft | TrafficDash/player.py:177-180 | Defines the left clamp: rect and hitbox moved to left = 640, and pos.x the rect's centre there. |
| TrafficPlayer.ClampedRight | TrafficDash/player.py:181-184 | Defines the right clamp: rect and hitbox moved to right = 2560, and pos.x the rect's centre there. |
| TrafficPlayer.ClampedBottom | TrafficDash/player.py:185-188 | Defines the bottom clamp: the rect moved to bottom = 3500, pos.y its centre, and the hitbox's centre y on the rect's. |
| TrafficPlayer.Restricted | TrafficDash/player.py:176-192 | Defines restrict: the three clamps in order, then below y = 1180 an upward direction becomes 0 and pos.y is raised to at least 1180 plus half the rect's height. |
| TrafficPlayer.RestrictedBounds | TrafficDash/player.py:176-192 | Afterwards right ≤ 2560 and bottom ≤ 3500, and left ≥ 640 when the width fits. Sizes are kept. Below y = 1180 the direction is not upward, and only an upward direction is changed, to 0. A rect already in the area does not move. A hitbox sharing the rect's centre x still does. |
| TrafficPlayer.Player.Restrict | TrafficDash/player.py:176-192 | The new hitbox, rect, pos and direction are exactly those of Restricted, so the bounds of RestrictedBounds hold. |
| TrafficPlayer.Player.Update | TrafficDash/player.py:194-198 | The moving parts become Updated of the old ones: input, the normalised move, animate and restrict, or the game over when move touched a car. Unless a car was touched, the player is in the area with a valid frame index, and below y = 1180 it is not moving up. |
| TrafficPlayer.Updated | TrafficDash/player.py:194-198 | Defines Player.update on the moving parts: InputSteering, the normalised MoveSpec, then Restricted and NextFrameIndex, or None when a car was touched. |
| TrafficCar.Heading | TrafficDash/car.py:26-30 | The heading is +1 exactly when the spawn x is below 200, and -1 otherwise. |
| TrafficCar.TrackedRect | TrafficDash/car.py:39 | The hitbox keeps its size and is centred within half a pixel of pos. |
| TrafficCar.Car.constructor | TrafficDash/car.py:7-35 | The rect is centred on the spawn point, the hitbox is its half-height inflate, pos is the spawn point, and the heading follows Heading. |
| TrafficCar.Car.Update | TrafficDash/car.py:37-43 | pos.x changes by ±300 × dt and pos.y not at all. The hitbox is centred on the rounded pos, and the rect on the hitbox. The car is killed exactly when rect.x ≤ -200 or ≥ 3400. |
| TrafficCar.OnRoad | TrafficDash/car.py:42-43 | Defines the survival test: -200 < rect.x < 3400. |
| TrafficMain.BottleAt | TrafficDash/waterbottle.py:10-11 | A bottle is 64 × 64 and centred on its spawn point. |
| TrafficMain.SpawnKeepsSeparated | TrafficDash/main.py:75-79 | An accepted bottle keeps every two bottle centres at least 100 apart on some axis. |
| TrafficMain.CanSpawn | TrafficDash/main.py:65-79 | Defines when spawn_water_bottle accepts a candidate: fewer than 20 bottles, and no bottle closer than 100 px on both axes. |
| TrafficMain.RemoveKeepsSeparated | TrafficDash/main.py:154 | Killing a bottle keeps the others separated. |
| TrafficMain.CheckBottleCollision | TrafficDash/main.py:99-107 | There is no hit without a rect overlap. A hit needs the mask at the offset of the top-left corners, and a rect overlap with a mask hit is a hit. |
| TrafficMain.CollectedMissedPartition | TrafficDash/main.py:152-158 | Every visited bottle is either collected or missed, and the missed ones are exactly those that fail the check. |
| TrafficMain.Collected | TrafficDash/main.py:152-158 | Defines the bottles the pickup loop collects: those passing the check, in order. |
| TrafficMain.Missed | TrafficDash/main.py:152-158 | Defines the bottles the pickup loop leaves: those failing the check, in order. |
| TrafficMain.NextRecent | TrafficDash/main.py:134-141 | An unused start is appended. A list without duplicates stays without them. A list of at most 5 stays at most 5, and a longer list does not grow. |
| TrafficMain.RecentStaysShort | TrafficDash/main.py:134-141 | From a start list without duplicates and at most 5 long, the recent list stays so over any run of car-timer events. |
| TrafficMain.RecentAfter | TrafficDash/main.py:134-141 | Defines the recent list after a run of car-timer events, NextRecent applied per event; RecentStaysShort states its invariant. |
| TrafficMain.World.constructor | TrafficDash/main.py:54-57 | A new session has no bottles, score 0, and the given recent list. |
| TrafficMain.World.SpawnWaterBottle | TrafficDash/main.py:65-79 | A bottle is added exactly when fewer than 20 exist and the candidate is clear of all of them. The cap, the separation and the spawn area are kept. |
| TrafficMain.SpawnAttempt | TrafficDash/main.py:65-79 | Defines one spawn_water_bottle call: the bottle is appended exactly when CanSpawn accepts the candidate. |
| TrafficMain.SpawnAttempts | TrafficDash/main.py:123-125 | Defines n spawn attempts in a row, the k-th at draw k. |
| TrafficMain.SpawnAttemptsKeep | TrafficDash/main.py:123-125 | A run of attempts only appends, at most one bottle per attempt, keeps the bottles separated and never passes the cap of 20. |
| TrafficMain.World.InitialSpawn | TrafficDash/main.py:123-125 | The bottles become exactly those of twenty attempts at draws 0 to 19. So the old bottles stay first and at most 20 are added. |
| TrafficMain.World.BottleTimer | TrafficDash/main.py:142-143 | The bottle timer's result is exactly SpawnAttempt: the cap test before the call changes nothing. |
| TrafficMain.World.CarTimer | TrafficDash/main.py:134-141 | A car is created exactly when the start is not among the recent ones, with its y jittered by at most 8. The recent list becomes NextRecent. |
| TrafficMain.World.Collect | TrafficDash/main.py:154-158 | A collected bottle is removed and the score rises by exactly 1. The replacement is added exactly when CanSpawn accepts it against the remaining bottles. |
| TrafficMain.World.Visit | TrafficDash/main.py:152-158 | A visited bottle is collected, scoring exactly 1, when the check holds. Otherwise nothing changes. A replacement is added exactly when the bottle is collected and CanSpawn accepts it. The live list stays the bottles missed so far, the unvisited ones, then the spawned ones. |
| TrafficMain.World.Pickup | TrafficDash/main.py:152-158 | The score rises by exactly the number of collected bottles. The bottles become the missed ones followed by exactly the Replacements spawned, at most one per collected bottle, so the count never grows. |
| TrafficMain.Replacements | TrafficDash/main.py:154-158 | Defines the replacement bottles the pickup loop spawns: one attempt per collected bottle, at the next draw, against the live list of that moment. |
| TrafficMain.ReplacementsBound | TrafficDash/main.py:154-158 | The pickup loop spawns at most one replacement per collected bottle. |
| AssetsConfig.Names | Cycleforest/assets_config.py:8-34 | The theme names in table order. |
| AssetsConfig.Find | Cycleforest/assets_config.py:38 | A lookup succeeds exactly for a name in the table, and returns that name's theme. |
| AssetsConfig.AvailableThemes | Cycleforest/assets_config.py:59-62 | The available themes are ["default", "forest"], in that order. |
| AssetsConfig.FileOfKeys | Cycleforest/assets_config.py:41-43 | The file lookup succeeds exactly for the theme's file keys, which excludes "scale". |
| AssetsConfig.FileOf | Cycleforest/assets_config.py:43 | Defines `assets[key]` for a key whose value is a file name, and None for "scale" and unknown keys. |
| AssetsConfig.ThemeFilesPlain | Cycleforest/assets_config.py:8-34 | No file name of any theme holds a '/'. |
| AssetsConfig.ScalesAgree | Cycleforest/assets_config.py:8-34 | Both themes give the same sprite sizes, and there is none for the background or the music. |
| AssetsConfig.InDirEndsWithFile | Cycleforest/assets_config.py:43 | The joined path ends with the file name. |
| AssetsConfig.InDir | Cycleforest/assets_config.py:43 | Defines `os.path.join(base, dir, file)`. |
| AssetsConfig.MissingImages | Cycleforest/assets_config.py:68-73 | At most one missing-image entry per key. |
| AssetsConfig.MissingImagesEmpty | Cycleforest/assets_config.py:68-73 | No image is reported exactly when every image key's file exists. |
| AssetsConfig.AssetLoader.constructor | Cycleforest/assets_config.py:37-39 | An unknown theme name falls back to "default". The assets are that theme's, and the base directory is the script's directory. |
| AssetsConfig.AssetLoader.ImagePath | Cycleforest/assets_config.py:41-43 | The image path exists exactly for a file key, and is BASE_DIR/image/file. |
| AssetsConfig.AssetLoader.Scale | Cycleforest/assets_config.py:49-51 | get_scale gives 150×150, 200×200 or 60×60 for player, monster and projectile, and None for any other key. |
| AssetsConfig.AssetLoader.ChangeTheme | Cycleforest/assets_config.py:53-57 | A known name becomes the theme, with its assets. An unknown name changes nothing. The invariant that `assets` is THEMES[theme] is kept. |
| AssetsConfig.AssetLoader.MissingImageFiles | Cycleforest/assets_config.py:64-73 | The loop reports exactly the missing image files, in key order. |
| AssetsConfig.AssetLoader.VerifyAssetsExist | Cycleforest/assets_config.py:64-85 | The report lists the missing images and then the missing music. The result is true exactly when the report is empty, which is exactly when every image and the music exist. |
| AssetsConfig.AllImagesPresent | Cycleforest/assets_config.py:64-73 | No image is reported exactly when every image path of the loader exists on disk. |
| AssetsConfig.LoaderPathsUnderBase | Cycleforest/assets_config.py:43-47 | Every image path lies directly in BASE_DIR/image, and the music path directly in BASE_DIR/music. |
| Launcher.HexValue | main.py:243-245 | A hex digit has a value below 16. |
| Launcher.HexChar | main.py:253 | The digit written for v < 16 is a lowercase hex digit that reads back as v. |
| Launcher.LowerHex | main.py:253 | Lowercasing a digit keeps its value. |
| Launcher.HexCharOfValue | main.py:243-253 | Reading a digit and writing it back gives the lowercase digit. |
| Launcher.LStripHashSpec | main.py:240 | Stripping removes exactly the leading '#' characters and keeps the rest. |
| Launcher.LStripHashPrefix | main.py:240 | An extra leading '#' makes no difference to the stripped colour. |
| Launcher.LStripHash | main.py:240 | Defines `str.lstrip('#')`; LStripHashSpec states what it removes. |
| Launcher.Slice | main.py:243-245 | String slicing clamps its indices to the string. |
| Launcher.TrimLeftSpec | main.py:243-245 | `int()` strips the leading whitespace and nothing else. |
| Launcher.TrimLeft | main.py:243-245 | Defines the leading-whitespace strip of `int()`. |
| Launcher.TrimRight | main.py:243-245 | Defines the trailing-whitespace strip of `int()`. |
| Launcher.TrimRightSpec | main.py:243-245 | `int()` strips the trailing whitespace and nothing else. |
| Launcher.DigitsValueBound | main.py:243-245 | n hex digits read as less than 16^n. |
| Launcher.ParseShortBound | main.py:243-245 | A field of at most two characters reads as at most 255. |
| Launcher.ParseTwoDigits | main.py:243-245 | Two hex digits read as 16 × first + second. |
| Launcher.ParseInt16 | main.py:243-245 | Defines `int(s, 16)`: surrounding whitespace, an optional sign and one or more hex digits, and None (ValueError) otherwise. |
| Launcher.Hex | main.py:253 | `format(n, 'x')` is lowercase hex, one digit exactly for n < 16. |
| Launcher.HexDenotes | main.py:253 | The digits of `format(n, 'x')` read back as n, and the first digit is '0' only when n < 16. |
| Launcher.Pad2 | main.py:253 | `format(n, '02x')` has at least two lowercase digits, and exactly the two digits of n for n < 256. |
| Launcher.DarkenChannel | main.py:248-250 | For a factor in [0, 1] the channel is at most max(0, c). Factor 0 gives max(0, c), and factor 1 gives 0. A factor of 1 or more zeroes a non-negative channel. |
| Launcher.Render | main.py:253 | The output is '#' and the three padded channels, seven characters for channels below 256. |
| Launcher.Channels | main.py:240-245 | Defines the three channels read from the fields [0:2], [2:4] and [4:6] of the stripped colour, or None when one is rejected. |
| Launcher.DarkenColor | main.py:237-253 | Defines darken_color: the channels darkened and rendered, or None for a ValueError; DarkenColorFormat and the lemmas after it state its properties. |
| Launcher.ChannelsBounded | main.py:243-245 | Every channel read is at most 255. |
| Launcher.DarkenColorFormat | main.py:248-253 | For a factor in [0, 1] the result is '#' and exactly six lowercase hex digits. |
| Launcher.DarkenColorIgnoresHash | main.py:240 | "#3498db" and "3498db" give the same result. |
| Launcher.LowerAll | main.py:253 | Lowercasing keeps the length. |
| Launcher.FieldRoundTrip | main.py:243-253 | A two-digit field read and written back with factor 0 is the field in lowercase. |
| Launcher.DarkenByZeroIsLowercase | main.py:237-253 | With factor 0, a colour of six hex digits comes back as '#' and the same digits in lowercase. |
| Launcher.DarkenFullyIsBlack | main.py:248-253 | Factor 1, or a larger factor with non-negative channels, gives "#000000". |
| Launcher.NegativeFieldBrightens | main.py:243-253 | A signed field such as "-f" is accepted by `int()`. With a factor above 1 it gives a positive channel: "-f0000" darkened by 2 is "#0f0000". |
| Paths.Join | TrafficDash/utils.py:9 | An absolute second part replaces the first. Otherwise a '/' is inserted unless the first is empty or ends in one. |
| Paths.JoinAll | TrafficDash/utils.py:25 | Defines `join(a, *parts)` as Join applied part by part from the left; JoinAllPlain states its layout. |
| Paths.JoinEndsWith | TrafficDash/utils.py:9 | The joined path always ends with the second part. |
| Paths.RStripSep | TrafficDash/utils.py:5 | Trailing '/' are removed, and nothing else. |
| Paths.HeadLength | TrafficDash/utils.py:5 | The head ends just after the last '/', and no '/' follows it. |
| Paths.Dirname | TrafficDash/utils.py:5 | The directory is a prefix of the path. |
| Paths.JoinAllPlain | TrafficDash/utils.py:25 | Joining plain names onto a path not ending in '/' writes each after a '/'. |
| Paths.DirnameOfJoin | TrafficDash/utils.py:5-9 | `dirname` undoes a join with a plain name. |
| TrafficUtils.ProjectRoot | TrafficDash/utils.py:3-5 | The project root is a prefix of the script's path. |
| TrafficUtils.GamePath | TrafficDash/utils.py:7-9 | The game path ends with the game name, and starts with the root for a relative name. |
| TrafficUtils.AssetPath | TrafficDash/utils.py:11-25 | With no parts the asset path is the project root. |
| TrafficUtils.AssetPathIgnoresGame | TrafficDash/utils.py:21-25 | The asset path does not depend on the game name. |
| TrafficUtils.AssetPathLayout | TrafficDash/utils.py:21-25 | The asset path is the project root followed by '/' and each part. Its directory is the asset path of all parts but the last. |
| TrafficUtils.GamePathUnderRoot | TrafficDash/utils.py:7-9 | The game path is root/name, and its directory is the project root. |

## Left out

- Rendering, sound, music, fonts and image loading are left out, as is printing.
  Image sizes and animation frame counts are constructor parameters.
- Process exits (`pygame.quit`/`sys.exit`) are state flags: `running` in Cycle
  Forest, `crashed` for a car contact in Traffic Dash, and `gameActive` in
  Asteroid Shooter.
- Clock reads, random draws, controller and keyboard readings and the file system
  are method parameters or predicates. The ranges of the draws are preconditions.
- `pygame.error` raised by a controller is not modelled: the model assumes no
  controller read fails.
- Float arithmetic is modelled as exact real arithmetic. Rounding of floats, such
  as 0.1 + 0.2, is not modelled.
- Vector normalisation:
  - Player.Move: the length of the direction is a parameter `mag` with
    `mag * mag` equal to the squared length, because there is no square root.
  - CycleForest.ForestGame.UpdateMonsters: the knockback direction is a
    parameter, because `normalize` is float-only and fails when the centres
    coincide.
- Pixel masks are a predicate over the offset between the two rects. Whatever it
  answers, a mask is consulted only after a rect overlap, as in the source.
- Cycle Forest's theme reload (`change_theme` in Cycleforest/main.py:260-274)
  reloads images and music, and is not part of this model. Only the theme name
  is tracked.
- CycleForest.ForestGame.Valid does not include the fact that `theme` is an
  available theme. SwitchTheme and the constructor state it for the theme they
  set.
- Asteroid Shooter:
  - The restart test reads the last event of the frame's event loop, a variable
    that leaks from that loop, for button 1. That condition and the R key are
    given together as one boolean input per frame.
  - Controller hot-plugging (`JOYDEVICEADDED`), music and the quit keys are
    not modelled.
- Traffic Dash:
  - `settings.py` is not part of this model. Car start positions are
    parameters, and obstacles are given as a list of hitboxes, each flagged when
    it is a car.
  - The setup loops at TrafficDash/main.py:111-121 rebind `pos_list`, so the
    car timer's recent list starts as the last long-object position list. The
    World constructor takes that list as a parameter.
  - Sprite groups are lists: the bottles in spawn order and the obstacles in
    group order.
- Traffic Dash's `QUIT` event, and the event loop of TrafficDash/main.py:130-143
  as a whole, are not modelled as a fold over the queue. Each timer event is its
  own method (World.CarTimer, World.BottleTimer), and quitting ends the process.
- Clock readings:
  - Asteroid Shooter reads `get_ticks` several times in a frame
    (GameShooter/asteriodShooter.py:79, 149, 158, 207). The model uses one reading
    per frame for all of them.
  - Cycle Forest reads the clock once per shot (Cycleforest/main.py:176), once at
    the top of a pass (Cycleforest/main.py:282) and once per monster hit
    (Cycleforest/main.py:235). The model takes a reading per event, one for the
    timers and one for hits.
- Launcher: `int(s, 16)` is modelled for ASCII whitespace, an optional sign and
  ASCII hex digits. Underscores, a `0x` prefix and non-ASCII digits or whitespace
  are not modelled, and they do not occur in colours.
- Launcher.DarkenFullyIsBlack: stated for factor 1, and for factors above 1 only
  with non-negative channels, because a signed field such as "-f" gives a
  positive channel (Launcher.NegativeFieldBrightens).
- `abspath` is not modelled: the absolute script path is a parameter.
  `posixpath.join` and `dirname` are modelled for '/' separators only.
- `get_music_path` (AssetsConfig.AssetLoader.MusicPath) has no contract of its own.
  Its location is stated by AssetsConfig.LoaderPathsUnderBase.
