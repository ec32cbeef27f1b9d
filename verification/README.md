# A verified model of the shooter's simulation tick

This project models the game-state core of `script.js`, a browser top-down shooter. The player
rotates, moves and fires. Waves of zombies spawn at the left edge and chase or wander. A fixed
table of levels sets how many zombies a wave holds and how many ticks pass between spawns.

The session lives in two classes that are updated in place, as the source updates its module-level
variables and its `player` object:

- `Shooter.Player` holds the position, facing and hit points.
- `Shooter.Game` holds `bullets`, `zombies`, `target`, `currentLevel`, `zombiesToSpawn`,
  `zombiesKilled`, `spawnTimer`, `score` and `gameRunning`.

Its methods follow `initGame`, `startLevel`, `advanceLevel`, `onLevelComplete`, `onGameOver`,
`shoot`, `spawnZombie`, `updateZombie` and `update`. The bullet loop runs in reverse and splices
in place, as in the source.

The methods are specified at three levels:

- `Update`, `MovePlayer`, `RunSpawnClock`, `RunHorde`, `InitGame` and `AdvanceLevel` state the
  new `Director.Session` value of the game.
- `UpdateZombie` is stated against `Horde.Think`, `ResolveAt` against `Combat.Resolve` and
  `RunBullets` against `Combat.Volley`.
- `StartLevel`, `OnLevelComplete`, `OnGameOver`, `Shoot`, `SpawnZombie`, `SpliceBullet` and
  `StrikeZombie` state the fields they set directly.

`Director.Tick` is one `update` call on a `Session` value. It is built from five phases: move,
spawn clock, zombie AI, bullet pass and completion check. The phases are defined through the
functions `SpawnClock.Step`, `Horde.Think`/`Horde.March` and `Combat.Resolve`/`Combat.Volley`.
The lemmas below state what the source promises about those functions.

Modules: `Geometry` (clamp, circle test), `Levels` (the level table), `Entities` (records and
constructors), `SpawnClock`, `Horde` (per-zombie counters and contact damage), `Combat` (the
bullet pass), `Director` (the tick on values) and `Shooter` (the classes).

Geometry is exact arithmetic over the reals:

- `dist(a, b) < r` is decided as "squared distance < r²", with r > 0.
- The steering vector and facing of each zombie are inputs: a `Horde.Draw` for each zombie index.
- The `Math.random()` draws are inputs too, and so are `cos`/`sin` of the player's angle for `shoot`.

## Model

| member | source | states |
|---|---|---|
| `Geometry.Clamp` | script.js:282-283 | The result lies in [lo, hi] whenever lo ≤ hi. A value already in range is kept. A value below lo gives lo, and a value above hi gives hi. |
| `Director.Turn` | script.js:267-268 | The angle changes by +rotationSpeed with only ArrowRight held, by -rotationSpeed with only ArrowLeft held, and by nothing otherwise. |
| `Director.Stride` | script.js:271-280 | Each axis moves at most `speed`. An axis does not move exactly when its two keys are both held or both released. Without a diagonal the step is ±speed. |
| `Director.StrideDiagonal` | script.js:277-280 | With one vertical and one horizontal key held, each axis moves ±speed·(1/√2), with the sign of its key. The squared step length lies in (8.9999, 9], so it equals the axial 3² up to the rounding of 1/√2. |
| `Director.Steer` | script.js:266-283 | Hit points are unchanged and the angle moves by `Turn`. For any keys, x ≥ radius and y ≥ radius. x ≤ width-radius and y ≤ height-radius whenever the canvas is at least 2·radius wide and high. A move that stays in range is taken exactly. |
| `SpawnClock.Step` | script.js:286-293 | A spawn takes one zombie from the queue and resets the timer to 0. The queue never goes negative. An empty queue leaves the clock alone. The timer stays within [0, interval]. A timer at the interval spawns on the next tick. |
| `SpawnClock.TicksAccount` | script.js:286-293 | Over n ticks the queue stays ≥ 0. Spawned plus still queued equals what was queued. At most one zombie spawns per tick. |
| `SpawnClock.Quiet` | script.js:286-293 | Ticks that do not bring the timer to the interval only count up and spawn nothing. |
| `SpawnClock.Due` | script.js:286-293 | From timer t < interval with zombies queued, exactly one zombie spawns after interval - t ticks, and the timer is back at 0. |
| `SpawnClock.Drained` | script.js:286 | With nothing queued, any number of ticks leaves the clock unchanged. |
| `SpawnClock.Cadence` | script.js:171 | Starting from the interval, as `startLevel` sets it: after 1 + m·interval ticks exactly min(k, m+1) of k queued zombies have spawned. So the first tick spawns, then one spawn follows every interval ticks until the queue is empty. |
| `Horde.CountDown` | script.js:210-211 | `max(0, c-1)` is never negative, is c-1 for c ≥ 1 and is 0 otherwise. |
| `Horde.Think` | script.js:208-259 | The zombie's hit points are untouched. It moves by speed × the steering vector and keeps its facing when that vector is zero. The flash and damage cooldowns count down to 0 and never below. Chasing keeps the wander heading. A blow lands exactly when the pre-move distance is below the sum of radii and the cooldown was at most 1. A blow resets the cooldown to 50. |
| `Horde.ThinkRecord` | script.js:208-250 | maxHp, detectionRadius and separationRadius stay. While chasing, or with wanderTimer > 1, the heading is kept and the timer becomes max(0, t-1). Out of range with wanderTimer ≤ 1, the heading becomes (angleRoll - 0.5)·π/2 and the timer 60 + delayRoll·90. A non-zero steering vector sets the facing to `heading`. |
| `Horde.MarchEach` | script.js:295-298 | The AI loop keeps every zombie: none is removed for leaving the screen. Zombie k becomes its own `Think` result. The pass hurts no zombie, so an all-alive list stays all alive. |
| `Horde.MarchDamage` | script.js:255-259 | The player loses exactly 10 per blow. The running flag is cleared exactly when some blow landed and hit points ended ≤ 0. Later zombies still run after game over. |
| `Combat.LastTouched` | script.js:321-335 | The index is the last zombie the bullet touches, or -1 when it touches none: no zombie after it is touched. |
| `Combat.FindTouched` | script.js:321-335 | The reverse scan stops at the highest touched index, or -1. This is the same index as `LastTouched`. |
| `Combat.ResolveFate` | script.js:301-318 | A bullet survives, moved, exactly when it is on the playfield, outside the live target and touching no zombie. A surviving bullet or one that left the playfield changes nothing else. |
| `Combat.ResolveTarget` | script.js:311-318 | The target changes exactly when the moved bullet is inside the live box. It then loses 20 health and stays alive only above 0. The bullet is used up, and the rest of the board is untouched: zombies, kills, score, and the box's position and size. |
| `Combat.ResolveAccounts` | script.js:320-335 | Score rises by exactly 10 per kill, a kill consumes the bullet, and at most one kill happens per bullet. Zombies leave the list only as kills, and no zombie with hp ≤ 0 stays in it. |
| `Combat.ResolveStrikesLast` | script.js:320-335 | When the zombie list changes, the bullet touched some zombie and the target is spared. The struck zombie is the last one touched. It loses 20 hp and gets flashT = 8, or it is spliced out when its hp was ≤ 20. |
| `Combat.ResolveStrikesTouched` | script.js:320-333 | A moved bullet that stays on the playfield, misses the live target and touches some zombie is used up. At hp ≤ 20 the last touched zombie is spliced out, with kills +1 and score +10. Otherwise it loses 20 hp and gets flashT = 8. Either way nothing else on the board changes. |
| `Combat.ResolveSparesOthers` | script.js:321-334 | When no zombie is removed, every zombie except the last one touched is unchanged. |
| `Combat.VolleyAccounts` | script.js:301-337 | Over the whole pass: score rises by 10 × kills, and kills are at most the number of bullets used up. Alive zombies plus kills are conserved. Every bullet left in flight is inside the playfield. |
| `Combat.VolleyKeepsOrder` | script.js:301-337 | The bullets still in flight are a subsequence of the moved bullets: some bullets are dropped, none are reordered and none are created. |
| `Director.TickConserves` | script.js:263-346 | From a running session with a loaded level, a tick keeps queued + alive + killed equal to the level's zombieCount. The timer stays within the interval, no dead zombie remains, and the level index is unchanged. |
| `Director.TickScores` | script.js:263-346 | In one tick score rises by exactly 10 × the rise in kills. Kills never fall and never exceed the bullets used up. |
| `Director.TickHalts` | script.js:339-343 | After a running tick the game still runs exactly when the level is not complete and the player was not hit down to hp ≤ 0 in that tick. |
| `Director.CompleteByKills` | script.js:340-341 | Under conservation, the three-part completion test holds exactly when every zombie of the wave has been killed. |
| `Entities.Fire` | script.js:103-110 | No ensures. It is the bullet record that `shoot` pushes. `Shooter.Game.Shoot` states that exactly this record is appended. |
| `Entities.Spawned` | script.js:126-142 | No ensures. It is the zombie record that `spawnZombie` pushes, with the two random draws as inputs. `Shooter.Game.SpawnZombie` states that exactly this record is appended. |
| `Horde.Decay` | script.js:210-212 | No ensures. These are the three countdowns at the head of `updateZombie`. `Horde.Think` states the flash and damage countdowns through `Horde.CountDown`. `Horde.ThinkRecord` states the wander timer's max(0, t-1) when no redraw follows. |
| `Horde.Redraw` | script.js:224-227 | No ensures. This is the wander redraw when out of range with the timer run out. `Horde.ThinkRecord` states when it happens and the heading and timer it draws. |
| `Horde.Move` | script.js:245-250 | No ensures. This is the step along the steering vector and the facing update. `Horde.Think` states the new position and the kept facing for a zero vector. `Horde.ThinkRecord` states the facing `heading` for a non-zero vector. |
| `Horde.March` | script.js:295-298 | No ensures. It is the AI loop over the zombie list in index order. `Horde.MarchEach` and `Horde.MarchDamage` specify it. `Shooter.Game.RunHorde` is proved equal to it. |
| `Horde.Visit` | script.js:255-258 | No ensures. It is the loop state after one more zombie: the new record is appended, a blow costs 10 hp and clears the running flag at hp ≤ 0. `Horde.MarchDamage` states its accumulated effect. |
| `Combat.Resolve` | script.js:302-336 | No ensures. It is one iteration of the bullet loop. `Combat.ResolveFate`, `ResolveTarget`, `ResolveAccounts`, `ResolveStrikesLast`, `ResolveStrikesTouched` and `ResolveSparesOthers` specify it. `Shooter.Game.ResolveAt` is proved equal to it. |
| `Combat.Volley` | script.js:301-337 | No ensures. It is the whole reverse bullet loop. `Combat.VolleyAccounts` and `Combat.VolleyKeepsOrder` specify it. `Shooter.Game.RunBullets` is proved equal to it. |
| `Director.MovePhase` | script.js:266-283 | No ensures. It is the rotation and movement part of `update`, through `Director.Steer`, whose ensures state it. `Shooter.Game.MovePlayer` is proved equal to it. |
| `Director.SpawnPhase` | script.js:285-293 | No ensures. It is the spawn clock part of `update`, through `SpawnClock.Step`, whose ensures state it. `Shooter.Game.RunSpawnClock` is proved equal to it. |
| `Director.HordePhase` | script.js:295-298 | No ensures. It is the AI loop part of `update`, through `Horde.March`. `Shooter.Game.RunHorde` is proved equal to it. |
| `Director.BulletPhase` | script.js:300-337 | No ensures. It is the bullet loop part of `update`, through `Combat.Volley`. |
| `Director.ClearPhase` | script.js:339-343 | No ensures. It is the completion check that calls `onLevelComplete`. `Director.TickHalts` states its effect. |
| `Director.LevelComplete` | script.js:340-341 | No ensures. It is the three-part completion test. `Director.CompleteByKills` states its meaning under conservation. |
| `Director.Tick` | script.js:263-346 | No ensures. It is one `update` call on session values. `Director.TickConserves`, `TickScores` and `TickHalts` specify it. `Shooter.Game.Update` is proved equal to it. |
| `Shooter.Player.constructor` | script.js:80-89 | The player starts at the given position, facing 0 and at 100 hit points. |
| `Shooter.Game.constructor` | script.js:145-151 | Before `initGame`, nothing is running and every counter is 0. The player is at (width/2, height/3) and the target is fresh. |
| `Shooter.Game.StartLevel` | script.js:167-175 | The queue is set to the level's zombieCount, kills to 0 and the timer to the level's spawnInterval. Zombies and bullets are emptied. When the index is the current level, the level is loaded. |
| `Shooter.Game.InitGame` | script.js:153-165 | Also resets the player to the canvas centre, angle 0 and full hp. Score and level go to 0, the target is fresh, and the game runs at level 0 with level 0 loaded. |
| `Shooter.Game.OnLevelComplete` | script.js:177-178 | Clears the running flag. |
| `Shooter.Game.OnGameOver` | script.js:194-195 | Clears the running flag and nothing else. |
| `Shooter.Game.AdvanceLevel` | script.js:183-192 | Stopped or running, the level index goes up by 1. Past the last level nothing else changes. Otherwise the game runs and the new level is started. Afterwards the game runs only with an index inside the table. |
| `Shooter.Game.Shoot` | script.js:102-111 | Appends one bullet at the player's position, flying along the given (cos, sin) of the facing, with radius 5 and speed 6. |
| `Shooter.Game.SpawnZombie` | script.js:125-143 | Appends one zombie at x = -30 with 60 hp and all counters at 0. |
| `Shooter.Game.Displacement` | script.js:271-280 | The w/s/a/d branches and the diagonal scaling compute exactly the step `Director.Stride` specifies. |
| `Shooter.Game.MovePlayer` | script.js:266-283 | The player's new state is `Steer` of the old one. |
| `Shooter.Game.RunSpawnClock` | script.js:285-293 | Queue, timer and zombie list change as `SpawnClock.Step` says. A spawn appends one new zombie. |
| `Shooter.Game.UpdateZombie` | script.js:208-260 | Zombie i becomes its `Think` result. The player loses 10 on a blow. The running flag clears when that blow leaves hp ≤ 0. |
| `Shooter.Game.RunHorde` | script.js:295-298 | The zombies, player hp and running flag end as `Horde.March` over the list gives them. |
| `Shooter.Game.SpliceBullet` | script.js:307 | Removes exactly bullet i and keeps the rest in order. |
| `Shooter.Game.StrikeZombie` | script.js:323-331 | Zombie j loses 20 hp and flashes. At ≤ 0 hp it is spliced out, kills rise by 1 and score by 10. Otherwise nothing else changes. |
| `Shooter.Game.ResolveAt` | script.js:302-336 | One loop iteration: bullet i is replaced by what `Combat.Resolve` keeps of it, and the board becomes what `Resolve` gives. |
| `Shooter.Game.RunBullets` | script.js:301-337 | The reverse splice loop leaves bullets and board exactly as `Combat.Volley` gives them. |
| `Shooter.Game.Update` | script.js:263-346 | The new session is `Director.Tick` of the old one, so every `Director` lemma applies. A stopped game is left unchanged. The session invariant is kept: running implies a loaded, conserved level. |

## Left out

- Sprite loading, canvas drawing, the HUD and the overlay screens are presentation code, so they are not modelled (script.js:15-40, 55-63, 349-467). Only the state effects of `onLevelComplete`, `onGameOver` and `advanceLevel` are modelled.
- Button and keyboard listeners are event wiring (script.js:65-76, 92-97). Held keys are the `Director.Keys` input of a tick, and a space press is a call of `Shoot`.
- The `requestAnimationFrame` loop is host scheduling (script.js:470-483). The model has one `Update` step.
- `Math.hypot` is not modelled. Circle tests compare squared distances over the reals, so rounding is not modelled.
- `normalize`, chase and wander steering, separation and `atan2` are not modelled (script.js:201-206, 214-223, 228-250). The steering vector and facing of zombie k come in as `draws(k)`. The wander redraw of lines 224-227 is modelled by `Horde.Redraw` and stated in `Horde.ThinkRecord`.
- The separation strength 2.5 and the chase direction are not checked against the zombie positions.
- `Math.random` is an input: the spawn row, the speed and the wander draws.
- `Math.PI` and `1 / Math.sqrt(2)` are written as the decimals of their doubles. All arithmetic is exact over the reals, not IEEE doubles.
- Director.Stride: diagonal and axial speed are equal only up to the rounding of 1/√2. `Director.StrideDiagonal` bounds the squared diagonal step within (8.9999, 9], not at exactly 9.
- `bobT` only animates the sprite, so it is not modelled (script.js:138, 209).
- Shooter.Game.AdvanceLevel: a running game at the last level is not covered. In script.js that call would leave `gameRunning` true with `currentLevel` past `LEVELS`, and the next `update` would read an undefined level. No button sequence reaches it, because the only way to run again with the next-level button still shown is `initGame`, which restarts at level 0.
- Zombies and bullets are records held in sequences rather than shared objects. The source keeps no other reference to them, so no aliasing is lost.
- The inner zombie scan of the bullet loop is a search (`Combat.FindTouched`) followed by `StrikeZombie`. The source strikes and then breaks at once, so the two agree.
- The canvas width and height are fixed at construction.

## Behaviour of script.js worth noting

- Game over does not end the tick. `onGameOver` only clears `gameRunning`. The remaining zombies, the bullet pass and the completion check still run, so one tick can end with hp ≤ 0 and the level complete.
- `advanceLevel` does not reset the player's hit points.
- The contact-damage cooldown is counted down before the test. A blow therefore lands when the cooldown was at most 1 at the start of the tick.
- The game has no pause state. There is no positional guard on contact damage, but the clamp keeps the player 24 inside each edge, so a zombie can land a blow only once its centre is less than 20 outside the canvas edge.
- Past the last level, `advanceLevel` leaves `currentLevel` one beyond the table. It shows the game-over screen with the final score.
- The wave invariant "queued + alive + killed = zombieCount" holds at every tick boundary while a level is loaded (`Director.TickConserves`).
