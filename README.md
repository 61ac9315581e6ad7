# Tilt-fire game loop in Dafny

A model of the game logic of a small mobile arcade game. A lava cannon at the bottom of the screen moves left and right as the phone tilts. A tap fires a fireball (a *bullet*) upward. Meteors (*enemies*) spawn above the top edge and fall. Each bullet destroys the first meteor it overlaps. The game is over when a meteor reaches the ground or strikes the cannon; a tap then restarts it.

The whole game is one React component, `App.js`. The model keeps its logic and drops its rendering and platform glue:

- `Entities` (entities.dfy): the game's size and speed constants, the `Entity` record (id and top-left corner), the screen size, and identifier lists.
- `Sequences` (sequences.dfy): order-preserving subsequences and `RemoveAt`, which is `splice(i, 1)`.
- `Motion` (motion.dfy): the move phase of a tick, the ground check and the off-screen filter.
- `Collisions` (collisions.dfy): the bullet/meteor box test, the first-match-wins bullet scan, and the meteor/cannon test.
- `Session` (session.dfy): the session as a value (`State`), one function per event (tilt, spawn, tap, restart, tick), the invariant every reachable state keeps, and the lemmas about the tick.
- `App` (game.dfy): the class `Game`. Its fields are the component's state and its methods are the event handlers. Each method is proved to do to the fields what the matching `Session` function does to a `State`, and to keep `Valid()`.

Inputs the source gets from the platform are parameters:

- the tilt sample (`tilt`);
- the `Math.random()` sample for a spawn position (`rand`, in `[0, 1)`);
- the window size (`Screen`, fixed for a session).

Identifiers come from a counter (`Game.nextId`) instead of timestamp-plus-random strings, so freshness can be proved. Coordinates are `real`.

The source gates every handler on `gameOver`: the tick and spawn timers are torn down and the tilt listener returns early. In the model, a tick, a spawn or a tilt on a finished game returns the state unchanged, and a tap restarts.

The meteor/cannon test compares against `screenHeight - PLAYER_HEIGHT - 25` (App.js:133), the top of the cannon as drawn (`bottom: 25`, App.js:254). The ground check uses a margin of 20 (App.js:89).

The off-screen meteor filter (App.js:100-102) is dead code. A meteor that passed the ground check has `y < screenHeight - 20 - ENEMY_SIZE`, hence `y < screenHeight + ENEMY_SIZE`, so the filter keeps it. `Motion.DropPastBottomAfterGroundCheck` proves this. The tick lemmas in `Session` therefore state the scan's result directly on the fallen meteors.

## Model

| member | source | states |
|---|---|---|
| `Motion.Rise` | App.js:80-81 | every bullet moved up by 12, same count, same order, nothing else changed |
| `Motion.DropPastTop` | App.js:82 | keeps exactly the bullets with `y > -BULLET_HEIGHT`, as an order-preserving subsequence |
| `Motion.BelowTop` | App.js:82 | the filter's test: some part of the bullet is below the top edge, `y > -BULLET_HEIGHT` |
| `Motion.DropPastTopCounts` | App.js:82 | the filter keeps each on-screen bullet as often as it occurs and drops every other one, so it is exact even on lists with repeats |
| `Motion.MoveBullets` | App.js:80-82 | every moved bullet is still below the top edge and is an old bullet shifted by -12; every shifted bullet below the top edge is kept; the old order is kept |
| `Motion.Fall` | App.js:85 | every meteor moved down by 6, same count, same order |
| `Motion.Grounded` | App.js:89 | the ground test: the meteor's bottom edge is at or past `screenHeight - 20` |
| `Motion.FindGrounded` | App.js:88-97 | the loop reports true exactly when some moved meteor has `y + ENEMY_SIZE >= screenHeight - 20` |
| `Motion.AboveBottom` | App.js:101 | the off-screen test: `y < screenHeight + ENEMY_SIZE` |
| `Motion.DropPastBottom` | App.js:100-102 | keeps exactly the meteors with `y < screenHeight + ENEMY_SIZE`, in order |
| `Motion.DropPastBottomCounts` | App.js:100-102 | the filter keeps each on-screen meteor as often as it occurs and drops every other one |
| `Motion.DropPastBottomAfterGroundCheck` | App.js:88-102 | when no meteor reached the ground, the off-screen filter removes nothing |
| `Sequences.RemoveAt` | App.js:124 | `splice(i, 1)`: one shorter, elements before `i` unchanged, elements after shifted down by one |
| `Collisions.Collides` | App.js:115-119 | the bullet/meteor box test, strict on all four sides |
| `Collisions.FirstHit` | App.js:112-127 | the meteor a bullet destroys is the first one, in current order, that it overlaps in the box test; no index means it overlaps none |
| `Collisions.Scan` | App.js:105-130 | reference definition of the bullet loop: each bullet in order removes the first meteor it hits among those still standing; its contract bounds the hits by both list lengths, and `ScanConserves`, `ScanKeepsOrder` and `ScanLeavesNoOverlap` state its properties |
| `Collisions.ResolveHits` | App.js:105-130 | the nested loops with splice and break compute exactly the scan's survivors, remaining meteors and hit count |
| `Collisions.ScanConserves` | App.js:105-130 | `|remainingBullets| + hits == |movedBullets|` and `|remainingEnemies| + hits == |filteredEnemies|`: each hit takes exactly one bullet and one meteor |
| `Collisions.ScanKeepsOrder` | App.js:105-130 | surviving bullets and remaining meteors are order-preserving subsequences of their inputs |
| `Collisions.ScanLeavesNoOverlap` | App.js:109-130 | no surviving bullet overlaps any remaining meteor |
| `Collisions.StrikesPlayer` | App.js:136-139 | the cannon test: the meteor overlaps the cannon's horizontal span and its bottom is below `screenHeight - PLAYER_HEIGHT - 25` |
| `Collisions.FindStrike` | App.js:133-149 | the loop reports true exactly when some remaining meteor overlaps the cannon's span below its top edge |
| `Session.Initial` | App.js:176-184 | restart leaves empty lists, score 0, game running, cannon centred on the screen |
| `Session.Clamp` | App.js:47 | the result is never negative and never past the bound when the bound is not negative; in-range values pass through unchanged; a value below 0 becomes 0 and a value at or past a non-negative bound becomes the bound |
| `Session.Tilt` | App.js:42-48 | a tilt moves only the cannon, keeps it within `[0, screenWidth - PLAYER_WIDTH]`, moves it by `20 * tilt` when that stays in range, stops it at the left wall or at the right wall it overshoots, and does nothing once the game is over |
| `Session.SpawnX` | App.js:60 | a spawn position is in `[0, screenWidth - ENEMY_SIZE]` for any random sample in `[0, 1)` |
| `Session.Spawn` | App.js:55-65 | a spawn appends exactly one meteor with the given id at `y = -ENEMY_SIZE` and an in-range `x`, changes nothing else, and does nothing once the game is over |
| `Session.Fire` | App.js:166-173 | firing appends exactly one bullet, horizontally centred on the cannon, at `y = screenHeight - PLAYER_HEIGHT - 40`, and changes nothing else |
| `Session.Press` | App.js:163-174 | a tap restarts a finished game and fires in a running one |
| `Session.Tick` | App.js:75-157 | one tick: nothing changes in a finished game, a tick that ends the game empties both lists, the cannon never moves and the score never drops; its phase-by-phase outcome is stated by the `Tick*` lemmas |
| `Session.TickWhileOver` | App.js:73 | no tick changes a finished game |
| `Session.TickGroundReached` | App.js:88-96 | a meteor reaching the ground ends the game, empties both lists, and keeps the score and the cannon |
| `Session.TickPlayerStruck` | App.js:133-148 | a remaining meteor overlapping the cannon ends the game and empties both lists |
| `Session.TickCommits` | App.js:151-156 | a tick that ends neither way commits the scan's surviving bullets and remaining meteors and adds its hits to the score |
| `Session.TickScore` | App.js:151-156 | the score never decreases; on a committed tick it grows by exactly the number of bullets, and equally of meteors, lost to collisions |
| `Session.TickLeavesNoOverlap` | App.js:105-156 | after a tick no bullet on screen overlaps a meteor on screen |
| `Session.TickKeepsIdentities` | App.js:75-156 | a tick never creates, reorders or duplicates an entity, and never moves the cannon |
| `Session.InitialInv` | App.js:16-20 | the opening state satisfies the session invariant |
| `Session.TiltInv` | App.js:41-48 | a tilt keeps the invariant: cannon on screen, ids distinct, a finished game shows nothing |
| `Session.SpawnInv` | App.js:57-65 | a spawn with a fresh id keeps the invariant |
| `Session.PressInv` | App.js:163-184 | a tap with a fresh id keeps the invariant |
| `Session.TickInv` | App.js:75-156 | a tick keeps the invariant |
| `Session.DirectHitScenario` | App.js:115-126 | a fireball at (100, 100) and a meteor at (100, 110) collide: the meteor goes and one hit counts |
| `Session.GroundScenario` | App.js:88-96 | a meteor landing one pixel past the ground line ends the game on that tick with both lists empty and the score kept |
| `App.Game.constructor` | App.js:16-24 | the component starts in the opening state, satisfying `Valid()` |
| `App.Game.OnTilt` | App.js:41-48 | the accelerometer listener updates the fields as `Session.Tilt` does and keeps `Valid()` |
| `App.Game.SpawnMeteor` | App.js:57-65 | the spawn callback updates the fields as `Session.Spawn` does with a fresh id and keeps `Valid()` |
| `App.Game.HandlePress` | App.js:163-174 | the tap handler updates the fields as `Session.Press` does with a fresh id and keeps `Valid()` |
| `App.Game.RestartGame` | App.js:176-184 | restart replaces the whole state with the opening state, whatever it was before |
| `App.Game.Tick` | App.js:75-157 | the main-loop callback updates the fields as `Session.Tick` does and keeps `Valid()` |

## Left out

- Rendering (the JSX tree, the background sparks, the style sheet, App.js:186-310): presentation only.
- The accelerometer subscription and its update interval, and the `setInterval`/`clearInterval` timers with their 16 ms and 900 ms periods (App.js:39-41, 50, 57, 66-68, 75, 157-159): platform I/O and timing. Each callback body is one discrete operation.
- React state plumbing (`useState`, `useEffect`, the ref-mirroring effects, App.js:16-36): the model has one state updated by serialized operations. It does not model interleavings of asynchronous callbacks, such as a spawn that lands between `setGameOver(true)` and the teardown of the spawn timer.
- `Math.random()` and `Date.now()` (App.js:59-60, 167): the spawn sample is a parameter, and ids come from a counter rather than timestamp-plus-random strings.
- IEEE floating-point semantics (rounding, NaN or infinite tilt samples): coordinates are exact reals.
- Session.Spawn: states the new meteor's `x` only as lying in `[0, screenWidth - ENEMY_SIZE]`. Its exact value `rand * (screenWidth - ENEMY_SIZE)` is the body of `Session.SpawnX`.
- App.Game.constructor: requires `screenWidth >= PLAYER_WIDTH`. On a narrower window the source starts the cannon at a negative `x`, outside the range the invariant promises.
