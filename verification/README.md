# Watchout: the game's bookkeeping in Dafny

Watchout is a small browser game. The player drags a circle around a
700 x 450 field. Twenty enemy circles jump to new random places every three
seconds. Touching an enemy counts as a collision. This project models the
game's data and the timer bodies that change it, with all rendering removed:

- **Field** (`field.dfy`): the start-up options, the random position
  generator `findRandomPosition`, and the factories `createEnemy` and
  `createPlayer`. The two `Math.random()` values a position consumes arrive
  as a `Draw` in [0, 1). `Math.floor` is Dafny's `.Floor`.
- **Collision** (`collision.dfy`): the two distance tests. The static scan
  compares with twice the player's radius. The per-frame test compares with
  the sum of both radii. `Math.sqrt(d) < s` is stated exactly, without a
  square root, as `0 < s && d < s*s`; `SqrtLessExact` proves that equivalence.
- **Scoring** (`scoring.dfy`): `gameStats` plus the `lastCollision`
  timestamp as a pure state machine. A scoreboard tick and a tween frame are
  its two steps. Lemmas cover any interleaving of them.
- **Watchout** (`watchout.dfy`): class `Game` holds the module-level state
  (`enemyList`, `playerList`, `gameStats`, `lastCollision`) as fields. Its
  constructor is the start-up population loop. Each timer body and the drag
  handler is a method that updates the fields in place. Each method is proved
  against the pure definitions and keeps the invariant `Valid()`.

Four behaviours of watchout.js are easy to misread:

- Generated centres lie in [50, width-51] x [50, height-51], not up to
  width-50. The floor of `random * (width-100)` never reaches width-100.
- The debounce accepts a hit only when strictly more than 1000 ms have
  passed. A hit exactly 1000 ms later is rejected.
- In watchout.js the debounced per-frame path only counts collisions. It
  does not touch `score` or `bestScore`. The reset and the best-score update
  happen only on the 30 ms scoreboard tick, driven by the static scan.
  `TweenHitThenStaticHit` shows this.
- Dragging sets the player's centre to the pointer position with no clamping.

## Model

| member | source | states |
|---|---|---|
| `Field.ScaledDraw` | watchout.js:33-34 | `Math.floor(Math.random() * span)` lies in [0, span) when span > 0, and in [span, 0] otherwise |
| `Field.FindRandomPosition` | watchout.js:31-36 | on a field wider and taller than 100, the centre lies in [50, width-51] x [50, height-51]; each axis is bounded separately |
| `Field.EveryCentreReachable` | watchout.js:33-34 | every centre of that rectangle is produced by some draw, so the generator's range is exactly the rectangle |
| `Field.NarrowFieldBreaksMargin` | watchout.js:33 | the unguarded assumption: on a field narrower than 100, a draw of 0.5 puts the centre left of x = 50 |
| `Field.DefaultFieldBounds` | watchout.js:3-8 | with the game's own 700 x 450 options, every centre lies in [50, 649] x [50, 399] |
| `Field.CreateEnemy` | watchout.js:39-46 | radius 7, black stroke of width 1, black fill; the centre is the generated position and inside the margins |
| `Field.CreatePlayer` | watchout.js:49-56 | radius 7, red stroke of width 1, blue fill; the centre is the generated position and inside the margins; never an enemy's style |
| `Collision.SqrtLessExact` | watchout.js:205 | for the non-negative real root of d, `root < s` holds exactly when `0 < s && d < s*s` |
| `Collision.SquaredDistance` | watchout.js:202-205 | the squared distance is non-negative and zero exactly when the two points coincide |
| `Collision.StaticAgreesWithFrameOnEqualRadii` | watchout.js:199-210 | with equal radii, the 2 x player-radius formula agrees with the sum-of-radii formula at the enemy's centre; the two paths still read different positions (target centre versus interpolated point) |
| `Scoring.ScoreboardStep` | watchout.js:225-233 | no hit: score + 1 and bestScore unchanged; hit: bestScore becomes max(bestScore, score + 1) and score 0; collisions and the timestamp untouched |
| `Scoring.CollisionFrame` | watchout.js:88-95 | a hit with now - lastCollision > 1000 adds exactly one collision and sets lastCollision to now; otherwise nothing changes; score and bestScore are never touched |
| `Scoring.RunAppend` | watchout.js:212-235 | running two event sequences one after the other equals running their concatenation |
| `Scoring.RunKeepsWellFormed` | watchout.js:225-233 | no interleaving of ticks and frames makes a counter negative |
| `Scoring.RunNeverDecreases` | watchout.js:229-232 | bestScore and the collision count never decrease over any run |
| `Scoring.BestScoreMonotone` | watchout.js:229-232 | along a run, a later prefix never has a smaller bestScore than an earlier one |
| `Scoring.DiscardedScoreKept` | watchout.js:226-232 | a colliding tick resets the score, and the score it discards is at most the bestScore then and at every later point |
| `Scoring.WindowKeepsCollisionClock` | watchout.js:88-95 | scoreboard ticks, tween frames without a hit, and hits at most 1000 ms after the last accepted one never change the collision count or the timestamp |
| `Scoring.Debounce` | watchout.js:90-94 | after an accepted hit at t1, followed by any scoreboard ticks, hit-free frames and hits within 1000 ms of t1 (the rest of the burst), a hit at t2 is counted exactly when t2 - t1 > 1000 |
| `Scoring.TweenHitThenStaticHit` | watchout.js:91-94 | five quiet ticks and an accepted frame hit leave score 5, bestScore 0 and one collision; a colliding tick then gives bestScore 6 and score 0 |
| `Watchout.Game.constructor` | watchout.js:58-65 | twenty enemies, enemy i built from draw i; exactly one player; all counters zero; the invariant holds |
| `Watchout.Game.CheckCollisions` | watchout.js:199-210 | true exactly when some enemy is closer than 2 x player radius, so false on an empty list; reads only |
| `Watchout.Game.RepositionEnemies` | watchout.js:212-217 | same list length; each enemy's centre is the i-th generated position; radius, stroke, stroke width and fill unchanged; player and counters unchanged |
| `Watchout.Game.ScoreboardTick` | watchout.js:225-233 | the counters take one `ScoreboardStep` with the static scan's answer; enemies and player unchanged |
| `Watchout.Game.TweenFrame` | watchout.js:84-96 | the counters take one `CollisionFrame` with the sum-of-radii test at the given point; enemies and player unchanged |
| `Watchout.Game.DragMove` | watchout.js:189-191 | the player's centre becomes the event coordinates; style, enemies and counters unchanged |

## Left out

- Rendering: the SVG element, the `update`, `updatePlayer` and `updateScore`
  data joins, the transform written by `dragmove`, and the drag wiring. They
  are calls into the D3 library and have no behaviour of their own to state.
- `scoreList`: it only wraps `gameStats` for the scoreboard's data join.
- Timer scheduling: `setInterval` and the interleaving of the three timers
  with the animation frames. Each body is a separate method. `Scoring.Run`
  covers every order of scoreboard ticks and tween frames, but the model says
  nothing about timing.
- The 10 ms player interval: its body only re-renders the player.
- The floating-point interpolation `oldX + (newX - oldX) * t` and the
  `parseFloat` of live attributes. `TweenFrame` takes the interpolated point
  as a parameter instead.
- Coordinates are integers. Interpolated points and drag-event coordinates
  are floats in the browser; the model takes them as whole pixels.
- `Math.random()` and `Date.now()` are parameters. The second clock read on
  the accepting branch is taken to return the same `now` as the first.
- `console.log` calls.
- `Draw` products are exact reals. In the browser `Math.random() * span` is
  a rounded double product, so at some draws the floor differs from the
  exact one: JavaScript evaluates `0.7 * 10` to 7, while the exact product of
  the double 0.7 and 10 floors to 6. The bounds hold either way; only the
  map from a draw to a centre can differ.
- Enemy and player records are values, not shared objects. In the game the
  handlers reach the list records through the data join: `dragmove`'s datum
  is `playerList[0]` itself, and a tween's `enemyData` is `enemyList[i]`.
  The model reads and writes the list entries directly instead, which has
  the same effect on the lists.
