# Falling-obstacles game engine, modelled in Dafny

The game is a small browser arcade game. A player rectangle near the bottom
of a 300 × 360 field moves left and right in steps of 25. Obstacles of random
width and colour fall from above the field. The session ends when an obstacle
overlaps the player.

All of the game's logic lives in one React component. It keeps five pieces of
state: the phase (`IDLE`, `PLAYING` or `GAME_OVER`), the score, the player
rectangle, the obstacle list and the fall speed. Five handlers change that
state:
- start (also used for "play again");
- move left and move right;
- a 50 ms game-loop body: obstacles fall and leave the field, the collision
  test runs, the score gains 1, and the speed ramps up to a cap;
- a 1200 ms spawner body: one new obstacle, and 10 points.

The model has five modules, one per source file or concern:

- `Constants` (constants.ts): the numeric parameters, and lemmas about how
  they relate to each other.
- `Types` (types.ts): the phase, the rectangle (the player) and the obstacle.
- `Rules`: the pure logic of App.tsx, written as functions and lemmas:
  - the overlap test;
  - the clamped steps;
  - the capped speed ramp;
  - the `map`/`filter` that moves obstacles and drops the off-screen ones;
  - the construction of a spawned obstacle from three random draws.
- `Game`: the component's state as class `Engine`. Its methods are the
  handlers. The object invariant `Valid()` says:
  - the player keeps its size and its row, and stays between the walls;
  - the speed stays within [5, 15];
  - every obstacle lies in the field;
  - every obstacle has an id already handed out;
  - ids increase strictly along the list, so they are distinct.
- `Scenarios`: concrete cases with exact values. The methods build an
  `Engine` and call its handlers; `CollisionScenario`, `EscapeScenario` and
  `RestartScenario` also place an obstacle into the state directly. The
  lemmas `CollisionLagsOneTick` and `CullScenario` apply the `Rules`
  functions to fixed obstacles.

Modelling choices:
- Coordinates and speed are `real`. The score is a `nat`.
- The three `Math.random()` samples a spawn takes are parameters in [0, 1).
- The obstacle id is a value from the counter `nextId`, not a time-and-random
  string. It is only a rendering key.
- The collision test reads the obstacle list from before the tick's fall.
  The state update that moves the obstacles is only scheduled, while the
  collision loop reads the value the handler closed over. So an obstacle that
  falls onto the player is not caught by that tick
  (`Scenarios.CollisionLagsOneTick`). An obstacle cannot cross the player's
  row within one tick, because the speed cap (15) is below the combined height
  of the two rectangles (40) (`Rules.CannotPassThroughPlayer`). The next tick
  catches it only if the player has not moved away first: a move in between
  escapes an obstacle that already overlaps the player
  (`Scenarios.EscapeScenario`).

## Model

| member | source | states |
|---|---|---|
| `Constants.PlayerStartsInsideField` | constants.ts:3-9 | the player's row is 360 − 20 − 20 = 320, and the player lies fully inside the field |
| `Constants.PlayerStartIsInRange` | constants.ts:2-5 | the right clamp bound is 260 and the centred start is 130; 0 ≤ 130 ≤ 260 |
| `Constants.SpawnRangeIsNonEmpty` | constants.ts:2-12 | 0 < 30 < 50 < 300, so every drawn width leaves a non-empty x range |
| `Constants.SpeedRampIsWellFormed` | constants.ts:15-19 | 0 < initial speed 5 ≤ cap 15, and the speed increment is positive |
| `Constants.CountsArePositive` | constants.ts:8-21 | four palette colours; positive step and reward; 0 < 150 ≤ 1200 between the two spawn intervals |
| `Rules.OverlapsIsSymmetric` | App.tsx:107-112 | the strict overlap test gives the same answer with its arguments swapped |
| `Rules.SharedEdgeIsNoOverlap` | App.tsx:107-112 | rectangles that only share an edge, on either axis, do not overlap |
| `Rules.CollidesWithAnyExtend` | App.tsx:106-115 | scanning one more obstacle: the longer prefix collides exactly when the shorter one does or the new obstacle overlaps |
| `Rules.StepLeft` | App.tsx:62 | the result is ≥ 0 and never right of the start; a full step of 25 when there is room, otherwise exactly 0 |
| `Rules.StepRight` | App.tsx:70 | the result is ≤ 260 and never left of the start; a full step of 25 when there is room, otherwise exactly 260 |
| `Rules.LeftMovesClosedForm` | App.tsx:58-64 | n left moves from x ≥ 0 give max(0, x − 25n) |
| `Rules.RightMovesClosedForm` | App.tsx:66-72 | n right moves from x ≤ 260 give min(260, x + 25n) |
| `Rules.LeftMovesFromStart` | App.tsx:29 | left moves from 130: 105 after one move, 130 − 25n for n < 6, and 0 from the sixth move on |
| `Rules.RampSpeed` | App.tsx:121 | the new speed is ≤ 15; it grows unless it is at the cap; it is old + 0.008 or exactly 15, and 15 only when old + 0.008 reaches the cap |
| `Rules.SpeedAfterClosedForm` | App.tsx:121 | n ticks from a speed s ≤ 15 give min(15, s + 0.008n) |
| `Rules.SpeedIsMonotoneAndBounded` | App.tsx:35-46 | from a speed in [5, 15], the speed never decreases over ticks and never exceeds 15 |
| `Rules.SpeedSaturatesAt1250` | App.tsx:46-121 | from the initial 5, the speed is below 15 for fewer than 1250 ticks and exactly 15 from then on |
| `Rules.FallAll` | App.tsx:101 | same length; each obstacle's y gains the speed; id, x, size and colour are unchanged |
| `Rules.OnScreen` | App.tsx:102 | no longer than its input; every kept obstacle comes from the input and has y < 360 |
| `Rules.OnScreenKeepsVisible` | App.tsx:102 | every input obstacle with y < 360 is kept |
| `Rules.OnScreenAppend` | App.tsx:102 | culling distributes over concatenation, so relative order is kept |
| `Rules.OnScreenKeepsAllVisible` | App.tsx:102 | a list lying wholly inside the field is returned unchanged |
| `Rules.OnScreenDropsAllHidden` | App.tsx:102 | a list lying wholly at or below y = 360 is dropped entirely |
| `Rules.FallAllAppend` | App.tsx:101 | moving distributes over concatenation |
| `Rules.AdvanceAppend` | App.tsx:99-103 | one tick's move-and-cull distributes over concatenation (order kept) |
| `Rules.AdvanceMembers` | App.tsx:99-103 | after the tick, o is present iff o is some old obstacle moved down by the speed with y < 360 |
| `Rules.OnScreenKeepsIdsIncreasing` | App.tsx:102 | culling keeps ids strictly increasing |
| `Rules.AdvanceKeepsIdsIncreasing` | App.tsx:99-103 | a tick keeps ids strictly increasing, hence distinct |
| `Rules.AdvanceKeepsInField` | App.tsx:99-103 | at a speed ≥ 0, a tick keeps every obstacle in the field and adds no new id |
| `Rules.CannotPassThroughPlayer` | App.tsx:99-115 | an obstacle over the player's columns cannot cross the player's row within one tick at speed ≤ 15: afterwards it overlaps the player (if the player does not move) and stays in the list |
| `Rules.DrawWidth` | App.tsx:134 | a draw in [0, 1) gives a width in [30, 50) |
| `Rules.DrawX` | App.tsx:137 | a draw in [0, 1) gives an x in [0, 300 − width), so the obstacle fits horizontally |
| `Rules.DrawColorIndex` | App.tsx:141 | floor(r · 4) for r in [0, 1) is a valid palette index, and it is the floor of r · 4 |
| `Rules.NewObstacle` | App.tsx:134-142 | the spawned obstacle has the given id, y = −20 and height 20, and lies in the field (width, x, palette colour) |
| `Game.Engine.constructor` | App.tsx:26-35 | the first state: IDLE, score 0, player at (130, 320, 40, 20), no obstacles, speed 5, invariant holds |
| `Game.Engine.Reset` | App.tsx:37-47 | player (130, 320, 40, 20), no obstacles, score 0, speed 5; phase unchanged |
| `Game.Engine.Start` | App.tsx:49-52 | a full reset, then phase PLAYING |
| `Game.Engine.EndGame` | App.tsx:54-56 | from PLAYING or GAME_OVER (it is only called by the collision scan of a tick), the phase becomes GAME_OVER and nothing else changes, so a repeat is idempotent |
| `Game.Engine.MoveLeft` | App.tsx:58-64 | in PLAYING only player.x changes, to StepLeft of the old x; otherwise nothing changes; the invariant is kept |
| `Game.Engine.MoveRight` | App.tsx:66-72 | in PLAYING only player.x changes, to StepRight of the old x; otherwise nothing changes; the invariant is kept |
| `Game.Engine.Tick` | App.tsx:94-123 | in PLAYING: obstacles = Advance(old obstacles, old speed); GAME_OVER iff the old player overlaps an old obstacle; score + 1 and the speed ramped either way; outside PLAYING nothing changes |
| `Game.Engine.CheckCollisions` | App.tsx:106-115 | after scanning the snapshot the phase is GAME_OVER iff some obstacle in it overlaps the player, otherwise still PLAYING |
| `Game.Engine.Spawn` | App.tsx:130-145 | in PLAYING: exactly one NewObstacle with a fresh id is appended, score + 10; player, speed and phase are unchanged; outside PLAYING nothing changes |
| `Scenarios.LeftWallScenario` | App.tsx:58-64 | after start, x runs 130, 105, 80, 55, 30, 5, 0, 0 under repeated left moves |
| `Scenarios.IdleScenario` | App.tsx:95-131 | before the first start, moves, a spawn and a tick leave the session IDLE with score 0, x 130 and no obstacles |
| `Scenarios.SpawnThenTickScenario` | App.tsx:97-145 | a spawn with draws 0.5 then a tick give the obstacle (130, −15, 40, 20, "bg-orange-500"), score 11, speed 5.008, still PLAYING |
| `Scenarios.CollisionScenario` | App.tsx:99-121 | an obstacle placed at (140, 325, 30, 20), over the player, ends the session; the same tick moves it to y 330, scores 1 and ramps the speed to 5.008 |
| `Scenarios.RestartScenario` | App.tsx:49-52 | play, then a colliding tick that ends the session, then start again leaves PLAYING, score 0, no obstacles, speed 5, player (130, 320, 40, 20) |
| `Scenarios.EscapeScenario` | App.tsx:58-123 | an obstacle at (160, 296, 30, 20): a tick leaves it at y 301 overlapping the player at x 130 without ending the session; a move left to x 105 and another tick leave the session PLAYING |
| `Scenarios.CollisionLagsOneTick` | App.tsx:99-115 | an obstacle at y 296 is not caught; after it falls to 301 it overlaps the player at its start position |
| `Scenarios.CullScenario` | App.tsx:99-103 | an obstacle at y 340 falling by 10 stays at 350; falling by 25 it is dropped |

## Left out

- Rendering and styling: the component's markup and the three screen
  components, including the palette-to-glow colour string in the game area.
  None of it changes state.
- Keyboard listener registration: only its effect is modelled, a call to
  `MoveLeft` or `MoveRight`.
- Timer scheduling: `setInterval`/`clearInterval`, effect re-subscription,
  batching of state updates and timing. `Tick` and `Spawn` are discrete calls.
  The periods (50 ms, 1200 ms) appear only as constants.
- `Math.random` and `Date.now`: the random samples are parameters in [0, 1),
  and the id is a counter value.
- Floating-point rounding of positions and speed: the model uses exact reals.
  For example, the ramp step 0.8 / 100 is exactly 0.008 here.
- Spawn-interval decay, burst spawning and elapsed time: the source has none
  of these. `MinObstacleSpawnInterval` is declared but never read.
- The start handler's screens: the source calls start only from the start
  screen and the game-over screen. The model allows start in any phase and
  always gives the same full reset.
