# Endless runner: a Dafny model of its simulation core

The game is a single-lane endless runner in the browser. A ball stands on the
ground line at the left of the window, obstacles of random height scroll in
from the right, and the space bar makes the ball jump. The game loop fires
every 16.67 ms. On each firing it refills the obstacle array, scrolls every
obstacle left by 7.5 pixels, adds 5 to the score, and checks for a collision
(the player loses) and then for a score of exactly 10000 (the player wins).
The ball's jump is a separate animation timer. It uses a speed law that slows
the ball as it climbs, turns at height 300 and lands back on 0.

This project models that core with the DOM and the timers taken out:

- `scene.dfy` (module `Scene`): rectangles, the strict overlap test, the
  rectangles of the ball and of an obstacle computed from stored state, and
  `doesCollide` as `Collides`, the `some` over the obstacle array.
- `obstacles.dfy` (module `ObstacleField`): the capacity `ceil(width / 400)`,
  the fill rule as a function `Filled` with its placement lemmas, the
  `forEach`-with-`splice` sweep of `moveObstacles` as a closed form `Swept`,
  and the `Obstacle` class with `Move`.
- `ball.dfy` (module `BallMotion`): the jump state machine as a function
  `Advance` on a `Flight` (height, phase). The closure flag `gainingHeight`
  becomes the phase (`Rising`/`Falling`), and `Idle` means that no animation
  timer is set. The `Ball` class has `Jump`, `Step` (one timer firing) and
  `StopAnimation`.
- `game.dfy` (module `Game`): the session class `Main` with the obstacle
  array (`seq<Obstacle>`), score, ball, capacity, window width and whether the
  game-loop interval is set. Each browser callback is one method: a game-loop
  tick, a key press, a resize. One firing of the ball's own timer is
  `Main.BallTimer` (that is, `Ball.Step`), and it keeps the session's
  invariant, so it may come between any two of these callbacks.
  `ObstacleField.States` maps the array of `Obstacle` objects to the values
  they hold, and `Main.Field` is that value for the session's array; the
  properties of the fill and the sweep are stated on it.

Behaviour the model keeps exactly as the code has it:

- The sweep skips an element. `forEach` visits indices of the array as it
  was when the sweep began. When it splices out the obstacle at index `k`,
  the next obstacle slides into index `k` and is not moved on that tick.
  `Fates` and `FatesFollowRule` state this per obstacle, and
  `SkippedAfterRemoval` shows it on two obstacles.
- If the ball collides on the same tick that the score reaches 10000, the
  tick calls `gameEnd` twice. First the "Game Over." screen is appended, then
  the "You Won!" screen. `Main.GameLoopTick` states this order.
- The capacity of a zero-width window is 0 (`Math.ceil(0 / 400)`); the code
  does not raise it to at least 1.
- A restart fills the field to the full capacity, not to a single obstacle.
- A resize to a smaller width never removes obstacles, so the array may hold
  more than the capacity until obstacles scroll off.
- The overlap test is strict. Rectangles that only share an edge do not
  collide. A zero-width rectangle strictly inside another one still overlaps
  it.
- `jump` looks only at the height (`currentHeight === 0`), not at the phase.

## Model

| member | source | states |
|---|---|---|
| `Scene.Overlaps` | index.js:20-24 | the strict overlap test; rectangles whose widths, or whose heights, add up to 0 or less never overlap |
| `Scene.Collides` | index.js:16-25 | `some` over the obstacles: true iff some obstacle's rectangle overlaps the ball's; false for an empty array |
| `Scene.OverlapsSymmetric` | index.js:20-24 | the overlap test gives the same answer with its two rectangles swapped |
| `Scene.TouchingDoesNotOverlap` | index.js:20-24 | rectangles that share only an edge (on either axis) do not overlap, since both comparisons are strict |
| `Scene.HitsIff` | index.js:18-24 | with the ball and the obstacle on the same ground line, they collide iff they overlap horizontally and the ball's bottom is below the obstacle's top |
| `Scene.HighBallClears` | index.js:16-25 | a ball at least as high as every obstacle collides with none |
| `Game.Main.DoesCollide` | index.js:16-26 | the getter is true iff some obstacle of the array overlaps the ball |
| `ObstacleField.Capacity` | index.js:6 | `maxObstaclesOnMap` is the ceiling of width / 400: the least `c` with `width <= 400 c` |
| `ObstacleField.Spawn` | index.js:82-89 | a new obstacle is at the window width when the array is empty, otherwise at least 400 and less than 700 right of the last one; with draws in [0, 1) its height lies in [50, 150) |
| `ObstacleField.Filled` | index.js:81-91 | after a fill the array has `max(length, capacity)` obstacles, and the obstacles already there are kept as a prefix |
| `ObstacleField.FilledAt` | index.js:82-89 | each appended obstacle is placed from the obstacles before it and its own random draws |
| `ObstacleField.FilledPlacement` | index.js:84-89 | the first obstacle of an empty array is at the window width; each appended one is at least 400 and less than 700 right of its left neighbour; every new height lies in [50, 150) |
| `ObstacleField.Moved` | index.js:190-192 | `move` keeps the height and scrolls left by exactly 7.5; an obstacle already off the screen stays off it |
| `ObstacleField.OffScreen` | index.js:104 | the removal test: the right edge of the obstacle's rectangle is at or left of 0; such an obstacle overlaps no ball whose left edge is at or right of 0 |
| `ObstacleField.Swept` | index.js:101-107 | a sweep never grows the array and removes at most half of it, rounded up, since the obstacle after a removed one is skipped |
| `ObstacleField.Visit` | index.js:102-106 | one callback leaves the obstacles before its index alone and removes at most one obstacle; an index past the end changes nothing |
| `ObstacleField.Fates` | index.js:102-106 | the sweep gives every obstacle of the array exactly one fate |
| `ObstacleField.VisitStep` | index.js:102-106 | one call of the `forEach` callback (move, then splice if off screen) is one step of the closed-form sweep |
| `ObstacleField.SweptFromEnds` | index.js:102-106 | the two ends of a sweep in progress: before any callback, what remains is the whole sweep; once every index has been visited, nothing remains to do |
| `ObstacleField.VisitsFromSweep` | index.js:102-106 | running the callbacks from index `k` to the end finishes the sweep that the callbacks before `k` began |
| `ObstacleField.ForEachSweeps` | index.js:101-107 | `forEach` with one callback per index of the array as it was at the start, each call seeing the array left by the previous one, performs exactly the closed-form sweep |
| `ObstacleField.FatesRule` | index.js:102-110 | the fates follow the rule: an obstacle right after a removed one is skipped; otherwise it is removed iff moving it puts its right edge at or left of 0, else it is shifted |
| `ObstacleField.RuleAt` | index.js:102-110 | the fate rule at a single index |
| `ObstacleField.FatesUnique` | index.js:102-110 | only one assignment of fates follows that rule, so the rule fully describes a sweep |
| `ObstacleField.SweptApplies` | index.js:101-111 | the sweep keeps survivors in their relative order; shifted ones move by 7.5, skipped ones stay put, removed ones are dropped exactly once |
| `ObstacleField.SweptLength` | index.js:104-110 | the array shrinks by exactly the number of removed obstacles |
| `ObstacleField.SweptAllOnScreen` | index.js:102-106 | when no obstacle leaves the screen, every obstacle moves left by exactly 7.5 and none is removed |
| `ObstacleField.SkippedAfterRemoval` | index.js:102-110 | the obstacle after a removed one is not moved on that tick |
| `ObstacleField.Obstacle.constructor` | index.js:179-184 | a new obstacle has the given height and left offset |
| `ObstacleField.Obstacle.Move` | index.js:190-192 | `move` decreases `offsetLeft` by exactly 7.5 and keeps the height |
| `BallMotion.Advance` | index.js:152-161 | one timer firing keeps the height in [0, 310), below the 450 where the speed law would stall. A rising ball strictly gains height and turns to falling iff it reaches 300. A falling ball strictly loses height and stops iff it is clamped to 0. With no timer nothing changes |
| `BallMotion.Launch` | index.js:145-146 | `jump` is a no-op unless the height is 0, on the ground it starts the rise, and it keeps the flight invariant |
| `BallMotion.Stop` | index.js:166-168 | `stopAnimation` keeps the height and keeps the flight invariant; no later firing moves the ball |
| `BallMotion.StepsLeftDecrease` | index.js:152-161 | each timer step of a moving ball lowers a bound on the steps left before landing |
| `BallMotion.Lands` | index.js:147-163 | a moving ball is back on the ground, with its timer cleared, within that bound of steps |
| `BallMotion.IdleStays` | index.js:158-161 | once the timer is cleared, the ball stays where it is |
| `BallMotion.JumpLandsWithin103Steps` | index.js:144-163 | a jump from the ground is over, at height 0, within 103 timer firings |
| `BallMotion.Ball.constructor` | index.js:133-138 | a new ball is on the ground with no timer |
| `BallMotion.Ball.Jump` | index.js:144-147 | `jump` starts the rise from height 0 and changes nothing in the air |
| `BallMotion.Ball.Step` | index.js:147-163 | one firing of the animation timer follows the speed law, strictly raising a rising ball and lowering a falling one |
| `BallMotion.Ball.StopAnimation` | index.js:166-168 | `stopAnimation` clears the timer and freezes the height |
| `Game.Main.constructor` | index.js:2-14 | a new session reads the width, sets capacity `ceil(width / 400)`, and starts with no obstacles, score 0, no ball and no loop |
| `Game.Main.GameLoopTick` | index.js:29-36 | one tick: refill, then sweep, then score + 5, then the collision check (loss), then the `score === 10000` check (win); the game ends iff either holds, with the loss screen before the win screen; the score reaches 10000 exactly on tick 2000 |
| `Game.Main.ScrollAndScore` | index.js:30-32 | the first three statements of a tick: the field becomes the sweep of the refilled field and the score grows by 5 |
| `Game.Main.GameEnd` | index.js:39-44 | `gameEnd` clears the loop, stops the ball where it is and appends the end screen; the obstacles and score are kept |
| `Game.Main.StartGame` | index.js:46-52 | from a stopped session, a new game: score 0, a fresh ball on the ground, a freshly filled field that follows the placement rule from its first obstacle, no end screen, loop running |
| `Game.Main.FullFillObstacles` | index.js:73-92 | the array becomes `Filled` of its old value: old obstacle objects kept as a prefix, new ones fresh and appended, each placed by the rule of `Spawn` relative to its left neighbour |
| `Game.Main.AppendObstacle` | index.js:82-90 | one pass of the fill loop appends exactly one new obstacle placed by the rule |
| `Game.Main.CheckForResize` | index.js:94-99 | the capacity is recomputed only when the width actually changed, and the obstacles are never touched |
| `Game.Main.MoveObstacles` | index.js:101-107 | the array becomes the closed-form sweep of its old value and holds only obstacles it held before |
| `Game.Main.VisitObstacle` | index.js:102-106 | the `forEach` callback for one index moves that obstacle and splices it out if it left the screen |
| `Game.Main.RemoveObstacle` | index.js:109-111 | `splice(index, 1)` removes exactly the obstacle at that index |
| `Game.Main.ResetToDefault` | index.js:113-121 | on a stopped session, clears the obstacles, score, ball, loop and end screens; keeps the width and capacity |
| `Game.Main.KeyDown` | index.js:123-129 | space makes the ball jump while the loop runs, touching nothing else, and starts a new game when it does not; other keys change nothing (ball, loop, obstacles, score, end screens) |
| `Game.Main.BallTimer` | index.js:147-163 | one firing of the ball's animation timer advances the ball by `Advance` and keeps the session invariant, so it may fall between any two callbacks |

The invariant `Main.Valid` holds between callbacks. Its parts are: the score
is 5 × the ticks since the last reset; a running game has a ball and is below
tick 2000; the obstacle objects are distinct; every obstacle's height is in
[50, 150); the capacity matches the width; and the ball's height is in
[0, 310).

## Left out

- DOM creation and styling (`createEndScreen`, `createScore`, `createBall`, `render`, `unMount`, `innerText` and `style` writes) are presentation only. An end screen is kept as its `Outcome`, whose `Text` is the message shown.
- `getBoundingClientRect` is replaced by geometry computed from stored state. An obstacle's x is its `offsetLeft`, which takes the wrapper to start at the window's left edge. The sizes the style sheet fixes (ball left edge and size, obstacle width, ground line) are a `Layout` value given to the session, required to have positive sizes.
- `setInterval`/`clearInterval` are replaced by the `running` flag and the ball's `Idle` phase. The two timers' interleaving is left to the caller, who may call `GameLoopTick` and `Ball.Step` in any order.
- `Math.random` becomes the `Draw` values a fill is given, each in [0, 1) as `Math.random` returns. There must be at least one draw per obstacle to append.
- Floating point is replaced by exact `real` arithmetic. No exact tick count of the jump arc is claimed, only the bound of 103 timer firings.
- `resetToDefault` sets `gameLoopInterval` to null without calling `clearInterval`. Both of its callers (`startGame` from a key press, which requires no interval, and the load-time start on a fresh session) reach it with the loop stopped, so `StartGame` and `ResetToDefault` require a stopped session. A reset while the loop runs, which would leave the old interval firing, is not modelled.
- Registering and removing event listeners is left out; the `removeEventListener` call with a fresh `bind` removes nothing in any case. The load-time `new Main(...)` and `startGame()` are the constructor followed by `StartGame`.
- ObstacleField.Obstacle.constructor: the `offsetLeft || window.innerWidth` fallback is not modelled. A computed offset of exactly 0 stays 0 here, whereas the source would use the browser's window width.
- BallMotion.Ball.Jump: a second space press at height 0 before the first timer firing starts a second animation interval in the source, with its own `gainingHeight`. The model has one phase per ball, so the second press changes nothing.
- BallMotion.Ball.Jump and ObstacleField.Obstacle.Move: the checks for a missing DOM element are not modelled. Both elements are always rendered right after they are made.
