# Z-Delivery game logic in Dafny

The Z-Delivery game is a single React component: a bike on an 800 × 400
canvas is steered with the arrow keys to a sequence of 30 × 30 delivery
targets before a 30-second countdown runs out, burning fuel while it moves.
This project models the game logic of that component as a small state
machine and proves its properties.

- `geometry.dfy` (module `Geometry`): the canvas, bike and target constants,
  the strict four-condition rectangle hit test (`Overlaps`) and the clamp that
  keeps the bike on the canvas.
- `session.dfy` (module `Session`): the session record `State` (bike position,
  held arrow keys, the `hasDelivered` debounce flag, fuel, score, time left,
  order index, status tag) and one pure transition per event: `Step` (one
  animation frame), `KeyDown`, `KeyUp`, `Tick` (the one-second timer) and
  `Reset` (the restart button); `Frames`, `Ticks` and `Run` iterate them, and
  `Inv` is the invariant of every reachable state.
- `properties.dfy` (module `SessionProperties`): lemmas about those
  transitions.
- `game.dfy` (module `GameLoop`): the class `Game`, whose fields are updated
  in place by methods written the way the component writes them (the frame
  step mutates the bike position, uses a local `moved` flag and flips the
  debounce flag; the key-up handler writes the key map and clears the flag).
  The five event methods (`Update`, `KeyDown`, `KeyUp`, `TimerTick`,
  `Reset`) are each proved to produce exactly their pure transition of
  `Session` and to keep `Inv`. The two parts of the frame step, `Ride` and
  `HandleHit`, are proved to produce `Move`, and either `Deliver` or no
  change, respectively. The constructor produces the initial state
  `Session.Initial` (src/App.js:6-19).

Modelling decisions:

- Fuel is counted in units of 0.2. A full tank (100) is 500 units, and a
  moving frame drains one unit: `Math.max(prev - 0.2, 0)` becomes
  `max(prev - 1, 0)`.
- Positions and target coordinates are integers. The bike starts at
  (100, 300) and moves 3 per held key per frame.
- Held keys are a record of four booleans. Any other key is `Other`. Its
  key-down changes nothing. Its key-up still clears the debounce flag, as in
  the component.
- The order list is a non-empty sequence of integer coordinate pairs
  (`Orders`).
- The 300 ms delayed advance to the next order is applied by the frame step
  that delivers. The order index is a dependency of the component's frame
  effect (src/App.js:128), so changing it starts a new frame loop. That loop
  has a new bike at (100, 300), an empty key map and a clear debounce flag,
  and the model's advance gives the same (`Session.Deliver`). On the last
  order nothing is advanced: the flag stays set and the status becomes
  "all deliveries completed".
- Restart gives the same values whatever the prior state was: the session
  defaults, plus a new frame loop (bike at the start, no key held, flag
  clear).
- The status line is a tag (`Start`, `Delivered`, `AllDone`, `TimesUp`,
  `Restarted`), not the message text.

Delivering the last order sets the terminal message "All deliveries
completed!" (src/App.js:101), but it does not end the game, and the model
follows the code rather than the message. The order index stays on the last
order, the fuel is refilled and the frame guard still passes
(`LastDeliveryKeepsLoopAlive`). After a key-up the same target can be
delivered again for another 10 points (`FinishedGameScoresAgain`).

## Model

| member | source | states |
|---|---|---|
| Geometry.Clamp | src/App.js:79-80 | the clamped coordinate lies in [lo, hi], equals the input when it is already in range, and equals the bound it crossed otherwise |
| Geometry.ClampIdempotent | src/App.js:79-80 | clamping an already clamped coordinate changes nothing |
| Geometry.OverlapsSymmetric | src/App.js:83-87 | swapping the bike and target rectangles gives the same hit result |
| Geometry.TouchingEdgesDoNotOverlap | src/App.js:83-87 | rectangles that only touch along an edge (e.g. bike.x + width == d.x) do not hit, as the comparisons are strict |
| Geometry.OverlapsIffShareCell | src/App.js:83-87 | for rectangles of positive size, the four-condition test holds iff some unit cell lies inside both rectangles |
| Geometry.BikeHitsExactly | src/App.js:82-87 | the bike (50 × 35) hits a 30 × 30 target at (tx, ty) iff tx − 50 < x < tx + 30 and ty − 35 < y < ty + 30 |
| Geometry.Overlaps | src/App.js:83-87 | the four strict comparisons of the hit test: each rectangle starts before the other ends, on both axes (no contract of its own; see the lemmas below) |
| Session.Alive | src/App.js:50 | the frame guard: fuel > 0, time left > 0 and the order index inside the order list (no contract of its own) |
| Session.Move | src/App.js:52-80 | movement by ±3 per held arrow, then fuel drain when any arrow is held, then the clamp: each coordinate is the old one plus 3 per held arrow in its positive direction minus 3 per held arrow in its negative direction when that lies on the canvas, and the nearest canvas edge otherwise; the result is on the canvas, fuel is drained exactly when an arrow is held, and nothing but position and fuel changes |
| Session.Delivers | src/App.js:82-89 | the delivery condition: the frame is alive, the debounce flag is clear and the clamped position hits the current order (no contract of its own) |
| Session.Deliver | src/App.js:89-106 | the delivery: +10, full tank, bike at (100, 300), time unchanged, index in range. Before the last order it advances by one with the delivered status and a new loop (no key held, flag clear). On the last order it keeps the index with the all-done status, the keys held and the flag set |
| Session.Step | src/App.js:49-106 | one frame: the guard, then `Move`, then the hit test and `Deliver` on the clamped position. A failed guard changes nothing, an alive frame ends on the canvas, the score rises by 10 exactly on a delivery and the time left is untouched |
| Session.KeyDown | src/App.js:112-114 | the key-down handler: the pressed arrow is held afterwards, every other key keeps its state, and nothing but the held keys changes |
| Session.KeyUp | src/App.js:115-118 | the key-up handler: the key is released and the debounce flag cleared, every other key keeps its state, and nothing else changes |
| Session.Tick | src/App.js:132-139 | the timer updater: at time ≤ 1 it gives 0 with the time's-up status, otherwise the time minus one with the status kept; the time never goes negative and nothing else changes |
| Session.Reset | src/App.js:144-150 | restart: index 0, fuel 100, score 0, 30 seconds, the restarted status, and a new loop (bike at the start, no key held, flag clear), whatever the prior state |
| SessionProperties.DebounceHoldsAcrossEvents | src/App.js:89-118 | while the debounce flag is set, any sequence of frames, key-downs and ticks without a key-up or restart leaves score and index unchanged and the flag set |
| Session.Drain | src/App.js:72 | drained fuel is never negative and never above the previous value; a positive tank loses exactly one unit (0.2) and an empty one stays at 0 |
| SessionProperties.StoppedLoopStaysStopped | src/App.js:50 | once the guard fails, any number of further frames leave the state unchanged |
| SessionProperties.StepFuel | src/App.js:71-93 | on an alive frame, fuel after a delivery is full; without one, it drops by one unit when a key is held and is unchanged when none is |
| SessionProperties.FuelNeverRisesWithoutDelivery | src/App.js:71-76 | without a delivery, fuel after a frame is never negative and never above its previous value |
| SessionProperties.IdleFrameChangesNothing | src/App.js:52-80 | a frame with no arrow key held and no delivery leaves an on-canvas bike, its fuel and everything else unchanged |
| SessionProperties.DeliveryScores | src/App.js:89-106 | the score changes exactly when the frame delivers (alive, flag clear, hit) and then by exactly 10 |
| SessionProperties.DeliveryBeforeLastAdvances | src/App.js:95-99 | a delivery before the last order advances the index by exactly one and reports the delivery. The new frame loop starts with no key held and the flag clear |
| SessionProperties.DeliveryOnLastCompletes | src/App.js:100-102 | a delivery on the last order keeps the index and reports that all deliveries are completed. The flag is set and the held keys stay held |
| SessionProperties.LastDeliveryKeepsLoopAlive | src/App.js:50-102 | after the last delivery the frame guard still passes |
| SessionProperties.OrderIndexMovesByOne | src/App.js:95-102 | a frame changes the order index iff it delivers before the last order, and never by more than one |
| SessionProperties.DebounceHoldsUntilKeyUp | src/App.js:89-90 | while the debounce flag is set, any number of frames leave score and index unchanged and the flag set |
| SessionProperties.PressReleaseRoundTrip | src/App.js:112-118 | pressing then releasing a key that was not held gives back the same held keys |
| SessionProperties.TicksCountDown | src/App.js:132-139 | k ticks with k below the time left count it down by exactly k and change nothing else |
| SessionProperties.TicksReachZero | src/App.js:132-139 | n ticks from a time in [1, n] end at 0 with the time's-up status |
| SessionProperties.ThirtyTicksFromStart | src/App.js:132-139 | from 30 seconds, 29 ticks leave 1 second and 30 ticks reach 0 with the time's-up status |
| SessionProperties.ExpiredTickIsIdle | src/App.js:133-136 | in a reachable state with no time left, a further tick changes nothing |
| SessionProperties.ResetRearms | src/App.js:144-150 | the state after a restart satisfies the invariant and passes the frame guard |
| SessionProperties.InitialSatisfiesInv | src/App.js:6-19 | the initial state satisfies the invariant and passes the frame guard |
| SessionProperties.StepPreservesInv | src/App.js:49-106 | a frame keeps position on the canvas, fuel in [0, 100], score a non-negative multiple of 10, time in [0, 30], the index in range, and time 0 only with the time's-up status |
| SessionProperties.ApplyPreservesInv | src/App.js:49-150 | frames, key-downs, key-ups, ticks and restarts each preserve the invariant |
| SessionProperties.RunPreservesInv | src/App.js:49-150 | every interleaving of these events preserves the invariant |
| SessionProperties.ReachableBounds | src/App.js:49-150 | every state reachable from the start has the bike on the canvas, fuel in [0, 100], time in [0, 30], the index in range and a score that is a multiple of 10 |
| SessionProperties.ParkedFramesDrain | src/App.js:71-80 | with keys held against the canvas edge and no hit, n frames burn n units down to 0 and change nothing else |
| SessionProperties.EmptyTankStopsLoop | src/App.js:50-72 | from a full tank, 499 such frames leave the loop alive and 500 frames reach fuel exactly 0, after which the guard fails and frames do nothing |
| SessionProperties.RideRight | src/App.js:54-87 | with only the right arrow held and the target further right, k frames move the bike 3k to the right and burn k units |
| SessionProperties.RideToScenarioTarget | src/App.js:49-106 | from the start with the right arrow held, towards the single order (200, 310): 16 frames do not score. The 17th delivers: +10, full tank, bike at the start, all-done status |
| SessionProperties.SingleOrderScenario | src/App.js:49-106 | a game with the single order (200, 310) and the right arrow pressed scores 10 after 17 frames. Fuel is full, the bike is back at the start and the status says all deliveries are completed |
| SessionProperties.FinishedGameScoresAgain | src/App.js:89-118 | after the last order is delivered, a key-up, a key-down and 17 more frames deliver it again for a score of 20 |
| GameLoop.Game.constructor | src/App.js:6-19 | the first frame loop starts from the initial state (bike at (100, 300), no key held, flag clear, fuel 100, score 0, 30 seconds, index 0), which satisfies the invariant |
| GameLoop.Game.Update | src/App.js:49-106 | the in-place frame step leaves the fields exactly at `Session.Step` of the old ones and keeps the invariant |
| GameLoop.Game.Ride | src/App.js:52-80 | the in-place movement, drain and clamp leave the fields at `Session.Move` of the old ones |
| GameLoop.Game.HandleHit | src/App.js:82-106 | on a hit with the flag clear the fields become the delivery of the old ones. Otherwise nothing changes |
| GameLoop.Game.KeyDown | src/App.js:112-114 | the key-down handler leaves the fields at `Session.KeyDown` of the old ones |
| GameLoop.Game.KeyUp | src/App.js:115-118 | the key-up handler leaves the fields at `Session.KeyUp` of the old ones |
| GameLoop.Game.TimerTick | src/App.js:132-139 | the timer callback leaves the fields at `Session.Tick` of the old ones and keeps the invariant |
| GameLoop.Game.Reset | src/App.js:144-150 | the restart button leaves the fields at `Session.Reset` of the old ones and keeps the invariant |

## Left out

- Drawing (src/App.js:26-47) and the JSX layout (src/App.js:152-175) are presentation only. This includes the whole-number fuel display `Math.floor(fuel)`.
- The bike image and the delivery sound (src/App.js:21-24, 91) are browser assets. Playing the sound has no effect on game state.
- The bounce offset `Math.sin(Date.now() / 100) * 2` (src/App.js:73) is floating point, reads the wall clock and only moves the drawn sprite.
- Scheduling is left out: `requestAnimationFrame`, `setTimeout`, `setInterval`, `clearInterval` and the window listeners (src/App.js:96, 109, 120-127, 131-141). An event sequence (`Session.Run`) stands for the host's interleaving. `clearInterval` needs no model: once time is up, further ticks change nothing (`ExpiredTickIsIdle`).
- The 300 ms window between a delivery and the index advance (src/App.js:96-99) is not modelled. In it, the old target stays live, and a key-up followed by a second hit would schedule a second advance.
- Stale closure values in the frame guard (src/App.js:50) are not modelled. The effect captures `fuel` and `timeLeft` when it starts (it depends only on `orderIndex`, src/App.js:128). So the component's loop does not actually stop when the fuel or the time runs out. The model's guard reads the current values.
- Frame chains that are never cancelled when the effect re-runs are not modelled. The model has exactly one frame loop.
- In the component, restart does not start a new loop or timer when the index is already 0. The model's restart always does.
- Fuel is exact in units of 0.2. The component's floating-point fuel accumulates rounding error over 500 subtractions.
- The status message strings are represented by tags.
