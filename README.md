# Monad mini-games: a Dafny model of the three game engines

The repository is a Next.js site with three browser mini-games. Each game reports
score events to the Monad chain as zero-value transactions. This project models the
game logic of all three, state transition by state transition, and proves what each
transition promises.

- **Bubble Tap** (`components/game.tsx`). Bubbles rise through a play area. Taps pop
  them for points: normal bubbles are worth more the smaller they are, bonus bubbles
  give +50, and bombs give -20 and cost a life. Four difficulty curves of the score
  set speed, spawn interval, bomb chance and bubble size. Classic, time-attack (60
  seconds) and survival (3 lives, escaped bubbles cost lives) are the three modes.
  Every successful tap sends a report carrying the new score.
  - `BubbleCurve` holds the curves and bubble creation.
  - `BubbleEngine` holds the pure `prev => next` updaters handed to `setGameState`.
  - `BubbleSession.BubbleTap` is the session controller as an object: the game
    state, the session token, the view and the log of reports sent.
- **Snake** (`components/SnakeGame.tsx`). A 20 x 20 grid state machine. It covers
  the queued-turn rule, a head advance per tick, wall and self collision, growth
  on food, tail drop otherwise, and the high score.
  - `Snake.SnakeGame` is a class whose fields are the component's refs and state.
- **Crypto Dodger** (`components/CryptoDodger.tsx`). Coins, bombs and freezes fall
  onto a player box that moves left and right.
  - `DodgerTick` holds one pass of `handleObjectLogic`. It is the loop method
    `ResolveObjects`, specified by the prefix-recursive function `Resolve`. Lemmas
    describe each accumulator of the pass independently, as filters and counts
    over the fallen objects.
  - `DodgerGame.CryptoDodger` is the component as an object.

Shared pieces:
- `Seqs` holds `Option`, `Max`/`Min` and an order-preserving `Filter`.
- `Telemetry` models each transaction payload `{ gid, score, event? }` as a
  `Report` appended to an outbound log. The log is the `outbox` field of each game
  object.

Random draws (`Math.random`), fresh identifiers (`uuid`), the clock (`Date.now`) and
the play-area size (`getBoundingClientRect`) are parameters. Each draw is required to
lie in [0, 1). Positions, sizes and speeds are `real`. Score, lives, time and the
player position are `int`. `Math.floor(n / k)` for a positive `k` is Dafny's `/`,
which floors as well.

## Model

| member | source | states |
|---|---|---|
| Seqs.Filter | components/game.tsx:190 | the result is no longer than the input and holds exactly the input's elements that pass the predicate |
| Seqs.FilterAppend | components/game.tsx:130 | filtering a concatenation is the concatenation of the filtered parts, so a filter keeps relative order |
| Telemetry.Tagged | components/CryptoDodger.tsx:153-160 | one report per score, in order, each carrying the session token, the event and that score |
| Telemetry.TaggedAppend | components/CryptoDodger.tsx:84-85 | the reports of two consecutive batches of scores are the reports of the joined batch, so the logs of successive frames compose |
| BubbleCurve.BubbleSpeed | components/game.tsx:69 | the speed is at most 7, at least 2 for a non-negative score, and exactly 7 from 500 points on |
| BubbleCurve.SpawnInterval | components/game.tsx:70 | the interval is at least 350 ms, at most 1000 ms for a non-negative score, and exactly 350 ms from 500 points on |
| BubbleCurve.BombChance | components/game.tsx:71 | the bomb chance is at most 0.25, at least 0.08 for a non-negative score, and exactly 0.25 from 170 points on |
| BubbleCurve.BubbleSize | components/game.tsx:72 | the base size is at least 18, at most 60 for a non-negative score, and exactly 18 from 550 points on |
| BubbleCurve.DifficultyMonotone | components/game.tsx:69-72 | a higher score never gives slower or smaller bubbles, a longer spawn interval or a lower bomb chance |
| BubbleCurve.ChooseKind | components/game.tsx:79-84 | a bomb exactly when the draw is below the bomb chance; a bonus exactly when it falls in the next 0.08 |
| BubbleCurve.EveryKindPossible | components/game.tsx:80-84 | at any non-negative score a draw below 0.08 gives a bomb and a draw of 0.33 or more gives a normal bubble |
| BubbleCurve.CreateBubble | components/game.tsx:74-100 | a new bubble starts at the bottom edge with the kind of `ChooseKind`, a size within 5 of the curve (13 to 65 pixels), a speed within 1 of the curve, fits horizontally inside the area, and carries the spawn-time points 5 (bonus), -3 (bomb) or 1 (normal) |
| BubbleEngine.InitialState | components/game.tsx:42-51 | the mounted state has no bubbles, score 0, 3 lives, 60 seconds, classic mode, and is not playing |
| BubbleEngine.SpawnBubble | components/game.tsx:101-112 | only a running game changes, only its bubble list changes, and a bubble is appended exactly when the field is empty or the coin draw exceeds 0.5 |
| BubbleEngine.UpdateBubbles | components/game.tsx:114-115 | a paused or stopped game is left unchanged |
| BubbleEngine.EscapedCount | components/game.tsx:125-127 | in survival mode the escaped bubbles are exactly the non-bomb bubbles whose bottom edge ends strictly above the area after the move |
| BubbleEngine.UpdateBubblesEffect | components/game.tsx:114-144 | a running tick changes only bubbles and lives; it keeps every moved bubble that is still visible and nothing else; outside survival mode lives are unchanged, in survival mode they drop by the number of escapes, floored at 0 |
| BubbleEngine.SurvivorsAppend | components/game.tsx:119-130 | the tick keeps the relative order of the surviving bubbles |
| BubbleEngine.TouchingTopIsNotPenalised | components/game.tsx:125-130 | in survival mode with non-negative lives, a bubble whose bottom edge lands exactly on the top edge is removed but costs no life |
| BubbleEngine.SurvivalEscape | components/game.tsx:125-136 | in survival mode an escaping normal bubble costs exactly one life and an escaping bomb costs none |
| BubbleEngine.TapPoints | components/game.tsx:193-195 | a bonus is worth 50 and a bomb -20; a normal bubble of at most 60 pixels is worth at least 10, and one from the spawn range is worth 6 to 47 |
| BubbleEngine.SmallerIsWorthMore | components/game.tsx:193 | of two normal bubbles the smaller one is worth at least as much |
| BubbleEngine.FindById | components/game.tsx:187 | no result exactly when no bubble has the id; otherwise the result is the first bubble with the id |
| BubbleEngine.PopBubble | components/game.tsx:184-216 | an unknown id leaves the state unchanged and reports nothing; a hit removes exactly the bubbles with that id, reports the new score, marks the game started, never leaves a negative score or more lives than before, and changes nothing else |
| BubbleEngine.PopScoring | components/game.tsx:193-211 | on a hit, a bonus adds 50, a bomb subtracts 20 and takes one life (both floored at 0), and a normal bubble adds 10 plus 0.8 per pixel below 60, rounded down; the report equals the stored score |
| BubbleEngine.PopShrinks | components/game.tsx:190 | a hit always removes at least one bubble |
| BubbleEngine.PopTwiceIsNoOp | components/game.tsx:187-190 | tapping the same id again finds nothing and changes nothing, so no tap scores twice |
| BubbleEngine.BonusAtThousand | components/game.tsx:194-209 | a bonus tapped at 1000 points stores and reports 1050 |
| BubbleEngine.StartState | components/game.tsx:219-234 | a new session is running and unpaused with no bubbles and score 0; it has 3 lives in survival (999 otherwise) and 60 seconds in time attack (999 otherwise) |
| BubbleEngine.EndGame | components/game.tsx:146-150 | ending clears the playing and paused flags and keeps every other field |
| BubbleEngine.TogglePause | components/game.tsx:236-238 | pausing flips the paused flag and nothing else |
| BubbleEngine.EndAndPauseAlgebra | components/game.tsx:146-238 | ending twice equals ending once, and toggling pause twice restores the state |
| BubbleEngine.StoppedIsFrozen | components/game.tsx:101-115 | a paused or stopped game neither moves nor spawns bubbles |
| BubbleEngine.TimerTick | components/game.tsx:253-260 | above one second the clock counts down by one and nothing else changes; at one second or less the session ends with the clock left as it is |
| BubbleEngine.CountdownPhase | components/game.tsx:254-259 | while the clock has not reached one, n ticks take exactly n seconds off and change nothing else |
| BubbleEngine.ClockRunsOut | components/game.tsx:253-260 | a session whose clock shows t >= 1 seconds still runs after t - 1 ticks, showing one second, and the t-th tick ends it; with the 60 seconds of a time-attack start that is exactly 60 ticks |
| BubbleEngine.LivesCheck | components/game.tsx:276-280 | a playing session with no lives left ends; any other state is left unchanged |
| BubbleSession.BubbleTap.constructor | components/game.tsx:41-59 | the component mounts in the menu with the initial state, no session token and no reports |
| BubbleSession.BubbleTap.StartGame | components/game.tsx:219-234 | a fresh token, the start state of the mode, the game view; no report is sent |
| BubbleSession.BubbleTap.PauseGame | components/game.tsx:236-238 | the state becomes `TogglePause` of the old state |
| BubbleSession.BubbleTap.EndGame | components/game.tsx:146-150 | the state becomes `EndGame` of the old state |
| BubbleSession.BubbleTap.ResetGame | components/game.tsx:240-243 | the session ends and the view returns to the menu |
| BubbleSession.BubbleTap.Spawn | components/game.tsx:101-112 | the state becomes `SpawnBubble` of the old state and keeps score and lives non-negative |
| BubbleSession.BubbleTap.Tick | components/game.tsx:114-144 | the state becomes `UpdateBubbles` of the old state and keeps score and lives non-negative |
| BubbleSession.BubbleTap.TimerTick | components/game.tsx:253-260 | the state becomes `TimerTick` of the old state |
| BubbleSession.BubbleTap.CheckLives | components/game.tsx:276-280 | the state becomes `LivesCheck` of the old state |
| BubbleSession.BubbleTap.Pop | components/game.tsx:184-216 | the state becomes `PopBubble` of the old state; a hit appends exactly one report with this session's token and the new score, and a miss sends nothing |
| Snake.Advance | components/SnakeGame.tsx:254-261 | the head moves exactly one cell, vertically for up and down and horizontally for left and right, towards larger coordinates for down and right |
| Snake.ReverseUndoes | components/SnakeGame.tsx:256-261 | moving back the opposite way returns to the start cell, and the opposite of the opposite is the direction itself |
| Snake.Turn | components/SnakeGame.tsx:226-237 | a pressed arrow replaces the queued direction unless it reverses the current direction, so the queued direction never becomes a reversal |
| Snake.StartSnake | components/SnakeGame.tsx:99-106 | three distinct in-grid cells with the head at the centre and each segment right of the next one |
| Snake.FirstFreeIndex | components/SnakeGame.tsx:28-40 | the retry chain stops at the first draw that is off the snake |
| Snake.FoodAfterEatingAsWritten | components/SnakeGame.tsx:284-292 | on an eating step the new food is only guaranteed to be off the snake from before the move |
| Snake.StaleFoodCheckCounterexample | components/SnakeGame.tsx:284-292 | from the start position, food on the cell the head then eats and a first draw on that cell leave the new food under the new head |
| Snake.SnakeGame.constructor | components/SnakeGame.tsx:303-305 | mounting runs `initGame`: the start snake heading right, food on the first free draw, score 0, not playing |
| Snake.SnakeGame.GenerateFood | components/SnakeGame.tsx:28-40 | the food becomes the first draw that is not on the snake |
| Snake.SnakeGame.InitGame | components/SnakeGame.tsx:91-121 | the start snake, food on a free cell, direction and queued direction right, score 0, game over cleared |
| Snake.SnakeGame.StartGame | components/SnakeGame.tsx:335-339 | `initGame` followed by playing: the start snake, food on the first free draw, direction right, score 0, playing, not over, high score kept |
| Snake.SnakeGame.KeyDown | components/SnakeGame.tsx:309-329 | space starts a game when none runs, with the whole post-state of `startGame`; an arrow applies `Turn` to the queued direction and changes no other field; any other key, or space during a game, changes nothing; the queued direction never reverses the current one |
| Snake.SnakeGame.Step | components/SnakeGame.tsx:249-296 | the direction becomes the queued one. A crash into a wall or a non-head segment leaves snake, food and score, stops the game and raises the high score to the score. Otherwise the new head is one cell on: eating grows the snake by one, adds 10 points and draws food off the new snake; not eating drops the tail. All segments stay in the grid and distinct, and the food stays off the snake |
| DodgerTick.SpawnObject | components/CryptoDodger.tsx:49-65 | a freeze exactly when the first draw is below 0.1; otherwise a coin exactly when the second is below 0.7. The object starts at the top, inside the field, falling at 2 (freeze) or 3 to 5 pixels per frame |
| DodgerTick.FreezeHalvesFall | components/CryptoDodger.tsx:75 | under the freeze an object falls exactly half as far, and never upwards |
| DodgerTick.ResolveObjects | components/CryptoDodger.tsx:69-94 | the loop over the objects computes exactly `Resolve` of the objects |
| DodgerTick.ResolveKeeps | components/CryptoDodger.tsx:91-93 | the objects kept are exactly the fallen objects neither caught nor past the bottom edge, in their original order |
| DodgerTick.ResolveScore | components/CryptoDodger.tsx:83-85 | the score rises by exactly 10 per caught coin |
| DodgerTick.ResolveLives | components/CryptoDodger.tsx:86-87 | lives drop by one per caught bomb, floored at zero |
| DodgerTick.ResolveFreeze | components/CryptoDodger.tsx:88-89 | a freeze is triggered exactly when some freeze object is caught |
| DodgerTick.ReportsRunningScore | components/CryptoDodger.tsx:84-85 | the k-th report carries the starting score plus 10 (k + 1), and the final score is 10 per report above the start |
| DodgerTick.ResolveReports | components/CryptoDodger.tsx:84-85 | exactly one report per caught coin, each with the running score, the last one equal to the final score |
| DodgerTick.ReportsIncrease | components/CryptoDodger.tsx:84-85 | the reports of one pass carry strictly increasing scores |
| DodgerTick.FreezeNeverCleared | components/CryptoDodger.tsx:100 | a pass never clears an active freeze: the new flag is the old flag or a caught freeze |
| DodgerGame.MovePlayer | components/CryptoDodger.tsx:185-186 | an arrow moves the box exactly 30 pixels, or to the edge only when 30 pixels would cross it, and the box stays within [0, 260] |
| DodgerGame.MoveBackAndForth | components/CryptoDodger.tsx:185-186 | away from the edges a left press is undone by a right press and vice versa; pressing towards an edge the box touches changes nothing |
| DodgerGame.CryptoDodger.constructor | components/CryptoDodger.tsx:29-47 | score 0, 3 lives, no objects, no freeze, not playing, the player at 150, no session token |
| DodgerGame.CryptoDodger.StartGame | components/CryptoDodger.tsx:124-138 | a fresh token, score 0, 3 lives, no objects, freeze off, playing, the player centred at 130, the spawn clock at now |
| DodgerGame.CryptoDodger.ResetGame | components/CryptoDodger.tsx:140-151 | score 0, 3 lives, no objects, freeze off, not playing; the player, token and reports are kept |
| DodgerGame.CryptoDodger.KeyDown | components/CryptoDodger.tsx:182-191 | while playing an arrow applies `MovePlayer`; otherwise the player stays |
| DodgerGame.CryptoDodger.ExpireFreeze | components/CryptoDodger.tsx:193-200 | the freeze timeout switches the freeze off |
| DodgerGame.CryptoDodger.HandleObjectLogic | components/CryptoDodger.tsx:67-104 | objects, lives and score become those of `Resolve`; the freeze flag is kept or raised; one coin report per caught coin is appended, tagged with the session token |
| DodgerGame.CryptoDodger.GameLoop | components/CryptoDodger.tsx:106-122 | a frame spawns an object when more than a second has passed, runs the object pass on the result, and stops the game exactly when no lives are left; the player, token, paused and started flags are kept |

## Left out

- Rendering: JSX, canvas drawing (`drawGame`), bubble colours, CSS and the pages under `app/`. None of it affects the game state.
- `lib/viem.ts` and the bodies of `sendTapTx`/`sendTx`: wallet loading, gas estimation, hex encoding and RPC. Each report is modelled only as an entry appended to `outbox`. Failures are swallowed by the source and never affect the game.
- The `?? crypto.randomUUID()` fallback for a missing session token is unreachable in the model. A report is only sent while a token exists: for Bubble Tap by the `Valid` invariant, for the dodger by `GameLoop`'s requirement that a game is playing.
- Scheduling: `setInterval`, `setTimeout`, `requestAnimationFrame`, effect ordering and timer cancellation. Each tick or handler is one atomic transition, and the timers only call it while it applies (`BubbleTap.TimerTick` requires a running time-attack session; `SnakeGame.Step` requires a running game).
- Stale React closures. Handlers read the current state. In the source, the dodger's `requestAnimationFrame` chain keeps calling the `gameLoop` memoized in the render before Start. Its `handleObjectLogic` tests collisions at that render's `playerX` (150 in the first game), whatever the player does. Its `gameState.lives <= 0` check always sees that render's lives (3), so the dodger never ends on lives. `CryptoDodger.GameLoop` instead uses the current player position and checks the lives after the pass.
- The two-second `hasStarted` warm-up timer of Bubble Tap. It only sets a display flag.
- The deferred `endGame` that a fatal bomb tap schedules. `BubbleTap.CheckLives` covers it, since that watcher has the same effect on a playing session.
- Fresh-id generation: uuids and `Math.random().toString(36)` ids are parameters, and their uniqueness is not modelled.
- `createBubble` returns `{}` when the game area is not mounted. The model always receives an `Area`.
- Floating-point rounding. Reals are exact.
- The older `gameLoop` of `SnakeGame.tsx` (lines 124-218) refers to an undefined canvas context and is never scheduled; only `gameStep` is modelled.
- Snake.SnakeGame.GenerateFood: requires that some draw is off the snake. The source recurses without bound until one is, and on a full grid it would never stop.
- Snake.SnakeGame.Step: requires, on an eating step, that some draw is off the new snake, for the same reason.
- `initGame`'s early return when the canvas is missing. The model always has a canvas.
- The time-attack clock never reaches 0: the tick at one second ends the game instead.
- `popBubble` checks neither the paused nor the playing flag. In the page, the PAUSED overlay (shown while paused) and the GAME OVER overlay (shown while not playing) cover the bubbles and block taps. `BubbleTap.Pop`, like `popBubble`, accepts taps in any state.

## Findings

| source | as written | input that shows it | evidently intended | confidence | as-written member | corrected member |
|---|---|---|---|---|---|---|
| components/SnakeGame.tsx:284-292 | on an eating step `generateFood` runs before `snakeRef.current = newSnake`, so the new food is checked only against the snake before the move and may land under the new head | start snake (10,10),(9,10),(8,10) heading right, food at (11,10), first food draw (11,10): the draw is off the old snake, so the food is placed on the new head | food is always placed on a cell the snake does not occupy | not executed | Snake.StaleFoodCheckCounterexample | Snake.SnakeGame.Step |
