# Gomoku and pool: verified models of two browser game cores

This project models the game state of two small browser games, and proves
properties of those models in Dafny.

- **Gomoku** (`gomoku.js`): a 15 x 15 board, the player to move and the
  game-over flag. It covers the click gate, the move, the win scan along four
  axes, the draw scan, and restart.
- **Pool** (`script.js`): the balls and their per-frame motion with friction,
  the cushion pass, the pocket pass with its score and win test, and the
  "balls moving" query. It also covers the aiming state machine of the
  pointer handlers, pause, and reset.

Both cores change state in place, so each is modelled as Dafny classes whose
methods are proved against pure definitions:

| file | module | contents |
|---|---|---|
| `gomoku_rules.dfy` | `GomokuRules` | The board as a value (`seq<seq<Cell>>`). The run a move extends, the game's win test (`WinAt`), the geometric five-in-a-row (`FiveInRow`), the full board, and stone counts. Proves that the win test fires exactly when at least five stones of the mover lie in a row through the new stone. |
| `gomoku_game.dfy` | `Gomoku` | `class GomokuGame` with an `array2<Cell>` board updated in place. Its scans are loop methods proved against `GomokuRules`. |
| `pool_physics.dfy` | `PoolPhysics` | A ball as a value (`BallState`). One frame of motion, the cushion rule, pocket capture and points, the whole-table frame, shot power and launch, and the starting rack. |
| `pool_game.dfy` | `Pool` | `class Ball` and `class PoolGame`. They hold the fields the game rewrites, and their methods are proved against `PoolPhysics`. |

All pool quantities are exact reals. Where the game takes a square root, the
model states the defining relation instead:

- A distance `d` is given with `d >= 0 && d*d == dx*dx + dy*dy`.
- The capture test `sqrt(q) < R` is written `R > 0 && q < R*R`.

Three consequences of the code that a reader of the pool game might not
expect, each proved in the model:

- The colour list at `script.js:107` has 8 entries, but the rack loop at
  `script.js:114-115` runs rows 0..2 and so creates only 6 coloured balls.
  The win test fires once those 6 are potted (`SixColouredBalls`).
- The snap-to-rest test at `script.js:23` runs after the position update. A
  ball slower than 0.1 on both axes therefore still moves once by its
  velocity, and only then stops (`SlowBallDriftsOnce`).
- The "moving" test at `script.js:187` needs a speed above 0.1 on some axis,
  while the snap at `script.js:23` needs a speed below 0.1 on both axes. A
  ball at exactly 0.1 on one axis is therefore neither at rest nor moving,
  and a new shot may be aimed while it still drifts (`ThresholdGap`); friction
  does bring a ball to exactly that speed (`ThresholdReached`).

## Model

| member | source | states |
|---|---|---|
| Gomoku.GomokuGame.constructor | gomoku.js:2-16 | a new game has a 15 x 15 board, every cell empty, black to move, not over, stones balanced |
| Gomoku.GomokuGame.Init | gomoku.js:18-21 | a fresh empty 15 x 15 board, black to move, game running; the stone-balance invariant holds |
| Gomoku.GomokuGame.Restart | gomoku.js:177-179 | restarting yields the same state as initialising |
| Gomoku.GomokuGame.HandleCell | gomoku.js:34-50 | a click on a finished game, off the board or on an occupied cell changes nothing; otherwise the current player moves there, with the outcome of PlacePiece; the balance invariant is kept |
| Gomoku.GomokuGame.PlacePiece | gomoku.js:52-72 | exactly the target cell receives the mover's stone; the win test holds iff five in a row now pass through the cell; a win ends the game and keeps the mover, otherwise a full board ends it, otherwise the turn passes; a move from a balanced running game keeps black = white or black = white + 1 |
| Gomoku.GomokuGame.PutStone | gomoku.js:53 | one cell written, every other cell unchanged, the board value updated at that cell |
| Gomoku.GomokuGame.Conclude | gomoku.js:56-71 | the three exclusive outcomes of a move: win, draw, or turn change |
| Gomoku.GomokuGame.CheckWin | gomoku.js:74-103 | the scan returns true iff on some axis 1 + both runs of the current player reach 5 |
| Gomoku.GomokuGame.CountAxis | gomoku.js:83-95 | the count on one axis is 1 plus the runs in both directions |
| Gomoku.GomokuGame.WalkRun | gomoku.js:86-94 | the while loop counts exactly the contiguous run of the current player's stones from the neighbour, stopping at the edge or at the first other cell |
| Gomoku.GomokuGame.CheckDraw | gomoku.js:105-112 | the scan returns true iff no cell is empty |
| Gomoku.GomokuGame.BalancedAfterMove | gomoku.js:53-70 | black starting and strict alternation keep black = white (black to move) or black = white + 1 (white to move) |
| GomokuRules.Other | gomoku.js:70 | the turn always passes to the other player |
| GomokuRules.Direction | gomoku.js:75-80 | each direction of the table is a unit step, and the second of each pair is the opposite of the first |
| GomokuRules.AxesDistinct | gomoku.js:75-80 | the four axes of the direction table are four different lines: no direction of one axis is either direction of another |
| GomokuRules.RunOwns | gomoku.js:89-94 | every cell a run walks over holds the player's stone |
| GomokuRules.RunStops | gomoku.js:89-94 | the cell just past a run is off the board or not the player's stone |
| GomokuRules.RunCovers | gomoku.js:89-94 | k owned cells in a row from the start make the run at least k long |
| GomokuRules.AxisOwns | gomoku.js:82-95 | every cell between the ends of the two runs on an axis holds the player's stone |
| GomokuRules.CountGivesFive | gomoku.js:97-99 | an axis count of 5 or more means five consecutive stones through (row, col) |
| GomokuRules.FiveAhead | gomoku.js:85-94 | five in a row starting at offset s ≤ 0 make the forward run at least s + 4 |
| GomokuRules.FiveBehind | gomoku.js:85-94 | five in a row starting at offset s ≤ 0 make the backward run at least −s |
| GomokuRules.FiveGivesCount | gomoku.js:82-99 | five consecutive stones through (row, col) make that axis count reach 5 |
| GomokuRules.WinIffFive | gomoku.js:74-103 | with the player's stone on (row, col), the win test holds iff five in a row pass through it, in both directions |
| GomokuRules.OverlineWins | gomoku.js:97 | six or more in a row also win, since the test is "at least 5" |
| GomokuRules.CountRowSet | gomoku.js:53 | writing a stone over an empty cell of a row adds one of that colour and removes one empty |
| GomokuRules.CountGridSet | gomoku.js:53 | writing a stone over an empty cell of the board adds one of that colour and removes one empty |
| GomokuRules.CountRowTotal | gomoku.js:19 | every cell is empty, black or white |
| GomokuRules.CountRowNone | gomoku.js:108 | a row without a given cell value counts none of it |
| GomokuRules.FullStoneTotal | gomoku.js:105-112 | a full board holds 225 stones |
| GomokuRules.CountGridNone | gomoku.js:19 | the empty initial board holds no stones |
| GomokuRules.DrawOnBlack | gomoku.js:53-70 | when players alternate from Black, a move that fills the board (the draw) is always Black's |
| GomokuRules.FullBoardCounts | gomoku.js:64-68 | a balanced full board has 113 black and 112 white stones |
| Pool.Ball.constructor | script.js:2-12 | a new ball is at its position, at rest and on the table |
| Pool.Ball.Update | script.js:14-27 | the ball's new state is one frame of Stepped applied to its old state |
| PoolPhysics.Stepped | script.js:14-27 | a potted ball is unchanged; otherwise position += velocity, and the velocity is ×0.98 or, when both parts fall below 0.1, zero; it is at rest after the frame exactly when both damped parts fall below 0.1; after the frame the ball is at rest or at least 0.1 on some axis; speed never grows; a ball at rest stays put |
| PoolPhysics.FramesAdd | script.js:14-27 | n + m motion frames of one ball are n motion frames followed by m |
| PoolPhysics.FrozenStays | script.js:14-26 | a ball at rest or potted is unchanged by any number of frames |
| PoolPhysics.ComesToRest | script.js:20-26 | every frame that leaves a ball moving removes at least 0.002 of its speed, so a speed of at most (n+1)·0.002 is gone after n+1 frames |
| PoolPhysics.EventuallyAtRest | script.js:20-26 | every free ball reaches rest after finitely many frames and stays at rest from then on |
| PoolPhysics.SlowBallDriftsOnce | script.js:17-26 | a ball below 0.1 on both axes still moves by its velocity once, then rests |
| PoolPhysics.ThresholdGap | script.js:186-188 | a ball at exactly 0.1 on one axis and at most 0.1 on the other is neither moving nor at rest, moves in the next frame, and only then rests |
| PoolPhysics.ThresholdReached | script.js:14-27 | one frame of friction takes a ball at 0.1 / 0.98 to exactly 0.1, where it is neither at rest nor moving |
| PoolPhysics.BounceAxis | script.js:242-250 | crossing an edge reverses the velocity and scales it by 0.8; a ball inside is untouched; with 2r ≤ size the centre is clamped into [r, size − r]: to r past the low edge, to size − r past the high edge, unchanged otherwise |
| PoolPhysics.Bounced | script.js:239-251 | potted balls are skipped; a ball that fits ends with its centre inside the cushions on both axes |
| PoolPhysics.CapturePointsPositive | script.js:257-263 | the pockets earn points for a ball iff some pocket captures it |
| PoolPhysics.PocketedMeaning | script.js:254-263 | after the pocket pass a ball is potted iff it was already, or some pocket captures it; position and velocity do not change |
| PoolPhysics.ColourGainPositive | script.js:254-267 | a pocket pass scores iff a pocket captures a coloured ball still on the table |
| PoolPhysics.CueEarnsNothing | script.js:264-276 | whatever happens to the cue ball does not change the points of a pass |
| PoolPhysics.SomeMoving | script.js:186-188 | true iff some ball is on the table with speed above 0.1 on some axis |
| PoolPhysics.PottedCount | script.js:292-295 | the potted count equals the number of balls iff every ball is potted |
| PoolPhysics.AdvancedKeepsTable | script.js:336-339 | over a running frame (motion, cushions, pockets, in that order) a potted ball is untouched; a ball on the table ends potted exactly when a pocket captures it after the cushion step; a ball on the table that fits between the cushions ends the frame with its centre inside them |
| PoolPhysics.QuietTableStays | script.js:335-339 | a running frame leaves the table unchanged when every ball is potted, or at rest, clear of the cushions and outside every pocket |
| PoolPhysics.Power | script.js:148 | the power is d/10 capped at 20: within [0, 20], at most d/10, and equal to one of the two |
| PoolPhysics.LaunchTowardsRelease | script.js:163-168 | a shot sends the cue ball straight at the release point, with speed power·0.3, never above 6 |
| PoolPhysics.RackRow | script.js:115-122 | a rack row holds balls 0 .. n−1 of that row in column order |
| PoolPhysics.RackSize | script.js:114-123 | a rack of n rows holds n(n+1)/2 balls |
| PoolPhysics.RackGrows | script.js:114-123 | more rows never hold fewer balls |
| PoolPhysics.RackAtRest | script.js:114-123 | every rack ball starts at rest, on the table, with radius 12 |
| PoolPhysics.SixColouredBalls | script.js:107-123 | the three-row rack holds 6 balls, fewer than the 8 colours listed |
| PoolPhysics.FreshTableNotWon | script.js:292-295 | the win test cannot fire on a freshly set up table: it has coloured balls on it |
| PoolPhysics.Pockets | script.js:92-100 | six pockets, all of radius 25 |
| Pool.PoolGame.constructor | script.js:67-85 | a new session: rack set up, nothing aimed, score 0, running |
| Pool.PoolGame.SetupGame | script.js:87-124 | new pockets, the cue ball at its start followed by the rack in creation order, 7 fresh balls coloured in list order |
| Pool.PoolGame.PlaceRack | script.js:113-123 | the row loop places the whole rack behind the cue ball, one fresh ball per position, coloured in list order |
| Pool.PoolGame.AddRackRow | script.js:115-122 | one pass of the column loop extends the placed balls from the first `row` rows to the first `row + 1` rows, with fresh balls |
| Pool.PoolGame.AppendBall | script.js:119 | a ball not yet listed is appended, and the list still has no duplicates |
| Pool.PoolGame.BallsMoving | script.js:186-188 | true iff some ball is on the table with speed above 0.1 on some axis |
| Pool.PoolGame.UpdateScore | script.js:288-301 | the win test fires iff every ball except the cue ball is potted |
| Pool.PoolGame.Tick | script.js:335-340 | paused: no ball changes and nothing scores; running: the balls become Advanced of their old states, the score grows by the pass's points, and the win test fires iff something scored and every coloured ball is potted |
| Pool.PoolGame.BoundaryPass | script.js:239-251 | every ball becomes Bounced of its old state |
| Pool.PoolGame.PocketPass | script.js:253-279 | every ball becomes Pocketed of its old state; the score grows by ColourGain; the win test fires iff points were scored and every coloured ball ends potted |
| Pool.PoolGame.CheckPockets | script.js:257-278 | one ball against every pocket: +10 per capturing pocket for a coloured ball and 0 for the cue ball, potted iff captured, other balls untouched |
| Pool.PoolGame.RespawnCue | script.js:269-275 | the cue ball returns to (200, H/2), at rest and on the table |
| Pool.PoolGame.MouseDown | script.js:127-135 | aiming starts with power 0 only while running with no ball moving; otherwise nothing changes |
| Pool.PoolGame.MouseMove | script.js:137-150 | while aiming, the power becomes min(d/10, 20); otherwise it is unchanged |
| Pool.PoolGame.MouseUp | script.js:152-174 | a release more than 10 away while aiming gives the cue ball the launch velocity; aiming always ends with power 0 |
| Pool.PoolGame.TogglePause | script.js:180-183 | pause flips the running flag |
| Pool.PoolGame.ResetGame | script.js:303-308 | score 0, running, a fresh rack; the win test it runs first fires iff every coloured ball of the old rack was potted |
| Pool.PoolGame.ResetGameCorrected | script.js:303-308 | the same reset with the win test after the new rack is set up: it never fires |

## Left out

- Drawing and DOM access: `drawBoard`, `drawPiece`, `Ball.draw`, `Pocket.draw`, `PoolGame.draw`, `updatePlayerDisplay`, `updatePowerMeter`, and the messages and button labels. They only write to the display.
- Event-listener registration (gomoku.js:26-32, script.js:126-184). Each `init` registers the click and restart listeners again. The duplicated click handlers find the cell occupied or the game over and do nothing. The duplicated restart handlers re-run `init`, which yields the same state as a single run. Each restart click therefore doubles both listener lists (2^n after n restarts), a cost that is not modelled.
- Pixel-to-cell rounding in `handleClick` (gomoku.js:37-43): HandleCell starts from integer (row, col).
- The ball–ball collision pass (script.js:192-235): it is built on `atan2`, `sin`, `cos` and `sqrt` of floats, so Tick runs motion, cushions and pockets only.
- Pool.PoolGame.Tick: does not model the collision pass between motion and cushions (see the line above).
- Square roots: distances are passed to MouseMove and MouseUp as a `d` satisfying `IsDistance`, and `cos(atan2(dy, dx))` is written exactly as `dx / d`.
- Floating point: all quantities are exact reals, so IEEE rounding of friction, restitution and the rack layout is not modelled.
- Timers: the cue-ball respawn after 1 s (script.js:269-275) is the separate operation RespawnCue. The source's timer acts on the ball object it captured; RespawnCue acts on the current cue ball, so a respawn that fires after a reset within that second (which leaves the captured ball off the table) is not modelled. The win alert and reset after 0.5 s (script.js:296-299) are surfaced only as the `won` result of UpdateScore, CheckPockets, PocketPass, Tick and ResetGame.
- The count of scheduled alerts: a pass in which several pocket tests fire the win test is reported as one `won`.
- `aimStartX` and `aimStartY` are recorded by MouseDown but only used for drawing the aim line.
- The request for the next animation frame in `gameLoop` (script.js:341-342): Tick models one frame, and a sequence of Ticks is not composed. FramesAdd composes only the motion frames of one ball.
- The first `gameLoop()` call in the constructor (script.js:84): the constructor stops at the set-up state, and that first frame is one Tick. QuietTableStays shows the frame changes nothing when every ball is at rest, clear of the cushions and outside every pocket.
- Ball `mass` and the friction field are kept as a constructor argument and a constant; mass only matters in the collision pass.
- `eclipse-script.js` is not part of this model. It is a random star and particle animation without game state.

## Findings

| source | as written | input that shows it | evidently intended | confidence | as-written member | corrected member |
|---|---|---|---|---|---|---|
| script.js:303-306 | `resetGame` runs the win test (`updateScore`) before `setupGame`, on the balls of the session that is ending | pot all 6 coloured balls: the win timer calls `resetGame`, whose win test sees 6 of 6 potted and schedules a second alert and reset 0.5 s later | one alert per win; the win test after a reset sees the new rack and does not fire | not executed; the order of the two calls is plain in the code | Pool.PoolGame.ResetGame | Pool.PoolGame.ResetGameCorrected |
