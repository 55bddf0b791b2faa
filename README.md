# Snake board controller in Dafny

A model of the game controller of a small Swing Snake game (`Board`) and of its grid point
type (`Point2D`), with proofs of what the controller's state machine guarantees.

`Board` runs a five-state machine (menu, countdown before the match, match in progress,
paused, match over) from a 20 ms UI timer. A tick during the countdown starts the match
once 3000 ms have passed since the countdown began. A tick during the match performs a
snake step once 200 ms have passed since the previous step. A step asks the snake to move,
then asks the apple to find a new cell if the head is on it. The match ends when the move
fails or the apple finds no free cell. Keys restart a finished match, toggle pause and
buffer a direction for the snake.

Files:

- `java_long.dfy` (module `JavaLong`): Java `long` and its wrapping subtraction, used for
  the elapsed-time tests.
- `points.dfy` (module `Points`): `Point2D` as a datatype of two Java `int`s. Java
  references are modelled as an address plus the fields they point to. That keeps the
  identity check that `equals` makes before comparing fields.
- `game_spec.dfy` (module `GameSpec`): the board's state as a value, and one function per
  entry point (`Tick`, `PrepareForMatch`, `TryRestart`, `ProcessPause`, `AddNextDirection`,
  `EndMatch`) giving the state after the call.
- `board.dfy` (module `Game`): class `Board` with the Java class's mutable fields. Its
  methods update them in place, branch for branch as the Java methods do. Each method is
  proved to leave `View()` equal to the `GameSpec` function applied to the old state.
- `game_properties.dfy` (module `GameProperties`): lemmas about the state machine for single
  calls and for any sequence of timer ticks and key presses (`Run`).

The snake and the apple are objects whose code is not part of this model. The board's state
records only what the board asks of them: where the snake was created, the sequence of
moves and direction changes it was asked for, in order, and how many times the apple was
asked to move. Their answers are parameters of `Tick`, `PrepareForMatch` and `TryRestart`:
`moveOk` for `snake.tryMove`, `headOnApple` for `apple.getLocation().equals(snake.getHeadPos())`
and `replaceOk` for `apple.replace`. The clock reading `System.currentTimeMillis()` is the
parameter `now`. `prepareForMatch` reads the clock twice, once per timestamp, so it takes two
readings, `now` and `now2`.

Two behaviours of the code are kept on purpose. First, the apple/head comparison runs even
after a failed move (`Board.java:79-86`). The model follows the code, not the reading in which
the apple is checked only after a successful move. Second, the step timestamp is not frozen
by a pause. So the first tick after resuming steps at once if 200 ms have passed since the
last step before the pause (`ResumeDoesNotResetStepTimer`).

## Model

| member | source | states |
|---|---|---|
| JavaLong.Wrap | src/com/example/snake/Board.java:73-78 | a `long` result agrees with the mathematical value modulo 2^64, and equals it when it fits |
| JavaLong.Sub | src/com/example/snake/Board.java:73 | `long` subtraction wraps modulo 2^64 and is exact when the difference fits |
| JavaLong.SubExactOnClockReadings | src/com/example/snake/Board.java:70-78 | subtracting two non-negative clock readings never wraps |
| Points.Origin | src/com/example/snake/Point2D.java:4-7 | the no-argument constructor yields (0, 0) |
| Points.Make | src/com/example/snake/Point2D.java:9-12 | the two-argument constructor stores its arguments unchanged |
| Points.Clone | src/com/example/snake/Point2D.java:14-17 | `clone` gives a new object, distinct from the original, with the same coordinates |
| Points.Equals | src/com/example/snake/Point2D.java:20-30 | the reference check, then the `instanceof` test, then the comparison of both fields: never true for `null`, and on a consistent heap true exactly for a point with the same fields |
| Points.EqualsIffSameCoordinates | src/com/example/snake/Point2D.java:20-30 | `equals` on two points holds exactly when both `x` and `y` agree, reference check included |
| Points.EqualsReflexive | src/com/example/snake/Point2D.java:21-29 | a point equals itself; the reference check and the skipped field comparison agree |
| Points.EqualsSymmetric | src/com/example/snake/Point2D.java:29 | `p.equals(q) == q.equals(p)` for points |
| Points.EqualsTransitive | src/com/example/snake/Point2D.java:29 | `p.equals(q)` and `q.equals(r)` give `p.equals(r)` |
| Points.EqualsNonPointFalse | src/com/example/snake/Point2D.java:25-27 | comparing with `null` or an object of another class gives false |
| Points.CloneEqualsOriginal | src/com/example/snake/Point2D.java:15-17 | a clone is not the same object, yet equals its original in both directions |
| GameSpec.StartHead | src/com/example/snake/Board.java:16 | a new snake's head is at (10/2, 10/2) = (5, 5) |
| Game.Board.constructor | src/com/example/snake/Board.java:25-41 | the board starts in the menu state and then prepares the first match |
| Game.Board.Tick | src/com/example/snake/Board.java:68-94 | the in-place tick yields exactly the state `GameSpec.Tick` gives from the old state |
| Game.Board.PrepareForMatch | src/com/example/snake/Board.java:96-107 | the in-place preparation, with one clock reading per timestamp, yields exactly `GameSpec.PrepareForMatch` |
| Game.Board.TryRestart | src/com/example/snake/Board.java:109-113 | the in-place restart yields exactly `GameSpec.TryRestart` of the old state |
| Game.Board.ProcessPause | src/com/example/snake/Board.java:115-126 | the in-place pause toggle yields exactly `GameSpec.ProcessPause` of the old state |
| Game.Board.AddNextDirection | src/com/example/snake/Board.java:128-132 | the in-place direction input yields exactly `GameSpec.AddNextDirection` of the old state |
| Game.Board.EndMatch | src/com/example/snake/Board.java:134-136 | sets the match over and changes no other field |
| GameProperties.PreMatchTick | src/com/example/snake/Board.java:19-76 | a countdown tick starts the match exactly when `now - prepareMatchTimestamp >= 3000`, else changes nothing, and never touches a timestamp |
| GameProperties.PreMatchTickOnClockReadings | src/com/example/snake/Board.java:72-76 | with non-negative clock readings the countdown test is plain integer subtraction |
| GameProperties.InProgressTickNotDue | src/com/example/snake/Board.java:20-78 | a running tick less than 200 ms after the last step changes nothing and asks for no move |
| GameProperties.DueStepRecordsTimestamp | src/com/example/snake/Board.java:78-87 | a due step asks for exactly one move, asks the apple to move exactly when the head is on it, and sets the step timestamp to `now`, also when the match ends |
| GameProperties.DoubleFailureEndsMatch | src/com/example/snake/Board.java:79-87 | when both the move and the apple placement fail, the match is over and the step is still recorded at `now` |
| GameProperties.DueStepOutcome | src/com/example/snake/Board.java:79-86 | a due step ends the match exactly when `!moveOk || (headOnApple && !replaceOk)`, else the match runs on |
| GameProperties.FailedMoveStillChecksApple | src/com/example/snake/Board.java:79-86 | after a failed move the apple is still asked to move when the head is on it, and the match is over |
| GameProperties.EndMatchIdempotent | src/com/example/snake/Board.java:134-136 | ending a match twice is the same as ending it once |
| GameProperties.IdleTickChangesNothing | src/com/example/snake/Board.java:90-92 | a tick in the menu, in a paused match or after the match changes nothing |
| GameProperties.PauseSwaps | src/com/example/snake/Board.java:115-126 | pause swaps running and paused, is a no-op in other states, and touches nothing but the state |
| GameProperties.PauseTwiceRestores | src/com/example/snake/Board.java:115-126 | two pause presses from a running or paused match restore the board exactly |
| GameProperties.RestartBehaviour | src/com/example/snake/Board.java:96-113 | restart is a no-op unless the match is over; then the timestamps take the two clock readings, the snake starts anew at (5, 5), the apple is placed once, and the state is the countdown exactly when placement succeeds, else match over |
| GameProperties.DirectionForwardedOnlyInProgress | src/com/example/snake/Board.java:128-132 | a direction is forwarded to the snake only while the match runs, and has no effect otherwise |
| GameProperties.InitialStarted | src/com/example/snake/Board.java:31-42 | the constructed board satisfies the board invariant, so it has left the menu |
| GameProperties.ApplyPreservesStarted | src/com/example/snake/Board.java:68-136 | every tick and key press keeps the board invariant |
| GameProperties.RunPreservesStarted | src/com/example/snake/Board.java:68-136 | any sequence of ticks and key presses keeps the board invariant |
| GameProperties.NeverInMenuAgain | src/com/example/snake/Board.java:25-41 | once constructed, the board never returns to the menu state |
| GameProperties.TimestampsComeFromClock | src/com/example/snake/Board.java:87-98 | the countdown timestamp only ever takes the first reading of a restart, the step timestamp the reading of a tick or the second reading of a restart; pause and direction keys never set them |
| GameProperties.PausedBoardIsFrozen | src/com/example/snake/Board.java:90-132 | while paused, no tick, restart or direction key changes the board |
| GameProperties.ResumeDoesNotResetStepTimer | src/com/example/snake/Board.java:78-126 | pausing and resuming leaves the board as it was, so a step is due at once if 200 ms passed since the last step before the pause |
| GameProperties.FirstStepRightAfterCountdown | src/com/example/snake/Board.java:73-98 | when the two readings of `prepareForMatch` are at most 2800 ms apart, the tick that ends the countdown makes a snake step due at every later clock reading |
| GameProperties.LateSecondReadingDelaysFirstStep | src/com/example/snake/Board.java:73-98 | with readings 2801 ms apart the countdown ends with no step due yet, so the 2800 ms bound above cannot be dropped |

## Left out

- Swing and AWT plumbing: the panel setup, the `Timer` creation and start, the key listener
  and `Toolkit.sync` (`Board.java:31-39`, `65`). `TICK_MS` (`Board.java:18`) is the timer period and
  is not modelled. `CELL_SIZE` (`Board.java:17`) sizes the panel and is passed to the `Snake`
  and `Apple` constructors (`Board.java:102-103`); it is not modelled because their code is
  abstracted.
- `paintComponent`, `paintText` and `repaint`: drawing, font metrics and text centring. The
  countdown text uses float arithmetic (`Math.ceil((float) ... / 1000)`) only for display.
- The clock: `System.currentTimeMillis()` is the parameter `now` of `Tick`,
  `PrepareForMatch`, `TryRestart` and the constructor, which take a second reading `now2`
  for the second read at `Board.java:98`. No order between readings is assumed.
- The code of `Snake` and `Apple` (movement, collision, growth, random placement, drawing)
  is not part of this model. Their answers are parameters, and the board's state records
  only the requests it sends them. The bounds and apple location passed to `tryMove` are
  therefore not represented.
- The source files of the `GameState` and `Direction` enums are not among the files modelled.
  The datatypes are written from the names `Board.java` uses; `Direction` is taken to be up, down, left and right.
- `Point2D`'s public fields are mutable in Java. No code in the modelled files mutates them,
  so points are immutable values here.
- Concurrency: each entry point is treated as atomic, and calls run one at a time. In Java
  this holds because the Swing timer and the key listener both call in on the event thread.
  The constructor starts the timer (`Board.java:38-39`) before it calls `prepareForMatch()`
  (`Board.java:41`); the model assumes no tick runs before construction completes.
