/**
 * The board's game-state machine as values: one function per entry point of `Board`, each
 * mapping the board's state before the call to its state after it. The class in board.dfy
 * performs the same updates in place and is proved against these functions.
 *
 * The snake and the apple are objects whose code is not part of this model. The state records
 * only what the board asks of them (how the snake was created, the moves and direction changes
 * it was asked for, in order, and how many times the apple was asked to move);
 * what they answer (`tryMove`, the apple/head comparison, `replace`) arrives as parameters.
 */
module GameSpec {
  import opened JavaLong
  import opened Points

  /** The board's constants: grid size, countdown, step interval. */
  const CellsAmount: Point2D := Point2D(10, 10)
  const PrepareTimeMs: int32 := 3000
  const SnakeStepMs: int64 := 200

  datatype GameState = InMenu | PreMatch | InProgress | Pause | PostMatch

  datatype Direction = Up | Down | Left | Right

  /** A call the board makes on the snake: `tryMove` or `tryAddNextDirection(d)`. */
  datatype SnakeRequest = Move | Steer(d: Direction)

  /** The snake of the current match, as far as the board has dealt with it: where it was
      created and the calls made on it since, in order. */
  datatype Snake = Snake(startHead: Point2D, requests: seq<SnakeRequest>)

  /** The apple of the current match: how many times it was asked to find a new cell. */
  datatype Apple = Apple(replaceRequests: nat)

  datatype BoardState = BoardState(
    gameState: GameState,
    prepareMatchTimestamp: int64,
    previousSnakeStepTimestamp: int64,
    snake: Snake,
    apple: Apple)

  /** Where a new snake's head is placed: the middle of the grid, by integer division. */
  function StartHead(): (p: Point2D)
    ensures p == Make(5, 5)
  {
    Make(CellsAmount.x / 2, CellsAmount.y / 2)
  }

  /** Milliseconds since `since`, as the board computes them with `long` subtraction. */
  function Elapsed(now: int64, since: int64): int64 {
    Sub(now, since)
  }

  /** The step is due once the step interval has passed since the previous one. */
  predicate StepDue(s: BoardState, now: int64) {
    Elapsed(now, s.previousSnakeStepTimestamp) >= SnakeStepMs
  }

  /** The countdown is over once the prepare time has passed since it started. */
  predicate CountdownOver(s: BoardState, now: int64) {
    Elapsed(now, s.prepareMatchTimestamp) >= PrepareTimeMs as int64
  }

  /** A due step ends the match when the move fails, or when the head reached the apple and
      the apple found no free cell. */
  predicate StepEndsMatch(moveOk: bool, headOnApple: bool, replaceOk: bool) {
    !moveOk || (headOnApple && !replaceOk)
  }

  /** `endMatch` */
  function EndMatch(s: BoardState): BoardState {
    s.(gameState := PostMatch)
  }

  /** `prepareForMatch`: a fresh snake and apple, the countdown timestamp at the first clock
      reading `now`, the step timestamp at the second one `now2`, and the countdown running
      unless the apple cannot be placed. Nothing of the previous state survives. */
  function PrepareForMatch(now: int64, now2: int64, replaceOk: bool): BoardState {
    BoardState(
      if replaceOk then PreMatch else PostMatch,
      now, now2,
      Snake(StartHead(), []),
      Apple(1))
  }

  /** The board right after construction. */
  function Initial(now: int64, now2: int64, replaceOk: bool): BoardState {
    PrepareForMatch(now, now2, replaceOk)
  }

  /** `tryRestart` */
  function TryRestart(s: BoardState, now: int64, now2: int64, replaceOk: bool): BoardState {
    if s.gameState == PostMatch then PrepareForMatch(now, now2, replaceOk) else s
  }

  /** `processPause` */
  function ProcessPause(s: BoardState): BoardState {
    s.(gameState :=
      if s.gameState == InProgress then Pause
      else if s.gameState == Pause then InProgress
      else s.gameState)
  }

  /** `addNextDirection` */
  function AddNextDirection(s: BoardState, d: Direction): BoardState {
    if s.gameState == InProgress then s.(snake := s.snake.(requests := s.snake.requests + [Steer(d)]))
    else s
  }

  /** `actionPerformed`: one tick of the UI timer at clock reading `now`. On a due step the
      snake is asked to move, the apple is asked to move whenever the head is on it (whether
      or not the move succeeded), and the step timestamp becomes `now`. */
  function Tick(s: BoardState, now: int64, moveOk: bool, headOnApple: bool, replaceOk: bool): BoardState {
    match s.gameState
    case PreMatch =>
      s.(gameState := if CountdownOver(s, now) then InProgress else PreMatch)
    case InProgress =>
      if !StepDue(s, now) then s
      else BoardState(
        if StepEndsMatch(moveOk, headOnApple, replaceOk) then PostMatch else InProgress,
        s.prepareMatchTimestamp,
        now,
        s.snake.(requests := s.snake.requests + [Move]),
        if headOnApple then Apple(s.apple.replaceRequests + 1) else s.apple)
    case _ => s
  }
}
