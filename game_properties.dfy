/**
 * What the board's state machine guarantees: the effect of each entry point in each state,
 * and what holds along any sequence of timer ticks and key presses after construction.
 */
module GameProperties {
  import opened JavaLong
  import opened Points
  import opened GameSpec

  // ---------------------------------------------------------------------------------------
  // One tick

  /** During the countdown a tick starts the match exactly when the prepare time has passed,
      and changes nothing else: no timestamp, no snake, no apple. */
  lemma PreMatchTick(s: BoardState, now: int64, moveOk: bool, headOnApple: bool, replaceOk: bool)
    requires s.gameState == PreMatch
    ensures var r := Tick(s, now, moveOk, headOnApple, replaceOk);
      && (r.gameState == InProgress <==> Sub(now, s.prepareMatchTimestamp) >= PrepareTimeMs as int64)
      && (r.gameState != InProgress ==> r == s)
      && r == s.(gameState := r.gameState)
  {
  }

  /** With real clock readings (never negative) the countdown test is plain subtraction. */
  lemma PreMatchTickOnClockReadings(s: BoardState, now: int64, moveOk: bool, headOnApple: bool, replaceOk: bool)
    requires s.gameState == PreMatch
    requires now >= 0 && s.prepareMatchTimestamp >= 0
    ensures Tick(s, now, moveOk, headOnApple, replaceOk).gameState == InProgress
        <==> now as int - s.prepareMatchTimestamp as int >= PrepareTimeMs as int
  {
    SubExactOnClockReadings(now, s.prepareMatchTimestamp);
  }

  /** Between two steps a running match's tick does nothing at all: the snake is not asked to
      move and neither the state nor any timestamp changes. */
  lemma InProgressTickNotDue(s: BoardState, now: int64, moveOk: bool, headOnApple: bool, replaceOk: bool)
    requires s.gameState == InProgress
    requires Sub(now, s.previousSnakeStepTimestamp) < SnakeStepMs
    ensures Tick(s, now, moveOk, headOnApple, replaceOk) == s
  {
  }

  /** A due step asks the snake to move exactly once, asks the apple to move whenever the head
      is on it, and records `now` as the step time, whatever the outcome, the end of the match
      included. */
  lemma DueStepRecordsTimestamp(s: BoardState, now: int64, moveOk: bool, headOnApple: bool, replaceOk: bool)
    requires s.gameState == InProgress
    requires Sub(now, s.previousSnakeStepTimestamp) >= SnakeStepMs
    ensures var r := Tick(s, now, moveOk, headOnApple, replaceOk);
      && r.previousSnakeStepTimestamp == now
      && r.prepareMatchTimestamp == s.prepareMatchTimestamp
      && r.snake == s.snake.(requests := s.snake.requests + [Move])
      && r.apple.replaceRequests == s.apple.replaceRequests + (if headOnApple then 1 else 0)
  {
  }

  /** When both the move and the apple placement fail, the match is over and the step is
      still recorded at `now`. */
  lemma DoubleFailureEndsMatch(s: BoardState, now: int64)
    requires s.gameState == InProgress
    requires Sub(now, s.previousSnakeStepTimestamp) >= SnakeStepMs
    ensures var r := Tick(s, now, false, true, false);
      && r.gameState == PostMatch
      && r.previousSnakeStepTimestamp == now
      && r.apple.replaceRequests == s.apple.replaceRequests + 1
  {
  }

  /** A due step ends the match exactly when the move fails or the eaten apple cannot be
      replaced; otherwise the match goes on. */
  lemma DueStepOutcome(s: BoardState, now: int64, moveOk: bool, headOnApple: bool, replaceOk: bool)
    requires s.gameState == InProgress
    requires Sub(now, s.previousSnakeStepTimestamp) >= SnakeStepMs
    ensures var r := Tick(s, now, moveOk, headOnApple, replaceOk);
      && (r.gameState == PostMatch <==> !moveOk || (headOnApple && !replaceOk))
      && (r.gameState != PostMatch ==> r.gameState == InProgress)
  {
  }

  /** After a failed move the apple check still runs: the apple is asked to move when the head
      is on it, and the match is over however `replace` answers. */
  lemma FailedMoveStillChecksApple(s: BoardState, now: int64, headOnApple: bool, replaceOk: bool)
    requires s.gameState == InProgress
    requires Sub(now, s.previousSnakeStepTimestamp) >= SnakeStepMs
    ensures var r := Tick(s, now, false, headOnApple, replaceOk);
      && r.gameState == PostMatch
      && r.apple.replaceRequests == s.apple.replaceRequests + (if headOnApple then 1 else 0)
  {
  }

  /** A match that fails twice in one step (the move, then the apple) ends only once. */
  lemma EndMatchIdempotent(s: BoardState)
    ensures EndMatch(EndMatch(s)) == EndMatch(s)
    ensures EndMatch(s).gameState == PostMatch
  {
  }

  /** In the menu, in a paused match and after the match a tick changes nothing. */
  lemma IdleTickChangesNothing(s: BoardState, now: int64, moveOk: bool, headOnApple: bool, replaceOk: bool)
    requires s.gameState in {InMenu, Pause, PostMatch}
    ensures Tick(s, now, moveOk, headOnApple, replaceOk) == s
  {
  }

  // ---------------------------------------------------------------------------------------
  // Keys

  /** The pause key swaps a running and a paused match, does nothing in any other state, and
      never touches the timestamps, the snake or the apple. */
  lemma PauseSwaps(s: BoardState)
    ensures var r := ProcessPause(s);
      && (s.gameState == InProgress ==> r.gameState == Pause)
      && (s.gameState == Pause ==> r.gameState == InProgress)
      && (s.gameState !in {InProgress, Pause} ==> r == s)
      && r == s.(gameState := r.gameState)
  {
  }

  /** Pressing pause twice in a running or paused match restores the board exactly. */
  lemma PauseTwiceRestores(s: BoardState)
    requires s.gameState in {InProgress, Pause}
    ensures ProcessPause(ProcessPause(s)) == s
  {
  }

  /** Restart does nothing before the match is over. After it, the timestamps take the two
      clock readings `now` and `now2`, the new snake starts at (5, 5) with nothing asked of it,
      and the countdown runs unless the new apple cannot be placed. */
  lemma RestartBehaviour(s: BoardState, now: int64, now2: int64, replaceOk: bool)
    ensures var r := TryRestart(s, now, now2, replaceOk);
      && (s.gameState != PostMatch ==> r == s)
      && (s.gameState == PostMatch ==>
           && r.prepareMatchTimestamp == now
           && r.previousSnakeStepTimestamp == now2
           && (r.gameState == PreMatch <==> replaceOk)
           && (r.gameState != PreMatch ==> r.gameState == PostMatch)
           && r.snake == Snake(Point2D(5, 5), [])
           && r.apple == Apple(1))
  {
  }

  /** A direction reaches the snake, after every earlier request, only while the match runs;
      in any other state the key has no effect. */
  lemma DirectionForwardedOnlyInProgress(s: BoardState, d: Direction)
    ensures var r := AddNextDirection(s, d);
      && (s.gameState == InProgress ==> r == s.(snake := s.snake.(requests := s.snake.requests + [Steer(d)])))
      && (s.gameState != InProgress ==> r == s)
  {
  }

  // ---------------------------------------------------------------------------------------
  // Any sequence of events

  /** What reaches the board from outside: a timer tick (with the clock reading and the
      answers of the snake and the apple), or a key press. */
  datatype Event =
    | TimerTick(now: int64, moveOk: bool, headOnApple: bool, replaceOk: bool)
    | RestartKey(now: int64, now2: int64, replaceOk: bool)
    | PauseKey
    | DirectionKey(d: Direction)

  function Apply(s: BoardState, e: Event): BoardState {
    match e
    case TimerTick(now, moveOk, headOnApple, replaceOk) => Tick(s, now, moveOk, headOnApple, replaceOk)
    case RestartKey(now, now2, replaceOk) => TryRestart(s, now, now2, replaceOk)
    case PauseKey => ProcessPause(s)
    case DirectionKey(d) => AddNextDirection(s, d)
  }

  /** The board after the events `evs`, in order. */
  function Run(s: BoardState, evs: seq<Event>): BoardState
    decreases |evs|
  {
    if evs == [] then s else Run(Apply(s, evs[0]), evs[1..])
  }

  /** The first clock readings of the restarts in `evs`: the ones a countdown can start at. */
  function RestartReadings(evs: seq<Event>): set<int64>
    decreases |evs|
  {
    if evs == [] then {}
    else (if evs[0].RestartKey? then {evs[0].now} else {}) + RestartReadings(evs[1..])
  }

  /** The readings a step timestamp can take: those of the ticks and the second readings of
      the restarts in `evs`. */
  function StepReadings(evs: seq<Event>): set<int64>
    decreases |evs|
  {
    if evs == [] then {}
    else (if evs[0].TimerTick? then {evs[0].now} else if evs[0].RestartKey? then {evs[0].now2} else {})
         + StepReadings(evs[1..])
  }

  /** What holds of every board from construction on: it has left the menu for good, its snake
      started in the middle of the grid, its apple was placed at least once, and during a
      countdown the snake has been neither moved nor steered. */
  predicate Started(s: BoardState) {
    && s.gameState != InMenu
    && s.snake.startHead == StartHead()
    && s.apple.replaceRequests >= 1
    && (s.gameState == PreMatch ==> s.snake.requests == [])
  }

  lemma InitialStarted(now: int64, now2: int64, replaceOk: bool)
    ensures Started(Initial(now, now2, replaceOk))
  {
  }

  lemma ApplyPreservesStarted(s: BoardState, e: Event)
    requires Started(s)
    ensures Started(Apply(s, e))
  {
  }

  lemma {:induction false} RunPreservesStarted(s: BoardState, evs: seq<Event>)
    requires Started(s)
    ensures Started(Run(s, evs))
    decreases |evs|
  {
    if evs != [] {
      ApplyPreservesStarted(s, evs[0]);
      RunPreservesStarted(Apply(s, evs[0]), evs[1..]);
    }
  }

  /** Once constructed, the board never returns to the menu state, whatever happens. */
  lemma NeverInMenuAgain(now: int64, now2: int64, replaceOk: bool, evs: seq<Event>)
    ensures Run(Initial(now, now2, replaceOk), evs).gameState != InMenu
  {
    InitialStarted(now, now2, replaceOk);
    RunPreservesStarted(Initial(now, now2, replaceOk), evs);
  }

  /** The timestamps only ever take clock readings: the countdown timestamp is its starting
      value or the first reading of a restart, the step timestamp its starting value, the
      reading of a tick or the second reading of a restart. Pause and direction keys set none. */
  lemma {:induction false} TimestampsComeFromClock(s: BoardState, evs: seq<Event>)
    ensures var r := Run(s, evs);
      && (r.prepareMatchTimestamp == s.prepareMatchTimestamp || r.prepareMatchTimestamp in RestartReadings(evs))
      && (r.previousSnakeStepTimestamp == s.previousSnakeStepTimestamp || r.previousSnakeStepTimestamp in StepReadings(evs))
    decreases |evs|
  {
    if evs != [] {
      TimestampsComeFromClock(Apply(s, evs[0]), evs[1..]);
    }
  }

  /** While the match is paused, no tick, restart or direction key changes anything. */
  lemma {:induction false} PausedBoardIsFrozen(s: BoardState, evs: seq<Event>)
    requires s.gameState == Pause
    requires forall i :: 0 <= i < |evs| ==> !evs[i].PauseKey?
    ensures Run(s, evs) == s
    decreases |evs|
  {
    if evs != [] {
      assert Apply(s, evs[0]) == s;
      PausedBoardIsFrozen(s, evs[1..]);
    }
  }

  /** A pause does not hold back the step timer: after pausing and resuming, with anything in
      between, the board is as it was, so the first tick after resuming moves the snake as soon
      as the step interval has passed since the last step before the pause. */
  lemma ResumeDoesNotResetStepTimer(s: BoardState, evs: seq<Event>, now: int64, moveOk: bool, headOnApple: bool, replaceOk: bool)
    requires s.gameState == InProgress
    requires forall i :: 0 <= i < |evs| ==> !evs[i].PauseKey?
    requires Sub(now, s.previousSnakeStepTimestamp) >= SnakeStepMs
    ensures var resumed := ProcessPause(Run(ProcessPause(s), evs));
      && resumed == s
      && Tick(resumed, now, moveOk, headOnApple, replaceOk).snake.requests == s.snake.requests + [Move]
      && Tick(resumed, now, moveOk, headOnApple, replaceOk).previousSnakeStepTimestamp == now
  {
    PausedBoardIsFrozen(ProcessPause(s), evs);
  }

  /** The countdown does not hold back the step timer: when the two clock readings of
      `prepareForMatch` lie at most 2800 ms apart (3000 ms countdown less one 200 ms step), the
      first step is due at the very first tick after the countdown ends. */
  lemma FirstStepRightAfterCountdown(s: BoardState, now: int64, later: int64, moveOk: bool, headOnApple: bool, replaceOk: bool)
    requires s.gameState == PreMatch
    requires 0 <= s.prepareMatchTimestamp && 0 <= s.previousSnakeStepTimestamp
    requires s.previousSnakeStepTimestamp as int - s.prepareMatchTimestamp as int <= PrepareTimeMs as int - SnakeStepMs as int
    requires 0 <= now <= later
    requires Sub(now, s.prepareMatchTimestamp) >= PrepareTimeMs as int64
    ensures var r := Tick(s, now, moveOk, headOnApple, replaceOk);
      && r.gameState == InProgress
      && Sub(later, r.previousSnakeStepTimestamp) >= SnakeStepMs
  {
    SubExactOnClockReadings(now, s.prepareMatchTimestamp);
    SubExactOnClockReadings(later, s.previousSnakeStepTimestamp);
  }

  /** With a gap over 2800 ms between the two readings, the countdown can end with no step due:
      prepared at 0 and 2801, a tick at 3000 starts the match and the next tick at 3000 does
      not move the snake. */
  lemma LateSecondReadingDelaysFirstStep()
    ensures var s := PrepareForMatch(0, 2801, true);
      var r := Tick(s, 3000, true, false, true);
      && r.gameState == InProgress
      && Tick(r, 3000, true, false, true) == r
  {
  }
}
