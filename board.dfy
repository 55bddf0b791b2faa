/**
 * `Board`, the game controller: a Swing panel whose timer callback drives the game-state
 * machine. The model keeps its five mutable fields and updates them in place, as the Java
 * methods do; every method is proved to produce the state the matching GameSpec function
 * describes. The clock reading and the answers of the snake and the apple are parameters.
 */
module Game {
  import opened JavaLong
  import opened Points
  import opened GameSpec

  class Board {
    var gameState: GameState
    var prepareMatchTimestamp: int64
    var previousSnakeStepTimestamp: int64
    var snake: Snake
    var apple: Apple

    /** The whole state of the board as a value. */
    function View(): BoardState
      reads this
    {
      BoardState(gameState, prepareMatchTimestamp, previousSnakeStepTimestamp, snake, apple)
    }

    /** The panel starts in the menu state and immediately prepares the first match, reading
        the clock twice (`now`, then `now2`). */
    constructor (now: int64, now2: int64, replaceOk: bool)
      ensures View() == GameSpec.Initial(now, now2, replaceOk)
    {
      gameState := InMenu;
      prepareMatchTimestamp := 0;
      previousSnakeStepTimestamp := 0;
      // Placeholders for the Java fields `snake` and `apple`, which are null until
      // `prepareForMatch` creates them just below.
      snake := Snake(Origin(), []);
      apple := Apple(0);
      new;
      PrepareForMatch(now, now2, replaceOk);
    }

    /** The timer callback, at clock reading `now`. `moveOk` is what `snake.tryMove` answers,
        `headOnApple` what the apple/head comparison afterwards yields, `replaceOk` what
        `apple.replace` answers; each is consulted only where the callback consults it. */
    method Tick(now: int64, moveOk: bool, headOnApple: bool, replaceOk: bool)
      modifies this
      ensures View() == GameSpec.Tick(old(View()), now, moveOk, headOnApple, replaceOk)
    {
      match gameState {
        case PreMatch =>
          if Sub(now, prepareMatchTimestamp) >= PrepareTimeMs as int64 {
            gameState := InProgress;
          }
        case InProgress =>
          if Sub(now, previousSnakeStepTimestamp) >= SnakeStepMs {
            snake := snake.(requests := snake.requests + [Move]);
            if !moveOk {
              EndMatch();
            }
            if headOnApple {
              apple := apple.(replaceRequests := apple.replaceRequests + 1);
              if !replaceOk {
                EndMatch();
              }
            }
            previousSnakeStepTimestamp := now;
          }
        case _ =>
      }
    }

    /** Starts a countdown with a new snake at the middle of the grid and a new apple. `now` and
        `now2` are the two consecutive clock readings taken for the two timestamps. */
    method PrepareForMatch(now: int64, now2: int64, replaceOk: bool)
      modifies this
      ensures View() == GameSpec.PrepareForMatch(now, now2, replaceOk)
    {
      prepareMatchTimestamp := now;
      previousSnakeStepTimestamp := now2;
      gameState := PreMatch;
      snake := Snake(StartHead(), []);
      apple := Apple(0);
      apple := apple.(replaceRequests := apple.replaceRequests + 1);
      if !replaceOk {
        EndMatch();
      }
    }

    /** The restart key: a new match, but only after the previous one ended. */
    method TryRestart(now: int64, now2: int64, replaceOk: bool)
      modifies this
      ensures View() == GameSpec.TryRestart(old(View()), now, now2, replaceOk)
    {
      if gameState == PostMatch {
        PrepareForMatch(now, now2, replaceOk);
      }
    }

    /** The pause key: toggles between a running and a paused match. */
    method ProcessPause()
      modifies this
      ensures View() == GameSpec.ProcessPause(old(View()))
    {
      match gameState {
        case InProgress =>
          gameState := Pause;
        case Pause =>
          gameState := InProgress;
        case _ =>
      }
    }

    /** A direction key: handed to the snake only while the match runs. */
    method AddNextDirection(nextDirection: Direction)
      modifies this
      ensures View() == GameSpec.AddNextDirection(old(View()), nextDirection)
    {
      if gameState == InProgress {
        snake := snake.(requests := snake.requests + [Steer(nextDirection)]);
      }
    }

    method EndMatch()
      modifies this`gameState
      ensures View() == GameSpec.EndMatch(old(View()))
    {
      gameState := PostMatch;
    }
  }
}
