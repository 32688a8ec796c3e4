/**
 * The rules of the snake game in src/snake.js: a head moving on a 20 × 20 grid by a unit
 * velocity, a tail of past head positions bounded by `tailLength`, an apple that grows the tail
 * and the score, and the game-over test (wall or own body).
 *
 * Drawing, the canvas, the timer of the game loop and `Math.random()` are not modelled; the two
 * random numbers that place a new apple are parameters in [0, 1).
 */
module SnakeGame {
  import Draws

  /** A segment of the tail. */
  datatype Part = Part(x: int, y: int)

  const TileCount: int := 20

  predicate OnBoard(x: int, y: int)
  {
    0 <= x < TileCount && 0 <= y < TileCount
  }

  /** Standing still, or one step along one axis. */
  predicate UnitOrZero(vx: int, vy: int)
  {
    (vx == 0 && vy == 0) || (vx == 0 && (vy == 1 || vy == -1)) || (vy == 0 && (vx == 1 || vx == -1))
  }

  /**
   * The velocity after `passInput(direction)`: each of the four commands turns the snake unless
   * it would reverse it onto itself; any other string leaves the velocity as it is.
   */
  function Steered(vx: int, vy: int, direction: string): (int, int)
  {
    if direction == "UP" then (if vy == 1 then (vx, vy) else (0, -1))
    else if direction == "DOWN" then (if vy == -1 then (vx, vy) else (0, 1))
    else if direction == "LEFT" then (if vx == 1 then (vx, vy) else (-1, 0))
    else if direction == "RIGHT" then (if vx == -1 then (vx, vy) else (1, 0))
    else (vx, vy)
  }

  /** `isGameOver` without its drawing: never while standing still, else a wall or the body was hit. */
  predicate GameOver(headX: int, headY: int, vx: int, vy: int, parts: seq<Part>)
  {
    !(vx == 0 && vy == 0) &&
    (headX < 0 || headX == TileCount || headY < 0 || headY == TileCount || Part(headX, headY) in parts)
  }

  /** The tail update of `drawSnake`: push the head, then drop the oldest part if over length. */
  function NextTail(parts: seq<Part>, headX: int, headY: int, tailLength: int): seq<Part>
  {
    var pushed := parts + [Part(headX, headY)];
    if |pushed| > tailLength then pushed[1..] else pushed
  }

  // ----- properties of the rules -----

  /** Steering keeps the velocity a unit step (or zero) and never reverses a moving snake. */
  lemma SteeringIsSafe(vx: int, vy: int, direction: string)
    requires UnitOrZero(vx, vy)
    ensures UnitOrZero(Steered(vx, vy, direction).0, Steered(vx, vy, direction).1)
    ensures !(vx == 0 && vy == 0) ==> Steered(vx, vy, direction) != (-vx, -vy)
    ensures direction !in ["UP", "DOWN", "LEFT", "RIGHT"] ==> Steered(vx, vy, direction) == (vx, vy)
  {
  }

  /** A standing snake is never over, wherever its head is. */
  lemma StandingIsNeverOver(headX: int, headY: int, parts: seq<Part>)
    ensures !GameOver(headX, headY, 0, 0, parts)
  {
  }

  /** A moving snake that has not hit a wall after one unit step is still on the board. */
  lemma MoveStaysOnBoard(headX: int, headY: int, vx: int, vy: int, parts: seq<Part>)
    requires OnBoard(headX, headY) && UnitOrZero(vx, vy)
    requires !GameOver(headX + vx, headY + vy, vx, vy, parts)
    ensures OnBoard(headX + vx, headY + vy)
  {
  }

  /**
   * The tail stays within `tailLength` parts, ends with the head, and keeps the most recent
   * parts in order.
   */
  lemma NextTailBounded(parts: seq<Part>, headX: int, headY: int, tailLength: int)
    requires 1 <= tailLength && |parts| <= tailLength
    ensures |NextTail(parts, headX, headY, tailLength)| <= tailLength
    ensures NextTail(parts, headX, headY, tailLength) != []
    ensures NextTail(parts, headX, headY, tailLength)[|NextTail(parts, headX, headY, tailLength)| - 1] == Part(headX, headY)
    ensures var t := NextTail(parts, headX, headY, tailLength);
      t[..|t| - 1] == parts || t[..|t| - 1] == parts[1..]
  {
    var t := NextTail(parts, headX, headY, tailLength);
    if |parts| + 1 > tailLength {
      assert t == parts[1..] + [Part(headX, headY)];
    }
  }

  // ----- the game object -----

  class Snake {
    var headX: int
    var headY: int
    var snakeParts: seq<Part>
    var tailLength: int
    var appleX: int
    var appleY: int
    var xVelocity: int
    var yVelocity: int
    var score: int

    /** What holds between frames of a running game. */
    ghost predicate Valid()
      reads this
    {
      UnitOrZero(xVelocity, yVelocity) && OnBoard(headX, headY) && OnBoard(appleX, appleY) &&
      |snakeParts| <= tailLength && 0 <= score == tailLength - 2
    }

    /** The starting position: head at (10, 10), apple at (5, 5), standing still, tail length 2. */
    constructor ()
      ensures headX == 10 && headY == 10 && snakeParts == [] && tailLength == 2
      ensures appleX == 5 && appleY == 5 && xVelocity == 0 && yVelocity == 0 && score == 0
      ensures Valid()
    {
      headX, headY := 10, 10;
      snakeParts := [];
      tailLength := 2;
      appleX, appleY := 5, 5;
      xVelocity, yVelocity := 0, 0;
      score := 0;
    }

    method PassInput(direction: string)
      modifies this`xVelocity, this`yVelocity
      ensures (xVelocity, yVelocity) == Steered(old(xVelocity), old(yVelocity), direction)
    {
      if direction == "UP" {
        if yVelocity == 1 {
          return;
        }
        yVelocity := -1;
        xVelocity := 0;
      }
      if direction == "DOWN" {
        if yVelocity == -1 {
          return;
        }
        yVelocity := 1;
        xVelocity := 0;
      }
      if direction == "LEFT" {
        if xVelocity == 1 {
          return;
        }
        yVelocity := 0;
        xVelocity := -1;
      }
      if direction == "RIGHT" {
        if xVelocity == -1 {
          return;
        }
        yVelocity := 0;
        xVelocity := 1;
      }
    }

    /** Move the head by the velocity. */
    method ChangeSnakePosition()
      modifies this`headX, this`headY
      ensures headX == old(headX) + xVelocity && headY == old(headY) + yVelocity
    {
      headX := headX + xVelocity;
      headY := headY + yVelocity;
    }

    /** The game-over test; the walls are checked first, then the body part by part. */
    method IsGameOver() returns (gameOver: bool)
      ensures gameOver == GameOver(headX, headY, xVelocity, yVelocity, snakeParts)
    {
      gameOver := false;
      if yVelocity == 0 && xVelocity == 0 {
        return false;
      }
      if headX < 0 {
        gameOver := true;
      } else if headX == TileCount {
        gameOver := true;
      } else if headY < 0 {
        gameOver := true;
      } else if headY == TileCount {
        gameOver := true;
      }
      var i := 0;
      while i < |snakeParts|
        invariant 0 <= i <= |snakeParts|
        invariant gameOver == (headX < 0 || headX == TileCount || headY < 0 || headY == TileCount ||
                               Part(headX, headY) in snakeParts[..i])
      {
        var part := snakeParts[i];
        if part.x == headX && part.y == headY {
          gameOver := true;
          break;
        }
        assert snakeParts[..i + 1] == snakeParts[..i] + [part];
        i := i + 1;
      }
      assert i == |snakeParts| ==> snakeParts[..i] == snakeParts;
    }

    /** Eating the apple moves it to a drawn cell and grows the tail and the score by one. */
    method CheckAppleCollision(rx: real, ry: real)
      requires 0.0 <= rx < 1.0 && 0.0 <= ry < 1.0
      modifies this`appleX, this`appleY, this`tailLength, this`score
      ensures if old(appleX) == headX && old(appleY) == headY then
          (appleX == Draws.ScaledFloor(rx, TileCount) && appleY == Draws.ScaledFloor(ry, TileCount) &&
           OnBoard(appleX, appleY) && tailLength == old(tailLength) + 1 && score == old(score) + 1)
        else
          (appleX == old(appleX) && appleY == old(appleY) &&
           tailLength == old(tailLength) && score == old(score))
    {
      if appleX == headX && appleY == headY {
        appleX := Draws.ScaledFloor(rx, TileCount);
        appleY := Draws.ScaledFloor(ry, TileCount);
        tailLength := tailLength + 1;
        score := score + 1;
      }
    }

    /** The tail update of `drawSnake`. */
    method AdvanceTail()
      modifies this`snakeParts
      ensures snakeParts == NextTail(old(snakeParts), headX, headY, tailLength)
    {
      snakeParts := snakeParts + [Part(headX, headY)];
      if |snakeParts| > tailLength {
        snakeParts := snakeParts[1..];
      }
    }

    /**
     * One frame of `drawGame`: steer, move, stop if the game is over, else eat and grow the
     * tail. A frame that does not end the game keeps the game valid.
     */
    method Tick(direction: string, rx: real, ry: real) returns (over: bool)
      requires Valid() && 0.0 <= rx < 1.0 && 0.0 <= ry < 1.0
      modifies this
      ensures (xVelocity, yVelocity) == Steered(old(xVelocity), old(yVelocity), direction)
      ensures headX == old(headX) + xVelocity && headY == old(headY) + yVelocity
      ensures over == GameOver(headX, headY, xVelocity, yVelocity, old(snakeParts))
      ensures over ==> (snakeParts == old(snakeParts) && tailLength == old(tailLength) &&
        score == old(score) && appleX == old(appleX) && appleY == old(appleY))
      ensures !over ==> Valid()
      ensures !over ==> snakeParts == NextTail(old(snakeParts), headX, headY, tailLength)
      ensures !over ==>
        if headX == old(appleX) && headY == old(appleY) then
          (appleX == Draws.ScaledFloor(rx, TileCount) && appleY == Draws.ScaledFloor(ry, TileCount) &&
           tailLength == old(tailLength) + 1 && score == old(score) + 1)
        else
          (appleX == old(appleX) && appleY == old(appleY) &&
           tailLength == old(tailLength) && score == old(score))
    {
      SteeringIsSafe(xVelocity, yVelocity, direction);
      PassInput(direction);
      ghost var fromX, fromY := headX, headY;
      ChangeSnakePosition();
      over := IsGameOver();
      if over {
        return;
      }
      MoveStaysOnBoard(fromX, fromY, xVelocity, yVelocity, snakeParts);
      CheckAppleCollision(rx, ry);
      NextTailBounded(snakeParts, headX, headY, tailLength);
      AdvanceTail();
    }
  }
}
