/** The earlier copy of the worm engine, class `Game2` of game.py. Its fields
    and methods are those of wormGame.py's `Game`; the one difference in order
    is that its game over replaces a beaten highscore before it cancels the
    timer, which leaves the same state. Every method is proved against the same
    `After*` functions of `WormRules`, so every property proved in
    `WormProperties` holds of this engine too. */
module Game {
  import opened WormRules
  import opened WormProperties

  class Game2 {
    var currentMovementDir: Direction
    var previousMovementDir: Direction
    var wormMovedSincePreviousUpdate: bool
    var foodPosition: Option<Cell>
    /** The running score of the game in progress. */
    var currentHighscore: nat
    /** The best score so far, as loaded from and saved to the highscore store. */
    var highscore: int
    /** Seconds between ticks. */
    var gameSpeed: real
    /** The segments of the worm, head first. */
    var worm: seq<Segment>
    /** A tick timer is scheduled and has not been cancelled. */
    var timerRunning: bool

    ghost function State(): Engine
      reads this
    {
      Engine(worm, currentMovementDir, previousMovementDir, wormMovedSincePreviousUpdate,
             foodPosition, currentHighscore, highscore, gameSpeed, timerRunning)
    }

    ghost predicate Valid()
      reads this
    {
      Invariant(State())
    }

    constructor (storedHighscore: int)
      ensures Valid() && State() == Initial(storedHighscore)
    {
      currentMovementDir := Right;
      previousMovementDir := Right;
      wormMovedSincePreviousUpdate := false;
      foodPosition := None;
      currentHighscore := 0;
      highscore := storedHighscore;
      gameSpeed := StartingGameSpeed;
      timerRunning := false;
      worm := [Segment(SpawnCell, Right)];
    }

    // -------------------------------------------------------------------------
    // Direction arbiter

    /** A requested direction is valid unless it reverses the current one. */
    function CheckValidMovement(direction: Direction): (valid: bool)
      reads this
      ensures valid <==> direction != Opposite(currentMovementDir)
    {
      if direction == Left && currentMovementDir == Right then false
      else if direction == Right && currentMovementDir == Left then false
      else if direction == Up && currentMovementDir == Down then false
      else if direction == Down && currentMovementDir == Up then false
      else true
    }

    method SetMovementDirection(direction: Direction)
      modifies this`previousMovementDir, this`currentMovementDir, this`wormMovedSincePreviousUpdate
      ensures State() == AfterRequest(old(State()), direction)
    {
      var isValidMovement := CheckValidMovement(direction);
      if currentMovementDir != direction && isValidMovement && wormMovedSincePreviousUpdate {
        previousMovementDir := currentMovementDir;
        currentMovementDir := direction;
        wormMovedSincePreviousUpdate := false;
      }
    }

    method OnWasd(key: char)
      modifies this`previousMovementDir, this`currentMovementDir, this`wormMovedSincePreviousUpdate
      ensures KeyDirection(key).Some? ==> State() == AfterRequest(old(State()), KeyDirection(key).value)
      ensures KeyDirection(key).None? ==> State() == old(State())
    {
      if key == 'w' {
        SetMovementDirection(Up);
      } else if key == 'a' {
        SetMovementDirection(Left);
      } else if key == 's' {
        SetMovementDirection(Down);
      } else if key == 'd' {
        SetMovementDirection(Right);
      }
    }

    // -------------------------------------------------------------------------
    // Food

    /** The board cells no segment occupies, row by row. */
    method FreeSpotsOnBoard() returns (freeSpots: seq<Cell>)
      ensures freeSpots == FreeSpots(Positions(worm), BoardWidth, BoardHeight)
      ensures forall c :: c in freeSpots <==> OnBoard(c, BoardWidth, BoardHeight) && c !in Positions(worm)
    {
      var occupiedSpots: seq<Cell> := [];
      var i := 0;
      while i < |worm|
        invariant 0 <= i <= |worm|
        invariant occupiedSpots == Positions(worm)[..i]
      {
        occupiedSpots := occupiedSpots + [worm[i].pos];
        i := i + 1;
      }
      assert occupiedSpots == Positions(worm);
      freeSpots := [];
      // The board's cells are listed with rows counted by the width and
      // columns by the height; on the square board that is every cell.
      var row := 0;
      while row < BoardWidth
        invariant 0 <= row <= BoardWidth
        invariant freeSpots == FreeSpots(occupiedSpots, row, BoardHeight)
      {
        var column := 0;
        while column < BoardHeight
          invariant 0 <= column <= BoardHeight
          invariant freeSpots == FreeSpots(occupiedSpots, row, BoardHeight) + FreeInRow(occupiedSpots, row, column)
        {
          if Cell(row, column) !in occupiedSpots {
            freeSpots := freeSpots + [Cell(row, column)];
          }
          column := column + 1;
        }
        row := row + 1;
      }
      forall c
        ensures c in freeSpots <==> OnBoard(c, BoardWidth, BoardHeight) && c !in Positions(worm)
      {
        FreeSpotsMembership(occupiedSpots, BoardWidth, BoardHeight, c);
      }
    }

    /** Puts the food on the cell of index `pick` among the free ones (the
        random choice), or on the fixed test cell; raises when no cell is free. */
    method SpawnFood(test: bool, pick: nat) returns (raised: bool)
      modifies this`foodPosition
      ensures Outcome(State(), raised) == AfterSpawn(old(State()), test, pick)
    {
      if test {
        foodPosition := Some(TestFoodCell);
        return false;
      }
      var freeSpots := FreeSpotsOnBoard();
      if |freeSpots| == 0 {
        // choice() of an empty list raises IndexError
        return true;
      }
      var chooseSpot := freeSpots[pick % |freeSpots|];
      foodPosition := Some(chooseSpot);
      raised := false;
    }

    // -------------------------------------------------------------------------
    // Score and highscore

    method SetCurrentHighscore()
      modifies this`highscore
      ensures State() == AfterSetHighscore(old(State()))
      ensures highscore >= old(highscore) && highscore >= currentHighscore
    {
      if currentHighscore > highscore {
        highscore := currentHighscore;
      }
    }

    method ResetCurrentHighscore()
      modifies this`currentHighscore
      ensures State() == old(State()).(score := 0)
    {
      currentHighscore := 0;
    }

    method UpdateCurrentHighscore()
      modifies this`currentHighscore
      ensures State() == old(State()).(score := old(currentHighscore) + 1)
    {
      currentHighscore := currentHighscore + 1;
    }

    /** Game over when the head shares its cell with another segment: a
        beaten highscore is replaced, then the timer is cancelled. */
    method GameOver()
      requires |worm| > 0
      modifies this`timerRunning, this`highscore
      ensures State() == AfterGameOver(old(State()))
      ensures !timerRunning <==> HeadCollides(worm) || !old(timerRunning)
    {
      var firstWormPos := worm[0].pos;
      ghost var collided := false;
      var i := 1;
      while i < |worm|
        invariant 1 <= i <= |worm|
        invariant collided <==> exists j :: 1 <= j < i && worm[j].pos == firstWormPos
        invariant State() == if collided then AfterGameOver(old(State())) else old(State())
      {
        if worm[i].pos == firstWormPos {
          if currentHighscore > highscore {
            SetCurrentHighscore();
            highscore := currentHighscore;
          }
          timerRunning := false;
          collided := true;
        }
        i := i + 1;
      }
    }

    method FoodEaten(pick: nat) returns (raised: bool)
      modifies this`currentHighscore, this`foodPosition
      ensures Outcome(State(), raised) == AfterFoodEaten(old(State()), pick)
    {
      UpdateCurrentHighscore();
      raised := SpawnFood(false, pick);
    }

    // -------------------------------------------------------------------------
    // Speed ratchet

    method IncreaseGameSpeed()
      modifies this`gameSpeed
      ensures State() == AfterIncreaseSpeed(old(State()))
      ensures old(gameSpeed) >= 0.0 ==> gameSpeed <= old(gameSpeed)
    {
      if gameSpeed > MaxGameSpeed {
        gameSpeed := gameSpeed * GameSpeedMultiplier;
      }
    }

    // -------------------------------------------------------------------------
    // The worm

    method InitWorm()
      modifies this`worm
      ensures State() == AfterResetWorm(old(State()))
    {
      worm := [Segment(SpawnCell, currentMovementDir)];
    }

    method ResetWorm()
      modifies this`worm
      ensures State() == AfterResetWorm(old(State()))
    {
      InitWorm();
    }

    /** Appends a segment one step behind the last one, against the last
        segment's own recorded direction, without wrapping. */
    method GrowWorm()
      requires |worm| > 0
      modifies this`worm
      ensures State() == old(State()).(worm := Grown(old(worm)))
    {
      var lastWorm := worm[|worm| - 1];
      var currentDir := lastWorm.dir;
      var rowDiff := 0;
      var colDiff := 0;
      if currentDir == Right {
        colDiff := colDiff - 1;
      } else if currentDir == Left {
        colDiff := colDiff + 1;
      } else if currentDir == Up {
        rowDiff := rowDiff + 1;
      } else if currentDir == Down {
        rowDiff := rowDiff - 1;
      }
      var row := rowDiff + lastWorm.pos.row;
      var col := colDiff + lastWorm.pos.col;
      worm := worm + [Segment(Cell(row, col), currentDir)];
    }

    method EatFood(pick: nat) returns (raised: bool)
      modifies this`worm, this`currentHighscore, this`foodPosition
      ensures Outcome(State(), raised) == AfterEatFood(old(State()), pick)
    {
      if |worm| > 0 && foodPosition == Some(worm[0].pos) {
        GrowWorm();
        raised := FoodEaten(pick);
      } else {
        raised := false;
      }
    }

    /** The head's next cell: one step in `direction`, wrapping to the other
        edge of the board. */
    static method StepHead(pos: Cell, direction: Direction) returns (currPos: Cell)
      requires OnBoard(pos, BoardWidth, BoardHeight)
      ensures currPos == Neighbour(pos, direction, BoardWidth, BoardHeight)
    {
      currPos := pos;
      if direction == Left {
        if currPos.col > 0 {
          currPos := currPos.(col := currPos.col - 1);
        } else {
          currPos := currPos.(col := BoardWidth - 1);
        }
      } else if direction == Right {
        if currPos.col < BoardWidth - 1 {
          currPos := currPos.(col := currPos.col + 1);
        } else {
          currPos := currPos.(col := 0);
        }
      } else if direction == Up {
        if currPos.row > 0 {
          currPos := currPos.(row := currPos.row - 1);
        } else {
          currPos := currPos.(row := BoardHeight - 1);
        }
      } else if direction == Down {
        if currPos.row < BoardHeight - 1 {
          currPos := currPos.(row := currPos.row + 1);
        } else {
          currPos := currPos.(row := 0);
        }
      }
      NeighbourWraps(pos, direction, BoardWidth, BoardHeight);
    }

    /** The walk over the segments: the head steps to its neighbour on the
        torus, every later segment takes the cell the one ahead of it held. */
    method MoveSegments(direction: Direction)
      requires |worm| > 0 && OnBoard(worm[0].pos, BoardWidth, BoardHeight)
      modifies this`worm, this`wormMovedSincePreviousUpdate
      ensures State() == AfterMove(old(State()), direction)
    {
      ghost var before := worm;
      ghost var moved := Moved(before, direction, BoardWidth, BoardHeight);
      var firstWorm := true;
      var prevPos := SpawnCell;
      var i := 0;
      while i < |worm|
        invariant 0 <= i <= |worm| == |before|
        invariant firstWorm <==> i == 0
        invariant i > 0 ==> prevPos == before[i - 1].pos
        invariant forall j :: 0 <= j < i ==> worm[j] == moved[j]
        invariant forall j :: i <= j < |worm| ==> worm[j] == before[j]
        invariant wormMovedSincePreviousUpdate == (old(wormMovedSincePreviousUpdate) || i > 0)
      {
        var currPos := worm[i].pos;
        if firstWorm {
          prevPos := worm[i].pos;
          currPos := StepHead(currPos, direction);
        } else {
          currPos := prevPos;
          prevPos := worm[i].pos;
        }
        MovedAt(before, direction, BoardWidth, BoardHeight, i);
        worm := worm[i := ChangePosition(worm[i], currPos)];
        wormMovedSincePreviousUpdate := true;
        firstWorm := false;
        i := i + 1;
      }
      assert worm == moved;
    }

    /** Moves the worm one cell in `direction`, then eats the food if the head
        landed on it. */
    method UpdatePosition(direction: Direction, pick: nat) returns (raised: bool)
      requires Valid()
      modifies this`worm, this`wormMovedSincePreviousUpdate, this`currentHighscore, this`foodPosition
      ensures Valid()
      ensures Outcome(State(), raised) == AfterUpdatePosition(old(State()), direction, pick)
    {
      MoveSegments(direction);
      UpdatePositionKeepsInvariant(old(State()), direction, pick);
      raised := EatFood(pick);
    }

    // -------------------------------------------------------------------------
    // Ticks and restarting

    /** One tick: schedule the next one, move and eat, then (unless placing
        food raised) check for game over and speed up. */
    method UpdateFrame(pick: nat) returns (raised: bool)
      requires Valid()
      modifies this
      ensures Valid()
      ensures Outcome(State(), raised) == AfterTick(old(State()), pick)
    {
      timerRunning := true;
      raised := UpdatePosition(currentMovementDir, pick);
      if raised {
        return;
      }
      GameOver();
      IncreaseGameSpeed();
      TickKeepsInvariant(old(State()), pick);
    }

    /** Leaving the game: the timer is cancelled and the worm reset. The
        score is not reset by the assignment here (it writes a different,
        misspelt attribute), but the switch back to the main window hides
        the game, and hiding resets the score. */
    method QuitGame()
      modifies this`timerRunning, this`worm, this`currentHighscore
      ensures State() == AfterQuit(old(State()))
    {
      timerRunning := false;
      ResetWorm();
      Hide();
    }

    /** Hiding the window resets the score. */
    method Hide()
      modifies this`currentHighscore
      ensures State() == old(State()).(score := 0)
    {
      ResetCurrentHighscore();
    }

    /** Showing the window starts the game: a first tick, then food. */
    method Show(tickPick: nat, spawnPick: nat) returns (raised: bool)
      requires Valid()
      modifies this
      ensures Valid()
      ensures Outcome(State(), raised) == AfterShow(old(State()), tickPick, spawnPick)
    {
      raised := UpdateFrame(tickPick);
      if raised {
        return;
      }
      ghost var afterTick := State();
      raised := SpawnFood(false, spawnPick);
      SpawnKeepsInvariant(afterTick, false, spawnPick);
    }

    /** Resets the worm, the score and the interval, runs a tick at once and
        places food; the current direction is left as it was. */
    method PlayAgain(tickPick: nat, spawnPick: nat) returns (raised: bool)
      requires Valid()
      modifies this
      ensures Valid()
      ensures Outcome(State(), raised) == AfterPlayAgain(old(State()), tickPick, spawnPick)
    {
      ResetWorm();
      ResetCurrentHighscore();
      gameSpeed := StartingGameSpeed;
      RestartKeepsInvariant(old(State()));
      raised := UpdateFrame(tickPick);
      if raised {
        return;
      }
      ghost var afterTick := State();
      raised := SpawnFood(false, spawnPick);
      SpawnKeepsInvariant(afterTick, false, spawnPick);
    }
  }
}
