/** What the rules of `WormRules` guarantee: the properties of one move, one
    growth, one placement of food, one direction request and one tick, and of
    whole runs of them. */
module WormProperties {
  import opened WormRules

  // ---------------------------------------------------------------------------
  // The grid

  /** On the board, a step either stays inside and is the plain step, or
      crosses an edge and lands on the first or last row or column. */
  lemma NeighbourWraps(c: Cell, d: Direction, w: int, h: int)
    requires w > 0 && h > 0 && OnBoard(c, w, h)
    ensures !Wraps(c, d, w, h) ==> Neighbour(c, d, w, h) == Offset(c, d)
    ensures Wraps(c, d, w, h) ==>
      Neighbour(c, d, w, h) == (
        match d
        case Up => Cell(h - 1, c.col)
        case Down => Cell(0, c.col)
        case Left => Cell(c.row, w - 1)
        case Right => Cell(c.row, 0))
  {
  }

  /** A plain one-cell step records the direction actually taken. */
  lemma PlainStepRecordsDirection(s: Segment, d: Direction)
    ensures ChangePosition(s, Offset(s.pos, d)).dir == d
  {
  }

  /** The direction a head records after a step is the direction it stepped,
      except when the step crossed an edge: then it records the opposite one. */
  lemma StepRecordsDirection(s: Segment, d: Direction, w: int, h: int)
    requires w >= 2 && h >= 2 && OnBoard(s.pos, w, h)
    ensures ChangePosition(s, Neighbour(s.pos, d, w, h)).dir ==
            if Wraps(s.pos, d, w, h) then Opposite(d) else d
  {
    NeighbourWraps(s.pos, d, w, h);
    if !Wraps(s.pos, d, w, h) {
      PlainStepRecordsDirection(s, d);
    }
  }

  // ---------------------------------------------------------------------------
  // Moving and growing the chain

  /** Segment `i` after a move: moved into the head's toroidal neighbour
      cell, or into the old cell of segment `i - 1`. */
  lemma MovedAt(worm: seq<Segment>, d: Direction, w: int, h: int, i: nat)
    requires w > 0 && h > 0 && i < |worm|
    ensures |Moved(worm, d, w, h)| == |worm|
    ensures Moved(worm, d, w, h)[i] ==
      ChangePosition(worm[i], if i == 0 then Neighbour(worm[0].pos, d, w, h) else worm[i - 1].pos)
  {
  }

  /** A move keeps the length, puts the head one toroidal step further and
      shifts every other segment into the cell of the segment ahead of it. */
  lemma MoveFollowsLeader(worm: seq<Segment>, d: Direction, w: int, h: int)
    requires w > 0 && h > 0 && |worm| > 0
    ensures |Moved(worm, d, w, h)| == |worm|
    ensures Moved(worm, d, w, h)[0].pos == Neighbour(worm[0].pos, d, w, h)
    ensures Positions(Moved(worm, d, w, h))[1..] == Positions(worm)[..|worm| - 1]
  {
    var m := Moved(worm, d, w, h);
    var after := Positions(m)[1..];
    var before := Positions(worm)[..|worm| - 1];
    forall i | 0 <= i < |worm| - 1
      ensures after[i] == before[i]
    {
      assert after[i] == m[i + 1].pos;
    }
  }

  /** If every segment but possibly the last is on the board before a move,
      every segment is on the board after it. */
  lemma MoveKeepsOnBoard(worm: seq<Segment>, d: Direction, w: int, h: int)
    requires w > 0 && h > 0 && AllButLastOnBoard(worm, w, h)
    ensures AllOnBoard(Moved(worm, d, w, h), w, h)
  {
    var m := Moved(worm, d, w, h);
    forall i | 0 <= i < |m|
      ensures OnBoard(m[i].pos, w, h)
    {
      if i > 0 {
        assert m[i].pos == worm[i - 1].pos;
      }
    }
  }

  /** Growth appends one segment and keeps the others; the new tail sits one
      plain (unwrapped) step behind the old last segment, records the same
      direction, and a step in that direction would take it into the old last
      segment's cell. */
  lemma GrowAppendsBehindTail(worm: seq<Segment>)
    requires |worm| > 0
    ensures |Grown(worm)| == |worm| + 1
    ensures Grown(worm)[..|worm|] == worm
    ensures Grown(worm)[|worm|].dir == worm[|worm| - 1].dir
    ensures Offset(Grown(worm)[|worm|].pos, Grown(worm)[|worm|].dir) == worm[|worm| - 1].pos
  {
  }

  lemma GrowKeepsAllButLastOnBoard(worm: seq<Segment>, w: int, h: int)
    requires |worm| > 0 && AllOnBoard(worm, w, h)
    ensures AllButLastOnBoard(Grown(worm), w, h)
  {
    var g := Grown(worm);
    forall i | 0 <= i < |g| - 1
      ensures OnBoard(g[i].pos, w, h)
    {
      assert g[i] == worm[i];
    }
  }

  /** A worm of one segment can never collide with itself. */
  lemma SingleSegmentNeverCollides(worm: seq<Segment>)
    requires |worm| == 1
    ensures !HeadCollides(worm)
  {
  }

  // ---------------------------------------------------------------------------
  // Keys and direction requests

  lemma KeyRoundTrip(key: char, d: Direction)
    ensures KeyDirection(key) == Some(d) <==> key == KeyOf(d)
  {
  }

  /** A request changes the engine exactly when the direction differs from the
      current one, is not its reversal, and the worm has moved since the last
      change; it then only shifts the directions and clears the moved flag. */
  lemma RequestRule(e: Engine, d: Direction)
    ensures AfterRequest(e, d) != e <==> d != e.current && d != Opposite(e.current) && e.moved
    ensures AfterRequest(e, d) != e ==>
      AfterRequest(e, d) == e.(previous := e.current, current := d, moved := false)
  {
  }

  /** Between two moves at most one request is taken, and never a reversal of
      the direction the worm had when the requests started. */
  lemma {:induction false} AtMostOneChangePerTick(e: Engine, ds: seq<Direction>)
    ensures AfterRequests(e, ds) == e ||
            exists k :: 0 <= k < |ds| && AfterRequests(e, ds) == AfterRequest(e, ds[k]) != e
    ensures AfterRequests(e, ds).current != Opposite(e.current)
    decreases |ds|
  {
    if ds != [] {
      var e1 := AfterRequest(e, ds[0]);
      if e1 == e {
        AtMostOneChangePerTick(e, ds[1..]);
        if AfterRequests(e, ds) != e {
          var k :| 0 <= k < |ds[1..]| && AfterRequests(e, ds[1..]) == AfterRequest(e, ds[1..][k]) != e;
          assert ds[1..][k] == ds[k + 1];
        }
      } else {
        assert !e1.moved;
        NoChangeWithoutMove(e1, ds[1..]);
      }
    }
  }

  /** Once a change has been taken, nothing more is taken until the worm moves. */
  lemma {:induction false} NoChangeWithoutMove(e: Engine, ds: seq<Direction>)
    requires !e.moved
    ensures AfterRequests(e, ds) == e
    decreases |ds|
  {
    if ds != [] {
      NoChangeWithoutMove(AfterRequest(e, ds[0]), ds[1..]);
    }
  }

  // ---------------------------------------------------------------------------
  // Food

  /** Placing food raises exactly when every board cell is occupied; otherwise
      it puts the food on a board cell no segment occupies, and it changes
      nothing but the food. */
  lemma SpawnPlacesFoodOnFreeCell(e: Engine, pick: nat)
    ensures AfterSpawn(e, false, pick).raised <==>
      forall c :: OnBoard(c, BoardWidth, BoardHeight) ==> c in Positions(e.worm)
    ensures var o := AfterSpawn(e, false, pick);
      !o.raised ==>
        o.engine.food.Some? &&
        OnBoard(o.engine.food.value, BoardWidth, BoardHeight) &&
        o.engine.food.value !in Positions(e.worm) &&
        o.engine == e.(food := o.engine.food)
    ensures AfterSpawn(e, false, pick).raised ==> AfterSpawn(e, false, pick).engine == e
  {
    var occupied := Positions(e.worm);
    var free := FreeSpots(occupied, BoardWidth, BoardHeight);
    forall c
      ensures c in free <==> OnBoard(c, BoardWidth, BoardHeight) && c !in occupied
    {
      FreeSpotsMembership(occupied, BoardWidth, BoardHeight, c);
    }
    if |free| > 0 {
      assert free[pick % |free|] in free;
    } else {
      forall c | OnBoard(c, BoardWidth, BoardHeight)
        ensures c in occupied
      {
        assert c !in free;
      }
    }
  }

  // ---------------------------------------------------------------------------
  // One tick

  /** The head lands on the food in this tick. */
  predicate EatsThisTick(e: Engine)
  {
    |e.worm| > 0 && e.food == Some(Neighbour(e.worm[0].pos, e.current, BoardWidth, BoardHeight))
  }

  /** Eating grows the worm by one segment and the score by one exactly when
      the head is on the food, and raises only then; the direction state, the
      timer and the interval are left alone. */
  lemma EatGrowsExactlyOnFood(m: Engine, pick: nat)
    ensures var o := AfterEatFood(m, pick);
      && |o.engine.worm| == |m.worm| + (if OnFood(m) then 1 else 0)
      && o.engine.score == m.score + (if OnFood(m) then 1 else 0)
      && (o.raised ==> OnFood(m))
      && o.engine.worm[..|m.worm|] == m.worm
      && o.engine.(worm := m.worm, score := m.score, food := m.food) == m
  {
    if OnFood(m) {
      assert Grown(m.worm)[..|m.worm|] == m.worm;
    }
  }

  /** In a tick the worm grows by one and the score rises by one exactly when
      the head lands on the food; otherwise both stay. The worm has moved, the
      timer runs unless the worm collided, and raising only happens on eating. */
  lemma TickGrowsExactlyOnFood(e: Engine, pick: nat)
    requires |e.worm| > 0
    ensures var o := AfterTick(e, pick);
      && |o.engine.worm| == |e.worm| + (if EatsThisTick(e) then 1 else 0)
      && o.engine.score == e.score + (if EatsThisTick(e) then 1 else 0)
      && o.engine.moved
      && (o.raised ==> EatsThisTick(e))
      && (o.engine.timerRunning <==> o.raised || !HeadCollides(o.engine.worm))
      && o.engine.current == e.current
      && (EatsThisTick(e) && !o.raised ==>
            o.engine.food.Some? && o.engine.food.value !in Positions(o.engine.worm))
  {
    var m := AfterMove(e.(timerRunning := true), e.current);
    MoveFollowsLeader(e.worm, e.current, BoardWidth, BoardHeight);
    assert OnFood(m) <==> EatsThisTick(e);
    EatGrowsExactlyOnFood(m, pick);
    if OnFood(m) {
      SpawnPlacesFoodOnFreeCell(m.(worm := Grown(m.worm), score := m.score + 1), pick);
    }
  }

  /** The stored highscore is never lowered by a tick, and it changes only at a
      collision whose score beats it, to that score. */
  lemma TickNeverLowersHighscore(e: Engine, pick: nat)
    requires |e.worm| > 0
    ensures var o := AfterTick(e, pick);
      && o.engine.highscore >= e.highscore
      && (o.engine.highscore != e.highscore ==>
            !o.raised && HeadCollides(o.engine.worm) && o.engine.highscore == o.engine.score)
  {
  }

  /** The ratchet never slows the game, multiplies only while the interval is
      above its floor, and so never goes more than one step below the floor. */
  lemma SpeedRatchet(e: Engine)
    requires e.gameSpeed >= 0.0
    ensures AfterIncreaseSpeed(e).gameSpeed <= e.gameSpeed
    ensures AfterIncreaseSpeed(e).gameSpeed < e.gameSpeed <==> e.gameSpeed > MaxGameSpeed
    ensures e.gameSpeed >= MaxGameSpeed * GameSpeedMultiplier ==>
              AfterIncreaseSpeed(e).gameSpeed >= MaxGameSpeed * GameSpeedMultiplier
  {
  }

  lemma SpawnKeepsInvariant(e: Engine, test: bool, pick: nat)
    requires Invariant(e)
    ensures Invariant(AfterSpawn(e, test, pick).engine)
  {
    if !test {
      SpawnPlacesFoodOnFreeCell(e, pick);
    }
  }

  lemma UpdatePositionKeepsInvariant(e: Engine, d: Direction, pick: nat)
    requires Invariant(e)
    ensures Invariant(AfterUpdatePosition(e, d, pick).engine)
  {
    var m := AfterMove(e, d);
    MoveKeepsOnBoard(e.worm, d, BoardWidth, BoardHeight);
    MoveFollowsLeader(e.worm, d, BoardWidth, BoardHeight);
    if OnFood(m) {
      GrowKeepsAllButLastOnBoard(m.worm, BoardWidth, BoardHeight);
      SpawnKeepsInvariant(m.(worm := Grown(m.worm), score := m.score + 1), false, pick);
    }
  }

  /** Every tick keeps the worm's head and body on the board (all but a fresh
      tail), the food on the board and the interval between floor and start. */
  lemma TickKeepsInvariant(e: Engine, pick: nat)
    requires Invariant(e)
    ensures Invariant(AfterTick(e, pick).engine)
  {
    UpdatePositionKeepsInvariant(e.(timerRunning := true), e.current, pick);
  }

  // ---------------------------------------------------------------------------
  // Playing again, and whole runs

  /** Play-again resets the worm to one segment at the spawn cell, the score to
      zero and the interval to its start; the segment takes the current
      direction, which is not reset, so two restarts agree exactly when their
      current directions do. */
  lemma RestartForgetsHistory(e1: Engine, e2: Engine)
    ensures AfterRestart(e1).worm == [Segment(SpawnCell, e1.current)]
    ensures AfterRestart(e1).score == 0 && AfterRestart(e1).gameSpeed == StartingGameSpeed
    ensures AfterRestart(e1).current == e1.current && AfterRestart(e1).food == e1.food
    ensures AfterRestart(e1).worm == AfterRestart(e2).worm <==> e1.current == e2.current
  {
    if AfterRestart(e1).worm == AfterRestart(e2).worm {
      assert AfterRestart(e1).worm[0].dir == AfterRestart(e2).worm[0].dir;
    }
  }

  lemma RestartKeepsInvariant(e: Engine)
    requires Invariant(e)
    ensures Invariant(AfterRestart(e))
  {
  }

  /** Showing the game (a tick, then food unless the tick raised) keeps the
      engine invariant. */
  lemma ShowKeepsInvariant(e: Engine, tickPick: nat, spawnPick: nat)
    requires Invariant(e)
    ensures Invariant(AfterShow(e, tickPick, spawnPick).engine)
  {
    TickKeepsInvariant(e, tickPick);
    var o := AfterTick(e, tickPick);
    if !o.raised {
      SpawnKeepsInvariant(o.engine, false, spawnPick);
    }
  }

  /** Quitting stops the timer and leaves a single segment at the spawn cell
      carrying the current direction; the score, the highscore and the
      directions are untouched, and the invariant is kept. */
  lemma QuitStopsAndResetsWorm(e: Engine)
    ensures !AfterQuit(e).timerRunning
    ensures AfterQuit(e).worm == [Segment(SpawnCell, e.current)]
    ensures AfterQuit(e).score == 0
    ensures |AfterQuit(e).worm| == AfterQuit(e).score + 1
    ensures AfterQuit(e).(worm := e.worm, timerRunning := e.timerRunning, score := e.score) == e
    ensures Invariant(e) ==> Invariant(AfterQuit(e))
  {
  }

  /** Ticks keep the length of the worm one more than the score, also across
      ticks that raised. */
  lemma {:induction false} TicksKeepLengthWithScore(e: Engine, picks: seq<nat>)
    requires |e.worm| == e.score + 1
    ensures |AfterTicks(e, picks).worm| == AfterTicks(e, picks).score + 1
    decreases |picks|
  {
    if picks != [] {
      TickGrowsExactlyOnFood(e, picks[0]);
      TicksKeepLengthWithScore(AfterTick(e, picks[0]).engine, picks[1..]);
    }
  }

  /** Ticks keep the engine invariant, also across ticks that raised. */
  lemma {:induction false} TicksKeepInvariant(e: Engine, picks: seq<nat>)
    requires Invariant(e)
    ensures Invariant(AfterTicks(e, picks))
    decreases |picks|
  {
    if picks != [] {
      TickKeepsInvariant(e, picks[0]);
      TicksKeepInvariant(AfterTick(e, picks[0]).engine, picks[1..]);
    }
  }

  /** After play-again and any number of ticks, the worm is one segment longer
      than the score. */
  lemma PlayAgainThenTicks(e: Engine, tickPick: nat, spawnPick: nat, picks: seq<nat>)
    ensures var o := AfterPlayAgain(e, tickPick, spawnPick);
      var r := AfterTicks(o.engine, picks);
      |r.worm| == r.score + 1
  {
    var s := AfterRestart(e);
    TickGrowsExactlyOnFood(s, tickPick);
    var o := AfterPlayAgain(e, tickPick, spawnPick);
    TicksKeepLengthWithScore(o.engine, picks);
  }

  // ---------------------------------------------------------------------------
  // A worked example

  /** A three-segment worm along the top row heading right refuses to reverse,
      accepts a turn up, and its next move wraps the head to the bottom row,
      where the head records DOWN, the opposite of the move it made. */
  lemma WrapAtTopRecordsDown()
    ensures var e := Engine([Segment(Cell(0, 2), Right), Segment(Cell(0, 1), Right), Segment(Cell(0, 0), Right)],
                            Right, Right, true, None, 0, 0, StartingGameSpeed, true);
      var turned := AfterRequest(e, Up);
      var m := AfterMove(turned, turned.current);
      && AfterRequest(e, Left) == e
      && turned.current == Up && turned.previous == Right && !turned.moved
      && Positions(m.worm) == [Cell(9, 2), Cell(0, 2), Cell(0, 1)]
      && m.worm[0].dir == Down && m.worm[1].dir == Right && m.moved
  {
    var e := Engine([Segment(Cell(0, 2), Right), Segment(Cell(0, 1), Right), Segment(Cell(0, 0), Right)],
                    Right, Right, true, None, 0, 0, StartingGameSpeed, true);
    var m := AfterMove(AfterRequest(e, Up), Up);
    assert m.worm[0] == Segment(Cell(9, 2), Down);
    assert m.worm[1] == Segment(Cell(0, 2), Right);
    assert m.worm[2] == Segment(Cell(0, 1), Right);
  }
}
