/** The rules of the worm (snake) game, as values: the grid, the segment chain,
    the direction arbiter, food placement, collision, highscore and the speed
    ratchet. Both imperative engines (`WormGame.Game` and `Game.Game2`) are
    proved against the `After*` functions of this module, and the properties of
    the game are proved here, once, about those functions. */
module WormRules {

  datatype Direction = Up | Down | Left | Right

  /** A board position; `row` grows downwards, `col` grows to the right. */
  datatype Cell = Cell(row: int, col: int)

  /** One worm segment: where it is and the direction its last move recorded. */
  datatype Segment = Segment(pos: Cell, dir: Direction)

  datatype Option<T> = None | Some(value: T)

  const BoardWidth: int := 10
  const BoardHeight: int := 10
  /** Where a fresh worm's only segment is placed. */
  const SpawnCell: Cell := Cell(0, 1)
  /** Where the debugging path of food placement puts the food. */
  const TestFoodCell: Cell := Cell(5, 0)
  /** Seconds between ticks; lower is faster. */
  const StartingGameSpeed: real := 0.7
  const GameSpeedMultiplier: real := 0.99
  const MaxGameSpeed: real := 0.05

  // ---------------------------------------------------------------------------
  // Directions and the grid

  function Opposite(d: Direction): Direction
  {
    match d
    case Up => Down
    case Down => Up
    case Left => Right
    case Right => Left
  }

  function RowDelta(d: Direction): int
  {
    match d
    case Up => -1
    case Down => 1
    case _ => 0
  }

  function ColDelta(d: Direction): int
  {
    match d
    case Left => -1
    case Right => 1
    case _ => 0
  }

  /** The cell one step from `c` in direction `d`, on an unbounded plane. */
  function Offset(c: Cell, d: Direction): Cell
  {
    Cell(c.row + RowDelta(d), c.col + ColDelta(d))
  }

  /** Columns are bounded by the width, rows by the height. */
  predicate OnBoard(c: Cell, w: int, h: int)
  {
    0 <= c.row < h && 0 <= c.col < w
  }

  /** A coordinate brought back onto `0 .. n-1` after a step of at most one:
      past the last index is 0, before 0 is the last index. */
  function Wrap(v: int, n: int): int
  {
    if v < 0 then v + n else if v >= n then v - n else v
  }

  /** The neighbour of `c` in direction `d` on a `w` by `h` torus. */
  function Neighbour(c: Cell, d: Direction, w: int, h: int): (r: Cell)
    requires w > 0 && h > 0
    ensures OnBoard(c, w, h) ==> OnBoard(r, w, h)
    ensures OnBoard(c, w, h) && OnBoard(Offset(c, d), w, h) ==> r == Offset(c, d)
  {
    Cell(Wrap(c.row + RowDelta(d), h), Wrap(c.col + ColDelta(d), w))
  }

  /** Does a step from `c` in direction `d` cross an edge of the board? */
  predicate Wraps(c: Cell, d: Direction, w: int, h: int)
  {
    match d
    case Up => c.row == 0
    case Down => c.row == h - 1
    case Left => c.col == 0
    case Right => c.col == w - 1
  }

  // ---------------------------------------------------------------------------
  // Segments

  /** A segment moved to `position`: the direction it records is read off the
      sign of the raw difference of the coordinates, the row first. */
  function ChangePosition(s: Segment, position: Cell): (r: Segment)
    ensures r.pos == position
    ensures r.dir in {Up, Down} <==> position.row != s.pos.row
    ensures position.row != s.pos.row ==> (r.dir == Down <==> position.row > s.pos.row)
    ensures position.row == s.pos.row ==> (r.dir == Right <==> position.col > s.pos.col)
  {
    var dir :=
      if position.row != s.pos.row then
        if position.row - s.pos.row > 0 then Down else Up
      else
        if position.col - s.pos.col > 0 then Right else Left;
    Segment(position, dir)
  }

  function Positions(worm: seq<Segment>): (r: seq<Cell>)
    ensures |r| == |worm|
  {
    seq(|worm|, i requires 0 <= i < |worm| => worm[i].pos)
  }

  /** One move of the chain: the head steps to its toroidal neighbour, every
      later segment steps into the cell the segment ahead of it held. */
  function Moved(worm: seq<Segment>, d: Direction, w: int, h: int): seq<Segment>
    requires w > 0 && h > 0
  {
    seq(|worm|, i requires 0 <= i < |worm| =>
      ChangePosition(worm[i], if i == 0 then Neighbour(worm[0].pos, d, w, h) else worm[i - 1].pos))
  }

  /** The worm with one more segment appended behind its last one. */
  function Grown(worm: seq<Segment>): seq<Segment>
    requires |worm| > 0
  {
    var last := worm[|worm| - 1];
    worm + [Segment(Offset(last.pos, Opposite(last.dir)), last.dir)]
  }

  predicate HeadCollides(worm: seq<Segment>)
  {
    |worm| > 0 && exists i :: 1 <= i < |worm| && worm[i].pos == worm[0].pos
  }

  ghost predicate AllOnBoard(worm: seq<Segment>, w: int, h: int)
  {
    forall i :: 0 <= i < |worm| ==> OnBoard(worm[i].pos, w, h)
  }

  /** Every segment but possibly the last (a fresh tail) is on the board. */
  ghost predicate AllButLastOnBoard(worm: seq<Segment>, w: int, h: int)
  {
    |worm| > 0 && OnBoard(worm[0].pos, w, h) &&
    forall i :: 0 <= i < |worm| - 1 ==> OnBoard(worm[i].pos, w, h)
  }

  // ---------------------------------------------------------------------------
  // Free cells, in the order the board's cells are listed (row by row)

  /** The free cells of the first `cols` cells of one row, in column order. */
  function FreeInRow(occupied: seq<Cell>, row: int, cols: nat): seq<Cell>
  {
    if cols == 0 then []
    else
      FreeInRow(occupied, row, cols - 1) +
      (if Cell(row, cols - 1) in occupied then [] else [Cell(row, cols - 1)])
  }

  /** The free cells of the first `rows` rows, row by row. */
  function FreeSpots(occupied: seq<Cell>, rows: nat, cols: nat): seq<Cell>
  {
    if rows == 0 then [] else FreeSpots(occupied, rows - 1, cols) + FreeInRow(occupied, rows - 1, cols)
  }

  lemma {:induction false} FreeInRowMembership(occupied: seq<Cell>, row: int, cols: nat, c: Cell)
    ensures c in FreeInRow(occupied, row, cols) <==> c.row == row && 0 <= c.col < cols && c !in occupied
    decreases cols
  {
    if cols > 0 {
      FreeInRowMembership(occupied, row, cols - 1, c);
    }
  }

  /** A cell is listed free exactly when it is one of the board's cells and
      no segment occupies it. */
  lemma {:induction false} FreeSpotsMembership(occupied: seq<Cell>, rows: nat, cols: nat, c: Cell)
    ensures c in FreeSpots(occupied, rows, cols) <==> 0 <= c.row < rows && 0 <= c.col < cols && c !in occupied
    decreases rows
  {
    if rows > 0 {
      var r: nat := rows - 1;
      var above, last := FreeSpots(occupied, r, cols), FreeInRow(occupied, r, cols);
      assert FreeSpots(occupied, rows, cols) == above + last;
      FreeSpotsMembership(occupied, r, cols, c);
      FreeInRowMembership(occupied, r, cols, c);
    }
  }

  // ---------------------------------------------------------------------------
  // Keyboard

  /** The direction a key selects: W, A, S and D; every other key selects none. */
  function KeyDirection(key: char): Option<Direction>
  {
    if key == 'w' then Some(Up)
    else if key == 'a' then Some(Left)
    else if key == 's' then Some(Down)
    else if key == 'd' then Some(Right)
    else None
  }

  function KeyOf(d: Direction): char
  {
    match d
    case Up => 'w'
    case Left => 'a'
    case Down => 's'
    case Right => 'd'
  }

  // ---------------------------------------------------------------------------
  // The engine as a value, and one function per engine operation

  /** A snapshot of every field of the engine that its operations read or write. */
  datatype Engine = Engine(
    worm: seq<Segment>,
    current: Direction,
    previous: Direction,
    moved: bool,            // the worm moved since the last accepted direction change
    food: Option<Cell>,
    score: nat,
    highscore: int,
    gameSpeed: real,
    timerRunning: bool)

  /** An engine and whether the operation ended by raising (no free cell for food). */
  datatype Outcome = Outcome(engine: Engine, raised: bool)

  function Initial(highscore: int): Engine
  {
    Engine([Segment(SpawnCell, Right)], Right, Right, false, None, 0, highscore, StartingGameSpeed, false)
  }

  /** A direction change is taken when it differs from the current direction,
      is not its reversal, and the worm has moved since the last change. */
  function AfterRequest(e: Engine, d: Direction): Engine
  {
    if d != e.current && d != Opposite(e.current) && e.moved then
      e.(previous := e.current, current := d, moved := false)
    else e
  }

  function AfterRequests(e: Engine, ds: seq<Direction>): Engine
    decreases |ds|
  {
    if ds == [] then e else AfterRequests(AfterRequest(e, ds[0]), ds[1..])
  }

  function AfterMove(e: Engine, d: Direction): Engine
  {
    e.(worm := Moved(e.worm, d, BoardWidth, BoardHeight), moved := e.moved || |e.worm| > 0)
  }

  function AfterSpawn(e: Engine, test: bool, pick: nat): Outcome
  {
    if test then Outcome(e.(food := Some(TestFoodCell)), false)
    else
      var free := FreeSpots(Positions(e.worm), BoardWidth, BoardHeight);
      if |free| == 0 then Outcome(e, true)
      else Outcome(e.(food := Some(free[pick % |free|])), false)
  }

  function AfterFoodEaten(e: Engine, pick: nat): Outcome
  {
    AfterSpawn(e.(score := e.score + 1), false, pick)
  }

  /** Has the head just landed on the food? */
  predicate OnFood(e: Engine)
  {
    |e.worm| > 0 && e.food == Some(e.worm[0].pos)
  }

  function AfterEatFood(e: Engine, pick: nat): Outcome
  {
    if OnFood(e) then AfterFoodEaten(e.(worm := Grown(e.worm)), pick) else Outcome(e, false)
  }

  function AfterUpdatePosition(e: Engine, d: Direction, pick: nat): Outcome
  {
    AfterEatFood(AfterMove(e, d), pick)
  }

  function AfterSetHighscore(e: Engine): Engine
  {
    if e.score > e.highscore then e.(highscore := e.score) else e
  }

  function AfterGameOver(e: Engine): Engine
  {
    if HeadCollides(e.worm) then AfterSetHighscore(e).(timerRunning := false) else e
  }

  function AfterIncreaseSpeed(e: Engine): Engine
  {
    if e.gameSpeed > MaxGameSpeed then e.(gameSpeed := e.gameSpeed * GameSpeedMultiplier) else e
  }

  /** One tick: start the next timer, move (and perhaps eat), then, unless
      placing food raised, check for a collision and speed up. */
  function AfterTick(e: Engine, pick: nat): Outcome
  {
    var o := AfterUpdatePosition(e.(timerRunning := true), e.current, pick);
    if o.raised then o else Outcome(AfterIncreaseSpeed(AfterGameOver(o.engine)), false)
  }

  function AfterResetWorm(e: Engine): Engine
  {
    e.(worm := [Segment(SpawnCell, e.current)])
  }

  /** Everything play-again resets before it runs its first tick. */
  function AfterRestart(e: Engine): Engine
  {
    AfterResetWorm(e).(score := 0, gameSpeed := StartingGameSpeed)
  }

  /** Showing the game runs a first tick at once, then places food unless
      that tick raised. */
  function AfterShow(e: Engine, tickPick: nat, spawnPick: nat): Outcome
  {
    var o := AfterTick(e, tickPick);
    if o.raised then o else AfterSpawn(o.engine, false, spawnPick)
  }

  function AfterPlayAgain(e: Engine, tickPick: nat, spawnPick: nat): Outcome
  {
    AfterShow(AfterRestart(e), tickPick, spawnPick)
  }

  /** Quitting cancels the timer and puts the worm back to its single segment,
      then returns to the main window, which hides the game and so resets the
      score. */
  function AfterQuit(e: Engine): Engine
  {
    AfterResetWorm(e).(timerRunning := false, score := 0)
  }

  /** A run of ticks, one per element of `picks`. The next tick's timer is
      started before the move, so a tick that raised is followed by the next
      one all the same. The run also ignores `timerRunning`: it goes on past a
      game over, where the timer has been cancelled and no further tick comes
      unless a declined close restarts it. Lemmas over such runs therefore
      cover more runs than can happen. */
  function AfterTicks(e: Engine, picks: seq<nat>): Engine
    decreases |picks|
  {
    if picks == [] then e else AfterTicks(AfterTick(e, picks[0]).engine, picks[1..])
  }

  /** What holds of the engine between operations. */
  ghost predicate Invariant(e: Engine)
  {
    AllButLastOnBoard(e.worm, BoardWidth, BoardHeight) &&
    (e.food.Some? ==> OnBoard(e.food.value, BoardWidth, BoardHeight)) &&
    MaxGameSpeed * GameSpeedMultiplier <= e.gameSpeed <= StartingGameSpeed
  }
}
