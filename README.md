# Worm game engine

A Dafny model of the worm (snake) engine of the desktop game collection: class
`Game` of wormGame.py, with its nested `Worm` and `WormChild`, and the earlier
copy of it, class `Game2` of game.py.

The engine plays on a 10 by 10 board whose edges wrap around. It has:

- a worm of segments, head first, each of which remembers the direction its
  last move recorded;
- a current and a previous movement direction;
- a flag saying the worm has moved since the last accepted direction change;
- the food cell;
- the running score and the stored highscore;
- the tick interval, which a ratchet shortens;
- a tick timer.

The model has four modules.

- `WormRules` (worm_rules.dfy) holds the engine as values:
  - the grid and the toroidal step;
  - the segment chain;
  - the free cells, listed in the board's row-by-row order;
  - the W/A/S/D keys;
  - an `Engine` snapshot of every field the operations touch;
  - one function per engine operation (`AfterRequest`, `AfterMove`,
    `AfterSpawn`, `AfterEatFood`, `AfterGameOver`, `AfterIncreaseSpeed`,
    `AfterTick`, `AfterShow`, `AfterRestart`, `AfterPlayAgain`, `AfterQuit`,
    ...);
  - the engine invariant.
- `WormProperties` (worm_properties.dfy) proves the game's properties once,
  about those functions.
- `WormGame` (worm_game.dfy) is class `Game`. Its fields are those of
  wormGame.py, and its methods update them in place.
  - The worm is a `seq<Segment>` field. The segment walk of `update_position`
    rewrites it one segment at a time.
  - The free-cell list of `spawn_food` is built by the same loops as the
    source.
  - Every method's postcondition ties the new state to the matching `After*`
    function of the old state (`State()`).
  - The methods that run a move or a tick also keep `Valid()`.
- `Game` (game2.dfy) is class `Game2`, the same engine as game.py writes it.
  Its only difference is in `game_over`, which replaces a beaten highscore
  before cancelling the timer. That leaves the same state, so both classes are
  proved against the same functions, and every lemma of `WormProperties` holds
  for both.

Effects that the model turns into parameters or results:

- The random choice of a food cell becomes a caller-supplied index `pick`. The
  chosen cell is `freeSpots[pick % |freeSpots|]`.
- The `IndexError` that `choice` raises on an empty list becomes a `raised`
  result. A raise abandons the rest of the tick (`game_over` and
  `increase_game_speed`) and keeps what was already updated.
- The `threading.Timer` becomes a `timerRunning` flag. `update_frame` sets it
  and `game_over` clears it.
- The initial `food_position` is the tuple `(0, 8)`. A tuple never equals the
  list positions of the segments, so the model starts with no food (`None`).

Quirks of the code that the model keeps:

- The moved flag starts `false`, so the first direction request before any
  tick is refused.
- The speed ratchet runs after every tick that did not raise, even a tick that
  ended the game. It multiplies while the interval is strictly above the
  floor, so the interval can end up one step below the floor rather than being
  clamped to it.
- `play_again` does not reset the current direction. It runs a tick at once and
  places food after that tick.
- A board with no free cell makes food placement raise. The model has no
  separate outcome for a full board.
- Showing the window starts a game the same way: a tick, then food.
- A tick that raised does not stop the game. The next tick's timer was started
  before the move, so ticking goes on.

## Model

| member | source | states |
|---|---|---|
| WormRules.Initial | wormGame.py:11-83 | the engine a new game starts from: one segment at (0,1) heading right, no food, score 0, the stored highscore, the starting interval, the moved flag clear, no timer |
| WormRules.KeyDirection | wormGame.py:111-121 | the direction each key selects, W/A/S/D and nothing else; KeyRoundTrip proves it |
| WormRules.Moved | wormGame.py:342-379 | the segment walk as one value: the head to its toroidal neighbour, each later segment to the old cell of the one ahead, each recording its direction; MoveFollowsLeader and MoveKeepsOnBoard prove its properties |
| WormRules.Grown | wormGame.py:318-337 | the worm with one segment appended one unwrapped step behind the last, copying its direction; GrowAppendsBehindTail proves it |
| WormRules.HeadCollides | wormGame.py:255-260 | some segment other than the head is on the head's cell; SingleSegmentNeverCollides proves a one-segment worm never collides |
| WormRules.FreeInRow | wormGame.py:141-144 | the unoccupied cells of one row in column order; FreeInRowMembership proves it |
| WormRules.FreeSpots | wormGame.py:135-145 | the unoccupied cells row by row, in the board's order; FreeSpotsMembership proves it |
| WormRules.AfterRequest | wormGame.py:160-184 | the direction request; RequestRule, AtMostOneChangePerTick and NoChangeWithoutMove prove its properties |
| WormRules.AfterMove | wormGame.py:339-379 | the move of update_position: the chain moved and the moved flag set |
| WormRules.AfterSpawn | wormGame.py:123-158 | food placement on the test cell or the picked free cell, raising when none is free; SpawnPlacesFoodOnFreeCell proves its properties |
| WormRules.AfterFoodEaten | wormGame.py:270-277 | the score rises by one, then food is placed |
| WormRules.AfterEatFood | wormGame.py:309-316 | growth and food_eaten when the head is on the food; EatGrowsExactlyOnFood proves its properties |
| WormRules.AfterUpdatePosition | wormGame.py:339-381 | the move, then eating; UpdatePositionKeepsInvariant proves it keeps the invariant |
| WormRules.AfterSetHighscore | wormGame.py:242-245 | the highscore replaced by a score that beats it |
| WormRules.AfterGameOver | wormGame.py:255-268 | on a collision the timer stops and a beaten highscore is replaced; TickNeverLowersHighscore proves its effect on the highscore |
| WormRules.AfterIncreaseSpeed | wormGame.py:186-190 | the compare-then-multiply ratchet; SpeedRatchet proves its properties |
| WormRules.AfterTick | wormGame.py:192-199 | one tick in the source's order; TickGrowsExactlyOnFood and TickKeepsInvariant prove its properties |
| WormRules.AfterResetWorm | wormGame.py:291-307 | the worm back to one segment at (0,1) carrying the current direction |
| WormRules.AfterShow | wormGame.py:220-230 | a first tick, then food unless the tick raised; ShowKeepsInvariant proves it keeps the invariant |
| WormRules.AfterRestart | wormGame.py:232-238 | the resets of play_again before its tick; RestartForgetsHistory proves their properties |
| WormRules.AfterPlayAgain | wormGame.py:232-240 | the resets, then the start of a game as in show |
| WormRules.AfterQuit | wormGame.py:201-206 | the timer stopped, the worm reset and the score set to 0 by the hide that the switch to the main window runs; QuitStopsAndResetsWorm proves its properties |
| WormRules.AfterTicks | wormGame.py:192-199 | a run of ticks that goes on past a tick that raised, since the next timer is started first; it ignores the timer flag, so it also goes on past a game over, where the source stops ticking unless a declined close restarts the timer, and the lemmas over it cover more runs than can happen; TicksKeepInvariant and TicksKeepLengthWithScore prove its properties |
| WormRules.Neighbour | wormGame.py:350-369 | from an on-board cell the step stays on the board and equals the plain one-cell step whenever that step stays on the board |
| WormRules.ChangePosition | wormGame.py:401-422 | the segment takes the new position; when its row changed it records DOWN for a larger row and UP otherwise, else RIGHT for a larger column and LEFT otherwise (so also for no change) |
| WormRules.FreeInRowMembership | wormGame.py:141-144 | a cell is listed free in a row exactly when it is a cell of that row and no segment occupies it |
| WormRules.FreeSpotsMembership | wormGame.py:135-145 | a cell is listed free exactly when it is a board cell and no segment occupies it |
| WormProperties.NeighbourWraps | wormGame.py:350-369 | a head step inside the board is the plain step; one across an edge lands on the opposite edge (UP from row 0 to row 9, RIGHT from column 9 to column 0, ...) |
| WormProperties.PlainStepRecordsDirection | wormGame.py:412-422 | a one-cell step without wrapping records the direction actually taken |
| WormProperties.StepRecordsDirection | wormGame.py:412-422 | the head records the direction it moved, except after crossing an edge, when it records the opposite |
| WormProperties.MoveFollowsLeader | wormGame.py:339-379 | a move keeps the length, puts the head one toroidal step further and puts every later segment on the old cell of the one ahead |
| WormProperties.MoveKeepsOnBoard | wormGame.py:348-372 | if every segment but possibly the last is on the board before a move, every segment is on the board after it |
| WormProperties.GrowAppendsBehindTail | wormGame.py:318-337 | growth appends exactly one segment and keeps the others; the new one copies the last segment's direction and sits one unwrapped step behind it |
| WormProperties.GrowKeepsAllButLastOnBoard | wormGame.py:318-337 | after growth every segment but the new tail is still on the board |
| WormProperties.SingleSegmentNeverCollides | wormGame.py:255-260 | a worm of one segment never triggers game over |
| WormProperties.KeyRoundTrip | wormGame.py:111-121 | a key selects a direction exactly when it is that direction's W/A/S/D key |
| WormProperties.RequestRule | wormGame.py:160-184 | a request changes the engine iff it differs from the current direction, is not its reversal and the worm has moved; it then shifts current to previous, sets current and clears the flag |
| WormProperties.AtMostOneChangePerTick | wormGame.py:160-172 | of any run of requests between two moves at most one is taken, and the result never reverses the starting direction |
| WormProperties.NoChangeWithoutMove | wormGame.py:166-172 | while the moved flag is clear, no request changes anything |
| WormProperties.SpawnPlacesFoodOnFreeCell | wormGame.py:123-158 | placing food raises exactly when every board cell is occupied; otherwise the food lands on a board cell no segment occupies and nothing else changes |
| WormProperties.EatGrowsExactlyOnFood | wormGame.py:309-316 | eating grows the worm by one and the score by one exactly when the head is on the food, keeps the old segments, raises only then and leaves directions, timer and interval alone |
| WormProperties.TickGrowsExactlyOnFood | wormGame.py:192-199 | in a tick length and score rise by one exactly when the head's next cell holds the food; the moved flag is set; a raise only happens on eating; after eating without a raise the new food lies off the worm; the timer stops exactly on a collision |
| WormProperties.TickNeverLowersHighscore | wormGame.py:255-268 | a tick never lowers the highscore, and changes it only at a collision, to a score that beat it |
| WormProperties.SpeedRatchet | wormGame.py:186-190 | the ratchet never raises the interval, shortens it exactly while it is above the floor, and never takes it more than one step below the floor |
| WormProperties.SpawnKeepsInvariant | wormGame.py:123-158 | placing food keeps the engine invariant (worm and food on the board, interval within range) |
| WormProperties.UpdatePositionKeepsInvariant | wormGame.py:339-381 | a move followed by eating keeps the engine invariant; only a fresh tail may be off the board |
| WormProperties.TickKeepsInvariant | wormGame.py:192-199 | a tick keeps the engine invariant |
| WormProperties.RestartForgetsHistory | wormGame.py:232-240 | play-again resets the worm to one segment at (0,1) carrying the current direction, the score to 0 and the interval to its start; two restarts give the same worm iff their current directions agree |
| WormProperties.RestartKeepsInvariant | wormGame.py:232-240 | the reset part of play-again keeps the engine invariant |
| WormProperties.ShowKeepsInvariant | wormGame.py:220-230 | starting the game from the window (a tick, then food) keeps the engine invariant |
| WormProperties.QuitStopsAndResetsWorm | wormGame.py:201-206 | quitting stops the timer, leaves one segment at (0,1) with the current direction, sets the score to 0 so that the length is the score plus one, changes nothing else, and keeps the invariant |
| WormProperties.TicksKeepLengthWithScore | wormGame.py:192-199 | any run of ticks, including ticks that raised, keeps the worm exactly one segment longer than the score |
| WormProperties.TicksKeepInvariant | wormGame.py:192-199 | any run of ticks, including ticks that raised, keeps the engine invariant |
| WormProperties.PlayAgainThenTicks | wormGame.py:232-240 | after play-again and any number of ticks the worm is one segment longer than the score |
| WormProperties.WrapAtTopRecordsDown | wormGame.py:339-381 | a worm at (0,2),(0,1),(0,0) heading right refuses LEFT, takes UP, and moves to (9,2),(0,2),(0,1) with the head recording DOWN |
| WormGame.Game.constructor | wormGame.py:11-83 | a new game has one segment at (0,1) heading right, no food, score 0, the stored highscore, the starting interval, the moved flag clear, and satisfies the invariant |
| WormGame.Game.CheckValidMovement | wormGame.py:174-184 | a direction is valid exactly when it is not the reversal of the current one |
| WormGame.Game.SetMovementDirection | wormGame.py:160-172 | the new state is the request rule applied to the old one |
| WormGame.Game.OnWasd | wormGame.py:111-121 | a W/A/S/D key applies the request rule to its direction; any other key changes nothing |
| WormGame.Game.FreeSpotsOnBoard | wormGame.py:135-145 | returns the free cells in row-by-row order, and a cell is in the list exactly when it is on the board and unoccupied |
| WormGame.Game.SpawnFood | wormGame.py:123-158 | the food goes to the test cell (5,0), or to the picked free cell; with no free cell it raises and nothing changes |
| WormGame.Game.SetCurrentHighscore | wormGame.py:242-245 | the highscore becomes the score exactly when the score beats it, so it never decreases and ends at least the score |
| WormGame.Game.ResetCurrentHighscore | wormGame.py:247-249 | the score becomes 0 and nothing else changes |
| WormGame.Game.UpdateCurrentHighscore | wormGame.py:251-253 | the score rises by one and nothing else changes |
| WormGame.Game.GameOver | wormGame.py:255-268 | a collision of the head with any other segment stops the timer and stores a beaten score; without a collision nothing changes |
| WormGame.Game.FoodEaten | wormGame.py:270-277 | the score rises by one and new food is placed |
| WormGame.Game.IncreaseGameSpeed | wormGame.py:186-190 | the interval is multiplied by 0.99 exactly when it is above 0.05, so it never grows |
| WormGame.Game.InitWorm | wormGame.py:297-307 | the worm becomes one segment at (0,1) carrying the current direction |
| WormGame.Game.ResetWorm | wormGame.py:291-295 | the worm becomes one segment at (0,1) carrying the current direction |
| WormGame.Game.GrowWorm | wormGame.py:318-337 | one segment is appended behind the last, against its recorded direction and without wrapping |
| WormGame.Game.EatFood | wormGame.py:309-316 | if the head is on the food the worm grows and the food is eaten; otherwise nothing changes |
| WormGame.Game.StepHead | wormGame.py:348-369 | the head's next cell is its toroidal neighbour in the given direction |
| WormGame.Game.MoveSegments | wormGame.py:342-379 | the segment walk leaves exactly the moved chain and sets the moved flag |
| WormGame.Game.UpdatePosition | wormGame.py:339-381 | move then eat, as the move-and-eat rule of the old state, keeping the invariant |
| WormGame.Game.UpdateFrame | wormGame.py:192-199 | the new state is one tick of the old state (timer on, move and eat, then unless raised game over and speed-up), keeping the invariant |
| WormGame.Game.QuitGame | wormGame.py:201-206 | the new state is the old one with the timer stopped, the worm reset and the score set to 0 by hiding the game on the switch to the main window |
| WormGame.Game.Hide | wormGame.py:208-218 | the score becomes 0 and nothing else changes |
| WormGame.Game.Show | wormGame.py:220-230 | a tick runs and, unless it raised, food is placed; the invariant is kept |
| WormGame.Game.PlayAgain | wormGame.py:232-240 | worm, score and interval are reset, then a tick runs and, unless it raised, food is placed; the invariant is kept |
| Game.Game2.constructor | game.py:402-504 | a new game has one segment at (0,1) heading right, no food, score 0, the stored highscore, the starting interval, the moved flag clear, and satisfies the invariant |
| Game.Game2.CheckValidMovement | game.py:587-599 | a direction is valid exactly when it is not the reversal of the current one |
| Game.Game2.SetMovementDirection | game.py:572-585 | the new state is the request rule applied to the old one |
| Game.Game2.OnWasd | game.py:523-533 | a W/A/S/D key applies the request rule to its direction; any other key changes nothing |
| Game.Game2.FreeSpotsOnBoard | game.py:546-555 | returns the free cells in row-by-row order, and a cell is in the list exactly when it is on the board and unoccupied |
| Game.Game2.SpawnFood | game.py:535-570 | the food goes to the test cell (5,0), or to the picked free cell; with no free cell it raises and nothing changes |
| Game.Game2.SetCurrentHighscore | game.py:655-658 | the highscore becomes the score exactly when the score beats it, so it never decreases and ends at least the score |
| Game.Game2.ResetCurrentHighscore | game.py:660-662 | the score becomes 0 and nothing else changes |
| Game.Game2.UpdateCurrentHighscore | game.py:664-666 | the score rises by one and nothing else changes |
| Game.Game2.GameOver | game.py:668-680 | a collision of the head with any other segment stores a beaten score and then stops the timer; without a collision nothing changes |
| Game.Game2.FoodEaten | game.py:682-689 | the score rises by one and new food is placed |
| Game.Game2.IncreaseGameSpeed | game.py:601-603 | the interval is multiplied by 0.99 exactly when it is above 0.05, so it never grows |
| Game.Game2.InitWorm | game.py:709-719 | the worm becomes one segment at (0,1) carrying the current direction |
| Game.Game2.ResetWorm | game.py:703-707 | the worm becomes one segment at (0,1) carrying the current direction |
| Game.Game2.GrowWorm | game.py:730-749 | one segment is appended behind the last, against its recorded direction and without wrapping |
| Game.Game2.EatFood | game.py:721-728 | if the head is on the food the worm grows and the food is eaten; otherwise nothing changes |
| Game.Game2.StepHead | game.py:760-781 | the head's next cell is its toroidal neighbour in the given direction |
| Game.Game2.MoveSegments | game.py:754-791 | the segment walk leaves exactly the moved chain and sets the moved flag |
| Game.Game2.UpdatePosition | game.py:751-793 | move then eat, as the move-and-eat rule of the old state, keeping the invariant |
| Game.Game2.UpdateFrame | game.py:605-612 | the new state is one tick of the old state (timer on, move and eat, then unless raised game over and speed-up), keeping the invariant |
| Game.Game2.QuitGame | game.py:614-619 | the new state is the old one with the timer stopped, the worm reset and the score set to 0 by hiding the game on the switch to the main window |
| Game.Game2.Hide | game.py:621-631 | the score becomes 0 and nothing else changes |
| Game.Game2.Show | game.py:633-643 | a tick runs and, unless it raised, food is placed; the invariant is kept |
| Game.Game2.PlayAgain | game.py:645-653 | worm, score and interval are reset, then a tick runs and, unless it raised, food is placed; the invariant is kept |

## Left out

- The Tk widgets are left out: board labels marked `*` and `_`, score and highscore labels, buttons, grid placement and `reset_board`. Food is a field, not a search of label text.
- The window side of `show`, `hide` and `quit_game` is left out: frames, labels, the play-again button and switching windows. Their engine effects are modelled: `Show` runs a tick and places food, `Hide` resets the score, and `QuitGame` stops the timer, resets the worm and then hides the game. `quit_game` itself writes the misspelt `current_highscore_score`, which has no effect on the score, but its last step switches to the main window, and that switch (`change_window`, app.py:93-96 and game.py:94-97) hides every game window, which resets the score.
- `on_closing` (wormGame.py only) is left out; it is a dialog box. Its engine effect is also not modelled: it cancels the timer, and when the user declines to quit it runs a further tick even after a game over.
- AtMostOneChangePerTick: holds because the model runs ticks and key events one after the other. In the source the timer thread sets the moved flag once per segment during the walk, so a request that the key thread takes part way through a walk is re-armed within the same tick; that interleaving is not modelled.
- The `threading.Timer` scheduling is left out; it is concurrency. It is reduced to the `timerRunning` flag, and a tick is one method call.
- `passed_time` is left out; it is a float that is only logged.
- The exact floating-point interval values are not modelled. The interval is a `real`, and only the compare-then-multiply rule is kept.
- `random.choice` is not modelled as randomness. It becomes the `pick` parameter, whose index is reduced modulo the number of free cells.
- Saving a beaten highscore to the parent window's store (`parent.set_highscore`) is left out; that is file input/output. The stored highscore is the constructor's argument.
- The board dimensions are constants (10 by 10), not fields. `init_board` counts rows by the width and columns by the height, which lists every cell only because the board is square.
- The `previous_direction` argument of `update_position` is not modelled; it is only logged.
- Segments are values. The in-place `WormChild` objects and their shared position lists are not modelled. The source copies the head's list before stepping it, so no aliasing is visible in the state.
- The card game (class `Game1`, `Card` and `CardButton` of game.py) is not part of this model.
