# Connect Four game engine

A model of the game logic in the `Game` class of `connect4.js`, with the web page taken away. The board has `height` rows of `width` cells. Row 0 is the top row, and pieces fall toward the bottom row, `height - 1`. A cell holds `EMPTY` (0, standing for the `undefined` that the JavaScript leaves in new cells) or the number of the player whose piece is there. Two players, numbered 1 and 2, take turns dropping a piece into a column. The piece comes to rest in the lowest empty cell of that column. After each accepted move:

- if the mover now has four in a row (horizontal, vertical or either diagonal), the mover wins;
- otherwise, if every cell is taken, the game is a tie;
- otherwise, the turn passes to the other player.

The model has four modules:

- `Board` (board.dfy) holds the board as a value, `seq<seq<int>>`. It defines the empty board, placing a piece, the landing row of a column, the tie test `IsFull` and the gravity property.
- `WinDetection` (win.dfy) holds the win test. `Line` gives the four cells of a line from an origin in one of four directions, as `checkForWin` lists them. `Win` is `_win`: all four cells are on the board and held by the player, with the bounds tested before the board is read. `HasWin` says that some origin on the board starts a winning line. The module proves an independent characterisation of `HasWin` by step vectors. It also proves how a win can be created and how it behaves under symmetries of the board.
- `Engine` (engine.dfy) is the game as a state machine on values. `Move` is one click on a column. `Settle` is what follows a placement: win, then tie, then change of turn. `Play` is a sequence of clicks. The module also proves the invariant that every reachable state keeps.
- `Connect4` (game.dfy) holds the class `Game`. Its fields are `board: array2<int>`, `currPlayer` and `ended`, plus the constant `height`, `width` and `players`. Its methods have the loops of `makeBoard`, `findSpotForCol` and `checkForWin`; `HandleClick` and `Drop` perform `handleClick`, with the tie test as the predicate `IsFull`. The ghost field `cells` holds the board's contents as a value, and `Coupled()` ties it to the array. Each method is proved against the value-level definitions: `FindSpotForCol` against `LandingRow`, `CheckForWin` against `HasWin`, and `HandleClick` against `Move`.

In the JavaScript a game ends when the click listener is removed (connect4.js:121). After that, clicks no longer reach `handleClick`. The model records this as `ended := true` in `EndGame`. A click on an ended game is answered `AlreadyOver` and changes nothing. `HandleClick` returns an `Outcome`, which stands for what the page shows:

- `ColumnFull` is the silent return for a full column;
- `Won(p)` is "p won!";
- `Tie` is "Tie!";
- `Continue(next)` is the change of turn.

`checkForWin` falls off its end and returns `undefined` when nothing wins. The model returns `false` there.

A few notes on the symmetry lemmas:

- A half turn of the board maps each direction to itself. The winning line is then read from its other end, so the origin moves to the rotated image of the line's last cell.
- A left-to-right reflection is the symmetry that exchanges the two diagonals.
- Both symmetries are proved to keep the set of winners.

## Model

| member | source | states |
|---|---|---|
| Board.EmptyGrid | connect4.js:38-42 | the new board has exactly `h` rows of `w` cells, and every cell is empty |
| Board.Place | connect4.js:152 | the written cell holds the value, the shape is kept, and every other cell is unchanged |
| Board.IsFull | connect4.js:163 | the tie test: every cell of the `h` by `w` board is taken, that is, holds a value other than EMPTY |
| Board.LandingRow | connect4.js:82-89 | a returned row is on the board and empty, and every cell below it in the column is taken, so it is the largest empty row; the result is None exactly when every cell of the column is taken |
| Board.LandingFrom | connect4.js:83-87 | the scan from row `y` upward returns the largest empty row at or above `y`, or None exactly when rows 0..y are all taken |
| Board.GravityBelow | connect4.js:83-85 | when gravity holds, a taken cell has only taken cells below it in its column |
| Board.LandingRowUnderGravity | connect4.js:82-89 | when gravity holds, every cell from the top of the column down to the landing row is empty, and a column is full exactly when its top cell is taken |
| Board.PlaceKeepsGravity | connect4.js:146-152 | dropping a piece onto the landing row keeps the board rectangular and keeps gravity |
| WinDetection.Line | connect4.js:195-198 | the four cells that start at (y, x) and go right, down, down-right or down-left; the first is the origin |
| WinDetection.Win | connect4.js:181-188 | `_win`: every cell of the list is on the board, as tested before the board is read, and holds the player's number |
| WinDetection.HasWin | connect4.js:192-209 | what `checkForWin` decides: some origin on the board starts a line in one of the four directions that wins for the player |
| WinDetection.WinOfFour | connect4.js:181-188 | `_win` over a line of four cells holds exactly when each of the four cells is on the board and held by the player |
| WinDetection.NoWinFrom | connect4.js:195-205 | if none of the four lines tried from an origin wins, no direction from that origin wins |
| WinDetection.LineAt | connect4.js:195-198 | the k-th cell of a line is the origin plus k times the direction's step |
| WinDetection.WinGivesRun | connect4.js:181-198 | a winning line gives four cells along its step that are all on the board and held by the player |
| WinDetection.RunGivesWin | connect4.js:181-198 | four such cells along a direction's step make its line a winning line |
| WinDetection.WinCharacterisation | connect4.js:173-209 | a player has a win exactly when, for some origin (y, x) on the board and some step (dy, dx) in {(0,1), (1,0), (1,1), (1,-1)}, the cells (y + k·dy, x + k·dx) for k = 0..3 are all in bounds and held by the player |
| WinDetection.WinningOrigins | connect4.js:181-198 | a winning line starts on the board and fits on it, e.g. a down-left line starts in column 3 or further right and at least three rows above the bottom |
| WinDetection.EmptyHasNoWin | connect4.js:38-42 | nobody has a win on the empty board |
| WinDetection.PlaceKeepsOtherWins | connect4.js:152 | a piece of one player never gives a different player a win that was not already there |
| WinDetection.NewWinUsesPlacedCell | connect4.js:152-157 | on a board without a win, a placement creates a win exactly when some winning line runs through the placed cell, so checking only lines through the last move gives the same answer as the full rescan |
| WinDetection.PlacedCellOnLine | connect4.js:152-157 | a line that wins after a placement but did not win before contains the placed cell, and the lemma returns its position on the line |
| WinDetection.Rotate | connect4.js:192-209 | the board turned through 180 degrees has the same shape, and cell (y, x) holds the old cell (h-1-y, w-1-x) |
| WinDetection.Mirror | connect4.js:192-209 | the board reflected left to right has the same shape, and cell (y, x) holds the old cell (y, w-1-x) |
| WinDetection.RotateTwice | connect4.js:192-209 | turning the board twice gives it back |
| WinDetection.MirrorTwice | connect4.js:192-209 | reflecting the board twice gives it back |
| WinDetection.RotatedLineAt | connect4.js:195-198 | the i-th cell of the line from the rotated origin is the rotated image of cell 3 - i of the original line |
| WinDetection.MirroredLineAt | connect4.js:195-198 | the line from the reflected origin in the reflected direction is the reflected image of the original line, read backwards for a horizontal line |
| WinDetection.RotateLine | connect4.js:181-198 | a winning line, turned, is a winning line of the same direction on the turned board |
| WinDetection.RotateWinOneWay | connect4.js:173-209 | a win on a board is also a win on the turned board |
| WinDetection.RotatePreservesWin | connect4.js:173-209 | a player has a win on the turned board exactly when they have one on the board |
| WinDetection.MirrorLine | connect4.js:181-198 | a winning line, reflected, is a winning line on the reflected board, with the two diagonals exchanged |
| WinDetection.MirrorWinOneWay | connect4.js:173-209 | a win on a board is also a win on the reflected board |
| WinDetection.MirrorPreservesWin | connect4.js:173-209 | a player has a win on the reflected board exactly when they have one on the board |
| Engine.NewGame | connect4.js:19-30 | the state the constructor builds: the given dimensions and players, an empty board, the first player to move, not ended |
| Engine.NewGameInvariant | connect4.js:19-30 | a new game, with an empty board, the first player to move and not ended, satisfies the invariant: cells hold only EMPTY or a player's number, gravity holds, and nobody has a win while the game goes on |
| Engine.NextPlayer | connect4.js:168 | the turn switch: the second player when the current player's number is 1, otherwise the first player |
| Engine.Move | connect4.js:139-169 | one click keeps the board's shape, the dimensions and the players |
| Engine.Settle | connect4.js:157-168 | the step after a placement keeps the board's shape, the dimensions and the players |
| Engine.RejectedMove | connect4.js:146-149 | a click leaves the whole state unchanged exactly when the game has ended or the column is full, and it reports AlreadyOver or ColumnFull respectively |
| Engine.AcceptedMoveChangesOneCell | connect4.js:146-152 | an accepted click writes the mover's number into the landing cell, which was empty, and changes no other cell |
| Engine.AcceptedMoveOutcome | connect4.js:157-168 | after an accepted click exactly one of win, tie and change of turn happens. It is a win exactly when the mover has four in a row, even on a full board. It is a tie exactly when there is no win and every cell is taken. The game ends exactly when the turn does not pass. The turn passes only to the other player |
| Engine.MovePreservesInvariant | connect4.js:139-168 | every click keeps the invariant, gravity included |
| Engine.Play | connect4.js:139-169 | a sequence of clicks keeps the board's shape, the dimensions and the players |
| Engine.PlayAfterEnd | connect4.js:110-122 | once the game has ended, no sequence of clicks changes anything |
| Engine.PlayPreservesInvariant | connect4.js:139-168 | every state reached by clicks from a valid state is valid |
| Engine.PlayKeepsPieces | connect4.js:146-152 | a taken cell keeps its piece through any sequence of clicks |
| Connect4.Game.Snapshot | connect4.js:163 | the copy of the array is exactly the board's contents |
| Connect4.Game.constructor | connect4.js:19-30 | the new game is valid and equals the engine's new game: the first player to move, an empty board of the given size, not ended |
| Connect4.Game.MakeBoard | connect4.js:38-42 | a fresh `height` by `width` array whose every cell is EMPTY |
| Connect4.Game.FindSpotForCol | connect4.js:82-89 | the scan from the bottom row upward returns exactly LandingRow of the board: the largest empty row, or None when the column is full |
| Connect4.Game.CheckForWin | connect4.js:173-210 | the nested scan over every origin and the four directions returns true exactly when the current player has a win |
| Connect4.Game.EndGame | connect4.js:110-122 | the game is ended, and nothing but the ended flag changes |
| Connect4.Game.HandleClick | connect4.js:139-169 | the new state and the outcome are exactly those of Move on the old state, and the invariant is kept |
| Connect4.Game.Drop | connect4.js:152-168 | after the mover's piece is written into cell (y, x), the new state and the outcome are those of Settle on the board with that piece |
| Connect4.ScanStep | connect4.js:192-208 | when no origin before (y, x) wins and none of the four lines from (y, x) wins, no origin up to and including (y, x) wins |
| Connect4.ScanRow | connect4.js:192-193 | a finished row of the scan carries over to the start of the next row |
| Connect4.ScanDone | connect4.js:192-209 | a scan that finishes every row without a win means there is no win |

## Left out

- The page: `makeHtmlBoard` (connect4.js:48-78), `placeInTable` (connect4.js:93-106), the win flag and outcome message in `endGame` (connect4.js:110-118) and `resetPlayers` (connect4.js:129-135). These are presentation only. `EndGame` keeps only the end of the game.
- Event wiring: the bound handler (connect4.js:26), adding and removing the click listener (connect4.js:56, 121) and the new-game form (connect4.js:214-240), including its "P1"/"P2" default names. The `ended` flag stands for the removed listener.
- Reading the column from the clicked element's id (connect4.js:142). `HandleClick` takes a column index, and its precondition `x < width` stands for a click on one of the column tops. An out-of-range index makes the JavaScript write outside the board, which is not modelled.
- All `console.info` logging.
- The default dimensions 6 by 7 in the constructor's parameter list. The constructor takes both dimensions.
- Player names and colours are carried in `Player` but never read. The names are used only for display: the players' titles (connect4.js:130-131) and the win message (connect4.js:159).
- Connect4.Game.constructor: requires the players to be numbered 1 and 2, the first one first, as the new-game form builds them (connect4.js:234-235). The JavaScript accepts any players.
- Concrete games, such as a 4 by 4 game won along the bottom row or a full 6 by 7 board without a winner, are not stated as lemmas. The general lemmas on `Move` cover their outcomes.
