# zapzap in Dafny

A model of the game core of zapzap, a tile-rotation puzzle. The board is a
grid of tiles; each tile has up to four connections (a 4-bit mask). Pins sit
along the left and right edges. A tap turns a tile a quarter turn. When a
network of connected tiles joins a left pin to a right pin, the board "zaps":
- the joined pins score their row multipliers, and the multipliers rise;
- the connected tiles are removed;
- the columns fall and are refilled from a seeded generator;
- coins and power-ups drop onto the board.

Players can play alone (Zen mode, where both scores move together) or
against a bot that tries every rotation and plays the first best one. The
Bomb, Cross and Arrow power-ups clear or rewire parts of the board.

The model follows the Rust crate `zapzap` file by file:
- `components.dfy`: directions, markings, coins, power-ups and the inventory.
- `grid.dfy`: tiles, rotation and the column-major grid.
- `rng.dfy`: the xorshift generator.
- `generator.dfy`: the dead-end-ratio tile generator.
- `board.dfy`: the board and `reset_table`.
- `reach.dfy`, `flood.dfy`, `connections.dfy`: the flood fill and `check_connections`.
- `gravity.dfy`: `remove_and_shift` and `bomb_table`.
- `zap.dfy`: the zap and bomb bookkeeping of the game state.
- `bot.dfy`: the bot.
- `bonus.dfy`: coin and power-up drops.
- `scoring.dfy`: multiplier scoring and bonus collection.
- `effects.dfy`: arcs, particles and their vertex buffer.
- `render.dfy`: the sprite buffer.
- `phases.dfy` and `state.dfy`: the phase machine of `GameState`.
- `scenarios.dfy`: the boards of the source's unit tests for `check_connections` and the bot, with their outcomes proved.

`seqs.dfy` carries no source behaviour: it holds two sequence lemmas.
`Option` (Rust's optional value) is declared in `components.dfy`.

Fixed-width integers and floats are modelled as follows:
- Integers are unbounded `nat`/`int`.
- The generator state is a natural number below 2^64. Its xor and shifts are
  written out bit by bit over 64 bits, and a left shift drops the bits that
  leave the word, as the `u64` does.
- Tile masks are bytes below 16.
- Screen positions, timers and physics are floats. The model does not
  compute them: each frame of the game takes a `Frame` value. It says which
  animations finished, which drops are still falling, whether the freeze
  timer ran out and whether the bot is still thinking.
- The midpoint-displacement formula of the arcs is a function parameter.

## Model

All source paths are under `zapzap-native/crates/zapzap/src/`.

| member | source | states |
|---|---|---|
| Components.Opposite | zapzap-native/crates/zapzap/src/components.rs:12-21 | a cardinal direction maps to a different cardinal direction; anything else maps to the empty direction |
| Components.OppositeInvolution | zapzap-native/crates/zapzap/src/components.rs:12-21 | the opposite of the opposite is the direction itself |
| Components.DirectionsAreDistinctBits | zapzap-native/crates/zapzap/src/components.rs:6-10 | RIGHT, UP, LEFT and DOWN are the bits 1, 2, 4 and 8: single bits, pairwise disjoint |
| Components.CodepIsPermutation | zapzap-native/crates/zapzap/src/components.rs:63-65 | GRID_CODEP is a permutation of 0..15, and its inverse table undoes it in both directions |
| Components.CoinPoints | zapzap-native/crates/zapzap/src/components.rs:84-90 | coins are worth 1, 2 and 5 points, always positive |
| Components.DropFreq | zapzap-native/crates/zapzap/src/components.rs:130-137 | the drop chance denominators are Bomb 5, Cross 3 and Arrow 8, never zero |
| Components.ToggleArm | zapzap-native/crates/zapzap/src/components.rs:169-186 | an unheld power-up changes nothing; arming the armed one disarms it; otherwise it becomes armed; the result says "armed now" exactly then; an armed power-up stays held |
| Components.ConsumeArmed | zapzap-native/crates/zapzap/src/components.rs:188-200 | with nothing armed nothing happens; otherwise the armed power-up is returned, no longer held or armed, and other power-ups keep their held flags |
| Grid.NewTile | zapzap-native/crates/zapzap/src/grid.rs:10-14 | a tile keeps only the low four bits of its byte |
| Grid.Rotate | zapzap-native/crates/zapzap/src/grid.rs:16-22 | one turn moves RIGHT to UP, UP to LEFT, LEFT to DOWN and DOWN to RIGHT; the number of connections is kept |
| Grid.HasConnectionIsBit | zapzap-native/crates/zapzap/src/grid.rs:24-27 | a tile connects towards d exactly when the binary digit of d is set in its mask |
| Grid.SingleConnectionIsPopCountOne | zapzap-native/crates/zapzap/src/grid.rs:29-32 | a dead end is exactly a tile with one connection |
| Grid.RotatePreservesShape | zapzap-native/crates/zapzap/src/grid.rs:16-32 | turning keeps dead ends dead ends and leaves the empty and four-way tiles alone |
| Grid.RotateFourIsIdentity | zapzap-native/crates/zapzap/src/grid.rs:107-119 | four turns give every tile back |
| Grid.RotateCyclesDirections | zapzap-native/crates/zapzap/src/grid.rs:85-105 | the single-connection tiles cycle RIGHT, UP, LEFT, DOWN under one turn, as the source's test expects |
| Grid.OppositeIsHalfTurn | zapzap-native/crates/zapzap/src/components.rs:12-21 | the opposite of a direction is that direction turned twice |
| Grid.AreaIsProduct | zapzap-native/crates/zapzap/src/grid.rs:54-57 | the number of cells in x whole columns is x times the height |
| Grid.IdxInjective | zapzap-native/crates/zapzap/src/grid.rs:54-57 | two in-bounds cells with the same flat index are the same cell |
| Grid.IdxDecompose | zapzap-native/crates/zapzap/src/grid.rs:54-57 | every flat index of the storage is the index of one in-bounds cell |
| Grid.NewGrid | zapzap-native/crates/zapzap/src/grid.rs:46-52 | a new grid has the requested size and no tiles |
| Grid.At | zapzap-native/crates/zapzap/src/grid.rs:59-61 | reading on the grid reads the stored cell; reading off the grid gives nothing |
| Grid.Set | zapzap-native/crates/zapzap/src/grid.rs:68-71 | after a write the cell holds the written value and every other cell is unchanged |
| Grid.CopyWithinColumn | zapzap-native/crates/zapzap/src/grid.rs:73-78 | after a copy the target holds the source cell's old value and every other cell is unchanged |
| Grid.SetGet | zapzap-native/crates/zapzap/src/grid.rs:127-138 | a write then a read of the same cell returns the value, and a read of any other cell is unaffected |
| Grid.NewGridIsEmpty | zapzap-native/crates/zapzap/src/grid.rs:46-52 | every cell of a new grid reads as empty |
| Grid.CopyWithinColumnIsColumnUpdate | zapzap-native/crates/zapzap/src/grid.rs:73-78 | a copy within column x is the column-x update at the target, and no other column changes |
| Grid.SetIsColumnUpdate | zapzap-native/crates/zapzap/src/grid.rs:68-71 | writing cell (x, y) is the column-x update at y, and no other column changes |
| Grid.ColumnsRoundTrip | zapzap-native/crates/zapzap/src/grid.rs:35-43 | splitting the column-major storage into columns and joining them again gives the grid back |
| Grid.Column | zapzap-native/crates/zapzap/src/grid.rs:41-42 | column x holds the cells (x, 0) to (x, h-1) in that order |
| Random.NewRng | zapzap-native/crates/zapzap/src/systems/board.rs:14-19 | a seed becomes the state unless it is 0, which is replaced so that the state is never zero |
| Random.XorShiftNonZero | zapzap-native/crates/zapzap/src/systems/board.rs:22-29 | an xorshift step never reaches the all-zero state, so the generator never gets stuck |
| Random.NextU64 | zapzap-native/crates/zapzap/src/systems/board.rs:22-29 | drawing keeps the state non-zero |
| Random.NextInt | zapzap-native/crates/zapzap/src/systems/board.rs:32-34 | a draw is below its bound, and the state stays non-zero |
| Generator.DrawMask | zapzap-native/crates/zapzap/src/systems/board.rs:110-120 | a mask is in 1..15; without rerolling it takes one draw; a dead end kept while rerolling means the reroll budget ran out |
| Generator.DrawMaskFirst | zapzap-native/crates/zapzap/src/systems/board.rs:110-120 | when there is no reroll, or the first draw is no dead end, the first draw is the mask |
| Generator.NewElement | zapzap-native/crates/zapzap/src/systems/board.rs:109-127 | a new mask is in 1..15; the tile counter rises by one and the dead-end counter rises exactly when the mask is a dead end |
| Generator.NewElementDraws | zapzap-native/crates/zapzap/src/systems/board.rs:109-126 | a new element is the mask drawn with rerolling on exactly when the dead-end percentage, counting this tile, exceeds the target; a dead end kept while rerolling means the budget ran out |
| Generator.NewElements | zapzap-native/crates/zapzap/src/systems/board.rs:107-127 | n draws give n masks in 1..15, and the tile counter rises by n |
| Generator.NewElementsPrefix | zapzap-native/crates/zapzap/src/systems/board.rs:107-127 | the first m of n draws are the m draws made alone |
| Generator.NewElementsStep | zapzap-native/crates/zapzap/src/systems/board.rs:107-127 | draw m of a run is one `get_new_element` after the first m draws |
| Generator.FreshTiles | zapzap-native/crates/zapzap/src/systems/board.rs:137-138 | each drawn mask becomes the tile with that mask, in order |
| GameBoard.SetMarking | zapzap-native/crates/zapzap/src/systems/board.rs:95-98 | only the marking of (x, y) changes |
| GameBoard.SetTile | zapzap-native/crates/zapzap/src/systems/board.rs:100-105 | an occupied cell gets the new tile; an empty cell leaves the board unchanged; no other cell changes |
| GameBoard.ResetGenerator | zapzap-native/crates/zapzap/src/systems/board.rs:130-133 | a reset keeps the random stream, sets the new dead-end target and clears both counters |
| GameBoard.FillRowCells | zapzap-native/crates/zapzap/src/systems/board.rs:136-139 | filling a row from column i puts draw n + (x - i) in column x and leaves every other cell alone |
| GameBoard.FillRowsCells | zapzap-native/crates/zapzap/src/systems/board.rs:135-143 | filling rows j.. writes every cell of those rows from its draw and leaves the rows above alone |
| GameBoard.FillRowsOrder | zapzap-native/crates/zapzap/src/systems/board.rs:135-140 | the fill is row-major: cell (x, y) gets draw y * width + x |
| GameBoard.ResetTableCells | zapzap-native/crates/zapzap/src/systems/board.rs:129-144 | after `reset_table` each cell holds the tile of its row-major draw |
| GameBoard.ResetTableContents | zapzap-native/crates/zapzap/src/systems/board.rs:129-144 | after `reset_table` the board is full, the markings are cleared and the multipliers are 1 |
| GameBoard.NewBoard | zapzap-native/crates/zapzap/src/systems/board.rs:60-79 | a new board has the requested size and is full; markings are cleared, pin counts are zero, multipliers are 1; it drew one tile per cell |
| Connectivity.LinkSymmetric | zapzap-native/crates/zapzap/src/systems/board.rs:185-200 | a link from a to b is also a link from b to a |
| Connectivity.ReachableSymmetric | zapzap-native/crates/zapzap/src/systems/board.rs:150-202 | if a reaches b through links then b reaches a |
| Connectivity.ComponentsEqualOrDisjoint | zapzap-native/crates/zapzap/src/systems/board.rs:150-202 | two connected networks are the same or share no cell |
| Connectivity.ReachOfClosed | zapzap-native/crates/zapzap/src/systems/board.rs:150-202 | a flood blocked by a link-closed set reaches nothing when it starts inside the set; otherwise it reaches the seed's whole network when the seed accepts the entry |
| Flood.Pushes | zapzap-native/crates/zapzap/src/systems/board.rs:189-200 | a tile queues at most four visits: exactly one towards each neighbour it faces |
| Flood.LinkQueued | zapzap-native/crates/zapzap/src/systems/board.rs:185-200 | every link out of a tile is among the visits it queues |
| Flood.FloodDone | zapzap-native/crates/zapzap/src/systems/board.rs:165-201 | when the queue empties, the visited cells are exactly those reachable from the seed without crossing cells that already carried the marker |
| Flood.ExpandConnections | zapzap-native/crates/zapzap/src/systems/board.rs:150-202 | the BFS marks exactly the flood set and leaves every other marking unchanged; a non-flood marker changes nothing |
| Connections.ResetMark | zapzap-native/crates/zapzap/src/systems/board.rs:212-219 | clearing keeps `Animating` and turns every other marking into `None` |
| Connections.ResetMarkings | zapzap-native/crates/zapzap/src/systems/board.rs:212-219 | the clearing pass clears every marking as `ResetMark` says |
| Connections.ResetIsCleared | zapzap-native/crates/zapzap/src/systems/board.rs:212-219 | after the clearing pass no cell carries a flood marker |
| Connections.EdgeNetMembers | zapzap-native/crates/zapzap/src/systems/board.rs:221-228 | a cell is in an edge's network exactly when it is connected to an edge pin that accepts from outside |
| Connections.RightPass | zapzap-native/crates/zapzap/src/systems/board.rs:221-228 | the right pass marks `Right` exactly the right edge's network |
| Connections.LeftCarrying | zapzap-native/crates/zapzap/src/systems/board.rs:234-241 | after the left pass, `Ok` marks the cells in both networks and `Left` the cells in the left one only |
| Connections.LeftPass | zapzap-native/crates/zapzap/src/systems/board.rs:230-245 | the left pass floods `Ok` into cells the right pass reached and `Left` elsewhere, and covers exactly the left network |
| Connections.CountPins | zapzap-native/crates/zapzap/src/systems/board.rs:247-262 | each side counts its pins that reach the other side's network; the result is 1 exactly when some left pin does |
| Connections.PinCountPositive | zapzap-native/crates/zapzap/src/systems/board.rs:248-254 | a pin count is positive exactly when some pin of that side reaches the other side's network |
| Connections.SettledMarks | zapzap-native/crates/zapzap/src/systems/board.rs:212-245 | after both passes every cell carries its settled marking: `Ok`, `Left`, `Right`, or its cleared marking |
| Connections.PinIsOk | zapzap-native/crates/zapzap/src/systems/board.rs:247-262 | an accepting edge pin is `Ok` exactly when the other edge's flood reached it |
| Connections.CheckConnections | zapzap-native/crates/zapzap/src/systems/board.rs:204-265 | only markings and pin counts change; every cell gets its settled marking; the counts are the joined pins of each side; the result is 1 exactly when a left pin is joined |
| Connections.ResultMeansConnected | zapzap-native/crates/zapzap/src/systems/board.rs:204-265 | `check_connections` returns 1 exactly when some left pin is joined to some right pin through the grid |
| Connections.EdgeNetWithin | zapzap-native/crates/zapzap/src/systems/board.rs:221-228 | a closed set of cells that holds every accepting pin of an edge holds that edge's whole network |
| Gravity.ColumnSurvivors | zapzap-native/crates/zapzap/src/systems/board.rs:274-282 | the survivor list holds no more tiles than the column has |
| Gravity.SurvivorsAreKeptReversed | zapzap-native/crates/zapzap/src/systems/board.rs:274-289 | the survivor list, collected bottom-up, is the column's surviving tiles in reverse order |
| Gravity.ShiftedColumn | zapzap-native/crates/zapzap/src/systems/board.rs:284-295 | a zapped column is compacted: its survivors are at the bottom in order, and the fresh tiles fill the top in draw order |
| Gravity.ShiftColumns | zapzap-native/crates/zapzap/src/systems/board.rs:272-297 | every column is compacted from its own run of draws |
| Gravity.RemoveAndShift | zapzap-native/crates/zapzap/src/systems/board.rs:267-297 | only the grid and generator change; every column is compacted; one tile is drawn per removed cell |
| Gravity.RemoveAndShiftFills | zapzap-native/crates/zapzap/src/systems/board.rs:267-297 | after a zap every cell holds a tile again |
| Gravity.BombedColumn | zapzap-native/crates/zapzap/src/systems/board.rs:310-330 | a bombed column keeps its height |
| Gravity.BombedColumnKeeps | zapzap-native/crates/zapzap/src/systems/board.rs:310-330 | a bombed column keeps the rows outside the bombed band, in order; the rows above move down by the band's height under fresh tiles |
| Gravity.ShiftDown | zapzap-native/crates/zapzap/src/systems/board.rs:313-320 | one removed row moves the rows above it down by one and leaves the rows below alone |
| Gravity.ShiftRows | zapzap-native/crates/zapzap/src/systems/board.rs:312-325 | k removed rows move the rows above down by k and leave the rows below alone |
| Gravity.FillTop | zapzap-native/crates/zapzap/src/systems/board.rs:326-329 | the top rows get the fresh tiles, last draw on top; the rest is unchanged |
| Gravity.BombColumn | zapzap-native/crates/zapzap/src/systems/board.rs:310-330 | the in-place shifts of one column compute the bombed column |
| Gravity.BombColumnsBombed | zapzap-native/crates/zapzap/src/systems/board.rs:310-330 | every column the bomb touches is bombed with its own 2k draws |
| Gravity.SaturatingSub | zapzap-native/crates/zapzap/src/systems/board.rs:305-307 | unsigned subtraction stops at zero |
| Gravity.BombRect | zapzap-native/crates/zapzap/src/systems/board.rs:305-308 | the bombed rectangle holds the centre, reaches dx and dy each way, and is clamped to the board |
| Gravity.BombColumnsLoop | zapzap-native/crates/zapzap/src/systems/board.rs:310-330 | the column loop bombs columns si..ei-1 in turn |
| Gravity.BombedColumnsEffect | zapzap-native/crates/zapzap/src/systems/board.rs:310-330 | columns outside the rectangle are unchanged and those inside are bombed |
| Gravity.BombTable | zapzap-native/crates/zapzap/src/systems/board.rs:299-331 | the in-place `bomb_table` computes the column-wise bomb specification |
| Gravity.BombSpecColumns | zapzap-native/crates/zapzap/src/systems/board.rs:299-331 | a bomb off the board changes nothing; on the board, columns outside the rectangle stay and columns inside are bombed |
| Zap.SurvivorRows | zapzap-native/crates/zapzap/src/state.rs:581-589 | the recorded survivor rows are rows of the column whose marking is not `Ok` |
| Zap.CollectSurvivorRows | zapzap-native/crates/zapzap/src/state.rs:582-587 | the bottom-up loop records exactly the survivor rows |
| Zap.SurvivorRowsBound | zapzap-native/crates/zapzap/src/state.rs:611-614 | survivor i starts at row h-1-i or above, so it only moves down |
| Zap.SurvivorRowsCount | zapzap-native/crates/zapzap/src/state.rs:604-606 | a full column has as many survivor rows as `remove_and_shift` keeps tiles, so the number of new tiles agrees |
| Zap.SurvivorRowsMatchShift | zapzap-native/crates/zapzap/src/state.rs:577-592 | the tiles in the recorded rows are exactly the tiles `remove_and_shift` keeps, in its order |
| Zap.NewTileFalls | zapzap-native/crates/zapzap/src/state.rs:621-626 | new tile i of n falls into row i from n - i rows above the board |
| Zap.ColumnZapFallsDown | zapzap-native/crates/zapzap/src/state.rs:603-627 | every fall a zap creates in a column ends on the board, below where it started |
| Zap.ZapFallsDown | zapzap-native/crates/zapzap/src/state.rs:603-627 | every fall of a zap stays in its column, lands on the board and moves down |
| Zap.BoardSurvivorRows | zapzap-native/crates/zapzap/src/state.rs:579-589 | one survivor list per column, each no longer than the column |
| Zap.CheckedIsSettled | zapzap-native/crates/zapzap/src/systems/board.rs:204-265 | the board `check_connections` leaves is the settled board |
| Zap.AffectedRect | zapzap-native/crates/zapzap/src/state.rs:323-328 | the scanned rectangle stays inside the board |
| Zap.AffectedRectIsBombRect | zapzap-native/crates/zapzap/src/state.rs:323-328 | around a board cell, the cells scanned for effects are the rectangle `bomb_table` clears |
| Zap.RectCellsMembers | zapzap-native/crates/zapzap/src/state.rs:329-335 | a cell is listed exactly when it is occupied and inside the rectangle |
| Zap.RectCellsOrdered | zapzap-native/crates/zapzap/src/state.rs:329-335 | the cells are listed in column-major order, each once |
| Zap.ScanColumn | zapzap-native/crates/zapzap/src/state.rs:330-334 | the inner loop lists the occupied cells of one column in the band, top down |
| Zap.BombAffectedPositions | zapzap-native/crates/zapzap/src/state.rs:323-337 | the positions are exactly the occupied cells of the clamped rectangle, each once, in column-major order |
| Zap.TallyCounts | zapzap-native/crates/zapzap/src/state.rs:660-664 | tallying a cell raises the count of its own column by one and no other |
| Zap.ColumnCountsPerColumn | zapzap-native/crates/zapzap/src/state.rs:658-665 | the per-column tallies count each column's destroyed cells |
| Zap.BombFallsLength | zapzap-native/crates/zapzap/src/state.rs:672-678 | there is one fall per tallied cell |
| Zap.OneFallPerDestroyedCell | zapzap-native/crates/zapzap/src/state.rs:670-678 | `finish_bomb` creates exactly one fall per destroyed cell |
| Zap.BombKeepsFull | zapzap-native/crates/zapzap/src/systems/board.rs:299-331 | a bomb leaves a full board full |
| Bot.CountOk | zapzap-native/crates/zapzap/src/systems/bot.rs:66-74 | the bot's first count is the number of `Ok` cells after the check |
| Bot.CountRight | zapzap-native/crates/zapzap/src/systems/bot.rs:75-92 | the partial count is the `Right` cells plus one per row whose last cell earns the edge bonus |
| Bot.CountRightRow | zapzap-native/crates/zapzap/src/systems/bot.rs:78-90 | one row's `Right` cells and its edge bonus |
| Bot.Evaluate | zapzap-native/crates/zapzap/src/systems/bot.rs:59-95 | only markings and pin counts change; the score is twice the `Ok` cells when pins join, else the `Right` cells plus three for each right-edge pin among them |
| Bot.CellTrials | zapzap-native/crates/zapzap/src/systems/bot.rs:30-38 | the trials of a cell are moves on that cell only |
| Bot.ChosenStep | zapzap-native/crates/zapzap/src/systems/bot.rs:43-51 | a strictly higher score takes over the choice and a tie keeps the earlier trial |
| Bot.TryOnce | zapzap-native/crates/zapzap/src/systems/bot.rs:38-51 | one trial turns the copy's tile once more, scores it and updates the choice |
| Bot.TryTurns | zapzap-native/crates/zapzap/src/systems/bot.rs:37-52 | the remaining turns of one cell are scored in order |
| Bot.TryRotations | zapzap-native/crates/zapzap/src/systems/bot.rs:36-52 | the three turns of one cell are scored in order |
| Bot.TryCell | zapzap-native/crates/zapzap/src/systems/bot.rs:24-52 | a missing tile or one not worth turning is skipped; otherwise its three turns are scored |
| Bot.TryColumn | zapzap-native/crates/zapzap/src/systems/bot.rs:24-53 | a column's cells are scored top down |
| Bot.DetermineNextMove | zapzap-native/crates/zapzap/src/systems/bot.rs:17-57 | there is no move exactly when no trial scores above zero; otherwise the move is the first trial with the best score |
| Bot.ChosenIsFirstBest | zapzap-native/crates/zapzap/src/systems/bot.rs:20-56 | the running choice over scored trials is the first best trial, or nothing when none scores above zero |
| Bot.FirstBestUnique | zapzap-native/crates/zapzap/src/systems/bot.rs:17-57 | at most one trial is the first best, so the move the bot returns is determined by the board |
| Bot.ScoreAtMost | zapzap-native/crates/zapzap/src/systems/bot.rs:59-95 | a zapping board scores at most two points a cell; otherwise at most one a cell plus three a row |
| Bonus.Points | zapzap-native/crates/zapzap/src/systems/bonus.rs:98-103 | a drop is worth nothing exactly when it is a power-up; coins are worth their points |
| Bonus.SideBonus | zapzap-native/crates/zapzap/src/systems/bonus.rs:113-121 | one side adds a 1-coin exactly when it has more than three pins, and 5-coins exactly when it has more than six |
| Bonus.BonusDrops | zapzap-native/crates/zapzap/src/systems/bonus.rs:108-134 | a zap drops two to four 1-coins, and 5-coins exactly when a side has more than six pins |
| Bonus.BonusDropsSymmetric | zapzap-native/crates/zapzap/src/systems/bonus.rs:108-134 | swapping the sides drops the same coins |
| Bonus.BonusDropsExamples | zapzap-native/crates/zapzap/src/systems/bonus.rs:273-295 | (0, 0) pins drop (2, 0, 0) coins, (5, 0) drop (3, 2, 0) and (8, 9) drop (4, 6, 5) |
| Bonus.BonusDropsMonotone | zapzap-native/crates/zapzap/src/systems/bonus.rs:108-134 | more pins on one side never drop fewer 1-coins, fewer coins or fewer points |
| Bonus.PickCell | zapzap-native/crates/zapzap/src/systems/bonus.rs:165-175 | the picked cell is on the board; a taken cell is accepted only after fifty-one rejected draws |
| Bonus.Pick | zapzap-native/crates/zapzap/src/systems/bonus.rs:165-175 | the retry rule settles on a board cell after at most fifty-one rejected draws, and never before the draws it started from |
| Bonus.RejectedAll | zapzap-native/crates/zapzap/src/systems/bonus.rs:165-175 | the loop's record of rejections holds exactly when each of the first n draws hit a taken cell |
| Bonus.Spawn | zapzap-native/crates/zapzap/src/systems/bonus.rs:165-181 | one drop of the given kind is appended, aimed at a board cell, and its cell is recorded as taken |
| Bonus.SpawnMany | zapzap-native/crates/zapzap/src/systems/bonus.rs:183-191 | n drops of one kind are appended after the earlier drops, all on the board |
| Bonus.SpawnPowerUp | zapzap-native/crates/zapzap/src/systems/bonus.rs:194-197 | a power-up roll adds that power-up on the board or adds nothing |
| Bonus.SpawnCoins | zapzap-native/crates/zapzap/src/systems/bonus.rs:183-191 | the coins come 1-coins first, then 2-coins, then 5-coins, in the requested numbers |
| Bonus.SpawnPowerUps | zapzap-native/crates/zapzap/src/systems/bonus.rs:193-198 | after the coins come at most three power-ups, each type at most once, in Bomb, Cross, Arrow order |
| Bonus.PowerUpStep | zapzap-native/crates/zapzap/src/systems/bonus.rs:193-198 | three optional appends of a Bomb, a Cross and an Arrow keep the earlier drops and add a power-up run |
| Bonus.SpawnBonuses | zapzap-native/crates/zapzap/src/systems/bonus.rs:148-199 | all earlier drops are gone; the new drops are the coins in order, then at most three power-ups in order, all aimed at board cells |
| Bonus.SelectSplits | zapzap-native/crates/zapzap/src/systems/bonus.rs:201-213 | each falling drop either keeps falling or lands, never both, never neither |
| Bonus.TickFalling | zapzap-native/crates/zapzap/src/systems/bonus.rs:201-213 | drops still in the air stay falling in order; the others are appended to the landed drops in order; the result says whether any still fall |
| Bonus.TickFallingKeepsDrops | zapzap-native/crates/zapzap/src/systems/bonus.rs:201-213 | a frame neither creates nor loses drops |
| Bonus.Destination | zapzap-native/crates/zapzap/src/systems/bonus.rs:228-246 | drops on `Left` or `Ok` cells go left, drops on `Right` cells go right, the rest stay |
| Bonus.GoesSplits | zapzap-native/crates/zapzap/src/systems/bonus.rs:227-247 | every landed drop goes to exactly one of left, right or staying |
| Bonus.CollectKeepsTotals | zapzap-native/crates/zapzap/src/systems/bonus.rs:215-251 | the two hauls plus what stays add up to the landed points and power-ups |
| Bonus.CollectLanded | zapzap-native/crates/zapzap/src/systems/bonus.rs:215-251 | falling drops are untouched; each side's haul is its drops' points and power-ups, in order; the rest stay landed |
| Bonus.AllBonuses | zapzap-native/crates/zapzap/src/systems/bonus.rs:253-256 | the drawn drops are the falling then the landed ones, each exactly once |
| Bonus.ClearBonuses | zapzap-native/crates/zapzap/src/systems/bonus.rs:258-262 | after clearing there is nothing to draw |
| Bonus.IsEmptyMeansNothingToDraw | zapzap-native/crates/zapzap/src/systems/bonus.rs:264-266 | the state is empty exactly when there is nothing to draw |
| Scoring.ScoreRow | zapzap-native/crates/zapzap/src/state.rs:427-479 | one row scores the left pin, then the right pin, keeping the running scores, multipliers and popups in step |
| Scoring.ApplyMultiplierScores | zapzap-native/crates/zapzap/src/state.rs:421-480 | each joined pin whose edge tile leads off the board earns its multiplier, then the multiplier rises by one; Zen credits everything to both scores, VsBot each side its own; only multipliers change on the board |
| Scoring.GainBounds | zapzap-native/crates/zapzap/src/state.rs:434-475 | with positive multipliers a side's gain is never negative and at most the number of rows times its largest multiplier |
| Scoring.Grant | zapzap-native/crates/zapzap/src/state.rs:549-564 | a side holds a power-up afterwards exactly when it held it before or collected it; the armed slot is untouched |
| Scoring.Partition | zapzap-native/crates/zapzap/src/state.rs:497-531 | the landed drops are split by destination, with a popup per collected coin |
| Scoring.PartitionStep | zapzap-native/crates/zapzap/src/state.rs:497-531 | one turn of the loop sends the next drop to its side and adds its popup |
| Scoring.GrantEach | zapzap-native/crates/zapzap/src/state.rs:549-564 | each collected power-up is granted with one power-up sound |
| Scoring.CollectLandedBonuses | zapzap-native/crates/zapzap/src/state.rs:485-565 | the drops on marked cells are collected: points go to the scores by mode, power-ups become held, and sounds and popups follow; the other drops stay landed |
| Scoring.HandOut | zapzap-native/crates/zapzap/src/state.rs:534-564 | points are credited by mode, power-ups are granted to their sides, and the sounds are emitted |
| Scoring.CreditPoints | zapzap-native/crates/zapzap/src/state.rs:534-547 | Zen adds both hauls to both scores, VsBot adds each haul to its own side; a coin sound plays exactly when points were won |
| Scoring.PointsOfNonNegative | zapzap-native/crates/zapzap/src/systems/bonus.rs:98-103 | a run of drops is never worth less than nothing |
| Scoring.CollectedPointsNonNegative | zapzap-native/crates/zapzap/src/state.rs:497-531 | neither side's haul is negative |
| Scoring.CollectionRaisesScores | zapzap-native/crates/zapzap/src/state.rs:534-545 | collecting never lowers a score, and in Zen mode both scores rise by the same amount |
| Effects.ColorIndex | zapzap-native/crates/zapzap/src/systems/effects.rs:11-25 | a colour's discriminant is below 13 |
| Effects.AllColorsByIndex | zapzap-native/crates/zapzap/src/systems/effects.rs:28-32 | `ALL` lists the thirteen colours once each, each at its discriminant |
| Effects.RandomColor | zapzap-native/crates/zapzap/src/systems/effects.rs:34-36 | a random colour is the colour whose discriminant is the draw below 13 |
| Effects.AtlasCellsDistinct | zapzap-native/crates/zapzap/src/systems/effects.rs:43-57 | no two colours share an atlas cell |
| Effects.Uvs | zapzap-native/crates/zapzap/src/systems/effects.rs:41-69 | a colour's u range is one atlas column within the first four; its first, middle and last v run down one row block |
| Effects.Stations | zapzap-native/crates/zapzap/src/systems/effects.rs:215-240 | an n-point strip has a start cap, then every point in order, then an end cap |
| Effects.StripOf | zapzap-native/crates/zapzap/src/systems/effects.rs:196-213 | each station contributes its left vertex then its right vertex |
| Effects.BuildStripVertices | zapzap-native/crates/zapzap/src/systems/effects.rs:168-243 | fewer than two points give nothing; otherwise a vertex pair per station, 2(n+2) vertices |
| Effects.StripToTriangles | zapzap-native/crates/zapzap/src/systems/effects.rs:247-268 | a strip of m vertices becomes m-2 triangles; triangle t uses strip vertices t, t+1, t+2, and odd triangles swap the first two |
| Effects.CornersCover | zapzap-native/crates/zapzap/src/systems/effects.rs:254-259 | triangle t uses exactly the strip vertices t, t+1 and t+2 |
| Effects.TrianglesShareEdges | zapzap-native/crates/zapzap/src/systems/effects.rs:254-266 | neighbouring triangles share the strip edge between them |
| Effects.PolylineVertexCount | zapzap-native/crates/zapzap/src/systems/effects.rs:544-558 | an n-point polyline is drawn with 6n + 6 triangle-list vertices, as the source's tests count |
| Effects.GeneratePoints | zapzap-native/crates/zapzap/src/systems/effects.rs:120-148 | midpoint displacement on (s, e) writes only strictly between s and e |
| Effects.GeneratePointsFollowsPlan | zapzap-native/crates/zapzap/src/systems/effects.rs:120-148 | the recursion does exactly the midpoint writes of its plan, in order |
| Effects.PlanCoversInterior | zapzap-native/crates/zapzap/src/systems/effects.rs:120-148 | every index strictly between s and e is written, and no other |
| Effects.PlanWritesOnce | zapzap-native/crates/zapzap/src/systems/effects.rs:120-148 | no index is written twice |
| Effects.PlanDisplacementsExist | zapzap-native/crates/zapzap/src/systems/effects.rs:134-139 | for a whole arc every midpoint has its displacement, so the 0.0 fallback is never taken |
| Effects.GenerateDisplacements | zapzap-native/crates/zapzap/src/systems/effects.rs:112-118 | one displacement per slot, each in [-0.2, 0.2) |
| Effects.UnitDraw | zapzap-native/crates/zapzap/src/systems/effects.rs:115 | a draw below 10000 maps into [-1, 1) |
| Effects.NewArc | zapzap-native/crates/zapzap/src/systems/effects.rs:95-110 | an arc of 2^k segments has 2^k + 1 points from start to end and 2^k - 1 displacements in range, and its interior comes from midpoint displacement |
| Effects.Clamp | zapzap-native/crates/zapzap/src/systems/effects.rs:155 | a clamped value lies in the range and is unchanged when already inside |
| Effects.Twitch | zapzap-native/crates/zapzap/src/systems/effects.rs:151-160 | a twitch keeps the arc's ends, sizes and displacement bound, keeps every displacement in range, and recomputes the interior |
| Effects.SpeedDraw | zapzap-native/crates/zapzap/src/systems/effects.rs:463-468 | a launch speed component lies in [-10, 10) |
| Effects.LaunchParticle | zapzap-native/crates/zapzap/src/systems/effects.rs:462-473 | a particle starts at its cell with full lifetime, standard width and a speed within the limit |
| Effects.LaunchTile | zapzap-native/crates/zapzap/src/systems/effects.rs:462-473 | a connected cell launches ten particles |
| Effects.SpawnZapParticles | zapzap-native/crates/zapzap/src/systems/effects.rs:444-477 | existing particles are kept; ten new particles follow for each `Ok` cell, column by column, top down |
| Effects.LiveParticles | zapzap-native/crates/zapzap/src/systems/effects.rs:291-295 | the particles left have lifetime remaining, and there are no more of them than before |
| Effects.NewEffects | zapzap-native/crates/zapzap/src/systems/effects.rs:340-348 | a new effects state has nothing to draw, and its generator is seeded 7919 past the board's |
| Effects.ClearEffects | zapzap-native/crates/zapzap/src/systems/effects.rs:511-515 | clearing drops arcs, particles and vertices, and keeps the generator |
| Effects.TickEffects | zapzap-native/crates/zapzap/src/systems/effects.rs:480-489 | every arc keeps its ends, point count, width and colour; the particles are the survivors of the frame, in order; the buffer is untouched |
| Effects.RebuildBuffer | zapzap-native/crates/zapzap/src/systems/effects.rs:492-508 | only the buffer changes; it holds the triangle-list vertices of every arc plus 18 per particle |
| Effects.ArcVertexCount | zapzap-native/crates/zapzap/src/systems/effects.rs:496-499 | an arc of 2^k segments is drawn with 6 * 2^k + 12 vertices |
| Effects.BuildArcs | zapzap-native/crates/zapzap/src/systems/effects.rs:352-442 | the arcs are built one per description, in pass, row and cell order; each realises its description; the generator moves on 15 draws per arc of the players' passes and 7 per arc of the joined pass |
| Effects.RebuildArcs | zapzap-native/crates/zapzap/src/systems/effects.rs:352-442 | rebuilding replaces only the arcs and the generator: the particles and the buffer stay, and every new arc realises its description |
| Effects.ArcSpecsRng | zapzap-native/crates/zapzap/src/systems/effects.rs:374-440 | building the arcs draws 2^4 - 1 times per arc of the Left and Right passes and 2^3 - 1 times per arc of the Ok pass |
| Effects.ArcSpecsArePassArcs | zapzap-native/crates/zapzap/src/systems/effects.rs:374-440 | an arc is built exactly when one of the three passes describes it |
| Effects.LeftPinDrawn | zapzap-native/crates/zapzap/src/systems/effects.rs:383-395 | the arc from a left pin is built, red on the joined net, exactly when the row's first cell carries the marking and opens left |
| Effects.RightPinDrawn | zapzap-native/crates/zapzap/src/systems/effects.rs:396-408 | the arc to a right pin is built, red on the joined net, exactly when the row's last cell carries the marking and opens right |
| Effects.AcrossLinkDrawn | zapzap-native/crates/zapzap/src/systems/effects.rs:415-425 | a link between neighbours in a row is built exactly when both carry the marking and face each other |
| Effects.DownLinkDrawn | zapzap-native/crates/zapzap/src/systems/effects.rs:426-436 | a link between neighbours in a column is built exactly when both carry the marking and face each other |
| Effects.ZapBurst | zapzap-native/crates/zapzap/src/systems/effects.rs:444-477 | the zap particles are appended, ten per connected cell; the arcs and buffer stay |
| Render.TileAtlasCol | zapzap-native/crates/zapzap/src/state.rs:49-51 | a tile's atlas column is below 16, and the column reads back as the tile's mask |
| Render.AtlasColInjective | zapzap-native/crates/zapzap/src/state.rs:49-51 | different tiles are drawn from different atlas columns |
| Render.TileAlpha | zapzap-native/crates/zapzap/src/state.rs:730-742 | a tile is hidden exactly when it is connected during a zap freeze or bombed during a bomb freeze; otherwise `Ok` shows at 1.5, `Animating` at 0.3, the rest at 1.0 |
| Render.HiddenAreBombed | zapzap-native/crates/zapzap/src/state.rs:341-351 | the tiles hidden while a bomb is pending are exactly the cells the bomb reports as hit |
| Render.Pins | zapzap-native/crates/zapzap/src/state.rs:697-710 | one pin sprite per row, top row first |
| Render.Overlays | zapzap-native/crates/zapzap/src/state.rs:794-813 | rotation arrows are drawn only while a tile turns, one per running rotation, coloured by player or bot |
| Render.BonusSprites | zapzap-native/crates/zapzap/src/state.rs:777-790 | one sprite per drop, falling drops first |
| Render.RebuildRenderBuffer | zapzap-native/crates/zapzap/src/state.rs:693-814 | the buffer is left pins, tiles, right pins, drops and rotation arrows, in that order |
| Render.PushTiles | zapzap-native/crates/zapzap/src/state.rs:713-758 | the tile loop draws every occupied cell, column by column, top down |
| Render.PushColumn | zapzap-native/crates/zapzap/src/state.rs:714-757 | one column's occupied cells are drawn in order |
| Render.PushPins | zapzap-native/crates/zapzap/src/state.rs:761-774 | the pin loop draws one pin per row |
| Render.PushBonuses | zapzap-native/crates/zapzap/src/state.rs:777-790 | the drop loop draws every drop |
| Render.PushOverlays | zapzap-native/crates/zapzap/src/state.rs:795-812 | the arrow loop draws one arrow per rotation |
| Render.FullBoardCount | zapzap-native/crates/zapzap/src/state.rs:713-758 | a full board draws one tile sprite per cell |
| Render.RenderLayout | zapzap-native/crates/zapzap/src/state.rs:693-814 | left pin y is at index y and right pin y follows the tiles; a full quiet board draws exactly 2h + w*h sprites |
| Render.TileSpritesMembers | zapzap-native/crates/zapzap/src/state.rs:713-758 | a tile sprite is drawn exactly for an occupied cell, with its tile's atlas column and its alpha |
| Render.LightTriangles | zapzap-native/crates/zapzap/src/state.rs:103-109 | one light is an 18-vertex triangle list in its colour |
| Render.LightRun | zapzap-native/crates/zapzap/src/state.rs:98-110 | n lights append 18n vertices in one colour and keep the buffer before them |
| Render.AddMultiplierLights | zapzap-native/crates/zapzap/src/state.rs:82-128 | after the buffer come 18 vertices per light, one light per point of each positive multiplier, all magenta or orange |
| Render.LightsAtLeastPins | zapzap-native/crates/zapzap/src/state.rs:93-127 | with every multiplier at least one there are at least two lights per row |
| Phases.Unfinished | zapzap-native/crates/zapzap/src/state.rs:222-227 | the animations left running are never more than before |
| Phases.UnfinishedEmpty | zapzap-native/crates/zapzap/src/state.rs:222-227 | nothing is left running exactly when every animation finished |
| Phases.UnfinishedIsSubset | zapzap-native/crates/zapzap/src/state.rs:242-250 | the animations left running are among those that ran |
| State.QueueTap | zapzap-native/crates/zapzap/src/state.rs:206-210 | a tap on the board replaces the queued tap; one off the board is ignored; nothing else changes |
| State.LaterTapWins | zapzap-native/crates/zapzap/src/state.rs:206-210 | of two taps, the later on-board one is the queued tap |
| State.RunCheck | zapzap-native/crates/zapzap/src/state.rs:381-390 | the check settles the markings, and the game zaps exactly when a left pin is joined to a right pin |
| State.CheckAndDraw | zapzap-native/crates/zapzap/src/state.rs:382-385 | the board is checked, only the board and the effects change, and the arcs are rebuilt from the settled markings |
| State.Transition | zapzap-native/crates/zapzap/src/state.rs:387-416 | the game waits for input exactly when no pins join; a zap scores, plans the drops from the pins and bursts particles on the connected tiles; scores only rise |
| State.Collect | zapzap-native/crates/zapzap/src/state.rs:485-565 | collection keeps a sub-multiset of the landed drops, never lowers a score, and raises each score by at most the landed points |
| State.CollectionBounds | zapzap-native/crates/zapzap/src/state.rs:485-565 | a collection raises each score by between zero and the landed points, equally in Zen mode |
| State.ScoringCap | zapzap-native/crates/zapzap/src/state.rs:421-480 | multiplier scoring raises each score by between zero and the rows times both sides' largest multipliers, equally in Zen mode |
| State.ZapScore | zapzap-native/crates/zapzap/src/state.rs:390-412 | a zap scores the pins, plans the drops from the pin counts, buzzes and freezes; the game ends exactly in VsBot mode when a score reaches 100 |
| State.CheckAndTransition | zapzap-native/crates/zapzap/src/state.rs:381-417 | markings are settled and the grid is kept; the game waits for input exactly when no pins join; otherwise it zaps or ends; scores only rise, within the collection and scoring caps; the arcs are rebuilt from the settled board, and a zap adds the particle burst |
| State.RotateCellCells | zapzap-native/crates/zapzap/src/state.rs:280-282 | turning changes the tile at (x, y) and no other cell |
| State.RotateKeepsInv | zapzap-native/crates/zapzap/src/state.rs:280-282 | turning a tile keeps the game invariant |
| State.RotateCellFour | zapzap-native/crates/zapzap/src/grid.rs:107-119 | four turns of a board cell give the board back |
| State.RotateCellStep | zapzap-native/crates/zapzap/src/state.rs:366-370 | one more turn of a turned cell is one more turn in all |
| State.MoveIsTrial | zapzap-native/crates/zapzap/src/state.rs:364-370 | the bot's move turns its tile exactly as its scored trial did |
| State.TurnTile | zapzap-native/crates/zapzap/src/state.rs:366-370 | `rotation_count` single turns turn the cell that many times |
| State.Blast | zapzap-native/crates/zapzap/src/state.rs:293-313 | a bomb reaches two cells each way; an arrow reaches the whole column |
| State.CrossBoard | zapzap-native/crates/zapzap/src/state.rs:304 | the Cross makes the tapped tile four-way and changes no other cell |
| State.ApplyPowerUp | zapzap-native/crates/zapzap/src/state.rs:290-320 | a bomb or arrow is deferred with its area, clears the drops, sounds and freezes; a cross rewires the tile and checks the board at once |
| State.ProcessInput | zapzap-native/crates/zapzap/src/state.rs:267-288 | the queued tap is taken; an armed power-up (left first) is used up on the tapped cell; otherwise the tile turns a quarter and the phase waits for the turn |
| State.UsePower | zapzap-native/crates/zapzap/src/state.rs:269-277 | the left armed power-up is used first, else the right one; only a Cross does not freeze; a bomb or arrow is no longer held and leaves its blast pending |
| State.TapTurn | zapzap-native/crates/zapzap/src/state.rs:279-286 | the tapped tile turns once, a player rotation runs, a rotate sound plays, and the phase waits for the turn |
| State.TryBotMove | zapzap-native/crates/zapzap/src/state.rs:353-379 | the bot moves only in VsBot mode, while waiting for input, after its delay, and when some trial scores; it then plays its first best trial and draws its next delay |
| State.SurvivorColumns | zapzap-native/crates/zapzap/src/state.rs:579-589 | every column's survivor rows are recorded before removal |
| State.AddZapFalls | zapzap-native/crates/zapzap/src/state.rs:603-627 | the fall animations of all columns are appended column by column |
| State.ClearZapped | zapzap-native/crates/zapzap/src/state.rs:591-599 | the connected tiles are removed, the board is full again, and every marking is reset |
| State.ZapTiles | zapzap-native/crates/zapzap/src/state.rs:574-627 | the zap re-checks, removes the connected tiles and animates every moved and new tile onto the board |
| State.Sweep | zapzap-native/crates/zapzap/src/state.rs:577-599 | the survivor rows are recorded and the board is compacted, full and cleared |
| State.ReleaseDrops | zapzap-native/crates/zapzap/src/state.rs:629-640 | the planned coins fall in order, then at most three power-ups; the plan is reset |
| State.DoZap | zapzap-native/crates/zapzap/src/state.rs:567-644 | the arcs are cleared, the sounds play, the tiles fall and refill, the drops are released, and the phase becomes falling tiles |
| State.CountColumns | zapzap-native/crates/zapzap/src/state.rs:658-665 | the tally loop computes the per-column counts |
| State.BombHitsItsCentre | zapzap-native/crates/zapzap/src/state.rs:323-337 | a bomb on a full board hits at least its centre |
| State.Detonate | zapzap-native/crates/zapzap/src/state.rs:655-678 | the bombed board replaces the board, and one fall per destroyed cell is appended |
| State.BlowUp | zapzap-native/crates/zapzap/src/state.rs:668 | the bomb keeps the board full, its size and its multipliers positive |
| State.BombAnims | zapzap-native/crates/zapzap/src/state.rs:670-678 | one fall per destroyed cell, and at least one |
| State.FinishBomb | zapzap-native/crates/zapzap/src/state.rs:654-688 | a pending bomb detonates and the tiles fall; with no bomb, the tiles fall if any fall and the board is checked otherwise, with the arcs built twice; the pending bomb is gone |
| State.AfterBomb | zapzap-native/crates/zapzap/src/state.rs:681-687 | with falls running the phase becomes falling tiles; otherwise the board is checked, the arcs are built twice from the settled board, and a zap adds the particle burst |
| State.CheckStill | zapzap-native/crates/zapzap/src/state.rs:684-686 | with nothing falling the board is checked, the arcs are built twice from the settled board, and the transition follows |
| State.StepWaiting | zapzap-native/crates/zapzap/src/state.rs:218-221 | waiting for input always uses up the queued tap, keeps the invariant and never enters the falling-bonuses phase |
| State.StepRotating | zapzap-native/crates/zapzap/src/state.rs:222-227 | finished turns are dropped; the phase stays rotating exactly while a turn runs, then the board is checked |
| State.CheckWhenIdle | zapzap-native/crates/zapzap/src/state.rs:224-226 | while something moves nothing happens; otherwise the board is checked |
| State.LandDrops | zapzap-native/crates/zapzap/src/state.rs:244 | drops that stopped move from the air to the ground in order; the flag says whether any still fall |
| State.StepFalling | zapzap-native/crates/zapzap/src/state.rs:242-250 | finished falls are dropped and stopped drops land; the phase stays falling exactly while a fall or a drop runs, then the board is checked |
| State.Redraw | zapzap-native/crates/zapzap/src/state.rs:256-264 | the effects age, every arc keeps its shape while the generator moves on by the twitch draws, their buffer is rebuilt with the multiplier lights, and the sprites are redrawn |
| State.Advance | zapzap-native/crates/zapzap/src/state.rs:217-254 | a finished game stays; a freeze stays until its timer runs out; a zap freeze ends in falling tiles; nothing ever enters the unused falling-bonuses phase |
| State.Tick | zapzap-native/crates/zapzap/src/state.rs:213-265 | a frame keeps the invariant and never lowers a score or a multiplier; a finished game stays finished, unchanged and silent; a running freeze holds the board and scores; the sprite buffer and effect vertices match the new state |
| State.NewGame | zapzap-native/crates/zapzap/src/state.rs:174-203 | a new game has a 12 x 10 board, waits for input or zaps at once exactly when the fresh board is joined, and has scores of at most 20 |
| State.Fresh | zapzap-native/crates/zapzap/src/state.rs:174-197 | before its opening check a new game has the fresh 12 x 10 board, zero scores, nothing landed to collect, no animations, tap or bomb, and a scoring cap of at most 20 |
| State.Assemble | zapzap-native/crates/zapzap/src/state.rs:178-197 | a game built on a full board with unit multipliers waits for input with zero scores, nothing landed to collect, no animations, tap or bomb, and a scoring cap of at most 20 |
| ConnectionScenarios.SimpleHorizontal | zapzap-native/crates/zapzap/src/systems/board.rs:381-397 | three straight tiles in a row join the pins: the check returns 1, one pin joins on each side and every cell is `Ok` |
| ConnectionScenarios.NoPathCheck | zapzap-native/crates/zapzap/src/systems/board.rs:401-411 | a row with no joining path returns 0 and counts no pins |
| ConnectionScenarios.LShapedPath | zapzap-native/crates/zapzap/src/systems/board.rs:423-444 | the L-shaped path returns 1 and its four cells are `Ok` |
| ConnectionScenarios.MultipleRowsCheck | zapzap-native/crates/zapzap/src/systems/board.rs:448-470 | two straight rows around a broken one return 1 with two pins joined on each side |
| BotScenarios.FindsCompletingMove | zapzap-native/crates/zapzap/src/systems/bot.rs:104-120 | with the middle tile turned away the bot turns it once to complete the row |
| BotScenarios.NoImprovement | zapzap-native/crates/zapzap/src/systems/bot.rs:123-132 | a row of dead ends pointing up gives no move, since no turn scores |
| BotScenarios.PrefersZap | zapzap-native/crates/zapzap/src/systems/bot.rs:135-152 | on a four-wide row the bot prefers the turn that zaps over partial gains |

## Left out

- Floating-point state is not modelled: screen positions, rotation angles, scales, timers, particle and drop physics, and the arc geometry computed with square roots. Each frame takes a `Frame` value that says which animations finished, which drops still fall, whether a freeze ran out and whether the bot still waits. Fall animations keep rows instead of world coordinates.
- The bot's delay timer is the frame's `botWaiting` flag. The model keeps the generator draw that resets the delay.
- `build_arcs_from_board` (effects.rs) is modelled down to which arcs are built, in which order, with which ends, sizes and colours, and how many generator draws each takes. The midpoint displacement of each arc is the `Displacer` parameter, because it is float geometry.
- `spawn_explosion_particles`, `RotateAnim::new_with_source`, `tick_idle` and `pulse_scale` are called from state.rs but are not part of this model. The bomb's explosion particles are not spawned, and landed drops do not animate while idle.
- The animation module (`systems/animation.rs`) is not part of this model beyond which animations are still running.
- `Particle::tick` is reduced to the lifetime countdown; the attractor and friction are float physics.
- Sound and popup buffers are kept as sequences; popups carry value and side but not screen position.
- The `FallingBonuses` phase has no transitions in the source; the model keeps it and proves nothing enters it.
- Generator.DrawMask: the source rerolls a dead end with no bound. The model stops after 1000 rerolls (`REROLL_LIMIT`) and keeps the last draw. The contract states exactly when the cap was reached.
- Generator.NewElement: weaker for the same reason as `DrawMask`. Its dead-end count is exact for the mask it returns.
- The `i32` scores and multipliers, and the `usize` counts, are unbounded here: overflow is not modelled.
- Bonus.PickCell: `Drawable` demands a board with positive dimensions below 2^32, because the source casts both sizes to `u32` and divides by them.
- Render: sprites carry atlas column, alpha, cell and kind; their screen position, rotation and scale are floats and are not modelled.
- The doc comment of `Tile::rotate` in grid.rs says clockwise (right to down). The code and its test turn right to up; the model follows the code.
- `State.ApplyPowerUp`: for a Cross the contract does not state the power-up sound.
