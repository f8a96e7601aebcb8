/**
 * The concrete boards of the connection-check tests in
 * zapzap/src/systems/board.rs. Each test starts from `GameBoard::new` and
 * overwrites every cell with `grid.set`, so the scenarios take any board of
 * the test's size and replace its whole grid. Cells are listed column-major:
 * cell (x, y) is at index x * height + y.
 */
module ConnectionScenarios {
  import opened Components
  import opened Grid
  import opened Connectivity
  import opened Flood
  import opened GameBoard
  import opened Connections

  /** The tile `Tile::new(c)`, placed on the grid. */
  function T(c: bv8): Option<Tile> {
    Some(NewTile(c))
  }

  /** `board` with every cell overwritten by `tiles`. */
  function Painted(b: Board, tiles: seq<Option<Tile>>): (r: Board)
    requires Valid(b) && |tiles| == |b.grid.tiles|
    ensures Valid(r) && r.width == b.width && r.height == b.height
  {
    b.(grid := b.grid.(tiles := tiles))
  }

  // ---------------------------------------------------------------------
  // check_connections_simple_horizontal: 5 5 5
  // ---------------------------------------------------------------------

  function Horizontal(): seq<Option<Tile>> {
    [T(0x5), T(0x5), T(0x5)]
  }

  /** Row y of a three-column grid holds three straight (left and right) tiles. */
  predicate StraightRow(g: Grid, y: nat)
    requires ValidGrid(g)
  {
    g.width == 3 && y < g.height && At(g, 0, y) == T(0x5) && At(g, 1, y) == T(0x5) && At(g, 2, y) == T(0x5)
  }

  /** A straight row joins both of its pins, and all of its cells lie in both pin networks. */
  lemma StraightRowJoins(g: Grid, y: nat)
    requires ValidGrid(g) && StraightRow(g, y)
    ensures Accepts(g, Cell(0, y), LEFT) && Accepts(g, Cell(2, y), RIGHT)
    ensures forall x: nat :: x < 3 ==> Cell(x, y) in LeftNet(g) && Cell(x, y) in RightNet(g)
  {
    assert Link(g, Cell(0, y), Cell(1, y)) && Link(g, Cell(1, y), Cell(2, y));
    assert Link(g, Cell(2, y), Cell(1, y)) && Link(g, Cell(1, y), Cell(0, y));
    ReachableRefl(g, {}, Cell(0, y));
    ReachableStep(g, {}, Cell(0, y), Cell(0, y), Cell(1, y));
    ReachableStep(g, {}, Cell(0, y), Cell(1, y), Cell(2, y));
    ReachableRefl(g, {}, Cell(2, y));
    ReachableStep(g, {}, Cell(2, y), Cell(2, y), Cell(1, y));
    ReachableStep(g, {}, Cell(2, y), Cell(1, y), Cell(0, y));
    forall x: nat | x < 3 ensures Cell(x, y) in LeftNet(g) && Cell(x, y) in RightNet(g) {
      EdgeNetMembers(g, 0, LEFT, g.height, Cell(x, y));
      EdgeNetMembers(g, 2, RIGHT, g.height, Cell(x, y));
    }
  }

  /** A straight row has no link to another row, so its cells form a closed set. */
  lemma StraightRowClosed(g: Grid, y: nat)
    requires ValidGrid(g) && StraightRow(g, y)
    ensures Closed(g, {Cell(0, y), Cell(1, y), Cell(2, y)})
  {
  }

  /** Three straight tiles join the left pin to the right pin: result 1, one pin each side, every tile `Ok`. */
  method SimpleHorizontal(b0: Board) returns (r: Board, result: int)
    requires Valid(b0) && b0.width == 3 && b0.height == 1
    ensures Valid(r) && r.width == 3 && r.height == 1
    ensures result == 1 && r.leftPins == 1 && r.rightPins == 1
    ensures forall x: nat :: x < 3 ==> MarkOf(r.grid, r.markings, Cell(x, 0)) == Ok
  {
    var b := Painted(b0, Horizontal());
    StraightRowJoins(b.grid, 0);
    r, result := CheckConnections(b);
  }

  // ---------------------------------------------------------------------
  // check_connections_no_path: 4 8 1
  // ---------------------------------------------------------------------

  function NoPath(): seq<Option<Tile>> {
    [T(0x4), T(0x8), T(0x1)]
  }

  /** A cell with no links is a closed set on its own. */
  lemma NoPathClosed(g: Grid)
    requires g == Grid(3, 1, NoPath())
    ensures Closed(g, {Cell(0, 0)}) && Closed(g, {Cell(2, 0)})
  {
    assert At(g, 0, 0) == T(0x4) && At(g, 1, 0) == T(0x8) && At(g, 2, 0) == T(0x1);
  }

  /** Each pin's network is the pin's own cell, so neither reaches the other edge. */
  lemma NoPathNets(g: Grid)
    requires g == Grid(3, 1, NoPath())
    ensures LeftNet(g) <= {Cell(0, 0)} && RightNet(g) <= {Cell(2, 0)}
  {
    NoPathClosed(g);
    EdgeNetWithin(g, 0, LEFT, 1, {Cell(0, 0)});
    EdgeNetWithin(g, 2, RIGHT, 1, {Cell(2, 0)});
  }

  /** A dead end in the middle blocks the row: result 0 and no pins on either side. */
  method NoPathCheck(b0: Board) returns (r: Board, result: int)
    requires Valid(b0) && b0.width == 3 && b0.height == 1
    ensures result == 0 && r.leftPins == 0 && r.rightPins == 0
  {
    var b := Painted(b0, NoPath());
    NoPathNets(b.grid);
    r, result := CheckConnections(b);
  }

  // ---------------------------------------------------------------------
  // check_connections_l_shaped_path
  //   row 0:  5 12  8
  //   row 1:  2  3  5
  // ---------------------------------------------------------------------

  function LShaped(): seq<Option<Tile>> {
    [T(0x5), T(0x2), T(0xC), T(0x3), T(0x8), T(0x5)]
  }

  /** The path (0,0), (1,0), (1,1), (2,1) joins the left pin of row 0 to the right pin of row 1. */
  lemma LShapedNets(g: Grid)
    requires ValidGrid(g) && g.width == 3 && g.height == 2
    requires At(g, 0, 0) == T(0x5) && At(g, 1, 0) == T(0xC) && At(g, 1, 1) == T(0x3) && At(g, 2, 1) == T(0x5)
    ensures Accepts(g, Cell(0, 0), LEFT)
    ensures forall c :: c in {Cell(0, 0), Cell(1, 0), Cell(1, 1), Cell(2, 1)} ==> c in LeftNet(g) && c in RightNet(g)
  {
    assert Link(g, Cell(0, 0), Cell(1, 0)) && Link(g, Cell(1, 0), Cell(1, 1)) && Link(g, Cell(1, 1), Cell(2, 1));
    assert Link(g, Cell(2, 1), Cell(1, 1)) && Link(g, Cell(1, 1), Cell(1, 0)) && Link(g, Cell(1, 0), Cell(0, 0));
    ReachableRefl(g, {}, Cell(0, 0));
    ReachableStep(g, {}, Cell(0, 0), Cell(0, 0), Cell(1, 0));
    ReachableStep(g, {}, Cell(0, 0), Cell(1, 0), Cell(1, 1));
    ReachableStep(g, {}, Cell(0, 0), Cell(1, 1), Cell(2, 1));
    ReachableRefl(g, {}, Cell(2, 1));
    ReachableStep(g, {}, Cell(2, 1), Cell(2, 1), Cell(1, 1));
    ReachableStep(g, {}, Cell(2, 1), Cell(1, 1), Cell(1, 0));
    ReachableStep(g, {}, Cell(2, 1), Cell(1, 0), Cell(0, 0));
    forall c | c in {Cell(0, 0), Cell(1, 0), Cell(1, 1), Cell(2, 1)} ensures c in LeftNet(g) && c in RightNet(g) {
      EdgeNetMembers(g, 0, LEFT, 2, c);
      EdgeNetMembers(g, 2, RIGHT, 2, c);
    }
  }

  /** The L-shaped path zaps, and its four tiles are `Ok`. */
  method LShapedPath(b0: Board) returns (r: Board, result: int)
    requires Valid(b0) && b0.width == 3 && b0.height == 2
    ensures Valid(r) && r.width == 3 && r.height == 2
    ensures result == 1
    ensures forall c :: c in {Cell(0, 0), Cell(1, 0), Cell(1, 1), Cell(2, 1)} ==> MarkOf(r.grid, r.markings, c) == Ok
  {
    var b := Painted(b0, LShaped());
    assert At(b.grid, 0, 0) == T(0x5) && At(b.grid, 1, 0) == T(0xC) && At(b.grid, 1, 1) == T(0x3) && At(b.grid, 2, 1) == T(0x5);
    LShapedNets(b.grid);
    r, result := CheckConnections(b);
  }

  // ---------------------------------------------------------------------
  // check_connections_multiple_rows
  //   row 0:  5  5  5
  //   row 1:  4  8  1
  //   row 2:  5  5  5
  // ---------------------------------------------------------------------

  function MultipleRows(): seq<Option<Tile>> {
    [T(0x5), T(0x4), T(0x5), T(0x5), T(0x8), T(0x5), T(0x5), T(0x1), T(0x5)]
  }

  /** The broken row's pins are single cells without links. */
  lemma BrokenRowClosed(g: Grid)
    requires g == Grid(3, 3, MultipleRows())
    ensures StraightRow(g, 0) && StraightRow(g, 2)
    ensures Closed(g, {Cell(0, 1)}) && Closed(g, {Cell(2, 1)})
  {
    assert At(g, 0, 1) == T(0x4) && At(g, 2, 1) == T(0x1);
    assert At(g, 0, 0) == T(0x5) && At(g, 0, 2) == T(0x5) && At(g, 2, 0) == T(0x5) && At(g, 2, 2) == T(0x5);
    assert At(g, 1, 1) == T(0x8);
  }

  /** The straight rows; each is closed, and so is their union. */
  function StraightRows(): set<Cell> {
    {Cell(0, 0), Cell(1, 0), Cell(2, 0), Cell(0, 2), Cell(1, 2), Cell(2, 2)}
  }

  /** Each pin network stays inside the straight rows plus its own broken-row pin. */
  lemma MultipleRowsWithin(g: Grid)
    requires ValidGrid(g) && g.height == 3 && StraightRow(g, 0) && StraightRow(g, 2)
    requires Closed(g, {Cell(0, 1)}) && Closed(g, {Cell(2, 1)})
    ensures LeftNet(g) <= StraightRows() + {Cell(0, 1)} && Cell(2, 1) !in LeftNet(g)
    ensures RightNet(g) <= StraightRows() + {Cell(2, 1)} && Cell(0, 1) !in RightNet(g)
  {
    StraightRowClosed(g, 0);
    StraightRowClosed(g, 2);
    var rows := StraightRows();
    assert rows == {Cell(0, 0), Cell(1, 0), Cell(2, 0)} + {Cell(0, 2), Cell(1, 2), Cell(2, 2)};
    ClosedUnion(g, {Cell(0, 0), Cell(1, 0), Cell(2, 0)}, {Cell(0, 2), Cell(1, 2), Cell(2, 2)});
    ClosedUnion(g, rows, {Cell(0, 1)});
    ClosedUnion(g, rows, {Cell(2, 1)});
    EdgeNetWithin(g, 0, LEFT, 3, rows + {Cell(0, 1)});
    EdgeNetWithin(g, 2, RIGHT, 3, rows + {Cell(2, 1)});
    Outside(LeftNet(g), rows + {Cell(0, 1)}, Cell(2, 1));
    Outside(RightNet(g), rows + {Cell(2, 1)}, Cell(0, 1));
  }

  /** A cell outside a superset is outside the set. */
  lemma Outside(a: set<Cell>, b: set<Cell>, c: Cell)
    requires a <= b && c !in b
    ensures c !in a
  {
  }

  /**
   * The straight rows join their pins; the broken row's left pin stays out
   * of the right network and its right pin out of the left network.
   */
  lemma MultipleRowsNets(g: Grid)
    requires g == Grid(3, 3, MultipleRows())
    ensures Accepts(g, Cell(0, 0), LEFT) && Accepts(g, Cell(0, 2), LEFT)
    ensures Accepts(g, Cell(2, 0), RIGHT) && Accepts(g, Cell(2, 2), RIGHT)
    ensures Cell(0, 0) in RightNet(g) && Cell(0, 2) in RightNet(g)
    ensures Cell(2, 0) in LeftNet(g) && Cell(2, 2) in LeftNet(g)
  {
    assert StraightRow(g, 0) && StraightRow(g, 2);
    StraightRowJoins(g, 0);
    StraightRowJoins(g, 2);
  }

  /** Rows 0 and 2 count and row 1 does not: two pins. */
  lemma TwoOfThreePins(g: Grid, x: nat, dir: Direction, other: set<Cell>)
    requires ValidGrid(g)
    requires Accepts(g, Cell(x, 0), dir) && Cell(x, 0) in other
    requires Accepts(g, Cell(x, 2), dir) && Cell(x, 2) in other
    requires Cell(x, 1) !in other
    ensures PinCount(g, x, dir, other, 3) == 2
  {
    assert PinCount(g, x, dir, other, 1) == 1;
    assert PinCount(g, x, dir, other, 2) == 1;
  }

  /** Two straight rows around a broken one: result 1 and two pins on each side. */
  method MultipleRowsCheck(b0: Board) returns (r: Board, result: int)
    requires Valid(b0) && b0.width == 3 && b0.height == 3
    ensures result == 1 && r.leftPins == 2 && r.rightPins == 2
  {
    var b := Painted(b0, MultipleRows());
    MultipleRowsNets(b.grid);
    BrokenRowClosed(b.grid);
    MultipleRowsWithin(b.grid);
    TwoOfThreePins(b.grid, 0, LEFT, RightNet(b.grid));
    TwoOfThreePins(b.grid, 2, RIGHT, LeftNet(b.grid));
    r, result := CheckConnections(b);
  }
}

/**
 * The concrete boards of the bot tests in zapzap/src/systems/bot.rs, with
 * the same convention as the connection scenarios: any board of the test's
 * size, every cell overwritten.
 */
module BotScenarios {
  import opened Components
  import opened Grid
  import opened Connectivity
  import opened GameBoard
  import opened Connections
  import opened Bot
  import opened ConnectionScenarios

  // ---------------------------------------------------------------------
  // bot_finds_completing_move: 5 10 5
  // ---------------------------------------------------------------------

  function Blocked(): seq<Option<Tile>> {
    [T(0x5), T(0xA), T(0x5)]
  }

  /** Turning a tile once, twice or three times. */
  lemma Turns()
    ensures RotateN(NewTile(0xA), 1) == NewTile(0x5)
    ensures RotateN(NewTile(0x5), 1) == NewTile(0xA) && RotateN(NewTile(0x5), 2) == NewTile(0x5)
    ensures RotateN(NewTile(0x5), 3) == NewTile(0xA)
  {
  }

  /** Every tile of the blocked row is worth turning: nine trials, column by column. */
  lemma BlockedTrials(b: Board)
    requires Valid(b) && b.width == 3 && b.height == 1 && b.grid.tiles == Blocked()
    ensures Trials(b) == [BotMove(0, 0, 1), BotMove(0, 0, 2), BotMove(0, 0, 3),
                          BotMove(1, 0, 1), BotMove(1, 0, 2), BotMove(1, 0, 3),
                          BotMove(2, 0, 1), BotMove(2, 0, 2), BotMove(2, 0, 3)]
    ensures forall i :: 0 <= i < |Trials(b)| ==> IsTrial(b, Trials(b)[i])
  {
    assert At(b.grid, 0, 0) == T(0x5) && At(b.grid, 1, 0) == T(0xA) && At(b.grid, 2, 0) == T(0x5);
    forall x: nat | x < 3 ensures ColumnTrials(b, x, 1) == CellTrials(b, x, 0) {
      assert ColumnTrials(b, x, 0) == [];
    }
    assert ColumnsTrials(b, 1) == ColumnTrials(b, 0, 1) by {
      assert ColumnsTrials(b, 0) == [];
    }
    assert CellTrials(b, 0, 0) == [BotMove(0, 0, 1), BotMove(0, 0, 2), BotMove(0, 0, 3)];
    assert CellTrials(b, 1, 0) == [BotMove(1, 0, 1), BotMove(1, 0, 2), BotMove(1, 0, 3)];
    assert CellTrials(b, 2, 0) == [BotMove(2, 0, 1), BotMove(2, 0, 2), BotMove(2, 0, 3)];
    assert ColumnsTrials(b, 2) == ColumnsTrials(b, 1) + CellTrials(b, 1, 0);
    assert Trials(b) == ColumnsTrials(b, 2) + CellTrials(b, 2, 0);
  }

  /** A straight row of three zaps and scores two points for each of its three cells. */
  lemma StraightScore(g: Grid)
    requires ValidGrid(g) && g.height == 1 && StraightRow(g, 0)
    ensures Zaps(g) && Score(g) == 6
  {
    StraightRowJoins(g, 0);
    assert forall x: nat :: x < 3 ==> NetMark(g, Cell(x, 0)) == Ok;
    assert RowCount(g, Ok, 0, 1) == 1;
    assert RowCount(g, Ok, 0, 2) == 2;
    assert GridCount(g, Ok, 1) == RowCount(g, Ok, 0, 3) == 3;
    assert PinCount(g, 0, LEFT, RightNet(g), 1) == 1;
  }

  /**
   * With the vertical tile in the middle, each pin's network is its own
   * cell: the right pin's cell alone is `Right`, and it earns the edge
   * bonus, for four points.
   */
  lemma BlockedScore(g: Grid)
    requires ValidGrid(g) && g.width == 3 && g.height == 1
    requires (At(g, 0, 0) == T(0x5) || At(g, 0, 0) == T(0xA)) && At(g, 1, 0) == T(0xA) && At(g, 2, 0) == T(0x5)
    ensures !Zaps(g) && Score(g) == 4
  {
    assert Closed(g, {Cell(0, 0)}) && Closed(g, {Cell(2, 0)});
    EdgeNetWithin(g, 0, LEFT, 1, {Cell(0, 0)});
    EdgeNetWithin(g, 2, RIGHT, 1, {Cell(2, 0)});
    PinInEdgeNet(g, 2, RIGHT, 1, 0);
    assert NetMark(g, Cell(0, 0)) != Right && NetMark(g, Cell(1, 0)) != Right && NetMark(g, Cell(2, 0)) == Right;
    assert RowCount(g, Right, 0, 1) == 0;
    assert RowCount(g, Right, 0, 2) == 0;
    assert GridCount(g, Right, 1) == RowCount(g, Right, 0, 3) == 1;
    assert RightEdgeBonus(g, 0);
    assert EdgeBonuses(g, 1) == 1;
    assert PinCount(g, 0, LEFT, RightNet(g), 1) == 0;
  }

  /** No trial of `ts` scores more than `top`. */
  ghost predicate ScoresAtMost(b: Board, ts: seq<BotMove>, top: int) {
    forall i :: 0 <= i < |ts| ==> TrialScore(b, ts[i]) <= top
  }

  /** The first k trials of `ts` score less than `top`. */
  ghost predicate ScoresBelow(b: Board, ts: seq<BotMove>, k: nat, top: int) {
    k <= |ts| && forall i :: 0 <= i < k ==> TrialScore(b, ts[i]) < top
  }

  /** Trial k scores `top` > 0, no trial scores more, and none before k scores as much. */
  lemma FirstBestAt(b: Board, ts: seq<BotMove>, k: nat, top: int)
    requires k < |ts| && TrialScore(b, ts[k]) == top > 0
    requires ScoresAtMost(b, ts, top) && ScoresBelow(b, ts, k, top)
    ensures FirstBest(b, ts, ts[k])
  {
  }

  /** No trial on a board of one row and three columns scores more than six. */
  lemma ThreeByOneBound(b: Board, ts: seq<BotMove>)
    requires Valid(b) && b.width == 3 && b.height == 1
    requires forall i :: 0 <= i < |ts| ==> IsTrial(b, ts[i])
    ensures ScoresAtMost(b, ts, 6)
  {
    forall i | 0 <= i < |ts| ensures TrialScore(b, ts[i]) <= 6 {
      ScoreAtMost(TrialGrid(b, ts[i]));
    }
  }

  /** Turning the middle tile once straightens the row: six points. */
  lemma BlockedWin(b: Board)
    requires Valid(b) && b.width == 3 && b.height == 1 && b.grid.tiles == Blocked()
    ensures IsTrial(b, BotMove(1, 0, 1)) && TrialScore(b, BotMove(1, 0, 1)) == 6
  {
    Turns();
    assert At(b.grid, 1, 0) == T(0xA);
    var win := TrialGrid(b, BotMove(1, 0, 1));
    assert win.tiles == [T(0x5), T(0x5), T(0x5)];
    StraightScore(win);
  }

  /** Turning the first tile leaves the row blocked: four points. */
  lemma BlockedFirstTile(b: Board, r: nat)
    requires Valid(b) && b.width == 3 && b.height == 1 && b.grid.tiles == Blocked()
    requires 1 <= r <= 3
    ensures TrialScore(b, BotMove(0, 0, r)) == 4
  {
    Turns();
    assert At(b.grid, 0, 0) == T(0x5);
    var g := TrialGrid(b, BotMove(0, 0, r));
    var t := if r == 2 then T(0x5) else T(0xA);
    assert g.tiles == [t, T(0xA), T(0x5)];
    BlockedScore(g);
  }

  /**
   * Turning the middle tile once scores six, the most any trial on a 3 by
   * 1 board can score; the three trials before it turn the first tile and
   * score four.
   */
  lemma BlockedFirstBest(b: Board)
    requires Valid(b) && b.width == 3 && b.height == 1 && b.grid.tiles == Blocked()
    ensures FirstBest(b, Trials(b), BotMove(1, 0, 1))
  {
    var ts := Trials(b);
    assert |ts| == 9 && ts[0] == BotMove(0, 0, 1) && ts[1] == BotMove(0, 0, 2) && ts[2] == BotMove(0, 0, 3)
      && ts[3] == BotMove(1, 0, 1) && forall i :: 0 <= i < |ts| ==> IsTrial(b, ts[i]) by {
      BlockedTrials(b);
    }
    ThreeByOneBound(b, ts);
    BlockedWin(b);
    BlockedEarlier(b, ts);
    FirstBestAt(b, ts, 3, 6);
  }

  /** The three trials before the winning one turn the first tile and score less than six. */
  lemma BlockedEarlier(b: Board, ts: seq<BotMove>)
    requires Valid(b) && b.width == 3 && b.height == 1 && b.grid.tiles == Blocked()
    requires |ts| >= 3 && ts[0] == BotMove(0, 0, 1) && ts[1] == BotMove(0, 0, 2) && ts[2] == BotMove(0, 0, 3)
    ensures ScoresBelow(b, ts, 3, 6)
  {
    BlockedFirstTile(b, 1);
    BlockedFirstTile(b, 2);
    BlockedFirstTile(b, 3);
    forall i | 0 <= i < 3 ensures TrialScore(b, ts[i]) < 6 {
      assert i == 0 || i == 1 || i == 2;
    }
  }

  /** The bot turns the blocking middle tile once. */
  method FindsCompletingMove(b0: Board) returns (m: Option<BotMove>)
    requires Valid(b0) && b0.width == 3 && b0.height == 1
    ensures m == Some(BotMove(1, 0, 1))
  {
    var b := Painted(b0, Blocked());
    m := DetermineNextMove(b);
    BlockedFirstBest(b);
    FirstBestUnique(b, Trials(b), m.value, BotMove(1, 0, 1));
  }

  // ---------------------------------------------------------------------
  // bot_prefers_zap_over_partial: 5 10 5 5
  // ---------------------------------------------------------------------

  function BlockedFour(): seq<Option<Tile>> {
    [T(0x5), T(0xA), T(0x5), T(0x5)]
  }

  /** A straight row of four zaps and scores two points for each of its four cells. */
  lemma StraightFourScore(g: Grid)
    requires ValidGrid(g) && g.width == 4 && g.height == 1
    requires forall x: nat :: x < 4 ==> At(g, x, 0) == T(0x5)
    ensures Zaps(g) && Score(g) == 8
  {
    var c0, c1, c2, c3 := Cell(0, 0), Cell(1, 0), Cell(2, 0), Cell(3, 0);
    assert At(g, 0, 0) == T(0x5) && At(g, 1, 0) == T(0x5) && At(g, 2, 0) == T(0x5) && At(g, 3, 0) == T(0x5);
    assert Link(g, c0, c1) && Link(g, c1, c2) && Link(g, c2, c3);
    assert Link(g, c3, c2) && Link(g, c2, c1) && Link(g, c1, c0);
    ReachableRefl(g, {}, c0);
    ReachableStep(g, {}, c0, c0, c1);
    ReachableStep(g, {}, c0, c1, c2);
    ReachableStep(g, {}, c0, c2, c3);
    ReachableRefl(g, {}, c3);
    ReachableStep(g, {}, c3, c3, c2);
    ReachableStep(g, {}, c3, c2, c1);
    ReachableStep(g, {}, c3, c1, c0);
    forall x: nat | x < 4 ensures NetMark(g, Cell(x, 0)) == Ok {
      EdgeNetMembers(g, 0, LEFT, 1, Cell(x, 0));
      EdgeNetMembers(g, 3, RIGHT, 1, Cell(x, 0));
    }
    assert RowCount(g, Ok, 0, 1) == 1;
    assert RowCount(g, Ok, 0, 2) == 2;
    assert RowCount(g, Ok, 0, 3) == 3;
    assert GridCount(g, Ok, 1) == RowCount(g, Ok, 0, 4) == 4;
    assert PinCount(g, 0, LEFT, RightNet(g), 1) == 1;
  }

  /** With the vertical tile second, the right pin's network stays in the last two cells: no zap. */
  lemma BlockedFourNoZap(g: Grid)
    requires ValidGrid(g) && g.width == 4 && g.height == 1
    requires (At(g, 0, 0) == T(0x5) || At(g, 0, 0) == T(0xA)) && At(g, 1, 0) == T(0xA)
    requires At(g, 2, 0) == T(0x5) && At(g, 3, 0) == T(0x5)
    ensures !Zaps(g)
  {
    assert Closed(g, {Cell(2, 0), Cell(3, 0)});
    EdgeNetWithin(g, 3, RIGHT, 1, {Cell(2, 0), Cell(3, 0)});
    assert PinCount(g, 0, LEFT, RightNet(g), 1) == 0;
  }

  /** Every tile of the row is worth turning: twelve trials, column by column. */
  lemma BlockedFourTrials(b: Board)
    requires Valid(b) && b.width == 4 && b.height == 1 && b.grid.tiles == BlockedFour()
    ensures |Trials(b)| == 12
    ensures Trials(b)[..4] == [BotMove(0, 0, 1), BotMove(0, 0, 2), BotMove(0, 0, 3), BotMove(1, 0, 1)]
    ensures forall i :: 0 <= i < |Trials(b)| ==> IsTrial(b, Trials(b)[i])
  {
    assert At(b.grid, 0, 0) == T(0x5) && At(b.grid, 1, 0) == T(0xA) && At(b.grid, 2, 0) == T(0x5) && At(b.grid, 3, 0) == T(0x5);
    forall x: nat | x < 4 ensures ColumnTrials(b, x, 1) == CellTrials(b, x, 0) {
      assert ColumnTrials(b, x, 0) == [];
    }
    assert ColumnsTrials(b, 1) == ColumnTrials(b, 0, 1) by {
      assert ColumnsTrials(b, 0) == [];
    }
    assert CellTrials(b, 0, 0) == [BotMove(0, 0, 1), BotMove(0, 0, 2), BotMove(0, 0, 3)];
    assert CellTrials(b, 1, 0) == [BotMove(1, 0, 1), BotMove(1, 0, 2), BotMove(1, 0, 3)];
    assert CellTrials(b, 2, 0) == [BotMove(2, 0, 1), BotMove(2, 0, 2), BotMove(2, 0, 3)];
    assert CellTrials(b, 3, 0) == [BotMove(3, 0, 1), BotMove(3, 0, 2), BotMove(3, 0, 3)];
    assert ColumnsTrials(b, 2) == ColumnsTrials(b, 1) + CellTrials(b, 1, 0);
    assert ColumnsTrials(b, 3) == ColumnsTrials(b, 2) + CellTrials(b, 2, 0);
    assert Trials(b) == ColumnsTrials(b, 3) + CellTrials(b, 3, 0);
  }

  /** No trial on a board of one row and four columns scores more than eight. */
  lemma FourByOneBound(b: Board, ts: seq<BotMove>)
    requires Valid(b) && b.width == 4 && b.height == 1
    requires forall i :: 0 <= i < |ts| ==> IsTrial(b, ts[i])
    ensures ScoresAtMost(b, ts, 8)
  {
    forall i | 0 <= i < |ts| ensures TrialScore(b, ts[i]) <= 8 {
      ScoreAtMost(TrialGrid(b, ts[i]));
    }
  }

  /** Turning the second tile once straightens the row: eight points. */
  lemma BlockedFourWin(b: Board)
    requires Valid(b) && b.width == 4 && b.height == 1 && b.grid.tiles == BlockedFour()
    ensures IsTrial(b, BotMove(1, 0, 1)) && TrialScore(b, BotMove(1, 0, 1)) == 8
  {
    Turns();
    assert At(b.grid, 1, 0) == T(0xA);
    var win := TrialGrid(b, BotMove(1, 0, 1));
    assert win.tiles == [T(0x5), T(0x5), T(0x5), T(0x5)];
    StraightFourScore(win);
  }

  /** Turning the first tile leaves the row blocked: no zap, so at most seven points. */
  lemma BlockedFourFirstTile(b: Board, r: nat)
    requires Valid(b) && b.width == 4 && b.height == 1 && b.grid.tiles == BlockedFour()
    requires 1 <= r <= 3
    ensures TrialScore(b, BotMove(0, 0, r)) < 8
  {
    Turns();
    assert At(b.grid, 0, 0) == T(0x5);
    var g := TrialGrid(b, BotMove(0, 0, r));
    var t := if r == 2 then T(0x5) else T(0xA);
    assert g.tiles == [t, T(0xA), T(0x5), T(0x5)];
    BlockedFourNoZap(g);
    ScoreAtMost(g);
  }

  /** The three trials before the winning one turn the first tile and score less than eight. */
  lemma BlockedFourEarlier(b: Board, ts: seq<BotMove>)
    requires Valid(b) && b.width == 4 && b.height == 1 && b.grid.tiles == BlockedFour()
    requires |ts| >= 3 && ts[0] == BotMove(0, 0, 1) && ts[1] == BotMove(0, 0, 2) && ts[2] == BotMove(0, 0, 3)
    ensures ScoresBelow(b, ts, 3, 8)
  {
    BlockedFourFirstTile(b, 1);
    BlockedFourFirstTile(b, 2);
    BlockedFourFirstTile(b, 3);
    forall i | 0 <= i < 3 ensures TrialScore(b, ts[i]) < 8 {
      assert i == 0 || i == 1 || i == 2;
    }
  }

  /** Completing the row scores eight, more than any trial that leaves it open. */
  lemma BlockedFourFirstBest(b: Board)
    requires Valid(b) && b.width == 4 && b.height == 1 && b.grid.tiles == BlockedFour()
    ensures FirstBest(b, Trials(b), BotMove(1, 0, 1))
  {
    var ts := Trials(b);
    assert |ts| == 12 && ts[0] == BotMove(0, 0, 1) && ts[1] == BotMove(0, 0, 2) && ts[2] == BotMove(0, 0, 3)
      && ts[3] == BotMove(1, 0, 1) && forall i :: 0 <= i < |ts| ==> IsTrial(b, ts[i]) by {
      BlockedFourTrials(b);
      assert ts[..4][3] == ts[3];
      assert ts[..4][0] == ts[0] && ts[..4][1] == ts[1] && ts[..4][2] == ts[2];
    }
    FourByOneBound(b, ts);
    BlockedFourWin(b);
    BlockedFourEarlier(b, ts);
    FirstBestAt(b, ts, 3, 8);
  }

  /** The bot completes the path by turning the second tile once. */
  method PrefersZap(b0: Board) returns (m: Option<BotMove>)
    requires Valid(b0) && b0.width == 4 && b0.height == 1
    ensures m == Some(BotMove(1, 0, 1))
  {
    var b := Painted(b0, BlockedFour());
    m := DetermineNextMove(b);
    BlockedFourFirstBest(b);
    FirstBestUnique(b, Trials(b), m.value, BotMove(1, 0, 1));
  }

  // ---------------------------------------------------------------------
  // bot_returns_none_for_no_improvement: 2 2 2
  // ---------------------------------------------------------------------

  /** Single-connection tiles are never turned: there is no trial, so no move. */
  method NoImprovement(b0: Board) returns (m: Option<BotMove>)
    requires Valid(b0) && b0.width == 3 && b0.height == 1
    ensures m == None
  {
    var b := Painted(b0, [T(0x2), T(0x2), T(0x2)]);
    assert At(b.grid, 0, 0) == T(0x2) && At(b.grid, 1, 0) == T(0x2) && At(b.grid, 2, 0) == T(0x2);
    forall x: nat | x < 3 ensures ColumnTrials(b, x, 1) == [] {
      assert ColumnTrials(b, x, 0) == [] && CellTrials(b, x, 0) == [];
    }
    assert ColumnsTrials(b, 1) == [] by {
      assert ColumnsTrials(b, 0) == [];
    }
    assert ColumnsTrials(b, 2) == [] && Trials(b) == [];
    m := DetermineNextMove(b);
  }
}
