/**
 * The game board (zapzap/src/systems/board.rs, `GameBoard`): the tile grid,
 * one marking per cell, a score multiplier per row on each side, the tile
 * generator and the pin counters written by the connection check.
 */
module GameBoard {
  import opened Components
  import opened Grid
  import opened Random
  import opened Generator

  datatype Board = Board(
    width: nat,
    height: nat,
    grid: Grid,
    markings: seq<Marking>,
    multLeft: seq<int>,
    multRight: seq<int>,
    gen: Generator,
    leftPins: nat,
    rightPins: nat,
    leftConquered: nat,
    rightConquered: nat)

  /** The sizes of the parts agree: markings are stored column-major like the grid. */
  predicate Valid(b: Board) {
    ValidGrid(b.grid)
    && b.grid.width == b.width && b.grid.height == b.height
    && |b.markings| == |b.grid.tiles|
    && |b.multLeft| == b.height && |b.multRight| == b.height
    && ValidGen(b.gen)
  }

  /** Every cell holds a tile. */
  predicate Full(b: Board)
    requires Valid(b)
  {
    forall x: nat, y: nat :: x < b.width && y < b.height ==> At(b.grid, x, y).Some?
  }

  /** The marking of (x, y); the source only demands that the flat index exists. */
  function MarkingAt(b: Board, x: nat, y: nat): Marking
    requires Idx(b.height, x, y) < |b.markings|
  {
    b.markings[Idx(b.height, x, y)]
  }

  /** The marking of an on-board cell. */
  function Mark(b: Board, x: nat, y: nat): Marking
    requires Valid(b) && x < b.width && y < b.height
  {
    IdxInRange(b.width, b.height, x, y);
    MarkingAt(b, x, y)
  }

  /** Set the marking of (x, y); nothing else changes. */
  function SetMarking(b: Board, x: nat, y: nat, m: Marking): (r: Board)
    requires Idx(b.height, x, y) < |b.markings|
    ensures r.markings == b.markings[Idx(b.height, x, y) := m]
    ensures r == b.(markings := r.markings)
  {
    b.(markings := b.markings[Idx(b.height, x, y) := m])
  }

  /**
   * Overwrite the connections of the tile at (x, y) with the low four bits of
   * `c`; an empty cell stays empty. Only that cell can change.
   */
  function SetTile(b: Board, x: nat, y: nat, c: bv8): (r: Board)
    requires Valid(b) && Idx(b.height, x, y) < |b.grid.tiles|
    ensures r == b.(grid := r.grid)
    ensures r.grid.width == b.grid.width && r.grid.height == b.grid.height && |r.grid.tiles| == |b.grid.tiles|
    ensures Get(b.grid, x, y).Some? ==> Get(r.grid, x, y) == Some(NewTile(c))
    ensures Get(b.grid, x, y).None? ==> r == b
    ensures forall i :: 0 <= i < |b.grid.tiles| && i != Idx(b.height, x, y) ==> r.grid.tiles[i] == b.grid.tiles[i]
  {
    if Get(b.grid, x, y).Some? then b.(grid := Set(b.grid, x, y, Some(NewTile(c)))) else b
  }

  /** Every draw is a four-bit mask. */
  predicate Masks(ks: seq<nat>) {
    forall m :: 0 <= m < |ks| ==> ks[m] < 16
  }

  /** Cell (x, y) of g holds the tile of draw number k. */
  ghost predicate HoldsDraw(g: Grid, ks: seq<nat>, k: nat, x: nat, y: nat)
    requires ValidGrid(g)
  {
    k < |ks| && ks[k] < 16 && At(g, x, y) == Some(MaskTile(ks[k]))
  }

  /**
   * Cell (x, y) of g holds the draw that row-by-row filling from row j,
   * starting at draw n, gives it.
   */
  ghost predicate HoldsRowDraw(g: Grid, ks: seq<nat>, n: nat, j: nat, x: nat, y: nat)
    requires ValidGrid(g) && j <= y
  {
    HoldsDraw(g, ks, n + Area(y - j, g.width) + x, x, y)
  }

  /**
   * The inner loop of `reset_table` from column i on, as it acts on the
   * grid: cells i.. of row j take the masks ks[n], ks[n + 1], ... in turn.
   */
  function FillRow(g: Grid, ks: seq<nat>, n: nat, i: nat, j: nat): (r: Grid)
    requires ValidGrid(g) && j < g.height && Masks(ks)
    requires i <= g.width && n + (g.width - i) <= |ks|
    ensures ValidGrid(r) && r.width == g.width && r.height == g.height
    decreases g.width - i
  {
    if i == g.width then g
    else
      IdxInRange(g.width, g.height, i, j);
      FillRow(Set(g, i, j, Some(MaskTile(ks[n]))), ks, n + 1, i + 1, j)
  }

  /** The outer loop of `reset_table` from row j on, reading masks from ks[n]. */
  function FillRows(g: Grid, ks: seq<nat>, n: nat, j: nat): (r: Grid)
    requires ValidGrid(g) && Masks(ks)
    requires j <= g.height && n + Area(g.height - j, g.width) <= |ks|
    ensures ValidGrid(r) && r.width == g.width && r.height == g.height
    decreases g.height - j
  {
    if j == g.height then g else FillRows(FillRow(g, ks, n, 0, j), ks, n + g.width, j + 1)
  }

  /**
   * Filling row j from column i on puts mask ks[n + (x - i)] in each cell x
   * of those, and leaves every other cell alone.
   */
  lemma {:induction false} FillRowCells(g: Grid, ks: seq<nat>, n: nat, i: nat, j: nat)
    requires ValidGrid(g) && j < g.height && Masks(ks)
    requires i <= g.width && n + (g.width - i) <= |ks|
    ensures forall x: nat :: i <= x < g.width ==> At(FillRow(g, ks, n, i, j), x, j) == Some(MaskTile(ks[n + (x - i)]))
    ensures forall x: nat, y: nat :: y != j || x < i ==> At(FillRow(g, ks, n, i, j), x, y) == At(g, x, y)
    decreases g.width - i
  {
    if i < g.width {
      IdxInRange(g.width, g.height, i, j);
      var c := Set(g, i, j, Some(MaskTile(ks[n])));
      FillRowCells(c, ks, n + 1, i + 1, j);
      var r := FillRow(g, ks, n, i, j);
      assert r == FillRow(c, ks, n + 1, i + 1, j);
      forall x: nat, y: nat ensures (x, y) != (i, j) ==> At(c, x, y) == At(g, x, y) {
        if InBounds(g, x, y) {
          SetGet(g, i, j, Some(MaskTile(ks[n])), x, y);
        }
      }
      SetGet(g, i, j, Some(MaskTile(ks[n])), i, j);
    }
  }

  /**
   * Filling rows j.. puts mask ks[n + Area(y - j, width) + x] in cell (x, y)
   * of those rows, and leaves the rows above alone.
   */
  lemma {:induction false} FillRowsCells(g: Grid, ks: seq<nat>, n: nat, j: nat)
    requires ValidGrid(g) && Masks(ks)
    requires j <= g.height && n + Area(g.height - j, g.width) <= |ks|
    ensures forall x: nat, y: nat :: x < g.width && j <= y < g.height ==> HoldsRowDraw(FillRows(g, ks, n, j), ks, n, j, x, y)
    ensures forall x: nat, y: nat :: y < j ==> At(FillRows(g, ks, n, j), x, y) == At(g, x, y)
    decreases g.height - j
  {
    if j < g.height {
      var f := FillRow(g, ks, n, 0, j);
      FillRowCells(g, ks, n, 0, j);
      FillRowsCells(f, ks, n + g.width, j + 1);
      var r := FillRows(g, ks, n, j);
      assert r == FillRows(f, ks, n + g.width, j + 1);
      forall x: nat, y: nat | x < g.width && j <= y < g.height
        ensures HoldsRowDraw(r, ks, n, j, x, y)
      {
        IdxInRange(g.height - j, g.width, y - j, x);
        if y == j {
          assert Area(y - j, g.width) == 0;
          assert At(r, x, y) == At(f, x, y);
        } else {
          assert Area(y - j, g.width) == Area(y - (j + 1), g.width) + g.width;
          assert HoldsRowDraw(FillRows(f, ks, n + g.width, j + 1), ks, n + g.width, j + 1, x, y);
        }
      }
      forall x: nat, y: nat | y < j ensures At(r, x, y) == At(g, x, y) {
        assert At(r, x, y) == At(f, x, y);
      }
    }
  }

  /** The generator state `reset_table` starts from: counters cleared, target replaced. */
  function ResetGenerator(g: Generator, percentMissingLinks: nat): (r: Generator)
    requires ValidGen(g)
    ensures ValidGen(r)
    ensures r.rng == g.rng && r.missingLinks == percentMissingLinks
    ensures r.newElements == 0 && r.missingLinkElements == 0
  {
    Generator(g.rng, percentMissingLinks, 0, 0)
  }

  /** The masks `reset_table` draws: one per cell, counted from a cleared generator. */
  function ResetDraws(b: Board, percentMissingLinks: nat): (d: Elements)
    requires Valid(b)
    ensures |d.ks| == Area(b.height, b.width) && Masks(d.ks)
  {
    NewElements(ResetGenerator(b.gen, percentMissingLinks), Area(b.height, b.width))
  }

  /**
   * `reset_table`: the generator's counters restart with the new target,
   * every row top to bottom, each left to right, takes the next draw, every
   * marking is cleared and every multiplier is set to 1. The source clears
   * each marking as it fills the cell; the order does not matter, since the
   * markings do not feed the draws.
   */
  function ResetTableSpec(b: Board, percentMissingLinks: nat): (r: Board)
    requires Valid(b)
    ensures Valid(r)
  {
    var d := ResetDraws(b, percentMissingLinks);
    b.(grid := FillRows(b.grid, d.ks, 0, 0),
       markings := seq(|b.markings|, _ => Unmarked),
       multLeft := seq(b.height, _ => 1),
       multRight := seq(b.height, _ => 1),
       gen := d.gen)
  }

  /** Cell (x, y) of g holds draw number y * width + x. */
  ghost predicate HoldsRowMajor(g: Grid, ks: seq<nat>, x: nat, y: nat)
    requires ValidGrid(g)
  {
    HoldsDraw(g, ks, y * g.width + x, x, y)
  }

  /**
   * Filling the whole grid puts draw number y * width + x in cell (x, y):
   * the draws go row by row, each row left to right.
   */
  lemma FillRowsOrder(g: Grid, ks: seq<nat>)
    requires ValidGrid(g) && Masks(ks) && Area(g.height, g.width) <= |ks|
    ensures forall x: nat, y: nat :: x < g.width && y < g.height ==> HoldsRowMajor(FillRows(g, ks, 0, 0), ks, x, y)
  {
    FillRowsCells(g, ks, 0, 0);
    forall x: nat, y: nat | x < g.width && y < g.height
      ensures HoldsRowMajor(FillRows(g, ks, 0, 0), ks, x, y)
    {
      assert HoldsRowDraw(FillRows(g, ks, 0, 0), ks, 0, 0, x, y);
      RowMajorIndex(y, g.width, x);
    }
  }

  lemma RowMajorIndex(y: nat, width: nat, x: nat)
    ensures 0 + Area(y - 0, width) + x == y * width + x
  {
    AreaIsProduct(y, width);
  }

  /**
   * After a reset, cell (x, y) holds draw number y * width + x of the
   * reset's draws.
   */
  lemma ResetTableCells(b: Board, percentMissingLinks: nat)
    requires Valid(b)
    ensures forall x: nat, y: nat :: x < b.width && y < b.height ==>
      HoldsRowMajor(ResetTableSpec(b, percentMissingLinks).grid, ResetDraws(b, percentMissingLinks).ks, x, y)
  {
    var ks := ResetDraws(b, percentMissingLinks).ks;
    assert ResetTableSpec(b, percentMissingLinks).grid == FillRows(b.grid, ks, 0, 0);
    FillRowsOrder(b.grid, ks);
  }

  /**
   * After a reset every cell holds a tile, every marking is cleared, every
   * multiplier is 1, the generator has counted exactly width * height draws
   * under the new target, and nothing else about the board changes.
   */
  lemma ResetTableContents(b: Board, percentMissingLinks: nat)
    requires Valid(b)
    ensures var r := ResetTableSpec(b, percentMissingLinks);
      && Full(r)
      && (forall i :: 0 <= i < |r.markings| ==> r.markings[i] == Unmarked)
      && (forall y :: 0 <= y < b.height ==> r.multLeft[y] == 1 && r.multRight[y] == 1)
      && r.gen.newElements == b.width * b.height
      && r.gen.missingLinks == percentMissingLinks
      && r == b.(grid := r.grid, markings := r.markings, multLeft := r.multLeft, multRight := r.multRight, gen := r.gen)
  {
    var r := ResetTableSpec(b, percentMissingLinks);
    ResetTableCells(b, percentMissingLinks);
    forall x: nat, y: nat | x < b.width && y < b.height ensures At(r.grid, x, y).Some? {
      assert HoldsRowMajor(r.grid, ResetDraws(b, percentMissingLinks).ks, x, y);
    }
    assert r.gen.newElements == Area(b.height, b.width);
    AreaIsProduct(b.height, b.width);
    MulCommutes(b.height, b.width);
  }

  lemma MulCommutes(a: nat, c: nat)
    ensures a * c == c * a
  {
  }

  /** A fresh board before its first reset: empty grid, cleared markings, unit multipliers. */
  function EmptyBoard(width: nat, height: nat, missingLinks: nat, seed: Word): (b: Board)
    ensures Valid(b)
  {
    Board(width, height, NewGrid(width, height), seq(Area(width, height), _ => Unmarked),
          seq(height, _ => 1), seq(height, _ => 1),
          Generator(NewRng(seed), missingLinks, 0, 0), 0, 0, 0, 0)
  }

  /** `GameBoard::new`: an empty board reset with the given dead-end percentage. */
  function NewBoard(width: nat, height: nat, missingLinks: nat, seed: Word): (b: Board)
    ensures Valid(b) && Full(b)
    ensures b.width == width && b.height == height
    ensures b.leftPins == 0 && b.rightPins == 0 && b.leftConquered == 0 && b.rightConquered == 0
    ensures forall i :: 0 <= i < |b.markings| ==> b.markings[i] == Unmarked
    ensures forall y :: 0 <= y < height ==> b.multLeft[y] == 1 && b.multRight[y] == 1
    ensures b.gen.newElements == width * height && b.gen.missingLinks == missingLinks
  {
    ResetTableContents(EmptyBoard(width, height, missingLinks, seed), missingLinks);
    ResetTableSpec(EmptyBoard(width, height, missingLinks, seed), missingLinks)
  }
}
