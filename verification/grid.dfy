/**
 * Tiles (4-bit connection masks) and the column-major grid that stores them
 * (zapzap/src/grid.rs).
 */
module Grid {
  import opened Components

  /** A connection mask: only the low four bits (right, up, left, down) are used. */
  type Mask = b: bv8 | b < 16

  datatype Tile = Tile(connections: Mask)

  /** Build a tile from any byte; the upper four bits are dropped. */
  function NewTile(c: bv8): (t: Tile)
    ensures t.connections == c % 16
    ensures c < 16 ==> t.connections == c
  {
    Tile(c & 0x0F)
  }

  /** The tile whose mask is the small number `k`. */
  function MaskTile(k: nat): (t: Tile)
    requires k < 16
    ensures t.connections as int == k
  {
    Tile(k as bv8)
  }

  /** Rotate one step: a cyclic left shift inside the four bits. */
  function Rotate(t: Tile): (r: Tile)
    ensures HasConnection(r, UP) == HasConnection(t, RIGHT)
    ensures HasConnection(r, LEFT) == HasConnection(t, UP)
    ensures HasConnection(r, DOWN) == HasConnection(t, LEFT)
    ensures HasConnection(r, RIGHT) == HasConnection(t, DOWN)
    ensures PopCount(r) == PopCount(t)
  {
    var s: bv8 := t.connections << 1;
    var s': bv8 := (s & 0x0F) | (s >> 4);
    Tile(s' & 0x0F)
  }

  /** Apply `n` rotations one after another. */
  function RotateN(t: Tile, n: nat): Tile {
    if n == 0 then t else Rotate(RotateN(t, n - 1))
  }

  /** Whether the tile's mask has the bit of direction `d`. */
  function HasConnection(t: Tile, d: Direction): (r: bool)
    ensures d.bits == 0 ==> !r
  {
    t.connections & d.bits != 0
  }

  /** For a cardinal direction, the connection is the mask's binary digit at that direction's position. */
  lemma HasConnectionIsBit(t: Tile, d: Direction)
    requires IsCardinal(d)
    ensures HasConnection(t, d) <==> (t.connections as int / d.bits as int) % 2 == 1
  {
  }

  /** Number of connections a tile has. */
  function PopCount(t: Tile): nat {
    (if t.connections & 1 != 0 then 1 else 0)
    + (if t.connections & 2 != 0 then 1 else 0)
    + (if t.connections & 4 != 0 then 1 else 0)
    + (if t.connections & 8 != 0 then 1 else 0)
  }

  /** A "dead end": exactly one connection. */
  predicate IsSingleConnection(t: Tile) {
    t.connections in {1, 2, 4, 8}
  }

  /** Dead ends are exactly the tiles with one set bit. */
  lemma SingleConnectionIsPopCountOne(t: Tile)
    ensures IsSingleConnection(t) <==> PopCount(t) == 1
  {
  }

  /** Rotation keeps dead ends dead ends and fixes the empty and full masks. */
  lemma RotatePreservesShape(t: Tile)
    ensures IsSingleConnection(Rotate(t)) <==> IsSingleConnection(t)
    ensures t.connections == 0 ==> Rotate(t) == t
    ensures t.connections == 15 ==> Rotate(t) == t
  {
    SingleConnectionIsPopCountOne(t);
    SingleConnectionIsPopCountOne(Rotate(t));
  }

  /** Four rotations bring every mask back to itself. */
  lemma RotateFourIsIdentity(t: Tile)
    ensures RotateN(t, 4) == t
  {
    assert RotateN(t, 1) == Rotate(t);
    assert RotateN(t, 2) == Rotate(Rotate(t));
    assert RotateN(t, 3) == Rotate(Rotate(Rotate(t)));
    assert RotateN(t, 4) == Rotate(Rotate(Rotate(Rotate(t))));
  }

  /** A single rotation moves RIGHT to UP to LEFT to DOWN and back to RIGHT. */
  lemma RotateCyclesDirections()
    ensures Rotate(Tile(RIGHT.bits)) == Tile(UP.bits)
    ensures Rotate(Tile(UP.bits)) == Tile(LEFT.bits)
    ensures Rotate(Tile(LEFT.bits)) == Tile(DOWN.bits)
    ensures Rotate(Tile(DOWN.bits)) == Tile(RIGHT.bits)
  {
  }

  /** The opposite of a direction is that direction rotated twice. */
  lemma OppositeIsHalfTurn(d: Direction)
    requires IsCardinal(d)
    ensures Tile(Opposite(d).bits) == RotateN(Tile(d.bits), 2)
  {
  }

  /**
   * The board grid: `width` columns of `height` cells, stored column-major
   * (cell (x, y) at index x * height + y); `None` is an empty cell.
   */
  datatype Grid = Grid(width: nat, height: nat, tiles: seq<Option<Tile>>)

  /**
   * The number of cells in `columns` columns of `height` cells, counted
   * column by column; it is columns * height (`AreaIsProduct`).
   */
  function Area(columns: nat, height: nat): nat {
    if columns == 0 then 0 else Area(columns - 1, height) + height
  }

  lemma {:induction false} AreaIsProduct(columns: nat, height: nat)
    ensures Area(columns, height) == columns * height
  {
    if columns > 0 {
      AreaIsProduct(columns - 1, height);
    }
  }

  lemma {:induction false} AreaMonotone(a: nat, b: nat, height: nat)
    requires a <= b
    ensures Area(a, height) <= Area(b, height)
    decreases b
  {
    if a < b {
      AreaMonotone(a, b - 1, height);
    }
  }

  predicate ValidGrid(g: Grid) {
    |g.tiles| == Area(g.width, g.height)
  }

  /** A grid of empty cells. */
  function NewGrid(width: nat, height: nat): (g: Grid)
    ensures ValidGrid(g) && g.width == width && g.height == height
    ensures forall i :: 0 <= i < |g.tiles| ==> g.tiles[i].None?
  {
    Grid(width, height, seq(Area(width, height), _ => None))
  }

  /** Column-major flat index of (x, y): the x whole columns before it, then y cells. */
  function Idx(height: nat, x: nat, y: nat): nat {
    Area(x, height) + y
  }

  /** In-bounds coordinates land inside the flat storage, and so does the rest of their column. */
  lemma IdxInRange(width: nat, height: nat, x: nat, y: nat)
    requires x < width && y < height
    ensures Idx(height, x, y) < Area(width, height)
    ensures Idx(height, x, y) + height - y <= Area(width, height)
  {
    AreaMonotone(x + 1, width, height);
  }

  /** Distinct in-bounds coordinates have distinct flat indices. */
  lemma IdxInjective(height: nat, x: nat, y: nat, x': nat, y': nat)
    requires y < height && y' < height
    requires Idx(height, x, y) == Idx(height, x', y')
    ensures x == x' && y == y'
  {
    if x < x' {
      AreaMonotone(x + 1, x', height);
      assert false;
    } else if x' < x {
      AreaMonotone(x' + 1, x, height);
      assert false;
    }
  }

  /** Every flat index of the storage is the index of exactly one in-bounds cell. */
  lemma IdxDecompose(width: nat, height: nat, i: nat)
    requires i < Area(width, height)
    ensures height > 0 && i / height < width && i % height < height
    ensures Idx(height, i / height, i % height) == i
  {
    AreaIsProduct(width, height);
    if height == 0 {
      assert false;
    }
    AreaIsProduct(i / height, height);
    if i / height >= width {
      AreaMonotone(width, i / height, height);
      assert false;
    }
  }

  /** Whether (x, y) is a cell of the grid. */
  predicate InBounds(g: Grid, x: nat, y: nat) {
    x < g.width && y < g.height
  }

  /** The cell at (x, y); the source only demands that the flat index exists. */
  function Get(g: Grid, x: nat, y: nat): Option<Tile>
    requires Idx(g.height, x, y) < |g.tiles|
  {
    g.tiles[Idx(g.height, x, y)]
  }

  /** The cell at (x, y) when it is on the grid, `None` off it. */
  function At(g: Grid, x: nat, y: nat): (t: Option<Tile>)
    requires ValidGrid(g)
    ensures InBounds(g, x, y) ==> Idx(g.height, x, y) < |g.tiles| && t == Get(g, x, y)
    ensures !InBounds(g, x, y) ==> t.None?
  {
    if InBounds(g, x, y) then
      IdxInRange(g.width, g.height, x, y);
      g.tiles[Idx(g.height, x, y)]
    else None
  }

  /** Store `t` at (x, y). */
  function Set(g: Grid, x: nat, y: nat, t: Option<Tile>): (r: Grid)
    requires Idx(g.height, x, y) < |g.tiles|
    ensures r.width == g.width && r.height == g.height && |r.tiles| == |g.tiles|
    ensures Get(r, x, y) == t
    ensures forall i :: 0 <= i < |g.tiles| && i != Idx(g.height, x, y) ==> r.tiles[i] == g.tiles[i]
  {
    g.(tiles := g.tiles[Idx(g.height, x, y) := t])
  }

  /** Copy cell (x, from) over cell (x, to); nothing else changes. */
  function CopyWithinColumn(g: Grid, x: nat, from: nat, to: nat): (r: Grid)
    requires Idx(g.height, x, from) < |g.tiles| && Idx(g.height, x, to) < |g.tiles|
    ensures r.width == g.width && r.height == g.height && |r.tiles| == |g.tiles|
    ensures Get(r, x, to) == Get(g, x, from)
    ensures forall i :: 0 <= i < |g.tiles| && i != Idx(g.height, x, to) ==> r.tiles[i] == g.tiles[i]
  {
    g.(tiles := g.tiles[Idx(g.height, x, to) := g.tiles[Idx(g.height, x, from)]])
  }

  /** Writing a cell and reading it back gives the stored value; every other in-bounds cell reads as before. */
  lemma SetGet(g: Grid, x: nat, y: nat, t: Option<Tile>, x': nat, y': nat)
    requires ValidGrid(g) && InBounds(g, x, y) && InBounds(g, x', y')
    ensures IdxInRangeHolds(g, x, y) && IdxInRangeHolds(g, x', y')
    ensures Get(Set(g, x, y, t), x, y) == t
    ensures (x', y') != (x, y) ==> Get(Set(g, x, y, t), x', y') == Get(g, x', y')
  {
    IdxInRange(g.width, g.height, x, y);
    IdxInRange(g.width, g.height, x', y');
    if (x', y') != (x, y) && Idx(g.height, x, y) == Idx(g.height, x', y') {
      IdxInjective(g.height, x, y, x', y');
    }
  }

  predicate IdxInRangeHolds(g: Grid, x: nat, y: nat) {
    Idx(g.height, x, y) < |g.tiles|
  }

  /** A fresh grid reads `None` everywhere. */
  lemma NewGridIsEmpty(width: nat, height: nat, x: nat, y: nat)
    requires x < width && y < height
    ensures IdxInRangeHolds(NewGrid(width, height), x, y)
    ensures Get(NewGrid(width, height), x, y).None?
  {
    IdxInRange(width, height, x, y);
  }
  /** Column x, top row first: the slice of the flat storage the column occupies. */
  function Column(g: Grid, x: nat): (c: seq<Option<Tile>>)
    requires ValidGrid(g) && x < g.width
    ensures |c| == g.height
    ensures forall y :: 0 <= y < g.height ==> c[y] == At(g, x, y)
  {
    AreaMonotone(x + 1, g.width, g.height);
    g.tiles[Area(x, g.height)..Area(x + 1, g.height)]
  }

  /** Replace column x; every other column is kept. */
  function SetColumn(g: Grid, x: nat, c: seq<Option<Tile>>): (r: Grid)
    requires ValidGrid(g) && x < g.width && |c| == g.height
    ensures ValidGrid(r) && r.width == g.width && r.height == g.height
    ensures Column(r, x) == c
    ensures forall x': nat :: x' < g.width && x' != x ==> Column(r, x') == Column(g, x')
  {
    AreaMonotone(x + 1, g.width, g.height);
    var r := g.(tiles := g.tiles[..Area(x, g.height)] + c + g.tiles[Area(x + 1, g.height)..]);
    forall x': nat | x' < g.width && x' != x ensures Column(r, x') == Column(g, x') {
      ColumnsApart(g, r, x, x', c);
    }
    r
  }

  /** The splice behind `SetColumn` leaves column x' != x alone. */
  lemma ColumnsApart(g: Grid, r: Grid, x: nat, x': nat, c: seq<Option<Tile>>)
    requires ValidGrid(g) && x < g.width && x' < g.width && x' != x && |c| == g.height
    requires Area(x + 1, g.height) <= Area(g.width, g.height)
    requires r == g.(tiles := g.tiles[..Area(x, g.height)] + c + g.tiles[Area(x + 1, g.height)..])
    ensures ValidGrid(r) && Column(r, x') == Column(g, x')
  {
    var h := g.height;
    var lo, hi := Area(x', h), Area(x' + 1, h);
    AreaMonotone(x' + 1, g.width, h);
    if x' < x {
      AreaMonotone(x' + 1, x, h);
      assert forall i :: lo <= i < hi ==> r.tiles[i] == g.tiles[i];
    } else {
      AreaMonotone(x + 1, x', h);
      assert forall i :: lo <= i < hi ==> r.tiles[i] == g.tiles[i];
    }
  }

  /** Copying within column x updates that column at `to` and no other column. */
  lemma CopyWithinColumnIsColumnUpdate(g: Grid, x: nat, from: nat, to: nat)
    requires ValidGrid(g) && x < g.width && from < g.height && to < g.height
    ensures IdxInRangeHolds(g, x, from) && IdxInRangeHolds(g, x, to)
    ensures CopyWithinColumn(g, x, from, to) == SetColumn(g, x, Column(g, x)[to := Column(g, x)[from]])
  {
    IdxInRange(g.width, g.height, x, from);
    IdxInRange(g.width, g.height, x, to);
    AreaMonotone(x + 1, g.width, g.height);
    var c := Column(g, x)[to := Column(g, x)[from]];
    assert CopyWithinColumn(g, x, from, to).tiles == SetColumn(g, x, c).tiles;
  }

  /** Setting cell (x, y) updates column x at y and no other column. */
  lemma SetIsColumnUpdate(g: Grid, x: nat, y: nat, t: Option<Tile>)
    requires ValidGrid(g) && x < g.width && y < g.height
    ensures IdxInRangeHolds(g, x, y)
    ensures Set(g, x, y, t) == SetColumn(g, x, Column(g, x)[y := t])
  {
    IdxInRange(g.width, g.height, x, y);
    AreaMonotone(x + 1, g.width, g.height);
    assert Set(g, x, y, t).tiles == SetColumn(g, x, Column(g, x)[y := t]).tiles;
  }

  /** The storage of a grid whose columns are `cols`: the columns one after another. */
  function Flatten(cols: seq<seq<Option<Tile>>>): seq<Option<Tile>>
    decreases |cols|
  {
    if |cols| == 0 then [] else Flatten(cols[..|cols| - 1]) + cols[|cols| - 1]
  }

  /** Every column has `h` cells. */
  ghost predicate Rectangular(cols: seq<seq<Option<Tile>>>, h: nat) {
    forall x :: 0 <= x < |cols| ==> |cols[x]| == h
  }

  /** Flattening puts cell y of column x at the column-major index of (x, y). */
  lemma {:induction false} FlattenAt(cols: seq<seq<Option<Tile>>>, h: nat, x: nat, y: nat)
    requires Rectangular(cols, h) && x < |cols| && y < h
    ensures |Flatten(cols)| == Area(|cols|, h)
    ensures Idx(h, x, y) < |Flatten(cols)| && Flatten(cols)[Idx(h, x, y)] == cols[x][y]
    decreases |cols|
  {
    var n := |cols| - 1;
    var init := cols[..n];
    if x < n {
      FlattenAt(init, h, x, y);
      AreaMonotone(x + 1, n, h);
    } else {
      FlattenLength(init, h);
    }
  }

  lemma {:induction false} FlattenLength(cols: seq<seq<Option<Tile>>>, h: nat)
    requires Rectangular(cols, h)
    ensures |Flatten(cols)| == Area(|cols|, h)
    decreases |cols|
  {
    if |cols| > 0 {
      FlattenLength(cols[..|cols| - 1], h);
    }
  }

  /** The grid whose columns, left to right, are `cols`, each `h` cells tall. */
  function FromColumns(cols: seq<seq<Option<Tile>>>, h: nat): (g: Grid)
    requires Rectangular(cols, h)
    ensures ValidGrid(g) && g.width == |cols| && g.height == h
    ensures forall x :: 0 <= x < |cols| ==> Column(g, x) == cols[x]
  {
    FlattenLength(cols, h);
    var g := Grid(|cols|, h, Flatten(cols));
    forall x | 0 <= x < |cols| ensures Column(g, x) == cols[x] {
      forall y | 0 <= y < h ensures Column(g, x)[y] == cols[x][y] {
        FlattenAt(cols, h, x, y);
      }
    }
    g
  }

  /** The columns of a grid, left to right. */
  function Columns(g: Grid): (cols: seq<seq<Option<Tile>>>)
    requires ValidGrid(g)
    ensures |cols| == g.width && Rectangular(cols, g.height)
    ensures forall x :: 0 <= x < g.width ==> cols[x] == Column(g, x)
  {
    seq(g.width, x requires 0 <= x < g.width => Column(g, x))
  }

  /** Splitting a grid into its columns and joining them again gives the grid back. */
  lemma ColumnsRoundTrip(g: Grid)
    requires ValidGrid(g)
    ensures FromColumns(Columns(g), g.height) == g
  {
    var r := FromColumns(Columns(g), g.height);
    forall i | 0 <= i < |g.tiles| ensures r.tiles[i] == g.tiles[i] {
      IdxDecompose(g.width, g.height, i);
      var x, y := i / g.height, i % g.height;
      assert r.tiles[i] == Column(r, x)[y];
    }
  }
}
