/**
 * The board-level bookkeeping of a zap and of a bomb (zapzap/src/state.rs,
 * `do_zap`, `bomb_affected_positions`, `finish_bomb`): which rows survive a
 * zap, which cells a bomb destroys, and the fall animations both create.
 */
module Zap {
  import opened Seqs
  import opened Components
  import opened Grid
  import opened GameBoard
  import opened Connectivity
  import opened Flood
  import opened Connections
  import opened Gravity

  /**
   * A tile falling into row y of column x from row `fromRow`; a negative
   * row is above the board. Screen positions are these rows scaled by the
   * tile size.
   */
  datatype FallAnim = FallAnim(x: nat, y: nat, fromRow: int)

  // ---------------------------------------------------------------------
  // do_zap
  // ---------------------------------------------------------------------

  /** The rows of a column, bottom up, whose marking is not `Ok`. */
  function SurvivorRows(ms: seq<Marking>): (rows: seq<nat>)
    ensures |rows| <= |ms|
    ensures forall i :: 0 <= i < |rows| ==> rows[i] < |ms| && ms[rows[i]] != Ok
    decreases |ms|
  {
    if |ms| == 0 then []
    else
      var n := |ms| - 1;
      (if ms[n] != Ok then [n] else []) + SurvivorRows(ms[..n])
  }

  /** The i-th survivor from the bottom starts at row h-1-i or above, so it can only move down. */
  lemma {:induction false} SurvivorRowsBound(ms: seq<Marking>)
    ensures forall i :: 0 <= i < |SurvivorRows(ms)| ==> SurvivorRows(ms)[i] + i <= |ms| - 1
    decreases |ms|
  {
    if |ms| > 0 {
      var n := |ms| - 1;
      SurvivorRowsBound(ms[..n]);
    }
  }

  /** A whole column of survivor rows, one per cell not marked `Ok`. */
  lemma {:induction false} SurvivorRowsCount(ms: seq<Marking>, col: Col)
    requires |col| == |ms| && forall y :: 0 <= y < |col| ==> col[y].Some?
    ensures |SurvivorRows(ms)| == |ColumnSurvivors(col, ms)|
    decreases |ms|
  {
    if |ms| > 0 {
      var n := |ms| - 1;
      SurvivorRowsCount(ms[..n], col[..n]);
    }
  }

  /** The tiles of `col` in rows `rows`, in that order. */
  function TilesAt(col: Col, rows: seq<nat>): seq<Tile>
    requires forall i :: 0 <= i < |rows| ==> rows[i] < |col| && col[rows[i]].Some?
  {
    seq(|rows|, i requires 0 <= i < |rows| => col[rows[i]].value)
  }

  /**
   * On a full column the rows `do_zap` records are exactly the rows whose
   * tiles `remove_and_shift_connecting_tiles` keeps, in the same bottom-up
   * order.
   */
  lemma {:induction false} SurvivorRowsMatchShift(col: Col, ms: seq<Marking>)
    requires |col| == |ms| && forall y :: 0 <= y < |col| ==> col[y].Some?
    ensures TilesAt(col, SurvivorRows(ms)) == ColumnSurvivors(col, ms)
    decreases |ms|
  {
    if |ms| > 0 {
      var n := |ms| - 1;
      SurvivorRowsMatchShift(col[..n], ms[..n]);
      var rest := SurvivorRows(ms[..n]);
      TilesAtPrefix(col, n, rest);
      if ms[n] != Ok {
        assert SurvivorRows(ms) == [n] + rest;
        TilesAtCons(col, n, rest);
      } else {
        assert SurvivorRows(ms) == rest;
      }
    }
  }

  /** Rows below n pick the same tiles from the first n cells of a column as from all of it. */
  lemma TilesAtPrefix(col: Col, n: nat, rows: seq<nat>)
    requires n <= |col| && forall i :: 0 <= i < |rows| ==> rows[i] < n && col[rows[i]].Some?
    ensures TilesAt(col[..n], rows) == TilesAt(col, rows)
  {
  }

  /** One more row in front picks its tile in front. */
  lemma TilesAtCons(col: Col, r: nat, rows: seq<nat>)
    requires r < |col| && col[r].Some? && forall i :: 0 <= i < |rows| ==> rows[i] < |col| && col[rows[i]].Some?
    ensures TilesAt(col, [r] + rows) == [col[r].value] + TilesAt(col, rows)
  {
  }

  /** The source's loop over a column's rows from the bottom up, recording the rows not marked `Ok`. */
  method CollectSurvivorRows(ms: seq<Marking>) returns (rows: seq<nat>)
    ensures rows == SurvivorRows(ms)
  {
    rows := [];
    var y := |ms|;
    assert ms[..y] == ms;
    while y > 0
      invariant y <= |ms|
      invariant SurvivorRows(ms) == rows + SurvivorRows(ms[..y])
    {
      y := y - 1;
      var here := if ms[y] != Ok then [y] else [];
      assert ms[..y + 1][..y] == ms[..y];
      assert SurvivorRows(ms[..y + 1]) == here + SurvivorRows(ms[..y]);
      AppendAssoc(rows, here, SurvivorRows(ms[..y]));
      rows := rows + here;
    }
  }

  /** The moves of the first n survivors: survivor i lands in row h-1-i and moves only when that is not its row. */
  function SurvivorFalls(x: nat, h: nat, rows: seq<nat>, n: nat): seq<FallAnim>
    requires n <= |rows| <= h
  {
    if n == 0 then []
    else
      var i := n - 1;
      SurvivorFalls(x, h, rows, i) + (if h - 1 - i != rows[i] then [FallAnim(x, h - 1 - i, rows[i])] else [])
  }

  /** The `n` new tiles of column x: tile i drops from n - i rows above the board into row i. */
  function NewTileFalls(x: nat, n: nat): (r: seq<FallAnim>)
    ensures |r| == n
    ensures forall i :: 0 <= i < n ==> r[i] == FallAnim(x, i, i - n)
  {
    seq(n, i requires 0 <= i < n => FallAnim(x, i, i - n))
  }

  /** The animations `do_zap` creates for column x: none when nothing was removed; otherwise the survivors' then the new tiles'. */
  function ColumnZapFalls(x: nat, h: nat, rows: seq<nat>): seq<FallAnim>
    requires |rows| <= h
  {
    if h - |rows| == 0 then [] else SurvivorFalls(x, h, rows, |rows|) + NewTileFalls(x, h - |rows|)
  }

  /** Every animation lands on a board row of its column and moves strictly downwards. */
  ghost predicate FallsDown(falls: seq<FallAnim>, x: nat, h: nat) {
    forall i :: 0 <= i < |falls| ==> falls[i].x == x && falls[i].fromRow < falls[i].y < h
  }

  lemma {:induction false} SurvivorFallsDown(x: nat, h: nat, ms: seq<Marking>, n: nat)
    requires |ms| == h && n <= |SurvivorRows(ms)|
    ensures FallsDown(SurvivorFalls(x, h, SurvivorRows(ms), n), x, h)
    decreases n
  {
    if n > 0 {
      SurvivorFallsDown(x, h, ms, n - 1);
      SurvivorRowsBound(ms);
    }
  }

  /** A zap only ever moves tiles down onto the board: survivors onto lower rows, new tiles in from above. */
  lemma ColumnZapFallsDown(x: nat, h: nat, ms: seq<Marking>)
    requires |ms| == h
    ensures FallsDown(ColumnZapFalls(x, h, SurvivorRows(ms)), x, h)
  {
    var rows := SurvivorRows(ms);
    if h - |rows| > 0 {
      SurvivorFallsDown(x, h, ms, |rows|);
    }
  }

  /** The animations `do_zap` creates for columns 0..n-1, given each column's recorded survivor rows. */
  function ZapFalls(rows: seq<seq<nat>>, h: nat, n: nat): seq<FallAnim>
    requires n <= |rows| && forall x :: 0 <= x < |rows| ==> |rows[x]| <= h
  {
    if n == 0 then [] else ZapFalls(rows, h, n - 1) + ColumnZapFalls(n - 1, h, rows[n - 1])
  }

  /** The survivor rows `do_zap` records for every column of `b`. */
  function BoardSurvivorRows(b: Board): (rows: seq<seq<nat>>)
    requires Valid(b)
    ensures |rows| == b.width
    ensures forall x :: 0 <= x < b.width ==> rows[x] == SurvivorRows(MarkColumn(b, x)) && |rows[x]| <= b.height
  {
    seq(b.width, x requires 0 <= x < b.width => SurvivorRows(MarkColumn(b, x)))
  }

  /** Every animation lands on the board left of column w and moves strictly downwards. */
  ghost predicate FallsOnBoard(falls: seq<FallAnim>, w: nat, h: nat) {
    forall i :: 0 <= i < |falls| ==> falls[i].x < w && falls[i].fromRow < falls[i].y < h
  }

  /** The recorded rows of column x give animations that fall down inside that column. */
  ghost predicate ColumnFallsDown(rows: seq<seq<nat>>, x: nat, h: nat)
    requires x < |rows| && |rows[x]| <= h
  {
    FallsDown(ColumnZapFalls(x, h, rows[x]), x, h)
  }

  /** The recorded rows of every column give animations that fall down inside that column. */
  ghost predicate ColumnsFallDown(rows: seq<seq<nat>>, h: nat)
    requires forall x :: 0 <= x < |rows| ==> |rows[x]| <= h
  {
    forall x :: 0 <= x < |rows| ==> ColumnFallsDown(rows, x, h)
  }

  lemma {:induction false} ZapFallsOnBoard(rows: seq<seq<nat>>, h: nat, n: nat)
    requires n <= |rows| && (forall x :: 0 <= x < |rows| ==> |rows[x]| <= h) && ColumnsFallDown(rows, h)
    ensures FallsOnBoard(ZapFalls(rows, h, n), n, h)
    decreases n
  {
    if n > 0 {
      var prev := ZapFalls(rows, h, n - 1);
      var col := ColumnZapFalls(n - 1, h, rows[n - 1]);
      ZapFallsOnBoard(rows, h, n - 1);
      assert ColumnFallsDown(rows, n - 1, h);
      assert ZapFalls(rows, h, n) == prev + col;
      FallsOnBoardJoin(prev, col, n, h);
    }
  }

  /** Falls on the board left of w - 1, then falls down column w - 1, are all on the board left of w. */
  lemma FallsOnBoardJoin(prev: seq<FallAnim>, col: seq<FallAnim>, w: nat, h: nat)
    requires w > 0 && FallsOnBoard(prev, w - 1, h) && FallsDown(col, w - 1, h)
    ensures FallsOnBoard(prev + col, w, h)
  {
    forall i | 0 <= i < |prev + col|
      ensures (prev + col)[i].x < w && (prev + col)[i].fromRow < (prev + col)[i].y < h
    {
      if i < |prev| {
        assert (prev + col)[i] == prev[i];
      } else {
        assert (prev + col)[i] == col[i - |prev|];
      }
    }
  }

  /** Every animation of a zap lands on the board, in its own column, below where it started. */
  lemma ZapFallsDown(b: Board)
    requires Valid(b)
    ensures FallsOnBoard(ZapFalls(BoardSurvivorRows(b), b.height, b.width), b.width, b.height)
  {
    var rows := BoardSurvivorRows(b);
    forall x | 0 <= x < |rows| ensures ColumnFallsDown(rows, x, b.height) {
      ColumnZapFallsDown(x, b.height, MarkColumn(b, x));
    }
    ZapFallsOnBoard(rows, b.height, b.width);
  }

  /**
   * The board a connection check leaves: the settled marking of every cell,
   * column-major, and the pins of each edge whose net reaches the other edge.
   */
  ghost function Settle(b: Board): (r: Board)
    requires Valid(b)
    ensures Valid(r) && r == b.(markings := r.markings, leftPins := r.leftPins, rightPins := r.rightPins)
  {
    var h := b.height;
    b.(markings := seq(|b.markings|, i requires 0 <= i < |b.markings| =>
         IdxDecompose(b.width, h, i);
         Settled(b.grid, b.markings, Cell(i / h, i % h))),
       leftPins := PinCount(b.grid, 0, LEFT, RightNet(b.grid), h),
       rightPins := PinCount(b.grid, RightColumn(b.grid), RIGHT, LeftNet(b.grid), h))
  }

  /** The board `check_connections` returns is exactly the settled board. */
  lemma CheckedIsSettled(b: Board, r: Board)
    requires Valid(b) && r == b.(markings := r.markings, leftPins := r.leftPins, rightPins := r.rightPins)
    requires |r.markings| == |b.markings|
    requires forall c: Cell :: InBounds(b.grid, c.x, c.y) ==> MarkOf(b.grid, r.markings, c) == Settled(b.grid, b.markings, c)
    requires r.leftPins == PinCount(b.grid, 0, LEFT, RightNet(b.grid), b.height)
    requires r.rightPins == PinCount(b.grid, RightColumn(b.grid), RIGHT, LeftNet(b.grid), b.height)
    ensures r == Settle(b)
  {
    var s := Settle(b);
    forall i | 0 <= i < |r.markings| ensures r.markings[i] == s.markings[i] {
      IdxDecompose(b.width, b.height, i);
      var c := Cell(i / b.height, i % b.height);
      assert MarkOf(b.grid, r.markings, c) == r.markings[i];
    }
  }

  // ---------------------------------------------------------------------
  // bomb_affected_positions, finish_bomb
  // ---------------------------------------------------------------------

  /**
   * The rectangle `bomb_affected_positions` and `is_pending_bomb_tile`
   * scan: dx columns and dy rows each way around (ati, atj), clamped to
   * the board. Unlike `bomb_table` they do not check that the centre is on
   * the board.
   */
  function AffectedRect(width: nat, height: nat, ati: nat, atj: nat, dx: nat, dy: nat): (r: Rect)
    ensures r.ei <= width && r.ej <= height
  {
    Rect(SaturatingSub(ati, dx), Min(ati + dx + 1, width), SaturatingSub(atj, dy), Min(atj + dy + 1, height))
  }

  /** Around a cell of the board, the scanned rectangle is the one `bomb_table` clears. */
  lemma AffectedRectIsBombRect(width: nat, height: nat, ati: nat, atj: nat, dx: nat, dy: nat)
    requires ati < width && atj < height
    ensures AffectedRect(width, height, ati, atj, dx, dy) == BombRect(width, height, ati, atj, dx, dy)
  {
  }

  predicate InRect(r: Rect, x: nat, y: nat) {
    r.si <= x < r.ei && r.sj <= y < r.ej
  }

  /** The occupied cells of column x in rows sj..y-1, top down. */
  function ColumnCells(g: Grid, x: nat, sj: nat, y: nat): (r: seq<(nat, nat)>)
    requires ValidGrid(g)
    ensures forall i :: 0 <= i < |r| ==> r[i].0 == x && sj <= r[i].1 < y
    decreases y
  {
    if y <= sj then []
    else ColumnCells(g, x, sj, y - 1) + (if At(g, x, y - 1).Some? then [(x, y - 1)] else [])
  }

  /** The occupied cells of the rectangle's columns before x, column by column. */
  function RectCells(g: Grid, r: Rect, x: nat): (cs: seq<(nat, nat)>)
    requires ValidGrid(g)
    ensures forall i :: 0 <= i < |cs| ==> r.si <= cs[i].0 < x
    decreases x
  {
    if x <= r.si then [] else RectCells(g, r, x - 1) + ColumnCells(g, x - 1, r.sj, r.ej)
  }

  /** (x, y) comes before (x', y') in column-major order. */
  predicate Precedes(a: (nat, nat), b: (nat, nat)) {
    a.0 < b.0 || (a.0 == b.0 && a.1 < b.1)
  }

  lemma {:induction false} ColumnCellsMembers(g: Grid, x: nat, sj: nat, y: nat, p: (nat, nat))
    requires ValidGrid(g)
    ensures p in ColumnCells(g, x, sj, y) <==> p.0 == x && sj <= p.1 < y && At(g, p.0, p.1).Some?
    decreases y
  {
    if y > sj {
      ColumnCellsMembers(g, x, sj, y - 1, p);
    }
  }

  lemma {:induction false} ColumnCellsOrdered(g: Grid, x: nat, sj: nat, y: nat)
    requires ValidGrid(g)
    ensures forall i, j :: 0 <= i < j < |ColumnCells(g, x, sj, y)| ==> Precedes(ColumnCells(g, x, sj, y)[i], ColumnCells(g, x, sj, y)[j])
    decreases y
  {
    if y > sj {
      ColumnCellsOrdered(g, x, sj, y - 1);
    }
  }

  /** The cells a bomb on rectangle `r` destroys: exactly its occupied cells. */
  lemma {:induction false} RectCellsMembers(g: Grid, r: Rect, x: nat, p: (nat, nat))
    requires ValidGrid(g)
    requires x <= r.ei
    ensures p in RectCells(g, r, x) <==> p.0 < x && InRect(r, p.0, p.1) && At(g, p.0, p.1).Some?
    decreases x
  {
    if x > r.si {
      var before := RectCells(g, r, x - 1);
      var column := ColumnCells(g, x - 1, r.sj, r.ej);
      assert RectCells(g, r, x) == before + column;
      RectCellsMembers(g, r, x - 1, p);
      ColumnCellsMembers(g, x - 1, r.sj, r.ej, p);
      assert p in before + column <==> p in before || p in column;
    }
  }

  /** ... listed in column-major order, so each at most once. */
  lemma {:induction false} RectCellsOrdered(g: Grid, r: Rect, x: nat)
    requires ValidGrid(g)
    ensures forall i, j :: 0 <= i < j < |RectCells(g, r, x)| ==> Precedes(RectCells(g, r, x)[i], RectCells(g, r, x)[j])
    decreases x
  {
    if x > r.si {
      RectCellsOrdered(g, r, x - 1);
      ColumnCellsOrdered(g, x - 1, r.sj, r.ej);
    }
  }

  /**
   * `bomb_affected_positions`: the occupied cells of the clamped rectangle,
   * column by column, top down in each column.
   */
  method BombAffectedPositions(b: Board, ati: nat, atj: nat, dx: nat, dy: nat) returns (positions: seq<(nat, nat)>)
    requires Valid(b)
    ensures var r := AffectedRect(b.width, b.height, ati, atj, dx, dy);
      positions == RectCells(b.grid, r, r.ei)
    ensures var r := AffectedRect(b.width, b.height, ati, atj, dx, dy);
      forall p :: p in positions <==> InRect(r, p.0, p.1) && At(b.grid, p.0, p.1).Some?
    ensures forall i, j :: 0 <= i < j < |positions| ==> Precedes(positions[i], positions[j])
  {
    var r := AffectedRect(b.width, b.height, ati, atj, dx, dy);
    positions := [];
    var x := r.si;
    while x < r.ei
      invariant r.si <= x && (x <= r.ei || x == r.si)
      invariant positions == RectCells(b.grid, r, x)
    {
      var column := ScanColumn(b.grid, x, r.sj, r.ej);
      positions := positions + column;
      x := x + 1;
    }
    assert RectCells(b.grid, r, x) == RectCells(b.grid, r, r.ei);
    forall p ensures p in positions <==> InRect(r, p.0, p.1) && At(b.grid, p.0, p.1).Some? {
      RectCellsMembers(b.grid, r, r.ei, p);
    }
    RectCellsOrdered(b.grid, r, r.ei);
  }

  /** The inner loop of `bomb_affected_positions`: the occupied cells of one column, top down. */
  method ScanColumn(g: Grid, x: nat, sj: nat, ej: nat) returns (cells: seq<(nat, nat)>)
    requires ValidGrid(g)
    ensures cells == ColumnCells(g, x, sj, ej)
  {
    cells := [];
    var y := sj;
    while y < ej
      invariant sj <= y && (y <= ej || y == sj)
      invariant cells == ColumnCells(g, x, sj, y)
    {
      if At(g, x, y).Some? {
        cells := cells + [(x, y)];
      }
      y := y + 1;
    }
  }

  /** Count the cell (x, _) in the tallies: the first entry for column x goes up by one, or (x, 1) is appended. */
  function Tally(counts: seq<(nat, nat)>, x: nat): seq<(nat, nat)>
    decreases |counts|
  {
    if |counts| == 0 then [(x, 1)]
    else if counts[0].0 == x then [(x, counts[0].1 + 1)] + counts[1..]
    else [counts[0]] + Tally(counts[1..], x)
  }

  /** `finish_bomb`'s per-column tallies of the destroyed cells, columns in order of first appearance. */
  function ColumnCounts(ps: seq<(nat, nat)>): seq<(nat, nat)>
    decreases |ps|
  {
    if |ps| == 0 then [] else Tally(ColumnCounts(ps[..|ps| - 1]), ps[|ps| - 1].0)
  }

  /** How many cells the tallies count for column x. */
  function CountFor(counts: seq<(nat, nat)>, x: nat): nat
    decreases |counts|
  {
    if |counts| == 0 then 0 else (if counts[0].0 == x then counts[0].1 else 0) + CountFor(counts[1..], x)
  }

  /** How many of the cells `ps` lie in column x. */
  function InColumn(ps: seq<(nat, nat)>, x: nat): nat
    decreases |ps|
  {
    if |ps| == 0 then 0 else InColumn(ps[..|ps| - 1], x) + (if ps[|ps| - 1].0 == x then 1 else 0)
  }

  lemma {:induction false} TallyCounts(counts: seq<(nat, nat)>, x: nat, x': nat)
    ensures CountFor(Tally(counts, x), x') == CountFor(counts, x') + (if x == x' then 1 else 0)
    decreases |counts|
  {
    if |counts| > 0 {
      if counts[0].0 == x {
        assert ([(x, counts[0].1 + 1)] + counts[1..])[1..] == counts[1..];
      } else {
        TallyCounts(counts[1..], x, x');
        assert ([counts[0]] + Tally(counts[1..], x))[1..] == Tally(counts[1..], x);
      }
    }
  }

  /** The tallies count every destroyed cell under its own column. */
  lemma {:induction false} ColumnCountsPerColumn(ps: seq<(nat, nat)>, x: nat)
    ensures CountFor(ColumnCounts(ps), x) == InColumn(ps, x)
    decreases |ps|
  {
    if |ps| > 0 {
      ColumnCountsPerColumn(ps[..|ps| - 1], x);
      TallyCounts(ColumnCounts(ps[..|ps| - 1]), ps[|ps| - 1].0, x);
    }
  }

  /** The new tiles `finish_bomb` drops in: for each tally (x, n), n tiles into the top rows of column x. */
  function BombFalls(counts: seq<(nat, nat)>): seq<FallAnim>
    decreases |counts|
  {
    if |counts| == 0 then [] else NewTileFalls(counts[0].0, counts[0].1) + BombFalls(counts[1..])
  }

  /** The total of the tallies. */
  function Total(counts: seq<(nat, nat)>): nat
    decreases |counts|
  {
    if |counts| == 0 then 0 else counts[0].1 + Total(counts[1..])
  }

  lemma {:induction false} TallyTotal(counts: seq<(nat, nat)>, x: nat)
    ensures Total(Tally(counts, x)) == Total(counts) + 1
    decreases |counts|
  {
    if |counts| > 0 {
      if counts[0].0 == x {
        assert ([(x, counts[0].1 + 1)] + counts[1..])[1..] == counts[1..];
      } else {
        TallyTotal(counts[1..], x);
        assert ([counts[0]] + Tally(counts[1..], x))[1..] == Tally(counts[1..], x);
      }
    }
  }

  lemma {:induction false} BombFallsLength(counts: seq<(nat, nat)>)
    ensures |BombFalls(counts)| == Total(counts)
    decreases |counts|
  {
    if |counts| > 0 {
      BombFallsLength(counts[1..]);
    }
  }

  /** `finish_bomb` creates exactly one fall animation per destroyed cell. */
  lemma {:induction false} OneFallPerDestroyedCell(ps: seq<(nat, nat)>)
    ensures |BombFalls(ColumnCounts(ps))| == |ps|
    decreases |ps|
  {
    BombFallsLength(ColumnCounts(ps));
    if |ps| > 0 {
      OneFallPerDestroyedCell(ps[..|ps| - 1]);
      BombFallsLength(ColumnCounts(ps[..|ps| - 1]));
      TallyTotal(ColumnCounts(ps[..|ps| - 1]), ps[|ps| - 1].0);
    }
  }

  /** Writing a tile into a cell of a full board leaves it full. */
  lemma SetKeepsFull(b: Board, x: nat, y: nat, t: Tile)
    requires Valid(b) && Full(b) && x < b.width && y < b.height
    ensures IdxInRangeHolds(b.grid, x, y)
    ensures var r := b.(grid := Set(b.grid, x, y, Some(t))); Valid(r) && Full(r)
  {
    IdxInRange(b.width, b.height, x, y);
    var r := b.(grid := Set(b.grid, x, y, Some(t)));
    assert ValidGrid(r.grid);
    forall x': nat, y': nat | x' < b.width && y' < b.height ensures At(r.grid, x', y').Some? {
      SetGet(b.grid, x, y, Some(t), x', y');
      if x' == x && y' == y {
        assert At(r.grid, x', y') == Some(t);
      } else {
        assert At(r.grid, x', y') == At(b.grid, x', y');
      }
    }
  }

  /** A bombed column of tiles has a tile in every cell. */
  lemma BombedIsFull(before: Col, after: Col, sj: nat, ej: nat, y: nat)
    requires sj <= ej <= |before| && Bombed(before, after, sj, ej) && y < |after|
    requires forall y' :: 0 <= y' < |before| ==> before[y'].Some?
    ensures after[y].Some?
  {
    var k := ej - sj;
    if y >= k {
      var rest := before[..sj] + before[ej..];
      assert after[y] == after[k..][y - k] == rest[y - k];
      if y - k < sj {
        assert rest[y - k] == before[y - k];
      } else {
        assert rest[y - k] == before[y];
      }
    }
  }

  /** A bomb leaves a full board full: the kept cells move down and fresh tiles fill the top of each hit column. */
  lemma BombKeepsFull(b: Board, ati: nat, atj: nat, dx: nat, dy: nat)
    requires Valid(b) && Full(b)
    ensures Full(BombSpec(b, ati, atj, dx, dy))
  {
    BombSpecColumns(b, ati, atj, dx, dy);
    if ati < b.width && atj < b.height {
      var r := BombSpec(b, ati, atj, dx, dy);
      var rect := BombRect(b.width, b.height, ati, atj, dx, dy);
      forall x: nat, y: nat | x < b.width && y < b.height ensures At(r.grid, x, y).Some? {
        var before, after := Column(b.grid, x), Column(r.grid, x);
        assert after[y] == At(r.grid, x, y);
        if rect.si <= x < rect.ei {
          forall y' | 0 <= y' < |before| ensures before[y'].Some? {
            assert before[y'] == At(b.grid, x, y');
          }
          BombedIsFull(before, after, rect.sj, rect.ej, y);
        } else {
          assert after[y] == before[y] == At(b.grid, x, y);
        }
      }
    }
  }
}
