/**
 * Column gravity on the board (zapzap/src/systems/board.rs):
 * `remove_and_shift_connecting_tiles` drops the tiles of a zapped network
 * and lets the rest of each column fall, and `bomb_table` blows a clamped
 * rectangle out of the board by repeated one-row shifts. Both refill the
 * emptied top rows with fresh tiles from the generator.
 *
 * Both work column by column, so the grid is handled as its sequence of
 * columns (`Grid.Columns`), each top row first. The generator only feeds
 * draws and is touched by nothing else, so an operation takes the run of
 * draws it needs, `NewElements(gen, n)`, and hands them out in the
 * source's order: column by column, left to right.
 */
module Gravity {
  import opened Components
  import opened Grid
  import opened Generator
  import opened GameBoard

  type Col = seq<Option<Tile>>

  /** The markings of column x, top row first. */
  function MarkColumn(b: Board, x: nat): (ms: seq<Marking>)
    requires Valid(b) && x < b.width
    ensures |ms| == b.height
    ensures forall y :: 0 <= y < b.height ==> Idx(b.height, x, y) < |b.markings| && ms[y] == MarkingAt(b, x, y)
  {
    AreaMonotone(x + 1, b.width, b.height);
    b.markings[Area(x, b.height)..Area(x + 1, b.height)]
  }

  /** Draws as the generator yields them: masks with at least one connection. */
  predicate Drawn(ks: seq<nat>) {
    forall i :: 0 <= i < |ks| ==> 1 <= ks[i] <= 15
  }

  /** The markings of every column, left to right. */
  function MarkColumns(b: Board): (ms: seq<seq<Marking>>)
    requires Valid(b)
    ensures |ms| == b.width
    ensures forall x :: 0 <= x < b.width ==> ms[x] == MarkColumn(b, x)
  {
    seq(b.width, x requires 0 <= x < b.width => MarkColumn(b, x))
  }

  /** The tiles a run of draws becomes, as occupied cells. */
  function FreshCells(ks: seq<nat>): (c: Col)
    requires Masks(ks)
    ensures |c| == |ks|
    ensures forall i :: 0 <= i < |ks| ==> c[i] == Some(MaskTile(ks[i]))
  {
    seq(|ks|, i requires 0 <= i < |ks| => Some(MaskTile(ks[i])))
  }

  /** The occupied cells holding `ts`, in order. */
  function AsCells(ts: seq<Tile>): (c: Col)
    ensures |c| == |ts|
    ensures forall i :: 0 <= i < |ts| ==> c[i] == Some(ts[i])
  {
    seq(|ts|, i requires 0 <= i < |ts| => Some(ts[i]))
  }

  function Reverse<T>(s: seq<T>): (r: seq<T>)
    ensures |r| == |s|
    ensures forall i :: 0 <= i < |s| ==> r[i] == s[|s| - 1 - i]
  {
    seq(|s|, i requires 0 <= i < |s| => s[|s| - 1 - i])
  }

  lemma ReverseAppend<T>(a: seq<T>, b: seq<T>)
    ensures Reverse(a + b) == Reverse(b) + Reverse(a)
  {
    var l, r := Reverse(a + b), Reverse(b) + Reverse(a);
    forall i | 0 <= i < |a| + |b| ensures l[i] == r[i] {
      if i < |b| {
        assert l[i] == b[|b| - 1 - i];
      } else {
        assert l[i] == a[|a| + |b| - 1 - i];
      }
    }
  }

  /** Every cell of a column prefix holds a fresh tile with at least one connection. */
  ghost predicate FreshTop(c: Col, n: nat)
    requires n <= |c|
  {
    forall y :: 0 <= y < n ==> c[y].Some? && 1 <= c[y].value.connections as int <= 15
  }

  // ---------------------------------------------------------------------
  // remove_and_shift_connecting_tiles
  // ---------------------------------------------------------------------

  /** A cell keeps its tile through a zap when it is occupied and not marked `Ok`. */
  predicate Survives(t: Option<Tile>, m: Marking) {
    t.Some? && m != Ok
  }

  /** The source's survivor list: the surviving tiles of a column, bottom row first. */
  function ColumnSurvivors(col: Col, marks: seq<Marking>): (s: seq<Tile>)
    requires |col| == |marks|
    ensures |s| <= |col|
    decreases |col|
  {
    if |col| == 0 then []
    else
      var n := |col| - 1;
      (if Survives(col[n], marks[n]) then [col[n].value] else []) + ColumnSurvivors(col[..n], marks[..n])
  }

  /** The surviving tiles of a column in their own top-to-bottom order. */
  function Kept(col: Col, marks: seq<Marking>): (s: seq<Tile>)
    requires |col| == |marks|
    ensures |s| <= |col|
    decreases |col|
  {
    if |col| == 0 then []
    else (if Survives(col[0], marks[0]) then [col[0].value] else []) + Kept(col[1..], marks[1..])
  }

  /** Keeping from the front and from the back picks the same tiles. */
  lemma {:induction false} KeptSnoc(col: Col, marks: seq<Marking>)
    requires |col| == |marks| && |col| > 0
    ensures var n := |col| - 1;
      Kept(col, marks) == Kept(col[..n], marks[..n]) + (if Survives(col[n], marks[n]) then [col[n].value] else [])
    decreases |col|
  {
    var n := |col| - 1;
    if n > 0 {
      KeptSnoc(col[1..], marks[1..]);
      assert col[1..][..n - 1] == col[..n][1..];
      assert marks[1..][..n - 1] == marks[..n][1..];
      assert col[1..][n - 1] == col[n] && marks[1..][n - 1] == marks[n];
    } else {
      assert col[..n] == [] && marks[..n] == [];
    }
  }

  /** The survivor list is the kept tiles read bottom-up. */
  lemma {:induction false} SurvivorsAreKeptReversed(col: Col, marks: seq<Marking>)
    requires |col| == |marks|
    ensures ColumnSurvivors(col, marks) == Reverse(Kept(col, marks))
    decreases |col|
  {
    if |col| > 0 {
      var n := |col| - 1;
      SurvivorsAreKeptReversed(col[..n], marks[..n]);
      KeptSnoc(col, marks);
      var last := if Survives(col[n], marks[n]) then [col[n].value] else [];
      ReverseAppend(Kept(col[..n], marks[..n]), last);
      assert Reverse(last) == last;
    }
  }

  /** The fresh tiles a column needs after a zap: one per cell that does not survive. */
  function Vacated(col: Col, marks: seq<Marking>): (n: nat)
    requires |col| == |marks|
    ensures n <= |col|
  {
    |col| - |ColumnSurvivors(col, marks)|
  }

  /** Column `c` is column `before` after a zap with markings `marks`. */
  ghost predicate Compacted(before: Col, marks: seq<Marking>, c: Col)
    requires |before| == |marks|
  {
    var kept := Kept(before, marks);
    |c| == |before|
    && FreshTop(c, |before| - |kept|)
    && c[|before| - |kept|..] == AsCells(kept)
  }

  /**
   * One column after a zap: the survivors placed from the last row up,
   * `survivors[i]` in row h-1-i, and the draws `ks` in rows 0, 1, ... above
   * them. This is the kept tiles in their old order under fresh tiles.
   */
  function ShiftedColumn(col: Col, marks: seq<Marking>, ks: seq<nat>): (c: Col)
    requires |col| == |marks| && |ks| == Vacated(col, marks) && Drawn(ks)
    ensures Compacted(col, marks, c)
    ensures c[..|ks|] == FreshCells(ks)
  {
    var s := ColumnSurvivors(col, marks);
    var h := |col|;
    var n := h - |s|;
    var c := seq(h, y requires 0 <= y < h => if y < n then Some(MaskTile(ks[y])) else Some(s[h - 1 - y]));
    var kept := Kept(col, marks);
    SurvivorsAreKeptReversed(col, marks);
    forall i | 0 <= i < h - n ensures c[n..][i] == AsCells(kept)[i] {
      assert s[h - 1 - (n + i)] == kept[i];
    }
    assert c[n..] == AsCells(kept);
    c
  }

  /** Each markings column is as tall as its tile column. */
  ghost predicate SameShape(cols: seq<Col>, marks: seq<seq<Marking>>) {
    |cols| == |marks| && forall x :: 0 <= x < |cols| ==> |cols[x]| == |marks[x]|
  }

  /** The fresh tiles all columns need after a zap. */
  function Vacancies(cols: seq<Col>, marks: seq<seq<Marking>>): nat
    requires SameShape(cols, marks)
    decreases |cols|
  {
    if |cols| == 0 then 0
    else
      var n := |cols| - 1;
      Vacancies(cols[..n], marks[..n]) + Vacated(cols[n], marks[n])
  }

  /**
   * The columns after a zap, left to right, each taking its draws from
   * the front of what the columns before it left of `ks`.
   */
  function ShiftColumns(cols: seq<Col>, marks: seq<seq<Marking>>, ks: seq<nat>): (r: seq<Col>)
    requires SameShape(cols, marks) && |ks| == Vacancies(cols, marks) && Drawn(ks)
    ensures |r| == |cols|
    ensures forall x :: 0 <= x < |cols| ==> Compacted(cols[x], marks[x], r[x])
    decreases |cols|
  {
    if |cols| == 0 then []
    else
      var n := |cols| - 1;
      var m := Vacancies(cols[..n], marks[..n]);
      ShiftColumns(cols[..n], marks[..n], ks[..m]) + [ShiftedColumn(cols[n], marks[n], ks[m..])]
  }

  /**
   * `remove_and_shift_connecting_tiles`: in every column the tiles not
   * marked `Ok` fall to the bottom keeping their order, and fresh tiles
   * fill the rows above them, one draw per vacated cell. Markings,
   * multipliers and pin counters are untouched.
   */
  function RemoveAndShift(b: Board): (r: Board)
    requires Valid(b)
    ensures Valid(r) && r == b.(grid := r.grid, gen := r.gen)
    ensures r.gen.newElements == b.gen.newElements + Vacancies(Columns(b.grid), MarkColumns(b))
    ensures r.gen.missingLinks == b.gen.missingLinks
    ensures forall x :: 0 <= x < b.width ==> Compacted(Column(b.grid, x), MarkColumn(b, x), Column(r.grid, x))
  {
    var cols := Columns(b.grid);
    var marks := MarkColumns(b);
    var d := NewElements(b.gen, Vacancies(cols, marks));
    b.(grid := FromColumns(ShiftColumns(cols, marks, d.ks), b.height), gen := d.gen)
  }

  /** A compacted column has a tile in every cell. */
  lemma CompactedIsFull(before: Col, marks: seq<Marking>, c: Col)
    requires |before| == |marks| && Compacted(before, marks, c)
    ensures forall y :: 0 <= y < |c| ==> c[y].Some?
  {
    var n := |before| - |Kept(before, marks)|;
    forall y | n <= y < |c| ensures c[y].Some? {
      assert c[y] == c[n..][y - n];
    }
  }

  /** After a zap every cell holds a tile again. */
  lemma RemoveAndShiftFills(b: Board)
    requires Valid(b)
    ensures Full(RemoveAndShift(b))
  {
    var r := RemoveAndShift(b);
    forall x: nat, y: nat | x < b.width && y < b.height ensures At(r.grid, x, y).Some? {
      CompactedIsFull(Column(b.grid, x), MarkColumn(b, x), Column(r.grid, x));
      assert Column(r.grid, x)[y] == At(r.grid, x, y);
    }
  }

  // ---------------------------------------------------------------------
  // bomb_table
  // ---------------------------------------------------------------------

  /**
   * One column after the bomb: the rows sj..ej-1 are gone, everything
   * above them has moved down by k = ej - sj rows, and the top k rows hold
   * the last k of the column's 2k draws, the bottom row taking the first
   * of them.
   */
  function BombedColumn(col: Col, sj: nat, ej: nat, ks: seq<nat>): (c: Col)
    requires sj <= ej <= |col| && |ks| == 2 * (ej - sj) && Masks(ks)
    ensures |c| == |col|
  {
    var k := ej - sj;
    seq(|col|, y requires 0 <= y < |col| =>
      if y < k then Some(MaskTile(ks[2 * k - 1 - y])) else if y < ej then col[y - k] else col[y])
  }

  /** Column `c` is column `before` after the bomb removed rows sj..ej-1. */
  ghost predicate Bombed(before: Col, c: Col, sj: nat, ej: nat)
    requires sj <= ej <= |before|
  {
    |c| == |before|
    && FreshTop(c, ej - sj)
    && c[ej - sj..] == before[..sj] + before[ej..]
  }

  /** The bombed column keeps the cells outside the removed rows, in order, under k fresh tiles. */
  lemma BombedColumnKeeps(col: Col, sj: nat, ej: nat, ks: seq<nat>)
    requires sj <= ej <= |col| && |ks| == 2 * (ej - sj) && Drawn(ks)
    ensures Masks(ks) && Bombed(col, BombedColumn(col, sj, ej, ks), sj, ej)
  {
    var c := BombedColumn(col, sj, ej, ks);
    var k := ej - sj;
    forall y | 0 <= y < k ensures c[y].Some? && 1 <= c[y].value.connections as int <= 15 {
      assert c[y] == Some(MaskTile(ks[2 * k - 1 - y]));
    }
    var rest := col[..sj] + col[ej..];
    forall y | 0 <= y < |col| - k ensures c[k..][y] == rest[y] {
      if y < sj {
        assert c[k + y] == col[y];
      } else {
        assert c[k + y] == col[y + k];
      }
    }
    assert c[k..] == rest;
  }

  /** Cells r..e-1 of `c` hold the cells `d` rows above them in `col`. */
  ghost predicate MovedDown(c: Col, col: Col, r: int, e: int, d: int)
    requires |c| == |col|
  {
    forall y :: 0 <= r <= y < e <= |col| && 0 <= d <= y ==> c[y] == col[y - d]
  }

  /** The shifts of one removed row: rows i+1..y+i move down by one, row i stays. */
  method ShiftDown(c0: Col, col: Col, y: nat, i: nat, ej: nat) returns (c: Col)
    requires |c0| == |col| && y + i + 1 == ej && ej <= |col|
    requires MovedDown(c0, col, i, ej, i)
    requires forall r :: ej <= r < |col| ==> c0[r] == col[r]
    ensures |c| == |col| && MovedDown(c, col, i + 1, ej, i + 1) && c[i] == c0[i]
    ensures forall r :: ej <= r < |col| ==> c[r] == col[r]
  {
    c := c0;
    var s := y;
    while s >= 1
      invariant 0 <= s <= y && |c| == |col|
      invariant MovedDown(c, col, s + i + 1, ej, i + 1)
      invariant MovedDown(c, col, i, s + i + 1, i)
      invariant forall r :: ej <= r < |col| ==> c[r] == col[r]
    {
      c := c[s + i := c[s + i - 1]];
      s := s - 1;
    }
  }

  /**
   * The source's first loop: for each of the k = ej - sj removed rows,
   * bottom first, the shifts of `ShiftDown` and then draw `ks[i]` into row 0.
   */
  method ShiftRows(col: Col, sj: nat, ej: nat, ks: seq<nat>) returns (c: Col)
    requires sj <= ej <= |col| && ej - sj <= |ks| && Masks(ks)
    ensures |c| == |col| && MovedDown(c, col, ej - sj, ej, ej - sj)
    ensures forall r :: ej <= r < |col| ==> c[r] == col[r]
  {
    var k := ej - sj;
    c := col;
    var shifted := 0;
    while shifted < k
      invariant shifted <= k && |c| == |col|
      invariant MovedDown(c, col, shifted, ej, shifted)
      invariant forall r :: ej <= r < |col| ==> c[r] == col[r]
    {
      c := ShiftDown(c, col, ej - 1 - shifted, shifted, ej);
      c := c[0 := Some(MaskTile(ks[shifted]))];
      shifted := shifted + 1;
    }
  }

  /**
   * The source's second loop: continuing with draw `start` of `ks`, redraw
   * the top |ks| - start rows, bottom one first, so row r takes draw
   * |ks| - 1 - r.
   */
  method FillTop(c0: Col, ks: seq<nat>, start: nat) returns (c: Col)
    requires start <= |ks| && |ks| - start <= |c0| && Masks(ks)
    ensures |c| == |c0|
    ensures forall r :: 0 <= r < |ks| - start ==> c[r] == Some(MaskTile(ks[|ks| - 1 - r]))
    ensures forall r :: |ks| - start <= r < |c0| ==> c[r] == c0[r]
  {
    var n := |ks|;
    c := c0;
    var drawn := start;
    while drawn < n
      invariant start <= drawn <= n && |c| == |c0|
      invariant forall r :: n - start <= r < |c0| ==> c[r] == c0[r]
      invariant forall r :: n - drawn <= r < n - start ==> c[r] == Some(MaskTile(ks[n - 1 - r]))
    {
      c := c[n - 1 - drawn := Some(MaskTile(ks[drawn]))];
      drawn := drawn + 1;
    }
  }

  /**
   * One column of `bomb_table` as the source performs it, taking its 2k
   * draws from `ks`: k passes of shifting with a fresh tile in row 0, then
   * rows k-1 down to 0 redrawn. The tiles of the first k draws are
   * overwritten by the last k.
   */
  method BombColumn(col: Col, sj: nat, ej: nat, ks: seq<nat>) returns (c: Col)
    requires sj <= ej <= |col| && |ks| == 2 * (ej - sj) && Masks(ks)
    ensures c == BombedColumn(col, sj, ej, ks)
  {
    var shifted := ShiftRows(col, sj, ej, ks);
    c := FillTop(shifted, ks, ej - sj);
  }

  /** Every column is at least `ej` cells tall. */
  ghost predicate Tall(cols: seq<Col>, ej: nat) {
    forall x :: 0 <= x < |cols| ==> ej <= |cols[x]|
  }

  /** Two runs of columns of the same heights. */
  ghost predicate SameHeights(a: seq<Col>, b: seq<Col>) {
    |a| == |b| && forall x :: 0 <= x < |a| ==> |a[x]| == |b[x]|
  }

  /** The columns after the bomb, left to right, each taking the next 2k draws of `ks`. */
  function BombColumns(cols: seq<Col>, sj: nat, ej: nat, ks: seq<nat>): (r: seq<Col>)
    requires sj <= ej && Tall(cols, ej) && |ks| == Area(|cols|, 2 * (ej - sj)) && Drawn(ks)
    ensures SameHeights(r, cols)
    decreases |cols|
  {
    if |cols| == 0 then []
    else
      var n := |cols| - 1;
      var m := Area(n, 2 * (ej - sj));
      BombColumns(cols[..n], sj, ej, ks[..m]) + [BombedColumn(cols[n], sj, ej, ks[m..])]
  }

  /** Every column `BombColumns` produces is its input column, bombed. */
  lemma {:induction false} BombColumnsBombed(cols: seq<Col>, sj: nat, ej: nat, ks: seq<nat>)
    requires sj <= ej && Tall(cols, ej) && |ks| == Area(|cols|, 2 * (ej - sj)) && Drawn(ks)
    ensures forall x :: 0 <= x < |cols| ==> Bombed(cols[x], BombColumns(cols, sj, ej, ks)[x], sj, ej)
    decreases |cols|
  {
    if |cols| > 0 {
      var n := |cols| - 1;
      var m := Area(n, 2 * (ej - sj));
      BombColumnsBombed(cols[..n], sj, ej, ks[..m]);
      BombedColumnKeeps(cols[n], sj, ej, ks[m..]);
    }
  }

  /** The rectangle a bomb clears: columns si..ei-1 and rows sj..ej-1, clamped to the board. */
  datatype Rect = Rect(si: nat, ei: nat, sj: nat, ej: nat)

  /** Saturating subtraction on unsigned integers. */
  function SaturatingSub(a: nat, b: nat): (r: nat)
    ensures r <= a && (b <= a ==> r + b == a) && (b > a ==> r == 0)
  {
    if b <= a then a - b else 0
  }

  function Min(a: nat, b: nat): (r: nat)
    ensures r <= a && r <= b && (r == a || r == b)
  {
    if a <= b then a else b
  }

  /** The rectangle around (ati, atj) reaching dx columns and dy rows each way, clamped to the board. */
  function BombRect(width: nat, height: nat, ati: nat, atj: nat, dx: nat, dy: nat): (r: Rect)
    requires ati < width && atj < height
    ensures r.si <= ati < r.ei <= width && r.sj <= atj < r.ej <= height
    ensures r.si + dx >= ati && r.sj + dy >= atj
    ensures r.ei == width || r.ei == ati + dx + 1
    ensures r.ej == height || r.ej == atj + dy + 1
  {
    Rect(SaturatingSub(ati, dx), Min(ati + dx + 1, width), SaturatingSub(atj, dy), Min(atj + dy + 1, height))
  }

  /** The draws the bomb takes: 2k for each of its columns. */
  function BombDraws(rect: Rect): nat
    requires rect.si <= rect.ei && rect.sj <= rect.ej
  {
    Area(rect.ei - rect.si, 2 * (rect.ej - rect.sj))
  }

  /** The columns of `cols` after the bomb hits the rectangle. */
  function BombedColumns(cols: seq<Col>, rect: Rect, ks: seq<nat>): (r: seq<Col>)
    requires rect.si <= rect.ei <= |cols| && rect.sj <= rect.ej && Tall(cols, rect.ej)
    requires |ks| == BombDraws(rect) && Drawn(ks)
    ensures SameHeights(r, cols)
  {
    cols[..rect.si] + BombColumns(cols[rect.si..rect.ei], rect.sj, rect.ej, ks) + cols[rect.ei..]
  }

  /** The board `bomb_table` leaves. */
  function BombSpec(b: Board, ati: nat, atj: nat, dx: nat, dy: nat): (r: Board)
    requires Valid(b)
    ensures Valid(r) && r == b.(grid := r.grid, gen := r.gen)
  {
    if ati >= b.width || atj >= b.height then b
    else
      var rect := BombRect(b.width, b.height, ati, atj, dx, dy);
      var d := NewElements(b.gen, BombDraws(rect));
      b.(grid := FromColumns(BombedColumns(Columns(b.grid), rect, d.ks), b.height), gen := d.gen)
  }

  /** The source's column loop of `bomb_table`, columns si..ei-1 in turn. */
  method BombColumnsLoop(cols0: seq<Col>, rect: Rect, ks: seq<nat>) returns (cols: seq<Col>)
    requires rect.si <= rect.ei <= |cols0| && rect.sj <= rect.ej && Tall(cols0, rect.ej)
    requires |ks| == BombDraws(rect) && Drawn(ks)
    ensures cols == BombedColumns(cols0, rect, ks)
  {
    var k2 := 2 * (rect.ej - rect.sj);
    cols := cols0;
    var used := 0;
    var x := rect.si;
    while x < rect.ei
      invariant rect.si <= x <= rect.ei && used == Area(x - rect.si, k2)
      invariant used <= |ks|
      invariant cols == cols0[..rect.si] + BombColumns(cols0[rect.si..x], rect.sj, rect.ej, ks[..used]) + cols0[x..]
    {
      cols, used := BombStep(cols0, rect, ks, x, used, cols);
      x := x + 1;
    }
    assert ks[..used] == ks;
  }

  /** The body of the column loop: bomb column x with the next 2k draws. */
  method BombStep(cols0: seq<Col>, rect: Rect, ks: seq<nat>, x: nat, used: nat, cols: seq<Col>)
      returns (cols': seq<Col>, used': nat)
    requires rect.si <= x < rect.ei <= |cols0| && rect.sj <= rect.ej && Tall(cols0, rect.ej)
    requires |ks| == BombDraws(rect) && Drawn(ks)
    requires used == Area(x - rect.si, 2 * (rect.ej - rect.sj)) && used <= |ks|
    requires cols == cols0[..rect.si] + BombColumns(cols0[rect.si..x], rect.sj, rect.ej, ks[..used]) + cols0[x..]
    ensures used' == Area(x + 1 - rect.si, 2 * (rect.ej - rect.sj)) && used' <= |ks|
    ensures cols' == cols0[..rect.si] + BombColumns(cols0[rect.si..x + 1], rect.sj, rect.ej, ks[..used']) + cols0[x + 1..]
  {
    var k2 := 2 * (rect.ej - rect.sj);
    BombLoopStep(cols0, rect, ks, x, used, cols);
    var c := BombColumn(cols[x], rect.sj, rect.ej, ks[used..used + k2]);
    cols' := cols[x := c];
    used' := used + k2;
  }

  /** One turn of the column loop: bombing column x extends the bombed prefix by it. */
  lemma BombLoopStep(cols0: seq<Col>, rect: Rect, ks: seq<nat>, x: nat, used: nat, cols: seq<Col>)
    requires rect.si <= x < rect.ei <= |cols0| && rect.sj <= rect.ej && Tall(cols0, rect.ej)
    requires |ks| == BombDraws(rect) && Drawn(ks)
    requires used == Area(x - rect.si, 2 * (rect.ej - rect.sj)) && used <= |ks|
    requires cols == cols0[..rect.si] + BombColumns(cols0[rect.si..x], rect.sj, rect.ej, ks[..used]) + cols0[x..]
    ensures var k2 := 2 * (rect.ej - rect.sj);
      x < |cols| && cols[x] == cols0[x] && used + k2 <= |ks| && Masks(ks[used..used + k2])
      && used + k2 == Area(x + 1 - rect.si, k2)
      && cols[x := BombedColumn(cols[x], rect.sj, rect.ej, ks[used..used + k2])]
         == cols0[..rect.si] + BombColumns(cols0[rect.si..x + 1], rect.sj, rect.ej, ks[..used + k2]) + cols0[x + 1..]
  {
    var k2 := 2 * (rect.ej - rect.sj);
    SliceOfSlice(cols0, rect.si, x, x + 1);
    AreaMonotone(x + 1 - rect.si, rect.ei - rect.si, k2);
    SliceOfSlice(ks, 0, used, used + k2);
    assert ks[..used + k2][used..] == ks[used..used + k2];
    assert cols0[x..] == [cols0[x]] + cols0[x + 1..];
  }

  lemma SliceOfSlice<T>(s: seq<T>, i: nat, j: nat, k: nat)
    requires i <= j <= k <= |s|
    ensures s[i..k][..j - i] == s[i..j]
  {
  }

  /** Outside the rectangle's columns nothing changes; inside, every column is bombed. */
  lemma BombedColumnsEffect(cols: seq<Col>, rect: Rect, ks: seq<nat>)
    requires rect.si <= rect.ei <= |cols| && rect.sj <= rect.ej && Tall(cols, rect.ej)
    requires |ks| == BombDraws(rect) && Drawn(ks)
    ensures var r := BombedColumns(cols, rect, ks);
      (forall x :: 0 <= x < |cols| && (x < rect.si || rect.ei <= x) ==> r[x] == cols[x])
      && (forall x :: rect.si <= x < rect.ei ==> Bombed(cols[x], r[x], rect.sj, rect.ej))
  {
    var r := BombedColumns(cols, rect, ks);
    var bc := BombColumns(cols[rect.si..rect.ei], rect.sj, rect.ej, ks);
    BombColumnsBombed(cols[rect.si..rect.ei], rect.sj, rect.ej, ks);
    forall x | rect.si <= x < rect.ei ensures Bombed(cols[x], r[x], rect.sj, rect.ej) {
      assert r[x] == bc[x - rect.si];
    }
  }

  /**
   * `bomb_table`: nothing happens when (ati, atj) is off the board;
   * otherwise every column of the clamped rectangle is bombed in turn,
   * taking 2k draws each.
   */
  method BombTable(b: Board, ati: nat, atj: nat, dx: nat, dy: nat) returns (r: Board)
    requires Valid(b)
    ensures r == BombSpec(b, ati, atj, dx, dy)
  {
    if ati >= b.width || atj >= b.height {
      return b;
    }
    var rect := BombRect(b.width, b.height, ati, atj, dx, dy);
    var d := NewElements(b.gen, BombDraws(rect));
    var cols := BombColumnsLoop(Columns(b.grid), rect, d.ks);
    r := b.(grid := FromColumns(cols, b.height), gen := d.gen);
  }

  /**
   * The bomb's effect: off the board nothing changes; otherwise the columns
   * of the clamped rectangle are bombed, every other column, the markings
   * and the multipliers are unchanged, and 2k tiles are drawn per column.
   */
  lemma BombSpecColumns(b: Board, ati: nat, atj: nat, dx: nat, dy: nat)
    requires Valid(b)
    ensures ati >= b.width || atj >= b.height ==> BombSpec(b, ati, atj, dx, dy) == b
    ensures ati < b.width && atj < b.height ==>
      var rect := BombRect(b.width, b.height, ati, atj, dx, dy);
      var r := BombSpec(b, ati, atj, dx, dy);
      r.markings == b.markings && r.multLeft == b.multLeft && r.multRight == b.multRight
      && (forall x: nat :: x < b.width && (x < rect.si || rect.ei <= x) ==> Column(r.grid, x) == Column(b.grid, x))
      && (forall x: nat :: rect.si <= x < rect.ei ==> Bombed(Column(b.grid, x), Column(r.grid, x), rect.sj, rect.ej))
      && r.gen.newElements == b.gen.newElements + BombDraws(rect)
  {
    if ati < b.width && atj < b.height {
      var rect := BombRect(b.width, b.height, ati, atj, dx, dy);
      var d := NewElements(b.gen, BombDraws(rect));
      BombedColumnsEffect(Columns(b.grid), rect, d.ks);
    }
  }
}
