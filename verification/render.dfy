/**
 * What a frame draws (zapzap/src/state.rs, `rebuild_render_buffer` and
 * `build_multiplier_lights`): the order and number of sprites, the atlas
 * column of every tile and its alpha. Screen positions, rotations and
 * scales are floating point and are not modelled.
 */
module Render {
  import opened Seqs
  import opened Components
  import opened Grid
  import opened GameBoard
  import opened Gravity
  import opened Bonus
  import opened Zap
  import opened Phases
  import Effects

  /** One instance of the render buffer. */
  datatype RenderItem =
    | PinSprite(right: bool, row: nat)
    | TileSprite(x: nat, y: nat, atlasCol: nat, alpha: real)
    | BonusSprite(bonus: FallingBonus)
    | RotateOverlay(x: nat, y: nat, byBot: bool)

  /** `tile_atlas_col`: the atlas column drawing the tile's mask; the mask can be read back from it. */
  function TileAtlasCol(t: Tile): (c: nat)
    ensures c < 16 && CODEP_MASK[c] == t.connections as int
  {
    CodepIsPermutation();
    GRID_CODEP[t.connections as int]
  }

  /** Different masks are drawn from different atlas columns. */
  lemma AtlasColInjective(t: Tile, u: Tile)
    requires TileAtlasCol(t) == TileAtlasCol(u)
    ensures t == u
  {
    assert t.connections as int == u.connections as int;
  }

  /**
   * The alpha of a tile: hidden while it is about to be zapped or bombed,
   * otherwise brighter when connected and faint while animating.
   */
  function TileAlpha(phase: Phase, m: Marking, bombed: bool): (a: real)
    ensures a == 0.0 <==> (m == Ok && phase == FreezeDuringZap) || (phase == FreezeDuringBomb && bombed)
    ensures a != 0.0 ==> (a == 1.5 <==> m == Ok) && (a == 0.3 <==> m == Animating)
    ensures a != 0.0 ==> (a == 1.0 <==> m == Left || m == Right || m == Unmarked)
  {
    if m == Ok && phase == FreezeDuringZap then 0.0
    else if phase == FreezeDuringBomb && bombed then 0.0
    else match m
      case Ok => 1.5
      case Right => 1.0
      case Left => 1.0
      case Animating => 0.3
      case Unmarked => 1.0
  }

  /** `is_pending_bomb_tile`: a deferred bomb's clamped rectangle holds (x, y). */
  predicate PendingBombTile(b: Board, pending: Option<BombParams>, x: nat, y: nat) {
    pending.Some? &&
    var p := pending.value;
    InRect(AffectedRect(b.width, b.height, p.tx, p.ty, p.dx, p.dy), x, y)
  }

  /** The occupied cells of the board `bomb_affected_positions` reports for a deferred bomb. */
  function PendingCells(b: Board, p: BombParams): seq<(nat, nat)>
    requires Valid(b)
  {
    var rect := AffectedRect(b.width, b.height, p.tx, p.ty, p.dx, p.dy);
    RectCells(b.grid, rect, rect.ei)
  }

  /** The tiles hidden while a bomb is pending are exactly the cells the bomb reports as hit. */
  lemma HiddenAreBombed(b: Board, p: BombParams, x: nat, y: nat)
    requires Valid(b) && At(b.grid, x, y).Some?
    ensures PendingBombTile(b, Some(p), x, y) <==> (x, y) in PendingCells(b, p)
  {
    var rect := AffectedRect(b.width, b.height, p.tx, p.ty, p.dx, p.dy);
    RectCellsMembers(b.grid, rect, rect.ei, (x, y));
  }

  /** The sprite of an occupied cell. */
  function SpriteOf(b: Board, phase: Phase, pending: Option<BombParams>, x: nat, y: nat): RenderItem
    requires Valid(b) && At(b.grid, x, y).Some?
  {
    IdxInRange(b.width, b.height, x, y);
    TileSprite(x, y, TileAtlasCol(At(b.grid, x, y).value),
      TileAlpha(phase, MarkingAt(b, x, y), PendingBombTile(b, pending, x, y)))
  }

  /** All cells of the board. */
  function BoardRect(b: Board): Rect {
    Rect(0, b.width, 0, b.height)
  }

  ghost predicate Occupied(b: Board, cells: seq<(nat, nat)>)
    requires Valid(b)
  {
    forall i :: 0 <= i < |cells| ==> At(b.grid, cells[i].0, cells[i].1).Some?
  }

  /** The sprites of a run of occupied cells, in order. */
  function Sprites(b: Board, phase: Phase, pending: Option<BombParams>, cells: seq<(nat, nat)>): (r: seq<RenderItem>)
    requires Valid(b) && Occupied(b, cells)
    ensures |r| == |cells|
    decreases |cells|
  {
    if |cells| == 0 then []
    else
      var n := |cells| - 1;
      Sprites(b, phase, pending, cells[..n]) + [SpriteOf(b, phase, pending, cells[n].0, cells[n].1)]
  }

  /** The occupied cells of the rectangle's first x columns, column by column. */
  lemma RectCellsOccupied(b: Board, r: Rect, x: nat)
    requires Valid(b)
    ensures Occupied(b, RectCells(b.grid, r, x))
  {
    var cs := RectCells(b.grid, r, x);
    forall i | 0 <= i < |cs| ensures At(b.grid, cs[i].0, cs[i].1).Some? {
      if x <= r.ei {
        RectCellsMembers(b.grid, r, x, cs[i]);
      } else {
        RectCellsMembers(b.grid, r.(ei := x), x, cs[i]);
        assert RectCells(b.grid, r, x) == RectCells(b.grid, r.(ei := x), x) by {
          RectCellsSameColumns(b.grid, r, r.(ei := x), x);
        }
      }
    }
  }

  /** The listing of a rectangle's columns does not depend on where the rectangle ends. */
  lemma {:induction false} RectCellsSameColumns(g: Grid, r: Rect, r': Rect, x: nat)
    requires ValidGrid(g) && r.si == r'.si && r.sj == r'.sj && r.ej == r'.ej
    ensures RectCells(g, r, x) == RectCells(g, r', x)
    decreases x
  {
    if x > r.si {
      RectCellsSameColumns(g, r, r', x - 1);
    }
  }

  /** The tile sprites: one per occupied cell, column by column, top down. */
  function TileSprites(b: Board, phase: Phase, pending: Option<BombParams>): seq<RenderItem>
    requires Valid(b)
  {
    RectCellsOccupied(b, BoardRect(b), b.width);
    Sprites(b, phase, pending, RectCells(b.grid, BoardRect(b), b.width))
  }

  /** A column of pins, top row first. */
  function Pins(right: bool, h: nat): (r: seq<RenderItem>)
    ensures |r| == h && forall y :: 0 <= y < h ==> r[y] == PinSprite(right, y)
  {
    seq(h, y requires 0 <= y < h => PinSprite(right, y))
  }

  /** The rotation arrows: one per running rotation, drawn only while a tile is turning. */
  function Overlays(phase: Phase, rotations: seq<RotateAnim>): (r: seq<RenderItem>)
    ensures phase != RotatingTile ==> r == []
    ensures phase == RotatingTile ==> (|r| == |rotations|
      && forall i :: 0 <= i < |r| ==> r[i] == RotateOverlay(rotations[i].x, rotations[i].y, rotations[i].byBot))
  {
    if phase != RotatingTile then []
    else seq(|rotations|, i requires 0 <= i < |rotations| => RotateOverlay(rotations[i].x, rotations[i].y, rotations[i].byBot))
  }

  function BonusSprites(bonuses: BonusState): (r: seq<RenderItem>)
    ensures |r| == |AllBonuses(bonuses)|
    ensures forall i :: 0 <= i < |r| ==> r[i] == BonusSprite(AllBonuses(bonuses)[i])
  {
    var all := AllBonuses(bonuses);
    seq(|all|, i requires 0 <= i < |all| => BonusSprite(all[i]))
  }

  /** The whole buffer: left pins, tiles, right pins, bonuses, rotation arrows. */
  function RenderBuffer(b: Board, phase: Phase, pending: Option<BombParams>, bonuses: BonusState, rotations: seq<RotateAnim>): seq<RenderItem>
    requires Valid(b)
  {
    Pins(false, b.height) + TileSprites(b, phase, pending) + Pins(true, b.height)
    + BonusSprites(bonuses) + Overlays(phase, rotations)
  }

  /** `rebuild_render_buffer`, section by section in the source's order. */
  method RebuildRenderBuffer(b: Board, phase: Phase, pending: Option<BombParams>, bonuses: BonusState, rotations: seq<RotateAnim>)
    returns (buf: seq<RenderItem>)
    requires Valid(b)
    ensures buf == RenderBuffer(b, phase, pending, bonuses, rotations)
  {
    var left := PushPins(false, b.height);
    var tiles := PushTiles(b, phase, pending);
    var right := PushPins(true, b.height);
    var sprites := PushBonuses(bonuses);
    var arrows := [];
    if phase == RotatingTile {
      arrows := PushOverlays(rotations);
    }
    assert arrows == Overlays(phase, rotations);
    buf := left + tiles + right + sprites + arrows;
  }

  method PushBonuses(bonuses: BonusState) returns (sprites: seq<RenderItem>)
    ensures sprites == BonusSprites(bonuses)
  {
    var all := AllBonuses(bonuses);
    var i := 0;
    sprites := [];
    while i < |all|
      invariant i <= |all| && sprites == BonusSprites(bonuses)[..i]
    {
      sprites := sprites + [BonusSprite(all[i])];
      i := i + 1;
    }
  }

  method PushOverlays(rotations: seq<RotateAnim>) returns (arrows: seq<RenderItem>)
    ensures arrows == Overlays(RotatingTile, rotations)
  {
    arrows := [];
    var i := 0;
    while i < |rotations|
      invariant i <= |rotations| && arrows == Overlays(RotatingTile, rotations)[..i]
    {
      arrows := arrows + [RotateOverlay(rotations[i].x, rotations[i].y, rotations[i].byBot)];
      i := i + 1;
    }
  }

  method PushPins(right: bool, h: nat) returns (pins: seq<RenderItem>)
    ensures pins == Pins(right, h)
  {
    pins := [];
    var y := 0;
    while y < h
      invariant y <= h && pins == Pins(right, h)[..y]
    {
      pins := pins + [PinSprite(right, y)];
      y := y + 1;
    }
  }

  /** The tile loop: every column, every row, a sprite for each occupied cell. */
  method PushTiles(b: Board, phase: Phase, pending: Option<BombParams>) returns (sprites: seq<RenderItem>)
    requires Valid(b)
    ensures sprites == TileSprites(b, phase, pending)
  {
    var r := BoardRect(b);
    var cells := [];
    sprites := [];
    var x := 0;
    while x < b.width
      invariant x <= b.width && cells == RectCells(b.grid, r, x)
      invariant Occupied(b, cells) && sprites == Sprites(b, phase, pending, cells)
    {
      var column := ScanColumn(b.grid, x, 0, b.height);
      ColumnCellsOccupied(b, x, b.height);
      sprites := PushColumn(b, phase, pending, cells, column, sprites);
      cells := cells + column;
      x := x + 1;
    }
  }

  /** The inner loop of the tile section: the sprites of one column's occupied cells. */
  method PushColumn(b: Board, phase: Phase, pending: Option<BombParams>, cells: seq<(nat, nat)>, column: seq<(nat, nat)>,
                    sprites: seq<RenderItem>) returns (sprites': seq<RenderItem>)
    requires Valid(b) && Occupied(b, cells) && sprites == Sprites(b, phase, pending, cells)
    requires forall i :: 0 <= i < |column| ==> At(b.grid, column[i].0, column[i].1).Some?
    ensures Occupied(b, cells + column) && sprites' == Sprites(b, phase, pending, cells + column)
  {
    sprites' := sprites;
    var y := 0;
    assert cells + column[..0] == cells;
    while y < |column|
      invariant y <= |column| && Occupied(b, cells + column[..y])
      invariant sprites' == Sprites(b, phase, pending, cells + column[..y])
    {
      var c := column[y];
      assert column[..y + 1] == column[..y] + [c];
      AppendAssoc(cells, column[..y], [c]);
      sprites' := sprites' + [SpriteOf(b, phase, pending, c.0, c.1)];
      y := y + 1;
    }
    assert column[..y] == column;
  }

  lemma ColumnCellsOccupied(b: Board, x: nat, y: nat)
    requires Valid(b)
    ensures forall i :: 0 <= i < |ColumnCells(b.grid, x, 0, y)| ==>
      At(b.grid, ColumnCells(b.grid, x, 0, y)[i].0, ColumnCells(b.grid, x, 0, y)[i].1).Some?
  {
    var cs := ColumnCells(b.grid, x, 0, y);
    forall i | 0 <= i < |cs| ensures At(b.grid, cs[i].0, cs[i].1).Some? {
      ColumnCellsMembers(b.grid, x, 0, y, cs[i]);
    }
  }

  /** In a full column every row has a cell. */
  lemma {:induction false} FullColumnCount(b: Board, x: nat, y: nat)
    requires Valid(b) && Full(b) && x < b.width && y <= b.height
    ensures |ColumnCells(b.grid, x, 0, y)| == y
    decreases y
  {
    if y > 0 {
      FullColumnCount(b, x, y - 1);
    }
  }

  /** A full board has a tile sprite for each of its cells. */
  lemma {:induction false} FullBoardCount(b: Board, x: nat)
    requires Valid(b) && Full(b) && x <= b.width
    ensures |RectCells(b.grid, BoardRect(b), x)| == Area(x, b.height)
    decreases x
  {
    if x > 0 {
      FullBoardCount(b, x - 1);
      FullColumnCount(b, x - 1, b.height);
    }
  }

  /**
   * The buffer's layout: `height` left pins, the tile sprites, `height`
   * right pins, every bonus, then the arrows of a turning tile. A full
   * board without bonuses outside `RotatingTile` draws w*h + 2h sprites.
   */
  lemma RenderLayout(b: Board, phase: Phase, pending: Option<BombParams>, bonuses: BonusState, rotations: seq<RotateAnim>)
    requires Valid(b)
    ensures var buf := RenderBuffer(b, phase, pending, bonuses, rotations);
      var n := |TileSprites(b, phase, pending)|;
      && |buf| == 2 * b.height + n + |bonuses.falling| + |bonuses.landed| + (if phase == RotatingTile then |rotations| else 0)
      && (forall y :: 0 <= y < b.height ==> buf[y] == PinSprite(false, y) && buf[b.height + n + y] == PinSprite(true, y))
    ensures Full(b) && IsEmpty(bonuses) && phase != RotatingTile ==>
      |RenderBuffer(b, phase, pending, bonuses, rotations)| == b.width * b.height + 2 * b.height
  {
    var tiles := TileSprites(b, phase, pending);
    var tail := BonusSprites(bonuses) + Overlays(phase, rotations);
    AppendAssoc(Pins(false, b.height) + tiles + Pins(true, b.height), BonusSprites(bonuses), Overlays(phase, rotations));
    PinsAround(b.height, tiles, tail);
    if Full(b) {
      FullBoardCount(b, b.width);
      AreaIsProduct(b.width, b.height);
    }
  }

  /** Left pins, then the tiles, then right pins: pin y sits at y on the left and h + |tiles| + y on the right. */
  lemma PinsAround(h: nat, tiles: seq<RenderItem>, tail: seq<RenderItem>)
    ensures var buf := Pins(false, h) + tiles + Pins(true, h) + tail;
      forall y :: 0 <= y < h ==> buf[y] == PinSprite(false, y) && buf[h + |tiles| + y] == PinSprite(true, y)
  {
    var buf := Pins(false, h) + tiles + Pins(true, h) + tail;
    forall y | 0 <= y < h
      ensures buf[y] == PinSprite(false, y) && buf[h + |tiles| + y] == PinSprite(true, y)
    {
      assert buf[y] == Pins(false, h)[y];
      assert buf[h + |tiles| + y] == Pins(true, h)[y];
    }
  }

  /** Every occupied cell is drawn once, with its tile's atlas column and its alpha, and nothing else is drawn as a tile. */
  lemma TileSpritesMembers(b: Board, phase: Phase, pending: Option<BombParams>, x: nat, y: nat, col: nat, alpha: real)
    requires Valid(b)
    ensures TileSprite(x, y, col, alpha) in TileSprites(b, phase, pending) <==>
      At(b.grid, x, y).Some? && col == TileAtlasCol(At(b.grid, x, y).value)
      && alpha == TileAlpha(phase, MarkingAt(b, x, y), PendingBombTile(b, pending, x, y))
  {
    var cells := RectCells(b.grid, BoardRect(b), b.width);
    RectCellsOccupied(b, BoardRect(b), b.width);
    SpritesMembers(b, phase, pending, cells, x, y, col, alpha);
    RectCellsMembers(b.grid, BoardRect(b), b.width, (x, y));
  }

  lemma {:induction false} SpritesMembers(b: Board, phase: Phase, pending: Option<BombParams>, cells: seq<(nat, nat)>,
                                          x: nat, y: nat, col: nat, alpha: real)
    requires Valid(b) && Occupied(b, cells)
    ensures TileSprite(x, y, col, alpha) in Sprites(b, phase, pending, cells) <==>
      (x, y) in cells && At(b.grid, x, y).Some? && col == TileAtlasCol(At(b.grid, x, y).value)
      && alpha == TileAlpha(phase, MarkingAt(b, x, y), PendingBombTile(b, pending, x, y))
    decreases |cells|
  {
    if |cells| > 0 {
      var n := |cells| - 1;
      SpritesMembers(b, phase, pending, cells[..n], x, y, col, alpha);
      assert cells == cells[..n] + [cells[n]];
    }
  }

  // ---------------------------------------------------------------------
  // build_multiplier_lights
  // ---------------------------------------------------------------------

  /** The lights beside one pin: its multiplier, or none when it is not positive. */
  function LightsOf(m: int): nat {
    if m > 0 then m else 0
  }

  /** The lights beside the pins of rows 0..n-1, both sides. */
  function Lights(b: Board, n: nat): nat
    requires Valid(b) && n <= b.height
  {
    if n == 0 then 0 else Lights(b, n - 1) + LightsOf(b.multLeft[n - 1]) + LightsOf(b.multRight[n - 1])
  }

  /** One light: a two-point strip in `color`, as a triangle list. */
  method LightTriangles(color: Effects.SegmentColor) returns (tris: seq<Effects.StripVertex>)
    ensures |tris| == 18
    ensures forall i :: 0 <= i < 18 ==> tris[i].z == Effects.ColorIndex(color)
  {
    var strip := Effects.BuildStripVertices(2, color);
    tris := Effects.StripToTriangles(strip);
    forall i | 0 <= i < 18 ensures tris[i].z == Effects.ColorIndex(color) {
      var t, c := i / 3, i % 3;
      assert i == 3 * t + c;
      assert tris[3 * t + c] == strip[Effects.Corner(t, c)];
    }
  }

  /** `count` lights of one colour. */
  method LightRun(buf: seq<Effects.StripVertex>, count: nat, color: Effects.SegmentColor) returns (buf': seq<Effects.StripVertex>)
    ensures |buf'| == |buf| + 18 * count && buf'[..|buf|] == buf
    ensures forall i :: |buf| <= i < |buf'| ==> buf'[i].z == Effects.ColorIndex(color)
  {
    buf' := buf;
    var i := 0;
    while i < count
      invariant i <= count && |buf'| == |buf| + 18 * i && buf'[..|buf|] == buf
      invariant forall k :: |buf| <= k < |buf'| ==> buf'[k].z == Effects.ColorIndex(color)
    {
      var tris := LightTriangles(color);
      buf' := buf' + tris;
      i := i + 1;
    }
  }

  /**
   * `build_multiplier_lights`: for each row, `max(multiplier, 0)` magenta
   * lights by the left pin, then as many orange lights by the right pin,
   * each a two-point strip of 18 triangle-list vertices.
   */
  method AddMultiplierLights(b: Board, buf: seq<Effects.StripVertex>) returns (buf': seq<Effects.StripVertex>)
    requires Valid(b)
    ensures |buf'| == |buf| + 18 * Lights(b, b.height) && buf'[..|buf|] == buf
    ensures forall i :: |buf| <= i < |buf'| ==>
      buf'[i].z == Effects.ColorIndex(Effects.Magenta) || buf'[i].z == Effects.ColorIndex(Effects.Orange)
  {
    buf' := buf;
    var y := 0;
    while y < b.height
      invariant y <= b.height && |buf'| == |buf| + 18 * Lights(b, y) && buf'[..|buf|] == buf
      invariant forall i :: |buf| <= i < |buf'| ==>
        buf'[i].z == Effects.ColorIndex(Effects.Magenta) || buf'[i].z == Effects.ColorIndex(Effects.Orange)
    {
      var before := buf';
      buf' := LightRun(buf', LightsOf(b.multLeft[y]), Effects.Magenta);
      buf' := LightRun(buf', LightsOf(b.multRight[y]), Effects.Orange);
      assert buf'[..|buf|] == before[..|buf|];
      y := y + 1;
    }
  }

  /** With every multiplier at least one, each pin shows at least one light. */
  lemma {:induction false} LightsAtLeastPins(b: Board, n: nat)
    requires Valid(b) && n <= b.height
    requires forall y :: 0 <= y < n ==> b.multLeft[y] >= 1 && b.multRight[y] >= 1
    ensures Lights(b, n) >= 2 * n
    decreases n
  {
    if n > 0 {
      LightsAtLeastPins(b, n - 1);
    }
  }
}
