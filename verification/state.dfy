/**
 * The game state machine (zapzap/src/state.rs): one game of zapzap, its
 * phases, and what a frame, a tap and a bot move do to it. Floating-point
 * timers and animation physics are not modelled: each `Frame` says which
 * animations finished, whether the freeze expired and whether the bot is
 * still waiting out its delay.
 */
module State {
  import opened Seqs
  import opened Components
  import opened Grid
  import opened Random
  import opened GameBoard
  import opened Connectivity
  import opened Connections
  import opened Gravity
  import opened Bot
  import opened Bonus
  import opened Scoring
  import opened Zap
  import opened Phases
  import opened Render
  import Effects

  /** `GameState` without its timers; `render` is the sprite buffer the host draws. */
  datatype GameState = GameState(
    board: Board,
    phase: Phase,
    mode: GameMode,
    scores: Scores,
    botEnabled: bool,
    anims: Anims,
    effects: Effects.EffectsState,
    bonuses: BonusState,
    powerLeft: Inventory,
    powerRight: Inventory,
    pendingBonus: Drops,
    pendingBomb: Option<BombParams>,
    render: seq<RenderItem>,
    sounds: seq<SoundEvent>,
    popups: seq<Popup>,
    pendingTap: Option<(nat, nat)>)

  /**
   * What the host's clock decides in one frame: `dt`, which running
   * rotations and falls finished (by index), which falling drops are still
   * in the air, whether the freeze timer ran out, whether the bot's
   * thinking delay is still running, and the arcs' random displacement.
   */
  datatype Frame = Frame(
    dt: real,
    rotationFinished: nat -> bool,
    fallFinished: nat -> bool,
    stillFalling: nat -> bool,
    freezeExpired: bool,
    botWaiting: bool,
    displace: Effects.Displacer)

  /**
   * What every operation keeps: a full board of drawable size with
   * multipliers of at least 1, drops and taps on the board, equal scores in
   * Zen mode, the bot playing exactly in VsBot mode, and an armed power-up
   * that is held.
   */
  ghost predicate Inv(s: GameState) {
    var w, h := s.board.width, s.board.height;
    && Valid(s.board) && Full(s.board) && Drawable(w, h)
    && MultipliersPositive(s.board)
    && Effects.ValidEffects(s.effects)
    && Inside(s.bonuses.falling, w, h) && Inside(s.bonuses.landed, w, h)
    && (s.pendingTap.Some? ==> s.pendingTap.value.0 < w && s.pendingTap.value.1 < h)
    && (s.pendingBomb.Some? ==> s.pendingBomb.value.tx < w && s.pendingBomb.value.ty < h)
    && (s.mode == Zen ==> s.scores.left == s.scores.right)
    && s.botEnabled == (s.mode == VsBot)
    && ArmedIsHeld(s.powerLeft) && ArmedIsHeld(s.powerRight)
  }

  /** Scores and multipliers never go down. */
  ghost predicate Grows(s: GameState, r: GameState) {
    && r.scores.left >= s.scores.left && r.scores.right >= s.scores.right
    && |r.board.multLeft| == |s.board.multLeft| && |r.board.multRight| == |s.board.multRight|
    && (forall y :: 0 <= y < |s.board.multLeft| ==> r.board.multLeft[y] >= s.board.multLeft[y])
    && (forall y :: 0 <= y < |s.board.multRight| ==> r.board.multRight[y] >= s.board.multRight[y])
  }

  /** A step that leaves the scores and multipliers alone, followed by one that grows them, grows them. */
  lemma GrowsAfter(s: GameState, t: GameState, r: GameState)
    requires t.scores == s.scores && t.board.multLeft == s.board.multLeft && t.board.multRight == s.board.multRight
    requires Grows(t, r)
    ensures Grows(s, r)
  {
  }

  lemma GrowsTransitive(a: GameState, b: GameState, c: GameState)
    requires Grows(a, b) && Grows(b, c)
    ensures Grows(a, c)
  {
  }

  /** A left pin is joined to a right pin through the grid. */
  ghost predicate Zapped(g: Grid)
    requires ValidGrid(g)
  {
    exists j1: nat, j2: nat :: PinsJoined(g, j1, j2)
  }

  /** A full board of the same size whose multipliers are at least 1 can replace the board. */
  lemma InvBoard(s: GameState, b: Board)
    requires Inv(s) && Valid(b) && Full(b) && MultipliersPositive(b)
    requires b.width == s.board.width && b.height == s.board.height
    ensures Inv(s.(board := b))
  {
  }

  // ---------------------------------------------------------------------
  // Helpers about drops on the board
  // ---------------------------------------------------------------------

  /** Drops inside the board have their marking's flat index on the board. */
  lemma InsideOnBoard(b: Board, xs: seq<FallingBonus>)
    requires Valid(b) && Inside(xs, b.width, b.height)
    ensures OnBoard(b, xs)
  {
    forall i | 0 <= i < |xs| ensures Idx(b.height, xs[i].tileX, xs[i].tileY) < |b.markings| {
      IdxInRange(b.width, b.height, xs[i].tileX, xs[i].tileY);
    }
  }

  /** Drops taken from drops inside the board are inside it too. */
  lemma InsideSub(xs: seq<FallingBonus>, ys: seq<FallingBonus>, w: nat, h: nat)
    requires Inside(ys, w, h) && multiset(xs) <= multiset(ys)
    ensures Inside(xs, w, h)
  {
    forall i | 0 <= i < |xs| ensures xs[i].tileX < w && xs[i].tileY < h {
      assert xs[i] in multiset(ys);
      var j :| 0 <= j < |ys| && ys[j] == xs[i];
    }
  }

  lemma InsideJoin(xs: seq<FallingBonus>, ys: seq<FallingBonus>, w: nat, h: nat)
    requires Inside(xs, w, h) && Inside(ys, w, h)
    ensures Inside(xs + ys, w, h)
  {
    forall i | 0 <= i < |xs + ys| ensures (xs + ys)[i].tileX < w && (xs + ys)[i].tileY < h {
      if i >= |xs| {
        assert (xs + ys)[i] == ys[i - |xs|];
      }
    }
  }

  // ---------------------------------------------------------------------
  // Score ceilings
  // ---------------------------------------------------------------------

  /** The largest of the multipliers `ms`, or 0. */
  function Ceiling(ms: seq<int>): (c: int)
    ensures c >= 0
    ensures forall y :: 0 <= y < |ms| ==> ms[y] <= c
    decreases |ms|
  {
    if |ms| == 0 then 0
    else
      var n := |ms| - 1;
      var c := Ceiling(ms[..n]);
      assert forall y :: 0 <= y < n ==> ms[..n][y] == ms[y];
      if ms[n] > c then ms[n] else c
  }

  /** Multipliers bounded by `top` have a ceiling bounded by `top`. */
  lemma {:induction false} CeilingAtMost(ms: seq<int>, top: int)
    requires top >= 0 && forall y :: 0 <= y < |ms| ==> ms[y] <= top
    ensures Ceiling(ms) <= top
    decreases |ms|
  {
    if |ms| > 0 {
      var n := |ms| - 1;
      assert forall y :: 0 <= y < n ==> ms[..n][y] == ms[y];
      CeilingAtMost(ms[..n], top);
    }
  }

  /** The largest multiplier on either side. */
  function Top(ml: seq<int>, mr: seq<int>): (t: int)
    ensures t >= 0
    ensures forall y :: 0 <= y < |ml| ==> ml[y] <= t
    ensures forall y :: 0 <= y < |mr| ==> mr[y] <= t
  {
    var l, r := Ceiling(ml), Ceiling(mr);
    if l > r then l else r
  }

  /** How far one round of multiplier scoring can raise a score on a board of height h. */
  function Cap(h: nat, ml: seq<int>, mr: seq<int>): (c: int)
    ensures c >= 0
  {
    var perSide := h * Top(ml, mr);
    perSide + perSide
  }

  /**
   * How far one connection check can raise a score: the points of the
   * landed drops plus, per row, both pins' multipliers (Zen mode credits
   * both sides' gains to each score).
   */
  ghost predicate ScoreBound(s: GameState, r: GameState) {
    var cap := PointsOf(s.bonuses.landed) + Cap(s.board.height, s.board.multLeft, s.board.multRight);
    r.scores.left <= s.scores.left + cap && r.scores.right <= s.scores.right + cap
  }

  /** Multiplier scoring raises each score by at most both sides' multipliers per row, and never lowers one. */
  lemma ScoringCap(b: Board, mode: GameMode, s: Scores, s': Scores)
    requires Valid(b) && 0 < b.width && MultipliersPositive(b)
    requires mode == Zen ==>
      s'.left == s.left + LeftGain(b, b.height) + RightGain(b, b.height)
      && s'.right == s.right + LeftGain(b, b.height) + RightGain(b, b.height)
    requires mode == VsBot ==> s' == Scores(s.left + LeftGain(b, b.height), s.right + RightGain(b, b.height))
    ensures s.left <= s'.left <= s.left + Cap(b.height, b.multLeft, b.multRight)
    ensures s.right <= s'.right <= s.right + Cap(b.height, b.multLeft, b.multRight)
    ensures mode == Zen ==> s'.left - s.left == s'.right - s.right
  {
    var top := Top(b.multLeft, b.multRight);
    GainBounds(b, b.height, top);
    var lg, rg, cap := LeftGain(b, b.height), RightGain(b, b.height), b.height * top;
    assert 0 <= lg <= cap && 0 <= rg <= cap;
    assert Cap(b.height, b.multLeft, b.multRight) == cap + cap;
  }

  // ---------------------------------------------------------------------
  // queue_tap
  // ---------------------------------------------------------------------

  /** `queue_tap`: a tap on the board replaces any earlier queued tap; one off the board is ignored. */
  function QueueTap(s: GameState, x: nat, y: nat): (r: GameState)
    ensures r == s.(pendingTap := r.pendingTap)
    ensures r.pendingTap == (if x < s.board.width && y < s.board.height then Some((x, y)) else s.pendingTap)
    ensures Inv(s) ==> Inv(r)
  {
    if x < s.board.width && y < s.board.height then s.(pendingTap := Some((x, y))) else s
  }

  /** Of two taps in one frame only the later one on the board counts. */
  lemma LaterTapWins(s: GameState, x: nat, y: nat, x': nat, y': nat)
    requires x' < s.board.width && y' < s.board.height
    ensures QueueTap(QueueTap(s, x, y), x', y') == s.(pendingTap := Some((x', y')))
  {
  }

  // ---------------------------------------------------------------------
  // check_and_transition
  // ---------------------------------------------------------------------

  /** `check_connections` on a full board: settled markings, and whether the pins are joined. */
  method RunCheck(b: Board) returns (r: Board, zap: bool)
    requires Valid(b) && Full(b) && Drawable(b.width, b.height)
    ensures r == Settle(b) && Valid(r) && Full(r)
    ensures zap <==> Zapped(b.grid)
  {
    var result;
    r, result := CheckConnections(b);
    ResultMeansConnected(b, r, result);
    CheckedIsSettled(b, r);
    zap := result != 0;
  }

  /** `collect_landed_bonuses` inside the game: credit and grant what lies on marked cells. */
  method Collect(s: GameState) returns (r: GameState)
    requires Inv(s)
    ensures Inv(r)
    ensures r == s.(bonuses := r.bonuses, scores := r.scores, powerLeft := r.powerLeft, powerRight := r.powerRight,
                    sounds := r.sounds, popups := r.popups)
    ensures r.bonuses.falling == s.bonuses.falling && multiset(r.bonuses.landed) <= multiset(s.bonuses.landed)
    ensures r.powerLeft.armed == s.powerLeft.armed && r.powerRight.armed == s.powerRight.armed
    ensures r.scores.left >= s.scores.left && r.scores.right >= s.scores.right
    ensures r.scores.left <= s.scores.left + PointsOf(s.bonuses.landed)
    ensures r.scores.right <= s.scores.right + PointsOf(s.bonuses.landed)
  {
    var b, xs := s.board, s.bonuses.landed;
    InsideOnBoard(b, xs);
    var c := CollectLandedBonuses(b, s.bonuses, s.mode, s.scores, s.powerLeft, s.powerRight);
    CollectionBounds(b, xs, s.mode, s.scores, c.scores);
    InsideSub(c.bonuses.landed, xs, b.width, b.height);
    r := s.(bonuses := c.bonuses, scores := c.scores, powerLeft := c.powerLeft, powerRight := c.powerRight,
            sounds := s.sounds + c.sounds, popups := s.popups + c.popups);
  }

  /**
   * A collection keeps a sub-multiset of the landed drops lying, and each
   * score rises by at most what all the landed drops were worth.
   */
  lemma CollectionBounds(b: Board, xs: seq<FallingBonus>, mode: GameMode, s: Scores, s': Scores)
    requires OnBoard(b, xs)
    requires var c := CollectionOf(b, xs);
      (mode == Zen ==> s' == Scores(s.left + c.left.points + c.right.points, s.right + c.left.points + c.right.points))
      && (mode == VsBot ==> s' == Scores(s.left + c.left.points, s.right + c.right.points))
    ensures multiset(CollectionOf(b, xs).stays) <= multiset(xs)
    ensures s.left <= s'.left <= s.left + PointsOf(xs)
    ensures s.right <= s'.right <= s.right + PointsOf(xs)
    ensures mode == Zen ==> s'.left - s.left == s'.right - s.right
  {
    var col := CollectionOf(b, xs);
    CollectionRaisesScores(b, xs, mode, s, s');
    CollectKeepsTotals(b, xs);
    CollectedPointsNonNegative(b, xs);
    PointsOfNonNegative(col.stays);
    GoesSplits(b, xs);
  }

  /**
   * The zap branch of `check_and_transition`: score the joined pins, plan
   * the drops, launch particles from the connected tiles, buzz and freeze;
   * against the bot a score of `MAX_VS_SCORE` ends the game.
   */
  method ZapScore(s: GameState) returns (r: GameState)
    requires Inv(s)
    ensures Inv(r) && Grows(s, r)
    ensures r == s.(board := r.board, scores := r.scores, popups := r.popups, pendingBonus := r.pendingBonus,
                    effects := r.effects, sounds := r.sounds, phase := r.phase)
    ensures r.board == s.board.(multLeft := r.board.multLeft, multRight := r.board.multRight)
    ensures r.pendingBonus == BonusDrops(s.board.leftPins, s.board.rightPins)
    ensures r.sounds == s.sounds + [BuzzSound] && r.effects == Effects.WithZapBurst(s.effects, r.board)
    ensures r.phase == GameOver <==> s.mode == VsBot && (r.scores.left >= MAX_VS_SCORE || r.scores.right >= MAX_VS_SCORE)
    ensures r.phase != GameOver ==> r.phase == FreezeDuringZap
    ensures r.scores.left <= s.scores.left + Cap(s.board.height, s.board.multLeft, s.board.multRight)
    ensures r.scores.right <= s.scores.right + Cap(s.board.height, s.board.multLeft, s.board.multRight)
  {
    var b := s.board;
    var b', scores, popups := ApplyMultiplierScores(b, s.mode, s.scores);
    ScoringCap(b, s.mode, s.scores, scores);
    var effects := Effects.ZapBurst(s.effects, b');
    var phase := if s.mode == VsBot && (scores.left >= MAX_VS_SCORE || scores.right >= MAX_VS_SCORE) then GameOver else FreezeDuringZap;
    r := s.(board := b', scores := scores, popups := s.popups + popups,
            pendingBonus := BonusDrops(b.leftPins, b.rightPins),
            effects := effects,
            sounds := s.sounds + [BuzzSound], phase := phase);
    assert Full(r.board) by {
      assert r.board.grid == b.grid;
    }
  }

  /** `check_connections`, then `build_arcs_from_board` on the settled board. */
  method CheckAndDraw(s: GameState, displace: Effects.Displacer) returns (t: GameState, zap: bool)
    requires Inv(s)
    ensures Inv(t) && (zap <==> Zapped(s.board.grid))
    ensures t == s.(board := t.board, effects := t.effects) && t.board == Settle(s.board)
    ensures t.effects == Effects.WithArcs(s.effects, Settle(s.board), displace)
  {
    var b1;
    b1, zap := RunCheck(s.board);
    var e := Effects.RebuildArcs(s.effects, b1, displace);
    t := s.(board := b1, effects := e);
    assert Full(t.board) && MultipliersPositive(t.board);
  }

  /**
   * `check_and_transition`: settle the markings, rebuild the arcs from
   * them, collect the drops lying on marked cells, and either zap (joined
   * pins: score, burst of particles, freeze) or wait for input.
   */
  method CheckAndTransition(s: GameState, displace: Effects.Displacer) returns (r: GameState)
    requires Inv(s)
    ensures Inv(r) && Grows(s, r) && ScoreBound(s, r)
    ensures r.board.grid == s.board.grid && r.board.markings == Settle(s.board).markings
    ensures r.phase == WaitingForInput <==> !Zapped(s.board.grid)
    ensures r.phase in {WaitingForInput, FreezeDuringZap, GameOver}
    ensures r.phase == GameOver <==>
      Zapped(s.board.grid) && s.mode == VsBot && (r.scores.left >= MAX_VS_SCORE || r.scores.right >= MAX_VS_SCORE)
    ensures !Zapped(s.board.grid) ==>
      r.board.multLeft == s.board.multLeft && r.board.multRight == s.board.multRight && r.pendingBonus == s.pendingBonus
    ensures Zapped(s.board.grid) ==> r.pendingBonus == BonusDrops(Settle(s.board).leftPins, Settle(s.board).rightPins)
    ensures r.mode == s.mode && r.anims == s.anims && r.pendingTap == s.pendingTap && r.pendingBomb == s.pendingBomb
    ensures r.render == s.render && r.bonuses.falling == s.bonuses.falling
    ensures r.powerLeft.armed == s.powerLeft.armed && r.powerRight.armed == s.powerRight.armed
    ensures var e := Effects.WithArcs(s.effects, Settle(s.board), displace);
      r.effects == if Zapped(s.board.grid) then Effects.WithZapBurst(e, r.board) else e
  {
    var t, zap := CheckAndDraw(s, displace);
    r := Transition(t, zap);
    TransitionAfterCheck(s, t, zap, r);
  }

  /** What the transition promises about the checked state carries back to the state before the check. */
  lemma TransitionAfterCheck(s: GameState, t: GameState, zap: bool, r: GameState)
    requires t == s.(board := t.board, effects := t.effects)
    requires t.board == s.board.(markings := t.board.markings, leftPins := t.board.leftPins, rightPins := t.board.rightPins)
    requires Grows(t, r) && ScoreBound(t, r)
    requires r.board.grid == t.board.grid
    requires !zap ==> r.board == t.board && r.pendingBonus == t.pendingBonus
    requires r.mode == t.mode && r.anims == t.anims && r.pendingTap == t.pendingTap && r.pendingBomb == t.pendingBomb
    requires r.render == t.render && r.bonuses.falling == t.bonuses.falling
    requires r.powerLeft.armed == t.powerLeft.armed && r.powerRight.armed == t.powerRight.armed
    ensures Grows(s, r) && ScoreBound(s, r) && r.board.grid == s.board.grid
    ensures !zap ==> r.board.multLeft == s.board.multLeft && r.board.multRight == s.board.multRight && r.pendingBonus == s.pendingBonus
    ensures r.mode == s.mode && r.anims == s.anims && r.pendingTap == s.pendingTap && r.pendingBomb == s.pendingBomb
    ensures r.render == s.render && r.bonuses.falling == s.bonuses.falling
    ensures r.powerLeft.armed == s.powerLeft.armed && r.powerRight.armed == s.powerRight.armed
  {
  }

  /** The part of `check_and_transition` after the arcs: collect the drops, then zap or wait for input. */
  method Transition(s: GameState, zap: bool) returns (r: GameState)
    requires Inv(s)
    ensures Inv(r) && Grows(s, r) && ScoreBound(s, r)
    ensures r.board.grid == s.board.grid && r.board.markings == s.board.markings
    ensures r.phase == WaitingForInput <==> !zap
    ensures r.phase in {WaitingForInput, FreezeDuringZap, GameOver}
    ensures r.phase == GameOver <==> zap && s.mode == VsBot && (r.scores.left >= MAX_VS_SCORE || r.scores.right >= MAX_VS_SCORE)
    ensures !zap ==> r.board == s.board && r.pendingBonus == s.pendingBonus && r.effects == s.effects
    ensures zap ==> r.pendingBonus == BonusDrops(s.board.leftPins, s.board.rightPins)
    ensures zap ==> r.effects == Effects.WithZapBurst(s.effects, r.board)
    ensures r.mode == s.mode && r.anims == s.anims && r.pendingTap == s.pendingTap && r.pendingBomb == s.pendingBomb
    ensures r.render == s.render && r.bonuses.falling == s.bonuses.falling
    ensures r.powerLeft.armed == s.powerLeft.armed && r.powerRight.armed == s.powerRight.armed
  {
    var c := Collect(s);
    if zap {
      r := ZapScore(c);
    } else {
      r := c.(phase := WaitingForInput);
    }
  }

  // ---------------------------------------------------------------------
  // Turning one tile (process_input, try_bot_move)
  // ---------------------------------------------------------------------

  /** The board with the tile at (x, y) turned n quarter turns; an empty cell stays empty. */
  function RotateCell(b: Board, x: nat, y: nat, n: nat): (r: Board)
    requires Valid(b)
    ensures Valid(r) && r == b.(grid := r.grid)
  {
    if At(b.grid, x, y).Some? then
      IdxInRange(b.width, b.height, x, y);
      b.(grid := Set(b.grid, x, y, Some(RotateN(At(b.grid, x, y).value, n))))
    else b
  }

  /** Turning changes the tile at (x, y) and no other cell. */
  lemma RotateCellCells(b: Board, x: nat, y: nat, n: nat)
    requires Valid(b)
    ensures forall x': nat, y': nat :: (At(RotateCell(b, x, y, n).grid, x', y') ==
      (if x' == x && y' == y && At(b.grid, x, y).Some? then Some(RotateN(At(b.grid, x, y).value, n)) else At(b.grid, x', y')))
  {
    var r := RotateCell(b, x, y, n);
    forall x': nat, y': nat ensures At(r.grid, x', y') ==
      (if x' == x && y' == y && At(b.grid, x, y).Some? then Some(RotateN(At(b.grid, x, y).value, n)) else At(b.grid, x', y'))
    {
      if At(b.grid, x, y).Some? && InBounds(b.grid, x', y') {
        SetGet(b.grid, x, y, Some(RotateN(At(b.grid, x, y).value, n)), x', y');
      }
    }
  }

  /** Turning a tile keeps every part of the game invariant. */
  lemma RotateKeepsInv(s: GameState, x: nat, y: nat, n: nat)
    requires Inv(s)
    ensures Inv(s.(board := RotateCell(s.board, x, y, n)))
  {
    var b := RotateCell(s.board, x, y, n);
    RotateCellCells(s.board, x, y, n);
    assert Full(b);
    InvBoard(s, b);
  }

  /** Four quarter turns give the board back. */
  lemma RotateCellFour(b: Board, x: nat, y: nat)
    requires Valid(b)
    ensures RotateCell(b, x, y, 4) == b
  {
    if At(b.grid, x, y).Some? {
      var t := At(b.grid, x, y).value;
      RotateFourIsIdentity(t);
      SetSame(b.grid, x, y);
      assert Some(RotateN(t, 4)) == At(b.grid, x, y);
    }
  }

  /** One more quarter turn of a turned tile is one more turn in all. */
  lemma RotateCellStep(b: Board, x: nat, y: nat, n: nat)
    requires Valid(b)
    ensures RotateCell(RotateCell(b, x, y, n), x, y, 1) == RotateCell(b, x, y, n + 1)
  {
    if At(b.grid, x, y).Some? {
      var t := At(b.grid, x, y).value;
      var r := RotateCell(b, x, y, n);
      IdxInRange(b.width, b.height, x, y);
      var i := Idx(b.height, x, y);
      assert At(r.grid, x, y) == Some(RotateN(t, n));
      assert RotateN(RotateN(t, n), 1) == RotateN(t, n + 1);
      assert r.grid.tiles[i := Some(RotateN(t, n + 1))] == b.grid.tiles[i := Some(RotateN(t, n + 1))];
      assert Set(r.grid, x, y, Some(RotateN(t, n + 1))) == Set(b.grid, x, y, Some(RotateN(t, n + 1)));
    }
  }

  /** No turns change nothing. */
  lemma RotateCellZero(b: Board, x: nat, y: nat)
    requires Valid(b)
    ensures RotateCell(b, x, y, 0) == b
  {
    if At(b.grid, x, y).Some? {
      SetSame(b.grid, x, y);
    }
  }

  /** The bot's move turns its tile exactly as the move's trial did. */
  lemma MoveIsTrial(b: Board, m: BotMove)
    requires Valid(b) && IsTrial(b, m)
    ensures RotateCell(b, m.x, m.y, m.rotationCount) == b.(grid := TrialGrid(b, m))
  {
  }

  /** `for _ in 0..count { rotate }` on the tile at (x, y). */
  method TurnTile(b: Board, x: nat, y: nat, count: nat) returns (r: Board)
    requires Valid(b)
    ensures r == RotateCell(b, x, y, count)
  {
    RotateCellZero(b, x, y);
    r := b;
    var i := 0;
    while i < count
      invariant i <= count && r == RotateCell(b, x, y, i)
    {
      RotateCellStep(b, x, y, i);
      r := RotateCell(r, x, y, 1);
      i := i + 1;
    }
  }

  // ---------------------------------------------------------------------
  // apply_power_up, process_input
  // ---------------------------------------------------------------------

  /** The area a power-up hits when used at (tx, ty): two cells each way for a bomb, the whole column for an arrow. */
  function Blast(p: PowerUpType, tx: nat, ty: nat, h: nat): (bp: BombParams)
    requires p != Cross
    ensures bp.tx == tx && bp.ty == ty
    ensures p == Bomb ==> bp.dx == 2 && bp.dy == 2
    ensures p == Arrow ==> bp.dx == 0 && bp.dy == h
  {
    if p == Bomb then BombParams(tx, ty, 2, 2) else BombParams(tx, ty, 0, h)
  }

  /** The Cross power-up: the tile at (x, y) becomes a four-way tile, nothing else changes. */
  function CrossBoard(b: Board, x: nat, y: nat): (r: Board)
    requires Valid(b) && Full(b) && x < b.width && y < b.height
    ensures Valid(r) && Full(r) && r == b.(grid := r.grid)
    ensures At(r.grid, x, y) == Some(Tile(15))
    ensures forall x': nat, y': nat :: (x', y') != (x, y) ==> At(r.grid, x', y') == At(b.grid, x', y')
  {
    SetKeepsFull(b, x, y, Tile(15));
    assert At(b.grid, x, y).Some?;
    var r := SetTile(b, x, y, 0x0F);
    assert r.grid == Set(b.grid, x, y, Some(Tile(15)));
    assert forall x': nat, y': nat :: InBounds(b.grid, x', y') ==> (At(r.grid, x', y') ==
      (if x' == x && y' == y then Some(Tile(15)) else At(b.grid, x', y'))) by {
      forall x': nat, y': nat | InBounds(b.grid, x', y') ensures At(r.grid, x', y') ==
        (if x' == x && y' == y then Some(Tile(15)) else At(b.grid, x', y')) {
        SetGet(b.grid, x, y, Some(Tile(15)), x', y');
      }
    }
    r
  }

  /**
   * `apply_power_up`: a bomb or an arrow is deferred to the end of a
   * freeze, with the drops cleared away; a cross sets the tile to all four
   * connections and checks the board at once.
   */
  method ApplyPowerUp(s: GameState, p: PowerUpType, tx: nat, ty: nat, displace: Effects.Displacer) returns (r: GameState)
    requires Inv(s) && tx < s.board.width && ty < s.board.height
    ensures Inv(r) && Grows(s, r) && r.mode == s.mode && r.pendingTap == s.pendingTap
    ensures r.powerLeft.armed == s.powerLeft.armed && r.powerRight.armed == s.powerRight.armed
    ensures p != Cross ==>
      r == s.(pendingBomb := Some(Blast(p, tx, ty, s.board.height)), bonuses := Bonus.ClearBonuses(s.bonuses),
              sounds := s.sounds + [BombSound], phase := FreezeDuringBomb)
    ensures p == Cross ==>
      && r.board.grid == CrossBoard(s.board, tx, ty).grid
      && (r.phase == WaitingForInput <==> !Zapped(r.board.grid))
      && r.phase in {WaitingForInput, FreezeDuringZap, GameOver}
      && r.effects.arcs == Effects.WithArcs(s.effects, Settle(CrossBoard(s.board, tx, ty)), displace).arcs
  {
    if p == Cross {
      var t := s.(board := CrossBoard(s.board, tx, ty), sounds := s.sounds + [PowerUpSound]);
      r := CheckAndTransition(t, displace);
    } else {
      r := s.(pendingBomb := Some(Blast(p, tx, ty, s.board.height)), bonuses := Bonus.ClearBonuses(s.bonuses),
              sounds := s.sounds + [BombSound], phase := FreezeDuringBomb);
    }
  }

  /** The power-up a tap uses: the left side's armed one first, else the right side's. */
  function UsedPower(s: GameState): Option<PowerUpType> {
    if s.powerLeft.armed.Some? then s.powerLeft.armed else s.powerRight.armed
  }

  /**
   * `process_input`: take the queued tap. With a power-up armed on either
   * side (left first) it is used up on the tapped cell; otherwise the
   * tapped tile turns a quarter and the phase waits for the turn.
   */
  method ProcessInput(s: GameState, displace: Effects.Displacer) returns (r: GameState)
    requires Inv(s)
    ensures Inv(r) && Grows(s, r) && r.mode == s.mode && r.pendingTap.None?
    ensures r.phase in {s.phase, RotatingTile, FreezeDuringBomb, WaitingForInput, FreezeDuringZap, GameOver}
    ensures s.pendingTap.None? ==> r == s
    ensures s.pendingTap.Some? && UsedPower(s).None? ==>
      var x, y := s.pendingTap.value.0, s.pendingTap.value.1;
      r == s.(board := RotateCell(s.board, x, y, 1),
              anims := s.anims.(rotations := s.anims.rotations + [RotateAnim(x, y, 1, false)]),
              sounds := s.sounds + [RotateSound], phase := RotatingTile, pendingTap := None)
    ensures s.pendingTap.Some? && UsedPower(s).Some? ==>
      && r.powerLeft.armed.None?
      && (s.powerLeft.armed.Some? ==> r.powerRight.armed == s.powerRight.armed)
      && (s.powerLeft.armed.None? ==> r.powerRight.armed.None?)
      && (UsedPower(s) == Some(Cross) <==> r.phase != FreezeDuringBomb)
      && r.phase != RotatingTile
    ensures s.pendingTap.Some? && UsedPower(s).Some? && UsedPower(s) != Some(Cross) ==>
      && r.pendingBomb == Some(Blast(UsedPower(s).value, s.pendingTap.value.0, s.pendingTap.value.1, s.board.height))
      && !Has(if s.powerLeft.armed.Some? then r.powerLeft else r.powerRight, UsedPower(s).value)
  {
    if s.pendingTap.None? {
      return s;
    }
    var (tx, ty) := s.pendingTap.value;
    var t := s.(pendingTap := None);
    if UsedPower(t).Some? {
      r := UsePower(t, tx, ty, displace);
    } else {
      r := TapTurn(t, tx, ty);
    }
  }

  /** A tap with a power-up armed: the left one if armed, else the right one, is used up on the tapped cell. */
  method UsePower(s: GameState, tx: nat, ty: nat, displace: Effects.Displacer) returns (r: GameState)
    requires Inv(s) && tx < s.board.width && ty < s.board.height && UsedPower(s).Some?
    ensures Inv(r) && Grows(s, r) && r.mode == s.mode && r.pendingTap == s.pendingTap
    ensures r.phase in {FreezeDuringBomb, WaitingForInput, FreezeDuringZap, GameOver}
    ensures r.powerLeft.armed.None?
    ensures s.powerLeft.armed.Some? ==> r.powerRight.armed == s.powerRight.armed
    ensures s.powerLeft.armed.None? ==> r.powerRight.armed.None?
    ensures UsedPower(s) == Some(Cross) <==> r.phase != FreezeDuringBomb
    ensures UsedPower(s) != Some(Cross) ==>
      && r.pendingBomb == Some(Blast(UsedPower(s).value, tx, ty, s.board.height))
      && !Has(if s.powerLeft.armed.Some? then r.powerLeft else r.powerRight, UsedPower(s).value)
  {
    var left := ConsumeArmed(s.powerLeft);
    var t, p;
    if left.used.Some? {
      t, p := s.(powerLeft := left.inv), left.used.value;
    } else {
      var right := ConsumeArmed(s.powerRight);
      t, p := s.(powerRight := right.inv), right.used.value;
    }
    r := ApplyPowerUp(t, p, tx, ty, displace);
    GrowsAfter(s, t, r);
  }

  /** A tap without a power-up: the tile turns a quarter, and the phase waits for the turn to show. */
  method TapTurn(s: GameState, x: nat, y: nat) returns (r: GameState)
    requires Inv(s)
    ensures Inv(r) && Grows(s, r)
    ensures r == s.(board := RotateCell(s.board, x, y, 1),
                    anims := s.anims.(rotations := s.anims.rotations + [RotateAnim(x, y, 1, false)]),
                    sounds := s.sounds + [RotateSound], phase := RotatingTile)
  {
    RotateKeepsInv(s, x, y, 1);
    r := s.(board := RotateCell(s.board, x, y, 1),
            anims := s.anims.(rotations := s.anims.rotations + [RotateAnim(x, y, 1, false)]),
            sounds := s.sounds + [RotateSound], phase := RotatingTile);
  }

  // ---------------------------------------------------------------------
  // try_bot_move
  // ---------------------------------------------------------------------

  /**
   * `try_bot_move`: against the bot, while waiting for input and once the
   * thinking delay ran out, play the bot's best move: turn its tile, show
   * the turn and draw the next delay from the effects generator. When no
   * move scores, nothing happens.
   */
  method TryBotMove(s: GameState, botWaiting: bool) returns (r: GameState, move: Option<BotMove>)
    requires Inv(s)
    ensures Inv(r) && Grows(s, r)
    ensures move.None? ==> r == s
    ensures !s.botEnabled || s.phase != WaitingForInput || botWaiting ==> move.None?
    ensures s.botEnabled && s.phase == WaitingForInput && !botWaiting ==>
      (move.None? <==> forall i :: 0 <= i < |Trials(s.board)| ==> TrialScore(s.board, Trials(s.board)[i]) <= 0)
    ensures move.Some? ==>
      var m := move.value;
      && IsTrial(s.board, m) && FirstBest(s.board, Trials(s.board), m)
      && r == s.(board := s.board.(grid := TrialGrid(s.board, m)),
                 anims := s.anims.(rotations := s.anims.rotations + [RotateAnim(m.x, m.y, m.rotationCount, true)]),
                 phase := RotatingTile,
                 effects := s.effects.(rng := NextInt(s.effects.rng, 1000).next))
  {
    r, move := s, None;
    if !s.botEnabled || s.phase != WaitingForInput || botWaiting {
      return;
    }
    move := DetermineNextMove(s.board);
    if move.Some? {
      var m := move.value;
      var b := TurnTile(s.board, m.x, m.y, m.rotationCount);
      MoveIsTrial(s.board, m);
      RotateKeepsInv(s, m.x, m.y, m.rotationCount);
      var delay := NextInt(s.effects.rng, 1000);
      r := s.(board := b,
              anims := s.anims.(rotations := s.anims.rotations + [RotateAnim(m.x, m.y, m.rotationCount, true)]),
              phase := RotatingTile,
              effects := s.effects.(rng := delay.next));
    }
  }

  // ---------------------------------------------------------------------
  // do_zap
  // ---------------------------------------------------------------------

  /** The survivor rows of every column, recorded before the zapped tiles go. */
  method SurvivorColumns(b: Board) returns (rows: seq<seq<nat>>)
    requires Valid(b)
    ensures rows == BoardSurvivorRows(b)
  {
    rows := [];
    var x := 0;
    while x < b.width
      invariant x <= b.width && |rows| == x
      invariant forall i :: 0 <= i < x ==> rows[i] == SurvivorRows(MarkColumn(b, i))
    {
      var col := CollectSurvivorRows(MarkColumn(b, x));
      rows := rows + [col];
      x := x + 1;
    }
  }

  /** The fall animations of columns 0..w-1, appended column by column. */
  method AddZapFalls(falls: seq<FallAnim>, rows: seq<seq<nat>>, h: nat, w: nat) returns (falls': seq<FallAnim>)
    requires w <= |rows| && forall x :: 0 <= x < |rows| ==> |rows[x]| <= h
    ensures falls' == falls + ZapFalls(rows, h, w)
  {
    falls' := falls;
    var x := 0;
    while x < w
      invariant x <= w && falls' == falls + ZapFalls(rows, h, x)
    {
      AppendAssoc(falls, ZapFalls(rows, h, x), ColumnZapFalls(x, h, rows[x]));
      falls' := falls' + ColumnZapFalls(x, h, rows[x]);
      x := x + 1;
    }
  }

  /** Remove the connected tiles, fill from the top and reset every marking. */
  method ClearZapped(b: Board) returns (r: Board)
    requires Valid(b)
    ensures Valid(r) && Full(r) && r == RemoveAndShift(b).(markings := r.markings)
    ensures forall i :: 0 <= i < |r.markings| ==> r.markings[i] == Unmarked
  {
    var b2 := RemoveAndShift(b);
    RemoveAndShiftFills(b);
    r := b2.(markings := seq(|b2.markings|, _ => Unmarked));
    assert Full(r) by {
      assert r.grid == b2.grid;
    }
  }

  /** The tiles of a zap: re-check, record the survivors, clear the connected tiles and animate the falls. */
  method ZapTiles(s: GameState) returns (r: GameState)
    requires Inv(s)
    ensures Inv(r) && Grows(s, r)
    ensures r == s.(board := r.board, anims := s.anims.(falls := r.anims.falls))
    ensures var settled := Settle(s.board);
      && r.board == RemoveAndShift(settled).(markings := r.board.markings)
      && r.anims.falls == s.anims.falls + ZapFalls(BoardSurvivorRows(settled), s.board.height, s.board.width)
    ensures FallsOnBoard(r.anims.falls[|s.anims.falls|..], s.board.width, s.board.height)
    ensures forall i :: 0 <= i < |r.board.markings| ==> r.board.markings[i] == Unmarked
  {
    var w, h := s.board.width, s.board.height;
    var b1, _ := RunCheck(s.board);
    var b2, rows := Sweep(b1);
    var falls := AddZapFalls(s.anims.falls, rows, h, w);
    DropAppend(s.anims.falls, ZapFalls(rows, h, w));
    InvBoard(s, b2);
    r := s.(board := b2, anims := s.anims.(falls := falls));
  }

  /** The board half of `ZapTiles` on the settled board: its survivor rows, and the board with its connected tiles gone. */
  method Sweep(b: Board) returns (r: Board, rows: seq<seq<nat>>)
    requires Valid(b) && Full(b) && MultipliersPositive(b)
    ensures Valid(r) && Full(r) && MultipliersPositive(r) && r.width == b.width && r.height == b.height
    ensures r == RemoveAndShift(b).(markings := r.markings)
    ensures forall i :: 0 <= i < |r.markings| ==> r.markings[i] == Unmarked
    ensures rows == BoardSurvivorRows(b) && |rows| == b.width
    ensures forall x :: 0 <= x < |rows| ==> |rows[x]| <= b.height
    ensures FallsOnBoard(ZapFalls(rows, b.height, b.width), b.width, b.height)
  {
    rows := SurvivorColumns(b);
    r := ClearZapped(b);
    ZapFallsDown(b);
  }

  /** The drops a zap planned are in the air: coins first, then the power-ups that were rolled. */
  ghost predicate Released(d: Drops, bs: BonusState) {
    Bonus.Released(d.many1, d.many2, d.many5, bs)
  }

  /** Spawn the planned drops from the effects generator and forget the plan. */
  method ReleaseDrops(s: GameState) returns (r: GameState)
    requires Inv(s)
    ensures Inv(r) && Released(s.pendingBonus, r.bonuses)
    ensures r == s.(bonuses := r.bonuses, effects := s.effects.(rng := r.effects.rng), pendingBonus := Drops(0, 0, 0))
    ensures var d := s.pendingBonus;
      var run := DropRun(d.many1, d.many2, d.many5, s.board.width, s.board.height, s.effects.rng);
      r.bonuses == BonusState(run.falling, []) && r.effects.rng == run.rng
  {
    var d := s.pendingBonus;
    var spawn := SpawnBonuses(s.bonuses, d.many1, d.many2, d.many5, s.board.width, s.board.height, s.effects.rng);
    r := InstallDrops(s, spawn);
  }

  /** Install freshly spawned drops and the generator they left behind. */
  method InstallDrops(s: GameState, spawn: SpawnResult) returns (r: GameState)
    requires Inv(s) && ValidRng(spawn.rng) && Released(s.pendingBonus, spawn.state)
    requires Inside(spawn.state.falling, s.board.width, s.board.height)
    ensures Inv(r) && Released(s.pendingBonus, r.bonuses)
    ensures r == s.(bonuses := spawn.state, effects := s.effects.(rng := spawn.rng), pendingBonus := Drops(0, 0, 0))
  {
    r := s.(bonuses := spawn.state, effects := s.effects.(rng := spawn.rng), pendingBonus := Drops(0, 0, 0));
  }

  /**
   * `do_zap`, when the zap freeze ends: clear the arcs, re-check, record
   * which rows survive in each column, remove the connected tiles and fill
   * from the top, reset the markings, animate every moved and new tile,
   * and release the planned drops from the effects generator.
   */
  method DoZap(s: GameState) returns (r: GameState)
    requires Inv(s)
    ensures Inv(r) && Grows(s, r)
    ensures r == s.(board := r.board, effects := r.effects, sounds := r.sounds, anims := r.anims,
                    bonuses := r.bonuses, pendingBonus := r.pendingBonus, phase := r.phase)
    ensures r.phase == FallingTiles && r.pendingBonus == Drops(0, 0, 0)
    ensures var d := s.pendingBonus;
      var run := DropRun(d.many1, d.many2, d.many5, s.board.width, s.board.height, s.effects.rng);
      r.bonuses == BonusState(run.falling, []) && r.effects == s.effects.(arcs := [], rng := run.rng)
    ensures r.sounds == s.sounds + [CoinDropSound, ExplodeSound]
    ensures var settled := Settle(s.board);
      && r.board == RemoveAndShift(settled).(markings := r.board.markings)
      && r.anims == s.anims.(falls := s.anims.falls + ZapFalls(BoardSurvivorRows(settled), s.board.height, s.board.width))
    ensures FallsOnBoard(r.anims.falls[|s.anims.falls|..], s.board.width, s.board.height)
    ensures forall i :: 0 <= i < |r.board.markings| ==> r.board.markings[i] == Unmarked
    ensures Released(s.pendingBonus, r.bonuses)
  {
    var t := s.(effects := s.effects.(arcs := []), sounds := s.sounds + [CoinDropSound, ExplodeSound]);
    t := ZapTiles(t);
    t := ReleaseDrops(t);
    r := t.(phase := FallingTiles);
  }

  // ---------------------------------------------------------------------
  // finish_bomb
  // ---------------------------------------------------------------------

  /** `finish_bomb`'s tally loop over the destroyed cells. */
  method CountColumns(ps: seq<(nat, nat)>) returns (counts: seq<(nat, nat)>)
    ensures counts == ColumnCounts(ps)
  {
    counts := [];
    var i := 0;
    while i < |ps|
      invariant i <= |ps| && counts == ColumnCounts(ps[..i])
    {
      assert ps[..i + 1][..i] == ps[..i];
      counts := Tally(counts, ps[i].0);
      i := i + 1;
    }
    assert ps[..|ps|] == ps;
  }

  /** A pending bomb hits at least the cell it was used on. */
  lemma BombHitsItsCentre(b: Board, p: BombParams)
    requires Valid(b) && Full(b) && p.tx < b.width && p.ty < b.height
    ensures |PendingCells(b, p)| > 0
  {
    var rect := AffectedRect(b.width, b.height, p.tx, p.ty, p.dx, p.dy);
    AffectedRectIsBombRect(b.width, b.height, p.tx, p.ty, p.dx, p.dy);
    RectCellsMembers(b.grid, rect, rect.ei, (p.tx, p.ty));
  }

  /** The bomb half of `finish_bomb`: blow the area up and animate the new tiles. */
  method Detonate(s: GameState, p: BombParams) returns (r: GameState)
    requires Inv(s) && p.tx < s.board.width && p.ty < s.board.height
    ensures Inv(r) && Grows(s, r)
    ensures r == s.(board := r.board, anims := r.anims)
    ensures r.board == BombSpec(s.board, p.tx, p.ty, p.dx, p.dy)
    ensures r.anims == s.anims.(falls := s.anims.falls + BombFalls(ColumnCounts(PendingCells(s.board, p))))
    ensures |r.anims.falls| == |s.anims.falls| + |PendingCells(s.board, p)| > 0
  {
    var b := BlowUp(s.board, p);
    var falls := BombAnims(s.board, p);
    InvBoard(s, b);
    r := s.(board := b, anims := s.anims.(falls := s.anims.falls + falls));
  }

  /** The board half of a detonation: the bombed area replaced, the board still full. */
  method BlowUp(b: Board, p: BombParams) returns (r: Board)
    requires Valid(b) && Full(b) && MultipliersPositive(b)
    ensures r == BombSpec(b, p.tx, p.ty, p.dx, p.dy)
    ensures Valid(r) && Full(r) && MultipliersPositive(r) && r.width == b.width && r.height == b.height
  {
    r := BombTable(b, p.tx, p.ty, p.dx, p.dy);
    BombKeepsFull(b, p.tx, p.ty, p.dx, p.dy);
  }

  /** The animation half of a detonation: one fall per destroyed cell, and at least one. */
  method BombAnims(b: Board, p: BombParams) returns (falls: seq<FallAnim>)
    requires Valid(b) && Full(b) && p.tx < b.width && p.ty < b.height
    ensures falls == BombFalls(ColumnCounts(PendingCells(b, p)))
    ensures |falls| == |PendingCells(b, p)| > 0
  {
    var positions := BombAffectedPositions(b, p.tx, p.ty, p.dx, p.dy);
    var counts := CountColumns(positions);
    falls := BombFalls(counts);
    OneFallPerDestroyedCell(positions);
    BombHitsItsCentre(b, p);
  }

  /**
   * `finish_bomb`, when the bomb freeze ends: detonate the pending bomb;
   * then let the tiles fall, or, with nothing falling, check the board.
   */
  method FinishBomb(s: GameState, displace: Effects.Displacer) returns (r: GameState)
    requires Inv(s)
    ensures Inv(r) && Grows(s, r) && r.mode == s.mode && r.pendingBomb.None?
    ensures s.pendingBomb.Some? ==>
      var p := s.pendingBomb.value;
      && r == s.(board := r.board, anims := r.anims, pendingBomb := None, phase := FallingTiles)
      && r.board == BombSpec(s.board, p.tx, p.ty, p.dx, p.dy)
      && r.anims.falls == s.anims.falls + BombFalls(ColumnCounts(PendingCells(s.board, p)))
      && |r.anims.falls| == |s.anims.falls| + |PendingCells(s.board, p)|
    ensures s.pendingBomb.None? && |s.anims.falls| > 0 ==> r == s.(phase := FallingTiles)
    ensures s.pendingBomb.None? && |s.anims.falls| == 0 ==>
      r.board.grid == s.board.grid && r.phase in {WaitingForInput, FreezeDuringZap, GameOver}
      && r.effects.arcs == RebuiltTwice(s.effects, s.board, displace).arcs
  {
    var t := s;
    if s.pendingBomb.Some? {
      t := Detonate(s.(pendingBomb := None), s.pendingBomb.value);
    }
    r := AfterBomb(t, displace);
    GrowsTransitive(s, t, r);
  }

  /**
   * The effects after `finish_bomb` checks a still board: the arcs are
   * built from the settled board, then built again by the connection
   * check that follows, each time drawing from the effects generator.
   */
  ghost function RebuiltTwice(e: Effects.EffectsState, b: Board, displace: Effects.Displacer): Effects.EffectsState
    requires Valid(b) && ValidRng(e.rng) && (0 < b.width || b.height == 0)
  {
    var settled := Settle(b);
    Effects.WithArcs(Effects.WithArcs(e, settled, displace), Settle(settled), displace)
  }

  /** The tail of `finish_bomb`: fall if anything falls, otherwise settle, build the arcs and check the board. */
  method AfterBomb(s: GameState, displace: Effects.Displacer) returns (r: GameState)
    requires Inv(s)
    ensures Inv(r) && Grows(s, r) && r.mode == s.mode && r.pendingBomb == s.pendingBomb
    ensures |s.anims.falls| > 0 ==> r == s.(phase := FallingTiles)
    ensures |s.anims.falls| == 0 ==>
      r.board.grid == s.board.grid && r.phase in {WaitingForInput, FreezeDuringZap, GameOver}
      && var e := RebuiltTwice(s.effects, s.board, displace);
        r.effects == if Zapped(s.board.grid) then Effects.WithZapBurst(e, r.board) else e
  {
    if |s.anims.falls| > 0 {
      r := s.(phase := FallingTiles);
    } else {
      r := CheckStill(s, displace);
    }
  }

  /** `finish_bomb` with nothing falling: settle the markings, build the arcs, then run the full connection check. */
  method CheckStill(s: GameState, displace: Effects.Displacer) returns (r: GameState)
    requires Inv(s)
    ensures Inv(r) && Grows(s, r) && r.mode == s.mode && r.pendingBomb == s.pendingBomb
    ensures r.board.grid == s.board.grid && r.phase in {WaitingForInput, FreezeDuringZap, GameOver}
    ensures var e := RebuiltTwice(s.effects, s.board, displace);
      r.effects == if Zapped(s.board.grid) then Effects.WithZapBurst(e, r.board) else e
  {
    var t, _ := CheckAndDraw(s, displace);
    assert t.board.grid == s.board.grid && t.effects == Effects.WithArcs(s.effects, Settle(s.board), displace);
    r := CheckAndTransition(t, displace);
    GrowsAfter(s, t, r);
    assert RebuiltTwice(s.effects, s.board, displace) == Effects.WithArcs(t.effects, Settle(t.board), displace);
  }

  // ---------------------------------------------------------------------
  // tick
  // ---------------------------------------------------------------------

  /** The `WaitingForInput` arm of `tick`: take the queued tap, then let the bot move. */
  method StepWaiting(s: GameState, botWaiting: bool, displace: Effects.Displacer) returns (r: GameState)
    requires Inv(s) && s.phase == WaitingForInput
    ensures Inv(r) && Grows(s, r) && r.mode == s.mode && r.phase != FallingBonuses
    ensures r.pendingTap.None?
  {
    var t := ProcessInput(s, displace);
    var move;
    r, move := TryBotMove(t, botWaiting);
    GrowsTransitive(s, t, r);
  }

  /** The `RotatingTile` arm of `tick`: drop the finished turns; when none is left, check the board. */
  method StepRotating(s: GameState, finished: nat -> bool, displace: Effects.Displacer) returns (r: GameState)
    requires Inv(s) && s.phase == RotatingTile
    ensures Inv(r) && Grows(s, r) && r.mode == s.mode
    ensures r.anims == s.anims.(rotations := Unfinished(s.anims.rotations, finished))
    ensures r.phase == RotatingTile <==> exists i :: 0 <= i < |s.anims.rotations| && !finished(i)
    ensures r.phase in {RotatingTile, WaitingForInput, FreezeDuringZap, GameOver}
  {
    var left := Unfinished(s.anims.rotations, finished);
    UnfinishedEmpty(s.anims.rotations, finished);
    r := CheckWhenIdle(s.(anims := s.anims.(rotations := left)), left != [], displace);
  }

  /** While something still moves the phase stays; once all is still, check the board. */
  method CheckWhenIdle(s: GameState, busy: bool, displace: Effects.Displacer) returns (r: GameState)
    requires Inv(s)
    ensures Inv(r) && Grows(s, r) && r.mode == s.mode && r.anims == s.anims
    ensures r.bonuses.falling == s.bonuses.falling
    ensures busy ==> r == s
    ensures !busy ==> r.phase in {WaitingForInput, FreezeDuringZap, GameOver}
    ensures !busy ==> r.effects.arcs == Effects.WithArcs(s.effects, Settle(s.board), displace).arcs
  {
    r := s;
    if !busy {
      r := CheckAndTransition(s, displace);
    }
  }

  /** The drops still in the air this frame, by index. */
  function Airborne(fs: seq<FallingBonus>, stillFalling: nat -> bool): (still: seq<bool>)
    ensures |still| == |fs| && forall i :: 0 <= i < |fs| ==> still[i] == stillFalling(i)
  {
    seq(|fs|, i requires 0 <= i => stillFalling(i))
  }

  /** Drops that land move from the air to the ground and stay on the board. */
  method LandDrops(s: GameState, stillFalling: nat -> bool) returns (r: GameState, anyFalling: bool)
    requires Inv(s)
    ensures Inv(r) && r == s.(bonuses := r.bonuses)
    ensures var still := Airborne(s.bonuses.falling, stillFalling);
      && r.bonuses.falling == Select(s.bonuses.falling, still, true)
      && r.bonuses.landed == s.bonuses.landed + Select(s.bonuses.falling, still, false)
    ensures anyFalling <==> |r.bonuses.falling| > 0
  {
    var w, h := s.board.width, s.board.height;
    var still := Airborne(s.bonuses.falling, stillFalling);
    var tick := TickFalling(s.bonuses, still);
    SelectSplits(s.bonuses.falling, still);
    InsideSub(tick.state.falling, s.bonuses.falling, w, h);
    InsideSub(Select(s.bonuses.falling, still, false), s.bonuses.falling, w, h);
    InsideJoin(s.bonuses.landed, Select(s.bonuses.falling, still, false), w, h);
    r, anyFalling := s.(bonuses := tick.state), tick.anyFalling;
  }

  /**
   * The `FallingTiles` arm of `tick`: drop the finished falls and land the
   * drops that stopped; once nothing falls, check the board.
   */
  method StepFalling(s: GameState, fallFinished: nat -> bool, stillFalling: nat -> bool, displace: Effects.Displacer)
    returns (r: GameState)
    requires Inv(s) && s.phase == FallingTiles
    ensures Inv(r) && Grows(s, r) && r.mode == s.mode
    ensures r.anims == s.anims.(falls := Unfinished(s.anims.falls, fallFinished))
    ensures r.bonuses.falling == Select(s.bonuses.falling, Airborne(s.bonuses.falling, stillFalling), true)
    ensures r.phase == FallingTiles <==>
      (exists i :: 0 <= i < |s.anims.falls| && !fallFinished(i)) || |r.bonuses.falling| > 0
    ensures r.phase in {FallingTiles, WaitingForInput, FreezeDuringZap, GameOver}
  {
    var falls := Unfinished(s.anims.falls, fallFinished);
    UnfinishedEmpty(s.anims.falls, fallFinished);
    var t := s.(anims := s.anims.(falls := falls));
    var landed, anyFalling := LandDrops(t, stillFalling);
    r := CheckWhenIdle(landed, |falls| > 0 || anyFalling, displace);
    GrowsAfter(s, landed, r);
  }

  /**
   * Every frame, whatever the phase: age the effects, rebuild their vertex
   * buffer with the multiplier lights appended, and rebuild the sprites.
   */
  method Redraw(s: GameState, dt: real, displace: Effects.Displacer) returns (r: GameState)
    requires Inv(s)
    ensures Inv(r) && r == s.(effects := r.effects, render := r.render)
    ensures |r.effects.arcs| == |s.effects.arcs|
    ensures forall i :: 0 <= i < |r.effects.arcs| ==> Effects.SameShape(s.effects.arcs[i], r.effects.arcs[i])
    ensures r.effects.rng == Draws(s.effects.rng, 10000, Effects.TwitchDraws(s.effects.arcs, |s.effects.arcs|)).1
    ensures r.effects.particles == Effects.LiveParticles(s.effects.particles, dt)
    ensures |r.effects.buffer| ==
      Effects.ArcVertices(r.effects.arcs) + 18 * |r.effects.particles| + 18 * Lights(s.board, s.board.height)
    ensures r.render == RenderBuffer(s.board, s.phase, s.pendingBomb, s.bonuses, s.anims.rotations)
  {
    var e := Effects.TickEffects(s.effects, dt, displace);
    var e' := Effects.RebuildBuffer(e);
    var buf := AddMultiplierLights(s.board, e'.buffer);
    var render := RebuildRenderBuffer(s.board, s.phase, s.pendingBomb, s.bonuses, s.anims.rotations);
    r := s.(effects := e'.(buffer := buf), render := render);
  }

  /** The phase machine's part of `tick`: one step of the current phase. */
  method Advance(s: GameState, f: Frame) returns (r: GameState)
    requires Inv(s)
    ensures Inv(r) && Grows(s, r) && r.mode == s.mode
    ensures s.phase in {GameOver, FallingBonuses} ==> r == s
    ensures s.phase != FallingBonuses ==> r.phase != FallingBonuses
    ensures s.phase in {FreezeDuringZap, FreezeDuringBomb} && !f.freezeExpired ==> r == s
    ensures s.phase == FreezeDuringZap && f.freezeExpired ==> r.phase == FallingTiles
  {
    r := s;
    match s.phase {
      case WaitingForInput =>
        r := StepWaiting(s, f.botWaiting, f.displace);
      case RotatingTile =>
        r := StepRotating(s, f.rotationFinished, f.displace);
      case FreezeDuringZap =>
        if f.freezeExpired {
          r := DoZap(s);
        }
      case FreezeDuringBomb =>
        if f.freezeExpired {
          r := FinishBomb(s, f.displace);
        }
      case FallingBonuses =>
      case FallingTiles =>
        r := StepFalling(s, f.fallFinished, f.stillFalling, f.displace);
      case GameOver =>
    }
  }

  /**
   * `tick`: clear the frame's sounds and popups, advance the phase machine
   * by the current phase, then redraw. A finished game only redraws.
   */
  method Tick(s: GameState, f: Frame) returns (r: GameState)
    requires Inv(s)
    ensures Inv(r) && Grows(s, r) && r.mode == s.mode
    ensures s.phase == GameOver ==>
      r.phase == GameOver && r.board == s.board && r.scores == s.scores && r.sounds == [] && r.popups == []
    ensures s.phase != FallingBonuses ==> r.phase != FallingBonuses
    ensures s.phase in {FreezeDuringZap, FreezeDuringBomb} && !f.freezeExpired ==>
      r.phase == s.phase && r.board == s.board && r.scores == s.scores
    ensures s.phase == FreezeDuringZap && f.freezeExpired ==> r.phase == FallingTiles
    ensures r.render == RenderBuffer(r.board, r.phase, r.pendingBomb, r.bonuses, r.anims.rotations)
    ensures |r.effects.buffer| ==
      Effects.ArcVertices(r.effects.arcs) + 18 * |r.effects.particles| + 18 * Lights(r.board, r.board.height)
  {
    var t := s.(sounds := [], popups := []);
    t := Advance(t, f);
    r := Redraw(t, f.dt, f.displace);
  }

  // ---------------------------------------------------------------------
  // new_with_mode
  // ---------------------------------------------------------------------

  /**
   * `new_with_mode`: a fresh 12 x 10 board with 3% missing links, all
   * multipliers 1, nothing held or planned, then one connection check. The
   * opening check can zap but can never end a game: it scores at most 20.
   */
  method NewGame(seed: Word, mode: GameMode, displace: Effects.Displacer) returns (s: GameState)
    ensures Inv(s) && s.mode == mode && s.botEnabled == (mode == VsBot)
    ensures s.board.width == DEFAULT_WIDTH && s.board.height == DEFAULT_HEIGHT
    ensures s.phase == WaitingForInput || s.phase == FreezeDuringZap
    ensures s.phase == FreezeDuringZap <==> Zapped(NewBoard(DEFAULT_WIDTH, DEFAULT_HEIGHT, DEFAULT_MISSING_LINKS, seed).grid)
    ensures 0 <= s.scores.left <= 20 && 0 <= s.scores.right <= 20
    ensures s.anims == NO_ANIMS && s.pendingTap.None? && s.pendingBomb.None? && s.render == []
    ensures s.effects.arcs ==
      Effects.WithArcs(Effects.NewEffects(seed), Settle(NewBoard(DEFAULT_WIDTH, DEFAULT_HEIGHT, DEFAULT_MISSING_LINKS, seed)), displace).arcs
  {
    var s0 := Fresh(seed, mode);
    s := CheckAndTransition(s0, displace);
  }

  /** The state `new_with_mode` builds before its opening check. */
  method Fresh(seed: Word, mode: GameMode) returns (s: GameState)
    ensures Inv(s) && s.mode == mode && s.phase == WaitingForInput
    ensures s.board == NewBoard(DEFAULT_WIDTH, DEFAULT_HEIGHT, DEFAULT_MISSING_LINKS, seed)
    ensures s.scores == Scores(0, 0) && PointsOf(s.bonuses.landed) == 0
    ensures Cap(s.board.height, s.board.multLeft, s.board.multRight) <= 20
    ensures s.anims == NO_ANIMS && s.pendingTap.None? && s.pendingBomb.None? && s.render == []
    ensures s.effects == Effects.NewEffects(seed)
  {
    var board := NewBoard(DEFAULT_WIDTH, DEFAULT_HEIGHT, DEFAULT_MISSING_LINKS, seed);
    s := Assemble(board, seed, mode);
  }

  /** A game on `board` with nothing scored, held, falling or planned. */
  method Assemble(board: Board, seed: Word, mode: GameMode) returns (s: GameState)
    requires Valid(board) && Full(board) && board.width == DEFAULT_WIDTH && board.height == DEFAULT_HEIGHT
    requires forall y :: 0 <= y < board.height ==> board.multLeft[y] == 1 && board.multRight[y] == 1
    ensures Inv(s) && s.mode == mode && s.phase == WaitingForInput && s.board == board && s.effects == Effects.NewEffects(seed)
    ensures s.scores == Scores(0, 0) && PointsOf(s.bonuses.landed) == 0
    ensures Cap(s.board.height, s.board.multLeft, s.board.multRight) <= 20
    ensures s.anims == NO_ANIMS && s.pendingTap.None? && s.pendingBomb.None? && s.render == []
  {
    CeilingAtMost(board.multLeft, 1);
    CeilingAtMost(board.multRight, 1);
    s := GameState(board, WaitingForInput, mode, Scores(0, 0), mode == VsBot, NO_ANIMS, Effects.NewEffects(seed),
                   BonusState([], []), EMPTY_INVENTORY, EMPTY_INVENTORY, Drops(0, 0, 0), None, [], [], [], None);
    assert PointsOf(s.bonuses.landed) == 0;
  }
}
