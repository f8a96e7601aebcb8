/**
 * The computer opponent (zapzap/src/systems/bot.rs): try every rotatable
 * tile turned one, two and three steps on a copy of the board, score each
 * trial from the networks the connection check finds, and pick the first
 * trial with the highest score above zero.
 */
module Bot {
  import opened Seqs
  import opened Components
  import opened Grid
  import opened Connectivity
  import opened Flood
  import opened GameBoard
  import opened Connections

  /** Rotate the tile at (x, y) `rotationCount` times. */
  datatype BotMove = BotMove(x: nat, y: nat, rotationCount: nat)

  // ---------------------------------------------------------------------
  // The score of a board
  // ---------------------------------------------------------------------

  /** The marking a cell's networks give it: `Ok` in both, `Left` or `Right` in one, else none. */
  ghost function NetMark(g: Grid, c: Cell): Marking
    requires ValidGrid(g)
  {
    if c in LeftNet(g) && c in RightNet(g) then Ok
    else if c in LeftNet(g) then Left
    else if c in RightNet(g) then Right
    else Unmarked
  }

  /** The settled marking is `Ok` or `Right` exactly when the networks say so. */
  lemma SettledIsNetMark(g: Grid, marks: seq<Marking>, c: Cell)
    requires ValidGrid(g) && |marks| == |g.tiles| && InBounds(g, c.x, c.y)
    ensures Settled(g, marks, c) == Ok <==> NetMark(g, c) == Ok
    ensures Settled(g, marks, c) == Right <==> NetMark(g, c) == Right
  {
  }

  /** The cells of row j left of column i whose network marking is `kind`. */
  ghost function RowCount(g: Grid, kind: Marking, j: nat, i: nat): nat
    requires ValidGrid(g)
  {
    if i == 0 then 0
    else RowCount(g, kind, j, i - 1) + (if NetMark(g, Cell(i - 1, j)) == kind then 1 else 0)
  }

  /** The cells of the rows above row j whose network marking is `kind`. */
  ghost function GridCount(g: Grid, kind: Marking, j: nat): nat
    requires ValidGrid(g)
  {
    if j == 0 then 0 else GridCount(g, kind, j - 1) + RowCount(g, kind, j - 1, g.width)
  }

  /** A right-edge cell of row j that only the right network reaches and whose tile leads off the board. */
  ghost predicate RightEdgeBonus(g: Grid, j: nat)
    requires ValidGrid(g)
  {
    g.width > 0 && NetMark(g, Cell(g.width - 1, j)) == Right
    && At(g, g.width - 1, j).Some? && HasConnection(At(g, g.width - 1, j).value, RIGHT)
  }

  /** The rows above row j with a right-edge bonus. */
  ghost function EdgeBonuses(g: Grid, j: nat): nat
    requires ValidGrid(g)
  {
    if j == 0 then 0 else EdgeBonuses(g, j - 1) + (if RightEdgeBonus(g, j - 1) then 1 else 0)
  }

  /** Some left pin lies in the network of the right pins: the board would zap. */
  ghost predicate Zaps(g: Grid)
    requires ValidGrid(g)
  {
    PinCount(g, 0, LEFT, RightNet(g), g.height) > 0
  }

  /**
   * The bot's valuation of a board: when it zaps, two points per cell of
   * both networks; otherwise a point per cell only the right network
   * reaches, and three more per such right-edge cell leading off the board.
   */
  ghost function Score(g: Grid): int
    requires ValidGrid(g)
  {
    if Zaps(g) then 2 * GridCount(g, Ok, g.height)
    else GridCount(g, Right, g.height) + 3 * EdgeBonuses(g, g.height)
  }

  /** A row has at most i counted cells left of column i. */
  lemma {:induction false} RowCountAtMost(g: Grid, kind: Marking, j: nat, i: nat)
    requires ValidGrid(g)
    ensures RowCount(g, kind, j, i) <= i
  {
    if i > 0 {
      RowCountAtMost(g, kind, j, i - 1);
    }
  }

  /** The rows above row j hold at most j * width counted cells and j edge bonuses. */
  lemma {:induction false} GridCountAtMost(g: Grid, kind: Marking, j: nat)
    requires ValidGrid(g)
    ensures GridCount(g, kind, j) <= j * g.width
    ensures EdgeBonuses(g, j) <= j
  {
    if j > 0 {
      GridCountAtMost(g, kind, j - 1);
      RowCountAtMost(g, kind, j - 1, g.width);
      assert (j - 1) * g.width + g.width == j * g.width;
    }
  }

  /**
   * The score is at most two points a cell when the board zaps, and
   * otherwise a point a cell plus three a row.
   */
  lemma ScoreAtMost(g: Grid)
    requires ValidGrid(g)
    ensures Score(g) <= if Zaps(g) then 2 * (g.width * g.height) else g.width * g.height + 3 * g.height
  {
    GridCountAtMost(g, Ok, g.height);
    GridCountAtMost(g, Right, g.height);
    assert g.height * g.width == g.width * g.height;
  }

  /** `m` holds the markings a connection check settles `marks` to, cell by cell. */
  ghost predicate IsSettled(g: Grid, marks: seq<Marking>, m: seq<Marking>)
    requires ValidGrid(g) && |marks| == |g.tiles| && |m| == |g.tiles|
  {
    forall c: Cell :: InBounds(g, c.x, c.y) ==> MarkOf(g, m, c) == Settled(g, marks, c)
  }

  /** Count the `Ok` cells of settled markings, row by row as the source does. */
  method CountOk(g: Grid, marks: seq<Marking>, m: seq<Marking>) returns (n: nat)
    requires ValidGrid(g) && |marks| == |g.tiles| && |m| == |g.tiles|
    requires IsSettled(g, marks, m)
    ensures n == GridCount(g, Ok, g.height)
  {
    n := 0;
    var j := 0;
    while j < g.height
      invariant j <= g.height && n == GridCount(g, Ok, j)
    {
      var i := 0;
      while i < g.width
        invariant i <= g.width && n == GridCount(g, Ok, j) + RowCount(g, Ok, j, i)
      {
        SettledIsNetMark(g, marks, Cell(i, j));
        if MarkOf(g, m, Cell(i, j)) == Ok {
          n := n + 1;
        }
        i := i + 1;
      }
      j := j + 1;
    }
  }

  /** Count the `Right` cells and the right-edge bonuses, row by row as the source does. */
  method CountRight(g: Grid, marks: seq<Marking>, m: seq<Marking>) returns (n: nat, bonus: nat)
    requires ValidGrid(g) && |marks| == |g.tiles| && |m| == |g.tiles|
    requires IsSettled(g, marks, m)
    ensures n == GridCount(g, Right, g.height) && bonus == EdgeBonuses(g, g.height)
  {
    n, bonus := 0, 0;
    var j := 0;
    while j < g.height
      invariant j <= g.height && n == GridCount(g, Right, j) && bonus == EdgeBonuses(g, j)
    {
      var k, edge := CountRightRow(g, marks, m, j);
      assert GridCount(g, Right, j + 1) == n + k && EdgeBonuses(g, j + 1) == bonus + edge;
      n, bonus := n + k, bonus + edge;
      j := j + 1;
    }
  }

  /** One row of `CountRight`: its `Right` cells, and 1 when its last cell earns the edge bonus. */
  method CountRightRow(g: Grid, marks: seq<Marking>, m: seq<Marking>, j: nat) returns (k: nat, edge: nat)
    requires ValidGrid(g) && |marks| == |g.tiles| && |m| == |g.tiles| && j < g.height
    requires IsSettled(g, marks, m)
    ensures k == RowCount(g, Right, j, g.width) && edge == (if RightEdgeBonus(g, j) then 1 else 0)
  {
    k, edge := 0, 0;
    var i := 0;
    while i < g.width
      invariant i <= g.width && k == RowCount(g, Right, j, i)
      invariant edge == (if i == g.width && RightEdgeBonus(g, j) then 1 else 0)
    {
      SettledIsNetMark(g, marks, Cell(i, j));
      if MarkOf(g, m, Cell(i, j)) == Right {
        k := k + 1;
        if i == g.width - 1 && At(g, i, j).Some? && HasConnection(At(g, i, j).value, RIGHT) {
          edge := edge + 1;
        }
      }
      i := i + 1;
    }
  }

  /**
   * `evaluate_connections`: run the connection check on the board and
   * score the markings it leaves. Only markings and pin counters change.
   */
  method Evaluate(b: Board) returns (r: Board, score: int)
    requires Valid(b) && (b.height > 0 ==> b.width > 0)
    ensures Valid(r) && r == b.(markings := r.markings, leftPins := r.leftPins, rightPins := r.rightPins)
    ensures score == Score(b.grid)
  {
    var zap;
    r, zap := CheckConnections(b);
    if zap != 0 {
      var n := CountOk(b.grid, b.markings, r.markings);
      score := 2 * n;
    } else {
      var n, bonus := CountRight(b.grid, b.markings, r.markings);
      score := n + 3 * bonus;
    }
  }

  // ---------------------------------------------------------------------
  // The search
  // ---------------------------------------------------------------------

  /** A tile worth turning: present, and neither a single connection nor all four. */
  predicate Rotatable(g: Grid, x: nat, y: nat)
    requires ValidGrid(g)
  {
    At(g, x, y).Some? && At(g, x, y).value.connections !in {1, 2, 4, 8, 15}
  }

  /** A move the bot considers: a rotatable tile of the board turned one to three steps. */
  predicate IsTrial(b: Board, m: BotMove)
    requires Valid(b)
  {
    m.x < b.width && m.y < b.height && Rotatable(b.grid, m.x, m.y) && 1 <= m.rotationCount <= 3
  }

  /** The grid after move `m`: the tile turned `rotationCount` times, nothing else changed. */
  function TrialGrid(b: Board, m: BotMove): (g: Grid)
    requires Valid(b) && IsTrial(b, m)
    ensures ValidGrid(g) && g.width == b.width && g.height == b.height
  {
    Set(b.grid, m.x, m.y, Some(RotateN(At(b.grid, m.x, m.y).value, m.rotationCount)))
  }

  /** The score of the board after move `m`; zero for a move the bot never considers. */
  ghost function TrialScore(b: Board, m: BotMove): int
  {
    if Valid(b) && IsTrial(b, m) then Score(TrialGrid(b, m)) else 0
  }

  /** The three trials of cell (x, y), or none when its tile is not rotatable. */
  function CellTrials(b: Board, x: nat, y: nat): (ts: seq<BotMove>)
    requires Valid(b)
    ensures forall i :: 0 <= i < |ts| ==> ts[i].x == x && ts[i].y == y
  {
    if x < b.width && y < b.height && Rotatable(b.grid, x, y)
    then [BotMove(x, y, 1), BotMove(x, y, 2), BotMove(x, y, 3)]
    else []
  }

  /** The trials of the cells of column x above row n, top row first. */
  function ColumnTrials(b: Board, x: nat, n: nat): (ts: seq<BotMove>)
    requires Valid(b)
  {
    if n == 0 then [] else ColumnTrials(b, x, n - 1) + CellTrials(b, x, n - 1)
  }

  /** The trials of the columns left of column n, in the source's order. */
  function ColumnsTrials(b: Board, n: nat): (ts: seq<BotMove>)
    requires Valid(b)
  {
    if n == 0 then [] else ColumnsTrials(b, n - 1) + ColumnTrials(b, n - 1, b.height)
  }

  /** Every trial the bot tries, column by column, row by row, one to three turns. */
  function Trials(b: Board): seq<BotMove>
    requires Valid(b)
  {
    ColumnsTrials(b, b.width)
  }

  /** `scores` holds the score of every trial of `done`, in order. */
  ghost predicate Scored(b: Board, done: seq<BotMove>, scores: seq<int>)
    decreases |done|
  {
    |done| == |scores|
    && (|done| > 0 ==>
          Scored(b, done[..|done| - 1], scores[..|scores| - 1])
          && scores[|scores| - 1] == TrialScore(b, done[|done| - 1]))
  }

  /** Scoring one more trial. */
  lemma ScoredSnoc(b: Board, done: seq<BotMove>, scores: seq<int>, m: BotMove)
    requires Scored(b, done, scores)
    ensures Scored(b, done + [m], scores + [TrialScore(b, m)])
  {
    assert (done + [m])[..|done|] == done;
    assert (scores + [TrialScore(b, m)])[..|scores|] == scores;
  }

  /** Each recorded score is the score of its trial. */
  lemma {:induction false} ScoredAt(b: Board, done: seq<BotMove>, scores: seq<int>, i: nat)
    requires Scored(b, done, scores) && i < |done|
    ensures scores[i] == TrialScore(b, done[i])
    decreases |done|
  {
    var n := |done| - 1;
    if i < n {
      ScoredAt(b, done[..n], scores[..n], i);
    }
  }

  /**
   * The choice after the trials `done` scored `scores`: nothing while no
   * score is above zero, otherwise the trial `done[k]` with the top score,
   * earlier than every other trial with that score.
   */
  ghost predicate Chosen(done: seq<BotMove>, scores: seq<int>, best: Option<BotMove>, bestScore: int, k: nat) {
    |scores| == |done|
    && (best.None? ==> bestScore == 0 && forall i :: 0 <= i < |scores| ==> scores[i] <= 0)
    && (best.Some? ==>
          k < |done| && done[k] == best.value && bestScore == scores[k] && bestScore > 0
          && (forall i :: 0 <= i < |scores| ==> scores[i] <= bestScore)
          && (forall i :: 0 <= i < k ==> scores[i] < bestScore))
  }

  /** One more trial: a strictly higher score takes over, a tie keeps the earlier trial. */
  lemma ChosenStep(done: seq<BotMove>, scores: seq<int>, best: Option<BotMove>, bestScore: int, k: nat,
                   m: BotMove, s: int)
    requires Chosen(done, scores, best, bestScore, k)
    ensures s > bestScore ==> Chosen(done + [m], scores + [s], Some(m), s, |done|)
    ensures s <= bestScore ==> Chosen(done + [m], scores + [s], best, bestScore, k)
  {
    var done', scores' := done + [m], scores + [s];
    assert done'[|done|] == m && scores'[|scores|] == s;
    assert forall i :: 0 <= i < |scores| ==> scores'[i] == scores[i];
    if best.Some? {
      assert done'[k] == done[k];
    }
  }

  /**
   * One trial on the copy `sim`, whose tile at (x, y) has been turned
   * rot - 1 times so far: turn it once more and evaluate the copy.
   */
  method TryOnce(b: Board, x: nat, y: nat, rot: nat, sim: Board, ghost done: seq<BotMove>, ghost scores: seq<int>,
                 best: Option<BotMove>, bestScore: int, ghost k: nat)
    returns (sim': Board, ghost scores': seq<int>, best': Option<BotMove>, bestScore': int, ghost k': nat)
    requires Valid(b) && x < b.width && y < b.height && Rotatable(b.grid, x, y) && 1 <= rot <= 3
    requires Valid(sim) && sim.width == b.width && sim.height == b.height
    requires sim.grid == Set(b.grid, x, y, Some(RotateN(At(b.grid, x, y).value, rot - 1)))
    requires Scored(b, done, scores) && Chosen(done, scores, best, bestScore, k)
    ensures Valid(sim') && sim'.width == b.width && sim'.height == b.height
    ensures sim'.grid == Set(b.grid, x, y, Some(RotateN(At(b.grid, x, y).value, rot)))
    ensures Scored(b, done + [BotMove(x, y, rot)], scores')
    ensures Chosen(done + [BotMove(x, y, rot)], scores', best', bestScore', k')
  {
    IdxInRange(b.width, b.height, x, y);
    var turned := sim.(grid := Set(sim.grid, x, y, Some(Rotate(Get(sim.grid, x, y).value))));
    assert turned.grid == TrialGrid(b, BotMove(x, y, rot));
    var score;
    sim', score := Evaluate(turned);
    ScoredSnoc(b, done, scores, BotMove(x, y, rot));
    ChosenStep(done, scores, best, bestScore, k, BotMove(x, y, rot), score);
    scores' := scores + [score];
    if score > bestScore {
      best', bestScore', k' := Some(BotMove(x, y, rot)), score, |done|;
    } else {
      best', bestScore', k' := best, bestScore, k;
    }
  }

  /** Storing the tile a cell already holds changes nothing. */
  lemma SetSame(g: Grid, x: nat, y: nat)
    requires ValidGrid(g) && InBounds(g, x, y)
    ensures Set(g, x, y, At(g, x, y)) == g
  {
    IdxInRange(g.width, g.height, x, y);
  }

  /** The turns from `rot` to three of the tile at (x, y): the rest of `for rot in 1..=3`. */
  function Turns(x: nat, y: nat, rot: nat): (ts: seq<BotMove>)
    decreases 4 - rot
  {
    if rot > 3 then [] else [BotMove(x, y, rot)] + Turns(x, y, rot + 1)
  }

  /** The trials of turns `rot` to three, the copy's tile already turned rot - 1 times. */
  method TryTurns(b: Board, x: nat, y: nat, rot: nat, sim: Board, ghost done: seq<BotMove>, ghost scores: seq<int>,
                  best: Option<BotMove>, bestScore: int, ghost k: nat)
    returns (ghost scores': seq<int>, best': Option<BotMove>, bestScore': int, ghost k': nat)
    requires Valid(b) && x < b.width && y < b.height && Rotatable(b.grid, x, y) && 1 <= rot <= 4
    requires Valid(sim) && sim.width == b.width && sim.height == b.height
    requires sim.grid == Set(b.grid, x, y, Some(RotateN(At(b.grid, x, y).value, rot - 1)))
    requires Scored(b, done, scores) && Chosen(done, scores, best, bestScore, k)
    ensures Scored(b, done + Turns(x, y, rot), scores')
    ensures Chosen(done + Turns(x, y, rot), scores', best', bestScore', k')
    decreases 4 - rot
  {
    if rot > 3 {
      assert done + Turns(x, y, rot) == done;
      return scores, best, bestScore, k;
    }
    var sim', scores1, best1, bestScore1, k1 := TryOnce(b, x, y, rot, sim, done, scores, best, bestScore, k);
    ghost var done1 := done + [BotMove(x, y, rot)];
    scores', best', bestScore', k' := TryTurns(b, x, y, rot + 1, sim', done1, scores1, best1, bestScore1, k1);
    assert Turns(x, y, rot) == [BotMove(x, y, rot)] + Turns(x, y, rot + 1);
    AppendAssoc(done, [BotMove(x, y, rot)], Turns(x, y, rot + 1));
  }

  /**
   * The three trials of one rotatable tile, on one copy of the board: each
   * turns the tile once more and evaluates the copy.
   */
  method TryRotations(b: Board, x: nat, y: nat, ghost done: seq<BotMove>, ghost scores: seq<int>,
                      best: Option<BotMove>, bestScore: int, ghost k: nat)
    returns (ghost scores': seq<int>, best': Option<BotMove>, bestScore': int, ghost k': nat)
    requires Valid(b) && x < b.width && y < b.height && Rotatable(b.grid, x, y)
    requires Scored(b, done, scores) && Chosen(done, scores, best, bestScore, k)
    ensures Scored(b, done + CellTrials(b, x, y), scores')
    ensures Chosen(done + CellTrials(b, x, y), scores', best', bestScore', k')
  {
    SetSame(b.grid, x, y);
    assert b.grid == Set(b.grid, x, y, Some(RotateN(At(b.grid, x, y).value, 0)));
    scores', best', bestScore', k' := TryTurns(b, x, y, 1, b, done, scores, best, bestScore, k);
    assert Turns(x, y, 1) == CellTrials(b, x, y) by {
      assert Turns(x, y, 3) == [BotMove(x, y, 3)];
    }
  }

  /** The trials of cell (x, y): none when its tile is missing or not worth turning. */
  method TryCell(b: Board, x: nat, y: nat, ghost done: seq<BotMove>, ghost scores: seq<int>,
                 best: Option<BotMove>, bestScore: int, ghost k: nat)
    returns (ghost scores': seq<int>, best': Option<BotMove>, bestScore': int, ghost k': nat)
    requires Valid(b) && x < b.width && y < b.height
    requires Scored(b, done, scores) && Chosen(done, scores, best, bestScore, k)
    ensures Scored(b, done + CellTrials(b, x, y), scores')
    ensures Chosen(done + CellTrials(b, x, y), scores', best', bestScore', k')
  {
    if Rotatable(b.grid, x, y) {
      scores', best', bestScore', k' := TryRotations(b, x, y, done, scores, best, bestScore, k);
    } else {
      assert done + CellTrials(b, x, y) == done;
      scores', best', bestScore', k' := scores, best, bestScore, k;
    }
  }

  /** The trials before cell (x, y): those of the columns left of x, then of column x above row y. */
  function TrialsBefore(b: Board, x: nat, y: nat): (ts: seq<BotMove>)
    requires Valid(b)
  {
    if y == 0 then ColumnsTrials(b, x) else TrialsBefore(b, x, y - 1) + CellTrials(b, x, y - 1)
  }

  /** Column x done: the trials before the next column. */
  lemma {:induction false} TrialsBeforeColumnEnd(b: Board, x: nat, y: nat)
    requires Valid(b)
    ensures TrialsBefore(b, x, y) == ColumnsTrials(b, x) + ColumnTrials(b, x, y)
  {
    if y > 0 {
      TrialsBeforeColumnEnd(b, x, y - 1);
    }
  }

  /** The trials of column x, top row first. */
  method TryColumn(b: Board, x: nat, ghost scores: seq<int>,
                   best: Option<BotMove>, bestScore: int, ghost k: nat)
    returns (ghost scores': seq<int>, best': Option<BotMove>, bestScore': int, ghost k': nat)
    requires Valid(b) && x < b.width
    requires Scored(b, ColumnsTrials(b, x), scores) && Chosen(ColumnsTrials(b, x), scores, best, bestScore, k)
    ensures Scored(b, ColumnsTrials(b, x + 1), scores')
    ensures Chosen(ColumnsTrials(b, x + 1), scores', best', bestScore', k')
  {
    scores', best', bestScore', k' := scores, best, bestScore, k;
    var y := 0;
    while y < b.height
      invariant y <= b.height
      invariant Scored(b, TrialsBefore(b, x, y), scores')
      invariant Chosen(TrialsBefore(b, x, y), scores', best', bestScore', k')
    {
      scores', best', bestScore', k' := TryCell(b, x, y, TrialsBefore(b, x, y), scores', best', bestScore', k');
      y := y + 1;
    }
    TrialsBeforeColumnEnd(b, x, b.height);
  }

  /** Move `m` is trial k of `ts`, scores above zero, and no trial scores higher or ties it earlier. */
  ghost predicate FirstBest(b: Board, ts: seq<BotMove>, m: BotMove) {
    exists k :: 0 <= k < |ts| && ts[k] == m && TrialScore(b, m) > 0
      && (forall i :: 0 <= i < |ts| ==> TrialScore(b, ts[i]) <= TrialScore(b, m))
      && (forall i :: 0 <= i < k ==> TrialScore(b, ts[i]) < TrialScore(b, m))
  }

  /**
   * `determine_next_move`: nothing when no trial scores above zero;
   * otherwise the first trial, in the source's order, with the top score.
   * The board is passed by value, so the caller's board cannot change.
   */
  method DetermineNextMove(b: Board) returns (m: Option<BotMove>)
    requires Valid(b)
    ensures m.None? <==> forall i :: 0 <= i < |Trials(b)| ==> TrialScore(b, Trials(b)[i]) <= 0
    ensures m.Some? ==> FirstBest(b, Trials(b), m.value)
    ensures m.Some? ==> IsTrial(b, m.value)
  {
    var bestScore := 0;
    ghost var k: nat := 0;
    ghost var scores: seq<int> := [];
    m := None;
    var x := 0;
    while x < b.width
      invariant x <= b.width
      invariant Scored(b, ColumnsTrials(b, x), scores)
      invariant Chosen(ColumnsTrials(b, x), scores, m, bestScore, k)
    {
      scores, m, bestScore, k := TryColumn(b, x, scores, m, bestScore, k);
      x := x + 1;
    }
    ChosenIsFirstBest(b, Trials(b), scores, m, bestScore, k);
  }

  /** The choice over scored trials is the first best trial, or nothing when none scores above zero. */
  lemma ChosenIsFirstBest(b: Board, ts: seq<BotMove>, scores: seq<int>, m: Option<BotMove>, bestScore: int, k: nat)
    requires Scored(b, ts, scores) && Chosen(ts, scores, m, bestScore, k)
    ensures m.None? <==> forall i :: 0 <= i < |ts| ==> TrialScore(b, ts[i]) <= 0
    ensures m.Some? ==> FirstBest(b, ts, m.value)
  {
    forall i | 0 <= i < |ts| ensures scores[i] == TrialScore(b, ts[i]) {
      ScoredAt(b, ts, scores, i);
    }
    if m.Some? {
      assert ts[k] == m.value;
    }
  }

  /** At most one trial is the first best: the bot's choice is determined by the board. */
  lemma FirstBestUnique(b: Board, ts: seq<BotMove>, m1: BotMove, m2: BotMove)
    requires FirstBest(b, ts, m1) && FirstBest(b, ts, m2)
    ensures m1 == m2
  {
    var k1 :| 0 <= k1 < |ts| && ts[k1] == m1 && TrialScore(b, m1) > 0
      && (forall i :: 0 <= i < |ts| ==> TrialScore(b, ts[i]) <= TrialScore(b, m1))
      && (forall i :: 0 <= i < k1 ==> TrialScore(b, ts[i]) < TrialScore(b, m1));
    var k2 :| 0 <= k2 < |ts| && ts[k2] == m2 && TrialScore(b, m2) > 0
      && (forall i :: 0 <= i < |ts| ==> TrialScore(b, ts[i]) <= TrialScore(b, m2))
      && (forall i :: 0 <= i < k2 ==> TrialScore(b, ts[i]) < TrialScore(b, m2));
    assert TrialScore(b, ts[k1]) <= TrialScore(b, m2) && TrialScore(b, ts[k2]) <= TrialScore(b, m1);
    assert k1 == k2;
  }
}
