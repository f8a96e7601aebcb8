/**
 * Finding the connecting networks of a board (zapzap/src/systems/board.rs,
 * `check_connections`): clear the markings, flood from every right-edge pin
 * with `Right`, then from every left-edge pin with `Left` (or `Ok` where the
 * right flood already arrived), and count the pins of both edges that ended
 * up `Ok`.
 */
module Connections {
  import opened Components
  import opened Grid
  import opened Connectivity
  import opened Flood
  import opened GameBoard

  /** Clearing a marking keeps `Animating` and sets everything else to `None`. */
  function ResetMark(m: Marking): (r: Marking)
    ensures r == Unmarked || r == Animating
    ensures r == Animating <==> m == Animating
  {
    if m == Animating then Animating else Unmarked
  }

  /** The markings after the clearing pass. */
  function ResetMarkings(marks: seq<Marking>): (r: seq<Marking>)
    ensures |r| == |marks|
    ensures forall i :: 0 <= i < |r| ==> r[i] == ResetMark(marks[i])
  {
    seq(|marks|, i requires 0 <= i < |marks| => ResetMark(marks[i]))
  }

  /** The column of the right-hand pins. */
  function RightColumn(g: Grid): nat {
    if g.width == 0 then 0 else g.width - 1
  }

  /**
   * The union of the components of the pins in column `x`, rows below `k`,
   * whose tile has a connection leading off the board in direction `dir`.
   */
  ghost function EdgeNet(g: Grid, x: nat, dir: Direction, k: nat): (r: set<Cell>)
    requires ValidGrid(g)
    ensures r <= Cells(g)
  {
    if k == 0 then {}
    else EdgeNet(g, x, dir, k - 1) + (if Accepts(g, Cell(x, k - 1), dir) then Component(g, Cell(x, k - 1)) else {})
  }

  /** Everything connected to a right-edge pin. */
  ghost function RightNet(g: Grid): set<Cell>
    requires ValidGrid(g)
  {
    EdgeNet(g, RightColumn(g), RIGHT, g.height)
  }

  /** Everything connected to a left-edge pin. */
  ghost function LeftNet(g: Grid): set<Cell>
    requires ValidGrid(g)
  {
    EdgeNet(g, 0, LEFT, g.height)
  }

  /** The marking `check_connections` leaves on cell `c` of a board whose markings were `marks`. */
  ghost function Settled(g: Grid, marks: seq<Marking>, c: Cell): Marking
    requires ValidGrid(g) && |marks| == |g.tiles| && InBounds(g, c.x, c.y)
  {
    if c in LeftNet(g) && c in RightNet(g) then Ok
    else if c in LeftNet(g) then Left
    else if c in RightNet(g) then Right
    else ResetMark(MarkOf(g, marks, c))
  }

  /** The number of rows below `k` whose pin in column `x` leads off in `dir` and lies in `other`. */
  ghost function PinCount(g: Grid, x: nat, dir: Direction, other: set<Cell>, k: nat): nat
    requires ValidGrid(g)
  {
    if k == 0 then 0
    else PinCount(g, x, dir, other, k - 1) + (if Accepts(g, Cell(x, k - 1), dir) && Cell(x, k - 1) in other then 1 else 0)
  }

  /** A pin network is closed under links. */
  lemma {:induction false} EdgeNetClosed(g: Grid, x: nat, dir: Direction, k: nat)
    requires ValidGrid(g)
    ensures Closed(g, EdgeNet(g, x, dir, k))
    decreases k
  {
    if k > 0 {
      EdgeNetClosed(g, x, dir, k - 1);
      var s := Cell(x, k - 1);
      if Accepts(g, s, dir) {
        ComponentClosed(g, s);
        ClosedUnion(g, EdgeNet(g, x, dir, k - 1), Component(g, s));
      } else {
        assert EdgeNet(g, x, dir, k) == EdgeNet(g, x, dir, k - 1);
      }
    }
  }

  /** A cell is in a pin network exactly when it is connected to one of its pins. */
  lemma {:induction false} EdgeNetMembers(g: Grid, x: nat, dir: Direction, k: nat, c: Cell)
    requires ValidGrid(g)
    ensures c in EdgeNet(g, x, dir, k) <==>
      exists j :: 0 <= j < k && Accepts(g, Cell(x, j), dir) && Reachable(g, {}, Cell(x, j), c)
    decreases k
  {
    if k > 0 {
      EdgeNetMembers(g, x, dir, k - 1, c);
      if Accepts(g, Cell(x, k - 1), dir) && Reachable(g, {}, Cell(x, k - 1), c) {
        assert c in Component(g, Cell(x, k - 1));
      }
    }
  }

  /** Every accepting pin lies in its own network. */
  lemma {:induction false} PinInEdgeNet(g: Grid, x: nat, dir: Direction, k: nat, j: nat)
    requires ValidGrid(g) && j < k && Accepts(g, Cell(x, j), dir)
    ensures Cell(x, j) in EdgeNet(g, x, dir, k)
  {
    ReachableRefl(g, {}, Cell(x, j));
    EdgeNetMembers(g, x, dir, k, Cell(x, j));
  }

  /** A closed set holding every accepting pin holds the whole pin network. */
  lemma {:induction false} EdgeNetWithin(g: Grid, x: nat, dir: Direction, k: nat, s: set<Cell>)
    requires ValidGrid(g) && Closed(g, s)
    requires forall j: nat :: j < k && Accepts(g, Cell(x, j), dir) ==> Cell(x, j) in s
    ensures EdgeNet(g, x, dir, k) <= s
    decreases k
  {
    if k > 0 {
      EdgeNetWithin(g, x, dir, k - 1, s);
      if Accepts(g, Cell(x, k - 1), dir) {
        ClosedContainsComponent(g, s, Cell(x, k - 1));
      }
    }
  }

  /** A count of rows is positive exactly when some row counts. */
  lemma {:induction false} PinCountPositive(g: Grid, x: nat, dir: Direction, other: set<Cell>, k: nat)
    requires ValidGrid(g)
    ensures PinCount(g, x, dir, other, k) > 0 <==>
      exists j :: 0 <= j < k && Accepts(g, Cell(x, j), dir) && Cell(x, j) in other
    decreases k
  {
    if k > 0 {
      PinCountPositive(g, x, dir, other, k - 1);
    }
  }

  /** No cell carries a flood marker. */
  ghost predicate Cleared(g: Grid, marks: seq<Marking>)
    requires ValidGrid(g) && |marks| == |g.tiles|
  {
    forall c: Cell :: InBounds(g, c.x, c.y) ==> !IsFloodMarker(MarkOf(g, marks, c))
  }

  lemma ResetIsCleared(g: Grid, marks: seq<Marking>)
    requires ValidGrid(g) && |marks| == |g.tiles|
    ensures Cleared(g, ResetMarkings(marks))
    ensures forall c: Cell :: InBounds(g, c.x, c.y) ==>
      MarkOf(g, ResetMarkings(marks), c) == ResetMark(MarkOf(g, marks, c))
  {
    forall c: Cell | InBounds(g, c.x, c.y)
      ensures MarkOf(g, ResetMarkings(marks), c) == ResetMark(MarkOf(g, marks, c))
    {
      IdxInRange(g.width, g.height, c.x, c.y);
    }
  }

  /** Two marking passes with the same marker compose. */
  lemma MarkedCompose(g: Grid, m0: seq<Marking>, m1: seq<Marking>, m2: seq<Marking>,
                      s1: set<Cell>, s2: set<Cell>, marker: Marking)
    requires ValidGrid(g) && |m0| == |g.tiles|
    requires MarkedExactly(g, m0, m1, s1, marker) && MarkedExactly(g, m1, m2, s2, marker)
    ensures MarkedExactly(g, m0, m2, s1 + s2, marker)
  {
  }

  /** After marking `s` over cleared markings, the cells carrying the marker are `s`. */
  lemma CarryingMarked(g: Grid, m0: seq<Marking>, m: seq<Marking>, s: set<Cell>, marker: Marking)
    requires ValidGrid(g) && |m0| == |g.tiles| && Cleared(g, m0) && IsFloodMarker(marker)
    requires s <= Cells(g) && MarkedExactly(g, m0, m, s, marker)
    ensures Carrying(g, m, marker) == s
  {
  }

  /** One step of the right-edge pass: flooding pin row `j` adds its component. */
  lemma RightStep(g: Grid, m0: seq<Marking>, m: seq<Marking>, m': seq<Marking>, j: nat)
    requires ValidGrid(g) && |m0| == |g.tiles| && Cleared(g, m0) && j < g.height
    requires MarkedExactly(g, m0, m, EdgeNet(g, RightColumn(g), RIGHT, j), Right)
    requires Accepts(g, Cell(RightColumn(g), j), RIGHT) ==>
      MarkedExactly(g, m, m', FloodSet(g, m, Cell(RightColumn(g), j), RIGHT, Right), Right)
    requires !Accepts(g, Cell(RightColumn(g), j), RIGHT) ==> m' == m
    ensures MarkedExactly(g, m0, m', EdgeNet(g, RightColumn(g), RIGHT, j + 1), Right)
  {
    var x := RightColumn(g);
    var s := Cell(x, j);
    var n := EdgeNet(g, x, RIGHT, j);
    if Accepts(g, s, RIGHT) {
      CarryingMarked(g, m0, m, n, Right);
      EdgeNetClosed(g, x, RIGHT, j);
      ReachOfClosed(g, n, s, RIGHT);
      var f := FloodSet(g, m, s, RIGHT, Right);
      if s in n {
        ClosedContainsComponent(g, n, s);
        assert n + Component(g, s) == n + f;
      } else {
        assert f == Component(g, s);
      }
      MarkedCompose(g, m0, m, m', n, f, Right);
    } else {
      assert EdgeNet(g, x, RIGHT, j + 1) == n;
    }
  }

  /**
   * The markings during the left-edge pass: cells of `left` carry `Ok` when
   * the right pass reached them and `Left` otherwise; the rest keep what the
   * right pass left.
   */
  ghost predicate LeftPassed(g: Grid, m1: seq<Marking>, m: seq<Marking>, left: set<Cell>, right: set<Cell>)
    requires ValidGrid(g) && |m1| == |g.tiles|
  {
    |m| == |m1|
    && forall c: Cell :: InBounds(g, c.x, c.y) ==>
      MarkOf(g, m, c) == if c in left then (if c in right then Ok else Left) else MarkOf(g, m1, c)
  }

  /** The marker the left pass floods pin `s` with. */
  function LeftMarker(current: Marking): Marking {
    if current == Right || current == Ok then Ok else Left
  }

  /** In the left pass, the cells carrying `Ok` and `Left`. */
  lemma LeftCarrying(g: Grid, m0: seq<Marking>, m1: seq<Marking>, m: seq<Marking>, left: set<Cell>, right: set<Cell>)
    requires ValidGrid(g) && |m0| == |g.tiles| && Cleared(g, m0)
    requires left <= Cells(g) && right <= Cells(g)
    requires MarkedExactly(g, m0, m1, right, Right) && LeftPassed(g, m1, m, left, right)
    ensures Carrying(g, m, Ok) == left * right
    ensures Carrying(g, m, Left) == left - right
  {
  }

  /** One step of the left-edge pass: flooding pin row `j` adds its component. */
  lemma LeftStep(g: Grid, m0: seq<Marking>, m1: seq<Marking>, m: seq<Marking>, m': seq<Marking>, j: nat)
    requires ValidGrid(g) && |m0| == |g.tiles| && Cleared(g, m0) && j < g.height
    requires MarkedExactly(g, m0, m1, RightNet(g), Right)
    requires LeftPassed(g, m1, m, EdgeNet(g, 0, LEFT, j), RightNet(g))
    requires Accepts(g, Cell(0, j), LEFT) ==>
      var marker := LeftMarker(MarkOf(g, m, Cell(0, j)));
      MarkedExactly(g, m, m', FloodSet(g, m, Cell(0, j), LEFT, marker), marker)
    requires !Accepts(g, Cell(0, j), LEFT) ==> m' == m
    ensures LeftPassed(g, m1, m', EdgeNet(g, 0, LEFT, j + 1), RightNet(g))
  {
    var s := Cell(0, j);
    var left := EdgeNet(g, 0, LEFT, j);
    var right := RightNet(g);
    if Accepts(g, s, LEFT) {
      var marker := LeftMarker(MarkOf(g, m, s));
      var f := FloodSet(g, m, s, LEFT, marker);
      LeftCarrying(g, m0, m1, m, left, right);
      EdgeNetClosed(g, 0, LEFT, j);
      EdgeNetClosed(g, RightColumn(g), RIGHT, g.height);
      ClosedUnion(g, left, right);
      ClosedDifference(g, left, right);
      var blocked := Carrying(g, m, marker);
      ReachOfClosed(g, blocked, s, LEFT);
      if s in left {
        ClosedContainsComponent(g, left, s);
        assert f == {};
        assert left + Component(g, s) == left;
      } else {
        assert f == Component(g, s);
        if s in right {
          ClosedContainsComponent(g, right, s);
        } else {
          forall c | c in Component(g, s) ensures c !in right {
            ReachAvoidingClosed(g, right, s, c);
            ReachableOccupied(g, right, s, c);
          }
        }
      }
      LeftStepMarks(g, m1, m, m', left, right, Component(g, s), f, marker);
    } else {
      assert EdgeNet(g, 0, LEFT, j + 1) == left;
    }
  }

  /** The per-cell bookkeeping of one left-pass step. */
  lemma LeftStepMarks(g: Grid, m1: seq<Marking>, m: seq<Marking>, m': seq<Marking>,
                      left: set<Cell>, right: set<Cell>, comp: set<Cell>, f: set<Cell>, marker: Marking)
    requires ValidGrid(g) && |m1| == |g.tiles|
    requires LeftPassed(g, m1, m, left, right)
    requires MarkedExactly(g, m, m', f, marker)
    requires f == comp || (f == {} && comp <= left)
    requires f == comp ==> (marker == Ok && comp <= right) || (marker == Left && comp !! right)
    ensures LeftPassed(g, m1, m', left + comp, right)
  {
  }

  /** Pass 1 of `check_connections`: flood `Right` from every right-edge pin, top to bottom. */
  method RightPass(g: Grid, m0: seq<Marking>) returns (m: seq<Marking>)
    requires ValidGrid(g) && |m0| == |g.tiles| && Cleared(g, m0)
    requires g.height > 0 ==> g.width > 0
    ensures MarkedExactly(g, m0, m, RightNet(g), Right)
  {
    m := m0;
    var j := 0;
    while j < g.height
      invariant j <= g.height
      invariant MarkedExactly(g, m0, m, EdgeNet(g, RightColumn(g), RIGHT, j), Right)
    {
      var m' := m;
      var x := g.width - 1;
      assert x == RightColumn(g);
      if At(g, x, j).Some? && HasConnection(At(g, x, j).value, RIGHT) {
        m' := ExpandConnections(g, m, Cell(x, j), RIGHT, Right);
      }
      RightStep(g, m0, m, m', j);
      m := m';
      j := j + 1;
    }
  }

  /**
   * Pass 2 of `check_connections`: flood from every left-edge pin, top to
   * bottom, with `Ok` when the pin already carries `Right` or `Ok` and with
   * `Left` otherwise.
   */
  method LeftPass(g: Grid, m0: seq<Marking>, m1: seq<Marking>) returns (m: seq<Marking>)
    requires ValidGrid(g) && |m0| == |g.tiles| && Cleared(g, m0)
    requires MarkedExactly(g, m0, m1, RightNet(g), Right)
    ensures LeftPassed(g, m1, m, LeftNet(g), RightNet(g))
  {
    m := m1;
    var j := 0;
    while j < g.height
      invariant j <= g.height
      invariant LeftPassed(g, m1, m, EdgeNet(g, 0, LEFT, j), RightNet(g))
    {
      var m' := m;
      if At(g, 0, j).Some? && HasConnection(At(g, 0, j).value, LEFT) {
        var marker := LeftMarker(MarkOf(g, m, Cell(0, j)));
        m' := ExpandConnections(g, m, Cell(0, j), LEFT, marker);
      }
      LeftStep(g, m0, m1, m, m', j);
      m := m';
      j := j + 1;
    }
  }

  /**
   * The pins of row `j` carry `Ok` exactly when they lie in the other
   * edge's network.
   */
  ghost predicate PinsMarked(g: Grid, m: seq<Marking>, left: set<Cell>, right: set<Cell>, j: nat)
    requires ValidGrid(g) && |m| == |g.tiles|
  {
    (Accepts(g, Cell(0, j), LEFT) ==> (MarkOf(g, m, Cell(0, j)) == Ok <==> Cell(0, j) in right))
    && (Accepts(g, Cell(RightColumn(g), j), RIGHT) ==>
          (MarkOf(g, m, Cell(RightColumn(g), j)) == Ok <==> Cell(RightColumn(g), j) in left))
  }

  /**
   * Pass 3 of `check_connections`: count the left pins and the right pins
   * that carry `Ok`; the result is 1 as soon as one left pin does.
   */
  method CountPins(g: Grid, m: seq<Marking>, ghost left: set<Cell>, ghost right: set<Cell>)
    returns (leftPins: nat, rightPins: nat, result: int)
    requires ValidGrid(g) && |m| == |g.tiles| && (g.height > 0 ==> g.width > 0)
    requires forall j: nat :: j < g.height ==> PinsMarked(g, m, left, right, j)
    ensures leftPins == PinCount(g, 0, LEFT, right, g.height)
    ensures rightPins == PinCount(g, RightColumn(g), RIGHT, left, g.height)
    ensures result == (if leftPins > 0 then 1 else 0)
  {
    leftPins, rightPins := 0, 0;
    result := 0;
    var j := 0;
    while j < g.height
      invariant j <= g.height
      invariant leftPins == PinCount(g, 0, LEFT, right, j)
      invariant rightPins == PinCount(g, RightColumn(g), RIGHT, left, j)
      invariant result == (if leftPins > 0 then 1 else 0)
    {
      assert PinsMarked(g, m, left, right, j);
      if At(g, 0, j).Some? && HasConnection(At(g, 0, j).value, LEFT) && MarkOf(g, m, Cell(0, j)) == Ok {
        result := 1;
        leftPins := leftPins + 1;
      }
      if At(g, g.width - 1, j).Some? && HasConnection(At(g, g.width - 1, j).value, RIGHT)
         && MarkOf(g, m, Cell(g.width - 1, j)) == Ok
      {
        rightPins := rightPins + 1;
      }
      j := j + 1;
    }
  }

  /**
   * `check_connections`: clear the markings (keeping `Animating`), flood
   * from every right-edge pin, then from every left-edge pin, then count
   * the pins of each edge that ended up `Ok`. The result is 1 when some
   * left pin connects, 0 otherwise. The source computes `width - 1` for
   * the right edge, so a board with rows needs a column.
   */
  method CheckConnections(b: Board) returns (r: Board, result: int)
    requires Valid(b)
    requires b.height > 0 ==> b.width > 0
    ensures r == b.(markings := r.markings, leftPins := r.leftPins, rightPins := r.rightPins)
    ensures |r.markings| == |b.markings|
    ensures forall c: Cell :: InBounds(b.grid, c.x, c.y) ==>
      MarkOf(b.grid, r.markings, c) == Settled(b.grid, b.markings, c)
    ensures r.leftPins == PinCount(b.grid, 0, LEFT, RightNet(b.grid), b.height)
    ensures r.rightPins == PinCount(b.grid, RightColumn(b.grid), RIGHT, LeftNet(b.grid), b.height)
    ensures result == (if r.leftPins > 0 then 1 else 0)
  {
    var g := b.grid;
    var m0 := ResetMarkings(b.markings);
    ResetIsCleared(g, b.markings);
    var m1 := RightPass(g, m0);
    var m := LeftPass(g, m0, m1);
    SettledMarks(g, b.markings, m0, m1, m);
    forall j: nat | j < g.height ensures PinsMarked(g, m, LeftNet(g), RightNet(g), j) {
      PinIsOk(g, b.markings, m, j);
    }
    var leftPins, rightPins, res := CountPins(g, m, LeftNet(g), RightNet(g));
    result := res;
    r := b.(markings := m, leftPins := leftPins, rightPins := rightPins);
  }

  /** After both passes every cell carries its settled marking. */
  lemma SettledMarks(g: Grid, marks: seq<Marking>, m0: seq<Marking>, m1: seq<Marking>, m: seq<Marking>)
    requires ValidGrid(g) && |marks| == |g.tiles| && m0 == ResetMarkings(marks)
    requires MarkedExactly(g, m0, m1, RightNet(g), Right)
    requires LeftPassed(g, m1, m, LeftNet(g), RightNet(g))
    ensures |m| == |marks|
    ensures forall c: Cell :: InBounds(g, c.x, c.y) ==> MarkOf(g, m, c) == Settled(g, marks, c)
  {
    ResetIsCleared(g, marks);
  }

  /** A pin is `Ok` after both passes exactly when the other edge's flood reached it. */
  lemma PinIsOk(g: Grid, marks: seq<Marking>, m: seq<Marking>, j: nat)
    requires ValidGrid(g) && |marks| == |g.tiles| && |m| == |g.tiles| && j < g.height && g.width > 0
    requires forall c: Cell :: InBounds(g, c.x, c.y) ==> MarkOf(g, m, c) == Settled(g, marks, c)
    ensures Accepts(g, Cell(0, j), LEFT) ==>
      (MarkOf(g, m, Cell(0, j)) == Ok <==> Cell(0, j) in RightNet(g))
    ensures Accepts(g, Cell(g.width - 1, j), RIGHT) ==>
      (MarkOf(g, m, Cell(g.width - 1, j)) == Ok <==> Cell(g.width - 1, j) in LeftNet(g))
  {
    if Accepts(g, Cell(0, j), LEFT) {
      PinInEdgeNet(g, 0, LEFT, g.height, j);
    }
    if Accepts(g, Cell(g.width - 1, j), RIGHT) {
      PinInEdgeNet(g, g.width - 1, RIGHT, g.height, j);
    }
  }

  /** Left pin `j1` and right pin `j2` both lead off the board and are joined by links. */
  ghost predicate PinsJoined(g: Grid, j1: nat, j2: nat)
    requires ValidGrid(g)
  {
    j1 < g.height && j2 < g.height
    && Accepts(g, Cell(0, j1), LEFT) && Accepts(g, Cell(RightColumn(g), j2), RIGHT)
    && Reachable(g, {}, Cell(0, j1), Cell(RightColumn(g), j2))
  }

  /**
   * The result is 1 exactly when some left pin and some right pin are
   * connected through the board.
   */
  lemma ResultMeansConnected(b: Board, r: Board, result: int)
    requires Valid(b) && (b.height > 0 ==> b.width > 0)
    requires r.leftPins == PinCount(b.grid, 0, LEFT, RightNet(b.grid), b.height)
    requires result == (if r.leftPins > 0 then 1 else 0)
    ensures result == 1 <==> exists j1: nat, j2: nat :: PinsJoined(b.grid, j1, j2)
  {
    var g := b.grid;
    PinCountPositive(g, 0, LEFT, RightNet(g), b.height);
    if result == 1 {
      var j1 :| 0 <= j1 < b.height && Accepts(g, Cell(0, j1), LEFT) && Cell(0, j1) in RightNet(g);
      EdgeNetMembers(g, RightColumn(g), RIGHT, g.height, Cell(0, j1));
      var j2 :| 0 <= j2 < g.height && Accepts(g, Cell(RightColumn(g), j2), RIGHT)
        && Reachable(g, {}, Cell(RightColumn(g), j2), Cell(0, j1));
      ReachableSymmetric(g, {}, Cell(RightColumn(g), j2), Cell(0, j1));
      assert PinsJoined(g, j1, j2);
    }
    if exists j1: nat, j2: nat :: PinsJoined(g, j1, j2) {
      var j1: nat, j2: nat :| PinsJoined(g, j1, j2);
      ReachableSymmetric(g, {}, Cell(0, j1), Cell(RightColumn(g), j2));
      EdgeNetMembers(g, RightColumn(g), RIGHT, g.height, Cell(0, j1));
    }
  }
}
