/**
 * The breadth-first flood fill of the board (zapzap/src/systems/board.rs,
 * `expand_connections_bfs`): starting from one cell entered through one of
 * its sides, put a marker on every tile reachable over links, never entering
 * a tile that already carries that marker.
 */
module Flood {
  import opened Components
  import opened Grid
  import opened Connectivity

  /** The marking of a cell in a column-major marking sequence. */
  function MarkOf(g: Grid, marks: seq<Marking>, c: Cell): Marking
    requires ValidGrid(g) && |marks| == |g.tiles| && InBounds(g, c.x, c.y)
  {
    IdxInRange(g.width, g.height, c.x, c.y);
    marks[Idx(g.height, c.x, c.y)]
  }

  /** The cells that already carry marking `m`. */
  ghost function Carrying(g: Grid, marks: seq<Marking>, m: Marking): (r: set<Cell>)
    requires ValidGrid(g) && |marks| == |g.tiles|
    ensures forall c :: c in r <==> InBounds(g, c.x, c.y) && MarkOf(g, marks, c) == m
  {
    set c | c in Cells(g) && MarkOf(g, marks, c) == m
  }

  /** The markers a flood places; the source refuses `None` and `Animating`. */
  predicate IsFloodMarker(m: Marking) {
    m == Left || m == Right || m == Ok
  }

  /**
   * The cells a flood of `marker` entering `seed` through side `dir` marks:
   * everything reachable from the seed without entering a cell that already
   * carries the marker, provided the seed accepts `dir`.
   */
  ghost function FloodSet(g: Grid, marks: seq<Marking>, seed: Cell, dir: Direction, marker: Marking): set<Cell>
    requires ValidGrid(g) && |marks| == |g.tiles|
  {
    if IsFloodMarker(marker) then Reach(g, Carrying(g, marks, marker), seed, dir) else {}
  }

  /** `m` is `marks` with the cells of `s`, and only those, set to `marker`. */
  ghost predicate MarkedExactly(g: Grid, marks: seq<Marking>, m: seq<Marking>, s: set<Cell>, marker: Marking)
    requires ValidGrid(g) && |marks| == |g.tiles|
  {
    |m| == |marks|
    && forall c: Cell :: InBounds(g, c.x, c.y) ==>
      MarkOf(g, m, c) == if c in s then marker else MarkOf(g, marks, c)
  }

  /** A queued visit: a cell and the side it is entered through. */
  datatype Visit = Visit(x: nat, y: nat, dir: Direction)

  function Target(v: Visit): Cell {
    Cell(v.x, v.y)
  }

  /**
   * `v` enters a neighbour of (x, y) through the side facing (x, y), and the
   * tile `t` at (x, y) has a connection toward that neighbour.
   */
  predicate Faces(t: Tile, x: nat, y: nat, v: Visit) {
    (v.x + 1 == x && v.y == y && v.dir == RIGHT && HasConnection(t, LEFT))
    || (v.x == x && v.y + 1 == y && v.dir == DOWN && HasConnection(t, UP))
    || (v.x == x + 1 && v.y == y && v.dir == LEFT && HasConnection(t, RIGHT))
    || (v.x == x && v.y == y + 1 && v.dir == UP && HasConnection(t, DOWN))
  }

  /**
   * The visits a freshly marked tile `t` at (x, y) queues, in the order
   * left, up, right, down: one per connection of the tile, except those
   * leading off the left or top edge.
   */
  function Pushes(t: Tile, x: nat, y: nat): (r: seq<Visit>)
    ensures |r| <= 4
    ensures forall v :: v in r <==> Faces(t, x, y, v)
  {
    (if HasConnection(t, LEFT) && x > 0 then [Visit(x - 1, y, RIGHT)] else [])
    + (if HasConnection(t, UP) && y > 0 then [Visit(x, y - 1, DOWN)] else [])
    + (if HasConnection(t, RIGHT) then [Visit(x + 1, y, LEFT)] else [])
    + (if HasConnection(t, DOWN) then [Visit(x, y + 1, UP)] else [])
  }

  /** Some queued visit enters `c` through a side that `c` accepts. */
  ghost predicate Pending(g: Grid, q: seq<Visit>, c: Cell)
    requires ValidGrid(g)
  {
    exists i :: 0 <= i < |q| && Target(q[i]) == c && Accepts(g, c, q[i].dir)
  }

  /** A visit that would be accepted leads to a cell of the flood. */
  ghost predicate Sound(g: Grid, blocked: set<Cell>, reach: set<Cell>, v: Visit)
    requires ValidGrid(g)
  {
    Accepts(g, Target(v), v.dir) && Target(v) !in blocked ==> Target(v) in reach
  }

  /** Every link out of a visited cell ends in a visited, blocked or pending cell. */
  ghost predicate Frontier(g: Grid, blocked: set<Cell>, visited: set<Cell>, q: seq<Visit>)
    requires ValidGrid(g)
  {
    forall a, b :: a in visited && Link(g, a, b) ==> b in visited || b in blocked || Pending(g, q, b)
  }

  /** A pending cell stays pending unless the visit removed from the front was the one for it. */
  lemma PendingPop(g: Grid, q: seq<Visit>, c: Cell)
    requires ValidGrid(g) && Pending(g, q, c)
    ensures (Target(q[0]) == c && Accepts(g, c, q[0].dir)) || Pending(g, q[1..], c)
  {
    var i :| 0 <= i < |q| && Target(q[i]) == c && Accepts(g, c, q[i].dir);
    if i > 0 {
      assert q[1..][i - 1] == q[i];
    }
  }

  lemma PendingAppend(g: Grid, q: seq<Visit>, p: seq<Visit>, c: Cell)
    requires ValidGrid(g) && (Pending(g, q, c) || Pending(g, p, c))
    ensures Pending(g, q + p, c)
  {
    if Pending(g, q, c) {
      var i :| 0 <= i < |q| && Target(q[i]) == c && Accepts(g, c, q[i].dir);
      assert (q + p)[i] == q[i];
    } else {
      var i :| 0 <= i < |p| && Target(p[i]) == c && Accepts(g, c, p[i].dir);
      assert (q + p)[|q| + i] == p[i];
    }
  }

  /** An accepted visit queued by the tile at (x, y) follows a link. */
  lemma FacesLink(g: Grid, x: nat, y: nat, v: Visit)
    requires ValidGrid(g) && At(g, x, y).Some? && Faces(At(g, x, y).value, x, y, v)
    requires Accepts(g, Target(v), v.dir)
    ensures Link(g, Cell(x, y), Target(v))
  {
  }

  /** Every link out of (x, y) is queued by the tile there. */
  lemma LinkQueued(g: Grid, x: nat, y: nat, c: Cell)
    requires ValidGrid(g) && Link(g, Cell(x, y), c)
    ensures At(g, x, y).Some? && Pending(g, Pushes(At(g, x, y).value, x, y), c)
  {
    var t := At(g, x, y).value;
    var p := Pushes(t, x, y);
    var v: Visit;
    if c.x + 1 == x {
      v := Visit(c.x, c.y, RIGHT);
    } else if c.y + 1 == y {
      v := Visit(c.x, c.y, DOWN);
    } else if c.x == x + 1 {
      v := Visit(c.x, c.y, LEFT);
    } else {
      v := Visit(c.x, c.y, UP);
    }
    assert Faces(t, x, y, v) && Accepts(g, c, v.dir);
    var i :| 0 <= i < |p| && p[i] == v;
  }

  /** Setting the marking of `c` extends the marked set by `c`. */
  lemma MarkUpdate(g: Grid, marks: seq<Marking>, m: seq<Marking>, s: set<Cell>, marker: Marking, c: Cell)
    requires ValidGrid(g) && |marks| == |g.tiles| && MarkedExactly(g, marks, m, s, marker)
    requires InBounds(g, c.x, c.y)
    ensures Idx(g.height, c.x, c.y) < |m|
    ensures MarkedExactly(g, marks, m[Idx(g.height, c.x, c.y) := marker], s + {c}, marker)
  {
    IdxInRange(g.width, g.height, c.x, c.y);
    var m' := m[Idx(g.height, c.x, c.y) := marker];
    forall d: Cell | InBounds(g, d.x, d.y)
      ensures MarkOf(g, m', d) == if d in s + {c} then marker else MarkOf(g, marks, d)
    {
      IdxInRange(g.width, g.height, d.x, d.y);
      if d != c {
        if Idx(g.height, d.x, d.y) == Idx(g.height, c.x, c.y) {
          IdxInjective(g.height, d.x, d.y, c.x, c.y);
        }
        assert MarkOf(g, m', d) == MarkOf(g, m, d);
      }
    }
  }

  /** The loop invariant of the flood, with `visited` the cells marked so far. */
  ghost predicate FloodInv(g: Grid, marks: seq<Marking>, m: seq<Marking>, seed: Cell, dir: Direction,
                           marker: Marking, visited: set<Cell>, q: seq<Visit>)
    requires ValidGrid(g) && |marks| == |g.tiles|
  {
    var blocked := Carrying(g, marks, marker);
    var reach := Reach(g, blocked, seed, dir);
    MarkedExactly(g, marks, m, visited, marker)
    && visited <= reach
    && (forall i :: 0 <= i < |q| ==> Sound(g, blocked, reach, q[i]))
    && Frontier(g, blocked, visited, q)
    && (Accepts(g, seed, dir) ==> seed in visited || seed in blocked || Pending(g, q, seed))
  }

  /** The flood's first state: nothing marked, only the seed queued. */
  lemma FloodStart(g: Grid, marks: seq<Marking>, seed: Cell, dir: Direction, marker: Marking)
    requires ValidGrid(g) && |marks| == |g.tiles|
    ensures FloodInv(g, marks, marks, seed, dir, marker, {}, [Visit(seed.x, seed.y, dir)])
  {
    var blocked := Carrying(g, marks, marker);
    var q := [Visit(seed.x, seed.y, dir)];
    if Accepts(g, seed, dir) {
      assert Target(q[0]) == seed;
      if seed !in blocked {
        ReachableRefl(g, blocked, seed);
      }
    }
  }

  /** A visit that is skipped keeps the invariant with the rest of the queue. */
  lemma FloodSkip(g: Grid, marks: seq<Marking>, m: seq<Marking>, seed: Cell, dir: Direction,
                  marker: Marking, visited: set<Cell>, q: seq<Visit>)
    requires ValidGrid(g) && |marks| == |g.tiles| && |q| > 0
    requires FloodInv(g, marks, m, seed, dir, marker, visited, q)
    requires Accepts(g, Target(q[0]), q[0].dir) ==> MarkOf(g, m, Target(q[0])) == marker
    ensures FloodInv(g, marks, m, seed, dir, marker, visited, q[1..])
  {
    var blocked := Carrying(g, marks, marker);
    forall a, b | a in visited && Link(g, a, b)
      ensures b in visited || b in blocked || Pending(g, q[1..], b)
    {
      if b !in visited && b !in blocked {
        PendingPop(g, q, b);
      }
    }
    if Accepts(g, seed, dir) && seed !in visited && seed !in blocked {
      PendingPop(g, q, seed);
    }
  }

  /** Marking the cell a visit enters keeps the invariant with its pushes queued. */
  lemma FloodMark(g: Grid, marks: seq<Marking>, m: seq<Marking>, seed: Cell, dir: Direction,
                  marker: Marking, visited: set<Cell>, q: seq<Visit>)
    requires ValidGrid(g) && |marks| == |g.tiles| && |q| > 0
    requires FloodInv(g, marks, m, seed, dir, marker, visited, q)
    requires Accepts(g, Target(q[0]), q[0].dir) && MarkOf(g, m, Target(q[0])) != marker
    ensures Target(q[0]) in Cells(g) - visited
    ensures Idx(g.height, q[0].x, q[0].y) < |m|
    ensures FloodInv(g, marks, m[Idx(g.height, q[0].x, q[0].y) := marker], seed, dir, marker,
                     visited + {Target(q[0])}, q[1..] + Pushes(At(g, q[0].x, q[0].y).value, q[0].x, q[0].y))
  {
    var blocked := Carrying(g, marks, marker);
    var reach := Reach(g, blocked, seed, dir);
    var c := Target(q[0]);
    var p := Pushes(At(g, c.x, c.y).value, c.x, c.y);
    var q' := q[1..] + p;
    var visited' := visited + {c};
    assert c !in blocked && c in reach by {
      assert Sound(g, blocked, reach, q[0]);
    }
    MarkUpdate(g, marks, m, visited, marker, c);
    forall i | 0 <= i < |q'| ensures Sound(g, blocked, reach, q'[i]) {
      if i < |q| - 1 {
        assert q'[i] == q[i + 1];
      } else {
        var v := p[i - (|q| - 1)];
        assert q'[i] == v;
        if Accepts(g, Target(v), v.dir) && Target(v) !in blocked {
          FacesLink(g, c.x, c.y, v);
          ReachableStep(g, blocked, seed, c, Target(v));
        }
      }
    }
    forall a, b | a in visited' && Link(g, a, b)
      ensures b in visited' || b in blocked || Pending(g, q', b)
    {
      if a == c {
        LinkQueued(g, c.x, c.y, b);
        PendingAppend(g, q[1..], p, b);
      } else if b !in visited' && b !in blocked {
        PendingPop(g, q, b);
        PendingAppend(g, q[1..], p, b);
      }
    }
    if Accepts(g, seed, dir) && seed !in visited' && seed !in blocked {
      PendingPop(g, q, seed);
      PendingAppend(g, q[1..], p, seed);
    }
  }

  /** Visiting one more unvisited cell leaves fewer unvisited cells. */
  lemma VisitShrinks(all: set<Cell>, visited: set<Cell>, c: Cell)
    requires c in all - visited
    ensures |all - (visited + {c})| < |all - visited|
  {
    assert all - (visited + {c}) == (all - visited) - {c};
  }

  /** A path avoiding the blocked cells that starts among the visited ones stays among them. */
  lemma {:induction false} PathVisited(g: Grid, blocked: set<Cell>, visited: set<Cell>, p: seq<Cell>, n: nat)
    requires ValidGrid(g) && Frontier(g, blocked, visited, []) && IsPath(g, blocked, p)
    requires p[0] in visited && n < |p|
    ensures p[n] in visited
    decreases n
  {
    if n > 0 {
      PathVisited(g, blocked, visited, p, n - 1);
      assert Link(g, p[n - 1], p[n]);
      assert !Pending(g, [], p[n]);
    }
  }

  /** With the queue empty, the visited cells are the whole flood. */
  lemma FloodDone(g: Grid, marks: seq<Marking>, m: seq<Marking>, seed: Cell, dir: Direction,
                  marker: Marking, visited: set<Cell>)
    requires ValidGrid(g) && |marks| == |g.tiles|
    requires FloodInv(g, marks, m, seed, dir, marker, visited, [])
    ensures visited == Reach(g, Carrying(g, marks, marker), seed, dir)
  {
    var blocked := Carrying(g, marks, marker);
    forall c | c in Reach(g, blocked, seed, dir) ensures c in visited {
      var p: seq<Cell> :| IsPath(g, blocked, p) && p[0] == seed && p[|p| - 1] == c;
      assert !Pending(g, [], seed);
      PathVisited(g, blocked, visited, p, |p| - 1);
    }
  }

  /**
   * `expand_connections_bfs` on the markings of a board whose tiles are `g`:
   * a breadth-first walk from the seed that marks each accepted, not yet
   * marked cell and queues its neighbours. The result carries `marker` on
   * exactly the flood set and keeps every other marking.
   */
  method ExpandConnections(g: Grid, marks: seq<Marking>, seed: Cell, dir: Direction, marker: Marking)
    returns (m: seq<Marking>)
    requires ValidGrid(g) && |marks| == |g.tiles|
    ensures MarkedExactly(g, marks, m, FloodSet(g, marks, seed, dir, marker), marker)
    ensures !IsFloodMarker(marker) ==> m == marks
  {
    m := marks;
    if !IsFloodMarker(marker) {
      return;
    }
    ghost var visited: set<Cell> := {};
    var q := [Visit(seed.x, seed.y, dir)];
    FloodStart(g, marks, seed, dir, marker);
    while |q| > 0
      invariant FloodInv(g, marks, m, seed, dir, marker, visited, q)
      decreases |Cells(g) - visited|, |q|
    {
      var v := q[0];
      if InBounds(g, v.x, v.y) && MarkOf(g, m, Target(v)) != marker
         && At(g, v.x, v.y).Some? && HasConnection(At(g, v.x, v.y).value, v.dir)
      {
        FloodMark(g, marks, m, seed, dir, marker, visited, q);
        VisitShrinks(Cells(g), visited, Target(v));
        m := m[Idx(g.height, v.x, v.y) := marker];
        q := q[1..] + Pushes(At(g, v.x, v.y).value, v.x, v.y);
        visited := visited + {Target(v)};
      } else {
        FloodSkip(g, marks, m, seed, dir, marker, visited, q);
        q := q[1..];
      }
    }
    FloodDone(g, marks, m, seed, dir, marker, visited);
  }
}
