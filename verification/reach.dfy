/**
 * Connectivity between tiles: two neighbouring tiles are linked when each
 * has a connection facing the other. The flood fill of the board
 * (zapzap/src/systems/board.rs, `expand_connections_bfs`) marks exactly the
 * cells reachable over such links; this module defines that reachability.
 */
module Connectivity {
  import opened Components
  import opened Grid

  datatype Cell = Cell(x: nat, y: nat)

  /** The cells of the grid. */
  function Cells(g: Grid): (cs: set<Cell>)
    ensures forall c :: c in cs <==> InBounds(g, c.x, c.y)
  {
    set x: nat, y: nat | x < g.width && y < g.height :: Cell(x, y)
  }

  /** Whether the cell holds a tile with a connection in direction `d`. */
  predicate Accepts(g: Grid, c: Cell, d: Direction)
    requires ValidGrid(g)
  {
    At(g, c.x, c.y).Some? && HasConnection(At(g, c.x, c.y).value, d)
  }

  /**
   * `a` and `b` are neighbours and each has a connection facing the other.
   * Moving UP decreases y, moving DOWN increases it.
   */
  predicate Link(g: Grid, a: Cell, b: Cell)
    requires ValidGrid(g)
  {
    (b.x == a.x + 1 && b.y == a.y && Accepts(g, a, RIGHT) && Accepts(g, b, LEFT))
    || (a.x == b.x + 1 && b.y == a.y && Accepts(g, a, LEFT) && Accepts(g, b, RIGHT))
    || (b.x == a.x && a.y == b.y + 1 && Accepts(g, a, UP) && Accepts(g, b, DOWN))
    || (b.x == a.x && b.y == a.y + 1 && Accepts(g, a, DOWN) && Accepts(g, b, UP))
  }

  /** Links only join occupied cells of the grid. */
  lemma LinkInGrid(g: Grid, a: Cell, b: Cell)
    requires ValidGrid(g) && Link(g, a, b)
    ensures InBounds(g, a.x, a.y) && InBounds(g, b.x, b.y)
    ensures At(g, a.x, a.y).Some? && At(g, b.x, b.y).Some?
  {
  }

  lemma LinkSymmetric(g: Grid, a: Cell, b: Cell)
    requires ValidGrid(g)
    ensures Link(g, a, b) <==> Link(g, b, a)
  {
  }

  /** A walk over links that never enters `blocked`. */
  predicate IsPath(g: Grid, blocked: set<Cell>, p: seq<Cell>)
    requires ValidGrid(g)
  {
    |p| > 0
    && (forall i :: 0 <= i < |p| ==> p[i] !in blocked && At(g, p[i].x, p[i].y).Some?)
    && (forall i :: 0 <= i < |p| - 1 ==> Link(g, p[i], p[i + 1]))
  }

  /** `c` can be reached from `s` without entering `blocked`. */
  ghost predicate Reachable(g: Grid, blocked: set<Cell>, s: Cell, c: Cell)
    requires ValidGrid(g)
  {
    exists p :: IsPath(g, blocked, p) && p[0] == s && p[|p| - 1] == c
  }

  /**
   * The cells a flood entering `seed` through its side `dir` reaches,
   * never entering `blocked`: nothing when the seed does not accept `dir`.
   */
  ghost function Reach(g: Grid, blocked: set<Cell>, seed: Cell, dir: Direction): (r: set<Cell>)
    requires ValidGrid(g)
    ensures r <= Cells(g)
    ensures forall c :: c in r <==> Accepts(g, seed, dir) && Reachable(g, blocked, seed, c)
  {
    forall c | Reachable(g, blocked, seed, c) ensures c in Cells(g) {
      ReachableOccupied(g, blocked, seed, c);
    }
    set c | c in Cells(g) && Accepts(g, seed, dir) && Reachable(g, blocked, seed, c)
  }

  /** The connected component of `s`: everything reachable over links. */
  ghost function Component(g: Grid, s: Cell): (r: set<Cell>)
    requires ValidGrid(g)
    ensures r <= Cells(g)
    ensures forall c :: c in r <==> Reachable(g, {}, s, c)
  {
    forall c | Reachable(g, {}, s, c) ensures c in Cells(g) {
      ReachableOccupied(g, {}, s, c);
    }
    set c | c in Cells(g) && Reachable(g, {}, s, c)
  }

  /** A set that every link leaving it stays inside. */
  ghost predicate Closed(g: Grid, s: set<Cell>)
    requires ValidGrid(g)
  {
    forall a, b :: a in s && Link(g, a, b) ==> b in s
  }

  lemma ReachableOccupied(g: Grid, blocked: set<Cell>, s: Cell, c: Cell)
    requires ValidGrid(g) && Reachable(g, blocked, s, c)
    ensures InBounds(g, c.x, c.y) && At(g, c.x, c.y).Some?
    ensures s !in blocked && c !in blocked
    ensures InBounds(g, s.x, s.y) && At(g, s.x, s.y).Some?
  {
    var p: seq<Cell> :| IsPath(g, blocked, p) && p[0] == s && p[|p| - 1] == c;
    assert p[|p| - 1] !in blocked && At(g, p[|p| - 1].x, p[|p| - 1].y).Some?;
    assert p[0] !in blocked && At(g, p[0].x, p[0].y).Some?;
  }

  /** An occupied, unblocked cell reaches itself. */
  lemma ReachableRefl(g: Grid, blocked: set<Cell>, s: Cell)
    requires ValidGrid(g) && At(g, s.x, s.y).Some? && s !in blocked
    ensures Reachable(g, blocked, s, s)
  {
    assert IsPath(g, blocked, [s]);
  }

  /** One more link from a reached cell reaches its neighbour. */
  lemma ReachableStep(g: Grid, blocked: set<Cell>, s: Cell, c: Cell, d: Cell)
    requires ValidGrid(g) && Reachable(g, blocked, s, c) && Link(g, c, d) && d !in blocked
    ensures Reachable(g, blocked, s, d)
  {
    var p: seq<Cell> :| IsPath(g, blocked, p) && p[0] == s && p[|p| - 1] == c;
    var q := p + [d];
    assert q[|q| - 1] == d;
    assert IsPath(g, blocked, q) by {
      forall i | 0 <= i < |q| - 1 ensures Link(g, q[i], q[i + 1]) {
        if i < |p| - 1 {
          assert q[i] == p[i] && q[i + 1] == p[i + 1];
        }
      }
    }
  }

  /** Reachability is symmetric. */
  lemma {:induction false} ReachableSymmetric(g: Grid, blocked: set<Cell>, s: Cell, c: Cell)
    requires ValidGrid(g) && Reachable(g, blocked, s, c)
    ensures Reachable(g, blocked, c, s)
  {
    var p: seq<Cell> :| IsPath(g, blocked, p) && p[0] == s && p[|p| - 1] == c;
    var q := seq(|p|, i requires 0 <= i < |p| => p[|p| - 1 - i]);
    assert IsPath(g, blocked, q) by {
      forall i | 0 <= i < |q| ensures q[i] !in blocked && At(g, q[i].x, q[i].y).Some? {
        assert q[i] == p[|p| - 1 - i];
      }
      forall i | 0 <= i < |q| - 1 ensures Link(g, q[i], q[i + 1]) {
        var j := |p| - 2 - i;
        assert Link(g, p[j], p[j + 1]);
        LinkSymmetric(g, p[j], p[j + 1]);
      }
    }
    assert q[0] == c && q[|q| - 1] == s;
  }

  /** Reachability is transitive. */
  lemma ReachableTrans(g: Grid, blocked: set<Cell>, a: Cell, b: Cell, c: Cell)
    requires ValidGrid(g) && Reachable(g, blocked, a, b) && Reachable(g, blocked, b, c)
    ensures Reachable(g, blocked, a, c)
  {
    var p: seq<Cell> :| IsPath(g, blocked, p) && p[0] == a && p[|p| - 1] == b;
    var q: seq<Cell> :| IsPath(g, blocked, q) && q[0] == b && q[|q| - 1] == c;
    var r := p + q[1..];
    assert r[0] == a && r[|r| - 1] == c;
    assert IsPath(g, blocked, r) by {
      forall i | 0 <= i < |r| ensures r[i] !in blocked && At(g, r[i].x, r[i].y).Some? {
        if i >= |p| {
          assert r[i] == q[i - |p| + 1];
        }
      }
      forall i | 0 <= i < |r| - 1 ensures Link(g, r[i], r[i + 1]) {
        if i < |p| - 1 {
          assert r[i] == p[i] && r[i + 1] == p[i + 1];
        } else if i == |p| - 1 {
          assert r[i] == q[0] && r[i + 1] == q[1];
        } else {
          assert r[i] == q[i - |p| + 1] && r[i + 1] == q[i - |p| + 2];
        }
      }
    }
  }

  /** A path avoiding nothing, starting outside a closed set, never enters it. */
  lemma {:induction false} PathAvoidsClosed(g: Grid, blocked: set<Cell>, p: seq<Cell>, n: nat)
    requires ValidGrid(g) && IsPath(g, {}, p) && Closed(g, blocked) && p[0] !in blocked
    requires n < |p|
    ensures p[n] !in blocked
    decreases n
  {
    if n > 0 {
      PathAvoidsClosed(g, blocked, p, n - 1);
      assert Link(g, p[n - 1], p[n]);
      LinkSymmetric(g, p[n - 1], p[n]);
    }
  }

  /**
   * Outside a closed set, blocking the set changes nothing: what a seed
   * outside it reaches is its whole component.
   */
  lemma ReachAvoidingClosed(g: Grid, blocked: set<Cell>, s: Cell, c: Cell)
    requires ValidGrid(g) && Closed(g, blocked) && s !in blocked
    ensures Reachable(g, blocked, s, c) <==> Reachable(g, {}, s, c)
  {
    if Reachable(g, {}, s, c) {
      var p: seq<Cell> :| IsPath(g, {}, p) && p[0] == s && p[|p| - 1] == c;
      forall i | 0 <= i < |p| ensures p[i] !in blocked {
        PathAvoidsClosed(g, blocked, p, i);
      }
      assert IsPath(g, blocked, p);
    }
    if Reachable(g, blocked, s, c) {
      var p: seq<Cell> :| IsPath(g, blocked, p) && p[0] == s && p[|p| - 1] == c;
      assert IsPath(g, {}, p);
    }
  }

  /** A component is closed under links. */
  lemma ComponentClosed(g: Grid, s: Cell)
    requires ValidGrid(g)
    ensures Closed(g, Component(g, s))
  {
    forall a, b | a in Component(g, s) && Link(g, a, b) ensures b in Component(g, s) {
      ReachableStep(g, {}, s, a, b);
    }
  }

  /** Two components are equal or disjoint. */
  lemma ComponentsEqualOrDisjoint(g: Grid, s: Cell, t: Cell)
    requires ValidGrid(g)
    ensures Component(g, s) == Component(g, t) || Component(g, s) !! Component(g, t)
  {
    if c :| c in Component(g, s) && c in Component(g, t) {
      ReachableSymmetric(g, {}, t, c);
      assert Reachable(g, {}, s, t) by {
        ReachableTrans(g, {}, s, c, t);
      }
      forall d | d in Component(g, t) ensures d in Component(g, s) {
        ReachableTrans(g, {}, s, t, d);
      }
      ReachableSymmetric(g, {}, s, t);
      forall d | d in Component(g, s) ensures d in Component(g, t) {
        ReachableTrans(g, {}, t, s, d);
      }
    }
  }

  /** A closed set holding a cell holds that cell's whole component. */
  lemma ClosedContainsComponent(g: Grid, s: set<Cell>, c: Cell)
    requires ValidGrid(g) && Closed(g, s) && c in s
    ensures Component(g, c) <= s
  {
    forall d | d in Component(g, c) ensures d in s {
      var p: seq<Cell> :| IsPath(g, {}, p) && p[0] == c && p[|p| - 1] == d;
      ClosedPathInside(g, s, p, |p| - 1);
    }
  }

  lemma {:induction false} ClosedPathInside(g: Grid, s: set<Cell>, p: seq<Cell>, n: nat)
    requires ValidGrid(g) && Closed(g, s) && IsPath(g, {}, p) && p[0] in s && n < |p|
    ensures p[n] in s
    decreases n
  {
    if n > 0 {
      ClosedPathInside(g, s, p, n - 1);
      assert Link(g, p[n - 1], p[n]);
    }
  }

  /**
   * The flood from a seed outside a closed blocked set reaches the seed's
   * component when the seed accepts the incoming side, and nothing otherwise.
   */
  lemma ReachOfClosed(g: Grid, blocked: set<Cell>, seed: Cell, dir: Direction)
    requires ValidGrid(g) && Closed(g, blocked)
    ensures seed in blocked ==> Reach(g, blocked, seed, dir) == {}
    ensures seed !in blocked ==>
      Reach(g, blocked, seed, dir) == (if Accepts(g, seed, dir) then Component(g, seed) else {})
  {
    if seed in blocked {
      forall c | c in Reach(g, blocked, seed, dir) ensures false {
        ReachableOccupied(g, blocked, seed, c);
      }
    } else {
      forall c ensures c in Reach(g, blocked, seed, dir) <==> c in (if Accepts(g, seed, dir) then Component(g, seed) else {}) {
        ReachAvoidingClosed(g, blocked, seed, c);
      }
    }
  }

  /** Unions, intersections and differences of closed sets are closed. */
  lemma ClosedUnion(g: Grid, a: set<Cell>, b: set<Cell>)
    requires ValidGrid(g) && Closed(g, a) && Closed(g, b)
    ensures Closed(g, a + b) && Closed(g, a * b)
  {
  }

  lemma ClosedDifference(g: Grid, a: set<Cell>, b: set<Cell>)
    requires ValidGrid(g) && Closed(g, a) && Closed(g, b)
    ensures Closed(g, a - b)
  {
    forall x, y | x in a - b && Link(g, x, y) ensures y in a - b {
      LinkSymmetric(g, x, y);
    }
  }
}
