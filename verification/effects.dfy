/**
 * Visual effects (zapzap/src/systems/effects.rs): lightning arcs built by
 * midpoint displacement, zap particles, and the triangle list both are drawn
 * from.
 *
 * Screen coordinates are 32-bit floats moved by square roots; the model does
 * not compute them. A point is a pair of reals that the model only copies,
 * and the midpoint-displacement formula is a parameter (`Displacer`). What
 * the model does compute exactly: which indices are written and in what
 * order, displacement values and their bounds, texture coordinates (all
 * multiples of 1/32, so exact in f32), lifetimes, and every buffer length.
 */
module Effects {
  import opened Seqs
  import opened Components
  import opened Grid
  import opened Random
  import opened GameBoard

  // ---------------------------------------------------------------------
  // Segment colours
  // ---------------------------------------------------------------------

  datatype SegmentColor =
    | Red | Orange | Yellow | LimeGreen | Green | GreenCyan | Cyan
    | SkyBlue | Blue | Indigo | Magenta | Pink | White

  /** The colour's `repr(u8)` discriminant, written into each vertex's z. */
  function ColorIndex(c: SegmentColor): (i: nat)
    ensures i < 13
  {
    match c
    case Red => 0
    case Orange => 1
    case Yellow => 2
    case LimeGreen => 3
    case Green => 4
    case GreenCyan => 5
    case Cyan => 6
    case SkyBlue => 7
    case Blue => 8
    case Indigo => 9
    case Magenta => 10
    case Pink => 11
    case White => 12
  }

  /** `SegmentColor::ALL`, in declaration order. */
  const ALL_COLORS: seq<SegmentColor> :=
    [Red, Orange, Yellow, LimeGreen, Green, GreenCyan, Cyan, SkyBlue, Blue, Indigo, Magenta, Pink, White]

  /** `ALL` lists each colour once, at its discriminant. */
  lemma AllColorsByIndex()
    ensures |ALL_COLORS| == 13
    ensures forall i :: 0 <= i < 13 ==> ColorIndex(ALL_COLORS[i]) == i
    ensures forall c: SegmentColor :: ALL_COLORS[ColorIndex(c)] == c
  {
  }

  datatype ColorDraw = ColorDraw(color: SegmentColor, next: Rng)

  /** `SegmentColor::random`: the colour at a uniform draw below 13, always a valid index into `ALL`. */
  function RandomColor(rng: Rng): (r: ColorDraw)
    requires ValidRng(rng)
    ensures ValidRng(r.next)
    ensures ColorIndex(r.color) == NextInt(rng, 13).value && r.next == NextInt(rng, 13).next
  {
    var d := NextInt(rng, 13);
    ColorDraw(ALL_COLORS[d.value], d.next)
  }

  /** The colour's cell (column, row block) in the 16 x 16 arrows atlas. */
  function AtlasCell(c: SegmentColor): (nat, nat) {
    match c
    case Red => (0, 5)
    case Orange => (1, 5)
    case Yellow => (2, 5)
    case LimeGreen => (3, 5)
    case Green => (0, 4)
    case GreenCyan => (1, 4)
    case Cyan => (2, 4)
    case SkyBlue => (3, 4)
    case Blue => (0, 3)
    case Indigo => (1, 3)
    case Magenta => (2, 3)
    case Pink => (3, 3)
    case White => (3, 2)
  }

  /** No two colours share an atlas cell. */
  lemma AtlasCellsDistinct(c: SegmentColor, d: SegmentColor)
    requires c != d
    ensures AtlasCell(c) != AtlasCell(d)
  {
  }

  /** Texture coordinates of a segment: one u range for all parts, a v per part. */
  datatype SegmentUVs = SegmentUVs(u0: real, u1: real, firstV: real, midV: real, lastV: real)

  const TU: real := 1.0 / 16.0

  /** `SegmentColor::uvs`: the colour's atlas column, and three v's down its row block. */
  function Uvs(c: SegmentColor): (r: SegmentUVs)
    ensures 0.0 <= r.u0 < r.u1 <= 4.0 * TU && r.u1 - r.u0 == TU
    ensures 2.0 * TU <= r.firstV < r.midV < r.lastV <= 6.0 * TU
  {
    var (col, row) := AtlasCell(c);
    SegmentUVs(col as real * TU, (col + 1) as real * TU, row as real * TU, (row as real + 0.5) * TU, (row as real + 1.0) * TU)
  }

  // ---------------------------------------------------------------------
  // Triangle strips
  // ---------------------------------------------------------------------

  /** Where a vertex pair sits along a polyline: before it, at point i, or after it. */
  datatype Station = StartCap | Through(i: nat) | EndCap

  datatype Edge = LeftEdge | RightEdge

  /**
   * One strip vertex, standing for its five floats: x and y (the station
   * offset along the edge, not computed here), z (the colour index), u, v.
   */
  datatype StripVertex = StripVertex(station: Station, edge: Edge, z: nat, u: real, v: real)

  /** The stations of an n-point polyline: a cap, every point, a cap. */
  function Stations(n: nat): (r: seq<Station>)
    requires n >= 2
    ensures |r| == n + 2 && r[0] == StartCap && r[n + 1] == EndCap
    ensures forall i :: 1 <= i <= n ==> r[i] == Through(i - 1)
  {
    [StartCap] + seq(n, i requires 0 <= i => Through(i)) + [EndCap]
  }

  /** The vertex on `edge` at station `s`; the caps take the first and last v. */
  function VertexAt(s: Station, edge: Edge, color: SegmentColor): (v: StripVertex)
    ensures v.station == s && v.edge == edge && v.z == ColorIndex(color)
  {
    var uv := Uvs(color);
    var vCoord := match s
      case StartCap => uv.firstV
      case Through(_) => uv.midV
      case EndCap => uv.lastV;
    StripVertex(s, edge, ColorIndex(color), if edge == LeftEdge then uv.u0 else uv.u1, vCoord)
  }

  /** Vertices of a strip with the given stations: a left and a right vertex per station. */
  function StripOf(stations: seq<Station>, color: SegmentColor): (r: seq<StripVertex>)
    ensures |r| == 2 * |stations|
    ensures forall k :: 0 <= k < |r| ==> r[k] == VertexAt(stations[k / 2], if k % 2 == 0 then LeftEdge else RightEdge, color)
    decreases |stations|
  {
    if |stations| == 0 then []
    else
      var n := |stations| - 1;
      StripOf(stations[..n], color) + [VertexAt(stations[n], LeftEdge, color), VertexAt(stations[n], RightEdge, color)]
  }

  /** The number of strip vertices for an n-point polyline. */
  function StripLength(n: nat): nat {
    if n < 2 then 0 else 2 * (n + 2)
  }

  /**
   * `build_strip_vertices` for a polyline of `n` points: nothing for fewer
   * than two points; otherwise a vertex pair for the start cap, for each
   * point in order, and for the end cap.
   */
  method BuildStripVertices(n: nat, color: SegmentColor) returns (verts: seq<StripVertex>)
    ensures |verts| == StripLength(n)
    ensures n >= 2 ==> verts == StripOf(Stations(n), color)
  {
    if n < 2 {
      return [];
    }
    var stations := Stations(n);
    verts := [];
    var i := 0;
    while i < n + 2
      invariant i <= n + 2
      invariant verts == StripOf(stations[..i], color)
    {
      assert stations[..i + 1][..i] == stations[..i];
      verts := verts + [VertexAt(stations[i], LeftEdge, color), VertexAt(stations[i], RightEdge, color)];
      i := i + 1;
    }
    assert stations[..i] == stations;
  }

  /** The number of triangle-list vertices for a strip of m vertices. */
  function TriangleListLength(m: nat): nat {
    if m < 3 then 0 else 3 * (m - 2)
  }

  /** The strip vertex at corner c of triangle t: even triangles keep strip order, odd ones swap the first two. */
  function Corner(t: nat, c: nat): nat
    requires c < 3
  {
    if c == 2 then t + 2
    else if (t % 2 == 0) == (c == 0) then t
    else t + 1
  }

  /** Triangle t of the list is the strip's vertices t, t+1, t+2 with the winding fixed. */
  ghost predicate IsTriangleList<V>(strip: seq<V>, out: seq<V>) {
    |out| == TriangleListLength(|strip|)
    && forall t, c :: 0 <= t < |out| / 3 && 0 <= c < 3 ==> Corner(t, c) < |strip| && out[3 * t + c] == strip[Corner(t, c)]
  }

  /**
   * `strip_to_triangles`: nothing for fewer than three vertices; otherwise
   * one triangle per vertex after the first two, copying the vertices
   * unchanged. Vertices are whole records here (five floats each in the
   * source).
   */
  method StripToTriangles<V>(strip: seq<V>) returns (out: seq<V>)
    ensures IsTriangleList(strip, out)
  {
    if |strip| < 3 {
      return [];
    }
    out := [];
    var t := 0;
    while t < |strip| - 2
      invariant t <= |strip| - 2 && |out| == 3 * t
      invariant forall s, c :: 0 <= s < t && 0 <= c < 3 ==> out[3 * s + c] == strip[Corner(s, c)]
    {
      var (a, b) := if t % 2 == 0 then (t, t + 1) else (t + 1, t);
      out := out + [strip[a], strip[b], strip[t + 2]];
      t := t + 1;
    }
  }

  /** Triangle t uses exactly strip vertices t, t+1 and t+2. */
  lemma CornersCover(t: nat)
    ensures {Corner(t, 0), Corner(t, 1), Corner(t, 2)} == {t, t + 1, t + 2}
  {
  }

  /** Neighbouring triangles share the edge between them, so the list covers the strip without gaps. */
  lemma TrianglesShareEdges<V>(strip: seq<V>, out: seq<V>, t: nat)
    requires IsTriangleList(strip, out) && t + 1 < |out| / 3
    ensures strip[t + 1] in out[3 * t..3 * t + 3] && strip[t + 2] in out[3 * t..3 * t + 3]
    ensures strip[t + 1] in out[3 * t + 3..3 * t + 6] && strip[t + 2] in out[3 * t + 3..3 * t + 6]
  {
    var here, next := out[3 * t..3 * t + 3], out[3 * t + 3..3 * t + 6];
    assert here == [strip[Corner(t, 0)], strip[Corner(t, 1)], strip[Corner(t, 2)]];
    assert next == [strip[Corner(t + 1, 0)], strip[Corner(t + 1, 1)], strip[Corner(t + 1, 2)]] by {
      assert 3 * t + 3 == 3 * (t + 1);
    }
    CornersCover(t);
    CornersCover(t + 1);
  }

  /** An n-point polyline (n >= 2) is drawn with 6n + 6 triangle-list vertices. */
  lemma PolylineVertexCount(n: nat)
    requires n >= 2
    ensures TriangleListLength(StripLength(n)) == 6 * n + 6
  {
  }

  // ---------------------------------------------------------------------
  // Electric arcs
  // ---------------------------------------------------------------------

  datatype Point = Point(x: real, y: real)

  /**
   * The midpoint-displacement formula: from the two ends and a displacement,
   * the new middle point. It needs a square root and is not computed here.
   */
  type Displacer = (Point, Point, real) -> Point

  /** The largest displacement an arc allows. */
  const MAX_DISPLACEMENT: real := 0.2

  datatype ElectricArc = ElectricArc(
    start: Point,
    end: Point,
    points: seq<Point>,
    displacements: seq<real>,
    numSegments: nat,
    maxDisplacement: real)

  /** `n.saturating_sub(m)` on unsigned integers. */
  function SatSub(n: nat, m: nat): nat {
    if n >= m then n - m else 0
  }

  /** One point per segment end, one displacement per interior point, a usable clamp range. */
  ghost predicate ValidArc(a: ElectricArc) {
    a.numSegments >= 1
    && |a.points| == a.numSegments + 1
    && |a.displacements| == SatSub(a.numSegments, 1)
    && 0.0 <= a.maxDisplacement
  }

  /** The displacement used for the midpoint `mid`, with the source's 0.0 fallback. */
  function DispAt(disps: seq<real>, mid: nat): real {
    var j := SatSub(mid, 1);
    if j < |disps| then disps[j] else 0.0
  }

  /**
   * `generate_points(s, e)`: for more than one segment, write the middle
   * point from the current end points and its displacement, then refine the
   * left half, then the right half.
   */
  function GeneratePoints(pts: seq<Point>, disps: seq<real>, s: nat, e: nat, displace: Displacer): (r: seq<Point>)
    requires s <= e < |pts|
    ensures |r| == |pts|
    ensures forall i :: 0 <= i < |r| && (i <= s || e <= i) ==> r[i] == pts[i]
    decreases e - s
  {
    if e - s <= 1 then pts
    else
      var m := (s + e) / 2;
      var p := pts[m := displace(pts[s], pts[e], DispAt(disps, m))];
      GeneratePoints(GeneratePoints(p, disps, s, m, displace), disps, m, e, displace)
  }

  /** One midpoint write: the interval it refines and the index it writes. */
  datatype Split = Split(lo: nat, mid: nat, hi: nat)

  /** The writes of `generate_points(s, e)`, in the order they happen. */
  function Plan(s: nat, e: nat): (r: seq<Split>)
    requires s <= e
    ensures forall i :: 0 <= i < |r| ==> s <= r[i].lo < r[i].mid < r[i].hi <= e
    decreases e - s
  {
    if e - s <= 1 then []
    else
      var m := (s + e) / 2;
      [Split(s, m, e)] + Plan(s, m) + Plan(m, e)
  }

  /** Every write of the plan stays inside a sequence of `size` points. */
  ghost predicate Fits(plan: seq<Split>, size: nat) {
    forall i :: 0 <= i < |plan| ==> plan[i].lo <= plan[i].mid <= plan[i].hi < size
  }

  /** Carry out one write. */
  function ApplySplit(pts: seq<Point>, disps: seq<real>, sp: Split, displace: Displacer): (r: seq<Point>)
    requires sp.lo <= sp.mid <= sp.hi < |pts|
    ensures |r| == |pts|
  {
    pts[sp.mid := displace(pts[sp.lo], pts[sp.hi], DispAt(disps, sp.mid))]
  }

  /** Carry out a sequence of writes in order. */
  function ApplyPlan(pts: seq<Point>, disps: seq<real>, plan: seq<Split>, displace: Displacer): (r: seq<Point>)
    requires Fits(plan, |pts|)
    ensures |r| == |pts|
    decreases |plan|
  {
    if |plan| == 0 then pts
    else ApplyPlan(ApplySplit(pts, disps, plan[0], displace), disps, plan[1..], displace)
  }

  lemma {:induction false} ApplyPlanAppend(pts: seq<Point>, disps: seq<real>, a: seq<Split>, b: seq<Split>, displace: Displacer)
    requires Fits(a, |pts|) && Fits(b, |pts|)
    ensures Fits(a + b, |pts|)
    ensures ApplyPlan(pts, disps, a + b, displace) == ApplyPlan(ApplyPlan(pts, disps, a, displace), disps, b, displace)
    decreases |a|
  {
    assert Fits(a + b, |pts|) by {
      forall i | 0 <= i < |a + b| ensures (a + b)[i].lo <= (a + b)[i].mid <= (a + b)[i].hi < |pts| {
        if i >= |a| { assert (a + b)[i] == b[i - |a|]; }
      }
    }
    if |a| == 0 {
      assert a + b == b;
    } else {
      var p := ApplySplit(pts, disps, a[0], displace);
      assert (a + b)[0] == a[0] && (a + b)[1..] == a[1..] + b;
      ApplyPlanAppend(p, disps, a[1..], b, displace);
      assert ApplyPlan(pts, disps, a + b, displace) == ApplyPlan(p, disps, a[1..] + b, displace);
    }
  }

  lemma PlanFits(s: nat, e: nat, size: nat)
    requires s <= e < size
    ensures Fits(Plan(s, e), size)
  {
  }

  /** Unfold one step of a plan: its first write, then the two halves. */
  lemma PlanStep(pts: seq<Point>, disps: seq<real>, s: nat, e: nat, displace: Displacer)
    requires s + 1 < e < |pts|
    ensures Fits(Plan(s, (s + e) / 2) + Plan((s + e) / 2, e), |pts|)
    ensures ApplyPlan(pts, disps, Plan(s, e), displace)
      == ApplyPlan(ApplySplit(pts, disps, Split(s, (s + e) / 2, e), displace), disps, Plan(s, (s + e) / 2) + Plan((s + e) / 2, e), displace)
  {
    var m := (s + e) / 2;
    PlanFits(s, e, |pts|);
    PlanFits(s, m, |pts|);
    PlanFits(m, e, |pts|);
    var first := Split(s, m, e);
    assert Plan(s, e) == [first] + Plan(s, m) + Plan(m, e);
    AppendAssoc([first], Plan(s, m), Plan(m, e));
    DropAppend([first], Plan(s, m) + Plan(m, e));
    assert Plan(s, e)[0] == first && Plan(s, e)[1..] == Plan(s, m) + Plan(m, e);
  }

  /** `generate_points` does exactly the writes of its plan, in order. */
  lemma {:induction false} GeneratePointsFollowsPlan(pts: seq<Point>, disps: seq<real>, s: nat, e: nat, displace: Displacer)
    requires s <= e < |pts|
    ensures Fits(Plan(s, e), |pts|)
    ensures GeneratePoints(pts, disps, s, e, displace) == ApplyPlan(pts, disps, Plan(s, e), displace)
    decreases e - s
  {
    PlanFits(s, e, |pts|);
    if e - s > 1 {
      var m := (s + e) / 2;
      var p := ApplySplit(pts, disps, Split(s, m, e), displace);
      var q := GeneratePoints(p, disps, s, m, displace);
      GeneratePointsFollowsPlan(p, disps, s, m, displace);
      GeneratePointsFollowsPlan(q, disps, m, e, displace);
      PlanFits(m, e, |pts|);
      ApplyPlanAppend(p, disps, Plan(s, m), Plan(m, e), displace);
      PlanStep(pts, disps, s, e, displace);
    }
  }

  /** The midpoints a plan writes. */
  function Mids(plan: seq<Split>): (r: seq<nat>)
    ensures |r| == |plan|
    ensures forall i :: 0 <= i < |plan| ==> r[i] == plan[i].mid
  {
    seq(|plan|, i requires 0 <= i < |plan| => plan[i].mid)
  }

  /** Every index strictly between s and e is written, and nothing else. */
  lemma {:induction false} PlanCoversInterior(s: nat, e: nat, i: nat)
    requires s <= e
    ensures i in Mids(Plan(s, e)) <==> s < i < e
    decreases e - s
  {
    if e - s > 1 {
      var m := (s + e) / 2;
      PlanCoversInterior(s, m, i);
      PlanCoversInterior(m, e, i);
      var a, b := Plan(s, m), Plan(m, e);
      assert Mids(Plan(s, e)) == [m] + Mids(a) + Mids(b);
    } else {
      assert Mids(Plan(s, e)) == [];
    }
  }

  /** No index is written twice. */
  lemma {:induction false} PlanWritesOnce(s: nat, e: nat)
    requires s <= e
    ensures forall i, j :: 0 <= i < j < |Plan(s, e)| ==> Plan(s, e)[i].mid != Plan(s, e)[j].mid
    decreases e - s
  {
    if e - s > 1 {
      var m := (s + e) / 2;
      PlanWritesOnce(s, m);
      PlanWritesOnce(m, e);
      var a, b := Plan(s, m), Plan(m, e);
      var p := Plan(s, e);
      assert p == [Split(s, m, e)] + a + b;
      forall i, j | 0 <= i < j < |p| ensures p[i].mid != p[j].mid {
        if i == 0 {
          assert j <= |a| ==> p[j] == a[j - 1];
          assert j > |a| ==> p[j] == b[j - 1 - |a|];
        } else if j <= |a| {
          assert p[i] == a[i - 1] && p[j] == a[j - 1];
        } else if i > |a| {
          assert p[i] == b[i - 1 - |a|] && p[j] == b[j - 1 - |a|];
        } else {
          assert p[i] == a[i - 1] && p[j] == b[j - 1 - |a|];
        }
      }
    }
  }

  /** The plan of a whole arc never reaches the `0.0` fallback: every midpoint has its displacement. */
  lemma PlanDisplacementsExist(n: nat, disps: seq<real>)
    requires n >= 1 && |disps| == SatSub(n, 1)
    ensures forall i :: 0 <= i < |Plan(0, n)| ==>
      1 <= Plan(0, n)[i].mid && Plan(0, n)[i].mid - 1 < |disps|
      && DispAt(disps, Plan(0, n)[i].mid) == disps[Plan(0, n)[i].mid - 1]
  {
  }

  /**
   * `ElectricArc::new`'s displacements: one uniform draw below 10000 each,
   * in slot order, mapped onto [-max, max).
   */
  method GenerateDisplacements(count: nat, rng: Rng) returns (disps: seq<real>, rng': Rng)
    requires ValidRng(rng)
    ensures ValidRng(rng') && |disps| == count
    ensures rng' == Draws(rng, 10000, count).1
    ensures disps == Scaled(Draws(rng, 10000, count).0)
    ensures forall i :: 0 <= i < count ==> disps[i] == UnitDraw(Draws(rng, 10000, count).0[i]) * MAX_DISPLACEMENT
    ensures forall i :: 0 <= i < count ==> -MAX_DISPLACEMENT <= disps[i] < MAX_DISPLACEMENT
  {
    disps, rng' := [], rng;
    ghost var vals: seq<nat> := [];
    var n := 0;
    while n < count
      invariant n <= count && |disps| == n && (vals, rng') == Draws(rng, 10000, n)
      invariant forall i :: 0 <= i < n ==> disps[i] == UnitDraw(vals[i]) * MAX_DISPLACEMENT
    {
      var d := NextInt(rng', 10000);
      vals, rng' := vals + [d.value], d.next;
      disps := disps + [UnitDraw(d.value) * MAX_DISPLACEMENT];
      n := n + 1;
    }
    assert disps == Scaled(vals);
  }

  /** Draws below 10000, each taken into [-MAX_DISPLACEMENT, MAX_DISPLACEMENT). */
  function Scaled(vals: seq<nat>): (r: seq<real>)
    requires forall i :: 0 <= i < |vals| ==> vals[i] < 10000
    ensures |r| == |vals|
  {
    seq(|vals|, i requires 0 <= i < |vals| => UnitDraw(vals[i]) * MAX_DISPLACEMENT)
  }

  /** `n` points at the origin, the source's `vec![[0.0; 2]; n]`. */
  function Origins(n: nat): (r: seq<Point>)
    ensures |r| == n
  {
    seq(n, _ => Point(0.0, 0.0))
  }

  /** A draw below 10000 as a value in [-1, 1), the source's `v / 5000 - 1`. */
  function UnitDraw(v: nat): (r: real)
    requires v < 10000
    ensures -1.0 <= r < 1.0
  {
    v as real / 5000.0 - 1.0
  }

  /** The first and last points set to the arc's ends. */
  function WithEnds(pts: seq<Point>, n: nat, start: Point, end: Point): (r: seq<Point>)
    requires 0 < n < |pts|
    ensures |r| == |pts| && r[0] == start && r[n] == end
    ensures forall i :: 0 < i < |pts| && i != n ==> r[i] == pts[i]
  {
    pts[0 := start][n := end]
  }

  /**
   * `ElectricArc::new`: 2^k segments, 2^k + 1 points from `start` to `end`,
   * 2^k - 1 displacements, and the interior points generated from them.
   * The shift `1 << k` must fit a 32-bit `usize`.
   */
  method NewArc(start: Point, end: Point, k: nat, rng: Rng, displace: Displacer) returns (arc: ElectricArc, rng': Rng)
    requires ValidRng(rng) && k < 32
    ensures ValidArc(arc) && ValidRng(rng')
    ensures arc.numSegments == Pow2(k) && arc.maxDisplacement == MAX_DISPLACEMENT
    ensures |arc.points| == Pow2(k) + 1 && |arc.displacements| == Pow2(k) - 1
    ensures arc.start == start && arc.end == end
    ensures arc.points[0] == start && arc.points[Pow2(k)] == end
    ensures forall i :: 0 <= i < |arc.displacements| ==> -MAX_DISPLACEMENT <= arc.displacements[i] < MAX_DISPLACEMENT
    ensures rng' == Draws(rng, 10000, Pow2(k) - 1).1
    ensures forall i :: 0 <= i < |arc.displacements| ==>
      arc.displacements[i] == UnitDraw(Draws(rng, 10000, Pow2(k) - 1).0[i]) * MAX_DISPLACEMENT
    ensures arc.points == GeneratePoints(WithEnds(Origins(Pow2(k) + 1), Pow2(k), start, end),
                                         arc.displacements, 0, Pow2(k), displace)
    ensures arc == ArcFrom(start, end, k, rng, displace)
  {
    var n := Pow2(k);
    var disps;
    disps, rng' := GenerateDisplacements(SatSub(n, 1), rng);
    assert SatSub(n, 1) == n - 1;
    var pts := WithEnds(Origins(n + 1), n, start, end);
    var generated := GeneratePoints(pts, disps, 0, n, displace);
    arc := ElectricArc(start, end, generated, disps, n, MAX_DISPLACEMENT);
    ghost var a := ArcFrom(start, end, k, rng, displace);
    assert disps == a.displacements;
    assert a.numSegments == n;
    assert a.start == start && a.end == end && a.maxDisplacement == MAX_DISPLACEMENT;
    assert generated == a.points;
  }

  /** `f32::clamp`. */
  function Clamp(x: real, lo: real, hi: real): (r: real)
    requires lo <= hi
    ensures lo <= r <= hi
    ensures lo <= x <= hi ==> r == x
  {
    if x < lo then lo else if x > hi then hi else x
  }

  /** A displacement nudged by `factor` times a draw below 10000 taken into [-1, 1), then clamped to [-max, max]. */
  function Nudge(d: real, factor: real, v: nat, max: real): (r: real)
    requires v < 10000 && 0.0 <= max
    ensures -max <= r <= max
  {
    Clamp(d + factor * UnitDraw(v), -max, max)
  }

  /** Each displacement nudged by its own fresh draw, in slot order. */
  method Jitter(disps: seq<real>, max: real, factor: real, rng: Rng) returns (disps': seq<real>, rng': Rng)
    requires ValidRng(rng) && 0.0 <= max
    ensures ValidRng(rng') && |disps'| == |disps|
    ensures rng' == Draws(rng, 10000, |disps|).1
    ensures forall i :: 0 <= i < |disps| ==>
      disps'[i] == Nudge(disps[i], factor, Draws(rng, 10000, |disps|).0[i], max)
  {
    disps', rng' := [], rng;
    ghost var vals: seq<nat> := [];
    var n := 0;
    while n < |disps|
      invariant n <= |disps| && |disps'| == n && (vals, rng') == Draws(rng, 10000, n)
      invariant forall i :: 0 <= i < n ==> disps'[i] == Nudge(disps[i], factor, vals[i], max)
    {
      var d := NextInt(rng', 10000);
      vals, rng' := vals + [d.value], d.next;
      disps' := disps' + [Nudge(disps[n], factor, d.value, max)];
      n := n + 1;
    }
  }

  /**
   * `twitch`: jitter every displacement, restore both end points, and
   * regenerate the interior.
   */
  method Twitch(arc: ElectricArc, factor: real, rng: Rng, displace: Displacer) returns (arc': ElectricArc, rng': Rng)
    requires ValidArc(arc) && ValidRng(rng)
    ensures ValidArc(arc') && ValidRng(rng')
    ensures arc'.start == arc.start && arc'.end == arc.end
    ensures arc'.numSegments == arc.numSegments && arc'.maxDisplacement == arc.maxDisplacement
    ensures arc'.points[0] == arc.start && arc'.points[arc.numSegments] == arc.end
    ensures forall i :: 0 <= i < |arc'.displacements| ==>
      -arc.maxDisplacement <= arc'.displacements[i] <= arc.maxDisplacement
    ensures rng' == Draws(rng, 10000, |arc.displacements|).1
    ensures |arc'.displacements| == |arc.displacements|
    ensures forall i :: 0 <= i < |arc.displacements| ==>
      arc'.displacements[i] == Nudge(arc.displacements[i], factor, Draws(rng, 10000, |arc.displacements|).0[i], arc.maxDisplacement)
    ensures arc'.points == GeneratePoints(WithEnds(arc.points, arc.numSegments, arc.start, arc.end),
                                          arc'.displacements, 0, arc.numSegments, displace)
  {
    var disps;
    disps, rng' := Jitter(arc.displacements, arc.maxDisplacement, factor, rng);
    var n := arc.numSegments;
    var pts := WithEnds(arc.points, n, arc.start, arc.end);
    arc' := arc.(points := GeneratePoints(pts, disps, 0, n, displace), displacements := disps);
  }

  // ---------------------------------------------------------------------
  // Particles
  // ---------------------------------------------------------------------

  /**
   * A zap particle: the cell it was launched from, its launch velocity,
   * width, colour and remaining lifetime in seconds. Its motion is not
   * modelled.
   */
  datatype Particle = Particle(origin: (nat, nat), launch: (real, real), width: real, color: SegmentColor, lifetime: real)

  const PARTICLES_PER_TILE: nat := 10
  const PARTICLE_WIDTH: real := 4.0
  const PARTICLE_LIFETIME: real := 2.0
  const SPEED_LIMIT: real := 10.0

  /** A new particle from `cell`: full lifetime, standard width, launch speed within the limit. */
  ghost predicate Launched(p: Particle, cell: (nat, nat)) {
    p.origin == cell && p.width == PARTICLE_WIDTH && p.lifetime == PARTICLE_LIFETIME
    && -SPEED_LIMIT <= p.launch.0 < SPEED_LIMIT && -SPEED_LIMIT <= p.launch.1 < SPEED_LIMIT
  }

  /** A velocity component: a draw below 20000 mapped onto [-10, 10), scaled by the speed limit over 10. */
  function SpeedDraw(v: nat): (r: real)
    requires v < 20000
    ensures -SPEED_LIMIT <= r < SPEED_LIMIT
  {
    (v as real / 1000.0 - 10.0) * SPEED_LIMIT / 10.0
  }

  /**
   * One particle from `cell`: an x speed draw and a y speed draw below 20000,
   * then a colour draw; the particle and the generator after the three draws.
   */
  function LaunchParticle(cell: (nat, nat), rng: Rng): (r: (Particle, Rng))
    requires ValidRng(rng)
    ensures Launched(r.0, cell) && ValidRng(r.1)
    ensures r.0.launch.0 == SpeedDraw(NextInt(rng, 20000).value)
    ensures r.0.launch.1 == SpeedDraw(NextInt(NextInt(rng, 20000).next, 20000).value)
    ensures r.0.color == RandomColor(NextInt(NextInt(rng, 20000).next, 20000).next).color
    ensures r.1 == RandomColor(NextInt(NextInt(rng, 20000).next, 20000).next).next
  {
    var sx := NextInt(rng, 20000);
    var sy := NextInt(sx.next, 20000);
    var c := RandomColor(sy.next);
    (Particle(cell, (SpeedDraw(sx.value), SpeedDraw(sy.value)), PARTICLE_WIDTH, c.color, PARTICLE_LIFETIME), c.next)
  }

  /** `n` particles launched from `cell` one after another, and the generator after them. */
  ghost function Launches(cell: (nat, nat), rng: Rng, n: nat): (r: (seq<Particle>, Rng))
    requires ValidRng(rng)
    ensures ValidRng(r.1) && |r.0| == n
  {
    if n == 0 then ([], rng)
    else
      var prev := Launches(cell, rng, n - 1);
      var p := LaunchParticle(cell, prev.1);
      (prev.0 + [p.0], p.1)
  }

  /** Every particle of a launch run leaves `cell` as a fresh particle. */
  lemma {:induction false} LaunchesLaunched(cell: (nat, nat), rng: Rng, n: nat, j: nat)
    requires ValidRng(rng) && j < n
    ensures Launched(Launches(cell, rng, n).0[j], cell)
  {
    if j < n - 1 {
      LaunchesLaunched(cell, rng, n - 1, j);
    }
  }

  /** The ten particles of one cell, each launched after the ones before it. */
  method LaunchTile(cell: (nat, nat), rng: Rng) returns (ps: seq<Particle>, rng': Rng)
    requires ValidRng(rng)
    ensures ValidRng(rng') && |ps| == PARTICLES_PER_TILE
    ensures (ps, rng') == Launches(cell, rng, PARTICLES_PER_TILE)
  {
    ps, rng' := LaunchRun(cell, rng, PARTICLES_PER_TILE);
  }

  /** n particles from one cell, each launched after the ones before it. */
  method LaunchRun(cell: (nat, nat), rng: Rng, count: nat) returns (ps: seq<Particle>, rng': Rng)
    requires ValidRng(rng)
    ensures (ps, rng') == Launches(cell, rng, count)
  {
    ps, rng' := [], rng;
    var n := 0;
    while n < count
      invariant n <= count && (ps, rng') == Launches(cell, rng, n)
    {
      var p := LaunchParticle(cell, rng');
      ps, rng' := ps + [p.0], p.1;
      n := n + 1;
    }
  }

  /** Ten particles from each of the first n `cells` in order, and the generator after them. */
  ghost function Bursts(cells: seq<(nat, nat)>, n: nat, rng: Rng): (r: (seq<Particle>, Rng))
    requires ValidRng(rng) && n <= |cells|
    ensures ValidRng(r.1) && |r.0| == PARTICLES_PER_TILE * n
  {
    if n == 0 then ([], rng)
    else
      var prev := Bursts(cells, n - 1, rng);
      var more := Launches(cells[n - 1], prev.1, PARTICLES_PER_TILE);
      (prev.0 + more.0, more.1)
  }

  /** Particle j of a burst run comes from cell j / 10 and is a fresh particle. */
  lemma {:induction false} BurstsLaunched(cells: seq<(nat, nat)>, n: nat, rng: Rng, j: nat)
    requires ValidRng(rng) && n <= |cells| && j < PARTICLES_PER_TILE * n
    ensures Launched(Bursts(cells, n, rng).0[j], cells[j / PARTICLES_PER_TILE])
  {
    var prev := Bursts(cells, n - 1, rng);
    if j < |prev.0| {
      BurstsLaunched(cells, n - 1, rng, j);
    } else {
      assert j / PARTICLES_PER_TILE == n - 1;
      LaunchesLaunched(cells[n - 1], prev.1, PARTICLES_PER_TILE, j - |prev.0|);
    }
  }

  /** The `Ok` cells of column x among its first y rows, top down. */
  ghost function OkInColumn(b: Board, x: nat, y: nat): seq<(nat, nat)>
    requires Valid(b) && x < b.width && y <= b.height
    decreases y
  {
    if y == 0 then []
    else
      IdxInRange(b.width, b.height, x, y - 1);
      OkInColumn(b, x, y - 1) + (if MarkingAt(b, x, y - 1) == Ok then [(x, y - 1)] else [])
  }

  /** The `Ok` cells of the first x columns, column by column. */
  ghost function OkCells(b: Board, x: nat): seq<(nat, nat)>
    requires Valid(b) && x <= b.width
  {
    if x == 0 then [] else OkCells(b, x - 1) + OkInColumn(b, x - 1, b.height)
  }

  /**
   * `spawn_zap_particles`: for every cell marked `Ok`, column by column and
   * top down within a column, launch ten particles from it. Existing
   * particles stay first.
   */
  method SpawnZapParticles(particles: seq<Particle>, b: Board, rng: Rng) returns (r: seq<Particle>, rng': Rng)
    requires Valid(b) && ValidRng(rng)
    ensures ValidRng(rng')
    ensures r == particles + Bursts(OkCells(b, b.width), |OkCells(b, b.width)|, rng).0
    ensures rng' == Bursts(OkCells(b, b.width), |OkCells(b, b.width)|, rng).1
    ensures |r| == |particles| + PARTICLES_PER_TILE * |OkCells(b, b.width)|
    ensures forall j :: |particles| <= j < |r| ==> Launched(r[j], OkCells(b, b.width)[(j - |particles|) / PARTICLES_PER_TILE])
  {
    var cells := ConnectedCells(b);
    var spawned;
    spawned, rng' := BurstAll(cells, rng);
    r := particles + spawned;
    forall j | |particles| <= j < |r| ensures Launched(r[j], cells[(j - |particles|) / PARTICLES_PER_TILE]) {
      BurstsLaunched(cells, |cells|, rng, j - |particles|);
    }
  }

  /** The `Ok` cells in the order `spawn_zap_particles` visits them: column by column, top down. */
  method ConnectedCells(b: Board) returns (cells: seq<(nat, nat)>)
    requires Valid(b)
    ensures cells == OkCells(b, b.width)
  {
    cells := [];
    var x := 0;
    while x < b.width
      invariant x <= b.width && cells == OkCells(b, x)
    {
      var y := 0;
      ghost var done := cells;
      assert done + OkInColumn(b, x, 0) == done;
      while y < b.height
        invariant y <= b.height && cells == done + OkInColumn(b, x, y)
      {
        IdxInRange(b.width, b.height, x, y);
        OkInColumnStep(b, x, y, done);
        if MarkingAt(b, x, y) == Ok {
          cells := cells + [(x, y)];
        }
        y := y + 1;
      }
      x := x + 1;
    }
  }

  /** Ten particles for each cell in turn. */
  method BurstAll(cells: seq<(nat, nat)>, rng: Rng) returns (ps: seq<Particle>, rng': Rng)
    requires ValidRng(rng)
    ensures (ps, rng') == Bursts(cells, |cells|, rng)
  {
    ps, rng' := [], rng;
    var i := 0;
    while i < |cells|
      invariant i <= |cells| && (ps, rng') == Bursts(cells, i, rng)
    {
      var more, next := LaunchTile(cells[i], rng');
      ps, rng' := ps + more, next;
      i := i + 1;
    }
  }

  /** One more row of a column adds its cell exactly when it is marked `Ok`. */
  lemma OkInColumnStep(b: Board, x: nat, y: nat, cells: seq<(nat, nat)>)
    requires Valid(b) && x < b.width && y < b.height
    requires Idx(b.height, x, y) < |b.markings|
    ensures MarkingAt(b, x, y) == Ok ==> cells + OkInColumn(b, x, y + 1) == (cells + OkInColumn(b, x, y)) + [(x, y)]
    ensures MarkingAt(b, x, y) != Ok ==> cells + OkInColumn(b, x, y + 1) == cells + OkInColumn(b, x, y)
  {
  }

  /** A particle after `dt` seconds, or nothing once its lifetime runs out. */
  function Age(p: Particle, dt: real): seq<Particle> {
    if p.lifetime - dt <= 0.0 then [] else [p.(lifetime := p.lifetime - dt)]
  }

  /** The particles that outlive `dt`, aged, in order. */
  function LiveParticles(ps: seq<Particle>, dt: real): (r: seq<Particle>)
    ensures |r| <= |ps|
    ensures forall i :: 0 <= i < |r| ==> r[i].lifetime > 0.0
    decreases |ps|
  {
    if |ps| == 0 then [] else LiveParticles(ps[..|ps| - 1], dt) + Age(ps[|ps| - 1], dt)
  }

  // ---------------------------------------------------------------------
  // Effects state
  // ---------------------------------------------------------------------

  /** An arc with its strip width and colour. */
  datatype ArcEntry = ArcEntry(arc: ElectricArc, width: real, color: SegmentColor)

  /** Arcs, particles, the triangle-list buffer (one record per vertex) and the effects generator. */
  datatype EffectsState = EffectsState(arcs: seq<ArcEntry>, particles: seq<Particle>, buffer: seq<StripVertex>, rng: Rng)

  ghost predicate ValidEffects(e: EffectsState) {
    ValidRng(e.rng) && forall i :: 0 <= i < |e.arcs| ==> ValidArc(e.arcs[i].arc)
  }

  /** `EffectsState::new`: nothing to draw, and a generator seeded apart from the board's. */
  function NewEffects(seed: Word): (e: EffectsState)
    ensures ValidEffects(e) && e.arcs == [] && e.particles == [] && e.buffer == []
    ensures seed + 7919 != U64 ==> e.rng.state == (seed + 7919) % U64
  {
    EffectsState([], [], [], NewRng((seed + 7919) % U64))
  }

  /** `effects_vertex_count`: the buffer holds five floats per vertex, one record here. */
  function VertexCount(e: EffectsState): nat {
    |e.buffer|
  }

  /** `clear`: drop arcs, particles and the buffer; the generator keeps its state. */
  function ClearEffects(e: EffectsState): (r: EffectsState)
    ensures r.arcs == [] && r.particles == [] && VertexCount(r) == 0
    ensures r.rng == e.rng
  {
    e.(arcs := [], particles := [], buffer := [])
  }

  /** The draws that twitching the arcs takes: one per displacement. */
  function TwitchDraws(arcs: seq<ArcEntry>, n: nat): nat
    requires n <= |arcs|
  {
    if n == 0 then 0 else TwitchDraws(arcs, n - 1) + |arcs[n - 1].arc.displacements|
  }

  /** A twitch keeps an arc's width, colour, ends and point count. */
  ghost predicate SameShape(e: ArcEntry, e': ArcEntry) {
    e'.width == e.width && e'.color == e.color
    && e'.arc.start == e.arc.start && e'.arc.end == e.arc.end
    && |e'.arc.points| == |e.arc.points|
  }

  /** One arc entry twitched by `factor`. */
  method TwitchEntry(entry: ArcEntry, factor: real, rng: Rng, displace: Displacer) returns (entry': ArcEntry, rng': Rng)
    requires ValidRng(rng) && ValidArc(entry.arc)
    ensures ValidRng(rng') && ValidArc(entry'.arc) && SameShape(entry, entry')
    ensures rng' == Draws(rng, 10000, |entry.arc.displacements|).1
  {
    var twitched;
    twitched, rng' := Twitch(entry.arc, factor, rng, displace);
    entry' := entry.(arc := twitched);
  }

  /** Every arc twitched by `factor`, in order, sharing the generator. */
  method TwitchArcs(arcs: seq<ArcEntry>, factor: real, rng: Rng, displace: Displacer) returns (arcs': seq<ArcEntry>, rng': Rng)
    requires ValidRng(rng) && forall i :: 0 <= i < |arcs| ==> ValidArc(arcs[i].arc)
    ensures ValidRng(rng') && |arcs'| == |arcs|
    ensures forall i :: 0 <= i < |arcs'| ==> ValidArc(arcs'[i].arc) && SameShape(arcs[i], arcs'[i])
    ensures rng' == Draws(rng, 10000, TwitchDraws(arcs, |arcs|)).1
  {
    arcs', rng' := [], rng;
    var n := 0;
    while n < |arcs|
      invariant n <= |arcs| && |arcs'| == n && rng' == Draws(rng, 10000, TwitchDraws(arcs, n)).1
      invariant forall i :: 0 <= i < n ==> ValidArc(arcs'[i].arc) && SameShape(arcs[i], arcs'[i])
    {
      DrawsNextThen(rng, 10000, TwitchDraws(arcs, n), |arcs[n].arc.displacements|);
      var entry';
      entry', rng' := TwitchEntry(arcs[n], factor, rng', displace);
      arcs' := arcs' + [entry'];
      n := n + 1;
    }
  }

  /**
   * `tick`: twitch every arc by 0.05, then age the particles and drop those
   * whose lifetime ran out.
   */
  method TickEffects(e: EffectsState, dt: real, displace: Displacer) returns (r: EffectsState)
    requires ValidEffects(e)
    ensures ValidEffects(r) && |r.arcs| == |e.arcs| && r.buffer == e.buffer
    ensures forall i :: 0 <= i < |r.arcs| ==> SameShape(e.arcs[i], r.arcs[i])
    ensures r.particles == LiveParticles(e.particles, dt)
    ensures r.rng == Draws(e.rng, 10000, TwitchDraws(e.arcs, |e.arcs|)).1
  {
    var arcs, rng := TwitchArcs(e.arcs, 0.05, e.rng, displace);
    var kept: seq<Particle> := [];
    var i := 0;
    while i < |e.particles|
      invariant i <= |e.particles|
      invariant kept == LiveParticles(e.particles[..i], dt)
    {
      assert e.particles[..i + 1][..i] == e.particles[..i];
      var p := e.particles[i];
      if p.lifetime - dt > 0.0 {
        kept := kept + [p.(lifetime := p.lifetime - dt)];
      }
      i := i + 1;
    }
    assert e.particles[..i] == e.particles;
    r := EffectsState(arcs, kept, e.buffer, rng);
  }

  /** The triangle-list vertices of the arcs, one strip per arc. */
  function ArcVertices(arcs: seq<ArcEntry>): nat
    decreases |arcs|
  {
    if |arcs| == 0 then 0
    else ArcVertices(arcs[..|arcs| - 1]) + TriangleListLength(StripLength(|arcs[|arcs| - 1].arc.points|))
  }

  /**
   * `rebuild_effects_buffer`: every arc's strip as a triangle list, then
   * every particle's two-point strip (from its position along its speed).
   */
  method RebuildBuffer(e: EffectsState) returns (r: EffectsState)
    ensures r == e.(buffer := r.buffer)
    ensures VertexCount(r) == ArcVertices(e.arcs) + 18 * |e.particles|
  {
    var buffer: seq<StripVertex> := [];
    var i := 0;
    while i < |e.arcs|
      invariant i <= |e.arcs| && |buffer| == ArcVertices(e.arcs[..i])
    {
      assert e.arcs[..i + 1][..i] == e.arcs[..i];
      var strip := BuildStripVertices(|e.arcs[i].arc.points|, e.arcs[i].color);
      var tris := StripToTriangles(strip);
      buffer := buffer + tris;
      i := i + 1;
    }
    assert e.arcs[..i] == e.arcs;
    var j := 0;
    while j < |e.particles|
      invariant j <= |e.particles| && |buffer| == ArcVertices(e.arcs) + 18 * j
    {
      var strip := BuildStripVertices(2, e.particles[j].color);
      var tris := StripToTriangles(strip);
      buffer := buffer + tris;
      j := j + 1;
    }
    r := e.(buffer := buffer);
  }

  /** An arc of 2^k segments is drawn with 6 * 2^k + 12 vertices. */
  lemma ArcVertexCount(a: ElectricArc, k: nat)
    requires ValidArc(a) && a.numSegments == Pow2(k)
    ensures TriangleListLength(StripLength(|a.points|)) == 6 * Pow2(k) + 12
  {
  }

  // ---------------------------------------------------------------------
  // Arcs from the board's markings
  // ---------------------------------------------------------------------

  /** The screen layout the game draws the board with. */
  const TILE_SIZE: real := 50.0
  const GRID_OFFSET_X: real := 225.0
  const GRID_OFFSET_Y: real := 25.0

  /** The centre of the tile at (x, y): a multiple of 25, so exact in f32. */
  function TileCentre(x: nat, y: nat): (p: Point)
    ensures p.x >= 250.0 && p.y >= 50.0
  {
    Point(250.0 + 50.0 * x as real, 50.0 + 50.0 * y as real)
  }

  /** The centre of the left pin of row y, one tile left of the grid. */
  function LeftPinCentre(y: nat): (p: Point)
    ensures p.x == 200.0 && p.y == TileCentre(0, y).y
  {
    Point(200.0, 50.0 + 50.0 * y as real)
  }

  /** The centre of the right pin of row y, one tile right of a grid `width` wide. */
  function RightPinCentre(width: nat, y: nat): (p: Point)
    ensures p == TileCentre(width, y)
  {
    Point(250.0 + 50.0 * width as real, 50.0 + 50.0 * y as real)
  }

  /** The centres are the source's `offset + i * tile_size + tile_size / 2` in both axes. */
  lemma CentresFollowLayout(x: nat, y: nat, width: nat)
    ensures TileCentre(x, y) == Point(GRID_OFFSET_X + x as real * TILE_SIZE + TILE_SIZE * 0.5,
                                      GRID_OFFSET_Y + y as real * TILE_SIZE + TILE_SIZE * 0.5)
    ensures LeftPinCentre(y) == Point(GRID_OFFSET_X - TILE_SIZE + TILE_SIZE * 0.5, GRID_OFFSET_Y + y as real * TILE_SIZE + TILE_SIZE * 0.5)
    ensures RightPinCentre(width, y) == Point(GRID_OFFSET_X + width as real * TILE_SIZE + TILE_SIZE * 0.5,
                                              GRID_OFFSET_Y + y as real * TILE_SIZE + TILE_SIZE * 0.5)
  {
  }

  /** Different cells have different centres. */
  lemma TileCentreInjective(x: nat, y: nat, x': nat, y': nat)
    requires TileCentre(x, y) == TileCentre(x', y')
    ensures x == x' && y == y'
  {
  }

  /** One pass of the arc builder: the marking it follows, the arcs' colour, 2^po2 segments and strip width. */
  datatype ArcKind = ArcKind(marker: Marking, color: SegmentColor, po2: nat, width: real)

  /** The passes in order: the left player's net, the right player's, then the joined net. */
  const ARC_KINDS: seq<ArcKind> :=
    [ArcKind(Left, Indigo, 4, 4.0), ArcKind(Right, Orange, 4, 4.0), ArcKind(Ok, SkyBlue, 3, 8.0)]

  /** The colour of an arc to a pin: red on the joined net, the pass's colour otherwise. */
  function PinColor(k: ArcKind): (c: SegmentColor)
    ensures c == Red <==> k.marker == Ok || k.color == Red
  {
    if k.marker == Ok then Red else k.color
  }

  /** What one arc is built from: its ends, its 2^po2 segments, its strip width and colour. */
  datatype ArcSpec = ArcSpec(start: Point, end: Point, po2: nat, width: real, color: SegmentColor)

  /** The cell (x, y) carries k's marking and a tile with a connection towards `d`. */
  predicate Carries(b: Board, k: ArcKind, x: nat, y: nat, d: Direction)
    requires Valid(b) && x < b.width && y < b.height
  {
    Mark(b, x, y) == k.marker && At(b.grid, x, y).Some? && HasConnection(At(b.grid, x, y).value, d)
  }

  /** The arc from the left pin of row y, when the first cell carries the pass and opens left. */
  function LeftPinSpecs(b: Board, k: ArcKind, y: nat): seq<ArcSpec>
    requires Valid(b) && 0 < b.width && y < b.height
  {
    if Carries(b, k, 0, y, LEFT) then [ArcSpec(LeftPinCentre(y), TileCentre(0, y), k.po2, k.width, PinColor(k))] else []
  }

  /** The arc to the right pin of row y, when the last cell carries the pass and opens right. */
  function RightPinSpecs(b: Board, k: ArcKind, y: nat): seq<ArcSpec>
    requires Valid(b) && 0 < b.width && y < b.height
  {
    if Carries(b, k, b.width - 1, y, RIGHT) then
      [ArcSpec(TileCentre(b.width - 1, y), RightPinCentre(b.width, y), k.po2, k.width, PinColor(k))]
    else []
  }

  /** The link from (x, y) to its right neighbour, when both carry the pass and face each other. */
  function RightLinkSpecs(b: Board, k: ArcKind, x: nat, y: nat): seq<ArcSpec>
    requires Valid(b) && x < b.width && y < b.height
  {
    if Carries(b, k, x, y, RIGHT) && x + 1 < b.width && Carries(b, k, x + 1, y, LEFT) then
      [ArcSpec(TileCentre(x, y), TileCentre(x + 1, y), k.po2, k.width, k.color)]
    else []
  }

  /** The link from (x, y) to the cell below, when both carry the pass and face each other. */
  function DownLinkSpecs(b: Board, k: ArcKind, x: nat, y: nat): seq<ArcSpec>
    requires Valid(b) && x < b.width && y < b.height
  {
    if Carries(b, k, x, y, DOWN) && y + 1 < b.height && Carries(b, k, x, y + 1, UP) then
      [ArcSpec(TileCentre(x, y), TileCentre(x, y + 1), k.po2, k.width, k.color)]
    else []
  }

  /** The links leaving cell x of row y: rightwards first, then downwards. */
  function CellLinks(b: Board, k: ArcKind, y: nat): nat -> seq<ArcSpec>
    requires Valid(b) && y < b.height
  {
    (x: nat) => if x < b.width then RightLinkSpecs(b, k, x, y) + DownLinkSpecs(b, k, x, y) else []
  }

  /** The links of the first n cells of row y. */
  function RowLinks(b: Board, k: ArcKind, y: nat, n: nat): seq<ArcSpec>
    requires Valid(b) && y < b.height
  {
    Joined(CellLinks(b, k, y), n)
  }

  /** The arcs of row y: the left pin's, the right pin's, then the links cell by cell. */
  function RowSpecs(b: Board, k: ArcKind, y: nat): seq<ArcSpec>
    requires Valid(b) && 0 < b.width && y < b.height
  {
    LeftPinSpecs(b, k, y) + RightPinSpecs(b, k, y) + RowLinks(b, k, y, b.width)
  }

  /** The arcs of pass k row by row. */
  function PassRows(b: Board, k: ArcKind): nat -> seq<ArcSpec>
    requires Valid(b) && (0 < b.width || b.height == 0)
  {
    (y: nat) => if y < b.height then RowSpecs(b, k, y) else []
  }

  /** The arcs of one pass over the first n rows. */
  function KindSpecs(b: Board, k: ArcKind, n: nat): seq<ArcSpec>
    requires Valid(b) && (0 < b.width || b.height == 0)
  {
    Joined(PassRows(b, k), n)
  }

  /** Every arc `build_arcs_from_board` builds, in the order it builds them. */
  function ArcSpecs(b: Board): seq<ArcSpec>
    requires Valid(b) && (0 < b.width || b.height == 0)
  {
    KindSpecs(b, ARC_KINDS[0], b.height) + KindSpecs(b, ARC_KINDS[1], b.height) + KindSpecs(b, ARC_KINDS[2], b.height)
  }

  /** The generator draws the first n arcs take: 2^po2 - 1 each. */
  function DrawCount(specs: seq<ArcSpec>, n: nat): nat
    requires n <= |specs|
  {
    if n == 0 then 0 else DrawCount(specs, n - 1) + (Pow2(specs[n - 1].po2) - 1)
  }

  /** The arc `ElectricArc::new` builds from `start` to `end` with 2^k segments, drawing from `rng`. */
  ghost function ArcFrom(start: Point, end: Point, k: nat, rng: Rng, displace: Displacer): (a: ElectricArc)
    requires ValidRng(rng)
    ensures ValidArc(a) && a.start == start && a.end == end && a.numSegments == Pow2(k)
  {
    var n := Pow2(k);
    var disps := Scaled(Draws(rng, 10000, n - 1).0);
    var pts := WithEnds(Origins(n + 1), n, start, end);
    ElectricArc(start, end, GeneratePoints(pts, disps, 0, n, displace), disps, n, MAX_DISPLACEMENT)
  }

  /** The entry built for `s` from `rng`. */
  ghost function EntryFrom(s: ArcSpec, rng: Rng, displace: Displacer): ArcEntry
    requires ValidRng(rng)
  {
    ArcEntry(ArcFrom(s.start, s.end, s.po2, rng, displace), s.width, s.color)
  }

  /** The generator after the draws of the first n arcs. */
  ghost function RngAfter(specs: seq<ArcSpec>, n: nat, rng: Rng): (r: Rng)
    requires n <= |specs| && ValidRng(rng)
    ensures ValidRng(r)
  {
    Draws(rng, 10000, DrawCount(specs, n)).1
  }

  /** One more arc advances the generator by its own draws. */
  lemma RngAfterStep(specs: seq<ArcSpec>, n: nat, rng: Rng)
    requires n < |specs| && ValidRng(rng)
    ensures RngAfter(specs, n + 1, rng) == Draws(RngAfter(specs, n, rng), 10000, Pow2(specs[n].po2) - 1).1
  {
    DrawsNextThen(rng, 10000, DrawCount(specs, n), Pow2(specs[n].po2) - 1);
  }

  /** The first n arcs of `specs` built one after another, each from the generator the arcs before it left. */
  ghost function Entries(specs: seq<ArcSpec>, n: nat, rng: Rng, displace: Displacer): (r: seq<ArcEntry>)
    requires n <= |specs| && ValidRng(rng)
    ensures |r| == n
  {
    if n == 0 then [] else Entries(specs, n - 1, rng, displace) + [EntryFrom(specs[n - 1], RngAfter(specs, n - 1, rng), displace)]
  }

  /** The i-th entry was built for the i-th spec, from the generator after the draws of the arcs before it. */
  lemma {:induction false} EntriesAt(specs: seq<ArcSpec>, n: nat, rng: Rng, displace: Displacer, i: nat)
    requires n <= |specs| && ValidRng(rng) && i < n
    ensures Entries(specs, n, rng, displace)[i] == EntryFrom(specs[i], RngAfter(specs, i, rng), displace)
  {
    if i < n - 1 {
      EntriesAt(specs, n - 1, rng, displace, i);
    }
  }

  /** An entry built for `s`: its ends, segment count, width and colour are those of `s`. */
  ghost predicate Realises(e: ArcEntry, s: ArcSpec) {
    ValidArc(e.arc) && e.arc.start == s.start && e.arc.end == s.end
    && e.arc.numSegments == Pow2(s.po2) && e.width == s.width && e.color == s.color
  }

  /** `ElectricArc::new` for one spec, with the spec's width and colour. */
  method NewEntry(s: ArcSpec, rng: Rng, displace: Displacer) returns (entry: ArcEntry, rng': Rng)
    requires ValidRng(rng) && s.po2 < 32
    ensures entry == EntryFrom(s, rng, displace) && rng' == Draws(rng, 10000, Pow2(s.po2) - 1).1
  {
    var arc;
    arc, rng' := NewArc(s.start, s.end, s.po2, rng, displace);
    entry := ArcEntry(arc, s.width, s.color);
  }

  /** Build every arc of `specs` in order, sharing the generator. */
  method MakeArcs(specs: seq<ArcSpec>, rng: Rng, displace: Displacer) returns (arcs: seq<ArcEntry>, rng': Rng)
    requires ValidRng(rng) && forall i :: 0 <= i < |specs| ==> specs[i].po2 < 32
    ensures |arcs| == |specs| && rng' == RngAfter(specs, |specs|, rng)
    ensures arcs == Entries(specs, |specs|, rng, displace)
  {
    arcs, rng' := [], rng;
    var n := 0;
    while n < |specs|
      invariant n <= |specs| && |arcs| == n && rng' == RngAfter(specs, n, rng)
      invariant arcs == Entries(specs, n, rng, displace)
    {
      RngAfterStep(specs, n, rng);
      var entry, next := NewEntry(specs[n], rng', displace);
      EntriesSnoc(specs, n, rng, displace, entry);
      arcs, rng' := arcs + [entry], next;
      n := n + 1;
    }
  }

  /** One more entry built from the generator the entries before it left. */
  lemma EntriesSnoc(specs: seq<ArcSpec>, n: nat, rng: Rng, displace: Displacer, e: ArcEntry)
    requires n < |specs| && ValidRng(rng) && e == EntryFrom(specs[n], RngAfter(specs, n, rng), displace)
    ensures Entries(specs, n + 1, rng, displace) == Entries(specs, n, rng, displace) + [e]
  {
  }

  /** Every built entry has its spec's ends, segment count, width and colour. */
  lemma EntriesRealise(specs: seq<ArcSpec>, rng: Rng, displace: Displacer)
    requires ValidRng(rng)
    ensures forall i :: 0 <= i < |specs| ==> Realises(Entries(specs, |specs|, rng, displace)[i], specs[i])
  {
    forall i | 0 <= i < |specs| ensures Realises(Entries(specs, |specs|, rng, displace)[i], specs[i]) {
      EntriesAt(specs, |specs|, rng, displace, i);
    }
  }

  /**
   * `build_arcs_from_board`: the arcs of the board's markings, in the
   * source's order, each built for its spec from the generator in turn.
   * The generator advances by 15 draws for every arc of the two players'
   * nets and 7 for every arc of the joined net. The source subtracts 1
   * from the width, so a board with rows has columns.
   */
  method BuildArcs(b: Board, rng: Rng, displace: Displacer) returns (arcs: seq<ArcEntry>, rng': Rng)
    requires Valid(b) && ValidRng(rng) && (0 < b.width || b.height == 0)
    ensures arcs == Entries(ArcSpecs(b), |ArcSpecs(b)|, rng, displace)
    ensures ValidRng(rng') && |arcs| == |ArcSpecs(b)|
    ensures forall i :: 0 <= i < |arcs| ==> Realises(arcs[i], ArcSpecs(b)[i])
    ensures rng' == Draws(rng, 10000, 15 * |KindSpecs(b, ARC_KINDS[0], b.height)| + 15 * |KindSpecs(b, ARC_KINDS[1], b.height)|
                                      + 7 * |KindSpecs(b, ARC_KINDS[2], b.height)|).1
  {
    var specs := ArcSpecs(b);
    ArcSpecsSmall(b);
    arcs, rng' := MakeArcs(specs, rng, displace);
    EntriesRealise(specs, rng, displace);
    ArcSpecsRng(b, rng);
  }

  /** The effects after `build_arcs_from_board`: the board's arcs replace the old ones, drawn in order from the effects generator. */
  ghost function WithArcs(e: EffectsState, b: Board, displace: Displacer): (r: EffectsState)
    requires Valid(b) && ValidRng(e.rng) && (0 < b.width || b.height == 0)
  {
    var specs := ArcSpecs(b);
    e.(arcs := Entries(specs, |specs|, e.rng, displace), rng := RngAfter(specs, |specs|, e.rng))
  }

  /** `build_arcs_from_board` on the effects: the particles and buffer stay, each arc realises its description, and the generator moves on by the arcs' draws. */
  method RebuildArcs(e: EffectsState, b: Board, displace: Displacer) returns (r: EffectsState)
    requires ValidEffects(e) && Valid(b) && (0 < b.width || b.height == 0)
    ensures ValidEffects(r) && r == WithArcs(e, b, displace)
    ensures r.particles == e.particles && r.buffer == e.buffer && |r.arcs| == |ArcSpecs(b)|
    ensures forall i :: 0 <= i < |r.arcs| ==> Realises(r.arcs[i], ArcSpecs(b)[i])
    ensures r.rng == Draws(e.rng, 10000, 15 * |KindSpecs(b, ARC_KINDS[0], b.height)| + 15 * |KindSpecs(b, ARC_KINDS[1], b.height)|
                                         + 7 * |KindSpecs(b, ARC_KINDS[2], b.height)|).1
  {
    var arcs, rng := BuildArcs(b, e.rng, displace);
    ArcSpecsRng(b, e.rng);
    r := e.(arcs := arcs, rng := rng);
  }

  /** The effects after `spawn_zap_particles`: a burst per connected tile, drawn from the effects generator. */
  ghost function WithZapBurst(e: EffectsState, b: Board): (r: EffectsState)
    requires Valid(b) && ValidRng(e.rng)
  {
    var burst := Bursts(OkCells(b, b.width), |OkCells(b, b.width)|, e.rng);
    e.(particles := e.particles + burst.0, rng := burst.1)
  }

  /** `spawn_zap_particles` on the effects: the arcs and buffer stay, one burst per connected tile is appended. */
  method ZapBurst(e: EffectsState, b: Board) returns (r: EffectsState)
    requires ValidEffects(e) && Valid(b)
    ensures ValidEffects(r) && r == WithZapBurst(e, b)
    ensures r.arcs == e.arcs && r.buffer == e.buffer
    ensures |r.particles| == |e.particles| + PARTICLES_PER_TILE * |OkCells(b, b.width)|
  {
    var particles, rng := SpawnZapParticles(e.particles, b, e.rng);
    r := e.(particles := particles, rng := rng);
  }

  /** The generator after the board's arcs: 15 draws per arc of the players' nets, 7 per arc of the joined net. */
  lemma ArcSpecsRng(b: Board, rng: Rng)
    requires Valid(b) && ValidRng(rng) && (0 < b.width || b.height == 0)
    ensures RngAfter(ArcSpecs(b), |ArcSpecs(b)|, rng) ==
      Draws(rng, 10000, 15 * |KindSpecs(b, ARC_KINDS[0], b.height)| + 15 * |KindSpecs(b, ARC_KINDS[1], b.height)|
                        + 7 * |KindSpecs(b, ARC_KINDS[2], b.height)|).1
  {
    var c := 15 * |KindSpecs(b, ARC_KINDS[0], b.height)| + 15 * |KindSpecs(b, ARC_KINDS[1], b.height)|
             + 7 * |KindSpecs(b, ARC_KINDS[2], b.height)|;
    ArcSpecsDrawCount(b);
    RngAfterCount(ArcSpecs(b), rng, c);
  }

  /** The generator after all of `specs` is `c` draws on, when they take `c` draws. */
  lemma RngAfterCount(specs: seq<ArcSpec>, rng: Rng, c: nat)
    requires ValidRng(rng) && DrawCount(specs, |specs|) == c
    ensures RngAfter(specs, |specs|, rng) == Draws(rng, 10000, c).1
  {
  }

  /** Specs of one segment power take 2^p - 1 draws each. */
  lemma {:induction false} UniformDrawCount(specs: seq<ArcSpec>, n: nat, p: nat)
    requires n <= |specs| && forall i :: 0 <= i < |specs| ==> specs[i].po2 == p
    ensures DrawCount(specs, n) == (Pow2(p) - 1) * n
  {
    if n > 0 {
      UniformDrawCount(specs, n - 1, p);
    }
  }

  /** The draws of two spec lists one after the other add up. */
  lemma {:induction false} DrawCountAppend(a: seq<ArcSpec>, c: seq<ArcSpec>, n: nat)
    requires n <= |c|
    ensures DrawCount(a + c, |a| + n) == DrawCount(a, |a|) + DrawCount(c, n)
  {
    if n == 0 {
      assert (a + c)[..|a|] == a[..|a|];
      DrawCountPrefix(a + c, a, |a|);
    } else {
      DrawCountAppend(a, c, n - 1);
      assert (a + c)[|a| + n - 1] == c[n - 1];
    }
  }

  /** The draws of a prefix depend on the prefix only. */
  lemma {:induction false} DrawCountPrefix(a: seq<ArcSpec>, c: seq<ArcSpec>, n: nat)
    requires n <= |a| && n <= |c| && a[..n] == c[..n]
    ensures DrawCount(a, n) == DrawCount(c, n)
  {
    if n > 0 {
      assert a[..n - 1] == a[..n][..n - 1] && c[..n - 1] == c[..n][..n - 1];
      assert a[n - 1] == a[..n][n - 1];
      DrawCountPrefix(a, c, n - 1);
    }
  }

  /** The board's arcs draw 15 values per arc of the players' nets and 7 per arc of the joined net. */
  lemma ArcSpecsDrawCount(b: Board)
    requires Valid(b) && (0 < b.width || b.height == 0)
    ensures DrawCount(ArcSpecs(b), |ArcSpecs(b)|) ==
      15 * |KindSpecs(b, ARC_KINDS[0], b.height)| + 15 * |KindSpecs(b, ARC_KINDS[1], b.height)|
      + 7 * |KindSpecs(b, ARC_KINDS[2], b.height)|
  {
    KindSpecsUniform(b, ARC_KINDS[0]);
    KindSpecsUniform(b, ARC_KINDS[1]);
    KindSpecsUniform(b, ARC_KINDS[2]);
    PassesDrawCount(KindSpecs(b, ARC_KINDS[0], b.height), KindSpecs(b, ARC_KINDS[1], b.height), KindSpecs(b, ARC_KINDS[2], b.height));
  }

  /** Every arc of the board has at most 16 segments. */
  lemma ArcSpecsSmall(b: Board)
    requires Valid(b) && (0 < b.width || b.height == 0)
    ensures forall i :: 0 <= i < |ArcSpecs(b)| ==> ArcSpecs(b)[i].po2 <= 4
  {
    KindSpecsUniform(b, ARC_KINDS[0]);
    KindSpecsUniform(b, ARC_KINDS[1]);
    KindSpecsUniform(b, ARC_KINDS[2]);
  }

  /** Arcs of 16 segments, then of 16, then of 8 take 15, 15 and 7 draws each. */
  lemma PassesDrawCount(l: seq<ArcSpec>, r: seq<ArcSpec>, o: seq<ArcSpec>)
    requires forall i :: 0 <= i < |l| ==> l[i].po2 == 4
    requires forall i :: 0 <= i < |r| ==> r[i].po2 == 4
    requires forall i :: 0 <= i < |o| ==> o[i].po2 == 3
    ensures DrawCount(l + r + o, |l + r + o|) == 15 * |l| + 15 * |r| + 7 * |o|
  {
    DrawCountAppend(l + r, o, |o|);
    DrawCountAppend(l, r, |r|);
    UniformDrawCount(l, |l|, 4);
    UniformDrawCount(r, |r|, 4);
    UniformDrawCount(o, |o|, 3);
    assert Pow2(4) == 16 && Pow2(3) == 8;
  }

  /** An arc from the left pin of some row into the row's first cell, which carries pass k and opens left. */
  ghost predicate LeftPinArc(b: Board, k: ArcKind, s: ArcSpec)
    requires Valid(b)
  {
    exists y: nat :: y < b.height && 0 < b.width && Carries(b, k, 0, y, LEFT)
      && s == ArcSpec(LeftPinCentre(y), TileCentre(0, y), k.po2, k.width, PinColor(k))
  }

  /** An arc from the last cell of some row, which carries pass k and opens right, out to the row's right pin. */
  ghost predicate RightPinArc(b: Board, k: ArcKind, s: ArcSpec)
    requires Valid(b)
  {
    exists y: nat :: y < b.height && 0 < b.width && Carries(b, k, b.width - 1, y, RIGHT)
      && s == ArcSpec(TileCentre(b.width - 1, y), RightPinCentre(b.width, y), k.po2, k.width, PinColor(k))
  }

  /** A link between two side-by-side cells that both carry pass k and face each other. */
  ghost predicate AcrossArc(b: Board, k: ArcKind, s: ArcSpec)
    requires Valid(b)
  {
    exists x: nat, y: nat :: x + 1 < b.width && y < b.height && Carries(b, k, x, y, RIGHT) && Carries(b, k, x + 1, y, LEFT)
      && s == ArcSpec(TileCentre(x, y), TileCentre(x + 1, y), k.po2, k.width, k.color)
  }

  /** A link between a cell and the one below it, both carrying pass k and facing each other. */
  ghost predicate DownArc(b: Board, k: ArcKind, s: ArcSpec)
    requires Valid(b)
  {
    exists x: nat, y: nat :: x < b.width && y + 1 < b.height && Carries(b, k, x, y, DOWN) && Carries(b, k, x, y + 1, UP)
      && s == ArcSpec(TileCentre(x, y), TileCentre(x, y + 1), k.po2, k.width, k.color)
  }

  /** The arcs pass k draws, stated without the builder's loops. */
  ghost predicate PassArc(b: Board, k: ArcKind, s: ArcSpec)
    requires Valid(b)
  {
    LeftPinArc(b, k, s) || RightPinArc(b, k, s) || AcrossArc(b, k, s) || DownArc(b, k, s)
  }

  /** Pass k builds exactly the arcs `PassArc` describes. */
  lemma KindSpecsArePassArcs(b: Board, k: ArcKind, s: ArcSpec)
    requires Valid(b) && (0 < b.width || b.height == 0)
    ensures s in KindSpecs(b, k, b.height) <==> PassArc(b, k, s)
  {
    if s in KindSpecs(b, k, b.height) {
      InKindSpecsIsPassArc(b, k, s);
    }
    if PassArc(b, k, s) {
      PassArcInKindSpecs(b, k, s);
    }
  }

  /** Every arc pass k builds is one `PassArc` describes. */
  lemma InKindSpecsIsPassArc(b: Board, k: ArcKind, s: ArcSpec)
    requires Valid(b) && (0 < b.width || b.height == 0) && s in KindSpecs(b, k, b.height)
    ensures PassArc(b, k, s)
  {
    JoinedHas(PassRows(b, k), b.height, s);
    var y: nat :| y < b.height && s in PassRows(b, k)(y);
    InRowIsPassArc(b, k, y, s);
  }

  /** Every arc of row y is one `PassArc` describes. */
  lemma InRowIsPassArc(b: Board, k: ArcKind, y: nat, s: ArcSpec)
    requires Valid(b) && 0 < b.width && y < b.height && s in RowSpecs(b, k, y)
    ensures PassArc(b, k, s)
  {
    if s in LeftPinSpecs(b, k, y) {
      assert LeftPinArc(b, k, s);
    } else if s in RightPinSpecs(b, k, y) {
      assert RightPinArc(b, k, s);
    } else {
      JoinedHas(CellLinks(b, k, y), b.width, s);
      var x: nat :| x < b.width && s in CellLinks(b, k, y)(x);
      InCellIsPassArc(b, k, x, y, s);
    }
  }

  /** Every link of a cell is one `PassArc` describes. */
  lemma InCellIsPassArc(b: Board, k: ArcKind, x: nat, y: nat, s: ArcSpec)
    requires Valid(b) && x < b.width && y < b.height && s in RightLinkSpecs(b, k, x, y) + DownLinkSpecs(b, k, x, y)
    ensures PassArc(b, k, s)
  {
    if s in RightLinkSpecs(b, k, x, y) {
      assert AcrossArc(b, k, s);
    } else {
      assert DownArc(b, k, s);
    }
  }

  /** An arc of row y is an arc of the pass. */
  lemma InRowInKindSpecs(b: Board, k: ArcKind, y: nat, s: ArcSpec)
    requires Valid(b) && y < b.height && 0 < b.width && s in RowSpecs(b, k, y)
    ensures s in KindSpecs(b, k, b.height)
  {
    assert s in PassRows(b, k)(y);
    JoinedHas(PassRows(b, k), b.height, s);
  }

  /** A link of cell x of row y is an arc of the pass. */
  lemma InCellInKindSpecs(b: Board, k: ArcKind, x: nat, y: nat, s: ArcSpec)
    requires Valid(b) && x < b.width && y < b.height && s in RightLinkSpecs(b, k, x, y) + DownLinkSpecs(b, k, x, y)
    ensures s in KindSpecs(b, k, b.height)
  {
    assert s in CellLinks(b, k, y)(x);
    JoinedHas(CellLinks(b, k, y), b.width, s);
    assert s in RowSpecs(b, k, y);
    InRowInKindSpecs(b, k, y, s);
  }

  /** Every arc `PassArc` describes is built by pass k. */
  lemma PassArcInKindSpecs(b: Board, k: ArcKind, s: ArcSpec)
    requires Valid(b) && (0 < b.width || b.height == 0) && PassArc(b, k, s)
    ensures s in KindSpecs(b, k, b.height)
  {
    if LeftPinArc(b, k, s) {
      var y: nat :| y < b.height && 0 < b.width && Carries(b, k, 0, y, LEFT)
        && s == ArcSpec(LeftPinCentre(y), TileCentre(0, y), k.po2, k.width, PinColor(k));
      assert s in LeftPinSpecs(b, k, y);
      InRowInKindSpecs(b, k, y, s);
    } else if RightPinArc(b, k, s) {
      var y: nat :| y < b.height && 0 < b.width && Carries(b, k, b.width - 1, y, RIGHT)
        && s == ArcSpec(TileCentre(b.width - 1, y), RightPinCentre(b.width, y), k.po2, k.width, PinColor(k));
      assert s in RightPinSpecs(b, k, y);
      InRowInKindSpecs(b, k, y, s);
    } else if AcrossArc(b, k, s) {
      var x: nat, y: nat :| x + 1 < b.width && y < b.height && Carries(b, k, x, y, RIGHT) && Carries(b, k, x + 1, y, LEFT)
        && s == ArcSpec(TileCentre(x, y), TileCentre(x + 1, y), k.po2, k.width, k.color);
      assert s in RightLinkSpecs(b, k, x, y);
      InCellInKindSpecs(b, k, x, y, s);
    } else {
      var x: nat, y: nat :| x < b.width && y + 1 < b.height && Carries(b, k, x, y, DOWN) && Carries(b, k, x, y + 1, UP)
        && s == ArcSpec(TileCentre(x, y), TileCentre(x, y + 1), k.po2, k.width, k.color);
      assert s in DownLinkSpecs(b, k, x, y);
      InCellInKindSpecs(b, k, x, y, s);
    }
  }

  /** Every arc of pass k has the pass's segment power and width. */
  lemma KindSpecsUniform(b: Board, k: ArcKind)
    requires Valid(b) && (0 < b.width || b.height == 0)
    ensures forall i :: 0 <= i < |KindSpecs(b, k, b.height)| ==>
      KindSpecs(b, k, b.height)[i].po2 == k.po2 && KindSpecs(b, k, b.height)[i].width == k.width
  {
    forall i | 0 <= i < |KindSpecs(b, k, b.height)|
      ensures KindSpecs(b, k, b.height)[i].po2 == k.po2 && KindSpecs(b, k, b.height)[i].width == k.width
    {
      InKindSpecsIsPassArc(b, k, KindSpecs(b, k, b.height)[i]);
    }
  }

  /** The board's arcs are exactly those some pass describes. */
  lemma ArcSpecsArePassArcs(b: Board, s: ArcSpec)
    requires Valid(b) && (0 < b.width || b.height == 0)
    ensures s in ArcSpecs(b) <==> exists i: nat :: i < |ARC_KINDS| && PassArc(b, ARC_KINDS[i], s)
  {
    KindSpecsArePassArcs(b, ARC_KINDS[0], s);
    KindSpecsArePassArcs(b, ARC_KINDS[1], s);
    KindSpecsArePassArcs(b, ARC_KINDS[2], s);
    if s in ArcSpecs(b) {
      var i: nat := if s in KindSpecs(b, ARC_KINDS[0], b.height) then 0
                    else if s in KindSpecs(b, ARC_KINDS[1], b.height) then 1 else 2;
      assert PassArc(b, ARC_KINDS[i], s);
    }
    if exists i: nat :: i < |ARC_KINDS| && PassArc(b, ARC_KINDS[i], s) {
      var i: nat :| i < |ARC_KINDS| && PassArc(b, ARC_KINDS[i], s);
      assert s in KindSpecs(b, ARC_KINDS[i], b.height);
    }
  }

  /** The passes are told apart by the colour of their links. */
  lemma LinkColorsDistinct(i: nat, j: nat)
    requires i < |ARC_KINDS| && j < |ARC_KINDS| && ARC_KINDS[i].color == ARC_KINDS[j].color
    ensures i == j
  {
  }

  /** The passes are told apart by the colour and segment power of their pin arcs. */
  lemma PinLooksDistinct(i: nat, j: nat)
    requires i < |ARC_KINDS| && j < |ARC_KINDS|
    requires PinColor(ARC_KINDS[i]) == PinColor(ARC_KINDS[j]) && ARC_KINDS[i].po2 == ARC_KINDS[j].po2
    ensures i == j
  {
  }

  /** Where a left-pin arc starts. */
  lemma LeftPinShape(b: Board, k: ArcKind, s: ArcSpec)
    requires Valid(b) && LeftPinArc(b, k, s)
    ensures s.start.x == 200.0
  {
  }

  /** Where a right-pin arc ends. */
  lemma RightPinShape(b: Board, k: ArcKind, s: ArcSpec)
    requires Valid(b) && RightPinArc(b, k, s)
    ensures s.end.x == 250.0 + 50.0 * b.width as real
  {
  }

  /** An across link runs one tile to the right. */
  lemma AcrossShape(b: Board, k: ArcKind, s: ArcSpec)
    requires Valid(b) && AcrossArc(b, k, s)
    ensures s.end.y == s.start.y && s.end.x == s.start.x + 50.0
  {
  }

  /** A down link runs one tile down. */
  lemma DownShape(b: Board, k: ArcKind, s: ArcSpec)
    requires Valid(b) && DownArc(b, k, s)
    ensures s.end.x == s.start.x && s.end.y == s.start.y + 50.0
  {
  }

  /** An across link starting at the centre of (x, y) is the one between (x, y) and (x + 1, y). */
  lemma AcrossAt(b: Board, k: ArcKind, s: ArcSpec, x: nat, y: nat)
    requires Valid(b) && AcrossArc(b, k, s) && s.start == TileCentre(x, y)
    ensures x + 1 < b.width && y < b.height && Carries(b, k, x, y, RIGHT) && Carries(b, k, x + 1, y, LEFT)
    ensures s == ArcSpec(TileCentre(x, y), TileCentre(x + 1, y), k.po2, k.width, k.color)
  {
    var x': nat, y': nat :| x' + 1 < b.width && y' < b.height && Carries(b, k, x', y', RIGHT) && Carries(b, k, x' + 1, y', LEFT)
      && s == ArcSpec(TileCentre(x', y'), TileCentre(x' + 1, y'), k.po2, k.width, k.color);
    TileCentreInjective(x, y, x', y');
  }

  /** A down link starting at the centre of (x, y) is the one between (x, y) and (x, y + 1). */
  lemma DownAt(b: Board, k: ArcKind, s: ArcSpec, x: nat, y: nat)
    requires Valid(b) && DownArc(b, k, s) && s.start == TileCentre(x, y)
    ensures x < b.width && y + 1 < b.height && Carries(b, k, x, y, DOWN) && Carries(b, k, x, y + 1, UP)
    ensures s == ArcSpec(TileCentre(x, y), TileCentre(x, y + 1), k.po2, k.width, k.color)
  {
    var x': nat, y': nat :| x' < b.width && y' + 1 < b.height && Carries(b, k, x', y', DOWN) && Carries(b, k, x', y' + 1, UP)
      && s == ArcSpec(TileCentre(x', y'), TileCentre(x', y' + 1), k.po2, k.width, k.color);
    TileCentreInjective(x, y, x', y');
  }

  /** A left-pin arc ending at the centre of (0, y) is row y's. */
  lemma LeftPinAt(b: Board, k: ArcKind, s: ArcSpec, y: nat)
    requires Valid(b) && LeftPinArc(b, k, s) && s.end == TileCentre(0, y)
    ensures 0 < b.width && y < b.height && Carries(b, k, 0, y, LEFT)
    ensures s == ArcSpec(LeftPinCentre(y), TileCentre(0, y), k.po2, k.width, PinColor(k))
  {
    var y': nat :| y' < b.height && 0 < b.width && Carries(b, k, 0, y', LEFT)
      && s == ArcSpec(LeftPinCentre(y'), TileCentre(0, y'), k.po2, k.width, PinColor(k));
    TileCentreInjective(0, y, 0, y');
  }

  /** A right-pin arc starting at the centre of (width - 1, y) is row y's. */
  lemma RightPinAt(b: Board, k: ArcKind, s: ArcSpec, y: nat)
    requires Valid(b) && 0 < b.width && RightPinArc(b, k, s) && s.start == TileCentre(b.width - 1, y)
    ensures y < b.height && Carries(b, k, b.width - 1, y, RIGHT)
    ensures s == ArcSpec(TileCentre(b.width - 1, y), RightPinCentre(b.width, y), k.po2, k.width, PinColor(k))
  {
    var y': nat :| y' < b.height && 0 < b.width && Carries(b, k, b.width - 1, y', RIGHT)
      && s == ArcSpec(TileCentre(b.width - 1, y'), RightPinCentre(b.width, y'), k.po2, k.width, PinColor(k));
    TileCentreInjective(b.width - 1, y, b.width - 1, y');
  }

  /**
   * The link of pass i between (x, y) and (x + 1, y) is among the board's
   * arcs exactly when both cells carry the pass's marking and face each
   * other.
   */
  lemma AcrossLinkDrawn(b: Board, i: nat, x: nat, y: nat)
    requires Valid(b) && i < |ARC_KINDS| && x + 1 < b.width && y < b.height
    ensures var k := ARC_KINDS[i];
      ArcSpec(TileCentre(x, y), TileCentre(x + 1, y), k.po2, k.width, k.color) in ArcSpecs(b)
      <==> Carries(b, k, x, y, RIGHT) && Carries(b, k, x + 1, y, LEFT)
  {
    var k := ARC_KINDS[i];
    var s := ArcSpec(TileCentre(x, y), TileCentre(x + 1, y), k.po2, k.width, k.color);
    ArcSpecsArePassArcs(b, s);
    if Carries(b, k, x, y, RIGHT) && Carries(b, k, x + 1, y, LEFT) {
      assert AcrossArc(b, k, s);
      assert PassArc(b, ARC_KINDS[i], s);
    }
    if s in ArcSpecs(b) {
      var j: nat :| j < |ARC_KINDS| && PassArc(b, ARC_KINDS[j], s);
      var kj := ARC_KINDS[j];
      if LeftPinArc(b, kj, s) {
        LeftPinShape(b, kj, s);
        assert false;
      } else if RightPinArc(b, kj, s) {
        RightPinShape(b, kj, s);
        assert false;
      } else if AcrossArc(b, kj, s) {
        AcrossAt(b, kj, s, x, y);
        LinkColorsDistinct(i, j);
      } else {
        DownShape(b, kj, s);
        assert false;
      }
    }
  }

  /**
   * The link of pass i between (x, y) and (x, y + 1) is among the board's
   * arcs exactly when both cells carry the pass's marking and face each
   * other.
   */
  lemma DownLinkDrawn(b: Board, i: nat, x: nat, y: nat)
    requires Valid(b) && i < |ARC_KINDS| && x < b.width && y + 1 < b.height
    ensures var k := ARC_KINDS[i];
      ArcSpec(TileCentre(x, y), TileCentre(x, y + 1), k.po2, k.width, k.color) in ArcSpecs(b)
      <==> Carries(b, k, x, y, DOWN) && Carries(b, k, x, y + 1, UP)
  {
    var k := ARC_KINDS[i];
    var s := ArcSpec(TileCentre(x, y), TileCentre(x, y + 1), k.po2, k.width, k.color);
    ArcSpecsArePassArcs(b, s);
    if Carries(b, k, x, y, DOWN) && Carries(b, k, x, y + 1, UP) {
      assert DownArc(b, k, s);
      assert PassArc(b, ARC_KINDS[i], s);
    }
    if s in ArcSpecs(b) {
      var j: nat :| j < |ARC_KINDS| && PassArc(b, ARC_KINDS[j], s);
      var kj := ARC_KINDS[j];
      if LeftPinArc(b, kj, s) {
        LeftPinShape(b, kj, s);
        assert false;
      } else if RightPinArc(b, kj, s) {
        RightPinShape(b, kj, s);
        assert false;
      } else if AcrossArc(b, kj, s) {
        AcrossShape(b, kj, s);
        assert false;
      } else {
        DownAt(b, kj, s, x, y);
        LinkColorsDistinct(i, j);
      }
    }
  }

  /**
   * The arc of pass i from the left pin of row y is among the board's arcs
   * exactly when the row's first cell carries the pass's marking and opens
   * left.
   */
  lemma LeftPinDrawn(b: Board, i: nat, y: nat)
    requires Valid(b) && i < |ARC_KINDS| && 0 < b.width && y < b.height
    ensures var k := ARC_KINDS[i];
      ArcSpec(LeftPinCentre(y), TileCentre(0, y), k.po2, k.width, PinColor(k)) in ArcSpecs(b)
      <==> Carries(b, k, 0, y, LEFT)
  {
    var k := ARC_KINDS[i];
    var s := ArcSpec(LeftPinCentre(y), TileCentre(0, y), k.po2, k.width, PinColor(k));
    ArcSpecsArePassArcs(b, s);
    if Carries(b, k, 0, y, LEFT) {
      assert LeftPinArc(b, k, s);
      assert PassArc(b, ARC_KINDS[i], s);
    }
    if s in ArcSpecs(b) {
      var j: nat :| j < |ARC_KINDS| && PassArc(b, ARC_KINDS[j], s);
      var kj := ARC_KINDS[j];
      if LeftPinArc(b, kj, s) {
        LeftPinAt(b, kj, s, y);
        PinLooksDistinct(i, j);
      } else if RightPinArc(b, kj, s) {
        RightPinShape(b, kj, s);
        assert false;
      } else if AcrossArc(b, kj, s) {
        AcrossShape(b, kj, s);
        assert false;
      } else {
        DownShape(b, kj, s);
        assert false;
      }
    }
  }

  /**
   * The arc of pass i to the right pin of row y is among the board's arcs
   * exactly when the row's last cell carries the pass's marking and opens
   * right.
   */
  lemma RightPinDrawn(b: Board, i: nat, y: nat)
    requires Valid(b) && i < |ARC_KINDS| && 0 < b.width && y < b.height
    ensures var k := ARC_KINDS[i];
      ArcSpec(TileCentre(b.width - 1, y), RightPinCentre(b.width, y), k.po2, k.width, PinColor(k)) in ArcSpecs(b)
      <==> Carries(b, k, b.width - 1, y, RIGHT)
  {
    var k := ARC_KINDS[i];
    var s := ArcSpec(TileCentre(b.width - 1, y), RightPinCentre(b.width, y), k.po2, k.width, PinColor(k));
    ArcSpecsArePassArcs(b, s);
    if Carries(b, k, b.width - 1, y, RIGHT) {
      assert RightPinArc(b, k, s);
      assert PassArc(b, ARC_KINDS[i], s);
    }
    if s in ArcSpecs(b) {
      var j: nat :| j < |ARC_KINDS| && PassArc(b, ARC_KINDS[j], s);
      var kj := ARC_KINDS[j];
      if LeftPinArc(b, kj, s) {
        LeftPinShape(b, kj, s);
        assert false;
      } else if RightPinArc(b, kj, s) {
        RightPinAt(b, kj, s, y);
        PinLooksDistinct(i, j);
      } else if AcrossArc(b, kj, s) {
        AcrossAt(b, kj, s, b.width - 1, y);
        assert false;
      } else {
        DownShape(b, kj, s);
        assert false;
      }
    }
  }
}
