/**
 * The dead-end-ratio controlled tile generator of the board
 * (zapzap/src/systems/board.rs, `get_new_element` and the counters it keeps).
 */
module Generator {
  import opened Random
  import opened Grid

  /**
   * The board's generator state: its random stream, the target percentage
   * of dead-end tiles, and the running counts of generated and dead-end tiles.
   */
  datatype Generator = Generator(rng: Rng, missingLinks: nat, newElements: nat, missingLinkElements: nat)

  predicate ValidGen(g: Generator) {
    ValidRng(g.rng) && g.missingLinkElements <= g.newElements
  }

  /** The masks with exactly one connection. */
  predicate IsDeadEnd(k: nat) {
    k == 1 || k == 2 || k == 4 || k == 8
  }

  /**
   * The source re-draws while the mask is a dead end, with no bound. The
   * model gives up after this many re-draws and keeps the last draw.
   */
  const REROLL_LIMIT: nat := 1000

  datatype Reroll = Reroll(k: nat, rng: Rng, draws: nat)

  /**
   * Draw a mask in [1, 15]; when `reroll` holds, draw again while the mask is
   * a dead end, at most `fuel` more times.
   */
  function DrawMask(rng: Rng, reroll: bool, fuel: nat): (r: Reroll)
    requires ValidRng(rng)
    ensures 1 <= r.k <= 15 && ValidRng(r.rng)
    ensures 1 <= r.draws <= fuel + 1
    ensures !reroll ==> r.draws == 1
    ensures reroll && IsDeadEnd(r.k) ==> r.draws == fuel + 1
    decreases fuel
  {
    var d := NextInt(rng, 15);
    if reroll && IsDeadEnd(d.value + 1) && fuel > 0 then
      var r := DrawMask(d.next, reroll, fuel - 1);
      Reroll(r.k, r.rng, r.draws + 1)
    else Reroll(d.value + 1, d.next, 1)
  }

  /** Without re-drawing, or when the first draw is no dead end, the first draw is kept. */
  lemma DrawMaskFirst(rng: Rng, reroll: bool, fuel: nat)
    requires ValidRng(rng)
    requires !reroll || !IsDeadEnd(NextInt(rng, 15).value + 1)
    ensures DrawMask(rng, reroll, fuel) == Reroll(NextInt(rng, 15).value + 1, NextInt(rng, 15).next, 1)
  {
    var d := NextInt(rng, 15);
    assert !(reroll && IsDeadEnd(d.value + 1) && fuel > 0);
  }

  /** Whether the running dead-end percentage exceeds the target once `newElements` counts the current draw. */
  predicate RatioExceeded(missingLinks: nat, missingLinkElements: nat, newElements: nat) {
    newElements > 0 && 100 * missingLinkElements / newElements > missingLinks
  }

  datatype Element = Element(k: nat, gen: Generator)

  /**
   * Draw one new tile mask. Exactly one tile is counted; it is counted as a
   * dead end exactly when it is one. When the dead-end ratio is above target
   * the result is a dead end only if every allowed re-draw was one too;
   * otherwise it is the first draw.
   */
  function NewElement(g: Generator): (e: Element)
    requires ValidGen(g)
    ensures ValidGen(e.gen)
    ensures 1 <= e.k <= 15
    ensures e.gen.missingLinks == g.missingLinks
    ensures e.gen.newElements == g.newElements + 1
    ensures e.gen.missingLinkElements == g.missingLinkElements + (if IsDeadEnd(e.k) then 1 else 0)
  {
    var ne := g.newElements + 1;
    var r := DrawMask(g.rng, RatioExceeded(g.missingLinks, g.missingLinkElements, ne), REROLL_LIMIT);
    var mle := g.missingLinkElements + (if IsDeadEnd(r.k) then 1 else 0);
    Element(r.k, Generator(r.rng, g.missingLinks, ne, mle))
  }

  /**
   * How a new tile is drawn: re-drawing is on exactly when the dead-end
   * ratio, counting this tile, is above target, and a dead end comes out of
   * it only after every allowed re-draw.
   */
  lemma NewElementDraws(g: Generator)
    requires ValidGen(g)
    ensures var re := RatioExceeded(g.missingLinks, g.missingLinkElements, g.newElements + 1);
      var r := DrawMask(g.rng, re, REROLL_LIMIT);
      var e := NewElement(g);
      e.k == r.k && e.gen.rng == r.rng && (re && IsDeadEnd(e.k) ==> r.draws == REROLL_LIMIT + 1)
  {
  }

  datatype Elements = Elements(ks: seq<nat>, gen: Generator)

  /** Draw `n` masks in a row; `ks[i]` is the i-th draw. */
  function NewElements(g: Generator, n: nat): (e: Elements)
    requires ValidGen(g)
    ensures ValidGen(e.gen) && |e.ks| == n
    ensures forall i :: 0 <= i < n ==> 1 <= e.ks[i] <= 15
    ensures e.gen.missingLinks == g.missingLinks
    ensures e.gen.newElements == g.newElements + n
  {
    if n == 0 then Elements([], g)
    else
      var prev := NewElements(g, n - 1);
      var last := NewElement(prev.gen);
      Elements(prev.ks + [last.k], last.gen)
  }

  /** Run k of the draws from g has k draws and, past the first, extends run k - 1 by one. */
  ghost predicate RunExtends(g: Generator, k: nat)
    requires ValidGen(g)
  {
    |NewElements(g, k).ks| == k && (k > 0 ==> NewElements(g, k).ks[..k - 1] == NewElements(g, k - 1).ks)
  }

  /** One more draw keeps the earlier draws. */
  lemma NewElementsGrow(g: Generator, k: nat)
    requires ValidGen(g)
    ensures RunExtends(g, k)
  {
    if k > 0 {
      var prev := NewElements(g, k - 1);
      assert NewElements(g, k).ks == prev.ks + [NewElement(prev.gen).k];
    }
  }

  /** Every run of up to n draws extends the one before. */
  lemma RunsExtend(g: Generator, n: nat)
    requires ValidGen(g)
    ensures forall k :: 0 <= k <= n ==> RunExtends(g, k)
  {
    forall k | 0 <= k <= n
      ensures RunExtends(g, k)
    {
      NewElementsGrow(g, k);
    }
  }

  /** The first m of N draws are the m draws made on their own. */
  lemma NewElementsPrefix(g: Generator, m: nat, n: nat)
    requires ValidGen(g) && m <= n
    ensures NewElements(g, m).ks == NewElements(g, n).ks[..m]
  {
    RunsExtend(g, n);
    PrefixChain(g, m, n);
  }

  /** Runs that each extend the one before are prefixes of every later run. */
  lemma {:induction false} PrefixChain(g: Generator, m: nat, n: nat)
    requires ValidGen(g) && m <= n
    requires forall k :: 0 <= k <= n ==> RunExtends(g, k)
    ensures NewElements(g, m).ks == NewElements(g, n).ks[..m]
    decreases n
  {
    var all := NewElements(g, n).ks;
    assert RunExtends(g, n);
    if m < n {
      PrefixChain(g, m, n - 1);
      assert all[..m] == all[..n - 1][..m];
    } else {
      assert all[..n] == all;
    }
  }

  /**
   * Draw number m of a run is one more draw from the generator left by the
   * first m draws.
   */
  lemma NewElementsStep(g: Generator, m: nat, n: nat)
    requires ValidGen(g) && m < n
    ensures NewElements(g, n).ks[m] == NewElement(NewElements(g, m).gen).k
    ensures NewElements(g, m + 1).gen == NewElement(NewElements(g, m).gen).gen
  {
    NewElementsPrefix(g, m + 1, n);
    var prev := NewElements(g, m);
    assert NewElements(g, m + 1).ks == prev.ks + [NewElement(prev.gen).k];
    assert NewElements(g, n).ks[m] == NewElements(g, m + 1).ks[m];
  }

  /** The tiles built from a run of draws. */
  function FreshTiles(ks: seq<nat>): (ts: seq<Tile>)
    requires forall i :: 0 <= i < |ks| ==> ks[i] < 16
    ensures |ts| == |ks|
    ensures forall i :: 0 <= i < |ks| ==> ts[i] == MaskTile(ks[i])
  {
    seq(|ks|, i requires 0 <= i < |ks| => MaskTile(ks[i]))
  }
}
