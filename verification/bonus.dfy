/**
 * Coins and power-ups dropped after a zap (zapzap/src/systems/bonus.rs):
 * how many coins a zap earns, where the drops land, how falling drops
 * become landed ones, and which side collects a landed drop.
 *
 * A drop's fall (position, speed, scale, spin) is floating-point physics and
 * is not modelled: the model keeps the cell a drop falls onto and what it
 * is, and takes "still falling after this frame" as an input per drop.
 */
module Bonus {
  import opened Components
  import opened Grid
  import opened Random
  import opened GameBoard

  datatype BonusKind = CoinBonus(coin: BonusType) | PowerUpBonus(power: PowerUpType)

  /** A drop aimed at cell (tileX, tileY). */
  datatype FallingBonus = FallingBonus(tileX: nat, tileY: nat, kind: BonusKind)

  /** The drops still in the air and those lying on the board. */
  datatype BonusState = BonusState(falling: seq<FallingBonus>, landed: seq<FallingBonus>)

  /** A coin is worth its points; a power-up is worth nothing. */
  function Points(b: FallingBonus): (p: int)
    ensures p >= 0
    ensures p == 0 <==> b.kind.PowerUpBonus?
  {
    match b.kind
    case CoinBonus(c) => CoinPoints(c)
    case PowerUpBonus(_) => 0
  }

  // ---------------------------------------------------------------------
  // calculate_bonus_drops
  // ---------------------------------------------------------------------

  /** Numbers of 1-, 2- and 5-point coins to drop. */
  datatype Drops = Drops(many1: nat, many2: nat, many5: nat)

  /**
   * The extra coins one side's connected pins earn: more than six pins give
   * one 1-coin, three 2-coins and a 5-coin per pin beyond six; four to six
   * pins give one 1-coin and a 2-coin per pin beyond three.
   */
  function SideBonus(d: Drops, pins: nat): (r: Drops)
    ensures d.many1 <= r.many1 <= d.many1 + 1
    ensures r.many1 == d.many1 <==> pins <= 3
    ensures r.many5 > d.many5 <==> pins > 6
  {
    if pins > 6 then Drops(d.many1 + 1, d.many2 + 3, d.many5 + (pins - 6))
    else if pins > 3 then Drops(d.many1 + 1, d.many2 + (pins - 3), d.many5)
    else d
  }

  /** `calculate_bonus_drops`: two base 1-coins, then the left side's extras, then the right side's. */
  function BonusDrops(leftPins: nat, rightPins: nat): (d: Drops)
    ensures 2 <= d.many1 <= 4
    ensures d.many5 > 0 <==> leftPins > 6 || rightPins > 6
  {
    SideBonus(SideBonus(Drops(2, 0, 0), leftPins), rightPins)
  }

  /** Swapping the sides earns the same coins. */
  lemma BonusDropsSymmetric(leftPins: nat, rightPins: nat)
    ensures BonusDrops(leftPins, rightPins) == BonusDrops(rightPins, leftPins)
  {
  }

  /** The coin counts the source's unit tests expect. */
  lemma BonusDropsExamples()
    ensures BonusDrops(0, 0) == Drops(2, 0, 0)
    ensures BonusDrops(5, 0) == Drops(3, 2, 0)
    ensures BonusDrops(8, 9) == Drops(4, 6, 5)
  {
  }

  /** More pins on one side never earn fewer coins of any kind. */
  lemma BonusDropsMonotone(leftPins: nat, leftPins': nat, rightPins: nat)
    requires leftPins <= leftPins'
    ensures var d, d' := BonusDrops(leftPins, rightPins), BonusDrops(leftPins', rightPins);
      d.many1 <= d'.many1 && d.many2 + d.many5 <= d'.many2 + d'.many5
      && d.many1 + 2 * d.many2 + 5 * d.many5 <= d'.many1 + 2 * d'.many2 + 5 * d'.many5
  {
  }

  // ---------------------------------------------------------------------
  // spawn_bonuses
  // ---------------------------------------------------------------------

  /** The source casts both board sizes to 32 bits and divides by them. */
  predicate Drawable(width: nat, height: nat) {
    0 < width < 0x1_0000_0000 && 0 < height < 0x1_0000_0000
  }

  /** Every drop aims at a cell of a width x height board. */
  ghost predicate Inside(fs: seq<FallingBonus>, width: nat, height: nat) {
    forall i :: 0 <= i < |fs| ==> fs[i].tileX < width && fs[i].tileY < height
  }

  /** The retries after which an occupied cell is accepted anyway. */
  const RETRY_LIMIT: nat := 51

  /** One placement draw: a column below `width`, then a row below `height`. */
  function PairDraw(rng: Rng, width: nat, height: nat): (r: (nat, nat, Rng))
    requires ValidRng(rng) && Drawable(width, height)
    ensures r.0 < width && r.1 < height && ValidRng(r.2)
  {
    var dx := NextInt(rng, width);
    var dy := NextInt(dx.next, height);
    (dx.value, dy.value, dy.next)
  }

  /** The generator after n placement draws. */
  ghost function PairsAfter(rng: Rng, width: nat, height: nat, n: nat): (r: Rng)
    requires ValidRng(rng) && Drawable(width, height)
    ensures ValidRng(r)
  {
    if n == 0 then rng else PairDraw(PairsAfter(rng, width, height, n - 1), width, height).2
  }

  /** The cell of the k-th placement draw (counting from 0). */
  ghost function PairAt(rng: Rng, width: nat, height: nat, k: nat): (nat, nat)
    requires ValidRng(rng) && Drawable(width, height)
  {
    var d := PairDraw(PairsAfter(rng, width, height, k), width, height);
    (d.0, d.1)
  }

  /**
   * Where the placement loop settles, by its retry rule: the first drawn
   * cell not in `occupied`, or the one drawn after fifty-one rejections.
   * Returns the column, the row, the rejected draws and the generator.
   */
  ghost function Pick(rng: Rng, width: nat, height: nat, occupied: seq<(nat, nat)>, attempts: nat): (r: (nat, nat, nat, Rng))
    requires ValidRng(rng) && Drawable(width, height) && attempts <= RETRY_LIMIT
    ensures r.0 < width && r.1 < height && ValidRng(r.3) && attempts <= r.2 <= RETRY_LIMIT
    decreases RETRY_LIMIT - attempts
  {
    var d := PairDraw(rng, width, height);
    if (d.0, d.1) !in occupied || attempts > 50 then (d.0, d.1, attempts, d.2)
    else Pick(d.2, width, height, occupied, attempts + 1)
  }

  /**
   * The placement loop: draw a column, then a row; keep the cell when no
   * earlier drop took it or when more than fifty draws were already
   * rejected. `attempts` counts the rejected draws: every one of them hit
   * an occupied cell, and the generator moved on by `attempts + 1` draws.
   */
  method PickCell(rng: Rng, width: nat, height: nat, occupied: seq<(nat, nat)>)
    returns (x: nat, y: nat, attempts: nat, rng': Rng)
    requires ValidRng(rng) && Drawable(width, height)
    ensures ValidRng(rng') && x < width && y < height
    ensures attempts <= RETRY_LIMIT
    ensures (x, y) in occupied ==> attempts == RETRY_LIMIT
    ensures (x, y) == PairAt(rng, width, height, attempts) && rng' == PairsAfter(rng, width, height, attempts + 1)
    ensures forall k :: 0 <= k < attempts ==> PairAt(rng, width, height, k) in occupied
    ensures (x, y, attempts, rng') == Pick(rng, width, height, occupied, 0)
  {
    attempts, rng' := 0, rng;
    while true
      invariant ValidRng(rng') && attempts <= RETRY_LIMIT
      invariant rng' == PairsAfter(rng, width, height, attempts)
      invariant Rejected(rng, width, height, occupied, attempts)
      invariant Pick(rng, width, height, occupied, 0) == Pick(rng', width, height, occupied, attempts)
      decreases RETRY_LIMIT - attempts
    {
      PickStep(rng, width, height, occupied, attempts);
      var dx := NextInt(rng', width);
      var dy := NextInt(dx.next, height);
      x, y, rng' := dx.value, dy.value, dy.next;
      if (x, y) !in occupied || attempts > 50 {
        RejectedAll(rng, width, height, occupied, attempts);
        return;
      }
      attempts := attempts + 1;
    }
  }

  /** One turn of the placement loop, after `attempts` rejected draws. */
  lemma PickStep(rng: Rng, width: nat, height: nat, occupied: seq<(nat, nat)>, attempts: nat)
    requires ValidRng(rng) && Drawable(width, height) && attempts <= RETRY_LIMIT
    ensures var before := PairsAfter(rng, width, height, attempts);
      var d := PairDraw(before, width, height);
      && PairAt(rng, width, height, attempts) == (d.0, d.1)
      && PairsAfter(rng, width, height, attempts + 1) == d.2
      && Pick(before, width, height, occupied, attempts)
         == (if (d.0, d.1) !in occupied || attempts > 50 then (d.0, d.1, attempts, d.2)
             else Pick(d.2, width, height, occupied, attempts + 1))
      && (Rejected(rng, width, height, occupied, attempts) && (d.0, d.1) in occupied
          ==> Rejected(rng, width, height, occupied, attempts + 1))
  {
  }

  /** The first n placement draws all hit occupied cells. */
  ghost predicate Rejected(rng: Rng, width: nat, height: nat, occupied: seq<(nat, nat)>, n: nat)
    requires ValidRng(rng) && Drawable(width, height)
  {
    n == 0 || (Rejected(rng, width, height, occupied, n - 1) && PairAt(rng, width, height, n - 1) in occupied)
  }

  lemma {:induction false} RejectedAll(rng: Rng, width: nat, height: nat, occupied: seq<(nat, nat)>, n: nat)
    requires ValidRng(rng) && Drawable(width, height)
    ensures Rejected(rng, width, height, occupied, n) <==> forall k :: 0 <= k < n ==> PairAt(rng, width, height, k) in occupied
  {
    if n > 0 {
      RejectedAll(rng, width, height, occupied, n - 1);
    }
  }

  /** One spawning run so far: the drops, the cells they took, and the generator. */
  datatype Spawner = Spawner(falling: seq<FallingBonus>, occupied: seq<(nat, nat)>, rng: Rng)

  /** `rs` is `fs` plus one drop of `kind` at the end, aimed at a board cell. */
  ghost predicate Spawned(fs: seq<FallingBonus>, rs: seq<FallingBonus>, kind: BonusKind, width: nat, height: nat) {
    |rs| == |fs| + 1 && rs[..|fs|] == fs
    && rs[|fs|].kind == kind && rs[|fs|].tileX < width && rs[|fs|].tileY < height
  }

  /** `rs` is `fs` itself, or `fs` plus one drop of `kind` on the board. */
  ghost predicate MaybeSpawned(fs: seq<FallingBonus>, rs: seq<FallingBonus>, kind: BonusKind, width: nat, height: nat) {
    rs == fs || Spawned(fs, rs, kind, width, height)
  }

  /** The run after one more drop of `kind`, placed by `Pick`. */
  ghost function SpawnOne(s: Spawner, kind: BonusKind, width: nat, height: nat): (r: Spawner)
    requires ValidRng(s.rng) && Drawable(width, height)
    ensures ValidRng(r.rng)
  {
    var p := Pick(s.rng, width, height, s.occupied, 0);
    Spawner(s.falling + [FallingBonus(p.0, p.1, kind)], s.occupied + [(p.0, p.1)], p.3)
  }

  /** One more drop appends a single drop of `kind` on the board. */
  lemma SpawnOneShape(s: Spawner, kind: BonusKind, width: nat, height: nat)
    requires ValidRng(s.rng) && Drawable(width, height)
    ensures Spawned(s.falling, SpawnOne(s, kind, width, height).falling, kind, width, height)
  {
    var r := SpawnOne(s, kind, width, height);
    assert r.falling[..|s.falling|] == s.falling;
  }

  /**
   * `r` is `fs` followed by drops of `kind` only, and on the board
   * whenever `fs` was.
   */
  ghost predicate Extends(fs: seq<FallingBonus>, r: seq<FallingBonus>, kind: BonusKind, width: nat, height: nat) {
    && |fs| <= |r| && r[..|fs|] == fs
    && (forall i :: |fs| <= i < |r| ==> r[i].kind == kind)
    && (Inside(fs, width, height) ==> Inside(r, width, height))
  }

  /** `r` is `s` followed by exactly n drops of `kind`. */
  ghost predicate SpawnedRun(s: Spawner, r: Spawner, kind: BonusKind, n: nat, width: nat, height: nat) {
    |r.falling| == |s.falling| + n && Extends(s.falling, r.falling, kind, width, height)
  }

  /** One more drop of `kind` keeps a run extending `fs` with drops of `kind`. */
  lemma ExtendsSnoc(fs: seq<FallingBonus>, prev: Spawner, r: Spawner, kind: BonusKind, width: nat, height: nat)
    requires Extends(fs, prev.falling, kind, width, height) && Spawned(prev.falling, r.falling, kind, width, height)
    ensures Extends(fs, r.falling, kind, width, height)
  {
    assert r.falling[..|fs|] == r.falling[..|prev.falling|][..|fs|];
  }

  /** The run after n more drops of `kind`. */
  ghost function SpawnN(s: Spawner, kind: BonusKind, n: nat, width: nat, height: nat): (r: Spawner)
    requires ValidRng(s.rng) && Drawable(width, height)
    ensures ValidRng(r.rng)
  {
    if n == 0 then s else SpawnOne(SpawnN(s, kind, n - 1, width, height), kind, width, height)
  }

  /** n more drops extend the run by n drops of `kind`, on the board if the earlier ones were. */
  lemma {:induction false} SpawnNShape(s: Spawner, kind: BonusKind, n: nat, width: nat, height: nat)
    requires ValidRng(s.rng) && Drawable(width, height)
    ensures SpawnedRun(s, SpawnN(s, kind, n, width, height), kind, n, width, height)
  {
    if n == 0 {
      assert s.falling[..|s.falling|] == s.falling;
    } else {
      SpawnNShape(s, kind, n - 1, width, height);
      SpawnNStep(s, kind, n, width, height);
    }
  }

  /** The inductive step of `SpawnNShape`: the n-th drop keeps the run's shape. */
  lemma SpawnNStep(s: Spawner, kind: BonusKind, n: nat, width: nat, height: nat)
    requires ValidRng(s.rng) && Drawable(width, height) && 0 < n
    ensures SpawnedRun(s, SpawnN(s, kind, n - 1, width, height), kind, n - 1, width, height)
        ==> SpawnedRun(s, SpawnN(s, kind, n, width, height), kind, n, width, height)
  {
    var prev := SpawnN(s, kind, n - 1, width, height);
    if SpawnedRun(s, prev, kind, n - 1, width, height) {
      SpawnOneShape(prev, kind, width, height);
      ExtendsSnoc(s.falling, prev, SpawnOne(prev, kind, width, height), kind, width, height);
    }
  }

  /** Spawn one drop of `kind` on a freshly picked cell. */
  method Spawn(s: Spawner, kind: BonusKind, width: nat, height: nat) returns (r: Spawner)
    requires ValidRng(s.rng) && Drawable(width, height)
    ensures ValidRng(r.rng) && Spawned(s.falling, r.falling, kind, width, height)
    ensures r.occupied == s.occupied + [(r.falling[|s.falling|].tileX, r.falling[|s.falling|].tileY)]
    ensures r == SpawnOne(s, kind, width, height)
  {
    var x, y, _, rng' := PickCell(s.rng, width, height, s.occupied);
    r := Spawner(s.falling + [FallingBonus(x, y, kind)], s.occupied + [(x, y)], rng');
    assert r.falling[..|s.falling|] == s.falling;
  }

  /** Spawn `n` drops of `kind`, one after another. */
  method SpawnMany(s: Spawner, kind: BonusKind, n: nat, width: nat, height: nat) returns (r: Spawner)
    requires ValidRng(s.rng) && Drawable(width, height)
    ensures ValidRng(r.rng) && r == SpawnN(s, kind, n, width, height)
    ensures SpawnedRun(s, r, kind, n, width, height)
  {
    r := s;
    var i := 0;
    while i < n
      invariant i <= n && r == SpawnN(s, kind, i, width, height)
    {
      r := Spawn(r, kind, width, height);
      i := i + 1;
    }
    SpawnNShape(s, kind, n, width, height);
  }

  /** The run after the roll for power-up `p`: one draw below `DropFreq(p)`, and a drop when it comes up 0. */
  ghost function RollPowerUp(s: Spawner, p: PowerUpType, width: nat, height: nat): (r: Spawner)
    requires ValidRng(s.rng) && Drawable(width, height)
    ensures ValidRng(r.rng)
  {
    var roll := NextInt(s.rng, DropFreq(p));
    if roll.value == 0 then SpawnOne(s.(rng := roll.next), PowerUpBonus(p), width, height) else s.(rng := roll.next)
  }

  /** Roll for power-up `p` (a one-in-`DropFreq(p)` chance) and spawn it on success. */
  method SpawnPowerUp(s: Spawner, p: PowerUpType, width: nat, height: nat) returns (r: Spawner)
    requires ValidRng(s.rng) && Drawable(width, height)
    ensures ValidRng(r.rng) && r == RollPowerUp(s, p, width, height)
    ensures MaybeSpawned(s.falling, r.falling, PowerUpBonus(p), width, height)
    ensures Inside(s.falling, width, height) ==> Inside(r.falling, width, height)
  {
    var roll := NextInt(s.rng, DropFreq(p));
    r := s.(rng := roll.next);
    if roll.value == 0 {
      r := Spawn(r, PowerUpBonus(p), width, height);
    }
    RollPowerUpShape(s, p, width, height);
  }

  /** A roll leaves the run as it was or appends one drop of the power-up on the board. */
  lemma RollPowerUpShape(s: Spawner, p: PowerUpType, width: nat, height: nat)
    requires ValidRng(s.rng) && Drawable(width, height)
    ensures var r := RollPowerUp(s, p, width, height);
      && MaybeSpawned(s.falling, r.falling, PowerUpBonus(p), width, height)
      && (Inside(s.falling, width, height) ==> Inside(r.falling, width, height))
  {
    var roll := NextInt(s.rng, DropFreq(p));
    var r := RollPowerUp(s, p, width, height);
    if roll.value == 0 {
      SpawnOneShape(s.(rng := roll.next), PowerUpBonus(p), width, height);
    }
    SpawnedInside(s.falling, r.falling, PowerUpBonus(p), width, height);
  }

  /** A run that is unchanged or one drop on the board longer stays on the board. */
  lemma SpawnedInside(fs: seq<FallingBonus>, rs: seq<FallingBonus>, kind: BonusKind, width: nat, height: nat)
    requires MaybeSpawned(fs, rs, kind, width, height)
    ensures Inside(fs, width, height) ==> Inside(rs, width, height)
  {
    if rs != fs && Inside(fs, width, height) {
      forall i | 0 <= i < |rs| ensures rs[i].tileX < width && rs[i].tileY < height {
        if i < |fs| {
          assert rs[i] == rs[..|fs|][i];
        }
      }
    }
  }

  /** The order the source rolls power-ups in. */
  function Rank(p: PowerUpType): nat {
    match p
    case Bomb => 0
    case Cross => 1
    case Arrow => 2
  }

  /** Power-up drops only, each type at most once, in rolling order. */
  ghost predicate PowerUpRun(fs: seq<FallingBonus>) {
    (forall i :: 0 <= i < |fs| ==> fs[i].kind.PowerUpBonus?)
    && (forall i, j :: 0 <= i < j < |fs| ==> Rank(fs[i].kind.power) < Rank(fs[j].kind.power))
  }

  /**
   * A drop plan released: nothing landed yet, and falling are the planned
   * coins in order followed by at most three power-ups in rank order.
   */
  ghost predicate Released(many1: nat, many2: nat, many5: nat, bs: BonusState) {
    var n := many1 + many2 + many5;
    && bs.landed == []
    && n <= |bs.falling| <= n + 3
    && CoinRun(bs.falling[..n], many1, many2, many5)
    && PowerUpRun(bs.falling[n..])
  }

  /** The coins of a drop: `many1` 1-coins, then `many2` 2-coins, then `many5` 5-coins. */
  ghost predicate CoinRun(fs: seq<FallingBonus>, many1: nat, many2: nat, many5: nat) {
    |fs| == many1 + many2 + many5
    && (forall i :: 0 <= i < many1 ==> fs[i].kind == CoinBonus(Coin1))
    && (forall i :: many1 <= i < many1 + many2 ==> fs[i].kind == CoinBonus(Coin2))
    && (forall i :: many1 + many2 <= i < |fs| ==> fs[i].kind == CoinBonus(Coin5))
  }

  /** The run after the coins: `many1` 1-coins, `many2` 2-coins, `many5` 5-coins, from an empty board. */
  ghost function CoinsSpawned(many1: nat, many2: nat, many5: nat, width: nat, height: nat, rng: Rng): (r: Spawner)
    requires ValidRng(rng) && Drawable(width, height)
    ensures ValidRng(r.rng)
  {
    var s1 := SpawnN(Spawner([], [], rng), CoinBonus(Coin1), many1, width, height);
    var s2 := SpawnN(s1, CoinBonus(Coin2), many2, width, height);
    SpawnN(s2, CoinBonus(Coin5), many5, width, height)
  }

  /** The run after the Bomb, Cross and Arrow rolls. */
  ghost function PowerUpsRolled(s: Spawner, width: nat, height: nat): (r: Spawner)
    requires ValidRng(s.rng) && Drawable(width, height)
    ensures ValidRng(r.rng)
  {
    RollPowerUp(RollPowerUp(RollPowerUp(s, Bomb, width, height), Cross, width, height), Arrow, width, height)
  }

  /** The coins of a drop, spawned in order onto an empty board. */
  method SpawnCoins(many1: nat, many2: nat, many5: nat, width: nat, height: nat, rng: Rng) returns (s: Spawner)
    requires ValidRng(rng) && Drawable(width, height)
    ensures ValidRng(s.rng) && Inside(s.falling, width, height)
    ensures CoinRun(s.falling, many1, many2, many5)
    ensures s == CoinsSpawned(many1, many2, many5, width, height, rng)
  {
    var s1 := SpawnMany(Spawner([], [], rng), CoinBonus(Coin1), many1, width, height);
    var s2 := SpawnMany(s1, CoinBonus(Coin2), many2, width, height);
    s := SpawnMany(s2, CoinBonus(Coin5), many5, width, height);
    CoinsInOrder(s1.falling, s2.falling, s.falling, many1, many2, many5, width, height);
  }

  /** Three runs of 1-coins, 2-coins and 5-coins, each extending the last, make a coin run on the board. */
  lemma CoinsInOrder(f1: seq<FallingBonus>, f2: seq<FallingBonus>, f3: seq<FallingBonus>, many1: nat, many2: nat, many5: nat,
                     width: nat, height: nat)
    requires |f1| == many1 && Extends([], f1, CoinBonus(Coin1), width, height)
    requires |f2| == |f1| + many2 && Extends(f1, f2, CoinBonus(Coin2), width, height)
    requires |f3| == |f2| + many5 && Extends(f2, f3, CoinBonus(Coin5), width, height)
    ensures CoinRun(f3, many1, many2, many5) && Inside(f3, width, height)
  {
    assert forall i :: 0 <= i < many1 ==> f3[i] == f2[i] == f1[i] by {
      assert f3[..|f2|] == f2 && f2[..|f1|] == f1;
    }
    assert forall i :: 0 <= i < many1 + many2 ==> f3[i] == f2[i] by {
      assert f3[..|f2|] == f2;
    }
  }

  /** The three power-up rolls after the coins: Bomb, then Cross, then Arrow. */
  method SpawnPowerUps(s: Spawner, width: nat, height: nat) returns (r: Spawner)
    requires ValidRng(s.rng) && Drawable(width, height)
    ensures ValidRng(r.rng)
    ensures |s.falling| <= |r.falling| <= |s.falling| + 3 && r.falling[..|s.falling|] == s.falling
    ensures PowerUpRun(r.falling[|s.falling|..])
    ensures Inside(s.falling, width, height) ==> Inside(r.falling, width, height)
    ensures r == PowerUpsRolled(s, width, height)
  {
    var s1 := SpawnPowerUp(s, Bomb, width, height);
    var s2 := SpawnPowerUp(s1, Cross, width, height);
    r := SpawnPowerUp(s2, Arrow, width, height);
    PowerUpStep(s.falling, s1.falling, s2.falling, r.falling, width, height);
  }

  /** Three optional appends of a Bomb, a Cross and an Arrow leave a power-up run after the first drops. */
  lemma PowerUpStep(f0: seq<FallingBonus>, f1: seq<FallingBonus>, f2: seq<FallingBonus>, f3: seq<FallingBonus>,
                    width: nat, height: nat)
    requires MaybeSpawned(f0, f1, PowerUpBonus(Bomb), width, height)
    requires MaybeSpawned(f1, f2, PowerUpBonus(Cross), width, height)
    requires MaybeSpawned(f2, f3, PowerUpBonus(Arrow), width, height)
    ensures |f0| <= |f3| <= |f0| + 3 && f3[..|f0|] == f0
    ensures PowerUpRun(f3[|f0|..])
  {
    var n := |f0|;
    assert f2[..n] == f0 by {
      assert f2[..|f1|][..n] == f2[..n];
    }
    assert f3[..n] == f0 by {
      assert f3[..|f2|][..n] == f3[..n];
    }
    var tail := f3[n..];
    forall i | 0 <= i < |tail|
      ensures tail[i].kind.PowerUpBonus? && Rank(tail[i].kind.power) == RankAt(f1, f2, n + i)
    {
      if n + i < |f1| {
        assert tail[i] == f1[n + i];
      } else if n + i < |f2| {
        assert tail[i] == f2[n + i];
      } else {
        assert tail[i] == f3[n + i];
      }
    }
    forall i, j | 0 <= i < j < |tail| ensures Rank(tail[i].kind.power) < Rank(tail[j].kind.power) {
      assert RankAt(f1, f2, n + i) < RankAt(f1, f2, n + j);
    }
  }

  /** The rank of the power-up at index k after the rolls: 0 from the Bomb roll, 1 from Cross, 2 from Arrow. */
  function RankAt(f1: seq<FallingBonus>, f2: seq<FallingBonus>, k: nat): nat {
    if k < |f1| then 0 else if k < |f2| then 1 else 2
  }

  datatype SpawnResult = SpawnResult(state: BonusState, rng: Rng)

  /** A whole drop run: the coins in order, then the Bomb, Cross and Arrow rolls. */
  ghost function DropRun(many1: nat, many2: nat, many5: nat, width: nat, height: nat, rng: Rng): (r: Spawner)
    requires ValidRng(rng) && Drawable(width, height)
    ensures ValidRng(r.rng)
  {
    PowerUpsRolled(CoinsSpawned(many1, many2, many5, width, height, rng), width, height)
  }

  /**
   * `spawn_bonuses`: throw away all drops, then spawn `many1` 1-coins,
   * `many2` 2-coins and `many5` 5-coins, then roll for a Bomb, a Cross and
   * an Arrow. Every drop aims at a cell of the board.
   */
  method SpawnBonuses(s: BonusState, many1: nat, many2: nat, many5: nat, width: nat, height: nat, rng: Rng)
    returns (r: SpawnResult)
    requires ValidRng(rng) && Drawable(width, height)
    ensures ValidRng(r.rng) && Released(many1, many2, many5, r.state)
    ensures Inside(r.state.falling, width, height)
    ensures var run := DropRun(many1, many2, many5, width, height, rng);
      r == SpawnResult(BonusState(run.falling, []), run.rng)
  {
    var coins := SpawnCoins(many1, many2, many5, width, height, rng);
    var all := SpawnPowerUps(coins, width, height);
    r := SpawnResult(BonusState(all.falling, []), all.rng);
  }

  // ---------------------------------------------------------------------
  // tick_falling
  // ---------------------------------------------------------------------

  /** The drops of `xs` whose flag in `still` equals `keep`, in order. */
  function Select(xs: seq<FallingBonus>, still: seq<bool>, keep: bool): (r: seq<FallingBonus>)
    requires |still| == |xs|
    ensures |r| <= |xs|
    decreases |xs|
  {
    if |xs| == 0 then []
    else
      var n := |xs| - 1;
      Select(xs[..n], still[..n], keep) + (if still[n] == keep then [xs[n]] else [])
  }

  /** Every drop is selected by exactly one of the two flags. */
  lemma {:induction false} SelectSplits(xs: seq<FallingBonus>, still: seq<bool>)
    requires |still| == |xs|
    ensures multiset(Select(xs, still, true)) + multiset(Select(xs, still, false)) == multiset(xs)
    ensures |Select(xs, still, true)| + |Select(xs, still, false)| == |xs|
    decreases |xs|
  {
    if |xs| == 0 {
      assert xs == [] && Select(xs, still, true) == [] && Select(xs, still, false) == [];
    } else {
      var n := |xs| - 1;
      var x, t, f := xs[n], Select(xs[..n], still[..n], true), Select(xs[..n], still[..n], false);
      SelectSplits(xs[..n], still[..n]);
      var t', f' := Select(xs, still, true), Select(xs, still, false);
      assert xs[..n] == xs[..|xs| - 1] && still[..n] == still[..|xs| - 1];
      if still[n] {
        assert t' == t + [x] && f' == f;
      } else {
        assert t' == t && f' == f + [x];
      }
      SplitLast(xs, t, f, t', f');
    }
  }

  /**
   * If `t` and `f` split all but the last element of `xs`, then appending
   * that element to either of them splits `xs`.
   */
  lemma SplitLast<E>(xs: seq<E>, t: seq<E>, f: seq<E>, t': seq<E>, f': seq<E>)
    requires |xs| > 0 && multiset(t) + multiset(f) == multiset(xs[..|xs| - 1])
    requires var x := xs[|xs| - 1]; (t' == t + [x] && f' == f) || (t' == t && f' == f + [x])
    ensures multiset(t') + multiset(f') == multiset(xs)
  {
    assert xs == xs[..|xs| - 1] + [xs[|xs| - 1]];
  }

  datatype TickResult = TickResult(state: BonusState, anyFalling: bool)

  /**
   * `tick_falling`: every falling drop takes a physics step; `still[i]`
   * says whether drop i is still above its target afterwards. Those stay
   * falling in order, the rest are appended to the landed drops in order.
   */
  method TickFalling(s: BonusState, still: seq<bool>) returns (r: TickResult)
    requires |still| == |s.falling|
    ensures r.state.falling == Select(s.falling, still, true)
    ensures r.state.landed == s.landed + Select(s.falling, still, false)
    ensures r.anyFalling <==> |r.state.falling| > 0
  {
    var stillFalling := [];
    var landed := s.landed;
    var i := 0;
    while i < |s.falling|
      invariant i <= |s.falling|
      invariant stillFalling == Select(s.falling[..i], still[..i], true)
      invariant landed == s.landed + Select(s.falling[..i], still[..i], false)
    {
      assert s.falling[..i + 1][..i] == s.falling[..i] && still[..i + 1][..i] == still[..i];
      if still[i] {
        stillFalling := stillFalling + [s.falling[i]];
      } else {
        landed := landed + [s.falling[i]];
      }
      i := i + 1;
    }
    assert s.falling[..i] == s.falling && still[..i] == still;
    r := TickResult(BonusState(stillFalling, landed), |stillFalling| > 0);
  }

  /** A frame neither creates nor loses drops. */
  lemma TickFallingKeepsDrops(s: BonusState, still: seq<bool>, r: TickResult)
    requires |still| == |s.falling|
    requires r.state.falling == Select(s.falling, still, true)
    requires r.state.landed == s.landed + Select(s.falling, still, false)
    ensures multiset(AllBonuses(r.state)) == multiset(AllBonuses(s))
    ensures |AllBonuses(r.state)| == |AllBonuses(s)|
  {
    SelectSplits(s.falling, still);
  }

  // ---------------------------------------------------------------------
  // collect_landed
  // ---------------------------------------------------------------------

  /** Where a landed drop goes: to the left player, to the right player, or nowhere yet. */
  datatype Side = ToLeft | ToRight | Stays

  /** Drops on `Left` or `Ok` cells go left, on `Right` cells right; the rest stay. */
  function Destination(m: Marking): (s: Side)
    ensures s == ToLeft <==> m == Left || m == Ok
    ensures s == ToRight <==> m == Right
  {
    match m
    case Left => ToLeft
    case Ok => ToLeft
    case Right => ToRight
    case _ => Stays
  }

  /** The source reads each drop's marking by its flat index, which must exist. */
  ghost predicate OnBoard(b: Board, xs: seq<FallingBonus>) {
    forall i :: 0 <= i < |xs| ==> Idx(b.height, xs[i].tileX, xs[i].tileY) < |b.markings|
  }

  function SideOf(b: Board, x: FallingBonus): Side
    requires Idx(b.height, x.tileX, x.tileY) < |b.markings|
  {
    Destination(MarkingAt(b, x.tileX, x.tileY))
  }

  /** The drops of `xs` whose cell sends them to `side`, in order. */
  function Goes(b: Board, xs: seq<FallingBonus>, side: Side): (r: seq<FallingBonus>)
    requires OnBoard(b, xs)
    ensures |r| <= |xs|
    decreases |xs|
  {
    if |xs| == 0 then []
    else
      var n := |xs| - 1;
      Goes(b, xs[..n], side) + (if SideOf(b, xs[n]) == side then [xs[n]] else [])
  }

  /** The points of a run of drops. */
  function PointsOf(xs: seq<FallingBonus>): int
    decreases |xs|
  {
    if |xs| == 0 then 0 else PointsOf(xs[..|xs| - 1]) + Points(xs[|xs| - 1])
  }

  /** The power-ups of a run of drops, in order. */
  function PowersOf(xs: seq<FallingBonus>): seq<PowerUpType>
    decreases |xs|
  {
    if |xs| == 0 then []
    else
      var last := xs[|xs| - 1];
      PowersOf(xs[..|xs| - 1]) + (if last.kind.PowerUpBonus? then [last.kind.power] else [])
  }

  /** What a side takes from the landed drops. */
  datatype Haul = Haul(points: int, powers: seq<PowerUpType>)

  /** The haul of a run of drops. */
  function HaulOf(xs: seq<FallingBonus>): Haul {
    Haul(PointsOf(xs), PowersOf(xs))
  }

  /** A haul with one more drop taken. */
  function Take(h: Haul, x: FallingBonus): Haul {
    Haul(h.points + Points(x), h.powers + (if x.kind.PowerUpBonus? then [x.kind.power] else []))
  }

  /** The drops that stay landed and what each side collects. */
  datatype Collection = Collection(stays: seq<FallingBonus>, left: Haul, right: Haul)

  /** The result of collecting `xs`: the partition by destination. */
  ghost function CollectionOf(b: Board, xs: seq<FallingBonus>): Collection
    requires OnBoard(b, xs)
  {
    Collection(Goes(b, xs, Stays), HaulOf(Goes(b, xs, ToLeft)), HaulOf(Goes(b, xs, ToRight)))
  }

  /** Taking one more drop appends it to exactly the part its destination names. */
  lemma HaulSnoc(xs: seq<FallingBonus>, x: FallingBonus)
    ensures HaulOf(xs + [x]) == Take(HaulOf(xs), x)
  {
    assert (xs + [x])[..|xs|] == xs;
  }

  lemma CollectionSnoc(b: Board, xs: seq<FallingBonus>)
    requires OnBoard(b, xs) && |xs| > 0
    ensures var n := |xs| - 1; var c := CollectionOf(b, xs[..n]);
      CollectionOf(b, xs) == match SideOf(b, xs[n])
        case ToLeft => c.(left := Take(c.left, xs[n]))
        case ToRight => c.(right := Take(c.right, xs[n]))
        case Stays => c.(stays := c.stays + [xs[n]])
  {
    var n := |xs| - 1;
    var l, r, st := Goes(b, xs[..n], ToLeft), Goes(b, xs[..n], ToRight), Goes(b, xs[..n], Stays);
    match SideOf(b, xs[n]) {
      case ToLeft =>
        assert Goes(b, xs, ToLeft) == l + [xs[n]] && Goes(b, xs, ToRight) == r && Goes(b, xs, Stays) == st;
        HaulSnoc(l, xs[n]);
      case ToRight =>
        assert Goes(b, xs, ToLeft) == l && Goes(b, xs, ToRight) == r + [xs[n]] && Goes(b, xs, Stays) == st;
        HaulSnoc(r, xs[n]);
      case Stays =>
        assert Goes(b, xs, ToLeft) == l && Goes(b, xs, ToRight) == r && Goes(b, xs, Stays) == st + [xs[n]];
    }
  }

  /** Every landed drop goes to exactly one of the three destinations. */
  lemma {:induction false} GoesSplits(b: Board, xs: seq<FallingBonus>)
    requires OnBoard(b, xs)
    ensures multiset(Goes(b, xs, ToLeft)) + multiset(Goes(b, xs, ToRight)) + multiset(Goes(b, xs, Stays)) == multiset(xs)
    decreases |xs|
  {
    if |xs| == 0 {
      assert xs == [] && Goes(b, xs, ToLeft) == [] && Goes(b, xs, ToRight) == [] && Goes(b, xs, Stays) == [];
    } else {
      var n := |xs| - 1;
      var x := xs[n];
      GoesSplits(b, xs[..n]);
      var l, r, st := Goes(b, xs[..n], ToLeft), Goes(b, xs[..n], ToRight), Goes(b, xs[..n], Stays);
      var l', r', st' := Goes(b, xs, ToLeft), Goes(b, xs, ToRight), Goes(b, xs, Stays);
      assert (l' == l + [x] && r' == r && st' == st)
          || (l' == l && r' == r + [x] && st' == st)
          || (l' == l && r' == r && st' == st + [x]);
      assert multiset(l') + multiset(r') + multiset(st') == multiset(xs) by {
        Split3Last(xs, l, r, st, l', r', st');
      }
    }
  }

  /** The three-way form of `SplitLast`. */
  lemma Split3Last<E>(xs: seq<E>, a: seq<E>, b: seq<E>, c: seq<E>, a': seq<E>, b': seq<E>, c': seq<E>)
    requires |xs| > 0 && multiset(a) + multiset(b) + multiset(c) == multiset(xs[..|xs| - 1])
    requires var x := xs[|xs| - 1];
      (a' == a + [x] && b' == b && c' == c) || (a' == a && b' == b + [x] && c' == c)
      || (a' == a && b' == b && c' == c + [x])
    ensures multiset(a') + multiset(b') + multiset(c') == multiset(xs)
  {
    assert xs == xs[..|xs| - 1] + [xs[|xs| - 1]];
  }

  /**
   * Collecting neither creates nor loses points or power-ups: the two hauls
   * and the drops left lying add up to what was lying before.
   */
  lemma {:induction false} CollectKeepsTotals(b: Board, xs: seq<FallingBonus>)
    requires OnBoard(b, xs)
    ensures var c := CollectionOf(b, xs);
      c.left.points + c.right.points + PointsOf(c.stays) == PointsOf(xs)
      && |c.left.powers| + |c.right.powers| + |PowersOf(c.stays)| == |PowersOf(xs)|
    decreases |xs|
  {
    if |xs| == 0 {
      assert Goes(b, xs, ToLeft) == [] && Goes(b, xs, ToRight) == [] && Goes(b, xs, Stays) == [];
    } else {
      var n := |xs| - 1;
      CollectKeepsTotals(b, xs[..n]);
      CollectionSnoc(b, xs);
      HaulSnoc(xs[..n], xs[n]);
      assert xs[..n] + [xs[n]] == xs;
      HaulSnoc(Goes(b, xs[..n], Stays), xs[n]);
    }
  }

  /**
   * `collect_landed`: go through the landed drops in order; those on
   * `Left`/`Ok` cells add their points and power-ups to the left haul,
   * those on `Right` cells to the right haul, the rest stay landed.
   */
  method CollectLanded(s: BonusState, b: Board) returns (r: BonusState, c: Collection)
    requires OnBoard(b, s.landed)
    ensures r.falling == s.falling && r.landed == c.stays
    ensures c.stays == Goes(b, s.landed, Stays)
    ensures c.left == HaulOf(Goes(b, s.landed, ToLeft)) && c.right == HaulOf(Goes(b, s.landed, ToRight))
  {
    c := Collection([], Haul(0, []), Haul(0, []));
    var i := 0;
    while i < |s.landed|
      invariant i <= |s.landed| && OnBoard(b, s.landed[..i])
      invariant c == CollectionOf(b, s.landed[..i])
    {
      var bonus := s.landed[i];
      CollectionSnoc(b, s.landed[..i + 1]);
      assert s.landed[..i + 1][..i] == s.landed[..i];
      match MarkingAt(b, bonus.tileX, bonus.tileY) {
        case Left | Ok =>
          c := c.(left := Take(c.left, bonus));
        case Right =>
          c := c.(right := Take(c.right, bonus));
        case _ =>
          c := c.(stays := c.stays + [bonus]);
      }
      i := i + 1;
    }
    assert s.landed[..i] == s.landed;
    r := BonusState(s.falling, c.stays);
  }

  // ---------------------------------------------------------------------
  // all_bonuses, clear, is_empty
  // ---------------------------------------------------------------------

  /** All drops for drawing: the falling ones, then the landed ones. */
  function AllBonuses(s: BonusState): (r: seq<FallingBonus>)
    ensures |r| == |s.falling| + |s.landed|
    ensures multiset(r) == multiset(s.falling) + multiset(s.landed)
  {
    s.falling + s.landed
  }

  /** No drop falling or lying on the board. */
  predicate IsEmpty(s: BonusState) {
    |s.falling| == 0 && |s.landed| == 0
  }

  /** Drop everything. */
  function ClearBonuses(s: BonusState): (r: BonusState)
    ensures IsEmpty(r) && AllBonuses(r) == []
  {
    BonusState([], [])
  }

  /** There is nothing to draw exactly when there are no drops. */
  lemma IsEmptyMeansNothingToDraw(s: BonusState)
    ensures IsEmpty(s) <==> AllBonuses(s) == []
  {
    if AllBonuses(s) == [] {
      assert |AllBonuses(s)| == 0;
    }
  }
}
