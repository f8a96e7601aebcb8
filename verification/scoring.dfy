/**
 * Scoring as the game state does it (zapzap/src/state.rs): each edge pin
 * that ends up connected earns its row's multiplier and raises it, and the
 * drops lying on marked cells are collected for points and power-ups.
 */
module Scoring {
  import opened Components
  import opened Grid
  import opened GameBoard
  import opened Bonus

  /** A "+N" popup for the host: its value and which side earned it. */
  datatype Popup = Popup(value: int, right: bool)

  datatype Scores = Scores(left: int, right: int)

  /** The pin of row y in column x scores: its cell is `Ok` and its tile leads off the board towards `d`. */
  predicate PinScores(b: Board, x: nat, y: nat, d: Direction)
    requires Valid(b) && x < b.width && y < b.height
  {
    Mark(b, x, y) == Ok && At(b.grid, x, y).Some? && HasConnection(At(b.grid, x, y).value, d)
  }

  predicate LeftScores(b: Board, y: nat)
    requires Valid(b) && 0 < b.width && y < b.height
  {
    PinScores(b, 0, y, LEFT)
  }

  predicate RightScores(b: Board, y: nat)
    requires Valid(b) && 0 < b.width && y < b.height
  {
    PinScores(b, b.width - 1, y, RIGHT)
  }

  /** What the scoring left pins of the rows above n earn: each its row's multiplier. */
  function LeftGain(b: Board, n: nat): int
    requires Valid(b) && 0 < b.width && n <= b.height
  {
    if n == 0 then 0 else LeftGain(b, n - 1) + (if LeftScores(b, n - 1) then b.multLeft[n - 1] else 0)
  }

  /** What the scoring right pins of the rows above n earn. */
  function RightGain(b: Board, n: nat): int
    requires Valid(b) && 0 < b.width && n <= b.height
  {
    if n == 0 then 0 else RightGain(b, n - 1) + (if RightScores(b, n - 1) then b.multRight[n - 1] else 0)
  }

  /** The popups of the rows above n, row by row, the left pin's before the right pin's. */
  function PinPopups(b: Board, n: nat): seq<Popup>
    requires Valid(b) && 0 < b.width && n <= b.height
  {
    if n == 0 then []
    else
      var y := n - 1;
      PinPopups(b, y)
      + (if LeftScores(b, y) then [Popup(b.multLeft[y], false)] else [])
      + (if RightScores(b, y) then [Popup(b.multRight[y], true)] else [])
  }

  /** Every multiplier is at least 1. */
  ghost predicate MultipliersPositive(b: Board) {
    (forall y :: 0 <= y < |b.multLeft| ==> b.multLeft[y] >= 1)
    && (forall y :: 0 <= y < |b.multRight| ==> b.multRight[y] >= 1)
  }

  /** Credit `pts` earned by one side: both scores in Zen mode, that side's alone against the bot. */
  function Award(s: Scores, mode: GameMode, pts: int, right: bool): Scores {
    match mode
    case Zen => Scores(s.left + pts, s.right + pts)
    case VsBot => if right then s.(right := s.right + pts) else s.(left := s.left + pts)
  }

  /** The left multipliers once the pins of the rows above n have scored. */
  ghost function RaisedLeft(b: Board, n: nat): (r: seq<int>)
    requires Valid(b) && 0 < b.width && n <= b.height
    ensures |r| == b.height
  {
    seq(b.height, k requires 0 <= k < b.height => b.multLeft[k] + (if k < n && LeftScores(b, k) then 1 else 0))
  }

  /** The right multipliers once the pins of the rows above n have scored. */
  ghost function RaisedRight(b: Board, n: nat): (r: seq<int>)
    requires Valid(b) && 0 < b.width && n <= b.height
    ensures |r| == b.height
  {
    seq(b.height, k requires 0 <= k < b.height => b.multRight[k] + (if k < n && RightScores(b, k) then 1 else 0))
  }

  /** The scores once the pins of the rows above n have scored. */
  ghost function ScoredUpTo(b: Board, mode: GameMode, s: Scores, n: nat): Scores
    requires Valid(b) && 0 < b.width && n <= b.height
  {
    match mode
    case Zen => Scores(s.left + LeftGain(b, n) + RightGain(b, n), s.right + LeftGain(b, n) + RightGain(b, n))
    case VsBot => Scores(s.left + LeftGain(b, n), s.right + RightGain(b, n))
  }

  /** One row of `apply_multiplier_scores`: the left pin, then the right pin. */
  method ScoreRow(b: Board, mode: GameMode, y: nat, ml: seq<int>, mr: seq<int>, s0: Scores, s: Scores, popups: seq<Popup>)
    returns (ml': seq<int>, mr': seq<int>, s': Scores, popups': seq<Popup>)
    requires Valid(b) && 0 < b.width && y < b.height
    requires ml == RaisedLeft(b, y) && mr == RaisedRight(b, y)
    requires s == ScoredUpTo(b, mode, s0, y) && popups == PinPopups(b, y)
    ensures ml' == RaisedLeft(b, y + 1) && mr' == RaisedRight(b, y + 1)
    ensures s' == ScoredUpTo(b, mode, s0, y + 1) && popups' == PinPopups(b, y + 1)
  {
    ml', mr', s', popups' := ml, mr, s, popups;
    if LeftScores(b, y) {
      var mult := ml[y];
      s' := Award(s', mode, mult, false);
      popups' := popups' + [Popup(mult, false)];
      ml' := ml'[y := mult + 1];
    }
    if RightScores(b, y) {
      var mult := mr[y];
      s' := Award(s', mode, mult, true);
      popups' := popups' + [Popup(mult, true)];
      mr' := mr'[y := mult + 1];
    }
  }

  /**
   * `apply_multiplier_scores`: row by row, a scoring left pin credits its
   * multiplier and then raises it by one, then the same for the right pin.
   * In Zen mode both scores rise by everything earned; against the bot
   * each side keeps its own.
   */
  method ApplyMultiplierScores(b: Board, mode: GameMode, s: Scores) returns (b': Board, s': Scores, popups: seq<Popup>)
    requires Valid(b) && 0 < b.width
    ensures Valid(b') && b' == b.(multLeft := b'.multLeft, multRight := b'.multRight)
    ensures forall y :: 0 <= y < b.height ==>
      b'.multLeft[y] == b.multLeft[y] + (if LeftScores(b, y) then 1 else 0)
      && b'.multRight[y] == b.multRight[y] + (if RightScores(b, y) then 1 else 0)
    ensures mode == Zen ==>
      s'.left == s.left + LeftGain(b, b.height) + RightGain(b, b.height)
      && s'.right == s.right + LeftGain(b, b.height) + RightGain(b, b.height)
    ensures mode == VsBot ==> s' == Scores(s.left + LeftGain(b, b.height), s.right + RightGain(b, b.height))
    ensures popups == PinPopups(b, b.height)
  {
    var ml, mr := b.multLeft, b.multRight;
    assert ml == RaisedLeft(b, 0) && mr == RaisedRight(b, 0);
    s', popups := s, [];
    var y := 0;
    while y < b.height
      invariant y <= b.height
      invariant ml == RaisedLeft(b, y) && mr == RaisedRight(b, y)
      invariant s' == ScoredUpTo(b, mode, s, y) && popups == PinPopups(b, y)
    {
      ml, mr, s', popups := ScoreRow(b, mode, y, ml, mr, s, s', popups);
      y := y + 1;
    }
    b' := b.(multLeft := ml, multRight := mr);
  }

  /** With positive multipliers a pin never costs points, and nothing earns more than its multipliers add up to. */
  lemma {:induction false} GainBounds(b: Board, n: nat, top: int)
    requires Valid(b) && 0 < b.width && n <= b.height && MultipliersPositive(b)
    requires forall y :: 0 <= y < n ==> b.multLeft[y] <= top && b.multRight[y] <= top
    ensures 0 <= LeftGain(b, n) <= n * top && 0 <= RightGain(b, n) <= n * top
  {
    if n > 0 {
      GainBounds(b, n - 1, top);
      assert 0 < b.multLeft[n - 1] <= top && 0 < b.multRight[n - 1] <= top;
      assert n * top == (n - 1) * top + top;
      assert LeftGain(b, n) <= (n - 1) * top + top;
      assert RightGain(b, n) <= (n - 1) * top + top;
    }
  }

  // ---------------------------------------------------------------------
  // collect_landed_bonuses
  // ---------------------------------------------------------------------

  /** `inv` after being handed `powers`: each one becomes held; the armed slot is untouched. */
  function Grant(inv: Inventory, powers: seq<PowerUpType>): (r: Inventory)
    ensures r.armed == inv.armed
    ensures forall p :: Has(r, p) <==> Has(inv, p) || p in powers
    ensures ArmedIsHeld(inv) ==> ArmedIsHeld(r)
    decreases |powers|
  {
    if |powers| == 0 then inv
    else
      var n := |powers| - 1;
      assert powers == powers[..n] + [powers[n]];
      SetHas(Grant(inv, powers[..n]), powers[n], true)
  }

  /** The popups for the landed drops `xs` that a side collects: one per coin, in order. */
  function CoinPopups(b: Board, xs: seq<FallingBonus>): seq<Popup>
    requires OnBoard(b, xs)
    decreases |xs|
  {
    if |xs| == 0 then []
    else
      var n := |xs| - 1;
      var x := xs[n];
      CoinPopups(b, xs[..n]) + (if SideOf(b, x) != Stays && Points(x) > 0 then [Popup(Points(x), SideOf(b, x) == ToRight)] else [])
  }

  datatype Collected = Collected(
    bonuses: BonusState,
    scores: Scores,
    powerLeft: Inventory,
    powerRight: Inventory,
    sounds: seq<SoundEvent>,
    popups: seq<Popup>)

  /** The sounds of a collection: a coin drop when any points were won, then one power-up sound per power-up. */
  function CollectSounds(c: Collection): seq<SoundEvent> {
    (if c.left.points > 0 || c.right.points > 0 then [CoinDropSound] else [])
    + seq(|c.left.powers| + |c.right.powers|, _ => PowerUpSound)
  }

  /** The loop of `collect_landed_bonuses` over the landed drops, in order. */
  method Partition(b: Board, landed: seq<FallingBonus>) returns (c: Collection, popups: seq<Popup>)
    requires OnBoard(b, landed)
    ensures c == CollectionOf(b, landed) && popups == CoinPopups(b, landed)
  {
    c := Collection([], Haul(0, []), Haul(0, []));
    popups := [];
    var i := 0;
    while i < |landed|
      invariant i <= |landed| && OnBoard(b, landed[..i])
      invariant c == CollectionOf(b, landed[..i])
      invariant popups == CoinPopups(b, landed[..i])
    {
      assert landed[..i + 1][..i] == landed[..i];
      OnBoardPrefix(b, landed, i + 1);
      c, popups := PartitionStep(b, landed[..i + 1], c, popups);
      i := i + 1;
    }
    assert landed[..i] == landed;
  }

  lemma OnBoardPrefix(b: Board, xs: seq<FallingBonus>, n: nat)
    requires OnBoard(b, xs) && n <= |xs|
    ensures OnBoard(b, xs[..n])
  {
    forall i | 0 <= i < n ensures Idx(b.height, xs[..n][i].tileX, xs[..n][i].tileY) < |b.markings| {
      assert xs[..n][i] == xs[i];
    }
  }

  /** One turn of the loop: the last drop of `xs` goes to its side, with a popup when it is a collected coin. */
  method PartitionStep(b: Board, xs: seq<FallingBonus>, c: Collection, popups: seq<Popup>) returns (c': Collection, popups': seq<Popup>)
    requires OnBoard(b, xs) && |xs| > 0
    requires c == CollectionOf(b, xs[..|xs| - 1]) && popups == CoinPopups(b, xs[..|xs| - 1])
    ensures c' == CollectionOf(b, xs) && popups' == CoinPopups(b, xs)
  {
    var bonus := xs[|xs| - 1];
    CollectionSnoc(b, xs);
    var pts := Points(bonus);
    popups' := popups;
    match MarkingAt(b, bonus.tileX, bonus.tileY) {
      case Left | Ok =>
        c' := c.(left := Take(c.left, bonus));
        if pts > 0 {
          popups' := popups + [Popup(pts, false)];
        }
      case Right =>
        c' := c.(right := Take(c.right, bonus));
        if pts > 0 {
          popups' := popups + [Popup(pts, true)];
        }
      case _ =>
        c' := c.(stays := c.stays + [bonus]);
    }
  }

  /** Hand each power-up to `inv`, one power-up sound each. */
  method GrantEach(inv: Inventory, powers: seq<PowerUpType>, sounds: seq<SoundEvent>) returns (inv': Inventory, sounds': seq<SoundEvent>)
    ensures inv' == Grant(inv, powers) && sounds' == sounds + seq(|powers|, _ => PowerUpSound)
  {
    inv', sounds' := inv, sounds;
    var k := 0;
    while k < |powers|
      invariant k <= |powers| && inv' == Grant(inv, powers[..k]) && sounds' == sounds + seq(k, _ => PowerUpSound)
    {
      assert powers[..k + 1][..k] == powers[..k];
      inv' := SetHas(inv', powers[k], true);
      sounds' := sounds' + [PowerUpSound];
      k := k + 1;
    }
    assert powers[..k] == powers;
  }

  /**
   * `collect_landed_bonuses`: the drops on `Left` or `Ok` cells go to the
   * left player, those on `Right` cells to the right player, the rest stay
   * landed. Points are credited as in multiplier scoring (both scores in
   * Zen mode); each collected power-up becomes held by its side.
   */
  method CollectLandedBonuses(b: Board, bonuses: BonusState, mode: GameMode, s: Scores, left: Inventory, right: Inventory)
    returns (r: Collected)
    requires OnBoard(b, bonuses.landed)
    ensures var c := CollectionOf(b, bonuses.landed);
      && r.bonuses == BonusState(bonuses.falling, c.stays)
      && (mode == Zen ==> r.scores == Scores(s.left + c.left.points + c.right.points, s.right + c.left.points + c.right.points))
      && (mode == VsBot ==> r.scores == Scores(s.left + c.left.points, s.right + c.right.points))
      && r.powerLeft == Grant(left, c.left.powers) && r.powerRight == Grant(right, c.right.powers)
      && r.sounds == CollectSounds(c)
      && r.popups == CoinPopups(b, bonuses.landed)
  {
    if |bonuses.landed| == 0 {
      r := Collected(bonuses, s, left, right, [], []);
      assert CollectionOf(b, bonuses.landed) == Collection([], Haul(0, []), Haul(0, []));
      return;
    }
    var c, popups := Partition(b, bonuses.landed);
    CollectedPointsNonNegative(b, bonuses.landed);
    var scores, powerLeft, powerRight, sounds := HandOut(c, mode, s, left, right);
    r := Collected(BonusState(bonuses.falling, c.stays), scores, powerLeft, powerRight, sounds, popups);
  }

  /** What a collection hands out: its points to the scores, its power-ups to the inventories, and their sounds. */
  method HandOut(c: Collection, mode: GameMode, s: Scores, left: Inventory, right: Inventory)
    returns (scores: Scores, powerLeft: Inventory, powerRight: Inventory, sounds: seq<SoundEvent>)
    requires c.left.points >= 0 && c.right.points >= 0
    ensures mode == Zen ==> scores == Scores(s.left + c.left.points + c.right.points, s.right + c.left.points + c.right.points)
    ensures mode == VsBot ==> scores == Scores(s.left + c.left.points, s.right + c.right.points)
    ensures powerLeft == Grant(left, c.left.powers) && powerRight == Grant(right, c.right.powers)
    ensures sounds == CollectSounds(c)
  {
    var coin;
    scores, coin := CreditPoints(c, mode, s);
    powerLeft, sounds := GrantEach(left, c.left.powers, coin);
    powerRight, sounds := GrantEach(right, c.right.powers, sounds);
    PowerSoundsJoin(coin, |c.left.powers|, |c.right.powers|);
  }

  /** The points of a collection: both scores in Zen mode, each side its own against the bot; a coin drop when any were won. */
  method CreditPoints(c: Collection, mode: GameMode, s: Scores) returns (scores: Scores, sounds: seq<SoundEvent>)
    requires c.left.points >= 0 && c.right.points >= 0
    ensures mode == Zen ==> scores == Scores(s.left + c.left.points + c.right.points, s.right + c.left.points + c.right.points)
    ensures mode == VsBot ==> scores == Scores(s.left + c.left.points, s.right + c.right.points)
    ensures sounds == if c.left.points > 0 || c.right.points > 0 then [CoinDropSound] else []
  {
    scores, sounds := s, [];
    if c.left.points > 0 || c.right.points > 0 {
      match mode {
        case Zen =>
          var total := c.left.points + c.right.points;
          scores := Scores(s.left + total, s.right + total);
        case VsBot =>
          scores := Scores(s.left + c.left.points, s.right + c.right.points);
      }
      sounds := [CoinDropSound];
    }
  }

  /** Two runs of power-up sounds make one run as long as both. */
  lemma PowerSoundsJoin(pre: seq<SoundEvent>, m: nat, n: nat)
    ensures pre + seq(m, _ => PowerUpSound) + seq(n, _ => PowerUpSound) == pre + seq(m + n, _ => PowerUpSound)
  {
  }

  /** A run of drops is never worth less than nothing. */
  lemma {:induction false} PointsOfNonNegative(xs: seq<FallingBonus>)
    ensures PointsOf(xs) >= 0
    decreases |xs|
  {
    if |xs| > 0 {
      PointsOfNonNegative(xs[..|xs| - 1]);
    }
  }

  /** Neither side's haul is ever negative, so a collection without points credits nothing. */
  lemma CollectedPointsNonNegative(b: Board, xs: seq<FallingBonus>)
    requires OnBoard(b, xs)
    ensures CollectionOf(b, xs).left.points >= 0 && CollectionOf(b, xs).right.points >= 0
  {
    PointsOfNonNegative(Goes(b, xs, ToLeft));
    PointsOfNonNegative(Goes(b, xs, ToRight));
  }

  /** Collecting never lowers a score, and in Zen mode both scores rise by the same amount. */
  lemma CollectionRaisesScores(b: Board, xs: seq<FallingBonus>, mode: GameMode, s: Scores, s': Scores)
    requires OnBoard(b, xs)
    requires var c := CollectionOf(b, xs);
      (mode == Zen ==> s' == Scores(s.left + c.left.points + c.right.points, s.right + c.left.points + c.right.points))
      && (mode == VsBot ==> s' == Scores(s.left + c.left.points, s.right + c.right.points))
    ensures s'.left >= s.left && s'.right >= s.right
    ensures mode == Zen ==> s'.left - s.left == s'.right - s.right
  {
    CollectedPointsNonNegative(b, xs);
  }
}
