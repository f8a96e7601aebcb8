/**
 * Shared enumerations and the per-side power-up inventory
 * (zapzap/src/components.rs).
 */
module Components {

  /** Rust's `Option`: a cell that may hold no tile, a tap or bomb that may not be pending. */
  datatype Option<T> = None | Some(value: T)

  /** A connection direction: one bit of a tile's 4-bit connection mask. */
  datatype Direction = Direction(bits: bv8)

  const RIGHT: Direction := Direction(1)
  const UP: Direction := Direction(2)
  const LEFT: Direction := Direction(4)
  const DOWN: Direction := Direction(8)

  /** The four named directions. */
  predicate IsCardinal(d: Direction) {
    d == RIGHT || d == UP || d == LEFT || d == DOWN
  }

  /** The side a connection in direction `d` meets on the neighbouring tile. */
  function Opposite(d: Direction): (r: Direction)
    ensures IsCardinal(d) ==> IsCardinal(r) && r != d
    ensures !IsCardinal(d) ==> r.bits == 0
  {
    if d == RIGHT then LEFT
    else if d == LEFT then RIGHT
    else if d == UP then DOWN
    else if d == DOWN then UP
    else Direction(0)
  }

  /** The direction constants are four distinct single bits. */
  lemma DirectionsAreDistinctBits()
    ensures RIGHT.bits == 1 && UP.bits == 2 && LEFT.bits == 4 && DOWN.bits == 8
    ensures forall d :: IsCardinal(d) ==> d.bits & (d.bits - 1) == 0 && d.bits != 0
    ensures forall d, e :: IsCardinal(d) && IsCardinal(e) && d != e ==> d.bits & e.bits == 0
  {
  }

  /** `opposite` is an involution on the four directions. */
  lemma OppositeInvolution(d: Direction)
    requires IsCardinal(d)
    ensures Opposite(Opposite(d)) == d
  {
  }

  /**
   * Per-cell result of the connectivity check. The source calls the neutral
   * value `None`; it is `Unmarked` here so that it cannot be confused with
   * `Option.None`.
   */
  datatype Marking = Left | Right | Ok | Unmarked | Animating

  datatype GameMode = Zen | VsBot

  /** Abstract sound identifiers emitted for the host. */
  datatype SoundEvent =
    | RotateSound | ExplodeSound | BombSound | CoinDropSound
    | PowerUpSound | BopSound | BuzzSound | NopeSound

  const DEFAULT_WIDTH: nat := 12
  const DEFAULT_HEIGHT: nat := 10
  const DEFAULT_MISSING_LINKS: nat := 3

  /** The atlas column drawing each connection mask (`GRID_CODEP`). */
  const GRID_CODEP: seq<nat> := [0, 12, 15, 5, 14, 1, 4, 7, 13, 6, 2, 8, 3, 9, 10, 11]

  /** The inverse table: the mask drawn by each atlas column. */
  const CODEP_MASK: seq<nat> := [0, 5, 10, 12, 6, 3, 9, 7, 11, 13, 14, 15, 1, 8, 4, 2]

  const ATLAS_COL_LEFT_PIN: nat := 12
  const ATLAS_COL_RIGHT_PIN: nat := 14

  /** Every mask has its own atlas column and every column draws one mask: the table is a permutation of 0..15. */
  lemma CodepIsPermutation()
    ensures |GRID_CODEP| == 16 && |CODEP_MASK| == 16
    ensures forall k :: 0 <= k < 16 ==> GRID_CODEP[k] < 16 && CODEP_MASK[GRID_CODEP[k]] == k
    ensures forall c :: 0 <= c < 16 ==> CODEP_MASK[c] < 16 && GRID_CODEP[CODEP_MASK[c]] == c
    ensures forall i, j :: 0 <= i < j < 16 ==> GRID_CODEP[i] != GRID_CODEP[j]
  {
    forall i, j | 0 <= i < j < 16 ensures GRID_CODEP[i] != GRID_CODEP[j] {
      assert CODEP_MASK[GRID_CODEP[i]] == i;
      assert CODEP_MASK[GRID_CODEP[j]] == j;
    }
  }

  datatype BonusType = Coin1 | Coin2 | Coin5

  /** Points a coin is worth. */
  function CoinPoints(c: BonusType): (p: int)
    ensures p > 0
    ensures c == Coin1 ==> p == 1
    ensures c == Coin2 ==> p == 2
    ensures c == Coin5 ==> p == 5
  {
    match c
    case Coin1 => 1
    case Coin2 => 2
    case Coin5 => 5
  }

  datatype PowerUpType = Bomb | Cross | Arrow

  /** The denominator of a power-up's drop chance (Bomb 1/5, Cross 1/3, Arrow 1/8). */
  function DropFreq(p: PowerUpType): (f: nat)
    ensures f > 0
    ensures p == Bomb ==> f == 5
    ensures p == Cross ==> f == 3
    ensures p == Arrow ==> f == 8
  {
    match p
    case Bomb => 5
    case Cross => 3
    case Arrow => 8
  }

  /** Power-ups held by one player side and the one currently armed, if any. */
  datatype Inventory = Inventory(hasBomb: bool, hasCross: bool, hasArrow: bool, armed: Option<PowerUpType>)

  const EMPTY_INVENTORY: Inventory := Inventory(false, false, false, None)

  function Has(inv: Inventory, p: PowerUpType): bool {
    match p
    case Bomb => inv.hasBomb
    case Cross => inv.hasCross
    case Arrow => inv.hasArrow
  }

  /** `inv` with the held flag for `p` replaced by `v`. */
  function SetHas(inv: Inventory, p: PowerUpType, v: bool): (r: Inventory)
    ensures Has(r, p) == v && r.armed == inv.armed
    ensures forall q :: q != p ==> Has(r, q) == Has(inv, q)
  {
    match p
    case Bomb => inv.(hasBomb := v)
    case Cross => inv.(hasCross := v)
    case Arrow => inv.(hasArrow := v)
  }

  /** A type can only be armed while it is held. */
  predicate ArmedIsHeld(inv: Inventory) {
    inv.armed.Some? ==> Has(inv, inv.armed.value)
  }

  datatype ToggleResult = ToggleResult(inv: Inventory, armedNow: bool)

  /**
   * Toggle arming `p`: an unheld type reports false and changes nothing,
   * the armed type is disarmed (false), any other held type becomes the
   * armed one (true).
   */
  function ToggleArm(inv: Inventory, p: PowerUpType): (r: ToggleResult)
    ensures !Has(inv, p) ==> r.inv == inv && !r.armedNow
    ensures Has(inv, p) && inv.armed == Some(p) ==> r.inv == inv.(armed := None) && !r.armedNow
    ensures Has(inv, p) && inv.armed != Some(p) ==> r.inv == inv.(armed := Some(p)) && r.armedNow
    ensures r.armedNow <==> r.inv.armed == Some(p) && inv.armed != Some(p)
    ensures ArmedIsHeld(inv) ==> ArmedIsHeld(r.inv)
  {
    if !Has(inv, p) then ToggleResult(inv, false)
    else if inv.armed == Some(p) then ToggleResult(inv.(armed := None), false)
    else ToggleResult(inv.(armed := Some(p)), true)
  }

  datatype ConsumeResult = ConsumeResult(inv: Inventory, used: Option<PowerUpType>)

  /**
   * Take the armed power-up: it is returned, the slot is emptied and the
   * type is no longer held. With nothing armed nothing changes.
   */
  function ConsumeArmed(inv: Inventory): (r: ConsumeResult)
    ensures inv.armed.None? ==> r.inv == inv && r.used.None?
    ensures inv.armed.Some? ==>
      && r.used == inv.armed
      && r.inv.armed.None?
      && !Has(r.inv, inv.armed.value)
      && forall q :: q != inv.armed.value ==> Has(r.inv, q) == Has(inv, q)
    ensures ArmedIsHeld(r.inv)
  {
    match inv.armed
    case None => ConsumeResult(inv, None)
    case Some(p) => ConsumeResult(SetHas(inv, p, false).(armed := None), Some(p))
  }
}
