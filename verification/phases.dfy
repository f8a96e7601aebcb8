/**
 * The game's phases and the animation bookkeeping the phase machine waits on
 * (zapzap/src/state.rs, `GamePhase`; zapzap/src/systems/animation.rs). The
 * animations' timers and physics are floating point and are not modelled:
 * each frame says which animations finished.
 */
module Phases {
  import opened Zap

  /** `GamePhase`. `FallingBonuses` is kept for its discriminant; nothing enters it. */
  datatype Phase =
    | WaitingForInput
    | RotatingTile
    | FallingTiles
    | FreezeDuringZap
    | FreezeDuringBomb
    | GameOver
    | FallingBonuses

  /** The score at which a game against the bot ends. */
  const MAX_VS_SCORE: int := 100

  /** A tile turning on screen: `turns` quarter turns, by the player or the bot. */
  datatype RotateAnim = RotateAnim(x: nat, y: nat, turns: nat, byBot: bool)

  /** The running rotations and falls (`AnimationState` without its timers). */
  datatype Anims = Anims(rotations: seq<RotateAnim>, falls: seq<FallAnim>)

  const NO_ANIMS: Anims := Anims([], [])

  /** A deferred bomb or arrow: centre (tx, ty), reaching dx columns and dy rows each way. */
  datatype BombParams = BombParams(tx: nat, ty: nat, dx: nat, dy: nat)

  /**
   * `retain` over a frame: the animations that did not finish, in order.
   * `finished(i)` says whether animation i completed this frame.
   */
  function Unfinished<T>(xs: seq<T>, finished: nat -> bool): (r: seq<T>)
    ensures |r| <= |xs|
    decreases |xs|
  {
    if |xs| == 0 then []
    else
      var n := |xs| - 1;
      Unfinished(xs[..n], finished) + (if finished(n) then [] else [xs[n]])
  }

  /** Nothing is left running exactly when every animation finished this frame. */
  lemma {:induction false} UnfinishedEmpty<T>(xs: seq<T>, finished: nat -> bool)
    ensures Unfinished(xs, finished) == [] <==> forall i :: 0 <= i < |xs| ==> finished(i)
    decreases |xs|
  {
    if |xs| > 0 {
      var n := |xs| - 1;
      UnfinishedEmpty(xs[..n], finished);
      if Unfinished(xs, finished) == [] {
        assert Unfinished(xs[..n], finished) == [] && finished(n);
        forall i | 0 <= i < |xs| ensures finished(i) {
          if i < n {
            assert forall j :: 0 <= j < |xs[..n]| ==> finished(j);
          }
        }
      }
    }
  }

  /** The animations left running are among those that ran, each as often at most. */
  lemma {:induction false} UnfinishedIsSubset<T>(xs: seq<T>, finished: nat -> bool)
    ensures multiset(Unfinished(xs, finished)) <= multiset(xs)
    decreases |xs|
  {
    if |xs| > 0 {
      var n := |xs| - 1;
      UnfinishedIsSubset(xs[..n], finished);
      assert xs == xs[..n] + [xs[n]];
    }
  }
}
