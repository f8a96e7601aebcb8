/**
 * The seedable xorshift64 generator (zapzap/src/systems/board.rs, `Rng`).
 * The state is threaded explicitly: every draw returns the advanced generator.
 */
module Random {

  /** 2^64: u64 arithmetic wraps modulo this. */
  const U64: nat := 0x1_0000_0000_0000_0000

  /** A u64, held as a natural number below 2^64. */
  type Word = x: nat | x < U64

  /** The generator's state, a u64. */
  datatype Rng = Rng(state: Word)

  /** A state that is not zero; zero would be a fixed point of xorshift. */
  predicate ValidRng(r: Rng) {
    r.state != 0
  }

  /** Seed the generator, replacing the forbidden seed 0 by 1. */
  function NewRng(seed: Word): (r: Rng)
    ensures ValidRng(r)
    ensures seed != 0 ==> r.state == seed
  {
    Rng(if seed == 0 then 1 else seed)
  }

  /** 2^k. */
  function Pow2(k: nat): (r: nat)
    ensures r >= 1
  {
    if k == 0 then 1 else 2 * Pow2(k - 1)
  }

  /** Powers of two multiply by adding their exponents. */
  lemma {:induction false} Pow2Add(a: nat, b: nat)
    ensures Pow2(a + b) == Pow2(a) * Pow2(b)
  {
    if b > 0 {
      Pow2Add(a, b - 1);
    }
  }

  /** 2^64 is the modulus of u64 arithmetic. */
  lemma Pow2Word()
    ensures Pow2(64) == U64
  {
    assert Pow2(4) == 16;
    Pow2Add(4, 4);
    Pow2Add(8, 8);
    Pow2Add(16, 16);
    Pow2Add(32, 32);
  }

  /** The low n bits of y. */
  function Low(y: nat, n: nat): nat {
    if n == 0 then 0 else 2 * Low(y / 2, n - 1) + y % 2
  }

  /** Bitwise exclusive or of the low n bits of a and b. */
  function Xor(a: nat, b: nat, n: nat): nat {
    if n == 0 then 0 else 2 * Xor(a / 2, b / 2, n - 1) + (a + b) % 2
  }

  /** The low n bits of `x << k`. */
  function Shl(x: nat, k: nat, n: nat): nat {
    if n == 0 then 0 else if k == 0 then Low(x, n) else 2 * Shl(x, k - 1, n - 1)
  }

  /** `x >> k`: k halvings. */
  function Shr(x: nat, k: nat): nat {
    if k == 0 then x else Shr(x / 2, k - 1)
  }

  /**
   * One xorshift64 step with Marsaglia's shifts on a u64:
   * x ^= x << 13, x ^= x >> 7, x ^= x << 17.
   */
  function XorShift(x: nat): nat {
    var a := Xor(x, Shl(x, 13, 64), 64);
    var b := Xor(a, Shr(a, 7), 64);
    Xor(b, Shl(b, 17, 64), 64)
  }

  /** The low n bits are below 2^n. */
  lemma {:induction false} LowBelow(y: nat, n: nat)
    ensures Low(y, n) < Pow2(n)
  {
    if n > 0 {
      LowBelow(y / 2, n - 1);
    }
  }

  /** A word of n bits is its own low n bits. */
  lemma {:induction false} LowKeeps(y: nat, n: nat)
    requires y < Pow2(n)
    ensures Low(y, n) == y
  {
    if n > 0 {
      LowKeeps(y / 2, n - 1);
    }
  }

  /** An exclusive or of n bits is below 2^n. */
  lemma {:induction false} XorBelow(a: nat, b: nat, n: nat)
    ensures Xor(a, b, n) < Pow2(n)
  {
    if n > 0 {
      XorBelow(a / 2, b / 2, n - 1);
    }
  }

  /** On words of n bits, exclusive or is zero exactly on equal arguments. */
  lemma {:induction false} XorZero(a: nat, b: nat, n: nat)
    requires a < Pow2(n) && b < Pow2(n)
    ensures Xor(a, b, n) == 0 <==> a == b
  {
    if n > 0 {
      assert a / 2 < Pow2(n - 1) && b / 2 < Pow2(n - 1);
      XorZero(a / 2, b / 2, n - 1);
      assert a == b <==> a / 2 == b / 2 && a % 2 == b % 2;
    }
  }

  /** A left shift of n bits is below 2^n. */
  lemma {:induction false} ShlBelow(x: nat, k: nat, n: nat)
    ensures Shl(x, k, n) < Pow2(n)
  {
    if n > 0 {
      if k == 0 {
        LowBelow(x, n);
      } else {
        ShlBelow(x, k - 1, n - 1);
      }
    }
  }

  /** Shifting a doubled word by k is shifting the word by k + 1. */
  lemma {:induction false} ShlDouble(y: nat, k: nat, n: nat)
    ensures Shl(2 * y, k, n) == Shl(y, k + 1, n)
  {
    if n > 0 && k > 0 {
      ShlDouble(y, k - 1, n - 1);
    }
  }

  /** A left shift by k > 0 moves every non-zero word of n bits. */
  lemma {:induction false} ShlMoves(x: nat, k: nat, n: nat)
    requires 0 < x < Pow2(n) && 0 < k
    ensures Shl(x, k, n) != x
  {
    if x % 2 == 0 {
      var y := x / 2;
      ShlDouble(y, k - 1, n - 1);
      ShlMoves(y, k, n - 1);
    }
  }

  /** A right shift never grows a word. */
  lemma {:induction false} ShrAtMost(x: nat, k: nat)
    ensures Shr(x, k) <= x
  {
    if k > 0 {
      ShrAtMost(x / 2, k - 1);
    }
  }

  /** x ^= x << k keeps a non-zero u64 a non-zero u64, for k > 0. */
  lemma ShlStageNonZero(x: nat, k: nat)
    requires 0 < x < U64 && 0 < k
    ensures 0 < Xor(x, Shl(x, k, 64), 64) < U64
  {
    Pow2Word();
    ShlBelow(x, k, 64);
    ShlMoves(x, k, 64);
    XorZero(x, Shl(x, k, 64), 64);
    XorBelow(x, Shl(x, k, 64), 64);
  }

  /** x ^= x >> k keeps a non-zero u64 a non-zero u64, for k > 0. */
  lemma ShrStageNonZero(x: nat, k: nat)
    requires 0 < x < U64 && 0 < k
    ensures 0 < Xor(x, Shr(x, k), 64) < U64
  {
    Pow2Word();
    ShrAtMost(x / 2, k - 1);
    XorZero(x, Shr(x, k), 64);
    XorBelow(x, Shr(x, k), 64);
  }

  /** An xorshift step maps non-zero u64 states to non-zero u64 states. */
  lemma XorShiftNonZero(x: nat)
    requires 0 < x < U64
    ensures 0 < XorShift(x) < U64
  {
    ShlStageNonZero(x, 13);
    var a := Xor(x, Shl(x, 13, 64), 64);
    ShrStageNonZero(a, 7);
    var b := Xor(a, Shr(a, 7), 64);
    ShlStageNonZero(b, 17);
  }

  datatype Draw = Draw(value: nat, next: Rng)

  /** The next 64-bit output, as an unbounded integer. */
  function NextU64(r: Rng): (d: Draw)
    requires ValidRng(r)
    ensures ValidRng(d.next)
  {
    XorShiftNonZero(r.state);
    var x := XorShift(r.state);
    Draw(x, Rng(x))
  }

  /** A draw in [0, bound); the source takes a u32 bound and divides by it. */
  function NextInt(r: Rng, bound: nat): (d: Draw)
    requires ValidRng(r)
    requires 0 < bound < 0x1_0000_0000
    ensures d.value < bound
    ensures ValidRng(d.next)
  {
    var u := NextU64(r);
    Draw(u.value % bound, u.next)
  }

  /** The values of `n` successive draws below `bound`, in order, and the generator after them. */
  ghost function Draws(rng: Rng, bound: nat, n: nat): (r: (seq<nat>, Rng))
    requires ValidRng(rng) && 0 < bound < 0x1_0000_0000
    ensures ValidRng(r.1) && |r.0| == n
    ensures forall i :: 0 <= i < n ==> r.0[i] < bound
  {
    if n == 0 then ([], rng)
    else
      var prev := Draws(rng, bound, n - 1);
      var d := NextInt(prev.1, bound);
      (prev.0 + [d.value], d.next)
  }

  /** a + b draws are a draws, then b more from where those left the generator. */
  lemma {:induction false} DrawsThen(rng: Rng, bound: nat, a: nat, b: nat)
    requires ValidRng(rng) && 0 < bound < 0x1_0000_0000
    ensures Draws(rng, bound, a + b).0 == Draws(rng, bound, a).0 + Draws(Draws(rng, bound, a).1, bound, b).0
    ensures Draws(rng, bound, a + b).1 == Draws(Draws(rng, bound, a).1, bound, b).1
  {
    if b > 0 {
      DrawsThen(rng, bound, a, b - 1);
      var mid := Draws(rng, bound, a).1;
      assert Draws(rng, bound, a).0 + Draws(mid, bound, b - 1).0 + [NextInt(Draws(mid, bound, b - 1).1, bound).value]
          == Draws(rng, bound, a).0 + Draws(mid, bound, b).0;
    }
  }

  /** The generator after a + b draws is the generator after a draws, then b more. */
  lemma DrawsNextThen(rng: Rng, bound: nat, a: nat, b: nat)
    requires ValidRng(rng) && 0 < bound < 0x1_0000_0000
    ensures Draws(rng, bound, a + b).1 == Draws(Draws(rng, bound, a).1, bound, b).1
  {
    DrawsThen(rng, bound, a, b);
  }
}
