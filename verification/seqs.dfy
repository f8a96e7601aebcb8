/** Facts about sequences the model leans on in several places. */
module Seqs {

  /** Concatenation is associative; the verifier proves it element by element, so it is stated once here. */
  lemma AppendAssoc<T>(a: seq<T>, b: seq<T>, c: seq<T>)
    ensures a + (b + c) == a + b + c
  {
  }

  /** What follows a prefix in a concatenation is the rest. */
  lemma DropAppend<T>(a: seq<T>, b: seq<T>)
    ensures (a + b)[|a|..] == b
  {
  }

  /** The lists f(0), ..., f(n - 1), one after another. */
  function Joined<T>(f: nat -> seq<T>, n: nat): seq<T> {
    if n == 0 then [] else Joined(f, n - 1) + f(n - 1)
  }

  /** An element of the joined lists is an element of one of them. */
  lemma {:induction false} JoinedHas<T>(f: nat -> seq<T>, n: nat, s: T)
    ensures s in Joined(f, n) <==> exists i: nat :: i < n && s in f(i)
  {
    if n > 0 {
      JoinedHas(f, n - 1, s);
      if s in Joined(f, n) && s !in Joined(f, n - 1) {
        assert s in f(n - 1);
      }
    }
  }
}
