/** Permutations, one element at a time. */
module Sequences {
  /** `xs` without its last element `x`, and `ys` without the `x` at place `i`, have the same
      elements if `xs` and `ys` do. */
  lemma Remainders<T>(xs: seq<T>, x: T, ys: seq<T>, i: nat)
    requires multiset(xs + [x]) == multiset(ys) && i < |ys| && ys[i] == x
    ensures multiset(xs) == multiset(ys[..i] + ys[i + 1..])
  {
    assert ys == ys[..i] + [x] + ys[i + 1..];
    calc {
      multiset(xs);
      multiset(xs + [x]) - multiset{x};
      multiset(ys[..i] + [x] + ys[i + 1..]) - multiset{x};
      multiset(ys[..i] + ys[i + 1..]);
    }
  }
}
