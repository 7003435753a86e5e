/** Sequence helpers shared by the rules: the results of nested `each` loops are concatenations in loop order. */
module Seqs {

  /** The concatenation of `f(x)` over `xs`, in order: what a loop that appends `f(x)` for each `x` builds. */
  function FlatMap<T, U>(xs: seq<T>, f: T -> seq<U>): seq<U>
  {
    if xs == [] then [] else FlatMap(xs[..|xs| - 1], f) + f(xs[|xs| - 1])
  }

  /** One more iteration appends the contribution of the next element. */
  lemma FlatMapSnoc<T, U>(xs: seq<T>, x: T, f: T -> seq<U>)
    ensures FlatMap(xs + [x], f) == FlatMap(xs, f) + f(x)
  {
    assert (xs + [x])[..|xs|] == xs;
  }

  /** A loop over `xs` that has handled `xs[..j]` and now handles `xs[j]` has handled `xs[..j + 1]`. */
  lemma FlatMapStep<T, U>(xs: seq<T>, j: nat, f: T -> seq<U>)
    requires j < |xs|
    ensures FlatMap(xs[..j + 1], f) == FlatMap(xs[..j], f) + f(xs[j])
  {
    assert xs[..j + 1] == xs[..j] + [xs[j]];
    FlatMapSnoc(xs[..j], xs[j], f);
  }

  /** The same step for a loop that appends to a list it was given, `prefix`. */
  lemma FlatMapAppendStep<T, U>(prefix: seq<U>, xs: seq<T>, j: nat, f: T -> seq<U>)
    requires j < |xs|
    ensures prefix + FlatMap(xs[..j + 1], f) == (prefix + FlatMap(xs[..j], f)) + f(xs[j])
  {
    FlatMapStep(xs, j, f);
  }

  /** An element is in the concatenation exactly when it is contributed by some element of `xs`. */
  lemma {:induction false} InFlatMap<T, U>(xs: seq<T>, f: T -> seq<U>, u: U)
    ensures u in FlatMap(xs, f) <==> exists i :: 0 <= i < |xs| && u in f(xs[i])
    decreases |xs|
  {
    if xs != [] {
      var n := |xs| - 1;
      var init := xs[..n];
      InFlatMap(init, f, u);
      if u in FlatMap(init, f) {
        var i :| 0 <= i < |init| && u in f(init[i]);
        assert init[i] == xs[i];
      }
      if exists i :: 0 <= i < |xs| && u in f(xs[i]) {
        var i :| 0 <= i < |xs| && u in f(xs[i]);
        if i < n {
          assert init[i] == xs[i];
        }
      }
    }
  }

  /** The concatenation is empty exactly when every element contributes nothing. */
  lemma {:induction false} FlatMapEmpty<T, U>(xs: seq<T>, f: T -> seq<U>)
    ensures FlatMap(xs, f) == [] <==> forall i :: 0 <= i < |xs| ==> f(xs[i]) == []
    decreases |xs|
  {
    if xs != [] {
      var n := |xs| - 1;
      FlatMapEmpty(xs[..n], f);
      assert forall i :: 0 <= i < n ==> xs[..n][i] == xs[i];
    }
  }
}
