/** Left folds of a fallible step over a sequence, and the flattening of a
    sequence of sequences. A step that fails aborts the whole fold, the way a
    panic ends the program that performs it. */
module Folds {
  import opened Wrappers

  /** Applies `step` to each element in order, stopping at the first failure. */
  function Fold<S, X, E>(init: S, step: (S, X) -> Result<S, E>, xs: seq<X>): Result<S, E>
    decreases |xs|
  {
    if xs == [] then Ok(init)
    else
      match Fold(init, step, xs[..|xs| - 1])
      case Err(e) => Err(e)
      case Ok(s) => step(s, xs[|xs| - 1])
  }

  /** One more element is one more step. */
  lemma FoldSnoc<S, X, E>(init: S, step: (S, X) -> Result<S, E>, xs: seq<X>, x: X)
    ensures Fold(init, step, xs + [x])
         == match Fold(init, step, xs) { case Err(e) => Err(e) case Ok(s) => step(s, x) }
  {
    assert (xs + [x])[..|xs|] == xs;
  }

  /** Once the fold has failed, later elements are never looked at. */
  lemma {:induction false} FoldFailureSticks<S, X, E>(init: S, step: (S, X) -> Result<S, E>, xs: seq<X>, ys: seq<X>)
    requires Fold(init, step, xs).Err?
    ensures Fold(init, step, xs + ys) == Fold(init, step, xs)
    decreases |ys|
  {
    if ys == [] {
      assert xs + ys == xs;
    } else {
      var zs := ys[..|ys| - 1];
      FoldFailureSticks(init, step, xs, zs);
      assert xs + ys == (xs + zs) + [ys[|ys| - 1]];
      FoldSnoc(init, step, xs + zs, ys[|ys| - 1]);
    }
  }

  /** A fold that succeeds succeeded on every prefix. */
  lemma {:induction false} FoldPrefixSucceeds<S, X, E>(init: S, step: (S, X) -> Result<S, E>, xs: seq<X>, n: nat)
    requires n <= |xs|
    requires Fold(init, step, xs).Ok?
    ensures Fold(init, step, xs[..n]).Ok?
  {
    FoldErrPropagates(init, step, xs[..n], xs[n..]);
    assert xs[..n] + xs[n..] == xs;
  }

  lemma FoldErrPropagates<S, X, E>(init: S, step: (S, X) -> Result<S, E>, xs: seq<X>, ys: seq<X>)
    ensures Fold(init, step, xs).Err? ==> Fold(init, step, xs + ys).Err?
  {
    if Fold(init, step, xs).Err? {
      FoldFailureSticks(init, step, xs, ys);
    }
  }

  /** The concatenation of a sequence of sequences. */
  function Flatten<X>(xss: seq<seq<X>>): seq<X>
    decreases |xss|
  {
    if xss == [] then [] else Flatten(xss[..|xss| - 1]) + xss[|xss| - 1]
  }

  lemma {:induction false} FlattenAppend<X>(a: seq<seq<X>>, b: seq<seq<X>>)
    ensures Flatten(a + b) == Flatten(a) + Flatten(b)
    decreases |b|
  {
    if b == [] {
      assert a + b == a;
    } else {
      var c, z := b[..|b| - 1], b[|b| - 1];
      FlattenAppend(a, c);
      assert (a + b)[..|a + b| - 1] == a + c;
      assert (a + b)[|a + b| - 1] == z;
      calc {
        Flatten(a + b);
        Flatten(a + c) + z;
        (Flatten(a) + Flatten(c)) + z;
        Flatten(a) + (Flatten(c) + z);
        Flatten(a) + Flatten(b);
      }
    }
  }

  /** Inside a nested iteration at outer index `i` and inner index `j`, the
      elements visited so far followed by the unvisited ones are all of them. */
  lemma FlattenSplit<X>(xss: seq<seq<X>>, i: nat, j: nat)
    requires i < |xss| && j <= |xss[i]|
    ensures Flatten(xss) == Flatten(xss[..i]) + xss[i][..j] + (xss[i][j..] + Flatten(xss[i + 1..]))
  {
    assert xss == xss[..i] + [xss[i]] + xss[i + 1..];
    FlattenAppend(xss[..i] + [xss[i]], xss[i + 1..]);
    FlattenAppend(xss[..i], [xss[i]]);
    assert Flatten([xss[i]]) == xss[i] by {
      assert [xss[i]][..0] == [];
    }
    assert xss[i] == xss[i][..j] + xss[i][j..];
  }

  /** Stepping the outer index of a nested iteration. */
  lemma FlattenNext<X>(xss: seq<seq<X>>, i: nat)
    requires i < |xss|
    ensures Flatten(xss[..i + 1]) == Flatten(xss[..i]) + xss[i][..|xss[i]|]
  {
    assert xss[..i + 1][..i] == xss[..i];
    assert xss[i][..|xss[i]|] == xss[i];
  }

  /** Inside a nested iteration, one more inner element is one more step. */
  lemma NestedStep<S, X, E>(init: S, step: (S, X) -> Result<S, E>, xss: seq<seq<X>>, i: nat, j: nat)
    requires i < |xss| && j < |xss[i]|
    ensures Fold(init, step, Flatten(xss[..i]) + xss[i][..j + 1])
         == match Fold(init, step, Flatten(xss[..i]) + xss[i][..j]) { case Err(e) => Err(e) case Ok(s) => step(s, xss[i][j]) }
  {
    assert Flatten(xss[..i]) + xss[i][..j + 1] == (Flatten(xss[..i]) + xss[i][..j]) + [xss[i][j]];
    FoldSnoc(init, step, Flatten(xss[..i]) + xss[i][..j], xss[i][j]);
  }

  /** A failure inside a nested iteration is the result of the whole fold. */
  lemma NestedFailure<S, X, E>(init: S, step: (S, X) -> Result<S, E>, xss: seq<seq<X>>, i: nat, j: nat)
    requires i < |xss| && j <= |xss[i]|
    requires Fold(init, step, Flatten(xss[..i]) + xss[i][..j]).Err?
    ensures Fold(init, step, Flatten(xss)) == Fold(init, step, Flatten(xss[..i]) + xss[i][..j])
  {
    FlattenSplit(xss, i, j);
    FoldFailureSticks(init, step, Flatten(xss[..i]) + xss[i][..j], xss[i][j..] + Flatten(xss[i + 1..]));
  }

  /** A failure in a flat iteration is the result of the whole fold. */
  lemma PrefixFailure<S, X, E>(init: S, step: (S, X) -> Result<S, E>, xs: seq<X>, n: nat)
    requires n <= |xs|
    requires Fold(init, step, xs[..n]).Err?
    ensures Fold(init, step, xs) == Fold(init, step, xs[..n])
  {
    FoldFailureSticks(init, step, xs[..n], xs[n..]);
    assert xs[..n] + xs[n..] == xs;
  }

  /** In a flat iteration, one more element is one more step. */
  lemma PrefixStep<S, X, E>(init: S, step: (S, X) -> Result<S, E>, xs: seq<X>, n: nat)
    requires n < |xs|
    ensures Fold(init, step, xs[..n + 1])
         == match Fold(init, step, xs[..n]) { case Err(e) => Err(e) case Ok(s) => step(s, xs[n]) }
  {
    assert xs[..n + 1] == xs[..n] + [xs[n]];
    FoldSnoc(init, step, xs[..n], xs[n]);
  }
}
