/** Running a register machine over a sequence: what survives from one step to all of them. */
module Folds {

  function Iterate<S>(f: S -> S, n: nat, s: S): S
  {
    if n == 0 then s else f(Iterate(f, n - 1, s))
  }

  function Fold<S, T>(f: (S, T) -> S, s: S, data: seq<T>): S
  {
    if data == [] then s else f(Fold(f, s, data[..|data| - 1]), data[|data| - 1])
  }

  lemma {:induction false} IterateInjective<S(!new)>(f: S -> S, n: nat, a: S, b: S)
    requires forall x, y :: f(x) == f(y) ==> x == y
    requires Iterate(f, n, a) == Iterate(f, n, b)
    ensures a == b
  {
    if n > 0 {
      IterateInjective(f, n - 1, a, b);
    }
  }

  lemma {:induction false} IterateAdd<S>(f: S -> S, m: nat, n: nat, s: S)
    ensures Iterate(f, m + n, s) == Iterate(f, n, Iterate(f, m, s))
  {
    if n > 0 {
      IterateAdd(f, m, n - 1, s);
      assert m + n - 1 == m + (n - 1);
    }
  }

  lemma {:induction false} IterateAdditive<S(!new)>(f: S -> S, plus: (S, S) -> S, n: nat, a: S, b: S)
    requires forall x, y :: f(plus(x, y)) == plus(f(x), f(y))
    ensures Iterate(f, n, plus(a, b)) == plus(Iterate(f, n, a), Iterate(f, n, b))
  {
    if n > 0 {
      IterateAdditive(f, plus, n - 1, a, b);
    }
  }

  lemma {:induction false} FoldConcat<S, T>(f: (S, T) -> S, s: S, a: seq<T>, b: seq<T>)
    ensures Fold(f, s, a + b) == Fold(f, Fold(f, s, a), b)
  {
    if b == [] {
      assert a + b == a;
    } else {
      assert (a + b)[..|a + b| - 1] == a + b[..|b| - 1];
      FoldConcat(f, s, a, b[..|b| - 1]);
    }
  }

  ghost predicate ForgetsNothing<S(!new), T(!new)>(f: (S, T) -> S)
  {
    forall s, t, d :: f(s, d) == f(t, d) ==> s == t
  }

  lemma {:induction false} FoldInjective<S(!new), T(!new)>(f: (S, T) -> S, x: S, y: S, data: seq<T>)
    requires ForgetsNothing(f)
    requires Fold(f, x, data) == Fold(f, y, data)
    ensures x == y
  {
    if data != [] {
      FoldInjective(f, x, y, data[..|data| - 1]);
    }
  }

  /** If a machine forgets nothing, two messages that end in the same state and differ only in one
      window leave the same state after that window. */
  lemma FoldReachesWindow<S(!new), T(!new)>(f: (S, T) -> S, s: S, head: seq<T>, v: seq<T>, w: seq<T>, tail: seq<T>)
    requires ForgetsNothing(f)
    requires Fold(f, s, head + v + tail) == Fold(f, s, head + w + tail)
    ensures Fold(f, Fold(f, s, head), v) == Fold(f, Fold(f, s, head), w)
  {
    FoldConcat(f, s, head + v, tail);
    FoldConcat(f, s, head + w, tail);
    FoldConcat(f, s, head, v);
    FoldConcat(f, s, head, w);
    FoldInjective(f, Fold(f, Fold(f, s, head), v), Fold(f, Fold(f, s, head), w), tail);
  }

  lemma FoldTwo<S, T>(f: (S, T) -> S, s: S, w: seq<T>)
    requires |w| == 2
    ensures Fold(f, s, w) == f(f(s, w[0]), w[1])
  {
    assert w[..1] == [w[0]];
    assert Fold(f, s, [w[0]]) == f(Fold(f, s, []), w[0]);
  }

  lemma FoldFour<S, T>(f: (S, T) -> S, s: S, w: seq<T>)
    requires |w| == 4
    ensures Fold(f, s, w) == f(f(f(f(s, w[0]), w[1]), w[2]), w[3])
  {
    assert w == w[..2] + w[2..];
    FoldConcat(f, s, w[..2], w[2..]);
    FoldTwo(f, s, w[..2]);
    FoldTwo(f, Fold(f, s, w[..2]), w[2..]);
  }

  lemma FoldNext<S, T>(f: (S, T) -> S, s: S, data: seq<T>, i: nat)
    requires i < |data|
    ensures Fold(f, s, data[..i + 1]) == f(Fold(f, s, data[..i]), data[i])
  {
    assert data[..i + 1][..i] == data[..i];
  }
}
