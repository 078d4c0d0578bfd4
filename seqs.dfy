/**
  The one list shape all the loops of the pipeline build: walk a list in
  order and append what each element contributes (`result.extend(f(x))`).
*/
module Seqs {

  /** The concatenation, in order, of `f(x)` for every `x` of `xs`. */
  function ConcatMap<T, U>(xs: seq<T>, f: T -> seq<U>): (r: seq<U>)
  {
    if xs == [] then [] else ConcatMap(xs[..|xs| - 1], f) + f(xs[|xs| - 1])
  }

  lemma {:induction false} ConcatMapAppend<T, U>(a: seq<T>, b: seq<T>, f: T -> seq<U>)
    ensures ConcatMap(a + b, f) == ConcatMap(a, f) + ConcatMap(b, f)
    decreases |b|
  {
    if b == [] {
      assert a + b == a;
    } else {
      var b' := b[..|b| - 1];
      ConcatMapAppend(a, b', f);
      assert (a + b)[..|a + b| - 1] == a + b';
      assert (a + b)[|a + b| - 1] == b[|b| - 1];
    }
  }

  lemma ConcatMapSingle<T, U>(x: T, f: T -> seq<U>)
    ensures ConcatMap([x], f) == f(x)
  {
    assert [x][..0] == [];
  }

  /** Everything in the result was contributed by some element. */
  lemma {:induction false} ConcatMapOrigin<T, U>(xs: seq<T>, f: T -> seq<U>)
    ensures forall y | y in ConcatMap(xs, f) :: exists x | x in xs :: y in f(x)
  {
    if xs != [] {
      var init := xs[..|xs| - 1];
      ConcatMapOrigin(init, f);
      assert forall x | x in init :: x in xs;
    }
  }

  /** Everything every element contributes is in the result. */
  lemma {:induction false} ConcatMapComplete<T, U>(xs: seq<T>, f: T -> seq<U>)
    ensures forall x, y | x in xs && y in f(x) :: y in ConcatMap(xs, f)
  {
    if xs != [] {
      var init := xs[..|xs| - 1];
      ConcatMapComplete(init, f);
      assert xs == init + [xs[|xs| - 1]];
    }
  }

  /** Unfolding from the front. */
  lemma ConcatMapCons<T, U>(xs: seq<T>, f: T -> seq<U>)
    requires xs != []
    ensures ConcatMap(xs, f) == f(xs[0]) + ConcatMap(xs[1..], f)
  {
    assert xs == [xs[0]] + xs[1..];
    ConcatMapAppend([xs[0]], xs[1..], f);
    ConcatMapSingle(xs[0], f);
  }

  /** Two contributions that agree on every element give the same result. */
  lemma {:induction false} ConcatMapCongruence<T, U>(xs: seq<T>, f: T -> seq<U>, g: T -> seq<U>)
    requires forall x | x in xs :: f(x) == g(x)
    ensures ConcatMap(xs, f) == ConcatMap(xs, g)
  {
    if xs != [] {
      var init := xs[..|xs| - 1];
      assert forall x | x in init :: x in xs;
      ConcatMapCongruence(init, f, g);
    }
  }

  /** Nothing is contributed when no element contributes anything. */
  lemma {:induction false} ConcatMapNone<T, U>(xs: seq<T>, f: T -> seq<U>)
    requires forall x | x in xs :: f(x) == []
    ensures ConcatMap(xs, f) == []
  {
    if xs != [] {
      var init := xs[..|xs| - 1];
      assert forall x | x in init :: x in xs;
      ConcatMapNone(init, f);
    }
  }

  /** No element occurs twice. */
  predicate Distinct<T(==)>(xs: seq<T>)
  {
    forall i, j | 0 <= i < j < |xs| :: xs[i] != xs[j]
  }

  /** Dropping the last of distinct elements leaves distinct elements
      without it. */
  lemma DistinctInit<T>(xs: seq<T>)
    requires xs != [] && Distinct(xs)
    ensures var init := xs[..|xs| - 1];
      Distinct(init) && xs[|xs| - 1] !in init &&
      forall x :: x in xs <==> x in init || x == xs[|xs| - 1]
  {
    var init := xs[..|xs| - 1];
    assert forall i | 0 <= i < |init| :: init[i] == xs[i];
    assert xs == init + [xs[|xs| - 1]];
  }
}
