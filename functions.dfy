/**
 * Partial application of two- and three-argument functions
 * (src/fava/Currying.java). A Java `F2<T1, T2, R>` object is a Dafny
 * function `(T1, T2) -> R`; its one-argument `apply` captures the first
 * argument and returns the remaining function.
 */
module Currying {

  /** `F2.apply(arg1)`: binds the first argument of a two-argument function. */
  function Partial2<T1, T2(!new), R>(f: (T1, T2) -> R, arg1: T1): (g: T2 -> R)
    ensures forall arg2: T2 :: g(arg2) == f(arg1, arg2)
  {
    arg2 => f(arg1, arg2)
  }

  /** `F3.apply(arg1)`: binds the first argument of a three-argument function. */
  function Partial3<T1, T2(!new), T3(!new), R>(f: (T1, T2, T3) -> R, arg1: T1): (g: (T2, T3) -> R)
    ensures forall arg2: T2, arg3: T3 :: g(arg2, arg3) == f(arg1, arg2, arg3)
  {
    (arg2, arg3) => f(arg1, arg2, arg3)
  }

  /** Binding the three arguments one at a time agrees with the full call. */
  lemma CurriedThree<T1, T2(!new), T3(!new), R>(f: (T1, T2, T3) -> R, a: T1, b: T2, c: T3)
    ensures Partial2(Partial3(f, a), b)(c) == f(a, b, c)
  {
  }
}

/**
 * Function composition (src/fava/Composing.java): `compose(fn1, fn2)` runs
 * `fn1` first and feeds its result to `fn2`.
 */
module Composing {

  /** `compose(fn1, fn2)`. */
  function Compose<T(!new), U, R>(fn1: T -> U, fn2: U -> R): (g: T -> R)
    ensures forall arg: T :: g(arg) == fn2(fn1(arg))
  {
    arg => fn2(fn1(arg))
  }

  /** `compose(fn1, fn2, fn3)`, defined as `compose(compose(fn1, fn2), fn3)`. */
  function Compose3<T(!new), U1, U2, R>(fn1: T -> U1, fn2: U1 -> U2, fn3: U2 -> R): (g: T -> R)
    ensures forall arg: T :: g(arg) == fn3(fn2(fn1(arg)))
  {
    Compose(Compose(fn1, fn2), fn3)
  }

  /** Composition is associative on every argument. */
  lemma ComposeAssociative<T(!new), U1(!new), U2, R>(f: T -> U1, g: U1 -> U2, h: U2 -> R, x: T)
    ensures Compose(Compose(f, g), h)(x) == Compose(f, Compose(g, h))(x)
    ensures Compose3(f, g, h)(x) == Compose(f, Compose(g, h))(x)
  {
  }
}

/**
 * List helpers of the top-level package (src/fava/Lists.java). A Java list
 * is a Dafny sequence, so the copy that `add` makes before appending is a new
 * value and the argument is never changed.
 */
module Lists {
  import Currying

  /** `add(data, e)`: a copy of `data` with `e` appended at the end. */
  function Add<T>(data: seq<T>, e: T): (result: seq<T>)
    ensures |result| == |data| + 1
    ensures result[..|data|] == data && result[|data|] == e
  {
    data + [e]
  }

  /** `addTo(data)`: the list is bound, the element is supplied later. */
  function AddTo<T(!new)>(data: seq<T>): (g: T -> seq<T>)
    ensures forall e: T :: g(e) == Add(data, e)
  {
    e => Add(data, e)
  }

  /** `add()`: the two-argument function object. */
  function AddF2<T(!new)>(): (g: (seq<T>, T) -> seq<T>)
    ensures forall data: seq<T>, e: T :: g(data, e) == Add(data, e)
  {
    (data, e) => Add(data, e)
  }

  /** Partially applying `add()` to a list behaves as `addTo` on that list. */
  lemma AddPartialIsAddTo<T(!new)>(data: seq<T>, e: T)
    ensures Currying.Partial2(AddF2(), data)(e) == AddTo(data)(e)
    ensures AddTo(data)(e) == data + [e]
  {
  }
}

/**
 * `map` defined through `foldl` (src/fava/Mapping.java): every element is
 * passed through `f` and appended to the accumulator, which starts empty.
 */
module Mapping {
  import Folding
  import Composing
  import Lists

  /**
   * Any left fold whose step appends `f(x)` to the accumulator maps `f` over
   * the list and appends the results, in order, to the start value.
   */
  lemma {:induction false} FoldlSnoc<T, R>(step: T -> seq<R> -> seq<R>, f: T -> R, acc: seq<R>, data: seq<T>)
    requires forall x: T, r: seq<R> :: step(x)(r) == r + [f(x)]
    ensures |Folding.FoldlSeq(step, acc, data)| == |acc| + |data|
    ensures Folding.FoldlSeq(step, acc, data)[..|acc|] == acc
    ensures forall i :: 0 <= i < |data| ==> Folding.FoldlSeq(step, acc, data)[|acc| + i] == f(data[i])
    decreases data
  {
    if data != [] {
      FoldlSnoc(step, f, acc + [f(data[0])], data[1..]);
      var r := Folding.FoldlSeq(step, acc, data);
      assert r == Folding.FoldlSeq(step, acc + [f(data[0])], data[1..]);
      forall i | 0 <= i < |data|
        ensures r[|acc| + i] == f(data[i])
      {
        if i > 0 {
          assert r[|acc| + 1 + (i - 1)] == f(data[1..][i - 1]);
        } else {
          assert r[..|acc| + 1] == acc + [f(data[0])];
          assert r[|acc|] == (acc + [f(data[0])])[|acc|];
        }
      }
      assert r[..|acc|] == (r[..|acc| + 1])[..|acc|];
    }
  }

  /** The fold step `compose(f, _add())`: apply `f`, then append to the accumulator. */
  function AppendStep<T(!new), R(!new)>(f: T -> R): (step: T -> seq<R> -> seq<R>)
    ensures forall x: T, r: seq<R> :: step(x)(r) == r + [f(x)]
  {
    Composing.Compose(f, (y: R) => (r: seq<R>) => Lists.Add(r, y))
  }

  /** `map(f, data)`: one result per element, in the same order. */
  function Map<T(!new), R(!new)>(f: T -> R, data: seq<T>): (result: seq<R>)
    ensures |result| == |data|
    ensures forall i :: 0 <= i < |data| ==> result[i] == f(data[i])
  {
    FoldlSnoc(AppendStep(f), f, [], data);
    Folding.Foldl(AppendStep(f), [], data)
  }

  /** Mapping distributes over concatenation. */
  lemma MapAppend<T(!new), R(!new)>(f: T -> R, xs: seq<T>, ys: seq<T>)
    ensures Map(f, xs + ys) == Map(f, xs) + Map(f, ys)
  {
    var l, r := Map(f, xs + ys), Map(f, xs) + Map(f, ys);
    assert |l| == |r|;
    forall i | 0 <= i < |l| ensures l[i] == r[i] {
      if i < |xs| {
        assert (xs + ys)[i] == xs[i];
      } else {
        assert (xs + ys)[i] == ys[i - |xs|];
      }
    }
  }

  /** The squares example: mapping `x * x` over [1, 2, 3] gives [1, 4, 9]. */
  lemma MapSquares()
    ensures Map(x => x * x, [1, 2, 3]) == [1, 4, 9]
  {
    var r := Map(x => x * x, [1, 2, 3]);
    assert r[0] == 1 && r[1] == 4 && r[2] == 9;
  }
}
