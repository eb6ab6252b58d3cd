/**
 * The optional value of the data package (src/fava/data/Maybe.java).
 *
 * A Java `Maybe` holds a `hasValue` flag and a value that matters only when
 * the flag is set; `Nothing` and `Just(value)` are those two cases. The
 * element type's own `equals` is a parameter `eq` of the equality test.
 */
module DataMaybe {

  datatype Maybe<T> = Nothing | Just(value: T)
  {
    /** `hasValue()`: false exactly for `nothing()`. */
    predicate HasValue()
      ensures HasValue() <==> this != Nothing
    {
      Just?
    }

    /** `getValue()`: only defined when there is a value. */
    function GetValue(): (v: T)
      requires HasValue()
      ensures this == Just(v)
    {
      value
    }

    /** `fmap(f)`: applies `f` to the value if there is one; `f` is not called otherwise. */
    function Fmap<R>(f: T -> R): (r: Maybe<R>)
      ensures r.HasValue() <==> HasValue()
      ensures HasValue() ==> r.GetValue() == f(GetValue())
    {
      if HasValue() then Just(f(value)) else Nothing
    }

    /**
     * `equals(Object)`: false for null and for anything that is not a Maybe;
     * otherwise the flags must agree and, when set, the values must be equal.
     */
    function Equals(eq: (T, T) -> bool, obj: Reference<T>): (r: bool)
      ensures !obj.MaybeObject? ==> !r
      ensures obj.MaybeObject? && HasValue() != obj.m.HasValue() ==> !r
      ensures obj.MaybeObject? && !HasValue() && !obj.m.HasValue() ==> r
      ensures obj.MaybeObject? && HasValue() && obj.m.HasValue() ==> (r <==> eq(GetValue(), obj.m.GetValue()))
    {
      match obj
      case MaybeObject(rhs) => HasValue() == rhs.HasValue() && (!HasValue() || eq(value, rhs.value))
      case Null => false
      case OtherObject => false
    }
  }

  /** What a Java `Object` argument of `equals` can be. */
  datatype Reference<T> = Null | MaybeObject(m: Maybe<T>) | OtherObject

  /** `just(t)`. */
  function JustOf<T>(t: T): (m: Maybe<T>)
    ensures m.HasValue() && m.GetValue() == t
  {
    Just(t)
  }

  /** `nothing()`. */
  function NothingOf<T>(): (m: Maybe<T>)
    ensures !m.HasValue()
  {
    Nothing
  }

  /** `fmap2(f)`: a value exactly when both arguments have one. */
  function Fmap2<T1(!new), T2(!new), R>(f: (T1, T2) -> R): (g: (Maybe<T1>, Maybe<T2>) -> Maybe<R>)
    ensures forall a: Maybe<T1>, b: Maybe<T2> :: g(a, b).HasValue() <==> a.HasValue() && b.HasValue()
    ensures forall a: Maybe<T1>, b: Maybe<T2> :: a.HasValue() && b.HasValue() ==> g(a, b).GetValue() == f(a.GetValue(), b.GetValue())
  {
    (a: Maybe<T1>, b: Maybe<T2>) => if a.HasValue() && b.HasValue() then Just(f(a.value, b.value)) else Nothing
  }

  /** Mapping the identity changes nothing. */
  lemma FmapIdentity<T>(m: Maybe<T>)
    ensures m.Fmap(x => x) == m
  {
  }

  /** Mapping a composition is mapping one function after the other. */
  lemma FmapComposition<T, U, R>(m: Maybe<T>, p: T -> U, q: U -> R)
    ensures m.Fmap(x => q(p(x))) == m.Fmap(p).Fmap(q)
  {
  }

  /** With the element type's equality, `equals` on a Maybe is equality of the two Maybes. */
  lemma EqualsIsEquality<T>(m: Maybe<T>, obj: Reference<T>)
    ensures m.Equals((x, y) => x == y, obj) <==> obj == MaybeObject(m)
  {
  }

  /** `equals` is reflexive when the element equality is. */
  lemma EqualsReflexive<T>(eq: (T, T) -> bool, m: Maybe<T>)
    requires forall x :: eq(x, x)
    ensures m.Equals(eq, MaybeObject(m))
  {
  }

  /** `equals` is symmetric when the element equality is. */
  lemma EqualsSymmetric<T>(eq: (T, T) -> bool, m1: Maybe<T>, m2: Maybe<T>)
    requires forall x, y :: eq(x, y) == eq(y, x)
    ensures m1.Equals(eq, MaybeObject(m2)) == m2.Equals(eq, MaybeObject(m1))
  {
  }
}

/**
 * Functor and applicative helpers for Maybe (src/fava/data/Maybes.java).
 * `curry` and `uncurry`, which `liftA` uses, are not part of this model;
 * they are taken with their usual meaning.
 */
module DataMaybes {
  import opened DataMaybe

  /** What `liftA` returns as written: a value, or the failure of `fapply`'s assertion. */
  datatype Checked<T> = Returned(value: T) | AssertionFailed

  /** `fmap(f)`: lifts `f` to a function on Maybe values. */
  function Fmap<T(!new), R>(f: T -> R): (g: Maybe<T> -> Maybe<R>)
    ensures forall m: Maybe<T> :: g(m) == m.Fmap(f)
  {
    (m: Maybe<T>) => m.Fmap(f)
  }

  /** `fapply(f)`: asserts that a function is present, then lifts it. */
  function FApply<T(!new), R>(mf: Maybe<T -> R>): (g: Maybe<T> -> Maybe<R>)
    requires mf.HasValue()
    ensures forall m: Maybe<T> :: g(m).HasValue() <==> m.HasValue()
    ensures forall m: Maybe<T> :: m.HasValue() ==> g(m).GetValue() == mf.GetValue()(m.GetValue())
  {
    Fmap(mf.GetValue())
  }

  /** The function lifted by `liftA` before `fapply`: `fmap(curry(f))` applied to the first argument. */
  function LiftCurried<T1, T2(!new), R>(f: (T1, T2) -> R, a: Maybe<T1>): (mg: Maybe<T2 -> R>)
    ensures mg.HasValue() <==> a.HasValue()
    ensures a.HasValue() ==> forall y: T2 :: mg.GetValue()(y) == f(a.GetValue(), y)
  {
    a.Fmap((x: T1) => (y: T2) => f(x, y))
  }

  /** One call of `liftA(f)` as written: `fapply(fmap(curry(f))(a))(b)`. */
  function LiftAAsWrittenAt<T1, T2(!new), R>(f: (T1, T2) -> R, a: Maybe<T1>, b: Maybe<T2>): (r: Checked<Maybe<R>>)
    ensures r.AssertionFailed? <==> !a.HasValue()
    ensures a.HasValue() ==> r == Returned(if b.HasValue() then Just(f(a.GetValue(), b.GetValue())) else Nothing)
  {
    var mg := LiftCurried(f, a);
    if mg.HasValue() then Returned(FApply(mg)(b)) else AssertionFailed
  }

  /**
   * `liftA(f)` as written: `uncurry(compose(fmap(curry(f)), fapply))`.
   * With no first value the partial function is nothing, and `fapply`'s
   * assertion fails.
   */
  function LiftAAsWritten<T1(!new), T2(!new), R>(f: (T1, T2) -> R): (g: (Maybe<T1>, Maybe<T2>) -> Checked<Maybe<R>>)
    ensures forall a: Maybe<T1>, b: Maybe<T2> :: g(a, b).AssertionFailed? <==> !a.HasValue()
    ensures forall a: Maybe<T1>, b: Maybe<T2> :: a.HasValue() ==> g(a, b) == Returned(Fmap2(f)(a, b))
  {
    (a: Maybe<T1>, b: Maybe<T2>) => LiftAAsWrittenAt(f, a, b)
  }

  /** `liftA` fails on a missing first value even when the second is present. */
  lemma LiftAAsWrittenFailsOnNothing()
    ensures LiftAAsWritten((x: int, y: int) => x + y)(Nothing, Just(4)) == AssertionFailed
  {
  }

  /** The applicative `fapply`: no function gives no result. */
  function FApplyOrNothing<T(!new), R>(mf: Maybe<T -> R>): (g: Maybe<T> -> Maybe<R>)
    ensures forall m: Maybe<T> :: g(m).HasValue() <==> mf.HasValue() && m.HasValue()
    ensures forall m: Maybe<T> :: mf.HasValue() && m.HasValue() ==> g(m).GetValue() == mf.GetValue()(m.GetValue())
  {
    if mf.HasValue() then FApply(mf) else (m: Maybe<T>) => Nothing
  }

  /** One call of `liftA(f)` as evidently intended. */
  function LiftAAt<T1, T2(!new), R>(f: (T1, T2) -> R, a: Maybe<T1>, b: Maybe<T2>): (r: Maybe<R>)
    ensures r.HasValue() <==> a.HasValue() && b.HasValue()
    ensures r.HasValue() ==> r.GetValue() == f(a.GetValue(), b.GetValue())
  {
    FApplyOrNothing(LiftCurried(f, a))(b)
  }

  /** `liftA(f)` as evidently intended: `fapply` of a missing function yields nothing. */
  function LiftA<T1(!new), T2(!new), R>(f: (T1, T2) -> R): (g: (Maybe<T1>, Maybe<T2>) -> Maybe<R>)
    ensures forall a: Maybe<T1>, b: Maybe<T2> :: g(a, b) == Fmap2(f)(a, b)
  {
    (a: Maybe<T1>, b: Maybe<T2>) => LiftAAt(f, a, b)
  }

  /** Lifting addition: just 3 and just 4 give just 7. */
  lemma LiftAAdds()
    ensures LiftA((x: int, y: int) => x + y)(Just(3), Just(4)) == Just(7)
    ensures LiftAAsWritten((x: int, y: int) => x + y)(Just(3), Just(4)) == Returned(Just(7))
  {
  }

  /** `fapply` of a present function behaves as `fmap` of that function. */
  lemma FApplyIsFmap<T(!new), R>(g: T -> R, m: Maybe<T>)
    ensures FApply(Just(g))(m) == Fmap(g)(m)
    ensures FApplyOrNothing(Just(g))(m) == m.Fmap(g)
  {
  }
}
