/**
 * Left and right folds over a list (src/fava/Folding.java).
 *
 * The folding function is curried, `T -> R -> R`: it takes an element first
 * and then the accumulator, as the Java `F1<T, F1<R, R>>` does. The folds
 * recurse on an index that rises from 0 to the length of the list, exactly as
 * the private four-argument overloads do; each one is proved equal to a
 * head-recursive reference definition on the suffix it still has to visit.
 */
module Folding {

  /** Reference left fold: consume the head, then fold the tail. */
  function FoldlSeq<T, R>(f: T -> R -> R, r: R, s: seq<T>): R
  {
    if s == [] then r else FoldlSeq(f, f(s[0])(r), s[1..])
  }

  /** Reference right fold: the head is applied to the fold of the tail. */
  function FoldrSeq<T, R>(f: T -> R -> R, r: R, s: seq<T>): R
  {
    if s == [] then r else f(s[0])(FoldrSeq(f, r, s[1..]))
  }

  /** The private `foldl(f, r, data, index)`: folds `data[index..]` into `r`. */
  function FoldlFrom<T, R>(f: T -> R -> R, r: R, data: seq<T>, index: nat): (result: R)
    requires index <= |data|
    ensures result == FoldlSeq(f, r, data[index..])
    decreases |data| - index
  {
    if index == |data| then r
    else
      var rest := FoldlFrom(f, f(data[index])(r), data, index + 1);
      assert data[index..][1..] == data[index + 1..];
      rest
  }

  /** The private `foldr(f, r, data, index)`: right fold of `data[index..]` onto `r`. */
  function FoldrFrom<T, R>(f: T -> R -> R, r: R, data: seq<T>, index: nat): (result: R)
    requires index <= |data|
    ensures result == FoldrSeq(f, r, data[index..])
    decreases |data| - index
  {
    if index == |data| then r
    else
      var rest := FoldrFrom(f, r, data, index + 1);
      assert data[index..][1..] == data[index + 1..];
      f(data[index])(rest)
  }

  /** The public `foldl(f, r, data)`: starts the index recursion at 0. */
  function Foldl<T, R>(f: T -> R -> R, r: R, data: seq<T>): (result: R)
    ensures result == FoldlSeq(f, r, data)
    ensures data == [] ==> result == r
  {
    assert data[0..] == data;
    FoldlFrom(f, r, data, 0)
  }

  /** The public `foldr(f, r, data)`: starts the index recursion at 0. */
  function Foldr<T, R>(f: T -> R -> R, r: R, data: seq<T>): (result: R)
    ensures result == FoldrSeq(f, r, data)
    ensures data == [] ==> result == r
  {
    assert data[0..] == data;
    FoldrFrom(f, r, data, 0)
  }

  /** A left fold consumes its first element before the rest. */
  lemma FoldlCons<T, R>(f: T -> R -> R, r: R, x: T, xs: seq<T>)
    ensures Foldl(f, r, [x] + xs) == Foldl(f, f(x)(r), xs)
  {
    assert ([x] + xs)[1..] == xs;
  }

  /** A right fold applies its first element to the fold of the rest. */
  lemma FoldrCons<T, R>(f: T -> R -> R, r: R, x: T, xs: seq<T>)
    ensures Foldr(f, r, [x] + xs) == f(x)(Foldr(f, r, xs))
  {
    assert ([x] + xs)[1..] == xs;
  }

  /** Folding a concatenation from the left folds the second part from where the first ended. */
  lemma {:induction false} FoldlAppend<T, R>(f: T -> R -> R, r: R, xs: seq<T>, ys: seq<T>)
    ensures Foldl(f, r, xs + ys) == Foldl(f, Foldl(f, r, xs), ys)
  {
    if xs == [] {
      assert xs + ys == ys;
    } else {
      calc {
        Foldl(f, r, xs + ys);
        { assert xs + ys == [xs[0]] + (xs[1..] + ys); FoldlCons(f, r, xs[0], xs[1..] + ys); }
        Foldl(f, f(xs[0])(r), xs[1..] + ys);
        { FoldlAppend(f, f(xs[0])(r), xs[1..], ys); }
        Foldl(f, Foldl(f, f(xs[0])(r), xs[1..]), ys);
        { assert xs == [xs[0]] + xs[1..]; FoldlCons(f, r, xs[0], xs[1..]); }
        Foldl(f, Foldl(f, r, xs), ys);
      }
    }
  }

  /** Folding a concatenation from the right folds the first part onto the fold of the second. */
  lemma {:induction false} FoldrAppend<T, R>(f: T -> R -> R, r: R, xs: seq<T>, ys: seq<T>)
    ensures Foldr(f, r, xs + ys) == Foldr(f, Foldr(f, r, ys), xs)
  {
    if xs == [] {
      assert xs + ys == ys;
    } else {
      calc {
        Foldr(f, r, xs + ys);
        { assert xs + ys == [xs[0]] + (xs[1..] + ys); FoldrCons(f, r, xs[0], xs[1..] + ys); }
        f(xs[0])(Foldr(f, r, xs[1..] + ys));
        { FoldrAppend(f, r, xs[1..], ys); }
        f(xs[0])(Foldr(f, Foldr(f, r, ys), xs[1..]));
        { assert xs == [xs[0]] + xs[1..]; FoldrCons(f, Foldr(f, r, ys), xs[0], xs[1..]); }
        Foldr(f, Foldr(f, r, ys), xs);
      }
    }
  }

  /** The parenthesising step of the left-fold example: `(r+x)`. */
  function ParenLeft(x: char): string -> string
  {
    r => "(" + r + "+" + [x] + ")"
  }

  /** The parenthesising step of the right-fold example: `(x+r)`. */
  function ParenRight(x: char): string -> string
  {
    r => "(" + [x] + "+" + r + ")"
  }

  /** Folding "123" from "0" nests to the left with foldl and to the right with foldr. */
  lemma ParenthesisedFolds()
    ensures Foldl(ParenLeft, "0", "123") == "(((0+1)+2)+3)"
    ensures Foldr(ParenRight, "0", "123") == "(1+(2+(3+0)))"
  {
    FoldlCons(ParenLeft, "0", '1', "23");
    FoldlCons(ParenLeft, "(0+1)", '2', "3");
    FoldlCons(ParenLeft, "((0+1)+2)", '3', "");
    FoldrCons(ParenRight, "0", '1', "23");
    FoldrCons(ParenRight, "0", '2', "3");
    FoldrCons(ParenRight, "0", '3', "");
  }
}
