/**
 * List functions of the data package (src/fava/data/Lists.java).
 *
 * Java lists are Dafny sequences: every operation builds a new list and
 * leaves its argument as it was. `flatten`, `exists` and `unique` fill a
 * fresh list in a loop and are methods with loops here, each proved against
 * a specification function; `reverse`, `map` and `flatMap` are fold and
 * composition expressions and stay functions. The curried wrappers return
 * function values.
 */
module DataLists {
  import Folding
  import Currying
  import Composing
  import Mapping

  /** `append(element, list)`: the list with the element added at the end. */
  function Append<T>(element: T, list: seq<T>): (result: seq<T>)
    ensures |result| == |list| + 1
    ensures result[..|list|] == list && result[|list|] == element
  {
    list + [element]
  }

  /** `append()`: the curried two-argument version. */
  function AppendF2<T(!new)>(): (g: (T, seq<T>) -> seq<T>)
    ensures forall element: T, list: seq<T> :: g(element, list) == Append(element, list)
  {
    (element, list) => Append(element, list)
  }

  // ---------------------------------------------------------------- flatten

  /** The in-order concatenation of a list of lists. */
  function Concat<T>(xss: seq<seq<T>>): seq<T>
  {
    if xss == [] then [] else xss[0] + Concat(xss[1..])
  }

  /** Concatenation of lists distributes over appending lists of lists. */
  lemma {:induction false} ConcatAppend<T>(xss: seq<seq<T>>, yss: seq<seq<T>>)
    ensures Concat(xss + yss) == Concat(xss) + Concat(yss)
  {
    if xss == [] {
      assert xss + yss == yss;
    } else {
      assert (xss + yss)[1..] == xss[1..] + yss;
      ConcatAppend(xss[1..], yss);
    }
  }

  /** An element is in the concatenation iff it is in one of the inner lists. */
  lemma {:induction false} ConcatMember<T>(xss: seq<seq<T>>, x: T)
    ensures x in Concat(xss) <==> exists i :: 0 <= i < |xss| && x in xss[i]
  {
    if xss != [] {
      ConcatMember(xss[1..], x);
      if x in Concat(xss[1..]) {
        var i :| 0 <= i < |xss[1..]| && x in xss[1..][i];
        assert x in xss[i + 1];
      }
      if exists i :: 0 <= i < |xss| && x in xss[i] {
        var i :| 0 <= i < |xss| && x in xss[i];
        if i > 0 {
          assert x in xss[1..][i - 1];
        }
      }
    }
  }

  /** `flatten(listOfLists)`: `addAll` of every inner list, in order. */
  method Flatten<T>(listOfLists: seq<seq<T>>) returns (result: seq<T>)
    ensures result == Concat(listOfLists)
  {
    result := [];
    for i := 0 to |listOfLists|
      invariant result == Concat(listOfLists[..i])
    {
      ConcatAppend(listOfLists[..i], [listOfLists[i]]);
      assert listOfLists[..i + 1] == listOfLists[..i] + [listOfLists[i]];
      assert Concat([listOfLists[i]]) == listOfLists[i] + Concat([]);
      result := result + listOfLists[i];
    }
    assert listOfLists[..|listOfLists|] == listOfLists;
  }

  /**
   * `flatten()`: the curried version. Its value is `Concat`, which the loop
   * in `Flatten` is proved to compute.
   */
  function FlattenF1<T(!new)>(): (g: seq<seq<T>> -> seq<T>)
    ensures forall xss: seq<seq<T>> :: g(xss) == Concat(xss)
  {
    xss => Concat(xss)
  }

  // ---------------------------------------------------------------- reverse

  /** A right fold whose step appends the element reverses the list. */
  lemma {:induction false} FoldrAppendReverses<T>(step: T -> seq<T> -> seq<T>, s: seq<T>)
    requires forall x: T, acc: seq<T> :: step(x)(acc) == acc + [x]
    ensures |Folding.FoldrSeq(step, [], s)| == |s|
    ensures forall i :: 0 <= i < |s| ==> Folding.FoldrSeq(step, [], s)[i] == s[|s| - 1 - i]
  {
    if s != [] {
      FoldrAppendReverses(step, s[1..]);
      var rest := Folding.FoldrSeq(step, [], s[1..]);
      assert Folding.FoldrSeq(step, [], s) == rest + [s[0]];
    }
  }

  /** `reverse()`: `foldr(append(), [])`, applied to a list. */
  function Reverse<T(!new)>(list: seq<T>): (result: seq<T>)
    ensures |result| == |list|
    ensures forall i :: 0 <= i < |list| ==> result[i] == list[|list| - 1 - i]
  {
    var step := (x: T) => Currying.Partial2(AppendF2(), x);
    FoldrAppendReverses(step, list);
    Folding.Foldr(step, [], list)
  }

  /** Reversing twice gives the list back. */
  lemma ReverseInvolution<T(!new)>(list: seq<T>)
    ensures Reverse(Reverse(list)) == list
  {
    var r := Reverse(Reverse(list));
    forall i | 0 <= i < |list| ensures r[i] == list[i] {
      assert Reverse(list)[|list| - 1 - i] == list[i];
    }
  }

  // ---------------------------------------------------------------- sort

  /** -1, 0 or 1 according to the sign of `n`. */
  function Sign(n: int): int
  {
    if n < 0 then -1 else if n > 0 then 1 else 0
  }

  /** The comparator contract's first clause: swapping the arguments flips the sign. */
  ghost predicate SignAntisymmetric<T(!new)>(cmp: (T, T) -> int)
  {
    forall a, b :: Sign(cmp(a, b)) == -Sign(cmp(b, a))
  }

  /** The comparator contract's second clause: "not greater" is transitive. */
  ghost predicate Transitive<T(!new)>(cmp: (T, T) -> int)
  {
    forall a, b, c :: cmp(a, b) <= 0 && cmp(b, c) <= 0 ==> cmp(a, c) <= 0
  }

  /** Every two neighbours are in order. */
  ghost predicate AdjacentSorted<T>(cmp: (T, T) -> int, s: seq<T>)
  {
    forall i :: 0 <= i < |s| - 1 ==> cmp(s[i], s[i + 1]) <= 0
  }

  /** Every two elements are in order. */
  ghost predicate Sorted<T>(cmp: (T, T) -> int, s: seq<T>)
  {
    forall i, j :: 0 <= i < j < |s| ==> cmp(s[i], s[j]) <= 0
  }

  /** With a transitive comparator, ordered neighbours mean an ordered list. */
  lemma {:induction false} AdjacentSortedIsSorted<T(!new)>(cmp: (T, T) -> int, s: seq<T>)
    ensures Transitive(cmp) && AdjacentSorted(cmp, s) ==> Sorted(cmp, s)
  {
    if Transitive(cmp) && AdjacentSorted(cmp, s) {
    forall i, j | 0 <= i < j < |s| ensures cmp(s[i], s[j]) <= 0 {
      var k := i + 1;
      while k < j
        invariant i < k <= j
        invariant cmp(s[i], s[k]) <= 0
      {
        k := k + 1;
      }
    }
    }
  }

  /** Inserts `x` after every leading element that is not greater than it. */
  function Insert<T>(cmp: (T, T) -> int, x: T, s: seq<T>): (r: seq<T>)
    ensures multiset(r) == multiset(s) + multiset{x}
    ensures r[0] == (if s == [] || cmp(x, s[0]) < 0 then x else s[0])
  {
    if s == [] then [x]
    else if cmp(x, s[0]) < 0 then [x] + s
    else
      var rest := Insert(cmp, x, s[1..]);
      assert s == [s[0]] + s[1..];
      [s[0]] + rest
  }

  /** Inserting into a list whose neighbours are in order keeps them in order. */
  lemma {:induction false} InsertKeepsOrder<T(!new)>(cmp: (T, T) -> int, x: T, s: seq<T>)
    requires SignAntisymmetric(cmp) && AdjacentSorted(cmp, s)
    ensures AdjacentSorted(cmp, Insert(cmp, x, s))
  {
    if s != [] && cmp(x, s[0]) >= 0 {
      var tail := s[1..];
      assert AdjacentSorted(cmp, tail) by {
        forall i | 0 <= i < |tail| - 1 ensures cmp(tail[i], tail[i + 1]) <= 0 {
          assert tail[i] == s[i + 1] && tail[i + 1] == s[i + 2];
        }
      }
      InsertKeepsOrder(cmp, x, tail);
      var rest := Insert(cmp, x, tail);
      var r := Insert(cmp, x, s);
      assert r == [s[0]] + rest;
      assert cmp(s[0], rest[0]) <= 0 by {
        if rest[0] == x {
          assert Sign(cmp(x, s[0])) == -Sign(cmp(s[0], x));
        } else {
          assert rest[0] == s[1];
        }
      }
      forall i | 0 <= i < |r| - 1 ensures cmp(r[i], r[i + 1]) <= 0 {
        if i > 0 {
          assert r[i] == rest[i - 1] && r[i + 1] == rest[i];
        }
      }
    }
  }

  /** `InsertKeepsOrder` stated for every comparator. */
  lemma InsertOrdered<T(!new)>(cmp: (T, T) -> int, x: T, s: seq<T>)
    ensures SignAntisymmetric(cmp) && AdjacentSorted(cmp, s) ==> AdjacentSorted(cmp, Insert(cmp, x, s))
  {
    if SignAntisymmetric(cmp) && AdjacentSorted(cmp, s) {
      InsertKeepsOrder(cmp, x, s);
    }
  }

  /**
   * `sort(comparator, list)`: `Collections.sort` on a copy. The library's
   * algorithm is not part of this model; an insertion sort stands in for it
   * and is proved to give a permutation of the list in comparator order.
   */
  function Sort<T(!new)>(cmp: (T, T) -> int, list: seq<T>): (result: seq<T>)
    ensures multiset(result) == multiset(list)
    ensures SignAntisymmetric(cmp) ==> AdjacentSorted(cmp, result)
    ensures SignAntisymmetric(cmp) && Transitive(cmp) ==> Sorted(cmp, result)
  {
    if list == [] then []
    else
      var prefix := list[..|list| - 1];
      assert list == prefix + [list[|list| - 1]];
      var sortedPrefix := Sort(cmp, prefix);
      var r := Insert(cmp, list[|list| - 1], sortedPrefix);
      InsertOrdered(cmp, list[|list| - 1], sortedPrefix);
      AdjacentSortedIsSorted(cmp, r);
      r
  }

  /** `sort()`: the curried two-argument version. */
  function SortF2<T(!new)>(): (g: ((T, T) -> int, seq<T>) -> seq<T>)
    ensures forall cmp: (T, T) -> int, list: seq<T> :: g(cmp, list) == Sort(cmp, list)
  {
    (cmp: (T, T) -> int, list: seq<T>) => Sort(cmp, list)
  }

  /** `sort(comparator)`: `sort()` with the comparator bound. */
  function SortBy<T(!new)>(cmp: (T, T) -> int): (g: seq<T> -> seq<T>)
    ensures forall list: seq<T> :: g(list) == Sort(cmp, list)
  {
    Currying.Partial2(SortF2(), cmp)
  }

  // ---------------------------------------------------------------- exists

  /** `exists(predicate, list)`: scans the list and returns at the first match. */
  method Exists<T>(p: T -> bool, list: seq<T>) returns (found: bool)
    ensures found <==> exists i :: 0 <= i < |list| && p(list[i])
  {
    for i := 0 to |list|
      invariant forall j :: 0 <= j < i ==> !p(list[j])
    {
      if p(list[i]) {
        return true;
      }
    }
    return false;
  }

  /**
   * `exists()`: the curried version. Its value is the existential that the
   * scan in `Exists` is proved to compute.
   */
  function ExistsF2<T(!new)>(): (g: (T -> bool, seq<T>) -> bool)
    ensures forall p: T -> bool, list: seq<T> :: g(p, list) <==> exists i :: 0 <= i < |list| && p(list[i])
  {
    (p: T -> bool, list: seq<T>) => exists i :: 0 <= i < |list| && p(list[i])
  }

  // ---------------------------------------------------------------- map

  /** `map(f, list)`: `foldl(_(f, append()), [], list)`. */
  function Map<T(!new), R(!new)>(f: T -> R, list: seq<T>): (result: seq<R>)
    ensures |result| == |list|
    ensures forall i :: 0 <= i < |list| ==> result[i] == f(list[i])
  {
    var step := Composing.Compose(f, (y: R) => Currying.Partial2(AppendF2(), y));
    Mapping.FoldlSnoc(step, f, [], list);
    Folding.Foldl(step, [], list)
  }

  /** `map()`: the curried two-argument version. */
  function MapF2<T(!new), R(!new)>(): (g: (T -> R, seq<T>) -> seq<R>)
    ensures forall f: T -> R, list: seq<T> :: g(f, list) == Map(f, list)
  {
    (f: T -> R, list: seq<T>) => Map(f, list)
  }

  /** `map(f)`: `map()` with the function bound. */
  function MapBy<T(!new), R(!new)>(f: T -> R): (g: seq<T> -> seq<R>)
    ensures forall list: seq<T> :: g(list) == Map(f, list)
  {
    Currying.Partial2(MapF2(), f)
  }

  /** The squares example: mapping `x * x` over [1, 2, 3] gives [1, 4, 9]. */
  lemma MapSquares()
    ensures MapBy((x: int) => x * x)([1, 2, 3]) == [1, 4, 9]
  {
    var r := Map((x: int) => x * x, [1, 2, 3]);
    assert r[0] == 1 && r[1] == 4 && r[2] == 9;
  }

  // ---------------------------------------------------------------- flatMap

  /** `flatMap(f, list)`: `flatten(map(f, list))`. */
  function FlatMap<T(!new), R(!new)>(f: T -> seq<R>, list: seq<T>): (result: seq<R>)
    ensures forall x: R :: x in result <==> exists i :: 0 <= i < |list| && x in f(list[i])
  {
    var mapped := Map(f, list);
    assert forall x :: x in Concat(mapped) <==> exists i :: 0 <= i < |mapped| && x in mapped[i] by {
      forall x ensures x in Concat(mapped) <==> exists i :: 0 <= i < |mapped| && x in mapped[i] {
        ConcatMember(mapped, x);
      }
    }
    Concat(mapped)
  }

  /** `flatMap` on a concatenation is the concatenation of the two results. */
  lemma FlatMapAppend<T(!new), R(!new)>(f: T -> seq<R>, xs: seq<T>, ys: seq<T>)
    ensures FlatMap(f, xs + ys) == FlatMap(f, xs) + FlatMap(f, ys)
  {
    assert Map(f, xs + ys) == Map(f, xs) + Map(f, ys);
    ConcatAppend(Map(f, xs), Map(f, ys));
  }

  /** `flatMap()`: the curried two-argument version. */
  function FlatMapF2<T(!new), R(!new)>(): (g: (T -> seq<R>, seq<T>) -> seq<R>)
    ensures forall f: T -> seq<R>, list: seq<T> :: g(f, list) == FlatMap(f, list)
  {
    (f: T -> seq<R>, list: seq<T>) => FlatMap(f, list)
  }

  /** `flatMap(f)`: `flatMap()` with the function bound. */
  function FlatMapBy<T(!new), R(!new)>(f: T -> seq<R>): (g: seq<T> -> seq<R>)
    ensures forall list: seq<T> :: g(list) == FlatMap(f, list)
  {
    Currying.Partial2(FlatMapF2(), f)
  }

  // ---------------------------------------------------------------- unique

  /** The list with every element that already occurred earlier dropped. */
  ghost function Dedup<T>(s: seq<T>): seq<T>
  {
    if s == [] then []
    else
      var d := Dedup(s[..|s| - 1]);
      if s[|s| - 1] in d then d else d + [s[|s| - 1]]
  }

  /** Position of the first occurrence of `x` in `s`. */
  ghost function FirstIndex<T>(s: seq<T>, x: T): (k: nat)
    requires x in s
    ensures k < |s| && s[k] == x && x !in s[..k]
  {
    if s[0] == x then 0 else 1 + FirstIndex(s[1..], x)
  }

  /** Appending an element does not move the first occurrence of an element already present. */
  lemma {:induction false} FirstIndexSnoc<T>(s: seq<T>, y: T, x: T)
    requires x in s
    ensures FirstIndex(s + [y], x) == FirstIndex(s, x)
  {
    if s[0] != x {
      assert (s + [y])[1..] == s[1..] + [y];
      FirstIndexSnoc(s[1..], y, x);
    }
  }

  /** `unique` keeps exactly the elements of the list. */
  lemma {:induction false} DedupSameElements<T>(s: seq<T>)
    ensures forall x :: x in Dedup(s) <==> x in s
  {
    if s != [] {
      var prefix := s[..|s| - 1];
      DedupSameElements(prefix);
      assert s == prefix + [s[|s| - 1]];
    }
  }

  /** `unique` keeps each element only once. */
  lemma {:induction false} DedupDistinct<T>(s: seq<T>)
    ensures forall i, j :: 0 <= i < j < |Dedup(s)| ==> Dedup(s)[i] != Dedup(s)[j]
  {
    if s != [] {
      DedupDistinct(s[..|s| - 1]);
    }
  }

  /** Each element of the unique list comes from the list. */
  lemma DedupElement<T>(s: seq<T>, i: nat)
    requires i < |Dedup(s)|
    ensures Dedup(s)[i] in s
  {
    DedupSameElements(s);
  }

  /** One pair of `unique`'s elements: the earlier one occurs first in the list. */
  lemma {:induction false} DedupOrderAt<T>(s: seq<T>, i: nat, j: nat)
    requires i < j < |Dedup(s)|
    ensures Dedup(s)[i] in s && Dedup(s)[j] in s
    ensures FirstIndex(s, Dedup(s)[i]) < FirstIndex(s, Dedup(s)[j])
  {
    DedupElement(s, i);
    DedupElement(s, j);
    var prefix, y := s[..|s| - 1], s[|s| - 1];
    assert s == prefix + [y];
    var d := Dedup(prefix);
    DedupElement(prefix, i);
    FirstIndexSnoc(prefix, y, d[i]);
    if j < |d| {
      DedupElement(prefix, j);
      DedupOrderAt(prefix, i, j);
      FirstIndexSnoc(prefix, y, d[j]);
    } else {
      DedupSameElements(prefix);
      assert y !in d;
      assert s[..|prefix|] == prefix;
      assert FirstIndex(s, y) == |prefix|;
    }
  }

  /** `unique` lists the elements in the order of their first occurrences. */
  lemma DedupFirstOccurrenceOrder<T>(s: seq<T>)
    ensures forall x :: x in Dedup(s) ==> x in s
    ensures forall i, j :: 0 <= i < j < |Dedup(s)| ==>
      FirstIndex(s, Dedup(s)[i]) < FirstIndex(s, Dedup(s)[j])
  {
    DedupSameElements(s);
    forall i, j | 0 <= i < j < |Dedup(s)| ensures FirstIndex(s, Dedup(s)[i]) < FirstIndex(s, Dedup(s)[j]) {
      DedupOrderAt(s, i, j);
    }
  }

  /** `unique(list)`: adds each element not yet contained in the result. */
  method Unique<T(==)>(list: seq<T>) returns (result: seq<T>)
    ensures result == Dedup(list)
  {
    result := [];
    for i := 0 to |list|
      invariant result == Dedup(list[..i])
    {
      assert list[..i + 1][..i] == list[..i];
      if list[i] !in result {
        result := result + [list[i]];
      }
    }
    assert list[..|list|] == list;
  }

  /**
   * `unique()`: the curried version. Its value is `Dedup`, which the loop in
   * `Unique` is proved to compute; `Dedup` compares elements only in
   * specification, so this function value is ghost.
   */
  ghost function UniqueF1<T(!new)>(): (g: seq<T> -> seq<T>)
    ensures forall list: seq<T> :: g(list) == Dedup(list)
  {
    list => Dedup(list)
  }
}
