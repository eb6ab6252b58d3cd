/**
 * String functions of the data package (src/fava/data/Strings.java):
 * `concat`, `join` and `compare`. Strings are sequences of characters.
 */
module DataStrings {
  import Folding

  /** `concat()`: the first string followed by the second. */
  function Concat(arg1: string, arg2: string): (result: string)
    ensures |result| == |arg1| + |arg2|
    ensures result[..|arg1|] == arg1 && result[|arg1|..] == arg2
  {
    arg1 + arg2
  }

  // ---------------------------------------------------------------- join

  /**
   * The step that `join(delimiter)` folds with: the element alone while the
   * accumulated string is still empty, otherwise accumulator, delimiter, element.
   */
  function JoinStep(delimiter: string): (step: string -> string -> string)
    ensures forall e: string, r: string :: step(e)(r) == r + (if r == "" then "" else delimiter) + e
  {
    e => r => if |r| == 0 then e else r + delimiter + e
  }

  /**
   * `join()` applied to a delimiter and a list: `foldl(f, "")`. The result is
   * the elements after the leading empty ones, in order, with the delimiter
   * between neighbours.
   */
  function Join(delimiter: string, list: seq<string>): (result: string)
    ensures result == Separated(delimiter, DropLeadingEmpty(list))
  {
    JoinFromEmpty(delimiter, list);
    Folding.Foldl(JoinStep(delimiter), "", list)
  }

  /** Every element preceded by the delimiter. */
  function Prefixed(delimiter: string, list: seq<string>): string
  {
    if list == [] then "" else delimiter + list[0] + Prefixed(delimiter, list[1..])
  }

  /** The elements in order, with the delimiter between neighbours only. */
  function Separated(delimiter: string, list: seq<string>): string
  {
    if list == [] then "" else list[0] + Prefixed(delimiter, list[1..])
  }

  /** The list without its leading empty strings. */
  function DropLeadingEmpty(list: seq<string>): (rest: seq<string>)
    ensures rest == [] || rest[0] != ""
  {
    if list != [] && list[0] == "" then DropLeadingEmpty(list[1..]) else list
  }

  /** Once the accumulator is non-empty, each element is added after a delimiter. */
  lemma {:induction false} JoinFromNonEmpty(delimiter: string, acc: string, list: seq<string>)
    requires acc != ""
    ensures Folding.FoldlSeq(JoinStep(delimiter), acc, list) == acc + Prefixed(delimiter, list)
    decreases list
  {
    if list != [] {
      var next := acc + delimiter + list[0];
      assert JoinStep(delimiter)(list[0])(acc) == next;
      JoinFromNonEmpty(delimiter, next, list[1..]);
    }
  }

  /** From the empty accumulator, leading empty elements are skipped and the rest separated. */
  lemma {:induction false} JoinFromEmpty(delimiter: string, list: seq<string>)
    ensures Folding.FoldlSeq(JoinStep(delimiter), "", list) == Separated(delimiter, DropLeadingEmpty(list))
  {
    if list != [] {
      assert JoinStep(delimiter)(list[0])("") == list[0];
      if list[0] == "" {
        JoinFromEmpty(delimiter, list[1..]);
      } else {
        JoinFromNonEmpty(delimiter, list[0], list[1..]);
      }
    }
  }

  /** Joining no strings gives the empty string; joining one gives that string. */
  lemma JoinEmptyAndSingleton(delimiter: string, s: string)
    ensures Join(delimiter, []) == ""
    ensures Join(delimiter, [s]) == s
  {
    assert [s][1..] == [];
  }

  /** When no element is empty, no delimiter leads or trails and one separates each pair. */
  lemma JoinNonEmptyElements(delimiter: string, list: seq<string>)
    requires forall i :: 0 <= i < |list| ==> list[i] != ""
    ensures Join(delimiter, list) == Separated(delimiter, list)
  {
  }

  /** An empty element met while nothing has been accumulated adds no delimiter. */
  lemma JoinSkipsLeadingEmpty()
    ensures Join(",", ["", "a"]) == "a"
  {
    assert ["", "a"][1..] == ["a"];
    assert ["a"][1..] == [];
  }

  /** Three pages joined by a comma. */
  lemma JoinThree(p1: string, p2: string, p3: string)
    requires p1 != "" && p2 != "" && p3 != ""
    ensures Join(",", [p1, p2, p3]) == p1 + "," + p2 + "," + p3
  {
    JoinNonEmptyElements(",", [p1, p2, p3]);
    assert [p1, p2, p3][1..] == [p2, p3];
    assert [p2, p3][1..] == [p3];
    assert [p3][1..] == [];
    assert Prefixed(",", [p3]) == "," + p3;
    assert Prefixed(",", [p2, p3]) == "," + p2 + "," + p3;
  }

  // ---------------------------------------------------------------- compare

  /**
   * `compare()`: `String.compareTo`. At the first position where the two
   * strings differ, the difference of the two characters; when one string
   * is a prefix of the other, the difference of the lengths.
   */
  function CompareTo(str1: string, str2: string): (r: int)
    ensures |str1| <= |str2| && str1 == str2[..|str1|] ==> r == |str1| - |str2|
    ensures |str2| <= |str1| && str2 == str1[..|str2|] ==> r == |str1| - |str2|
    ensures forall k :: 0 <= k < |str1| && k < |str2| && str1[..k] == str2[..k] && str1[k] != str2[k] ==>
      r == str1[k] as int - str2[k] as int
  {
    if str1 == [] || str2 == [] then |str1| - |str2|
    else if str1[0] != str2[0] then str1[0] as int - str2[0] as int
    else
      var t1, t2 := str1[1..], str2[1..];
      var r := CompareTo(t1, t2);
      assert forall k :: 0 <= k < |str1| && k < |str2| && str1[..k] == str2[..k] && str1[k] != str2[k] ==>
        r == str1[k] as int - str2[k] as int by {
        forall k | 0 <= k < |str1| && k < |str2| && str1[..k] == str2[..k] && str1[k] != str2[k]
          ensures r == str1[k] as int - str2[k] as int
        {
          assert k > 0;
          assert t1[..k - 1] == str1[..k][1..] && t2[..k - 1] == str2[..k][1..];
          assert t1[k - 1] == str1[k] && t2[k - 1] == str2[k];
        }
      }
      r
  }

  /** `str1` is a proper prefix of `str2`. */
  predicate ProperPrefix(str1: string, str2: string)
  {
    |str1| < |str2| && str1 == str2[..|str1|]
  }

  /** At the first position where the two strings differ, `str1` has the smaller character. */
  predicate FirstDifferenceLess(str1: string, str2: string)
  {
    exists k :: 0 <= k < |str1| && k < |str2| && str1[..k] == str2[..k] && str1[k] < str2[k]
  }

  /** `str1` comes strictly before `str2` in lexicographic order. */
  predicate LexLess(str1: string, str2: string)
  {
    ProperPrefix(str1, str2) || FirstDifferenceLess(str1, str2)
  }

  /** `compare` is zero exactly for equal strings. */
  lemma {:induction false} CompareZeroIffEqual(str1: string, str2: string)
    ensures CompareTo(str1, str2) == 0 <==> str1 == str2
  {
    if str1 != [] && str2 != [] && str1[0] == str2[0] {
      CompareZeroIffEqual(str1[1..], str2[1..]);
      assert str1 == [str1[0]] + str1[1..] && str2 == [str2[0]] + str2[1..];
    }
  }

  /** Swapping the arguments negates the result. */
  lemma {:induction false} CompareAntisymmetric(str1: string, str2: string)
    ensures CompareTo(str1, str2) == -CompareTo(str2, str1)
  {
    if str1 != [] && str2 != [] && str1[0] == str2[0] {
      CompareAntisymmetric(str1[1..], str2[1..]);
    }
  }

  /** When the first characters differ, they alone decide the order. */
  lemma LexLessDifferentHeads(str1: string, str2: string)
    requires str1 != [] && str2 != [] && str1[0] != str2[0]
    ensures LexLess(str1, str2) <==> str1[0] < str2[0]
  {
    if str1[0] < str2[0] {
      assert str1[..0] == str2[..0];
    }
    if FirstDifferenceLess(str1, str2) {
      var k :| 0 <= k < |str1| && k < |str2| && str1[..k] == str2[..k] && str1[k] < str2[k];
      assert k == 0;
    }
  }

  /** A common first character does not change whether one string is a proper prefix of the other. */
  lemma ProperPrefixSameHead(str1: string, str2: string)
    requires str1 != [] && str2 != [] && str1[0] == str2[0]
    ensures ProperPrefix(str1, str2) <==> ProperPrefix(str1[1..], str2[1..])
  {
    if |str1| < |str2| {
      assert str2[..|str1|] == [str2[0]] + str2[1..][..|str1| - 1];
      assert str1 == [str1[0]] + str1[1..];
    }
  }

  /** A first difference after a common first character is a first difference of the rests. */
  lemma FirstDifferenceDropHead(str1: string, str2: string)
    requires str1 != [] && str2 != [] && str1[0] == str2[0]
    requires FirstDifferenceLess(str1, str2)
    ensures FirstDifferenceLess(str1[1..], str2[1..])
  {
    var t1, t2 := str1[1..], str2[1..];
    var k :| 0 <= k < |str1| && k < |str2| && str1[..k] == str2[..k] && str1[k] < str2[k];
    assert k > 0;
    assert t1[..k - 1] == str1[..k][1..] && t2[..k - 1] == str2[..k][1..];
    assert t1[k - 1] == str1[k] && t2[k - 1] == str2[k];
  }

  /** A first difference of the rests is one of the whole strings when their first characters agree. */
  lemma FirstDifferenceAddHead(str1: string, str2: string)
    requires str1 != [] && str2 != [] && str1[0] == str2[0]
    requires FirstDifferenceLess(str1[1..], str2[1..])
    ensures FirstDifferenceLess(str1, str2)
  {
    var t1, t2 := str1[1..], str2[1..];
    var k :| 0 <= k < |t1| && k < |t2| && t1[..k] == t2[..k] && t1[k] < t2[k];
    assert str1[..k + 1] == [str1[0]] + t1[..k] && str2[..k + 1] == [str2[0]] + t2[..k];
    assert str1[k + 1] < str2[k + 1];
  }

  /** A common first character does not change the order of the rests. */
  lemma LexLessSameHead(str1: string, str2: string)
    requires str1 != [] && str2 != [] && str1[0] == str2[0]
    ensures LexLess(str1, str2) <==> LexLess(str1[1..], str2[1..])
  {
    ProperPrefixSameHead(str1, str2);
    if FirstDifferenceLess(str1, str2) {
      FirstDifferenceDropHead(str1, str2);
    }
    if FirstDifferenceLess(str1[1..], str2[1..]) {
      FirstDifferenceAddHead(str1, str2);
    }
  }

  /** `compare` is negative exactly when the first string is lexicographically less. */
  lemma {:induction false} CompareNegativeIffLess(str1: string, str2: string)
    ensures CompareTo(str1, str2) < 0 <==> LexLess(str1, str2)
  {
    if str1 == [] {
      assert str1 == str2[..0];
    } else if str2 != [] {
      if str1[0] != str2[0] {
        LexLessDifferentHeads(str1, str2);
      } else {
        CompareNegativeIffLess(str1[1..], str2[1..]);
        LexLessSameHead(str1, str2);
      }
    }
  }
}
