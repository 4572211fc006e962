/**
 * The array script: combine two integer lists, dropping every zero from the
 * first and appending the second unchanged. Python lists are immutable values
 * here; every operation builds a new list, so no input is ever changed.
 */
module ArrayOperations {
  import opened Builtins

  /** No element is zero. */
  predicate NoZeros(s: seq<int>) {
    forall i :: 0 <= i < |s| ==> s[i] != 0
  }

  /** Number of elements of `s` that are not zero. */
  function NonZeroCount(s: seq<int>): nat {
    |s| - multiset(s)[0]
  }

  /** `t` can be obtained from `s` by deleting elements: `t` keeps `s`'s order. */
  predicate IsSubsequence(t: seq<int>, s: seq<int>)
    decreases |s|
  {
    t == [] ||
    (s != [] &&
     ((t[0] == s[0] && IsSubsequence(t[1..], s[1..])) || IsSubsequence(t, s[1..])))
  }

  /** The comprehension `[x for x in s if x != 0]`, read front to back. */
  function RemoveZeros(s: seq<int>): (r: seq<int>)
    ensures NoZeros(r)
    ensures |r| <= |s|
  {
    if s == [] then []
    else (if s[0] != 0 then [s[0]] else []) + RemoveZeros(s[1..])
  }

  /** Removing zeros takes out every zero and nothing else. */
  lemma {:induction false} RemoveZerosMultiset(s: seq<int>)
    ensures multiset(RemoveZeros(s)) == multiset(s)[0 := 0]
  {
    if s != [] {
      RemoveZerosMultiset(s[1..]);
      assert s == [s[0]] + s[1..];
      assert multiset(s) == multiset{s[0]} + multiset(s[1..]);
    }
  }

  /** The result has one element per nonzero element of the input. */
  lemma RemoveZerosLength(s: seq<int>)
    ensures |RemoveZeros(s)| == NonZeroCount(s)
  {
    RemoveZerosMultiset(s);
    assert |multiset(s)| == |multiset(s)[0 := 0]| + multiset(s)[0];
  }

  /** The result keeps the input's order. */
  lemma {:induction false} RemoveZerosIsSubsequence(s: seq<int>)
    ensures IsSubsequence(RemoveZeros(s), s)
  {
    if s != [] {
      RemoveZerosIsSubsequence(s[1..]);
      if s[0] != 0 {
        assert RemoveZeros(s)[0] == s[0];
        assert RemoveZeros(s)[1..] == RemoveZeros(s[1..]);
      } else {
        assert RemoveZeros(s) == RemoveZeros(s[1..]);
      }
    }
  }

  /** A zero-free subsequence of `s` has at most `NonZeroCount(s)` elements. */
  lemma {:induction false} ZeroFreeSubsequenceBound(t: seq<int>, s: seq<int>)
    requires IsSubsequence(t, s) && NoZeros(t)
    ensures |t| <= NonZeroCount(s)
    decreases |s|
  {
    RemoveZerosLength(s);
    if t != [] {
      assert s == [s[0]] + s[1..];
      assert multiset(s) == multiset{s[0]} + multiset(s[1..]);
      RemoveZerosLength(s[1..]);
      if t[0] == s[0] && IsSubsequence(t[1..], s[1..]) {
        ZeroFreeSubsequenceBound(t[1..], s[1..]);
      } else {
        ZeroFreeSubsequenceBound(t, s[1..]);
      }
    }
  }

  /** `RemoveZeros(s)` is the one list that keeps the order of `s`, has no zero
      and has an element for every nonzero element of `s`. */
  lemma {:induction false} RemoveZerosUnique(t: seq<int>, s: seq<int>)
    requires IsSubsequence(t, s) && NoZeros(t) && |t| == NonZeroCount(s)
    ensures t == RemoveZeros(s)
    decreases |s|
  {
    if s != [] {
      assert s == [s[0]] + s[1..];
      assert multiset(s) == multiset{s[0]} + multiset(s[1..]);
      if s[0] == 0 {
        assert IsSubsequence(t, s[1..]);
        RemoveZerosUnique(t, s[1..]);
      } else if t != [] && t[0] == s[0] && IsSubsequence(t[1..], s[1..]) {
        RemoveZerosUnique(t[1..], s[1..]);
        assert t == [t[0]] + t[1..];
      } else {
        ZeroFreeSubsequenceBound(t, s[1..]);
        assert false;
      }
    }
  }

  /** Both directions: a list is `RemoveZeros(s)` exactly when it is the
      nonzero elements of `s`, all of them, in order. */
  lemma RemoveZerosCharacterized(t: seq<int>, s: seq<int>)
    ensures t == RemoveZeros(s) <==> IsSubsequence(t, s) && NoZeros(t) && |t| == NonZeroCount(s)
  {
    if t == RemoveZeros(s) {
      RemoveZerosIsSubsequence(s);
      RemoveZerosLength(s);
    } else if IsSubsequence(t, s) && NoZeros(t) && |t| == NonZeroCount(s) {
      RemoveZerosUnique(t, s);
    }
  }

  /** A list without zeros is left as it is. */
  lemma {:induction false} RemoveZerosOfZeroFree(s: seq<int>)
    requires NoZeros(s)
    ensures RemoveZeros(s) == s
  {
    if s != [] {
      RemoveZerosOfZeroFree(s[1..]);
      assert s == [s[0]] + s[1..];
    }
  }

  /** Removing zeros twice is removing them once. */
  lemma RemoveZerosIdempotent(s: seq<int>)
    ensures RemoveZeros(RemoveZeros(s)) == RemoveZeros(s)
  {
    RemoveZerosOfZeroFree(RemoveZeros(s));
  }

  /** Zero removal works element by element, so it distributes over concatenation. */
  lemma {:induction false} RemoveZerosAppend(a: seq<int>, b: seq<int>)
    ensures RemoveZeros(a + b) == RemoveZeros(a) + RemoveZeros(b)
  {
    if a != [] {
      assert (a + b)[1..] == a[1..] + b;
      RemoveZerosAppend(a[1..], b);
    } else {
      assert a + b == b;
    }
  }

  /** `list(filter(lambda x: x != 0, s))` and `[x for x in s if x != 0]` are the same list. */
  lemma {:induction false} FilterNonZeroIsRemoveZeros(s: seq<int>)
    ensures Filter(x => x != 0, s) == RemoveZeros(s)
    decreases |s|
  {
    if s != [] {
      var init, last := s[..|s| - 1], s[|s| - 1];
      assert s == init + [last];
      FilterNonZeroIsRemoveZeros(init);
      RemoveZerosAppend(init, [last]);
      assert RemoveZeros([last]) == (if last != 0 then [last] else []) + RemoveZeros([]);
    }
  }

  /** `combine_arrays_remove_zeros(arr1, arr2)`: the nonzero elements of `arr1`,
      in order, followed by `arr2` exactly as given (its zeros included). */
  function CombineArraysRemoveZeros(arr1: seq<int>, arr2: seq<int>): (r: seq<int>)
    ensures |r| == NonZeroCount(arr1) + |arr2|
    ensures r[|r| - |arr2|..] == arr2
    ensures NoZeros(r[..|r| - |arr2|])
    ensures IsSubsequence(r[..|r| - |arr2|], arr1)
  {
    RemoveZerosLength(arr1);
    RemoveZerosIsSubsequence(arr1);
    var r := RemoveZeros(arr1) + arr2;
    assert r[..|r| - |arr2|] == RemoveZeros(arr1);
    r
  }

  /** The result holds every element of both lists except the zeros of `arr1`;
      its zeros are exactly those of `arr2`. */
  lemma CombineMultiset(arr1: seq<int>, arr2: seq<int>)
    ensures multiset(CombineArraysRemoveZeros(arr1, arr2)) == multiset(arr1)[0 := 0] + multiset(arr2)
    ensures multiset(CombineArraysRemoveZeros(arr1, arr2))[0] == multiset(arr2)[0]
  {
    RemoveZerosMultiset(arr1);
  }

  /** The properties in the contract above determine the result completely. */
  lemma CombineUnique(arr1: seq<int>, arr2: seq<int>, r: seq<int>)
    requires |r| == NonZeroCount(arr1) + |arr2|
    requires r[|r| - |arr2|..] == arr2
    requires NoZeros(r[..|r| - |arr2|])
    requires IsSubsequence(r[..|r| - |arr2|], arr1)
    ensures r == CombineArraysRemoveZeros(arr1, arr2)
  {
    var k := |r| - |arr2|;
    RemoveZerosUnique(r[..k], arr1);
    assert r == r[..k] + r[k..];
  }

  /** When `arr1` has no zeros the function is plain concatenation. */
  lemma CombineZeroFree(arr1: seq<int>, arr2: seq<int>)
    requires NoZeros(arr1)
    ensures CombineArraysRemoveZeros(arr1, arr2) == arr1 + arr2
  {
    RemoveZerosOfZeroFree(arr1);
  }

  /** Feeding the result's zero-free part back in changes nothing. */
  lemma CombineIdempotent(arr1: seq<int>, arr2: seq<int>)
    ensures CombineArraysRemoveZeros(RemoveZeros(arr1), arr2) == CombineArraysRemoveZeros(arr1, arr2)
  {
    RemoveZerosIdempotent(arr1);
  }

  /** Method 2 of the script, generalised: remove the zeros with `filter`, then concatenate. */
  function CombineByFilter(arr1: seq<int>, arr2: seq<int>): (r: seq<int>)
    ensures r == CombineArraysRemoveZeros(arr1, arr2)
  {
    FilterNonZeroIsRemoveZeros(arr1);
    Filter(x => x != 0, arr1) + arr2
  }

  /** Method 5 of the script, generalised: the combined list, sorted. */
  function CombineSorted(arr1: seq<int>, arr2: seq<int>): (r: seq<int>)
    ensures SortedNonDecreasing(r)
    ensures multiset(r) == multiset(CombineArraysRemoveZeros(arr1, arr2))
    ensures |r| == NonZeroCount(arr1) + |arr2|
  {
    var combined := RemoveZeros(arr1) + arr2;
    SortPermutation(combined);
    RemoveZerosLength(arr1);
    Sort(combined)
  }

  // The script's module-level values.

  /** Example inputs (a list with zeros, a list of numbers). */
  const Array1: seq<int> := [1, 0, 3, 0, 5, 0, 7, 0, 9, 0]
  const Array2: seq<int> := [2, 4, 6, 8, 10]

  /** Method 1: comprehension, then concatenation. */
  const Array1NoZeros: seq<int> := RemoveZeros(Array1)
  const CombinedMethod1: seq<int> := Array1NoZeros + Array2

  /** Method 2: `filter`, then concatenation. */
  const Array1Filtered: seq<int> := Filter(x => x != 0, Array1)
  const CombinedMethod2: seq<int> := Array1Filtered + Array2

  /** Method 4: the one-liner. */
  const CombinedOneLiner: seq<int> := RemoveZeros(Array1) + Array2

  /** Method 5: combined and sorted. */
  const CombinedSorted: seq<int> := Sort(RemoveZeros(Array1) + Array2)

  /** Methods 1, 2 and 4 agree with the reusable function on the script's inputs. */
  lemma ScriptMethodsAgree()
    ensures CombinedMethod1 == CombinedMethod2 == CombinedOneLiner
    ensures CombinedOneLiner == CombineArraysRemoveZeros(Array1, Array2)
  {
    FilterNonZeroIsRemoveZeros(Array1);
  }

  /** The values the script computes with Methods 1 and 4. */
  lemma ScriptCombined()
    ensures Array1NoZeros == [1, 3, 5, 7, 9]
    ensures CombinedMethod1 == CombinedOneLiner == [1, 3, 5, 7, 9, 2, 4, 6, 8, 10]
  {
  }

  /** The value the script computes with Method 5. */
  lemma ScriptSorted()
    ensures CombinedSorted == [1, 2, 3, 4, 5, 6, 7, 8, 9, 10]
  {
    ScriptCombined();
    SortCombined();
  }

  /** Sorting the combined example list, through the uniqueness of sorted rearrangements. */
  lemma SortCombined()
    ensures Sort([1, 3, 5, 7, 9, 2, 4, 6, 8, 10]) == [1, 2, 3, 4, 5, 6, 7, 8, 9, 10]
  {
    CombinedElements();
    SortedElements();
    SortOfPermutation([1, 3, 5, 7, 9, 2, 4, 6, 8, 10], [1, 2, 3, 4, 5, 6, 7, 8, 9, 10]);
  }

  /** The elements of the combined example list. */
  lemma CombinedElements()
    ensures multiset([1, 3, 5, 7, 9, 2, 4, 6, 8, 10]) == multiset{1, 2, 3, 4, 5, 6, 7, 8, 9, 10}
  {
    assert multiset([1, 3, 5, 7, 9, 2, 4, 6, 8, 10]) == multiset{1, 3, 5, 7, 9, 2, 4, 6, 8, 10};
  }

  /** The expected sorted list is sorted and has the same elements. */
  lemma SortedElements()
    ensures SortedNonDecreasing([1, 2, 3, 4, 5, 6, 7, 8, 9, 10])
    ensures multiset([1, 2, 3, 4, 5, 6, 7, 8, 9, 10]) == multiset{1, 2, 3, 4, 5, 6, 7, 8, 9, 10}
  {
  }

  /** The script's test of the reusable function. */
  lemma ReusableFunctionTest()
    ensures CombineArraysRemoveZeros([10, 0, 20, 0, 30, 0], [40, 50, 60]) == [10, 20, 30, 40, 50, 60]
  {
    assert RemoveZeros([10, 0, 20, 0, 30, 0]) == [10, 20, 30];
  }
}
