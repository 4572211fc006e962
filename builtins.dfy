/**
 * The two Python built-ins the array script relies on, over lists of integers:
 * `list(filter(pred, xs))` and `sorted(xs)`.
 */
module Builtins {

  /** `list(filter(p, s))`: the elements of `s` that satisfy `p`, in their order.
      Written back to front (the last element is decided on first), so that its
      agreement with a front-to-back list comprehension is a theorem, not a definition. */
  function Filter(p: int -> bool, s: seq<int>): (r: seq<int>)
    ensures |r| <= |s|
    ensures forall i :: 0 <= i < |r| ==> p(r[i])
    ensures forall x :: x in r ==> x in s
    ensures forall x :: x in s && p(x) ==> x in r
    decreases |s|
  {
    if s == [] then []
    else
      var init, last := s[..|s| - 1], s[|s| - 1];
      assert s == init + [last];
      Filter(p, init) + (if p(last) then [last] else [])
  }

  /** Non-decreasing order, the order `sorted` produces for integers. */
  predicate SortedNonDecreasing(s: seq<int>) {
    forall i, j :: 0 <= i < j < |s| ==> s[i] <= s[j]
  }

  /** Places `x` into the sorted list `s`; the result starts with `x` or with
      the old head, whichever is smaller. */
  function Insert(x: int, s: seq<int>): (r: seq<int>)
    requires SortedNonDecreasing(s)
    ensures SortedNonDecreasing(r)
    ensures |r| == |s| + 1
    ensures r[0] == x || (s != [] && r[0] == s[0])
  {
    if s == [] then [x]
    else if x <= s[0] then [x] + s
    else [s[0]] + Insert(x, s[1..])
  }

  /** Inserting adds exactly one occurrence of `x`. */
  lemma {:induction false} InsertPermutation(x: int, s: seq<int>)
    requires SortedNonDecreasing(s)
    ensures multiset(Insert(x, s)) == multiset(s) + multiset{x}
  {
    if s != [] && x > s[0] {
      InsertPermutation(x, s[1..]);
      assert s == [s[0]] + s[1..];
    }
  }

  /** `sorted(s)`: a non-decreasing list of the same length as `s`. */
  function Sort(s: seq<int>): (r: seq<int>)
    ensures SortedNonDecreasing(r)
    ensures |r| == |s|
  {
    if s == [] then [] else Insert(s[0], Sort(s[1..]))
  }

  /** `sorted(s)` rearranges `s`: same elements, same number of times. */
  lemma {:induction false} SortPermutation(s: seq<int>)
    ensures multiset(Sort(s)) == multiset(s)
  {
    if s != [] {
      SortPermutation(s[1..]);
      InsertPermutation(s[0], Sort(s[1..]));
      assert s == [s[0]] + s[1..];
    }
  }

  /** A list of integers has exactly one non-decreasing rearrangement, so `Sort`
      is `sorted` whatever algorithm the interpreter uses. */
  lemma {:induction false} SortedPermutationUnique(a: seq<int>, b: seq<int>)
    requires SortedNonDecreasing(a) && SortedNonDecreasing(b)
    requires multiset(a) == multiset(b)
    ensures a == b
  {
    assert |a| == |multiset(a)| == |multiset(b)| == |b|;
    if a != [] {
      assert a[0] in multiset(b);
      assert b[0] in multiset(a);
      assert a[0] == b[0];
      assert a == [a[0]] + a[1..];
      assert b == [b[0]] + b[1..];
      assert multiset(a) == multiset{a[0]} + multiset(a[1..]);
      assert multiset(b) == multiset{b[0]} + multiset(b[1..]);
      assert multiset(a[1..]) == multiset(a) - multiset{a[0]};
      assert multiset(b[1..]) == multiset(b) - multiset{b[0]};
      SortedPermutationUnique(a[1..], b[1..]);
    }
  }

  /** Anything sorted that has the same elements as `s` is `Sort(s)`. */
  lemma SortOfPermutation(s: seq<int>, r: seq<int>)
    requires SortedNonDecreasing(r) && multiset(r) == multiset(s)
    ensures Sort(s) == r
  {
    SortPermutation(s);
    SortedPermutationUnique(r, Sort(s));
  }

  /** Both directions: `Sort(s)` is exactly the sorted rearrangement of `s`. */
  lemma SortCharacterized(s: seq<int>, r: seq<int>)
    ensures r == Sort(s) <==> SortedNonDecreasing(r) && multiset(r) == multiset(s)
  {
    SortPermutation(s);
    if SortedNonDecreasing(r) && multiset(r) == multiset(s) {
      SortOfPermutation(s, r);
    }
  }
}
