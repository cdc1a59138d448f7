/** The `Array.prototype` methods the store is built from (`findIndex`, `find`,
    `filter`), over immutable sequences. */
module JsArrays {
  import opened JsValues

  /** `s.findIndex(p)`: the first index whose element satisfies `p`, or -1. */
  function FindIndex<T>(s: seq<T>, p: T -> bool): (r: int)
    ensures -1 <= r < |s|
    ensures r >= 0 ==> p(s[r]) && forall j :: 0 <= j < r ==> !p(s[j])
    ensures r == -1 <==> forall j :: 0 <= j < |s| ==> !p(s[j])
  {
    if s == [] then -1
    else if p(s[0]) then 0
    else
      var k := FindIndex(s[1..], p);
      if k == -1 then -1 else k + 1
  }

  /** `i` is the first index of `s` whose element satisfies `p`. */
  predicate IsFirst<T>(s: seq<T>, i: int, p: T -> bool)
  {
    0 <= i < |s| && p(s[i]) && forall j :: 0 <= j < i ==> !p(s[j])
  }

  /** The first index satisfying `p` is the one `findIndex` returns. */
  lemma FindIndexIsFirst<T>(s: seq<T>, p: T -> bool)
    ensures forall i :: IsFirst(s, i, p) <==> i >= 0 && i == FindIndex(s, p)
  {
    forall i | IsFirst(s, i, p) ensures i == FindIndex(s, p) {
      var k := FindIndex(s, p);
      assert k >= 0 by {
        assert p(s[i]);
      }
    }
  }

  /** `s.find(p)`: the first element satisfying `p`, or `undefined`. */
  function Find<T>(s: seq<T>, p: T -> bool): (r: Option<T>)
    ensures r.None? <==> forall j :: 0 <= j < |s| ==> !p(s[j])
    ensures r.Some? ==> exists i :: IsFirst(s, i, p) && r.value == s[i]
  {
    var i := FindIndex(s, p);
    if i == -1 then None
    else
      assert IsFirst(s, i, p);
      Some(s[i])
  }

  /** `a` is `b` with some elements left out, the rest in their order. */
  ghost predicate Subsequence<T>(a: seq<T>, b: seq<T>)
    decreases |b|
  {
    if a == [] then true
    else if b == [] then false
    else (a[0] == b[0] && Subsequence(a[1..], b[1..])) || Subsequence(a, b[1..])
  }

  /** `s.filter(p)`: exactly the elements satisfying `p`, in the order of `s`. */
  function Filter<T(!new)>(s: seq<T>, p: T -> bool): (r: seq<T>)
    ensures Subsequence(r, s)
    ensures forall x :: x in r <==> x in s && p(x)
  {
    if s == [] then []
    else if p(s[0]) then
      var t := Filter(s[1..], p);
      assert s == [s[0]] + s[1..];
      [s[0]] + t
    else
      assert s == [s[0]] + s[1..];
      Filter(s[1..], p)
  }

  /** `filter` keeps each passing element as often as the input holds it and
      drops every other one. */
  lemma {:induction false} FilterCounts<T(!new)>(s: seq<T>, p: T -> bool, x: T)
    ensures multiset(Filter(s, p))[x] == if p(x) then multiset(s)[x] else 0
  {
    if s != [] {
      FilterCounts(s[1..], p, x);
      assert s == [s[0]] + s[1..];
    }
  }

  /** Filtering a sequence none of whose elements fails the test is a no-op. */
  lemma {:induction false} FilterKeepsAll<T(!new)>(s: seq<T>, p: T -> bool)
    requires forall j :: 0 <= j < |s| ==> p(s[j])
    ensures Filter(s, p) == s
  {
    if s != [] {
      FilterKeepsAll(s[1..], p);
    }
  }

  /** Filtering distributes over concatenation, so it keeps relative order. */
  lemma {:induction false} FilterConcat<T(!new)>(a: seq<T>, b: seq<T>, p: T -> bool)
    ensures Filter(a + b, p) == Filter(a, p) + Filter(b, p)
  {
    if a != [] {
      var ab := a + b;
      assert ab[0] == a[0] && ab[1..] == a[1..] + b;
      FilterConcat(a[1..], b, p);
      assert Filter(ab, p) == (if p(a[0]) then [a[0]] else []) + Filter(a[1..] + b, p);
      assert Filter(a, p) == (if p(a[0]) then [a[0]] else []) + Filter(a[1..], p);
    } else {
      assert a + b == b;
    }
  }

  /** Filtering twice with the same test is filtering once. */
  lemma {:induction false} FilterIdempotent<T(!new)>(s: seq<T>, p: T -> bool)
    ensures Filter(Filter(s, p), p) == Filter(s, p)
  {
    var r := Filter(s, p);
    forall j | 0 <= j < |r| ensures p(r[j]) {
      assert r[j] in r;
    }
    FilterKeepsAll(r, p);
  }

  /** Appending an element after a prefix in which nothing satisfies `p`:
      `findIndex` lands on the appended element. */
  lemma {:induction false} FindIndexAppend<T>(s: seq<T>, x: T, p: T -> bool)
    requires forall j :: 0 <= j < |s| ==> !p(s[j])
    requires p(x)
    ensures FindIndex(s + [x], p) == |s|
  {
    var t := s + [x];
    if s != [] {
      assert t[1..] == s[1..] + [x];
      FindIndexAppend(s[1..], x, p);
    }
  }

  /** Appending an element keeps the first match of an earlier element. */
  lemma {:induction false} FindIndexAppendKeeps<T>(s: seq<T>, x: T, p: T -> bool)
    requires FindIndex(s, p) >= 0
    ensures FindIndex(s + [x], p) == FindIndex(s, p)
  {
    var t := s + [x];
    if !p(s[0]) {
      assert t[1..] == s[1..] + [x];
      FindIndexAppendKeeps(s[1..], x, p);
    }
  }

  /** `filter` keeps nothing exactly when `findIndex` finds nothing. */
  lemma FilterEmptyIffNone<T(!new)>(s: seq<T>, p: T -> bool)
    ensures Filter(s, p) == [] <==> FindIndex(s, p) == -1
  {
    var r := Filter(s, p);
    var i := FindIndex(s, p);
    if i >= 0 {
      assert s[i] in r;
    }
  }

  /** Removing the element at `i` that satisfies `p` lowers the number of
      elements satisfying `p` by exactly one. */
  lemma RemoveAtCount<T(!new)>(s: seq<T>, i: nat, p: T -> bool)
    requires i < |s| && p(s[i])
    ensures |Filter(s[..i] + s[i + 1..], p)| == |Filter(s, p)| - 1
    ensures |Filter(s, p)| == 1 ==> FindIndex(s[..i] + s[i + 1..], p) == -1
  {
    FilterEmptyIffNone(s[..i] + s[i + 1..], p);
    assert s == s[..i] + [s[i]] + s[i + 1..];
    FilterConcat(s[..i] + [s[i]], s[i + 1..], p);
    FilterConcat(s[..i], [s[i]], p);
    FilterConcat(s[..i], s[i + 1..], p);
  }
}
