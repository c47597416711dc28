// Generic list operations the client applies with Array.prototype.filter,
// Array.prototype.map and `new Set(...)`, with what each one promises.
module Seqs {

  /** `a` can be obtained from `b` by deleting elements (greedy leftmost matching). */
  ghost predicate IsSubsequence<T>(a: seq<T>, b: seq<T>)
    decreases |b|
  {
    a == [] || (b != [] && if a[0] == b[0] then IsSubsequence(a[1..], b[1..]) else IsSubsequence(a, b[1..]))
  }

  /** The elements of `s` that satisfy `keep`, in their original order. */
  function Filter<T>(s: seq<T>, keep: T -> bool): (r: seq<T>)
    ensures |r| <= |s|
  {
    if s == [] then []
    else if keep(s[0]) then [s[0]] + Filter(s[1..], keep)
    else Filter(s[1..], keep)
  }

  /** Filtering keeps the order of what it keeps (a subsequence) and keeps
      every copy of each kept element and no copy of the others. */
  lemma {:induction false} FilterSelects<T>(s: seq<T>, keep: T -> bool)
    ensures IsSubsequence(Filter(s, keep), s)
    ensures forall x | x in s :: multiset(Filter(s, keep))[x] == if keep(x) then multiset(s)[x] else 0
  {
    if s != [] {
      FilterSelects(s[1..], keep);
      FilterMembers(s[1..], keep);
      var r := Filter(s, keep);
      assert s == [s[0]] + s[1..];
      if keep(s[0]) {
        assert r[1..] == Filter(s[1..], keep);
      }
    }
  }

  /** An element survives the filter exactly when it is in the input and is kept. */
  lemma {:induction false} FilterMembers<T>(s: seq<T>, keep: T -> bool)
    ensures forall x :: x in Filter(s, keep) <==> x in s && keep(x)
  {
    if s != [] {
      FilterMembers(s[1..], keep);
      assert s == [s[0]] + s[1..];
    }
  }

  /** Filtering distributes over concatenation. */
  lemma {:induction false} FilterConcat<T>(s: seq<T>, t: seq<T>, keep: T -> bool)
    ensures Filter(s + t, keep) == Filter(s, keep) + Filter(t, keep)
  {
    if s == [] {
      assert s + t == t;
    } else {
      FilterConcat(s[1..], t, keep);
      assert (s + t)[1..] == s[1..] + t;
      assert (s + t)[0] == s[0];
      if keep(s[0]) {
        calc {
          Filter(s + t, keep);
          [s[0]] + Filter(s[1..] + t, keep);
          [s[0]] + (Filter(s[1..], keep) + Filter(t, keep));
          ([s[0]] + Filter(s[1..], keep)) + Filter(t, keep);
        }
      }
    }
  }

  /** Applying `f` to each element, as Array.prototype.map does. */
  function Map<T, U>(s: seq<T>, f: T -> U): (r: seq<U>)
    ensures |r| == |s| && forall i :: 0 <= i < |s| ==> r[i] == f(s[i])
  {
    seq(|s|, i requires 0 <= i < |s| => f(s[i]))
  }

  /** A filter that rejects nothing returns its input. */
  lemma {:induction false} FilterKeepsAll<T>(s: seq<T>, keep: T -> bool)
    requires forall i :: 0 <= i < |s| ==> keep(s[i])
    ensures Filter(s, keep) == s
  {
    if s != [] {
      FilterKeepsAll(s[1..], keep);
    }
  }

  /** Two filters in sequence are one filter by the conjunction. */
  lemma {:induction false} FilterFilter<T>(s: seq<T>, f: T -> bool, g: T -> bool, both: T -> bool)
    requires forall x :: both(x) == (f(x) && g(x))
    ensures Filter(Filter(s, f), g) == Filter(s, both)
  {
    if s != [] {
      FilterFilter(s[1..], f, g, both);
      if f(s[0]) {
        assert Filter(s, f) == [s[0]] + Filter(s[1..], f);
        assert (Filter(s, f))[1..] == Filter(s[1..], f);
      }
    }
  }

  /** Position of the first occurrence of `x` in `s`. */
  function FirstIndex<T(==)>(s: seq<T>, x: T): (i: nat)
    requires x in s
    ensures i < |s| && s[i] == x && x !in s[..i]
  {
    if s[0] == x then 0
    else
      assert x in s[1..];
      var j := FirstIndex(s[1..], x);
      assert s[..j + 1] == [s[0]] + s[1..][..j];
      j + 1
  }

  /** An element found in a prefix is first found at the same place in the whole. */
  lemma FirstIndexInPrefix<T>(s: seq<T>, n: nat, x: T)
    requires n <= |s| && x in s[..n]
    ensures x in s && FirstIndex(s, x) == FirstIndex(s[..n], x)
  {
    var i := FirstIndex(s[..n], x);
    assert s[..n][..i] == s[..i];
    var j := FirstIndex(s, x);
    assert forall k :: 0 <= k < i ==> s[k] in s[..i];
    assert forall k :: 0 <= k < j ==> s[k] in s[..j];
  }

  /** The distinct elements of `s`, each once, in order of first appearance
      (what `Array.from(new Set(s))` yields). */
  function Distinct<T(==)>(s: seq<T>): (r: seq<T>)
    ensures forall x | x in r :: x in s
    ensures forall x | x in s :: x in r
    ensures forall i, j :: 0 <= i < j < |r| ==> r[i] != r[j]
    ensures forall i, j :: 0 <= i < j < |r| ==> FirstIndex(s, r[i]) < FirstIndex(s, r[j])
  {
    if s == [] then []
    else
      var n := |s| - 1;
      var d := Distinct(s[..n]);
      assert s == s[..n] + [s[n]];
      forall x | x in d ensures x in s && FirstIndex(s, x) == FirstIndex(s[..n], x) < n {
        FirstIndexInPrefix(s, n, x);
      }
      if s[n] in d then d
      else
        assert FirstIndex(s, s[n]) == n;
        d + [s[n]]
  }
}
