/**
 * The array operations the pages and the store rely on:
 * `Array.prototype.filter` and `Array.from(new Set(xs))`.
 */
module Lists {

  /** `s.filter(p)`: the elements of `s` that satisfy `p`, in their order. */
  function Filter<T>(s: seq<T>, p: T -> bool): (r: seq<T>)
    ensures |r| <= |s|
    ensures forall i :: 0 <= i < |r| ==> r[i] in s && p(r[i])
    ensures forall i :: 0 <= i < |s| && p(s[i]) ==> s[i] in r
  {
    if s == [] then []
    else if p(s[0]) then [s[0]] + Filter(s[1..], p)
    else Filter(s[1..], p)
  }

  /**
   * The positions from `k` on whose elements satisfy `p`, in increasing
   * order: the reference `Filter` is measured against.
   */
  function Passing<T>(s: seq<T>, p: T -> bool, k: nat): (ix: seq<nat>)
    requires k <= |s|
    ensures forall j :: 0 <= j < |ix| ==> k <= ix[j] < |s| && p(s[ix[j]])
    ensures forall a, b :: 0 <= a < b < |ix| ==> ix[a] < ix[b]
    ensures forall i :: k <= i < |s| && p(s[i]) ==> i in ix
    decreases |s| - k
  {
    if k == |s| then []
    else (if p(s[k]) then [k] else []) + Passing(s, p, k + 1)
  }

  /** The elements of `s` at the positions `ix`, in the order of `ix`. */
  function Pick<T>(s: seq<T>, ix: seq<nat>): (r: seq<T>)
    requires forall j :: 0 <= j < |ix| ==> ix[j] < |s|
    ensures |r| == |ix| && forall j :: 0 <= j < |r| ==> r[j] == s[ix[j]]
  {
    if ix == [] then [] else [s[ix[0]]] + Pick(s, ix[1..])
  }

  /**
   * `Filter` is the subsequence of the passing positions: its j-th element
   * sits at the j-th passing position, so order and multiplicity are kept.
   */
  lemma {:induction false} FilterIsSubsequence<T>(s: seq<T>, p: T -> bool, k: nat)
    requires k <= |s|
    ensures Filter(s[k..], p) == Pick(s, Passing(s, p, k))
    decreases |s| - k
  {
    if k < |s| {
      FilterIsSubsequence(s, p, k + 1);
      assert s[k..][1..] == s[k + 1..];
      assert s[k..][0] == s[k];
      var tail := Passing(s, p, k + 1);
      if p(s[k]) {
        assert Passing(s, p, k) == [k] + tail;
        assert ([k] + tail)[1..] == tail;
      } else {
        assert Passing(s, p, k) == tail;
      }
    }
  }

  /** Filtering a concatenation filters each part and keeps the parts in order. */
  lemma {:induction false} FilterAppend<T>(a: seq<T>, b: seq<T>, p: T -> bool)
    ensures Filter(a + b, p) == Filter(a, p) + Filter(b, p)
  {
    if a == [] {
      assert a + b == b;
    } else {
      assert (a + b)[1..] == a[1..] + b;
      FilterAppend(a[1..], b, p);
    }
  }

  /** When every element passes, filtering is the identity. */
  lemma {:induction false} FilterKeepsAll<T>(s: seq<T>, p: T -> bool)
    requires forall x :: x in s ==> p(x)
    ensures Filter(s, p) == s
  {
    if s != [] {
      FilterKeepsAll(s[1..], p);
    }
  }

  /** When no element passes, filtering yields nothing. */
  lemma {:induction false} FilterDropsAll<T>(s: seq<T>, p: T -> bool)
    requires forall x :: x in s ==> !p(x)
    ensures Filter(s, p) == []
  {
    if s != [] {
      FilterDropsAll(s[1..], p);
    }
  }

  /** Filtering with `p` and with its negation splits `s` without losing or duplicating anything. */
  lemma {:induction false} FilterPartition<T>(s: seq<T>, p: T -> bool)
    ensures multiset(Filter(s, p)) + multiset(Filter(s, x => !p(x))) == multiset(s)
  {
    if s != [] {
      FilterPartition(s[1..], p);
      assert s == [s[0]] + s[1..];
    }
  }

  ghost predicate NoDuplicates<T>(s: seq<T>)
  {
    forall i, j :: 0 <= i < j < |s| ==> s[i] != s[j]
  }

  /** The position of the first occurrence of `x` in `s`. */
  function FirstIndex<T(==)>(s: seq<T>, x: T): (k: nat)
    requires x in s
    ensures k < |s| && s[k] == x
    ensures forall j :: 0 <= j < k ==> s[j] != x
  {
    if s[0] == x then 0 else 1 + FirstIndex(s[1..], x)
  }

  /**
   * `Array.from(new Set(s))`: one copy of each element, in the order in
   * which a `Set` fed left to right first sees them.
   */
  function Distinct<T(==)>(s: seq<T>): (r: seq<T>)
    ensures forall i :: 0 <= i < |r| ==> r[i] in s
    ensures forall i :: 0 <= i < |s| ==> s[i] in r
    ensures NoDuplicates(r)
  {
    if s == [] then []
    else
      var d := Distinct(s[..|s| - 1]);
      var x := s[|s| - 1];
      if x in d then d else d + [x]
  }

  lemma FirstIndexInPrefix<T>(s: seq<T>, n: nat, x: T)
    requires n <= |s| && x in s[..n]
    ensures FirstIndex(s, x) == FirstIndex(s[..n], x)
  {
    var k := FirstIndex(s[..n], x);
    assert s[k] == x;
    var m := FirstIndex(s, x);
    assert m <= k;
    assert s[..n][m] == x;
  }

  /** `Distinct` keeps first-seen order: earlier elements were seen first. */
  lemma {:induction false} DistinctFirstSeenOrder<T>(s: seq<T>, i: nat, j: nat)
    requires i < j < |Distinct(s)|
    ensures FirstIndex(s, Distinct(s)[i]) < FirstIndex(s, Distinct(s)[j])
  {
    var n := |s| - 1;
    var pre := s[..n];
    var d := Distinct(pre);
    var r := Distinct(s);
    if s[n] in d {
      assert r == d;
      DistinctFirstSeenOrder(pre, i, j);
      FirstIndexInPrefix(s, n, r[i]);
      FirstIndexInPrefix(s, n, r[j]);
    } else {
      assert r == d + [s[n]];
      FirstIndexInPrefix(s, n, r[i]);
      if j < |d| {
        DistinctFirstSeenOrder(pre, i, j);
        FirstIndexInPrefix(s, n, r[j]);
      } else {
        assert r[j] == s[n] && r[j] !in pre;
        assert FirstIndex(s, r[j]) == n;
      }
    }
  }

  /** `Distinct` leaves a list that already has no duplicates unchanged. */
  lemma {:induction false} DistinctOfDistinct<T>(s: seq<T>)
    requires NoDuplicates(s)
    ensures Distinct(s) == s
  {
    if s != [] {
      var n := |s| - 1;
      DistinctOfDistinct(s[..n]);
      assert s[n] !in s[..n];
      assert s[..n] + [s[n]] == s;
    }
  }
}
