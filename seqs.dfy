/**
 * Sequence operations the stores are built from: `Array.prototype.filter`, the first document a
 * `findOne` query meets, and a stable sort by an integer key (the `order` option of `find` and
 * `Array.prototype.sort`).
 */
module Seqs {
  import opened Outcomes

  /** The elements of `s` that satisfy `p`, in their original order. */
  function Filter<T(!new)>(s: seq<T>, p: T -> bool): (r: seq<T>)
    ensures |r| <= |s|
    ensures forall x :: multiset(r)[x] == if p(x) then multiset(s)[x] else 0
    ensures forall x :: x in r <==> x in s && p(x)
  {
    if s == [] then []
    else
      assert s == [s[0]] + s[1..];
      (if p(s[0]) then [s[0]] else []) + Filter(s[1..], p)
  }

  /** The position of the first element of `s` that satisfies `p`. */
  function FirstIndex<T>(s: seq<T>, p: T -> bool): (r: Option<nat>)
    ensures r.None? <==> forall i :: 0 <= i < |s| ==> !p(s[i])
    ensures r.Some? ==> r.value < |s| && p(s[r.value]) && forall j :: 0 <= j < r.value ==> !p(s[j])
  {
    if s == [] then None
    else if p(s[0]) then Some(0)
    else match FirstIndex(s[1..], p)
      case None => None
      case Some(i) => Some(i + 1)
  }

  /** The first element of `s` that satisfies `p`: what a `findOne` query returns. */
  function Find<T(!new)>(s: seq<T>, p: T -> bool): (r: Option<T>)
    ensures r.None? <==> forall x :: x in s ==> !p(x)
    ensures r.Some? ==> r.value in s && p(r.value)
  {
    match FirstIndex(s, p)
    case None => None
    case Some(i) => Some(s[i])
  }

  /** Two predicates that agree everywhere find the same element. */
  lemma {:induction false} FindCongruent<T(!new)>(s: seq<T>, p: T -> bool, q: T -> bool)
    requires forall x :: p(x) == q(x)
    ensures Find(s, p) == Find(s, q)
    ensures FirstIndex(s, p) == FirstIndex(s, q)
  {
    if s != [] {
      FindCongruent(s[1..], p, q);
    }
  }

  /** Searching a concatenation searches the front first. */
  lemma {:induction false} FirstIndexAppend<T>(s: seq<T>, t: seq<T>, p: T -> bool)
    ensures FirstIndex(s + t, p) ==
      match FirstIndex(s, p)
      case Some(i) => Some(i)
      case None => match FirstIndex(t, p) { case None => None case Some(j) => Some(|s| + j) }
  {
    if s != [] {
      assert (s + t)[1..] == s[1..] + t;
      FirstIndexAppend(s[1..], t, p);
    } else {
      assert s + t == t;
    }
  }

  /** Sequences on which `p` gives the same answers position by position have the same first match. */
  lemma {:induction false} FirstIndexSameAnswers<T>(s: seq<T>, t: seq<T>, p: T -> bool)
    requires |s| == |t|
    requires forall i :: 0 <= i < |s| ==> p(s[i]) == p(t[i])
    ensures FirstIndex(s, p) == FirstIndex(t, p)
  {
    if s != [] {
      FirstIndexSameAnswers(s[1..], t[1..], p);
    }
  }

  /** `s` is in non-decreasing order of `key`. */
  predicate SortedBy<T>(s: seq<T>, key: T -> int) {
    forall i, j :: 0 <= i < j < |s| ==> key(s[i]) <= key(s[j])
  }

  /** Places `x` in the sorted `s` before the first element whose key is not smaller. */
  function Insert<T>(x: T, s: seq<T>, key: T -> int): (r: seq<T>)
    requires SortedBy(s, key)
    ensures SortedBy(r, key)
    ensures multiset(r) == multiset(s) + multiset{x}
  {
    if s == [] || key(x) <= key(s[0]) then [x] + s
    else
      assert s == [s[0]] + s[1..];
      var rest := Insert(x, s[1..], key);
      LowerBound(s[0], rest, multiset(s[1..]) + multiset{x}, key);
      PrependSorted(s[0], rest, key);
      [s[0]] + rest
  }

  /** Every element of `t` drawn from `m` has a key of at least `key(b)` when every element of `m` has. */
  lemma LowerBound<T>(b: T, t: seq<T>, m: multiset<T>, key: T -> int)
    requires multiset(t) == m
    requires forall y :: y in m ==> key(b) <= key(y)
    ensures forall k :: 0 <= k < |t| ==> key(b) <= key(t[k])
  {
    forall k | 0 <= k < |t| ensures key(b) <= key(t[k]) {
      assert t[k] in multiset(t);
    }
  }

  lemma PrependSorted<T>(b: T, t: seq<T>, key: T -> int)
    requires SortedBy(t, key)
    requires forall k :: 0 <= k < |t| ==> key(b) <= key(t[k])
    ensures SortedBy([b] + t, key)
  {
  }

  /** A stable sort of `s` into non-decreasing order of `key`. */
  function SortBy<T>(s: seq<T>, key: T -> int): (r: seq<T>)
    ensures SortedBy(r, key)
    ensures multiset(r) == multiset(s)
  {
    if s == [] then []
    else
      assert s == [s[0]] + s[1..];
      Insert(s[0], SortBy(s[1..], key), key)
  }
}
