/** Sequence operations the app applies to its lists: `Array.prototype.filter`
    and a stable sort by an integer key. */
module Seqs {

  /** `a` is `b` with some elements deleted: `a` keeps `b`'s order. */
  predicate IsSubseq<T(==,!new)>(a: seq<T>, b: seq<T>)
    decreases |b|
  {
    if |a| == 0 then true
    else if |b| == 0 then false
    else (a[0] == b[0] && IsSubseq(a[1..], b[1..])) || IsSubseq(a, b[1..])
  }

  /** Every sequence is a subsequence of itself. */
  lemma {:induction false} SubseqReflexive<T(!new)>(a: seq<T>)
    ensures IsSubseq(a, a)
  {
    if |a| > 0 {
      SubseqReflexive(a[1..]);
    }
  }

  lemma {:induction false} SubseqTransitive<T(!new)>(a: seq<T>, b: seq<T>, c: seq<T>)
    requires IsSubseq(a, b) && IsSubseq(b, c)
    ensures IsSubseq(a, c)
    decreases |c|
  {
    if |a| == 0 {
    } else if b[0] == c[0] && IsSubseq(b[1..], c[1..]) {
      if a[0] == b[0] && IsSubseq(a[1..], b[1..]) {
        SubseqTransitive(a[1..], b[1..], c[1..]);
      } else {
        SubseqTransitive(a, b[1..], c[1..]);
      }
    } else {
      SubseqTransitive(a, b, c[1..]);
    }
  }

  /** Every element of a subsequence is an element of the whole. */
  lemma {:induction false} SubseqMembers<T(!new)>(a: seq<T>, b: seq<T>)
    requires IsSubseq(a, b)
    ensures forall x :: x in a ==> x in b
    decreases |b|
  {
    if |a| == 0 {
    } else if a[0] == b[0] && IsSubseq(a[1..], b[1..]) {
      SubseqMembers(a[1..], b[1..]);
      assert forall x :: x in a ==> x == a[0] || x in a[1..];
      assert forall x :: x in b[1..] ==> x in b;
    } else {
      SubseqMembers(a, b[1..]);
      assert forall x :: x in b[1..] ==> x in b;
    }
  }

  /** `s.filter(p)`: the elements satisfying `p`, each as often as in `s`,
      in their original order. */
  function Filter<T(==,!new)>(s: seq<T>, p: T -> bool): (r: seq<T>)
    ensures IsSubseq(r, s)
    ensures forall x :: multiset(r)[x] == if p(x) then multiset(s)[x] else 0
    ensures forall x :: x in r <==> x in s && p(x)
  {
    if |s| == 0 then []
    else
      var rest := Filter(s[1..], p);
      assert s == [s[0]] + s[1..];
      if p(s[0]) then [s[0]] + rest else rest
  }

  /** Keeping the elements that satisfy `p` a second time removes nothing. */
  lemma {:induction false} FilterIdempotent<T(!new)>(s: seq<T>, p: T -> bool)
    ensures Filter(Filter(s, p), p) == Filter(s, p)
  {
    if |s| > 0 {
      FilterIdempotent(s[1..], p);
      if p(s[0]) {
        assert ([s[0]] + Filter(s[1..], p))[1..] == Filter(s[1..], p);
      }
    }
  }

  /** A filter every element passes returns the list itself. */
  lemma {:induction false} FilterKeepsAll<T(!new)>(s: seq<T>, p: T -> bool)
    requires forall k :: 0 <= k < |s| ==> p(s[k])
    ensures Filter(s, p) == s
  {
    if |s| > 0 {
      FilterKeepsAll(s[1..], p);
      assert s == [s[0]] + s[1..];
    }
  }

  predicate SortedBy<T>(s: seq<T>, key: T -> int)
  {
    forall i, j :: 0 <= i < j < |s| ==> key(s[i]) <= key(s[j])
  }

  /** Puts `x` in front of the first element whose key is not smaller. */
  function InsertBy<T(==,!new)>(x: T, s: seq<T>, key: T -> int): (r: seq<T>)
    requires SortedBy(s, key)
    ensures SortedBy(r, key)
    ensures multiset(r) == multiset(s) + multiset{x}
  {
    if |s| == 0 || key(x) <= key(s[0]) then [x] + s
    else
      var rest := InsertBy(x, s[1..], key);
      assert s == [s[0]] + s[1..];
      LowerBound(s[0], rest, s[1..], x, key);
      [s[0]] + rest
  }

  /** Prepending an element whose key bounds those of a sorted permutation
      of `tail + [x]` keeps it sorted. */
  lemma LowerBound<T(!new)>(a: T, rest: seq<T>, tail: seq<T>, x: T, key: T -> int)
    requires SortedBy(rest, key) && multiset(rest) == multiset(tail) + multiset{x}
    requires key(a) <= key(x) && forall k :: 0 <= k < |tail| ==> key(a) <= key(tail[k])
    ensures SortedBy([a] + rest, key)
  {
    forall j | 0 <= j < |rest|
      ensures key(a) <= key(rest[j])
    {
      assert rest[j] in multiset(rest);
      assert rest[j] == x || rest[j] in tail;
    }
  }

  /** A stable sort of `s` ascending by `key`. */
  function SortBy<T(==,!new)>(s: seq<T>, key: T -> int): (r: seq<T>)
    ensures SortedBy(r, key)
    ensures multiset(r) == multiset(s)
  {
    if |s| == 0 then []
    else
      assert s == [s[0]] + s[1..];
      InsertBy(s[0], SortBy(s[1..], key), key)
  }

  /** Sorting a list that is already sorted returns it unchanged; hence
      sorting twice is sorting once. */
  lemma {:induction false} SortSorted<T(!new)>(s: seq<T>, key: T -> int)
    requires SortedBy(s, key)
    ensures SortBy(s, key) == s
  {
    if |s| > 0 {
      assert SortedBy(s[1..], key);
      SortSorted(s[1..], key);
      assert s == [s[0]] + s[1..];
    }
  }
}
