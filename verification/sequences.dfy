/** Order-preserving selection over sequences: the shape shared by every
    `Array.prototype.filter` in the system. */
module Sequences {

  /** `a` can be obtained from `b` by deleting elements, keeping the order. */
  predicate IsSubsequence<T(==)>(a: seq<T>, b: seq<T>)
    decreases |b|
  {
    if |a| == 0 then true
    else if |b| == 0 then false
    else if a[0] == b[0] then IsSubsequence(a[1..], b[1..])
    else IsSubsequence(a, b[1..])
  }

  /** The elements of `s` that satisfy `keep`, in their original order. */
  function Filter<T>(s: seq<T>, keep: T -> bool): (r: seq<T>)
    ensures |r| <= |s|
    ensures forall i :: 0 <= i < |r| ==> keep(r[i])
    ensures forall x :: x in r ==> x in s
  {
    if |s| == 0 then []
    else if keep(s[0]) then [s[0]] + Filter(s[1..], keep)
    else Filter(s[1..], keep)
  }

  /** Every selected element of the input is kept. */
  lemma {:induction false} FilterKeeps<T>(s: seq<T>, keep: T -> bool, x: T)
    requires x in s && keep(x)
    ensures x in Filter(s, keep)
  {
    if s[0] != x {
      FilterKeeps(s[1..], keep, x);
    }
  }

  /** The number of elements of `s` that satisfy `p`. */
  function Count<T>(s: seq<T>, p: T -> bool): (n: nat)
    ensures n <= |s|
  {
    if |s| == 0 then 0 else (if p(s[0]) then 1 else 0) + Count(s[1..], p)
  }

  lemma {:induction false} SubsequenceOfSelf<T>(s: seq<T>)
    ensures IsSubsequence(s, s)
  {
    if |s| > 0 { SubsequenceOfSelf(s[1..]); }
  }

  /** A filter keeps exactly the selected elements: it is a subsequence of
      its input and has as many elements as the input has selected ones. */
  lemma {:induction false} FilterIsSubsequence<T>(s: seq<T>, keep: T -> bool)
    ensures IsSubsequence(Filter(s, keep), s)
    ensures |Filter(s, keep)| == Count(s, keep)
  {
    if |s| > 0 {
      FilterIsSubsequence(s[1..], keep);
      var r := Filter(s[1..], keep);
      if keep(s[0]) {
        assert Filter(s, keep) == [s[0]] + r;
        assert ([s[0]] + r)[1..] == r;
      }
    }
  }

  /** A filter that selects everything is the identity. */
  lemma {:induction false} FilterAll<T>(s: seq<T>, keep: T -> bool)
    requires forall i :: 0 <= i < |s| ==> keep(s[i])
    ensures Filter(s, keep) == s
  {
    if |s| > 0 {
      FilterAll(s[1..], keep);
      assert [s[0]] + s[1..] == s;
    }
  }

  /** Filtering twice with the same selection changes nothing more. */
  lemma {:induction false} FilterIdempotent<T>(s: seq<T>, keep: T -> bool)
    ensures Filter(Filter(s, keep), keep) == Filter(s, keep)
  {
    FilterAll(Filter(s, keep), keep);
  }

  /** Filtering by `p` then by `q` is filtering by both. */
  lemma {:induction false} FilterFilter<T>(s: seq<T>, p: T -> bool, q: T -> bool)
    ensures Filter(Filter(s, p), q) == Filter(s, x => p(x) && q(x))
  {
    if |s| > 0 {
      FilterFilter(s[1..], p, q);
      if p(s[0]) {
        assert Filter(s, p) == [s[0]] + Filter(s[1..], p);
        assert (Filter(s, p))[1..] == Filter(s[1..], p);
      }
    }
  }

  /** An element is kept exactly when it is in the input and selected. */
  lemma FilterMembers<T>(s: seq<T>, keep: T -> bool, x: T)
    ensures x in Filter(s, keep) <==> x in s && keep(x)
  {
    if x in s && keep(x) {
      FilterKeeps(s, keep, x);
    }
    if x in Filter(s, keep) {
      var r := Filter(s, keep);
      var i :| 0 <= i < |r| && r[i] == x;
    }
  }

  /** Counting over a prefix one element longer adds that element's vote. */
  lemma {:induction false} CountSnoc<T>(s: seq<T>, p: T -> bool, i: nat)
    requires i < |s|
    ensures Count(s[..i + 1], p) == Count(s[..i], p) + (if p(s[i]) then 1 else 0)
  {
    if i > 0 {
      CountSnoc(s[1..], p, i - 1);
      assert s[..i + 1][1..] == s[1..][..i];
      assert s[..i][1..] == s[1..][..i - 1];
    }
  }

  /** Two selections that agree on every element filter alike. */
  lemma {:induction false} FilterSameSelection<T>(s: seq<T>, p: T -> bool, q: T -> bool)
    requires forall x :: p(x) == q(x)
    ensures Filter(s, p) == Filter(s, q)
  {
    if |s| > 0 {
      FilterSameSelection(s[1..], p, q);
    }
  }

  /** A filter by `p` applied when `onP`, then one by `q` applied when
      `onQ`, is one filter by the conditions that are switched on. */
  lemma TwoFiltersAsOne<T>(s: seq<T>, onP: bool, p: T -> bool, onQ: bool, q: T -> bool, both: T -> bool)
    requires forall x :: both(x) == ((!onP || p(x)) && (!onQ || q(x)))
    ensures (var a := if onP then Filter(s, p) else s; if onQ then Filter(a, q) else a) == Filter(s, both)
  {
    if onP && onQ {
      FilterFilter(s, p, q);
      FilterSameSelection(s, x => p(x) && q(x), both);
    } else if onP {
      FilterSameSelection(s, p, both);
    } else if onQ {
      FilterSameSelection(s, q, both);
    } else {
      FilterAll(s, both);
    }
  }
}
