/** Order-preserving filtering of sequences: the common shape of the
    boolean-mask filters, list comprehensions and `dropna` calls of the
    rent advisor. */
module Seqs {

  /** The elements of `s` that satisfy `p`, in their original order. */
  function Filter<T>(s: seq<T>, p: T -> bool): (r: seq<T>)
    ensures |r| <= |s|
    ensures forall i :: 0 <= i < |r| ==> p(r[i])
  {
    if s == [] then []
    else (if p(s[0]) then [s[0]] else []) + Filter(s[1..], p)
  }

  /** The concatenation of what `g` yields for each element, in order
      (a loop that extends one list per element). */
  function Concat<T(!new), R>(s: seq<T>, g: T --> seq<R>): (r: seq<R>)
    requires forall x :: g.requires(x)
  {
    if s == [] then [] else g(s[0]) + Concat(s[1..], g)
  }

  /** Concatenating over `a + b` is concatenating over `a`, then over `b`. */
  lemma {:induction false} ConcatAppend<T(!new), R>(a: seq<T>, b: seq<T>, g: T --> seq<R>)
    requires forall x :: g.requires(x)
    ensures Concat(a + b, g) == Concat(a, g) + Concat(b, g)
  {
    if a == [] {
      assert a + b == b;
    } else {
      assert (a + b)[1..] == a[1..] + b;
      ConcatAppend(a[1..], b, g);
    }
  }

  /** When `g` yields `[h(x)]` for the elements satisfying `p` and nothing
      for the others, concatenating over `s` maps `h` over the filtered `s`. */
  lemma {:induction false} ConcatFilter<T(!new), R>(s: seq<T>, g: T --> seq<R>, p: T -> bool, h: T --> R)
    requires forall x :: g.requires(x) && h.requires(x)
    requires forall x :: g(x) == if p(x) then [h(x)] else []
    ensures |Concat(s, g)| == |Filter(s, p)|
    ensures forall i :: 0 <= i < |Filter(s, p)| ==> Concat(s, g)[i] == h(Filter(s, p)[i])
  {
    if s != [] {
      ConcatFilter(s[1..], g, p, h);
      var all, rest := Concat(s, g), Concat(s[1..], g);
      var kept, keptRest := Filter(s, p), Filter(s[1..], p);
      if p(s[0]) {
        assert all == [h(s[0])] + rest && kept == [s[0]] + keptRest;
        forall i | 1 <= i < |kept| ensures all[i] == h(kept[i]) {
          assert all[i] == rest[i - 1] && kept[i] == keptRest[i - 1];
        }
      } else {
        assert all == rest && kept == keptRest;
      }
    }
  }

  /** `t` can be obtained from `s` by deleting elements: same relative order. */
  ghost predicate IsSubsequence<T>(t: seq<T>, s: seq<T>)
    decreases |s|
  {
    t == [] ||
    (s != [] &&
     ((t[0] == s[0] && IsSubsequence(t[1..], s[1..])) || IsSubsequence(t, s[1..])))
  }

  /** Filtering distributes over concatenation. */
  lemma {:induction false} FilterAppend<T>(a: seq<T>, b: seq<T>, p: T -> bool)
    ensures Filter(a + b, p) == Filter(a, p) + Filter(b, p)
  {
    if a != [] {
      assert (a + b)[0] == a[0];
      assert (a + b)[1..] == a[1..] + b;
      FilterAppend(a[1..], b, p);
    } else {
      assert a + b == b;
    }
  }

  /** "No more and no fewer": every value occurs in the result exactly as
      often as in the input when it satisfies `p`, and never otherwise. */
  lemma {:induction false} FilterMultiset<T>(s: seq<T>, p: T -> bool)
    ensures forall x :: multiset(Filter(s, p))[x] == if p(x) then multiset(s)[x] else 0
  {
    if s != [] {
      FilterMultiset(s[1..], p);
      assert s == [s[0]] + s[1..];
    }
  }

  /** Membership in the result, both directions. */
  lemma FilterMembership<T>(s: seq<T>, p: T -> bool, x: T)
    ensures x in Filter(s, p) <==> x in s && p(x)
  {
    FilterMultiset(s, p);
    assert x in Filter(s, p) <==> multiset(Filter(s, p))[x] > 0;
  }

  /** The result keeps the input's order. */
  lemma {:induction false} FilterIsSubsequence<T>(s: seq<T>, p: T -> bool)
    ensures IsSubsequence(Filter(s, p), s)
  {
    if s != [] {
      FilterIsSubsequence(s[1..], p);
      if p(s[0]) {
        assert Filter(s, p) == [s[0]] + Filter(s[1..], p);
        assert Filter(s, p)[1..] == Filter(s[1..], p);
      } else {
        assert Filter(s, p) == Filter(s[1..], p);
      }
    }
  }

  /** When every element passes, the filter changes nothing. */
  lemma {:induction false} FilterAll<T>(s: seq<T>, p: T -> bool)
    requires forall i :: 0 <= i < |s| ==> p(s[i])
    ensures Filter(s, p) == s
  {
    if s != [] {
      FilterAll(s[1..], p);
    }
  }

  /** Two predicates that agree on the elements give the same filter. */
  lemma {:induction false} FilterCongruent<T>(s: seq<T>, p: T -> bool, q: T -> bool)
    requires forall i :: 0 <= i < |s| ==> p(s[i]) == q(s[i])
    ensures Filter(s, p) == Filter(s, q)
  {
    if s != [] {
      FilterCongruent(s[1..], p, q);
    }
  }
}
