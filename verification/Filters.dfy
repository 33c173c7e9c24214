/** Filtering and summing sequences, and what of it depends only on the multiset of elements. */
module Filters {

  function Filter<T>(p: T -> bool, s: seq<T>): seq<T> {
    if s == [] then []
    else
      var front, x := s[..|s| - 1], s[|s| - 1];
      if p(x) then Filter(p, front) + [x] else Filter(p, front)
  }

  /** One more element, as a loop over `s` sees it. */
  lemma FilterStep<T>(p: T -> bool, s: seq<T>, i: nat)
    requires i < |s|
    ensures Filter(p, s[..i + 1]) == Filter(p, s[..i]) + (if p(s[i]) then [s[i]] else [])
  {
    assert s[..i + 1][..i] == s[..i];
  }

  lemma {:induction false} FilterMembers<T(!new)>(p: T -> bool, s: seq<T>)
    ensures forall x :: x in Filter(p, s) <==> x in s && p(x)
  {
    if s != [] {
      FilterMembers(p, s[..|s| - 1]);
      assert s == s[..|s| - 1] + [s[|s| - 1]];
    }
  }

  lemma {:induction false} FilterCounts<T>(p: T -> bool, s: seq<T>, x: T)
    ensures multiset(Filter(p, s))[x] == if p(x) then multiset(s)[x] else 0
  {
    if s != [] {
      var front := s[..|s| - 1];
      FilterCounts(p, front, x);
      assert s == front + [s[|s| - 1]];
    }
  }

  lemma {:induction false} FilterExt<T(!new)>(p: T -> bool, q: T -> bool, s: seq<T>)
    requires forall x :: x in s ==> p(x) == q(x)
    ensures Filter(p, s) == Filter(q, s)
  {
    if s != [] { FilterExt(p, q, s[..|s| - 1]); }
  }

  lemma FilterAll<T(!new)>(p: T -> bool, s: seq<T>)
    requires forall x :: x in s ==> p(x)
    ensures Filter(p, s) == s
  {
    if s != [] {
      FilterAll(p, s[..|s| - 1]);
      assert s == s[..|s| - 1] + [s[|s| - 1]];
    }
  }

  lemma FilterNone<T(!new)>(p: T -> bool, s: seq<T>)
    requires forall x :: x in s ==> !p(x)
    ensures Filter(p, s) == []
  {
    if s != [] { FilterNone(p, s[..|s| - 1]); }
  }

  lemma {:induction false} FilterConcat<T>(p: T -> bool, a: seq<T>, b: seq<T>)
    ensures Filter(p, a + b) == Filter(p, a) + Filter(p, b)
  {
    if b == [] {
      assert a + b == a;
    } else {
      var front := b[..|b| - 1];
      assert (a + b)[..|a + b| - 1] == a + front;
      FilterConcat(p, a, front);
    }
  }

  function Both<T>(p: T -> bool, q: T -> bool): T -> bool {
    (x: T) => p(x) && q(x)
  }

  /** Two filters in a row are one. */
  lemma {:induction false} FilterTwice<T>(p: T -> bool, q: T -> bool, s: seq<T>)
    ensures Filter(p, Filter(q, s)) == Filter(Both(p, q), s)
  {
    if s != [] {
      var front, x := s[..|s| - 1], s[|s| - 1];
      FilterTwice(p, q, front);
      if q(x) { FilterConcat(p, Filter(q, front), [x]); }
    }
  }

  /** Two filters leave the same sequence exactly when they agree on every element. */
  lemma FiltersAgreeIff<T(!new)>(p: T -> bool, q: T -> bool, s: seq<T>)
    ensures Filter(p, s) == Filter(q, s) <==> forall x :: x in s ==> p(x) == q(x)
  {
    if Filter(p, s) == Filter(q, s) {
      FilterMembers(p, s);
      FilterMembers(q, s);
      forall x | x in s ensures p(x) == q(x) {
        assert x in Filter(p, s) <==> x in Filter(q, s);
      }
    } else if forall x :: x in s ==> p(x) == q(x) {
      FilterExt(p, q, s);
    }
  }

  function Sum<T>(f: T -> real, s: seq<T>): real {
    if s == [] then 0.0 else Sum(f, s[..|s| - 1]) + f(s[|s| - 1])
  }

  lemma {:induction false} SumConcat<T>(f: T -> real, a: seq<T>, b: seq<T>)
    ensures Sum(f, a + b) == Sum(f, a) + Sum(f, b)
  {
    if b == [] {
      assert a + b == a;
    } else {
      assert (a + b)[..|a + b| - 1] == a + b[..|b| - 1];
      SumConcat(f, a, b[..|b| - 1]);
    }
  }

  lemma CancelOne<T>(a: multiset<T>, b: multiset<T>, x: T)
    requires a + multiset{x} == b + multiset{x}
    ensures a == b
  {
    assert a == (a + multiset{x}) - multiset{x};
    assert b == (b + multiset{x}) - multiset{x};
  }

  /** A sum does not depend on the order of its terms. */
  lemma {:induction false} SumPermutation<T>(f: T -> real, a: seq<T>, b: seq<T>)
    requires multiset(a) == multiset(b)
    ensures Sum(f, a) == Sum(f, b)
    decreases |a|
  {
    if a == [] {
      assert |multiset(b)| == 0;
    } else {
      var front, x := a[..|a| - 1], a[|a| - 1];
      assert a == front + [x];
      assert x in multiset(b);
      var k :| 0 <= k < |b| && b[k] == x;
      var l, r := b[..k], b[k + 1..];
      assert b == l + [x] + r;
      calc {
        multiset(front) + multiset{x};
        multiset(a);
        multiset(l) + multiset{x} + multiset(r);
        multiset(l + r) + multiset{x};
      }
      CancelOne(multiset(front), multiset(l + r), x);
      SumPermutation(f, front, l + r);
      SumConcat(f, l, r);
      SumConcat(f, l, [x]);
      SumConcat(f, l + [x], r);
    }
  }
}
