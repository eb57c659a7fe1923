/** Subsequences: what a lossy but order-preserving channel delivers. */
module Subsequence {

  /** a is obtained from b by deleting elements. */
  ghost predicate Subseq<T>(a: seq<T>, b: seq<T>)
    decreases |b|
  {
    if b == [] then a == []
    else Subseq(a, b[..|b| - 1]) ||
         (a != [] && a[|a| - 1] == b[|b| - 1] && Subseq(a[..|a| - 1], b[..|b| - 1]))
  }

  lemma SubseqSnoc<T>(a: seq<T>, b: seq<T>, x: T)
    requires Subseq(a, b)
    ensures Subseq(a, b + [x]) && Subseq(a + [x], b + [x])
  {
    assert (b + [x])[..|b|] == b && (a + [x])[..|a|] == a;
  }

  lemma {:induction false} EmptySubseq<T>(b: seq<T>)
    ensures Subseq([], b)
    decreases |b|
  {
    if b != [] {
      EmptySubseq(b[..|b| - 1]);
    }
  }

  lemma {:induction false} SubseqInit<T>(a: seq<T>, b: seq<T>)
    requires Subseq(a, b) && a != []
    ensures Subseq(a[..|a| - 1], b)
    decreases |b|
  {
    if Subseq(a, b[..|b| - 1]) {
      SubseqInit(a, b[..|b| - 1]);
    }
  }

  lemma {:induction false} SubseqPrefix<T>(a: seq<T>, n: nat, b: seq<T>)
    requires Subseq(a, b) && n <= |a|
    ensures Subseq(a[..n], b)
    decreases |a|
  {
    if n == |a| {
      assert a[..n] == a;
    } else {
      SubseqInit(a, b);
      SubseqPrefix(a[..|a| - 1], n, b);
      assert a[..|a| - 1][..n] == a[..n];
    }
  }

  lemma {:induction false} SubseqTrans<T>(a: seq<T>, b: seq<T>, c: seq<T>)
    requires Subseq(a, b) && Subseq(b, c)
    ensures Subseq(a, c)
    decreases |c|
  {
    if c == [] {
    } else if Subseq(b, c[..|c| - 1]) {
      SubseqTrans(a, b, c[..|c| - 1]);
    } else if Subseq(a, b[..|b| - 1]) {
      SubseqTrans(a, b[..|b| - 1], c[..|c| - 1]);
    } else {
      SubseqTrans(a[..|a| - 1], b[..|b| - 1], c[..|c| - 1]);
    }
  }

  lemma {:induction false} SubseqMember<T>(a: seq<T>, b: seq<T>, x: T)
    requires Subseq(a, b) && x in a
    ensures x in b
    decreases |b|
  {
    if Subseq(a, b[..|b| - 1]) {
      SubseqMember(a, b[..|b| - 1], x);
    } else if x != a[|a| - 1] {
      assert x in a[..|a| - 1];
      SubseqMember(a[..|a| - 1], b[..|b| - 1], x);
    }
  }

  /** The elements satisfying p, in order. */
  function Select<T>(p: T -> bool, s: seq<T>): seq<T> {
    if s == [] then []
    else Select(p, s[..|s| - 1]) + (if p(s[|s| - 1]) then [s[|s| - 1]] else [])
  }

  lemma SelectSnoc<T>(p: T -> bool, s: seq<T>, x: T)
    ensures Select(p, s + [x]) == Select(p, s) + (if p(x) then [x] else [])
  {
    assert (s + [x])[..|s|] == s;
  }

  lemma {:induction false} SelectConcat<T>(p: T -> bool, a: seq<T>, b: seq<T>)
    ensures Select(p, a + b) == Select(p, a) + Select(p, b)
    decreases |b|
  {
    if b == [] {
      assert a + b == a;
    } else {
      var init, x := b[..|b| - 1], b[|b| - 1];
      assert b == init + [x] && a + b == (a + init) + [x];
      SelectSnoc(p, a + init, x);
      SelectSnoc(p, init, x);
      SelectConcat(p, a, init);
    }
  }

  lemma {:induction false} SelectMember<T>(p: T -> bool, s: seq<T>, x: T)
    ensures x in Select(p, s) <==> x in s && p(x)
    decreases |s|
  {
    if s != [] {
      var init, y := s[..|s| - 1], s[|s| - 1];
      assert s == init + [y];
      SelectMember(p, init, x);
    }
  }

  /** Only the values on the elements matter. */
  lemma {:induction false} SelectAgree<T>(p: T -> bool, q: T -> bool, s: seq<T>)
    requires forall x :: x in s ==> p(x) == q(x)
    ensures Select(p, s) == Select(q, s)
    decreases |s|
  {
    if s != [] {
      var init, x := s[..|s| - 1], s[|s| - 1];
      assert x in s && forall y :: y in init ==> y in s;
      SelectAgree(p, q, init);
    }
  }

  lemma {:induction false} SelectAll<T>(p: T -> bool, s: seq<T>)
    requires forall x :: x in s ==> p(x)
    ensures Select(p, s) == s
    decreases |s|
  {
    if s != [] {
      var init, x := s[..|s| - 1], s[|s| - 1];
      assert s == init + [x] && x in s;
      hide Select;
      SelectAll(p, init);
      SelectSnoc(p, init, x);
    }
  }

  lemma SelectAround<T>(p: T -> bool, before: seq<T>, x: T, after: seq<T>)
    requires !p(x) && forall y :: y in before || y in after ==> p(y)
    ensures Select(p, before + [x] + after) == before + after
  {
    hide Select;
    SelectAll(p, before);
    SelectAll(p, after);
    SelectSnoc(p, before, x);
    SelectConcat(p, before + [x], after);
  }

  /** Selecting twice is selecting once by both. */
  lemma {:induction false} SelectSelect<T>(p: T -> bool, q: T -> bool, both: T -> bool, s: seq<T>)
    requires forall x :: x in s ==> both(x) == (p(x) && q(x))
    ensures Select(q, Select(p, s)) == Select(both, s)
    decreases |s|
  {
    if s != [] {
      var init, x := s[..|s| - 1], s[|s| - 1];
      assert x in s && forall y :: y in init ==> y in s;
      SelectSelect(p, q, both, init);
      if p(x) {
        SelectSnoc(q, Select(p, init), x);
      } else {
        assert Select(p, s) == Select(p, init);
      }
    }
  }

  /** Selecting from a subsequence gives a subsequence. */
  lemma {:induction false} SelectSubseq<T>(p: T -> bool, a: seq<T>, b: seq<T>)
    requires Subseq(a, b)
    ensures Subseq(Select(p, a), Select(p, b))
    decreases |b|
  {
    if b != [] {
      var init, x := b[..|b| - 1], b[|b| - 1];
      assert !p(x) ==> Select(p, b) == Select(p, init);
      if Subseq(a, init) {
        SelectSubseq(p, a, init);
        SubseqSnoc(Select(p, a), Select(p, init), x);
      } else {
        SelectSubseq(p, a[..|a| - 1], init);
        assert !p(x) ==> Select(p, a) == Select(p, a[..|a| - 1]);
        SubseqSnoc(Select(p, a[..|a| - 1]), Select(p, init), x);
      }
    }
  }

  lemma {:induction false} SelectIsSubseq<T>(p: T -> bool, s: seq<T>)
    ensures Subseq(Select(p, s), s)
    decreases |s|
  {
    if s != [] {
      var init, x := s[..|s| - 1], s[|s| - 1];
      SelectIsSubseq(p, init);
      SubseqSnoc(Select(p, init), init, x);
      SelectSnoc(p, init, x);
      assert s == init + [x] && Select(p, init) + [] == Select(p, init);
    }
  }
}
