/** Sequence operations behind the scripts' list building: a filter (a list
    comprehension with an `if`) and the concatenation of pages (repeated
    `extend`). Both are defined from the back, the way the scripts' loops
    append. */
module Seqs {

  function Filter<T>(s: seq<T>, p: T -> bool): (r: seq<T>)
    ensures |r| <= |s|
  {
    if s == [] then []
    else Filter(s[..|s| - 1], p) + (if p(s[|s| - 1]) then [s[|s| - 1]] else [])
  }

  function Flatten<T>(pages: seq<seq<T>>): seq<T> {
    if pages == [] then [] else Flatten(pages[..|pages| - 1]) + pages[|pages| - 1]
  }

  /** `a` is obtained from `b` by deleting elements, keeping the order of the rest. */
  ghost predicate SubSeq<T>(a: seq<T>, b: seq<T>)
    decreases |b|
  {
    if a == [] then true
    else if b == [] then false
    else (a[|a| - 1] == b[|b| - 1] && SubSeq(a[..|a| - 1], b[..|b| - 1])) || SubSeq(a, b[..|b| - 1])
  }

  /** One more element examined extends the filtered prefix by at most that element. */
  lemma FilterSnoc<T>(s: seq<T>, i: nat, p: T -> bool)
    requires i < |s|
    ensures Filter(s[..i + 1], p) == Filter(s[..i], p) + (if p(s[i]) then [s[i]] else [])
  {
    assert s[..i + 1][..i] == s[..i];
  }

  /** One more page read extends the concatenation by that page. */
  lemma FlattenSnoc<T>(pages: seq<seq<T>>, i: nat)
    requires i < |pages|
    ensures Flatten(pages[..i + 1]) == Flatten(pages[..i]) + pages[i]
  {
    assert pages[..i + 1][..i] == pages[..i];
  }

  lemma FlattenAppend<T>(pages: seq<seq<T>>, last: seq<T>)
    ensures Flatten(pages + [last]) == Flatten(pages) + last
  {
    assert (pages + [last])[..|pages|] == pages;
  }

  lemma {:induction false} FlattenConcat<T>(a: seq<seq<T>>, b: seq<seq<T>>)
    ensures Flatten(a + b) == Flatten(a) + Flatten(b)
    decreases |b|
  {
    if b == [] {
      assert a + b == a;
    } else {
      var b' := b[..|b| - 1];
      assert (a + b)[..|a + b| - 1] == a + b';
      assert (a + b)[|a + b| - 1] == b[|b| - 1];
      calc {
        Flatten(a + b);
        Flatten(a + b') + b[|b| - 1];
        { FlattenConcat(a, b'); }
        Flatten(a) + Flatten(b') + b[|b| - 1];
        Flatten(a) + Flatten(b);
      }
    }
  }

  lemma {:induction false} FlattenLength<T>(pages: seq<seq<T>>, i: nat)
    requires i <= |pages|
    ensures |Flatten(pages[..i])| <= |Flatten(pages)|
    ensures Flatten(pages[..i]) == Flatten(pages)[..|Flatten(pages[..i])|]
  {
    assert pages == pages[..i] + pages[i..];
    FlattenConcat(pages[..i], pages[i..]);
  }

  /** An element survives the filter exactly when it was there and passes the test. */
  lemma {:induction false} FilterMembership<T>(s: seq<T>, p: T -> bool, x: T)
    ensures x in Filter(s, p) <==> x in s && p(x)
  {
    if s != [] {
      var s' := s[..|s| - 1];
      FilterMembership(s', p, x);
      assert s == s' + [s[|s| - 1]];
    }
  }

  /** Every survivor of the filter was there and passes the test. */
  lemma FilterSound<T>(s: seq<T>, p: T -> bool)
    ensures forall x :: x in Filter(s, p) ==> x in s && p(x)
  {
    forall x | x in Filter(s, p)
      ensures x in s && p(x)
    {
      FilterMembership(s, p, x);
    }
  }

  /** Filtering only deletes elements and keeps the survivors in their order. */
  lemma {:induction false} FilterIsSubSeq<T>(s: seq<T>, p: T -> bool)
    ensures SubSeq(Filter(s, p), s)
  {
    if s != [] {
      var s' := s[..|s| - 1];
      FilterIsSubSeq(s', p);
      var f := Filter(s, p);
      if p(s[|s| - 1]) {
        assert f[..|f| - 1] == Filter(s', p);
      } else {
        assert f == Filter(s', p);
        if f != [] {
          assert SubSeq(f, s');
        }
      }
    }
  }

  /** A filter whose test every element passes changes nothing. */
  lemma {:induction false} FilterKeepsAll<T>(s: seq<T>, p: T -> bool)
    requires forall i :: 0 <= i < |s| ==> p(s[i])
    ensures Filter(s, p) == s
  {
    if s != [] {
      FilterKeepsAll(s[..|s| - 1], p);
    }
  }

  /** Filtering twice is filtering once by both tests. */
  lemma {:induction false} FilterFilter<T>(s: seq<T>, p: T -> bool, q: T -> bool, pq: T -> bool)
    requires forall x :: pq(x) == (p(x) && q(x))
    ensures Filter(Filter(s, p), q) == Filter(s, pq)
  {
    if s != [] {
      var s' := s[..|s| - 1];
      FilterFilter(s', p, q, pq);
      var x := s[|s| - 1];
      var f := Filter(s, p);
      if p(x) {
        assert f[..|f| - 1] == Filter(s', p);
        assert f[|f| - 1] == x;
      } else {
        assert f == Filter(s', p);
      }
    }
  }
}
