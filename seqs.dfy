/** Order-preserving filtering of a sequence: Python's `[x for x in s if p(x)]`
    and JavaScript's `s.filter(p)`. */
module Seqs {

  /** The elements of `s` that satisfy `p`, in the order `s` has them. */
  function Filter<T>(s: seq<T>, p: T -> bool): (r: seq<T>)
    ensures |r| <= |s|
    ensures forall i :: 0 <= i < |r| ==> r[i] in s && p(r[i])
    ensures forall i :: 0 <= i < |s| && p(s[i]) ==> s[i] in r
    ensures multiset(r) <= multiset(s)
  {
    if s == [] then []
    else
      var init := s[..|s| - 1];
      assert s == init + [s[|s| - 1]];
      Filter(init, p) + if p(s[|s| - 1]) then [s[|s| - 1]] else []
  }

  /** The filter keeps every copy of a value that passes and no copy of one
      that fails, so its result is fixed up to order by `s` and `p`. */
  lemma {:induction false} FilterCounts<T>(s: seq<T>, p: T -> bool, x: T)
    ensures multiset(Filter(s, p))[x] == if p(x) then multiset(s)[x] else 0
  {
    if s != [] {
      var init, last := s[..|s| - 1], s[|s| - 1];
      assert s == init + [last];
      assert multiset(s) == multiset(init) + multiset{last};
      FilterCounts(init, p, x);
    }
  }

  /** Filtering distributes over concatenation, so filtering keeps the order of
      the input: what passes from an earlier part comes before what passes from
      a later part. */
  lemma {:induction false} FilterAppend<T>(a: seq<T>, b: seq<T>, p: T -> bool)
    ensures Filter(a + b, p) == Filter(a, p) + Filter(b, p)
    decreases |b|
  {
    if b == [] {
      assert a + b == a;
    } else {
      var c, x := b[..|b| - 1], b[|b| - 1];
      var tail := if p(x) then [x] else [];
      assert b == c + [x];
      assert a + b == (a + c) + [x];
      calc {
        Filter(a + b, p);
        { FilterSnoc(a + c, x, p); }
        Filter(a + c, p) + tail;
        { FilterAppend(a, c, p); }
        (Filter(a, p) + Filter(c, p)) + tail;
        Filter(a, p) + (Filter(c, p) + tail);
        { FilterSnoc(c, x, p); }
        Filter(a, p) + Filter(b, p);
      }
    }
  }

  /** Filtering a sequence extended by one element extends the filtered
      sequence by that element exactly when the element passes. */
  lemma FilterSnoc<T>(s: seq<T>, x: T, p: T -> bool)
    ensures Filter(s + [x], p) == Filter(s, p) + if p(x) then [x] else []
  {
    assert (s + [x])[..|s + [x]| - 1] == s;
  }

  /** A filter that rejects nothing returns its input unchanged. */
  lemma {:induction false} FilterAll<T>(s: seq<T>, p: T -> bool)
    requires forall i :: 0 <= i < |s| ==> p(s[i])
    ensures Filter(s, p) == s
  {
    if s != [] {
      var init := s[..|s| - 1];
      assert s == init + [s[|s| - 1]];
      FilterAll(init, p);
    }
  }
}
