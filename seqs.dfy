/** Order-preserving filtering (a list comprehension with an `if`) and the
    stable sort behind Python's `list.sort(key=...)`. */
module Seqs {

  /** `[x for x in s if p(x)]`. */
  function Filter<T>(s: seq<T>, p: T -> bool): (r: seq<T>)
    ensures |r| <= |s|
    ensures forall i :: 0 <= i < |r| ==> p(r[i])
    ensures forall i :: 0 <= i < |s| && p(s[i]) ==> s[i] in r
  {
    if s == [] then []
    else
      var init, last := s[..|s| - 1], s[|s| - 1];
      assert s == init + [last];
      Filter(init, p) + if p(last) then [last] else []
  }

  /** The prefix one longer is the prefix extended by the next element. */
  lemma TakeSnoc<T>(s: seq<T>, i: nat)
    requires i < |s|
    ensures s[..i + 1] == s[..i] + [s[i]]
  {
  }

  /** Filtering one more element at the end extends the result by that
      element exactly when it is kept. */
  lemma FilterSnoc<T>(s: seq<T>, x: T, p: T -> bool)
    ensures Filter(s + [x], p) == Filter(s, p) + if p(x) then [x] else []
  {
    assert (s + [x])[..|s|] == s;
  }

  /** Filtering twice by the same test is filtering once. */
  lemma {:induction false} FilterIdempotent<T>(s: seq<T>, p: T -> bool)
    ensures Filter(Filter(s, p), p) == Filter(s, p)
  {
    if s != [] {
      var init, last := s[..|s| - 1], s[|s| - 1];
      FilterIdempotent(init, p);
      assert Filter(s, p) == Filter(init, p) + if p(last) then [last] else [];
      if p(last) {
        FilterSnoc(Filter(init, p), last, p);
      } else {
        assert Filter(s, p) == Filter(init, p);
      }
    }
  }

  /** Filtering a concatenation filters each part. */
  lemma {:induction false} FilterAppend<T>(a: seq<T>, b: seq<T>, p: T -> bool)
    ensures Filter(a + b, p) == Filter(a, p) + Filter(b, p)
  {
    if b != [] {
      var init, last := b[..|b| - 1], b[|b| - 1];
      FilterAppend(a, init, p);
      assert a + b == (a + init) + [last];
      FilterSnoc(a + init, last, p);
      FilterSnoc(init, last, p);
      assert b == init + [last];
    } else {
      assert a + b == a;
    }
  }

  /** What is kept passes the test and was there before. */
  lemma {:induction false} FilterMember<T>(s: seq<T>, p: T -> bool, x: T)
    requires x in Filter(s, p)
    ensures p(x) && x in s
  {
    var init, last := s[..|s| - 1], s[|s| - 1];
    assert s == init + [last];
    if x != last {
      FilterMember(init, p, x);
    }
  }

  /** Nothing is kept when no element passes the test. */
  lemma FilterNone<T>(s: seq<T>, p: T -> bool)
    requires forall i :: 0 <= i < |s| ==> !p(s[i])
    ensures Filter(s, p) == []
  {
    if Filter(s, p) != [] {
      FilterMember(s, p, Filter(s, p)[0]);
    }
  }

  /** Sequences with the same elements contain the same values. */
  lemma SameElements<T>(a: seq<T>, b: seq<T>, x: T)
    requires multiset(a) == multiset(b)
    ensures x in a <==> x in b
  {
    assert x in a <==> x in multiset(a);
  }

  /** The negation of a test. */
  function Complement<T>(p: T -> bool): T -> bool {
    x => !p(x)
  }

  /** The elements kept by a test and those kept by its negation account
      for every element exactly once. */
  lemma {:induction false} FilterPartition<T>(s: seq<T>, p: T -> bool)
    ensures |Filter(s, p)| + |Filter(s, Complement(p))| == |s|
  {
    if s != [] {
      FilterPartition(s[..|s| - 1], p);
    }
  }

  /** `lt` is a strict order: irreflexive and transitive. */
  ghost predicate StrictOrder<T(!new)>(lt: (T, T) -> bool) {
    && (forall x :: !lt(x, x))
    && (forall x, y, z :: lt(x, y) && lt(y, z) ==> lt(x, z))
  }

  /** `lt` is a strict weak order: a strict order under which being tied
      (neither smaller than the other) is an equivalence.  Comparing by a
      sort key gives one. */
  ghost predicate StrictWeakOrder<T(!new)>(lt: (T, T) -> bool) {
    && StrictOrder(lt)
    && (forall x, y, z {:trigger lt(x, y), lt(y, z)} :: !lt(x, y) && !lt(y, z) ==> !lt(x, z))
  }

  /** The elements tied with `e`: neither is smaller than the other. */
  function Ties<T>(lt: (T, T) -> bool, e: T): T -> bool {
    y => !lt(y, e) && !lt(e, y)
  }

  /** No element is strictly smaller than one before it. */
  ghost predicate SortedBy<T>(s: seq<T>, lt: (T, T) -> bool) {
    forall i, j :: 0 <= i < j < |s| ==> !lt(s[j], s[i])
  }

  /** Puts `x` before the first element strictly greater than it, that is,
      after every element it is not smaller than. */
  function InsertBy<T>(x: T, s: seq<T>, lt: (T, T) -> bool): (r: seq<T>)
    ensures |r| == |s| + 1
    ensures multiset(r) == multiset(s) + multiset{x}
  {
    if s == [] then [x]
    else if lt(x, s[0]) then [x] + s
    else
      assert s == [s[0]] + s[1..];
      [s[0]] + InsertBy(x, s[1..], lt)
  }

  /** A stable insertion sort: the later of two equivalent elements stays
      after the earlier one. */
  function SortBy<T>(s: seq<T>, lt: (T, T) -> bool): (r: seq<T>)
    ensures multiset(r) == multiset(s)
    ensures |r| == |s|
  {
    if s == [] then []
    else
      assert s == s[..|s| - 1] + [s[|s| - 1]];
      InsertBy(s[|s| - 1], SortBy(s[..|s| - 1], lt), lt)
  }

  lemma {:induction false} InsertBySorted<T(!new)>(x: T, s: seq<T>, lt: (T, T) -> bool)
    requires StrictOrder(lt) && SortedBy(s, lt)
    ensures SortedBy(InsertBy(x, s, lt), lt)
  {
    if s != [] && !lt(x, s[0]) {
      var tail := InsertBy(x, s[1..], lt);
      InsertBySorted(x, s[1..], lt);
      forall k | 0 <= k < |tail|
        ensures !lt(tail[k], s[0])
      {
        assert tail[k] in multiset(s[1..]) + multiset{x};
        if tail[k] != x {
          assert tail[k] in s[1..];
        }
      }
    }
  }

  lemma {:induction false} SortBySorted<T(!new)>(s: seq<T>, lt: (T, T) -> bool)
    requires StrictOrder(lt)
    ensures SortedBy(SortBy(s, lt), lt)
  {
    if s != [] {
      SortBySorted(s[..|s| - 1], lt);
      InsertBySorted(s[|s| - 1], SortBy(s[..|s| - 1], lt), lt);
    }
  }

  /** Filtering keeps an ordered sequence ordered. */
  lemma {:induction false} FilterKeepsSorted<T>(s: seq<T>, p: T -> bool, lt: (T, T) -> bool)
    requires SortedBy(s, lt)
    ensures SortedBy(Filter(s, p), lt)
  {
    if s != [] {
      var init, last := s[..|s| - 1], s[|s| - 1];
      assert SortedBy(init, lt);
      FilterKeepsSorted(init, p, lt);
      var r := Filter(init, p);
      if p(last) {
        forall i | 0 <= i < |r|
          ensures !lt(last, r[i])
        {
          FilterMember(init, p, r[i]);
          var k :| 0 <= k < |init| && init[k] == r[i];
          assert s[k] == r[i];
        }
      }
    }
  }

  /** Every element of a sorted sequence whose first element is greater
      than something tied with `e` is greater than `e` too. */
  lemma NoTiesAfterGreater<T(!new)>(x: T, s: seq<T>, lt: (T, T) -> bool, e: T)
    requires StrictWeakOrder(lt) && SortedBy(s, lt)
    requires s != [] && lt(x, s[0]) && Ties(lt, e)(x)
    ensures Filter(s, Ties(lt, e)) == []
  {
    forall j | 0 <= j < |s|
      ensures !Ties(lt, e)(s[j])
    {
      var y, first := s[j], s[0];
      assert !lt(y, first);
      assert !lt(x, y) && !lt(y, first) ==> !lt(x, first);
      assert !lt(x, e) && !lt(e, y) ==> !lt(x, y);
    }
    FilterNone(s, Ties(lt, e));
  }

  /** Inserting in front of a sorted sequence whose elements are all
      greater: the new element ends up after its ties, of which there are
      none. */
  lemma InsertByTiesFront<T(!new)>(x: T, s: seq<T>, lt: (T, T) -> bool, e: T)
    requires StrictWeakOrder(lt) && SortedBy(s, lt)
    requires s == [] || lt(x, s[0])
    ensures Filter(InsertBy(x, s, lt), Ties(lt, e)) ==
      Filter(s, Ties(lt, e)) + if Ties(lt, e)(x) then [x] else []
  {
    var p := Ties(lt, e);
    var tail := if p(x) then [x] else [];
    FilterSnoc([], x, p);
    assert Filter([x], p) == tail;
    assert InsertBy(x, s, lt) == [x] + s;
    FilterAppend([x], s, p);
    if p(x) && s != [] {
      NoTiesAfterGreater(x, s, lt, e);
    }
  }

  /** Inserting into a sorted sequence puts the new element after every
      element it is tied with. */
  lemma {:induction false} InsertByTies<T(!new)>(x: T, s: seq<T>, lt: (T, T) -> bool, e: T)
    requires StrictWeakOrder(lt) && SortedBy(s, lt)
    ensures Filter(InsertBy(x, s, lt), Ties(lt, e)) ==
      Filter(s, Ties(lt, e)) + if Ties(lt, e)(x) then [x] else []
  {
    if s == [] || lt(x, s[0]) {
      InsertByTiesFront(x, s, lt, e);
    } else {
      var p := Ties(lt, e);
      var tail := if p(x) then [x] else [];
      var rest := InsertBy(x, s[1..], lt);
      calc {
        Filter(InsertBy(x, s, lt), p);
        { assert InsertBy(x, s, lt) == [s[0]] + rest; }
        Filter([s[0]] + rest, p);
        { FilterAppend([s[0]], rest, p); }
        Filter([s[0]], p) + Filter(rest, p);
        { assert SortedBy(s[1..], lt);
          InsertByTies(x, s[1..], lt, e); }
        Filter([s[0]], p) + (Filter(s[1..], p) + tail);
        (Filter([s[0]], p) + Filter(s[1..], p)) + tail;
        { FilterAppend([s[0]], s[1..], p); }
        Filter([s[0]] + s[1..], p) + tail;
        { assert s == [s[0]] + s[1..]; }
        Filter(s, p) + tail;
      }
    }
  }

  /** The sort is stable: the elements tied with any `e` come out in the
      order they went in. */
  lemma {:induction false} SortByStable<T(!new)>(s: seq<T>, lt: (T, T) -> bool, e: T)
    requires StrictWeakOrder(lt)
    ensures Filter(SortBy(s, lt), Ties(lt, e)) == Filter(s, Ties(lt, e))
  {
    if s != [] {
      var init, last := s[..|s| - 1], s[|s| - 1];
      assert s == init + [last];
      FilterSnoc(init, last, Ties(lt, e));
      SortByStable(init, lt, e);
      SortBySorted(init, lt);
      InsertByTies(last, SortBy(init, lt), lt, e);
    }
  }
}
