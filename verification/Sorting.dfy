/** A stable sort by a comparator, as `Array.prototype.sort` and `ORDER BY` over a scan do it. */
module Sorting {
  /** `before` is a strict weak order: asymmetric, and "not before" chains. */
  ghost predicate IsOrder<T(!new)>(before: (T, T) -> bool) {
    && (forall x, y :: before(x, y) ==> !before(y, x))
    && (forall x, y, z :: !before(y, x) && !before(z, y) ==> !before(z, x))
  }

  ghost predicate InOrder<T>(s: seq<T>, before: (T, T) -> bool) {
    forall i, j | 0 <= i < j < |s| :: !before(s[j], s[i])
  }

  ghost predicate AllDistinct<T>(s: seq<T>) { forall i, j | 0 <= i < j < |s| :: s[i] != s[j] }

  /** After everything it does not come before. */
  function Insert<T>(x: T, s: seq<T>, before: (T, T) -> bool): seq<T> {
    if s == [] then [x]
    else if before(x, s[|s| - 1]) then Insert(x, s[..|s| - 1], before) + [s[|s| - 1]]
    else s + [x]
  }

  function Sort<T>(s: seq<T>, before: (T, T) -> bool): seq<T> {
    if s == [] then [] else Insert(s[|s| - 1], Sort(s[..|s| - 1], before), before)
  }

  function Filter<T>(s: seq<T>, keep: T -> bool): seq<T> {
    if s == [] then []
    else Filter(s[..|s| - 1], keep) + (if keep(s[|s| - 1]) then [s[|s| - 1]] else [])
  }

  lemma {:induction false} InsertPermutes<T>(x: T, s: seq<T>, before: (T, T) -> bool)
    ensures multiset(Insert(x, s, before)) == multiset(s) + multiset{x}
    ensures |Insert(x, s, before)| == |s| + 1
    decreases s
  {
    if s != [] {
      var n := |s| - 1;
      assert s == s[..n] + [s[n]];
      InsertPermutes(x, s[..n], before);
    }
  }

  lemma {:induction false} SortPermutes<T>(s: seq<T>, before: (T, T) -> bool)
    ensures multiset(Sort(s, before)) == multiset(s) && |Sort(s, before)| == |s|
    decreases s
  {
    if s != [] {
      var n := |s| - 1;
      assert s == s[..n] + [s[n]];
      SortPermutes(s[..n], before);
      InsertPermutes(s[n], Sort(s[..n], before), before);
    }
  }

  lemma SortMembers<T(!new)>(s: seq<T>, before: (T, T) -> bool)
    ensures forall x :: x in Sort(s, before) <==> x in s
  {
    SortPermutes(s, before);
    forall x
      ensures x in Sort(s, before) <==> x in s
    {
      assert x in multiset(s) <==> x in s;
      assert x in multiset(Sort(s, before)) <==> x in Sort(s, before);
    }
  }

  lemma {:induction false} InsertInOrder<T(!new)>(x: T, s: seq<T>, before: (T, T) -> bool)
    requires IsOrder(before) && InOrder(s, before)
    ensures InOrder(Insert(x, s, before), before)
    decreases s
  {
    if s != [] {
      var n := |s| - 1;
      if before(x, s[n]) {
        var init := Insert(x, s[..n], before);
        InsertInOrder(x, s[..n], before);
        InsertPermutes(x, s[..n], before);
        forall i | 0 <= i < |init|
          ensures !before(s[n], init[i])
        {
          assert init[i] in multiset(init);
          assert init[i] == x || init[i] in s[..n];
        }
      }
    }
  }

  lemma {:induction false} SortInOrder<T(!new)>(s: seq<T>, before: (T, T) -> bool)
    requires IsOrder(before)
    ensures InOrder(Sort(s, before), before)
    decreases s
  {
    if s != [] {
      SortInOrder(s[..|s| - 1], before);
      InsertInOrder(s[|s| - 1], Sort(s[..|s| - 1], before), before);
    }
  }

  lemma {:induction false} InsertDistinct<T>(x: T, s: seq<T>, before: (T, T) -> bool)
    requires AllDistinct(s) && x !in s
    ensures AllDistinct(Insert(x, s, before))
    decreases s
  {
    if s != [] && before(x, s[|s| - 1]) {
      var n := |s| - 1;
      InsertDistinct(x, s[..n], before);
      InsertPermutes(x, s[..n], before);
      var init := Insert(x, s[..n], before);
      forall i | 0 <= i < |init|
        ensures init[i] != s[n]
      {
        assert init[i] in multiset(init);
        assert init[i] == x || init[i] in s[..n];
      }
    }
  }

  lemma {:induction false} SortDistinct<T(!new)>(s: seq<T>, before: (T, T) -> bool)
    requires AllDistinct(s)
    ensures AllDistinct(Sort(s, before))
    decreases s
  {
    if s != [] {
      var n := |s| - 1;
      SortDistinct(s[..n], before);
      SortMembers(s[..n], before);
      InsertDistinct(s[n], Sort(s[..n], before), before);
    }
  }

  lemma {:induction false} FilterMembers<T(!new)>(s: seq<T>, keep: T -> bool)
    ensures forall x :: x in Filter(s, keep) <==> x in s && keep(x)
    decreases s
  {
    if s != [] {
      var n := |s| - 1;
      FilterMembers(s[..n], keep);
      assert s == s[..n] + [s[n]];
    }
  }

  lemma FilterSnoc<T>(s: seq<T>, x: T, keep: T -> bool)
    ensures Filter(s + [x], keep) == if keep(x) then Filter(s, keep) + [x] else Filter(s, keep)
  {
    assert (s + [x])[..|s|] == s;
  }

  lemma InsertSnoc<T>(x: T, s: seq<T>, last: T, before: (T, T) -> bool)
    ensures Insert(x, s + [last], before) == if before(x, last) then Insert(x, s, before) + [last] else s + [last] + [x]
  {
    assert (s + [last])[..|s|] == s;
  }

  lemma SortSnoc<T>(s: seq<T>, x: T, before: (T, T) -> bool)
    ensures Sort(s + [x], before) == Insert(x, Sort(s, before), before)
  {
    assert (s + [x])[..|s|] == s;
  }

  lemma {:induction false} FilterNone<T>(s: seq<T>, keep: T -> bool)
    requires forall x | x in s :: !keep(x)
    ensures Filter(s, keep) == []
    decreases s
  {
    if s != [] {
      FilterNone(s[..|s| - 1], keep);
      assert s[|s| - 1] in s;
    }
  }

  lemma {:induction false} FilterConcat<T>(a: seq<T>, b: seq<T>, keep: T -> bool)
    ensures Filter(a + b, keep) == Filter(a, keep) + Filter(b, keep)
    decreases b
  {
    if b == [] {
      assert a + b == a;
    } else {
      assert (a + b)[..|a + b| - 1] == a + b[..|b| - 1];
      FilterConcat(a, b[..|b| - 1], keep);
    }
  }

  lemma {:induction false} FilterInOrder<T(!new)>(s: seq<T>, before: (T, T) -> bool, keep: T -> bool)
    requires InOrder(s, before)
    ensures InOrder(Filter(s, keep), before)
    decreases s
  {
    if s != [] {
      var init, last := s[..|s| - 1], s[|s| - 1];
      FilterInOrder(init, before, keep);
      FilterMembers(init, keep);
      FilterSnoc(init, last, keep);
      assert s == init + [last];
      var f := Filter(init, keep);
      forall i | 0 <= i < |f|
        ensures !before(last, f[i])
      {
        var y := f[i];
        assert y in f;
        var j :| 0 <= j < |init| && init[j] == y;
        assert !before(s[|s| - 1], s[j]);
      }
    }
  }

  lemma InsertLast<T>(x: T, s: seq<T>, before: (T, T) -> bool)
    requires forall y | y in s :: !before(x, y)
    ensures Insert(x, s, before) == s + [x]
  {
    if s != [] {
      assert s[|s| - 1] in s;
    }
  }

  lemma {:induction false} InsertFilter<T(!new)>(x: T, s: seq<T>, before: (T, T) -> bool, keep: T -> bool)
    requires IsOrder(before) && InOrder(s, before)
    ensures Filter(Insert(x, s, before), keep) == if keep(x) then Insert(x, Filter(s, keep), before) else Filter(s, keep)
    decreases s
  {
    if s != [] {
      var init, last := s[..|s| - 1], s[|s| - 1];
      assert s == init + [last];
      FilterSnoc(init, last, keep);
      if before(x, last) {
        InsertFilter(x, init, before, keep);
        FilterSnoc(Insert(x, init, before), last, keep);
        InsertSnoc(x, Filter(init, keep), last, before);
        InsertSnoc(x, init, last, before);
        hide Filter, Insert;
      } else {
        forall y | y in Filter(s, keep)
          ensures !before(x, y)
        {
          FilterMembers(s, keep);
          var i :| 0 <= i < |s| && s[i] == y;
          assert i < |s| - 1 ==> !before(last, s[i]);
        }
        InsertLast(x, Filter(s, keep), before);
        FilterSnoc(s, x, keep);
      }
    }
  }

  /** Sorting the whole and keeping a part is sorting the part. */
  lemma {:induction false} SortFilter<T(!new)>(s: seq<T>, before: (T, T) -> bool, keep: T -> bool)
    requires IsOrder(before)
    ensures Filter(Sort(s, before), keep) == Sort(Filter(s, keep), before)
    decreases s
  {
    if s != [] {
      var init, last := s[..|s| - 1], s[|s| - 1];
      assert s == init + [last];
      SortFilter(init, before, keep);
      SortInOrder(init, before);
      InsertFilter(last, Sort(init, before), before, keep);
      FilterSnoc(init, last, keep);
      SortSnoc(init, last, before);
      SortSnoc(Filter(init, keep), last, before);
      hide Filter, Sort, Insert, InOrder;
    }
  }

  lemma {:induction false} SortOfTied<T>(s: seq<T>, before: (T, T) -> bool)
    requires forall x, y | x in s && y in s :: !before(x, y)
    ensures Sort(s, before) == s
    decreases s
  {
    if s != [] {
      var n := |s| - 1;
      SortOfTied(s[..n], before);
      assert s[n] in s;
      InsertLast(s[n], s[..n], before);
    }
  }

  /** Elements tied with each other keep the order they had. */
  lemma SortIsStable<T(!new)>(s: seq<T>, before: (T, T) -> bool, keep: T -> bool)
    requires IsOrder(before) && forall x, y | x in s && keep(x) && y in s && keep(y) :: !before(x, y)
    ensures Filter(Sort(s, before), keep) == Filter(s, keep)
  {
    SortFilter(s, before, keep);
    FilterMembers(s, keep);
    SortOfTied(Filter(s, keep), before);
  }

  lemma {:induction false} FilterFilter<T(!new)>(s: seq<T>, outer: T -> bool, inner: T -> bool, both: T -> bool)
    requires forall x | x in s :: both(x) == (outer(x) && inner(x))
    ensures Filter(Filter(s, outer), inner) == Filter(s, both)
    decreases s
  {
    if s != [] {
      var init, last := s[..|s| - 1], s[|s| - 1];
      assert s == init + [last];
      FilterFilter(init, outer, inner, both);
      FilterSnoc(init, last, outer);
      FilterSnoc(init, last, both);
      FilterSnoc(Filter(init, outer), last, inner);
      hide Filter;
    }
  }

  /** A filter that accepts exactly the first k elements is a prefix. */
  lemma {:induction false} FilterPrefix<T>(s: seq<T>, keep: T -> bool, k: nat)
    requires k <= |s| && forall j | 0 <= j < |s| :: keep(s[j]) <==> j < k
    ensures Filter(s, keep) == s[..k]
    decreases s
  {
    if s != [] {
      var init, last := s[..|s| - 1], s[|s| - 1];
      assert s == init + [last];
      FilterSnoc(init, last, keep);
      FilterPrefix(init, keep, if k == |s| then k - 1 else k);
      hide Filter;
    }
  }

  lemma {:induction false} FilterSplitsCount<T>(s: seq<T>, fewer: T -> bool, more: T -> bool)
    requires forall x | x in s && fewer(x) :: more(x)
    ensures |Filter(s, fewer)| <= |Filter(s, more)|
    ensures (exists x :: x in s && more(x) && !fewer(x)) ==> |Filter(s, fewer)| < |Filter(s, more)|
    decreases s
  {
    if s != [] {
      var init, last := s[..|s| - 1], s[|s| - 1];
      assert s == init + [last];
      FilterSplitsCount(init, fewer, more);
      FilterSnoc(init, last, fewer);
      FilterSnoc(init, last, more);
      hide Filter;
    }
  }

  lemma {:induction false} InsertAgrees<T>(x: T, s: seq<T>, a: (T, T) -> bool, b: (T, T) -> bool)
    requires forall y | y in s :: a(x, y) == b(x, y)
    ensures Insert(x, s, a) == Insert(x, s, b)
    decreases s
  {
    if s != [] {
      assert s[|s| - 1] in s;
      InsertAgrees(x, s[..|s| - 1], a, b);
    }
  }

  /** Only the comparator's answers on the elements matter. */
  lemma {:induction false} SortAgrees<T(!new)>(s: seq<T>, a: (T, T) -> bool, b: (T, T) -> bool)
    requires forall x, y | x in s && y in s :: a(x, y) == b(x, y)
    ensures Sort(s, a) == Sort(s, b)
    decreases s
  {
    if s != [] {
      var init, last := s[..|s| - 1], s[|s| - 1];
      SortAgrees(init, a, b);
      SortMembers(init, a);
      assert last in s;
      InsertAgrees(last, Sort(init, a), a, b);
    }
  }

  lemma {:induction false} FilterAgrees<T>(s: seq<T>, a: T -> bool, b: T -> bool)
    requires forall x | x in s :: a(x) == b(x)
    ensures Filter(s, a) == Filter(s, b)
    decreases s
  {
    if s != [] {
      assert s == s[..|s| - 1] + [s[|s| - 1]];
      FilterAgrees(s[..|s| - 1], a, b);
    }
  }

  lemma {:induction false} FilterCounts<T>(s: seq<T>, keep: T -> bool, drop: T -> bool)
    requires forall x | x in s :: keep(x) != drop(x)
    ensures |Filter(s, keep)| + |Filter(s, drop)| == |s|
    decreases s
  {
    if s != [] {
      assert s == s[..|s| - 1] + [s[|s| - 1]];
      FilterCounts(s[..|s| - 1], keep, drop);
    }
  }
}
