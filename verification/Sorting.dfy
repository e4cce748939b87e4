/** Stable sorting by an order, and what it keeps. */
module Sorting {
  import opened Prelude

  function InsertBy<T>(x: T, s: seq<T>, leq: (T, T) -> bool): seq<T> {
    if s == [] || leq(Last(s), x) then s + [x] else InsertBy(x, Init(s), leq) + [Last(s)]
  }

  function SortBy<T>(s: seq<T>, leq: (T, T) -> bool): seq<T> {
    if s == [] then [] else InsertBy(Last(s), SortBy(Init(s), leq), leq)
  }

  ghost predicate OrderedBy<T(!new)>(s: seq<T>, leq: (T, T) -> bool) {
    forall i, j :: 0 <= i < j < |s| ==> leq(s[i], s[j])
  }

  ghost predicate Transitive<T(!new)>(leq: (T, T) -> bool) {
    forall a, b, c :: leq(a, b) && leq(b, c) ==> leq(a, c)
  }

  /** Of any two places one comes first. */
  ghost predicate Comparable<T(!new)>(s: seq<T>, leq: (T, T) -> bool) {
    forall i, j :: 0 <= i < j < |s| ==> leq(s[i], s[j]) || leq(s[j], s[i])
  }

  lemma {:induction false} InsertMembers<T(!new)>(x: T, s: seq<T>, leq: (T, T) -> bool)
    ensures multiset(InsertBy(x, s, leq)) == multiset(s) + multiset{x}
    ensures forall y :: y in InsertBy(x, s, leq) <==> y == x || y in s
  {
    if !(s == [] || leq(Last(s), x)) {
      InsertMembers(x, Init(s), leq);
      assert s == Init(s) + [Last(s)];
    }
  }

  lemma {:induction false} InsertOrdered<T(!new)>(x: T, s: seq<T>, leq: (T, T) -> bool)
    requires Transitive(leq) && OrderedBy(s, leq) && forall y :: y in s ==> leq(y, x) || leq(x, y)
    ensures OrderedBy(InsertBy(x, s, leq), leq)
  {
    if s == [] {
    } else if leq(Last(s), x) {
      forall i | 0 <= i < |s|
        ensures leq(s[i], x)
      {
        assert i == |s| - 1 || leq(s[i], Last(s));
      }
    } else {
      assert leq(x, Last(s)) && forall y :: y in Init(s) ==> y in s;
      InsertOrdered(x, Init(s), leq);
      InsertMembers(x, Init(s), leq);
      forall y | y in InsertBy(x, Init(s), leq)
        ensures leq(y, Last(s))
      {
        if y != x {
          var i :| 0 <= i < |s| - 1 && s[i] == y;
        }
      }
    }
  }

  /** Sorting orders, and only permutes. */
  lemma {:induction false} SortOrders<T(!new)>(s: seq<T>, leq: (T, T) -> bool)
    requires Transitive(leq) && Comparable(s, leq)
    ensures OrderedBy(SortBy(s, leq), leq) && multiset(SortBy(s, leq)) == multiset(s)
    ensures forall y :: y in SortBy(s, leq) <==> y in s
  {
    if s != [] {
      assert s == Init(s) + [Last(s)];
      SortOrders(Init(s), leq);
      InsertMembers(Last(s), SortBy(Init(s), leq), leq);
      forall y | y in SortBy(Init(s), leq)
        ensures leq(y, Last(s)) || leq(Last(s), y)
      {
        var i :| 0 <= i < |s| - 1 && s[i] == y;
      }
      InsertOrdered(Last(s), SortBy(Init(s), leq), leq);
    }
  }

  lemma LastTakenOff<T(!new)>(s: seq<T>, leq: (T, T) -> bool)
    requires s != []
    ensures OrderedBy(s, leq) ==> OrderedBy(Init(s), leq)
    ensures Last(s) in multiset(s) && multiset(Init(s)) == multiset(s) - multiset{Last(s)}
    ensures forall y :: y in multiset(Init(s)) ==> y in multiset(s)
  {
    assert s == Init(s) + [Last(s)];
  }

  lemma LastIsLargest<T(!new)>(s: seq<T>, x: T, leq: (T, T) -> bool)
    requires OrderedBy(s, leq) && x in multiset(s) && leq(x, x)
    ensures s != [] && leq(x, Last(s))
  {
    var i :| 0 <= i < |s| && s[i] == x;
  }

  ghost predicate Antisymmetric<T(!new)>(leq: (T, T) -> bool) {
    forall a, b :: leq(a, b) && leq(b, a) ==> a == b
  }

  /** Two arrangements of the same elements end in the same one. */
  lemma SameLast<T(!new)>(a: seq<T>, b: seq<T>, leq: (T, T) -> bool)
    requires OrderedBy(a, leq) && OrderedBy(b, leq) && multiset(a) == multiset(b) && a != []
    requires Antisymmetric(leq) && forall x :: leq(x, x)
    ensures b != [] && Last(a) == Last(b)
  {
    assert |b| == |multiset(b)| && |a| == |multiset(a)|;
    LastTakenOff(a, leq);
    LastTakenOff(b, leq);
    LastIsLargest(a, Last(b), leq);
    LastIsLargest(b, Last(a), leq);
    hide OrderedBy;
  }

  lemma InitsAlike<T(!new)>(a: seq<T>, b: seq<T>, leq: (T, T) -> bool)
    requires a != [] && b != [] && multiset(a) == multiset(b) && Last(a) == Last(b)
    requires OrderedBy(a, leq) && OrderedBy(b, leq)
    ensures multiset(Init(a)) == multiset(Init(b)) && OrderedBy(Init(a), leq) && OrderedBy(Init(b), leq)
  {
    LastTakenOff(a, leq);
    LastTakenOff(b, leq);
    hide OrderedBy;
  }

  /** There is one way to put given elements in order. */
  lemma {:induction false} OrderIsUnique<T(!new)>(a: seq<T>, b: seq<T>, leq: (T, T) -> bool)
    requires OrderedBy(a, leq) && OrderedBy(b, leq) && multiset(a) == multiset(b)
    requires Antisymmetric(leq) && forall x :: leq(x, x)
    ensures a == b
  {
    hide OrderedBy;
    hide Antisymmetric;
    if a == [] {
      assert |b| == |multiset(b)|;
    } else {
      SameLast(a, b, leq);
      InitsAlike(a, b, leq);
      OrderIsUnique(Init(a), Init(b), leq);
      assert a == Init(a) + [Last(a)] && b == Init(b) + [Last(b)];
    }
  }

  // ---- sorting and selecting ---------------------------------------------------------------------

  lemma FilterSnoc<T>(s: seq<T>, last: T, keep: T -> bool)
    ensures Filter(s + [last], keep) == if keep(last) then Filter(s, keep) + [last] else Filter(s, keep)
  {
    assert Init(s + [last]) == s;
  }

  lemma InsertBefore<T>(x: T, s: seq<T>, last: T, leq: (T, T) -> bool)
    requires !leq(last, x)
    ensures InsertBy(x, s + [last], leq) == InsertBy(x, s, leq) + [last]
  {
    assert Init(s + [last]) == s;
  }

  lemma KeptBefore<T(!new)>(x: T, s: seq<T>, keep: T -> bool, leq: (T, T) -> bool)
    requires Transitive(leq) && OrderedBy(s, leq) && (s == [] || leq(Last(s), x)) && Filter(s, keep) != []
    ensures leq(Last(Filter(s, keep)), x)
  {
    FilterMembers(s, keep);
    var y := Last(Filter(s, keep));
    assert y in Filter(s, keep);
    var i :| 0 <= i < |s| && s[i] == y;
    assert i == |s| - 1 || leq(s[i], Last(s));
  }

  lemma {:induction false} FilterInsert<T(!new)>(x: T, s: seq<T>, keep: T -> bool, leq: (T, T) -> bool)
    requires Transitive(leq) && OrderedBy(s, leq)
    ensures Filter(InsertBy(x, s, leq), keep) == if keep(x) then InsertBy(x, Filter(s, keep), leq) else Filter(s, keep)
  {
    hide Filter;
    if s == [] || leq(Last(s), x) {
      FilterSnoc(s, x, keep);
      if Filter(s, keep) != [] {
        KeptBefore(x, s, keep, leq);
      }
    } else {
      FilterInsert(x, Init(s), keep, leq);
      FilterSnoc(InsertBy(x, Init(s), leq), Last(s), keep);
      FilterSnoc(Init(s), Last(s), keep);
      assert s == Init(s) + [Last(s)];
      if keep(x) && keep(Last(s)) {
        InsertBefore(x, Filter(Init(s), keep), Last(s), leq);
      }
    }
  }

  /** Selecting and then sorting is sorting and then selecting. */
  lemma {:induction false} FilterSort<T(!new)>(s: seq<T>, keep: T -> bool, leq: (T, T) -> bool)
    requires Transitive(leq) && Comparable(s, leq)
    ensures SortBy(Filter(s, keep), leq) == Filter(SortBy(s, leq), keep)
  {
    hide InsertBy;
    if s != [] {
      var first, last := Init(s), Last(s);
      assert s == first + [last];
      FilterSort(first, keep, leq);
      SortOrders(first, leq);
      FilterInsert(last, SortBy(first, leq), keep, leq);
      FilterSnoc(first, last, keep);
      if keep(last) {
        assert Init(Filter(first, keep) + [last]) == Filter(first, keep);
      }
    }
  }
}
