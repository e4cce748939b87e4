/** Small helpers every other module shares: optional values, and the sequence
    operations the loaders and readers are specified with. */
module Prelude {
  datatype Option<+T> = None | Some(value: T) {
    function GetOr(default: T): T {
      if Some? then value else default
    }

    /** SQL's two-argument COALESCE. */
    function OrElse(other: Option<T>): Option<T> {
      if Some? then this else other
    }
  }

  function Min(a: int, b: int): int { if a <= b then a else b }

  function Max(a: int, b: int): int { if a <= b then b else a }

  function Last<T>(s: seq<T>): T
    requires s != []
  {
    s[|s| - 1]
  }

  function Init<T>(s: seq<T>): seq<T>
    requires s != []
  {
    s[..|s| - 1]
  }

  /** The elements of `s` that satisfy `keep`, in order. */
  function Filter<T>(s: seq<T>, keep: T -> bool): seq<T> {
    if s == [] then [] else Filter(Init(s), keep) + if keep(Last(s)) then [Last(s)] else []
  }

  lemma {:induction false} FilterMembers<T>(s: seq<T>, keep: T -> bool)
    ensures |Filter(s, keep)| <= |s|
    ensures forall x | x in s :: x in Filter(s, keep) <==> keep(x)
    ensures forall x | x in Filter(s, keep) :: x in s && keep(x)
  {
    if s != [] {
      assert s == Init(s) + [Last(s)];
      FilterMembers(Init(s), keep);
    }
  }

  lemma {:induction false} FilterAppend<T>(a: seq<T>, b: seq<T>, keep: T -> bool)
    ensures Filter(a + b, keep) == Filter(a, keep) + Filter(b, keep)
  {
    if b == [] {
      assert a + b == a;
    } else {
      assert Init(a + b) == a + Init(b);
      FilterAppend(a, Init(b), keep);
    }
  }

  lemma {:induction false} FilterAll<T>(s: seq<T>, keep: T -> bool)
    requires forall x | x in s :: keep(x)
    ensures Filter(s, keep) == s
  {
    if s != [] {
      assert s == Init(s) + [Last(s)];
      FilterAll(Init(s), keep);
    }
  }

  lemma {:induction false} FilterNone<T>(s: seq<T>, keep: T -> bool)
    requires forall x | x in s :: !keep(x)
    ensures Filter(s, keep) == []
  {
    if s != [] {
      assert s == Init(s) + [Last(s)];
      FilterNone(Init(s), keep);
    }
  }

  /** A condition that holds of one stretch of a list selects that stretch. */
  lemma {:induction false} FilterStretch<T>(s: seq<T>, lo: nat, hi: nat, keep: T -> bool)
    requires lo <= hi <= |s|
    requires forall i :: 0 <= i < |s| ==> (keep(s[i]) <==> lo <= i < hi)
    ensures Filter(s, keep) == s[lo..hi]
  {
    if hi < |s| {
      FilterStretch(Init(s), lo, hi, keep);
    } else if lo < hi {
      FilterStretch(Init(s), lo, hi - 1, keep);
      assert s[lo..hi] == Init(s)[lo..hi - 1] + [Last(s)];
    } else {
      FilterNone(s, keep);
    }
  }

  /** Filtering twice is filtering by both conditions. */
  lemma {:induction false} FilterTwice<T>(s: seq<T>, first: T -> bool, second: T -> bool, both: T -> bool)
    requires forall x | x in s :: both(x) <==> first(x) && second(x)
    ensures Filter(Filter(s, first), second) == Filter(s, both)
  {
    if s != [] {
      assert s == Init(s) + [Last(s)];
      FilterTwice(Init(s), first, second, both);
      assert Last(s) in s;
      if first(Last(s)) {
        assert Init(Filter(s, first)) == Filter(Init(s), first) && Last(Filter(s, first)) == Last(s);
      } else {
        assert Filter(s, first) == Filter(Init(s), first);
      }
    }
  }

  function Flatten<T>(parts: seq<seq<T>>): seq<T> {
    if parts == [] then [] else Flatten(Init(parts)) + Last(parts)
  }

  lemma {:induction false} FlattenAppend<T>(a: seq<seq<T>>, b: seq<seq<T>>)
    ensures Flatten(a + b) == Flatten(a) + Flatten(b)
  {
    if b == [] {
      assert a + b == a;
    } else {
      FlattenAppend(a, Init(b));
      calc {
        Flatten(a + b);
        { assert Init(a + b) == a + Init(b) && Last(a + b) == Last(b); }
        Flatten(a + Init(b)) + Last(b);
        Flatten(a) + Flatten(Init(b)) + Last(b);
        Flatten(a) + Flatten(b);
      }
    }
  }

  lemma {:induction false} InFlatten<T>(parts: seq<seq<T>>, x: T)
    ensures x in Flatten(parts) <==> exists i :: 0 <= i < |parts| && x in parts[i]
  {
    if parts != [] {
      InFlatten(Init(parts), x);
      if i :| 0 <= i < |parts| && x in parts[i] {
        assert i == |parts| - 1 || x in Init(parts)[i];
      }
      if x in Flatten(Init(parts)) {
        var i :| 0 <= i < |Init(parts)| && x in Init(parts)[i];
        assert x in parts[i];
      }
    }
  }

  lemma {:induction false} MulMonotone(a: nat, b: nat, d: nat)
    requires a <= b
    ensures a * d <= b * d
  {
  }

  lemma MulNext(k: nat, d: nat)
    ensures (k + 1) * d == k * d + d
  {
  }

  /** k multiples of d reach n exactly from the rounded-up quotient on. */
  lemma CeilingDivision(n: nat, d: nat, k: nat)
    requires d >= 1
    ensures n <= k * d <==> k >= (n + d - 1) / d
  {
    var q := (n + d - 1) / d;
    assert n + d - 1 == q * d + (n + d - 1) % d;
    if k >= q {
      MulMonotone(q, k, d);
    } else {
      MulMonotone(k + 1, q, d);
      MulNext(k, d);
    }
  }
}
