/** Keyset pagination: following next_cursor over a fixed snapshot, against the plain list it
    stands for. */
module Keyset {
  import opened Prelude
  import opened Filters
  import opened Sorting

  /** ORDER BY key DESC NULLS LAST, id DESC. */
  predicate Precedes(sort: SortKey, a: JobRow, b: JobRow) {
    var ka, kb := SortValue(sort, a), SortValue(sort, b);
    if ka.None? || kb.None? then if ka.None? && kb.None? then a.id > b.id else kb.None?
    else ka.value > kb.value || (ka.value == kb.value && a.id > b.id)
  }

  ghost predicate DistinctRows(rows: seq<JobRow>) {
    forall i, j :: 0 <= i < j < |rows| ==> rows[i].id != rows[j].id
  }

  function Earlier(sort: SortKey): (JobRow, JobRow) -> bool {
    (a: JobRow, b: JobRow) => Precedes(sort, a, b)
  }

  ghost predicate Ordered(sort: SortKey, rows: seq<JobRow>) {
    OrderedBy(rows, Earlier(sort))
  }

  function Sorted(sort: SortKey, table: seq<JobRow>): seq<JobRow> {
    SortBy(table, Earlier(sort))
  }

  /** On rows with distinct ids the order is total, and strict. */
  lemma OrderIsTotal(sort: SortKey, rows: seq<JobRow>)
    requires DistinctRows(rows)
    ensures Transitive(Earlier(sort)) && Comparable(rows, Earlier(sort))
    ensures forall row :: !Precedes(sort, row, row)
  {
  }

  /** The ordered list is a permutation of the table in strictly descending order. */
  lemma SortedIsOrdered(sort: SortKey, table: seq<JobRow>)
    requires DistinctRows(table)
    ensures Ordered(sort, Sorted(sort, table)) && multiset(Sorted(sort, table)) == multiset(table)
    ensures forall x :: x in Sorted(sort, table) <==> x in table
  {
    OrderIsTotal(sort, table);
    SortOrders(table, Earlier(sort));
  }

  /** Selecting and then sorting is sorting and then selecting. */
  lemma FilterSorted(sort: SortKey, table: seq<JobRow>, keep: JobRow -> bool)
    requires DistinctRows(table)
    ensures Sorted(sort, Filter(table, keep)) == Filter(Sorted(sort, table), keep)
  {
    OrderIsTotal(sort, table);
    FilterSort(table, keep, Earlier(sort));
  }

  // ---- one page -------------------------------------------------------------------------------

  datatype Page = Page(rows: seq<JobRow>, next: Option<Cursor>)

  function After(sort: SortKey, cursor: Cursor): JobRow -> bool {
    (row: JobRow) => RowLess(SortValue(sort, row), row.id, cursor.value, cursor.id) == Yes
  }

  /** What is left of the ordered list for a cursor. */
  function Remaining(sort: SortKey, list: seq<JobRow>, cursor: Option<Cursor>): seq<JobRow> {
    if cursor.None? then list else Filter(list, After(sort, cursor.value))
  }

  function CursorAt(sort: SortKey, row: JobRow): Cursor {
    Cursor(SortValue(sort, row), row.id)
  }

  /** A page of an ordered list, and the cursor _page mints when more rows exist. */
  function PageOf(sort: SortKey, list: seq<JobRow>, cursor: Option<Cursor>, limit: nat): Page {
    var left := Remaining(sort, list, cursor);
    var rows := left[..Min(limit, |left|)];
    Page(rows, if |left| > limit && rows != [] then Some(CursorAt(sort, Last(rows))) else None)
  }

  /** Greater first, absent last, ties by the greater id. */
  predicate Outranks(a: Option<real>, id: nat, b: Option<real>, otherId: nat) {
    && (a.Some? && b.Some? ==> a.value > b.value || (a.value == b.value && id > otherId))
    && (a.None? ==> b.None? && id > otherId)
  }

  /** The row stands after the cursor's position; rows without the column never do. */
  predicate Follows(cursor: Option<Cursor>, key: Option<real>, id: nat) {
    cursor.Some? ==>
      && key.Some? && cursor.value.value.Some?
      && (key.value < cursor.value.value.value || (key.value == cursor.value.value.value && id < cursor.value.id))
  }

  /** The rows a request asks for: wanted, and after its cursor by this column. */
  ghost predicate Asked(column: JobRow -> Option<real>, table: seq<JobRow>, f: JobFilters, cursor: Option<Cursor>, row: JobRow) {
    row in table && Wanted(f, row) && Follows(cursor, column(row), row.id)
  }

  ghost predicate InOrder(column: JobRow -> Option<real>, rows: seq<JobRow>) {
    forall i, j :: 0 <= i < j < |rows| ==> Outranks(column(rows[i]), rows[i].id, column(rows[j]), rows[j].id)
  }

  ghost predicate AllOutrank(column: JobRow -> Option<real>, rows: seq<JobRow>, row: JobRow) {
    forall x :: x in rows ==> Outranks(column(x), x.id, column(row), row.id)
  }

  /** A page by one column of the rows: in order; holding rows that were asked for; when it leaves one
      out it is full and all its rows outrank that one; and then, and only then, it mints a cursor, which
      holds the last row's value of the column and its id. */
  ghost predicate PageBy(column: JobRow -> Option<real>, table: seq<JobRow>, f: JobFilters, limit: nat, cursor: Option<Cursor>, page: Page) {
    && |page.rows| <= limit && InOrder(column, page.rows)
    && (forall row :: row in page.rows ==> Asked(column, table, f, cursor, row))
    && (forall row :: Asked(column, table, f, cursor, row) && row !in page.rows ==>
          |page.rows| == limit && (limit > 0 ==> page.next.Some?) && AllOutrank(column, page.rows, row))
    && (page.next.Some? ==>
          && page.rows != [] && page.next.value == Cursor(column(Last(page.rows)), Last(page.rows).id)
          && exists row :: Asked(column, table, f, cursor, row) && row !in page.rows)
  }

  lemma {:induction false} FilterOrdered(sort: SortKey, list: seq<JobRow>, keep: JobRow -> bool)
    requires Ordered(sort, list)
    ensures Ordered(sort, Filter(list, keep))
  {
    if list != [] {
      FilterOrdered(sort, Init(list), keep);
      FilterMembers(Init(list), keep);
      forall x | x in Filter(Init(list), keep)
        ensures Precedes(sort, x, Last(list))
      {
        var i :| 0 <= i < |list| - 1 && list[i] == x;
      }
      hide Precedes;
    }
  }

  /** What is left is in order, and consists of the rows after the cursor. */
  lemma LeftOver(sort: SortKey, list: seq<JobRow>, cursor: Option<Cursor>)
    requires Ordered(sort, list)
    ensures Ordered(sort, Remaining(sort, list, cursor))
    ensures forall row :: row in Remaining(sort, list, cursor) <==> row in list && Follows(cursor, SortValue(sort, row), row.id)
  {
    if cursor.Some? {
      FilterOrdered(sort, list, After(sort, cursor.value));
      FilterMembers(list, After(sort, cursor.value));
    }
    hide Ordered;
    hide Filter;
  }

  /** The first rows of an ordered list, and those they leave out. */
  lemma FirstRows(column: JobRow -> Option<real>, sort: SortKey, left: seq<JobRow>, limit: nat)
    requires Ordered(sort, left) && forall row :: column(row) == SortValue(sort, row)
    ensures InOrder(column, left[..Min(limit, |left|)])
    ensures forall row :: row in left && row !in left[..Min(limit, |left|)] ==>
      |left| > limit && AllOutrank(column, left[..Min(limit, |left|)], row)
  {
    var rows := left[..Min(limit, |left|)];
    assert forall a, b :: Precedes(sort, a, b) ==> Outranks(column(a), a.id, column(b), b.id);
    forall i, j | 0 <= i < j < |rows|
      ensures Outranks(column(rows[i]), rows[i].id, column(rows[j]), rows[j].id)
    {
      assert Precedes(sort, left[i], left[j]);
    }
    hide SortValue;
    hide Outranks;
    hide Precedes;
    assert forall k :: 0 <= k < |rows| ==> rows[k] == left[k];
    forall row | row in left && row !in rows
      ensures |left| > limit && AllOutrank(column, rows, row)
    {
      var j :| 0 <= j < |left| && left[j] == row;
      assert j >= |rows|;
      forall x | x in rows
        ensures Outranks(column(x), x.id, column(row), row.id)
      {
        var i :| 0 <= i < |rows| && rows[i] == x;
        assert Precedes(sort, left[i], left[j]);
      }
    }
  }

  lemma StrictlyDistinct(sort: SortKey, left: seq<JobRow>, limit: nat)
    requires Ordered(sort, left) && |left| > limit
    ensures left[limit] in left && left[limit] !in left[..limit]
  {
  }

  lemma PageByColumn(column: JobRow -> Option<real>, table: seq<JobRow>, f: JobFilters, sort: SortKey, limit: nat, cursor: Option<Cursor>)
    requires DistinctRows(table) && forall row :: column(row) == SortValue(sort, row)
    ensures PageBy(column, table, f, limit, cursor, PageOf(sort, Sorted(sort, Filter(table, WantedBy(f))), cursor, limit))
  {
    hide Sorted;
    hide Filter;
    hide Wanted;
    hide Follows;
    hide DistinctRows;
    hide Ordered;
    hide InOrder;
    hide AllOutrank;
    ListHolds(sort, table, f);
    var list := Sorted(sort, Filter(table, WantedBy(f)));
    LeftOver(sort, list, cursor);
    var left := Remaining(sort, list, cursor);
    hide Remaining;
    FirstRows(column, sort, left, limit);
    assert forall row :: row in left <==> Asked(column, table, f, cursor, row);
    hide Asked;
    hide SortValue;
    if |left| > limit {
      StrictlyDistinct(sort, left, limit);
    }
    var rows := left[..Min(limit, |left|)];
    assert forall row :: row in rows ==> row in left;
  }

  lemma ColumnPages(table: seq<JobRow>, f: JobFilters, sort: SortKey, limit: nat, cursor: Option<Cursor>)
    requires DistinctRows(table)
    ensures var page := PageOf(sort, Sorted(sort, Filter(table, WantedBy(f))), cursor, limit);
      && (sort == PostedAtDesc ==> PageBy((row: JobRow) => row.postedAt, table, f, limit, cursor, page))
      && (sort == FirstSeenDesc ==> PageBy((row: JobRow) => Some(row.firstSeenAt), table, f, limit, cursor, page))
      && (sort == SalaryDesc ==> PageBy((row: JobRow) => row.salaryMax, table, f, limit, cursor, page))
  {
    hide PageBy;
    hide PageOf;
    hide DistinctRows;
    match sort
    case PostedAtDesc => PageByColumn((row: JobRow) => row.postedAt, table, f, sort, limit, cursor);
    case FirstSeenDesc => PageByColumn((row: JobRow) => Some(row.firstSeenAt), table, f, sort, limit, cursor);
    case SalaryDesc => PageByColumn((row: JobRow) => row.salaryMax, table, f, sort, limit, cursor);
  }

  /** search and _page: the composed clause, the order, limit + 1 rows, and the minted cursor. */
  method Search(table: seq<JobRow>, f: JobFilters, sort: SortKey, limit: nat, cursor: Option<Cursor>) returns (page: Page)
    requires DistinctRows(table)
    ensures page == PageOf(sort, Sorted(sort, Filter(table, WantedBy(f))), cursor, limit)
    ensures sort == PostedAtDesc ==> PageBy((row: JobRow) => row.postedAt, table, f, limit, cursor, page)
    ensures sort == FirstSeenDesc ==> PageBy((row: JobRow) => Some(row.firstSeenAt), table, f, limit, cursor, page)
    ensures sort == SalaryDesc ==> PageBy((row: JobRow) => row.salaryMax, table, f, limit, cursor, page)
  {
    hide PageBy;
    hide Wanted;
    hide EvalAll;
    hide Sorted;
    hide Filter;
    var where := BuildWhere(f);
    if cursor.Some? {
      where := Append(where, true, Condition.Keyset(sort, cursor.value));
    }
    var keep := (row: JobRow) => EvalAll(where, row) == Yes;
    var selected := Sorted(sort, Filter(table, keep));
    var rows := selected[..Min(limit + 1, |selected|)];
    var hasMore := |rows| > limit;
    rows := rows[..Min(limit, |rows|)];
    page := Page(rows, if hasMore && rows != [] then Some(CursorAt(sort, Last(rows))) else None);
    SelectedIsRemaining(table, f, sort, cursor, keep);
    ColumnPages(table, f, sort, limit, cursor);
  }

  lemma SelectedIsRemaining(table: seq<JobRow>, f: JobFilters, sort: SortKey, cursor: Option<Cursor>, keep: JobRow -> bool)
    requires DistinctRows(table)
    requires forall row :: keep(row) <==> Wanted(f, row) && (cursor.Some? ==> After(sort, cursor.value)(row))
    ensures Sorted(sort, Filter(table, keep)) == Remaining(sort, Sorted(sort, Filter(table, WantedBy(f))), cursor)
  {
    FilterDistinct(table, WantedBy(f));
    if cursor.Some? {
      FilterSorted(sort, Filter(table, WantedBy(f)), After(sort, cursor.value));
      FilterTwice(table, WantedBy(f), After(sort, cursor.value), keep);
    } else {
      FilterTwice(table, WantedBy(f), keep, keep);
      FilterMembers(table, WantedBy(f));
      FilterAll(Filter(table, WantedBy(f)), keep);
    }
  }

  lemma {:induction false} FilterDistinct(rows: seq<JobRow>, keep: JobRow -> bool)
    requires DistinctRows(rows)
    ensures DistinctRows(Filter(rows, keep))
  {
    if rows != [] {
      FilterDistinct(Init(rows), keep);
      FilterMembers(Init(rows), keep);
      forall x | x in Filter(Init(rows), keep)
        ensures x.id != Last(rows).id
      {
        assert x in Init(rows);
      }
    }
  }

  // ---- the walk ---------------------------------------------------------------------------------

  /** How many rows of an ordered list have a key: they come first. */
  function Keyed(sort: SortKey, list: seq<JobRow>): nat {
    if list == [] || SortValue(sort, list[0]).None? then 0 else 1 + Keyed(sort, list[1..])
  }

  lemma {:induction false} KeyedFirst(sort: SortKey, list: seq<JobRow>)
    requires Ordered(sort, list)
    ensures Keyed(sort, list) <= |list|
    ensures forall i :: 0 <= i < |list| ==> (SortValue(sort, list[i]).Some? <==> i < Keyed(sort, list))
  {
    if list != [] {
      if SortValue(sort, list[0]).None? {
        assert forall i :: 0 < i < |list| ==> Precedes(sort, list[0], list[i]);
      } else {
        KeyedFirst(sort, list[1..]);
        assert forall i :: 0 < i < |list| ==> list[i] == list[1..][i - 1];
      }
    }
  }

  lemma AfterExactly(sort: SortKey, list: seq<JobRow>, n: nat, i: nat)
    requires Ordered(sort, list) && n < |list| && i < |list| && SortValue(sort, list[n]).Some?
    ensures After(sort, CursorAt(sort, list[n]))(list[i]) <==> n < i && SortValue(sort, list[i]).Some?
  {
  }

  /** After the cursor minted at position n come exactly the later rows that have a key. */
  lemma RemainingAfter(sort: SortKey, list: seq<JobRow>, n: nat)
    requires Ordered(sort, list) && n < |list|
    ensures Keyed(sort, list) <= |list|
    ensures Remaining(sort, list, Some(CursorAt(sort, list[n]))) ==
      if n < Keyed(sort, list) then list[n + 1..Keyed(sort, list)] else []
  {
    hide Precedes;
    hide Filter;
    KeyedFirst(sort, list);
    var k, after := Keyed(sort, list), After(sort, CursorAt(sort, list[n]));
    hide Keyed;
    forall i | 0 <= i < |list|
      ensures after(list[i]) <==> n < i < k
    {
      if n < k {
        AfterExactly(sort, list, n, i);
      }
    }
    hide After;
    hide Ordered;
    if n < k {
      FilterStretch(list, n + 1, k, after);
    } else {
      FilterNone(list, after);
    }
  }

  /** The rows a client collects that starts at the cursor and follows next_cursor to its end. */
  ghost function Walk(sort: SortKey, list: seq<JobRow>, cursor: Option<Cursor>, limit: nat, fuel: nat): Option<seq<JobRow>>
    decreases fuel
  {
    var page := PageOf(sort, list, cursor, limit);
    if page.next.None? then Some(page.rows)
    else if fuel == 0 then None
    else Before(page.rows, Walk(sort, list, page.next, limit, fuel - 1))
  }

  function Before(rows: seq<JobRow>, rest: Option<seq<JobRow>>): Option<seq<JobRow>> {
    if rest.None? then None else Some(rows + rest.value)
  }

  /** One step of the walk, read off what is left of the list. */
  lemma WalkStep(sort: SortKey, list: seq<JobRow>, cursor: Option<Cursor>, limit: nat, fuel: nat, left: seq<JobRow>)
    requires limit >= 1 && Remaining(sort, list, cursor) == left
    ensures |left| <= limit ==> Walk(sort, list, cursor, limit, fuel) == Some(left)
    ensures |left| > limit && fuel > 0 ==>
      Walk(sort, list, cursor, limit, fuel) ==
      Before(left[..limit], Walk(sort, list, Some(CursorAt(sort, left[limit - 1])), limit, fuel - 1))
  {
    hide Remaining;
    hide CursorAt;
    assert left[..|left|] == left;
  }

  lemma SlicesJoin<T>(list: seq<T>, i: nat, j: nat, k: nat)
    requires i < j <= k <= |list|
    ensures list[i..k][..j - i] + list[j..k] == list[i..k] && list[i..k][j - i - 1] == list[j - 1]
  {
  }

  /** From a cursor at position n the walk ends within one page per remaining row, and collects
      exactly the later rows that have a key. */
  lemma {:induction false} WalkFrom(sort: SortKey, list: seq<JobRow>, n: nat, limit: nat, fuel: nat)
    requires Ordered(sort, list) && n < |list| && limit >= 1 && fuel >= |list| - n - 1
    ensures Keyed(sort, list) <= |list|
    ensures Walk(sort, list, Some(CursorAt(sort, list[n])), limit, fuel) ==
      Some(if n < Keyed(sort, list) then list[n + 1..Keyed(sort, list)] else [])
    decreases fuel
  {
    hide Ordered;
    hide Remaining;
    hide Walk;
    hide CursorAt;
    hide Keyed;
    RemainingAfter(sort, list, n);
    var k := Keyed(sort, list);
    var left := if n < k then list[n + 1..k] else [];
    WalkStep(sort, list, Some(CursorAt(sort, list[n])), limit, fuel, left);
    if |left| > limit {
      WalkFrom(sort, list, n + limit, limit, fuel - 1);
      SlicesJoin(list, n + 1, n + 1 + limit, k);
    }
  }

  /** The keyset walk against the plain list, exactly: on a fixed snapshot the walk ends, and it
      yields, in order and once each, every row with a key, plus the rows without one only as far
      as they fitted on the first page. */
  lemma WalkExact(sort: SortKey, table: seq<JobRow>, f: JobFilters, limit: nat)
    requires DistinctRows(table) && limit >= 1
    ensures var list := Sorted(sort, Filter(table, WantedBy(f)));
      && Keyed(sort, list) <= |list|
      && Walk(sort, list, None, limit, |list|) == Some(list[..Max(Keyed(sort, list), Min(limit, |list|))])
  {
    FilterDistinct(table, WantedBy(f));
    SortedIsOrdered(sort, Filter(table, WantedBy(f)));
    hide Filter;
    WalkOrdered(sort, Sorted(sort, Filter(table, WantedBy(f))), limit);
  }

  lemma WalkOrdered(sort: SortKey, list: seq<JobRow>, limit: nat)
    requires Ordered(sort, list) && limit >= 1
    ensures Keyed(sort, list) <= |list|
    ensures Walk(sort, list, None, limit, |list|) == Some(list[..Max(Keyed(sort, list), Min(limit, |list|))])
  {
    hide Ordered;
    hide Walk;
    hide CursorAt;
    KeyedFirst(sort, list);
    WalkStep(sort, list, None, limit, |list|, list);
    hide Remaining;
    var k := Keyed(sort, list);
    if |list| > limit {
      WalkFrom(sort, list, limit - 1, limit, |list| - 1);
      hide Keyed;
      if limit - 1 < k {
        assert list[..limit] + list[limit..k] == list[..k];
      } else {
        assert list[..limit] + [] == list[..limit];
      }
    } else {
      assert list[..|list|] == list;
    }
  }

  lemma KeyedIsAll(sort: SortKey, list: seq<JobRow>)
    requires Ordered(sort, list)
    ensures Keyed(sort, list) == |list| <==> forall row :: row in list ==> SortValue(sort, row).Some?
  {
  }

  /** The list holds exactly the wanted rows, in order. */
  lemma ListHolds(sort: SortKey, table: seq<JobRow>, f: JobFilters)
    requires DistinctRows(table)
    ensures var list := Sorted(sort, Filter(table, WantedBy(f)));
      Ordered(sort, list) && forall row :: row in list <==> row in table && Wanted(f, row)
  {
    FilterDistinct(table, WantedBy(f));
    FilterMembers(table, WantedBy(f));
    SortedIsOrdered(sort, Filter(table, WantedBy(f)));
    hide Sorted;
    hide Filter;
    hide Wanted;
    hide Ordered;
  }

  lemma PrefixIsAll<T>(list: seq<T>, n: nat)
    requires n <= |list|
    ensures list[..n] == list <==> n == |list|
  {
  }

  /** So the walk is the whole list if and only if everything fits on one page or every row has a
      key. By first detection it always is. */
  lemma WalkIsComplete(sort: SortKey, table: seq<JobRow>, f: JobFilters, limit: nat)
    requires DistinctRows(table) && limit >= 1
    ensures var list := Sorted(sort, Filter(table, WantedBy(f)));
      Walk(sort, list, None, limit, |list|) == Some(list) <==>
        |list| <= limit || forall row :: row in table && Wanted(f, row) ==> SortValue(sort, row).Some?
  {
    hide Filter;
    hide Sorted;
    hide Walk;
    hide Wanted;
    hide DistinctRows;
    hide Ordered;
    hide Keyed;
    var list := Sorted(sort, Filter(table, WantedBy(f)));
    WalkExact(sort, table, f, limit);
    ListHolds(sort, table, f);
    KeyedIsAll(sort, list);
    PrefixIsAll(list, Max(Keyed(sort, list), Min(limit, |list|)));
  }
}
