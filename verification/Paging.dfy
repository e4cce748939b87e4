/** Pages joined by their tokens: the walk a client really makes. */
module Paging {
  import opened Prelude
  import F = Filters
  import K = Keyset
  import C = Cursors

  function SortName(sort: F.SortKey): string {
    match sort
    case PostedAtDesc => "posted_at_desc"
    case FirstSeenDesc => "first_seen_desc"
    case SalaryDesc => "salary_desc"
  }

  /** How a sort value is spelled in a token (isoformat, or the number itself) and read back for the
      query (fromisoformat, or Decimal). */
  datatype Spelling = Spelling(write: real -> C.Value, read: C.Value -> Option<real>)

  ghost predicate Spells(spelling: Spelling, v: real) {
    var text := spelling.write(v);
    && spelling.read(text) == Some(v) && text != C.Null
    && (text.Float? ==> C.IsFloat(text.repr)) && |C.ValueText(text)| <= 64
  }

  /** Identifiers are 64-bit, and the spelling is exact on the values the column holds. */
  ghost predicate Storable(spelling: Spelling, position: F.Cursor) {
    position.id < 0x8000_0000_0000_0000 && (position.value.Some? ==> Spells(spelling, position.value.value))
  }

  ghost predicate AllStorable(spelling: Spelling, sort: F.SortKey, list: seq<F.JobRow>) {
    forall row :: row in list ==> Storable(spelling, K.CursorAt(sort, row))
  }

  function CursorOf(spelling: Spelling, sort: F.SortKey, position: F.Cursor): C.Cursor {
    C.Cursor(if position.value.None? then C.Null else spelling.write(position.value.value), position.id, SortName(sort))
  }

  lemma CursorFits(spelling: Spelling, sort: F.SortKey, position: F.Cursor)
    requires Storable(spelling, position)
    ensures C.WellFormed(CursorOf(spelling, sort, position))
    ensures |C.TextOf(CursorOf(spelling, sort, position))| <= 384
  {
    hide C.ValueText;
    hide C.EscapeAll;
    hide C.Digits;
    hide C.IsFloat;
    assert C.ValueText(C.Null) == "null" by { NullText(); }
    IdLength(position.id);
    SortEscaped(sort);
  }

  lemma NullText()
    ensures C.ValueText(C.Null) == "null"
  {
  }

  lemma IdLength(id: nat)
    requires id < 0x8000_0000_0000_0000
    ensures |C.Digits(id)| <= 19
  {
    assert C.Pow10(5) == 100000;
    assert C.Pow10(10) == 100000 * C.Pow10(5);
    assert C.Pow10(15) == 100000 * C.Pow10(10);
    assert C.Pow10(19) == 10000 * C.Pow10(15);
    C.DigitsLength(id, 19);
  }

  lemma SortEscaped(sort: F.SortKey)
    ensures |C.EscapeAll(SortName(sort))| <= 15 && 1 <= |SortName(sort)| <= 15
  {
    hide C.EscapeAll;
    PlainEscaped(SortName(sort));
  }

  lemma {:induction false} PlainEscaped(s: string)
    requires forall i :: 0 <= i < |s| ==> C.IsPlain(s[i])
    ensures C.EscapeAll(s) == s
  {
    if s != "" {
      PlainEscaped(s[1..]);
    }
  }

  function Mint(spelling: Spelling, sort: F.SortKey, position: F.Cursor): string
    requires C.WellFormed(CursorOf(spelling, sort, position))
  {
    C.EncodeCursor(CursorOf(spelling, sort, position))
  }

  /** _coerce_cursor_value: a token whose value cannot be read is an error. */
  function PositionOf(spelling: Spelling, c: C.Cursor): Option<F.Cursor> {
    if c.value == C.Null then Some(F.Cursor(None, c.id))
    else if spelling.read(c.value).None? then None
    else Some(F.Cursor(spelling.read(c.value), c.id))
  }

  /** The position a request resumes from, if any; None where the request is refused. */
  function Resume(spelling: Spelling, sort: F.SortKey, token: Option<string>): Option<Option<F.Cursor>> {
    match C.ParseCursor(token, SortName(sort))
    case FirstPage => Some(None)
    case Refused => None
    case At(c) => if PositionOf(spelling, c).None? then None else Some(PositionOf(spelling, c))
  }

  lemma PositionBack(spelling: Spelling, sort: F.SortKey, position: F.Cursor)
    requires Storable(spelling, position)
    ensures PositionOf(spelling, CursorOf(spelling, sort, position)) == Some(position)
  {
  }

  /** A minted token leads the next request back to the very position it was minted at. */
  lemma MintedResumes(spelling: Spelling, sort: F.SortKey, position: F.Cursor)
    requires Storable(spelling, position)
    ensures C.WellFormed(CursorOf(spelling, sort, position))
    ensures Resume(spelling, sort, Some(Mint(spelling, sort, position))) == Some(Some(position))
  {
    CursorFits(spelling, sort, position);
    PositionBack(spelling, sort, position);
    var c := CursorOf(spelling, sort, position);
    assert c.sort == SortName(sort);
    hide CursorOf;
    hide PositionOf;
    hide Storable;
    hide C.WellFormed;
    hide C.TextOf;
    hide C.ParseCursor;
    hide C.EncodeCursor;
    hide SortName;
    C.NeverRestarts(c, SortName(sort));
  }

  lemma NextIsStorable(spelling: Spelling, sort: F.SortKey, list: seq<F.JobRow>, cursor: Option<F.Cursor>, limit: nat)
    requires AllStorable(spelling, sort, list)
    ensures var page := K.PageOf(sort, list, cursor, limit); page.next.Some? ==> Storable(spelling, page.next.value)
  {
    var page := K.PageOf(sort, list, cursor, limit);
    if page.next.Some? {
      if cursor.Some? {
        FilterMembers(list, K.After(sort, cursor.value));
      }
      hide K.Remaining;
      hide Storable;
      assert Last(page.rows) in K.Remaining(sort, list, cursor);
    }
  }

  /** The rows a client collects that knows the tokens only. */
  ghost function TokenWalk(spelling: Spelling, sort: F.SortKey, list: seq<F.JobRow>, token: Option<string>, limit: nat, fuel: nat): Option<seq<F.JobRow>>
    requires AllStorable(spelling, sort, list)
    decreases fuel
  {
    var cursor := Resume(spelling, sort, token);
    if cursor.None? then None
    else
      var page := K.PageOf(sort, list, cursor.value, limit);
      NextIsStorable(spelling, sort, list, cursor.value, limit);
      if page.next.None? then Some(page.rows)
      else if fuel == 0 then None
      else
        CursorFits(spelling, sort, page.next.value);
        K.Before(page.rows, TokenWalk(spelling, sort, list, Some(Mint(spelling, sort, page.next.value)), limit, fuel - 1))
  }

  /** Nothing is lost or repeated between the pages because of the tokens: the walk over tokens is
      the walk over positions. */
  lemma {:induction false} TokensCarryTheWalk(spelling: Spelling, sort: F.SortKey, list: seq<F.JobRow>, token: Option<string>, cursor: Option<F.Cursor>, limit: nat, fuel: nat)
    requires AllStorable(spelling, sort, list) && Resume(spelling, sort, token) == Some(cursor)
    ensures TokenWalk(spelling, sort, list, token, limit, fuel) == K.Walk(sort, list, cursor, limit, fuel)
    decreases fuel
  {
    hide Resume;
    hide K.PageOf;
    hide Mint;
    var page := K.PageOf(sort, list, cursor, limit);
    NextIsStorable(spelling, sort, list, cursor, limit);
    if page.next.Some? && fuel > 0 {
      MintedResumes(spelling, sort, page.next.value);
      TokensCarryTheWalk(spelling, sort, list, Some(Mint(spelling, sort, page.next.value)), page.next, limit, fuel - 1);
    }
  }

  /** A client that knows only tokens collects, in order and once each, every wanted row with a key,
      plus the rows without one only as far as they fitted on the first page. */
  lemma TokensCollect(spelling: Spelling, sort: F.SortKey, table: seq<F.JobRow>, f: F.JobFilters, limit: nat)
    requires K.DistinctRows(table) && limit >= 1
    requires AllStorable(spelling, sort, K.Sorted(sort, Filter(table, F.WantedBy(f))))
    ensures var list := K.Sorted(sort, Filter(table, F.WantedBy(f)));
      && K.Keyed(sort, list) <= |list|
      && TokenWalk(spelling, sort, list, None, limit, |list|) == Some(list[..Max(K.Keyed(sort, list), Min(limit, |list|))])
  {
    hide K.Sorted;
    hide Filter;
    hide TokenWalk;
    hide AllStorable;
    var list := K.Sorted(sort, Filter(table, F.WantedBy(f)));
    K.WalkExact(sort, table, f, limit);
    TokensCarryTheWalk(spelling, sort, list, None, None, limit, |list|);
  }
}
