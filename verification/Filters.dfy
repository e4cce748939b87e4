/** The read path: the WHERE clause of the job listing in SQL's three-valued logic, and the
    keyset page it selects. */
module Filters {
  import opened Prelude
  import opened Text

  /** SQL's truth values; a WHERE keeps the rows whose condition is Yes. */
  datatype Truth = Yes | No | Unknown

  function And(a: Truth, b: Truth): Truth {
    if a == No || b == No then No else if a == Unknown || b == Unknown then Unknown else Yes
  }

  function Definite(b: bool): Truth {
    if b then Yes else No
  }

  /** The columns of a job the listing filters or sorts by. Timestamps are microseconds. */
  datatype JobRow = JobRow(
    id: nat, countryCode: Option<string>, stateCode: Option<string>, city: Option<string>, companyId: Option<nat>,
    categorySlug: string, seniorityLevel: string, industry: Option<string>, remoteType: string, employmentType: string,
    status: string, salaryMax: Option<real>, postedAt: Option<real>, postedAtIsValid: bool, firstSeenAt: real)

  datatype SortKey = PostedAtDesc | FirstSeenDesc | SalaryDesc

  function SortValue(sort: SortKey, row: JobRow): Option<real> {
    match sort
    case PostedAtDesc => row.postedAt
    case FirstSeenDesc => Some(row.firstSeenAt)
    case SalaryDesc => row.salaryMax
  }

  /** An empty string, a zero id and an empty list are unset, as is an absent value. */
  datatype JobFilters = JobFilters(
    country: string, state: string, city: string, companyId: nat, category: seq<string>, seniority: seq<string>,
    industry: seq<string>, remote: seq<string>, employmentType: seq<string>, status: string,
    salaryMin: Option<real>, postedSince: Option<real>, seenSince: Option<real>, requireValidPostedAt: bool)

  datatype Cursor = Cursor(value: Option<real>, id: nat)

  datatype Condition =
    | CountryIs(country: string) | StatusIs(status: string) | StateIs(state: string) | CityLike(pattern: string)
    | CompanyIs(company: nat) | CategoryIn(slugs: seq<string>) | SeniorityIn(levels: seq<string>)
    | IndustryIn(industries: seq<string>) | RemoteIn(remotes: seq<string>) | EmploymentIn(employments: seq<string>)
    | SalaryAtLeast(salary: real) | PostedSince(posted: real) | SeenSince(seen: real) | PostedValid
    | Keyset(sort: SortKey, cursor: Cursor)

  /** LIKE: % is any text, _ any character, a backslash makes the next character plain. */
  predicate Like(s: string, pattern: string)
    decreases |pattern|, |s|
  {
    if pattern == [] then s == []
    else if pattern[0] == '%' then Like(s, pattern[1..]) || (s != [] && Like(s[1..], pattern))
    else if pattern[0] == '_' then s != [] && Like(s[1..], pattern[1..])
    else if pattern[0] == '\\' && |pattern| > 1 then s != [] && s[0] == pattern[1] && Like(s[1..], pattern[2..])
    else s != [] && s[0] == pattern[0] && Like(s[1..], pattern[1..])
  }

  function Equals<T(==)>(a: Option<T>, b: T): Truth {
    if a.None? then Unknown else Definite(a.value == b)
  }

  function AtLeast(a: Option<real>, b: real): Truth {
    if a.None? then Unknown else Definite(a.value >= b)
  }

  /** The row comparison (key, id) < (value, id): a NULL on either side of the first pair decides. */
  function RowLess(key: Option<real>, id: nat, value: Option<real>, otherId: nat): Truth {
    if key.None? || value.None? then Unknown
    else Definite(key.value < value.value || (key.value == value.value && id < otherId))
  }

  function Eval(c: Condition, row: JobRow): Truth {
    match c
    case CountryIs(v) => Equals(row.countryCode, v)
    case StatusIs(v) => Definite(row.status == v)
    case StateIs(v) => Equals(row.stateCode, v)
    case CityLike(p) => if row.city.None? then Unknown else Definite(Like(Lower(row.city.value), Lower(p)))
    case CompanyIs(v) => Equals(row.companyId, v)
    case CategoryIn(vs) => Definite(row.categorySlug in vs)
    case SeniorityIn(vs) => Definite(row.seniorityLevel in vs)
    case IndustryIn(vs) => if row.industry.None? then Unknown else Definite(row.industry.value in vs)
    case RemoteIn(vs) => Definite(row.remoteType in vs)
    case EmploymentIn(vs) => Definite(row.employmentType in vs)
    case SalaryAtLeast(v) => AtLeast(row.salaryMax, v)
    case PostedSince(v) => And(AtLeast(row.postedAt, v), Definite(row.postedAtIsValid))
    case SeenSince(v) => Definite(row.firstSeenAt >= v)
    case PostedValid => Definite(row.postedAtIsValid)
    case Keyset(sort, cursor) => RowLess(SortValue(sort, row), row.id, cursor.value, cursor.id)
  }

  function EvalAll(where: seq<Condition>, row: JobRow): Truth {
    if where == [] then Yes else And(EvalAll(Init(where), row), Eval(Last(where), row))
  }

  lemma EvalAllNext(where: seq<Condition>, c: Condition, row: JobRow)
    ensures EvalAll(where + [c], row) == And(EvalAll(where, row), Eval(c, row))
  {
  }

  // ---- what the filters mean ----------------------------------------------------------------

  predicate InList(v: string, list: seq<string>) {
    list == [] || v in list
  }

  predicate PlaceWanted(f: JobFilters, row: JobRow) {
    && (f.country == "" || row.countryCode == Some(Upper(f.country)))
    && (f.status == "" || row.status == f.status)
    && (f.state == "" || row.stateCode == Some(Upper(f.state)))
    && (f.city == "" || (row.city.Some? && Like(Lower(row.city.value), Lower(f.city + "%"))))
    && (f.companyId == 0 || row.companyId == Some(f.companyId))
  }

  predicate KindWanted(f: JobFilters, row: JobRow) {
    && InList(row.categorySlug, f.category) && InList(row.seniorityLevel, f.seniority)
    && (f.industry == [] || (row.industry.Some? && row.industry.value in f.industry))
    && InList(row.remoteType, f.remote) && InList(row.employmentType, f.employmentType)
  }

  predicate NumbersWanted(f: JobFilters, row: JobRow) {
    && (f.salaryMin.Some? ==> row.salaryMax.Some? && row.salaryMax.value >= f.salaryMin.value)
    && (f.postedSince.Some? ==> row.postedAt.Some? && row.postedAt.value >= f.postedSince.value && row.postedAtIsValid)
    && (f.seenSince.Some? ==> row.firstSeenAt >= f.seenSince.value)
    && (f.requireValidPostedAt ==> row.postedAtIsValid)
  }

  /** The filters in plain terms: every one that is set is met by a value the row has. */
  predicate Wanted(f: JobFilters, row: JobRow) {
    PlaceWanted(f, row) && KindWanted(f, row) && NumbersWanted(f, row)
  }

  const NO_FILTER := JobFilters("", "", "", 0, [], [], [], [], [], "", None, None, None, false)

  /** What each filter asks on its own; without any, every row is wanted. */
  lemma EachFilterAlone(row: JobRow, text: string, id: nat, list: seq<string>, value: real)
    requires text != "" && id != 0 && list != []
    ensures Wanted(NO_FILTER, row)
    ensures Wanted(NO_FILTER.(country := text), row) <==> row.countryCode.Some? && row.countryCode.value == Upper(text)
    ensures Wanted(NO_FILTER.(state := text), row) <==> row.stateCode.Some? && row.stateCode.value == Upper(text)
    ensures Wanted(NO_FILTER.(status := text), row) <==> row.status == text
    ensures Wanted(NO_FILTER.(city := text), row) <==> row.city.Some? && Like(Lower(row.city.value), Lower(text + "%"))
    ensures Wanted(NO_FILTER.(companyId := id), row) <==> row.companyId.Some? && row.companyId.value == id
    ensures Wanted(NO_FILTER.(category := list), row) <==> row.categorySlug in list
    ensures Wanted(NO_FILTER.(seniority := list), row) <==> row.seniorityLevel in list
    ensures Wanted(NO_FILTER.(industry := list), row) <==> row.industry.Some? && row.industry.value in list
    ensures Wanted(NO_FILTER.(remote := list), row) <==> row.remoteType in list
    ensures Wanted(NO_FILTER.(employmentType := list), row) <==> row.employmentType in list
    ensures Wanted(NO_FILTER.(salaryMin := Some(value)), row) <==> row.salaryMax.Some? && row.salaryMax.value >= value
    ensures Wanted(NO_FILTER.(postedSince := Some(value)), row) <==>
      row.postedAt.Some? && row.postedAt.value >= value && row.postedAtIsValid
    ensures Wanted(NO_FILTER.(seenSince := Some(value)), row) <==> row.firstSeenAt >= value
    ensures Wanted(NO_FILTER.(requireValidPostedAt := true), row) <==> row.postedAtIsValid
  {
    hide Like;
    hide Lower;
    hide Upper;
  }

  /** And filters are joined by "and". */
  lemma FiltersConjoin(f: JobFilters, row: JobRow)
    ensures Wanted(f, row) <==>
      && Wanted(NO_FILTER.(country := f.country), row) && Wanted(NO_FILTER.(state := f.state), row)
      && Wanted(NO_FILTER.(city := f.city), row) && Wanted(NO_FILTER.(status := f.status), row)
      && Wanted(NO_FILTER.(companyId := f.companyId), row) && Wanted(NO_FILTER.(category := f.category), row)
      && Wanted(NO_FILTER.(seniority := f.seniority), row) && Wanted(NO_FILTER.(industry := f.industry), row)
      && Wanted(NO_FILTER.(remote := f.remote), row) && Wanted(NO_FILTER.(employmentType := f.employmentType), row)
      && Wanted(NO_FILTER.(salaryMin := f.salaryMin), row) && Wanted(NO_FILTER.(postedSince := f.postedSince), row)
      && Wanted(NO_FILTER.(seenSince := f.seenSince), row)
      && Wanted(NO_FILTER.(requireValidPostedAt := f.requireValidPostedAt), row)
  {
    hide Like;
    hide Lower;
    hide Upper;
  }

  function WantedBy(f: JobFilters): JobRow -> bool {
    (row: JobRow) => Wanted(f, row)
  }

  /** A list of optional conditions: those that are present, appended in order. */
  method Append(where: seq<Condition>, present: bool, c: Condition) returns (where': seq<Condition>)
    ensures forall row :: EvalAll(where', row) == Yes <==> EvalAll(where, row) == Yes && (present ==> Eval(c, row) == Yes)
  {
    where' := where;
    if present {
      where' := where + [c];
      forall row
        ensures EvalAll(where', row) == And(EvalAll(where, row), Eval(c, row))
      {
        EvalAllNext(where, c, row);
      }
    }
  }

  /** _build_where: the composed clause keeps exactly the wanted rows, NULLs included. */
  method BuildWhere(f: JobFilters) returns (where: seq<Condition>)
    ensures forall row :: EvalAll(where, row) == Yes <==> Wanted(f, row)
  {
    where := AppendPlace([], f);
    where := AppendKind(where, f);
    where := AppendNumbers(where, f);
  }

  method AppendPlace(start: seq<Condition>, f: JobFilters) returns (where: seq<Condition>)
    ensures forall row :: EvalAll(where, row) == Yes <==> EvalAll(start, row) == Yes && PlaceWanted(f, row)
  {
    where := Append(start, f.country != "", CountryIs(Upper(f.country)));
    where := Append(where, f.status != "", StatusIs(f.status));
    where := Append(where, f.state != "", StateIs(Upper(f.state)));
    where := Append(where, f.city != "", CityLike(f.city + "%"));
    where := Append(where, f.companyId != 0, CompanyIs(f.companyId));
  }

  method AppendKind(start: seq<Condition>, f: JobFilters) returns (where: seq<Condition>)
    ensures forall row :: EvalAll(where, row) == Yes <==> EvalAll(start, row) == Yes && KindWanted(f, row)
  {
    where := Append(start, f.category != [], CategoryIn(f.category));
    where := Append(where, f.seniority != [], SeniorityIn(f.seniority));
    where := Append(where, f.industry != [], IndustryIn(f.industry));
    where := Append(where, f.remote != [], RemoteIn(f.remote));
    where := Append(where, f.employmentType != [], EmploymentIn(f.employmentType));
  }

  method AppendNumbers(start: seq<Condition>, f: JobFilters) returns (where: seq<Condition>)
    ensures forall row :: EvalAll(where, row) == Yes <==> EvalAll(start, row) == Yes && NumbersWanted(f, row)
  {
    where := Append(start, f.salaryMin.Some?, SalaryAtLeast(f.salaryMin.GetOr(0.0)));
    where := Append(where, f.postedSince.Some?, PostedSince(f.postedSince.GetOr(0.0)));
    where := Append(where, f.seenSince.Some?, SeenSince(f.seenSince.GetOr(0.0)));
    where := Append(where, f.requireValidPostedAt, PostedValid);
  }

  predicate Plain(s: string) {
    forall i :: 0 <= i < |s| ==> s[i] != '%' && s[i] != '_' && s[i] != '\\'
  }

  lemma {:induction false} AnyTail(s: string)
    ensures Like(s, "%")
  {
    if s != [] {
      AnyTail(s[1..]);
    }
    assert "%"[1..] == "";
  }

  /** The city filter is the case-insensitive prefix match it is meant to be, for cities without
      LIKE's own characters. */
  lemma {:induction false} PrefixMatch(s: string, p: string)
    requires Plain(p)
    ensures Like(s, p + "%") <==> p <= s
  {
    if p == [] {
      assert p + "%" == "%";
      AnyTail(s);
    } else {
      assert (p + "%")[1..] == p[1..] + "%";
      if s != [] {
        PrefixMatch(s[1..], p[1..]);
        assert p <= s <==> s[0] == p[0] && p[1..] <= s[1..];
      }
    }
  }

  /** A text that the pattern matches although it need not begin with it: what % stands for left out,
      some letter for _, and the escaped characters bare. */
  function Sample(p: string): string
    decreases |p|
  {
    if p == "" then ""
    else if p[0] == '%' then Sample(p[1..])
    else if p[0] == '_' then "x" + Sample(p[1..])
    else if p[0] == '\\' then if |p| == 1 then "%" else [p[1]] + Sample(p[2..])
    else [p[0]] + Sample(p[1..])
  }

  lemma {:induction false} SampleMatches(p: string)
    ensures Like(Sample(p), p + "%")
    decreases |p|
  {
    if p == "" {
      AnyTail("");
      assert p + "%" == "%";
    } else if p == "\\" {
      assert (p + "%")[2..] == "" && Sample(p)[1..] == "";
    } else if p[0] == '\\' {
      SampleMatches(p[2..]);
      assert (p + "%")[2..] == p[2..] + "%" && Sample(p)[1..] == Sample(p[2..]);
    } else {
      SampleMatches(p[1..]);
      assert (p + "%")[1..] == p[1..] + "%";
    }
  }

  lemma {:induction false} SampleDiffers(p: string)
    ensures |Sample(p)| <= |p| && (Sample(p) == p <==> Plain(p))
    decreases |p|
  {
    if p != "" {
      assert p == [p[0]] + p[1..];
      if p[0] == '\\' && |p| > 1 {
        SampleDiffers(p[2..]);
      } else {
        SampleDiffers(p[1..]);
        assert Plain(p) ==> Plain(p[1..]);
      }
    }
  }

  /** The sample does not begin with a pattern that is not plain. */
  lemma SampleIsNoPrefix(p: string)
    requires !Plain(p)
    ensures Like(Sample(p), p + "%") && !(p <= Sample(p))
  {
    SampleMatches(p);
    SampleDiffers(p);
    hide Plain;
    hide Like;
    hide Sample;
  }

  /** It is a prefix match for exactly those cities. */
  lemma PrefixExactly(p: string)
    ensures Plain(p) ==> forall s :: Like(s, p + "%") <==> p <= s
    ensures !Plain(p) ==> exists s :: Like(s, p + "%") && !(p <= s)
  {
    hide Plain;
    hide Like;
    if Plain(p) {
      forall s
        ensures Like(s, p + "%") <==> p <= s
      {
        PrefixMatch(s, p);
      }
    } else {
      SampleIsNoPrefix(p);
    }
  }

  predicate NoCapitals(s: string) {
    forall i :: 0 <= i < |s| ==> !IsUpper(s[i])
  }

  lemma {:induction false} SampleHasNoCapitals(p: string)
    requires NoCapitals(p)
    ensures NoCapitals(Sample(p))
    decreases |p|
  {
    if p != "" {
      if p[0] == '\\' && |p| > 1 {
        SampleHasNoCapitals(p[2..]);
      } else {
        SampleHasNoCapitals(p[1..]);
      }
    }
  }

  lemma LowerKeepsPlain(s: string)
    ensures Plain(Lower(s)) <==> Plain(s)
    ensures NoCapitals(s) ==> Lower(s) == s
  {
    assert forall i :: 0 <= i < |s| ==> Lower(s)[i] == LowerChar(s[i]);
    assert forall c :: (LowerChar(c) == '%' <==> c == '%') && (LowerChar(c) == '_' <==> c == '_') && (LowerChar(c) == '\\' <==> c == '\\');
    hide LowerChar;
  }

  predicate BeginsWith(row: JobRow, city: string) {
    row.city.Some? && Lower(city) <= Lower(row.city.value)
  }

  lemma CityMatch(city: string, row: JobRow)
    ensures Eval(CityLike(city + "%"), row) == Yes <==> row.city.Some? && Like(Lower(row.city.value), Lower(city) + "%")
  {
    assert Lower(city + "%") == Lower(city) + "%";
  }

  /** For a city without LIKE's own characters the filter keeps the rows whose city begins with the
      text, in any case, and no others; for any other city it keeps a row whose city does not. */
  lemma CityIsPrefix(city: string, row: JobRow)
    ensures Plain(city) ==> (Eval(CityLike(city + "%"), row) == Yes <==> BeginsWith(row, city))
    ensures !Plain(city) ==>
      var other := row.(city := Some(Sample(Lower(city)))); Eval(CityLike(city + "%"), other) == Yes && !BeginsWith(other, city)
  {
    var p := Lower(city);
    LowerKeepsPlain(city);
    CityMatch(city, row);
    if Plain(city) {
      if row.city.Some? {
        PrefixMatch(Lower(row.city.value), p);
      }
    } else {
      SampleIsNoPrefix(p);
      SampleHasNoCapitals(p);
      LowerKeepsPlain(Sample(p));
      CityMatch(city, row.(city := Some(Sample(p))));
    }
    hide Eval;
    hide Like;
    hide Sample;
    hide Lower;
  }

  function Count(table: seq<JobRow>, f: JobFilters): nat {
    |Filter(table, WantedBy(f))|
  }

  function InCategory(slug: string): JobRow -> bool {
    (row: JobRow) => row.categorySlug == slug
  }

  /** The facet joins the jobs of a category that meet the filters without the category one. */
  function FacetCount(table: seq<JobRow>, f: JobFilters, slug: string): nat {
    |Filter(Filter(table, InCategory(slug)), WantedBy(f.(category := [])))|
  }

  /** A facet's number is the number its click leads to: the count of a category under the other
      filters is the count of the listing narrowed to that category. */
  lemma FacetIsCount(table: seq<JobRow>, f: JobFilters, slug: string)
    ensures FacetCount(table, f, slug) == Count(table, f.(category := [slug]))
  {
    FilterTwice(table, InCategory(slug), WantedBy(f.(category := [])), WantedBy(f.(category := [slug])));
  }
}
