/** What the pipeline decides about one record: its stages from validation to the prepared row. */
module Preparation {
  import opened Prelude
  import opened Schema
  import opened Sync
  import opened Text
  import LoadSpec
  import Freshness
  import Retention

  datatype Settings = Settings(
    countryAllowlist: set<string>, categoryAllowlist: set<string>, categoryBlocklist: set<string>,
    maxAgeDays: nat, fallbackToFirstSeen: bool, maxFutureHours: nat, minPostedAt: Time, chunkSize: nat, unicode: Unicode)

  /** The clock readings of one record, in the order they are taken. */
  datatype Clock = Clock(assessedAt: Time, cutoffAt: Time, fallbackAt: Time) {
    ghost predicate Ordered() { assessedAt <= cutoffAt <= fallbackAt }
  }

  /** A record as the connector normalizes it, with the answers of the location, role and dedupe
      services to it. `draft` holds the columns no stage below decides. */
  datatype SourceRecord = SourceRecord(
    externalId: string, isValid: bool, reasons: seq<Reason>, rawStatus: Option<string>,
    postedAt: Option<Time>, closedAt: Option<Time>, salaryMin: Option<real>, salaryMax: Option<real>,
    currency: Option<string>, draft: PreparedJob)

  /** What the connector guarantees: a rejection states a reason, and a row carries its source
      and its id. */
  ghost predicate WellFormed(rec: SourceRecord, source: string) {
    && (!rec.isValid ==> rec.reasons != [])
    && rec.draft.source == source && rec.draft.externalId == rec.externalId
  }

  /** The row, when the record is kept, and every reason recorded for it either way. */
  datatype Prepared = Prepared(row: Option<PreparedJob>, reasons: seq<Reason>)

  const MAX_SALARY := 100_000_000.0

  predicate Believable(v: Option<real>) {
    v.Some? && 0.0 <= v.value <= MAX_SALARY
  }

  function OrderSalary(low: Option<real>, high: Option<real>): (Option<real>, Option<real>) {
    if Believable(low) && Believable(high) then
      if low.value <= high.value then (low, high) else (high, low)
    else if Believable(low) then (low, None)
    else if Believable(high) then (high, None)
    else (None, None)
  }

  /** strip and upper of the source's currency. */
  function Capitals(code: Option<string>, u: Unicode): string {
    if code.GetOr("") == "" then "" else u.upper(u.strip(code.value))
  }

  /** Any three letters, of any alphabet. */
  function ValidCurrency(code: Option<string>, u: Unicode): Option<string> {
    var candidate := Capitals(code, u);
    if |candidate| == 3 && u.AllLetters(candidate) then Some(candidate) else None
  }

  function DefectReason(d: Freshness.PostedDefect): Reason {
    match d
    case FuturePostedAt => Reason.FuturePostedAt
    case ImplausiblePostedAt => Reason.ImplausiblePostedAt
  }

  function Assessed(s: Settings, rec: SourceRecord, clock: Clock): Freshness.Assessment {
    Freshness.Assess(rec.postedAt, clock.assessedAt, s.maxFutureHours, s.minPostedAt)
  }

  function DefectReasons(a: Freshness.Assessment): seq<Reason> {
    if a.defect.Some? then [DefectReason(a.defect.value)] else []
  }

  /** The freshness window: the employer's date when trusted, else now when the fallback is on. */
  predicate TooOldFor(s: Settings, a: Freshness.Assessment, clock: Clock) {
    s.maxAgeDays > 0
    && var dated := if a.isValid then a.postedAt else None;
       var reference := if dated.None? && s.fallbackToFirstSeen then Some(clock.fallbackAt) else dated;
       reference.None? || reference.value < clock.cutoffAt - s.maxAgeDays * DAY
  }

  predicate OutOfScope(s: Settings, category: string) {
    (s.categoryAllowlist != {} && category !in s.categoryAllowlist) || category in s.categoryBlocklist
  }

  function StatusOf(rec: SourceRecord): JobStatus {
    if Lower(rec.rawStatus.GetOr("")) == "closed" then Expired else Active
  }

  function FinishColumns(s: Settings, rec: SourceRecord, a: Freshness.Assessment): Columns {
    var c, status, salary := rec.draft.columns, StatusOf(rec), OrderSalary(rec.salaryMin, rec.salaryMax);
    c.(postedAt := a.postedAt, postedAtIsValid := a.isValid, status := status,
       closedAt := if status == Expired && rec.closedAt.None? && c.closeAt.None? then c.sourceFetchedAt else rec.closedAt,
       salaryMin := salary.0, salaryMax := salary.1, salaryCurrency := ValidCurrency(rec.currency, s.unicode))
  }

  function Prepare(s: Settings, rec: SourceRecord, clock: Clock): Prepared {
    var c := rec.draft.columns;
    var a := Assessed(s, rec, clock);
    if !rec.isValid then Prepared(None, rec.reasons)
    else if s.countryAllowlist != {} && (c.countryCode.None? || c.countryCode.value !in s.countryAllowlist) then
      Prepared(None, [if c.countryCode.None? then InvalidCountry else CountryNotAllowed])
    else if TooOldFor(s, a, clock) then Prepared(None, DefectReasons(a) + [TooOld])
    else if OutOfScope(s, c.categorySlug) then Prepared(None, DefectReasons(a) + [CategoryNotAllowed])
    else Prepared(Some(rec.draft.(columns := FinishColumns(s, rec, a))), DefectReasons(a))
  }

  /** Nothing is dropped silently: a record that is not kept has a reason. */
  lemma RejectionHasReason(s: Settings, rec: SourceRecord, clock: Clock, source: string)
    requires WellFormed(rec, source)
    ensures var p := Prepare(s, rec, clock);
      if p.row.None? then p.reasons != [] else KeyOf(p.row.value) == SourceKey(source, rec.externalId)
  {
  }

  // ---- what the record says, and what is stored ------------------------------------------------------

  /** The source reports the posting closed. */
  predicate SaysClosed(rec: SourceRecord) {
    rec.rawStatus.Some? && Lower(rec.rawStatus.value) == "closed"
  }

  /** A posting date between the first instant allowed and the last one, both included. */
  predicate Dated(s: Settings, rec: SourceRecord, clock: Clock) {
    rec.postedAt.Some? && s.minPostedAt <= rec.postedAt.value <= clock.assessedAt + s.maxFutureHours * 3_600_000_000
  }

  /** Between nothing and a hundred million. */
  predicate Plausible(v: Option<real>) {
    v.Some? && 0.0 <= v.value && v.value <= 100_000_000.0
  }

  /** Two plausible bounds are stored in ascending order, a lone one as the minimum, any other not. */
  predicate SalaryStored(low: Option<real>, high: Option<real>, min: Option<real>, max: Option<real>) {
    && (Plausible(low) && Plausible(high) ==>
          && min.Some? && max.Some? && min.value <= max.value
          && ((min == low && max == high) || (min == high && max == low)))
    && (Plausible(low) && !Plausible(high) ==> min == low && max.None?)
    && (!Plausible(low) && Plausible(high) ==> min == high && max.None?)
    && (!Plausible(low) && !Plausible(high) ==> min.None? && max.None?)
  }

  /** What is stored of a record that is kept, field by field; everything else is as the services drafted it. */
  lemma PreparedRow(s: Settings, rec: SourceRecord, clock: Clock)
    requires Prepare(s, rec, clock).row.Some?
    ensures var row, d := Prepare(s, rec, clock).row.value, rec.draft.columns;
      var c := row.columns;
      && row == rec.draft.(columns := d.(postedAt := c.postedAt, postedAtIsValid := c.postedAtIsValid, status := c.status, closedAt := c.closedAt,
                                         salaryMin := c.salaryMin, salaryMax := c.salaryMax, salaryCurrency := c.salaryCurrency))
      && c.status == (if SaysClosed(rec) then Expired else Active)
      && c.closedAt == (if rec.closedAt.Some? then rec.closedAt
                        else if SaysClosed(rec) && d.closeAt.None? then d.sourceFetchedAt else None)
      && c.postedAt == rec.postedAt && (c.postedAtIsValid <==> Dated(s, rec, clock))
      && SalaryStored(rec.salaryMin, rec.salaryMax, c.salaryMin, c.salaryMax)
      && (c.salaryCurrency.Some? <==>
            rec.currency.GetOr("") != "" && |s.unicode.upper(s.unicode.strip(rec.currency.value))| == 3
            && s.unicode.AllLetters(s.unicode.upper(s.unicode.strip(rec.currency.value))))
      && (c.salaryCurrency.Some? ==> c.salaryCurrency.value == s.unicode.upper(s.unicode.strip(rec.currency.value)))
  {
  }

  predicate CountryRefused(s: Settings, rec: SourceRecord) {
    var code := rec.draft.columns.countryCode;
    s.countryAllowlist != {} && (code.None? || code.value !in s.countryAllowlist)
  }

  /** Its date, when that can be trusted, or else the instant it is seen, when that may stand in, lies
      before the window; or nothing may stand in. */
  predicate OutsideWindow(s: Settings, rec: SourceRecord, clock: Clock) {
    s.maxAgeDays > 0 &&
    if Dated(s, rec, clock) then rec.postedAt.value < clock.cutoffAt - s.maxAgeDays * 86_400_000_000
    else s.fallbackToFirstSeen ==> clock.fallbackAt < clock.cutoffAt - s.maxAgeDays * 86_400_000_000
  }

  predicate CategoryRefused(s: Settings, rec: SourceRecord) {
    var slug := rec.draft.columns.categorySlug;
    (s.categoryAllowlist != {} && slug !in s.categoryAllowlist) || slug in s.categoryBlocklist
  }

  /** A record with a date that is not trusted says so, kept or not. */
  function DateReasons(s: Settings, rec: SourceRecord, clock: Clock): seq<Reason> {
    if rec.postedAt.None? || Dated(s, rec, clock) then []
    else if rec.postedAt.value > clock.assessedAt + s.maxFutureHours * 3_600_000_000 then [Reason.FuturePostedAt]
    else [Reason.ImplausiblePostedAt]
  }

  /** A record is kept if and only if none of the four stages refuses it, and its reasons are those of the
      first that does. */
  lemma KeptExactly(s: Settings, rec: SourceRecord, clock: Clock)
    ensures Prepare(s, rec, clock).row.Some? <==>
      rec.isValid && !CountryRefused(s, rec) && !OutsideWindow(s, rec, clock) && !CategoryRefused(s, rec)
    ensures Prepare(s, rec, clock).reasons ==
      if !rec.isValid then rec.reasons
      else if CountryRefused(s, rec) then [if rec.draft.columns.countryCode.None? then InvalidCountry else CountryNotAllowed]
      else if OutsideWindow(s, rec, clock) then DateReasons(s, rec, clock) + [TooOld]
      else if CategoryRefused(s, rec) then DateReasons(s, rec, clock) + [CategoryNotAllowed]
      else DateReasons(s, rec, clock)
  {
  }

  /** The stripped, upper-case currency is three letters, but not three of A to Z. */
  predicate StrayCurrency(s: Settings, rec: SourceRecord) {
    var candidate := Capitals(rec.currency, s.unicode);
    |candidate| == 3 && s.unicode.AllLetters(candidate) && !UpperLetters(candidate, 3)
  }

  /** The located country is no two ASCII capitals. */
  predicate StrayCountry(rec: SourceRecord) {
    rec.draft.columns.countryCode.Some? && !UpperLetters(rec.draft.columns.countryCode.value, 2)
  }

  /** The prepared row meets the CHECK constraints of `jobs` if and only if it is no closed record
      without any timestamp to record the closure, and neither its currency nor its country is
      spelled in letters beyond ASCII. Transposed or absurd salaries, malformed currencies and
      untrusted dates never abort a batch. */
  lemma PreparedMeetsChecks(s: Settings, rec: SourceRecord, clock: Clock)
    requires Prepare(s, rec, clock).row.Some?
    ensures var row, c := Prepare(s, rec, clock).row.value, rec.draft.columns;
      ChecksHold(LoadSpec.ColumnsOf(row)) <==>
        && (SaysClosed(rec) ==> rec.closedAt.Some? || c.closeAt.Some? || c.sourceFetchedAt.Some?)
        && !StrayCurrency(s, rec) && !StrayCountry(rec)
  {
  }

  /** In ASCII no currency is stray. */
  lemma AsciiCurrencyIsSafe(s: Settings, rec: SourceRecord)
    requires s.unicode.Standard() && IsAscii(rec.currency.GetOr(""))
    ensures !StrayCurrency(s, rec)
  {
    if rec.currency.GetOr("") != "" {
      var code := rec.currency.value;
      var i, j := StripPart(code);
      hide Strip;
      var stripped := Strip(code);
      assert IsAscii(stripped);
      assert forall k :: 0 <= k < |stripped| ==> Upper(stripped)[k] == UpperChar(stripped[k]);
    }
  }

  /** An allowlist of ASCII codes keeps stray countries out. */
  lemma AllowlistIsSafe(s: Settings, rec: SourceRecord, clock: Clock)
    requires Prepare(s, rec, clock).row.Some? && s.countryAllowlist != {}
    requires forall code :: code in s.countryAllowlist ==> UpperLetters(code, 2)
    ensures !StrayCountry(rec)
  {
  }

  /** A record in hryvnias, written in Ukrainian, passes every stage, and the batch that inserts it
      is refused. */
  lemma HryvniaAbortsBatch(s: Settings, rec: SourceRecord, clock: Clock, t: Tables, rows: seq<PreparedJob>,
                           targets: map<string, LoadSpec.Target>)
    requires rec.currency == Some("грн") && s.unicode.upper(s.unicode.strip("грн")) == "ГРН"
    requires s.unicode.isLetter('Г') && s.unicode.isLetter('Р') && s.unicode.isLetter('Н')
    requires Prepare(s, rec, clock).row.Some? && Valid(t)
    requires Prepare(s, rec, clock).row.value in LoadSpec.FreshRows(t, rows, targets)
    ensures !LoadSpec.Acceptable(t, rows, targets)
  {
    PreparedMeetsChecks(s, rec, clock);
    assert !UpperLetters("ГРН", 3) by {
      assert "ГРН"[0] > 'Z';
    }
    assert StrayCurrency(s, rec);
  }

  /** The gate and the retention pass judge a job alike: with the fallback on and equal windows, a
      record passes the age gate if and only if the job it becomes is in the retention window at
      the instant of the gate. */
  lemma GateAgreesWithRetention(s: Settings, rec: SourceRecord, clock: Clock, cx: LoadSpec.Context, row: PreparedJob)
    requires clock.Ordered() && clock.fallbackAt <= cx.now
    requires s.maxAgeDays > 0 && s.fallbackToFirstSeen
    requires row.columns.postedAt == Assessed(s, rec, clock).postedAt
    requires row.columns.postedAtIsValid == Assessed(s, rec, clock).isValid
    ensures !TooOldFor(s, Assessed(s, rec, clock), clock) <==>
      !Retention.OutOfWindow(LoadSpec.NewJob(row, cx), clock.cutoffAt - s.maxAgeDays * DAY)
  {
  }

  /** Without the fallback the gate is stricter: a record without a usable date is turned away
      although retention would keep it. */
  lemma GateIsStricterWithoutFallback(s: Settings, rec: SourceRecord, clock: Clock, cx: LoadSpec.Context, row: PreparedJob)
    requires clock.Ordered() && clock.fallbackAt <= cx.now
    requires s.maxAgeDays > 0 && !s.fallbackToFirstSeen
    requires row.columns.postedAt == Assessed(s, rec, clock).postedAt
    requires row.columns.postedAtIsValid == Assessed(s, rec, clock).isValid
    ensures !TooOldFor(s, Assessed(s, rec, clock), clock) <==>
      Assessed(s, rec, clock).isValid
      && !Retention.OutOfWindow(LoadSpec.NewJob(row, cx), clock.cutoffAt - s.maxAgeDays * DAY)
  {
  }
}
