/** What one `load` does to the tables, as functions of the rows and the tables before. */
module LoadSpec {
  import opened Prelude
  import opened Schema

  /** The natural key of a job_locations row, with absent parts as empty strings. */
  datatype LocationKey = LocationKey(country: string, state: string, city: string, postal: string)

  /** What the transaction knows besides the rows: the ids the company and location upserts
      returned, the clock, and the run it is part of. */
  datatype Context = Context(companies: map<string, nat>, locations: map<LocationKey, nat>,
                             now: Time, runId: nat)

  /** An existing job a new source row is attached to, and the rule that matched. */
  datatype Target = Target(jobId: JobId, level: DedupeLevel)

  const TITLE_LIMIT := 500

  function Lookup<K, V>(m: map<K, V>, k: K): Option<V> {
    if k in m then Some(m[k]) else None
  }

  function ColumnsOf(row: PreparedJob): Columns {
    var c := row.columns;
    c.(title := c.title[..Min(|c.title|, TITLE_LIMIT)],
       titleNormalized := c.titleNormalized[..Min(|c.titleNormalized|, TITLE_LIMIT)])
  }

  function CompanyOf(row: PreparedJob, cx: Context): Option<nat> {
    Lookup(cx.companies, row.companyExternalId.GetOr(""))
  }

  function LocationOf(row: PreparedJob, cx: Context): Option<nat> {
    var c := row.columns;
    Lookup(cx.locations, LocationKey(c.countryCode.GetOr(""), c.stateCode.GetOr(""),
                                     row.cityNormalized.GetOr(""), row.postalCode.GetOr("")))
  }

  function NewJob(row: PreparedJob, cx: Context): Job {
    Job(ColumnsOf(row), row.source, CompanyOf(row, cx), LocationOf(row, cx), row.industry,
        cx.now, cx.now, None)
  }

  /** The content update: first_seen_at and the source never change, and the company, the
      location and the industry are kept when the row brings none. */
  function Overwrite(job: Job, row: PreparedJob, cx: Context): Job {
    job.(columns := ColumnsOf(row),
         companyId := CompanyOf(row, cx).OrElse(job.companyId),
         locationId := LocationOf(row, cx).OrElse(job.locationId),
         industry := row.industry.OrElse(job.industry),
         lastSeenAt := cx.now, lastUpdatedAt := Some(cx.now))
  }

  function ChangeKind(previous: JobStatus, next: JobStatus): EventType {
    if previous == next then JobUpdated
    else if next == Expired then JobExpired
    else if next == Active then JobReactivated
    else JobUpdated
  }

  /** INSERT ... ON CONFLICT (source, external_job_id) DO NOTHING. */
  function Bind(sources: map<SourceKey, Provenance>, k: SourceKey, p: Provenance)
    : map<SourceKey, Provenance>
  {
    if k in sources then sources else sources[k := p]
  }

  // ---- the four-way split of a batch -------------------------------------------

  predicate Known(t: Tables, row: PreparedJob) {
    KeyOf(row) in t.sources
  }

  function JobIdOf(t: Tables, row: PreparedJob): JobId
    requires Known(t, row)
  {
    t.sources[KeyOf(row)].jobId
  }

  predicate SameContent(t: Tables, row: PreparedJob)
    requires Known(t, row) && JobIdOf(t, row) in t.jobs
  {
    t.jobs[JobIdOf(t, row)].columns.contentHash == row.columns.contentHash
  }

  function NewRows(t: Tables, rows: seq<PreparedJob>): (part: seq<PreparedJob>)
    ensures forall r :: r in part <==> r in rows && !Known(t, r)
  {
    FilterMembers(rows, (r: PreparedJob) => !Known(t, r));
    Filter(rows, (r: PreparedJob) => !Known(t, r))
  }

  function FreshRows(t: Tables, rows: seq<PreparedJob>, targets: map<string, Target>): (part: seq<PreparedJob>)
    ensures forall r :: r in part <==> r in rows && !Known(t, r) && r.externalId !in targets
  {
    FilterMembers(rows, (r: PreparedJob) => !Known(t, r) && r.externalId !in targets);
    Filter(rows, (r: PreparedJob) => !Known(t, r) && r.externalId !in targets)
  }

  function MergeRows(t: Tables, rows: seq<PreparedJob>, targets: map<string, Target>): (part: seq<PreparedJob>)
    ensures forall r :: r in part <==> r in rows && !Known(t, r) && r.externalId in targets
  {
    FilterMembers(rows, (r: PreparedJob) => !Known(t, r) && r.externalId in targets);
    Filter(rows, (r: PreparedJob) => !Known(t, r) && r.externalId in targets)
  }

  ghost predicate IsChanged(t: Tables, r: PreparedJob)
    requires Valid(t)
  {
    Known(t, r) && !SameContent(t, r)
  }

  ghost predicate IsUnchanged(t: Tables, r: PreparedJob)
    requires Valid(t)
  {
    Known(t, r) && SameContent(t, r)
  }

  ghost function ChangedRows(t: Tables, rows: seq<PreparedJob>): (part: seq<PreparedJob>)
    requires Valid(t)
    ensures forall r :: r in part <==> r in rows && IsChanged(t, r)
  {
    FilterMembers(rows, (r: PreparedJob) => IsChanged(t, r));
    Filter(rows, (r: PreparedJob) => IsChanged(t, r))
  }

  ghost function UnchangedRows(t: Tables, rows: seq<PreparedJob>): (part: seq<PreparedJob>)
    requires Valid(t)
    ensures forall r :: r in part <==> r in rows && IsUnchanged(t, r)
  {
    FilterMembers(rows, (r: PreparedJob) => IsUnchanged(t, r));
    Filter(rows, (r: PreparedJob) => IsUnchanged(t, r))
  }

  // ---- the stages, one row at a time --------------------------------------------

  function InsertOne(t: Tables, row: PreparedJob, cx: Context): Tables {
    var id := t.nextId;
    t.(jobs := t.jobs[id := NewJob(row, cx)],
       sources := Bind(t.sources, KeyOf(row), Provenance(id, true, L1SourceId, cx.now, cx.now)),
       events := t.events + [Event(id, JobCreated, cx.runId, None, Some(Active))],
       nextId := id + 1)
  }

  function InsertAll(t: Tables, rows: seq<PreparedJob>, cx: Context): Tables {
    if rows == [] then t else InsertOne(InsertAll(t, Init(rows), cx), Last(rows), cx)
  }

  function MergeOne(t: Tables, row: PreparedJob, target: Target, cx: Context): Tables {
    t.(sources := Bind(t.sources, KeyOf(row),
                       Provenance(target.jobId, false, target.level, cx.now, cx.now)),
       events := t.events + [Event(target.jobId, JobMerged, cx.runId, None, None)])
  }

  function MergeAll(t: Tables, rows: seq<PreparedJob>, targets: map<string, Target>, cx: Context): Tables
    requires forall r :: r in rows ==> r.externalId in targets
  {
    if rows == [] then t
    else MergeOne(MergeAll(t, Init(rows), targets, cx), Last(rows), targets[Last(rows).externalId], cx)
  }

  /** `before` holds the tables as they were when the batch looked up its known rows. */
  function TouchOne(jobs: map<JobId, Job>, before: Tables, row: PreparedJob, cx: Context): map<JobId, Job>
    requires Known(before, row)
  {
    var id := JobIdOf(before, row);
    if id in jobs then jobs[id := jobs[id].(lastSeenAt := cx.now)] else jobs
  }

  function TouchAll(jobs: map<JobId, Job>, before: Tables, rows: seq<PreparedJob>, cx: Context)
    : map<JobId, Job>
    requires forall r :: r in rows ==> Known(before, r)
  {
    if rows == [] then jobs else TouchOne(TouchAll(jobs, before, Init(rows), cx), before, Last(rows), cx)
  }

  function ChangeOne(t: Tables, before: Tables, row: PreparedJob, cx: Context): Tables
    requires Known(before, row) && JobIdOf(before, row) in before.jobs
  {
    var id := JobIdOf(before, row);
    var previous := before.jobs[id].columns.status;
    var next := row.columns.status;
    t.(jobs := if id in t.jobs then t.jobs[id := Overwrite(t.jobs[id], row, cx)] else t.jobs,
       events := t.events + [Event(id, ChangeKind(previous, next), cx.runId, Some(previous), Some(next))])
  }

  function ChangeAll(t: Tables, before: Tables, rows: seq<PreparedJob>, cx: Context): Tables
    requires forall r :: r in rows ==> Known(before, r) && JobIdOf(before, r) in before.jobs
  {
    if rows == [] then t else ChangeOne(ChangeAll(t, before, Init(rows), cx), before, Last(rows), cx)
  }

  function RefreshAll(sources: map<SourceKey, Provenance>, rows: seq<PreparedJob>, now: Time)
    : map<SourceKey, Provenance>
  {
    map k | k in sources :: if exists r :: r in rows && KeyOf(r) == k
                            then sources[k].(lastSeenAt := now) else sources[k]
  }

  // ---- the whole transaction ----------------------------------------------------

  ghost predicate DistinctIds(rows: seq<PreparedJob>) {
    forall i, j :: 0 <= i < j < |rows| ==> rows[i].externalId != rows[j].externalId
  }

  lemma {:induction false} DistinctFilter(rows: seq<PreparedJob>, keep: PreparedJob -> bool)
    requires DistinctIds(rows)
    ensures DistinctIds(Filter(rows, keep))
  {
    if rows != [] {
      DistinctFilter(Init(rows), keep);
      FilterMembers(Init(rows), keep);
      forall r | r in Filter(Init(rows), keep)
        ensures r.externalId != Last(rows).externalId
      {
        assert r in Init(rows);
      }
    }
  }

  /** What `load` asks of a batch: one source, and no id twice. */
  ghost predicate LoadableBatch(rows: seq<PreparedJob>) {
    && DistinctIds(rows)
    && forall r, r' :: r in rows && r' in rows ==> r.source == r'.source
  }

  ghost predicate UrlMatch(t: Tables, row: PreparedJob, id: JobId) {
    id in t.jobs && row.columns.applyUrlHash.Some? && t.jobs[id].columns.applyUrlHash == row.columns.applyUrlHash
  }

  ghost predicate FingerprintMatch(t: Tables, row: PreparedJob, id: JobId) {
    id in t.jobs && t.jobs[id].columns.fingerprint == row.columns.fingerprint
  }

  /** Row `i` is the last new row with its URL hash, and some stored job carries that hash. */
  ghost predicate UrlHit(t: Tables, rows: seq<PreparedJob>, i: int)
    requires 0 <= i < |rows|
  {
    && (exists id :: UrlMatch(t, rows[i], id))
    && forall j :: i < j < |rows| ==> rows[j].columns.applyUrlHash != rows[i].columns.applyUrlHash
  }

  /** Row `i` is the last one with its fingerprint among the rows no URL matched, and some
      stored job carries that fingerprint. */
  ghost predicate FingerprintHit(t: Tables, rows: seq<PreparedJob>, i: int)
    requires 0 <= i < |rows|
  {
    && !UrlHit(t, rows, i)
    && (exists id :: FingerprintMatch(t, rows[i], id))
    && forall j :: i < j < |rows| && !UrlHit(t, rows, j)
         ==> rows[j].columns.fingerprint != rows[i].columns.fingerprint
  }

  ghost predicate TargetFits(t: Tables, rows: seq<PreparedJob>, targets: map<string, Target>, i: int)
    requires 0 <= i < |rows|
  {
    var e := rows[i].externalId;
    if UrlHit(t, rows, i) then
      e in targets && targets[e].level == L2ApplyUrl && UrlMatch(t, rows[i], targets[e].jobId)
    else if FingerprintHit(t, rows, i) then
      e in targets && targets[e].level == L4ContentFingerprint && FingerprintMatch(t, rows[i], targets[e].jobId)
    else e !in targets
  }

  /** The merge targets a query may return. When several stored jobs carry the key the
      query's row order decides, so more than one map qualifies. */
  ghost predicate ValidTargets(t: Tables, rows: seq<PreparedJob>, targets: map<string, Target>) {
    && (forall e :: e in targets ==> exists r :: r in rows && r.externalId == e)
    && forall i :: 0 <= i < |rows| ==> TargetFits(t, rows, targets, i)
  }

  /** The tables after the batch `rows` is loaded with the given merge targets. */
  ghost function Loaded(t: Tables, rows: seq<PreparedJob>, targets: map<string, Target>, cx: Context): Tables
    requires Valid(t)
  {
    var t1 := InsertAll(t, FreshRows(t, rows, targets), cx);
    var t2 := MergeAll(t1, MergeRows(t, rows, targets), targets, cx);
    var t3 := t2.(jobs := TouchAll(t2.jobs, t, UnchangedRows(t, rows), cx));
    var t4 := ChangeAll(t3, t, ChangedRows(t, rows), cx);
    t4.(sources := RefreshAll(t4.sources, rows, cx.now))
  }

  /** Whether every row the transaction writes meets the CHECK constraints of `jobs`. */
  ghost predicate Acceptable(t: Tables, rows: seq<PreparedJob>, targets: map<string, Target>)
    requires Valid(t)
  {
    && (forall r :: r in FreshRows(t, rows, targets) ==> ChecksHold(ColumnsOf(r)))
    && (forall r :: r in ChangedRows(t, rows) ==> ChecksHold(ColumnsOf(r)))
  }

  /** What a batch did, as the run counters see it. */
  datatype LoadResult = LoadResult(inserted: nat, updated: nat, unmodified: nat, merged: nat)

  ghost function ResultOf(t: Tables, rows: seq<PreparedJob>, targets: map<string, Target>): LoadResult
    requires Valid(t)
  {
    LoadResult(|FreshRows(t, rows, targets)|, |ChangedRows(t, rows)|,
               |UnchangedRows(t, rows)|, |MergeRows(t, rows, targets)|)
  }
}
