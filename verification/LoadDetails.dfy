/** What a load leaves in each column of each table, said of the tables before and after it alone. */
module LoadDetails {
  import opened Prelude
  import opened Schema
  import opened LoadSpec
  import opened LoadEffects

  // ---- the rows of a batch, by what the tables hold of them ------------------------------------

  /** The row's source id is bound to this job. */
  predicate BoundTo(t: Tables, r: PreparedJob, id: JobId) {
    var k := SourceKey(r.source, r.externalId);
    k in t.sources && t.sources[k].jobId == id
  }

  /** And the job's content is another. */
  predicate Differs(t: Tables, r: PreparedJob, id: JobId) {
    BoundTo(t, r, id) && id in t.jobs && t.jobs[id].columns.contentHash != r.columns.contentHash
  }

  function Seeing(t: Tables, id: JobId): PreparedJob -> bool {
    (r: PreparedJob) => BoundTo(t, r, id)
  }

  function Repeating(t: Tables, id: JobId): PreparedJob -> bool {
    (r: PreparedJob) => BoundTo(t, r, id) && !Differs(t, r, id)
  }

  function Rewriting(t: Tables, id: JobId): PreparedJob -> bool {
    (r: PreparedJob) => Differs(t, r, id)
  }

  function CompanyName(r: PreparedJob): string {
    if r.companyExternalId.Some? then r.companyExternalId.value else ""
  }

  function PlaceName(r: PreparedJob): LocationKey {
    LocationKey(if r.columns.countryCode.Some? then r.columns.countryCode.value else "",
                if r.columns.stateCode.Some? then r.columns.stateCode.value else "",
                if r.cityNormalized.Some? then r.cityNormalized.value else "",
                if r.postalCode.Some? then r.postalCode.value else "")
  }

  /** The ids the upserts returned for what the row brings. */
  function CompanyId(cx: Context): PreparedJob -> Option<nat> {
    (r: PreparedJob) => if CompanyName(r) in cx.companies then Some(cx.companies[CompanyName(r)]) else None
  }

  function PlaceId(cx: Context): PreparedJob -> Option<nat> {
    (r: PreparedJob) => if PlaceName(r) in cx.locations then Some(cx.locations[PlaceName(r)]) else None
  }

  function IndustryOf(): PreparedJob -> Option<string> {
    (r: PreparedJob) => r.industry
  }

  /** The row differs and brings one. */
  function Bringing<T>(t: Tables, id: JobId, part: PreparedJob -> Option<T>): PreparedJob -> bool {
    (r: PreparedJob) => Differs(t, r, id) && part(r).Some?
  }

  function Short(s: string): string {
    if |s| <= 500 then s else s[..500]
  }

  /** The columns a row brings, with titles that fit. */
  function Saved(): PreparedJob -> Columns {
    (r: PreparedJob) => r.columns.(title := Short(r.columns.title), titleNormalized := Short(r.columns.titleNormalized))
  }

  ghost predicate Any(rows: seq<PreparedJob>, p: PreparedJob -> bool) {
    exists r :: r in rows && p(r)
  }

  /** Row i is the last one of the kind. */
  ghost predicate LastOf(rows: seq<PreparedJob>, i: int, p: PreparedJob -> bool) {
    0 <= i < |rows| && p(rows[i]) && forall j :: i < j < |rows| ==> !p(rows[j])
  }

  /** What the last row of the kind says, or what was there before when there is none. */
  ghost predicate Latest<T>(rows: seq<PreparedJob>, p: PreparedJob -> bool, part: PreparedJob -> T, before: T, after: T) {
    if Any(rows, p) then exists i :: LastOf(rows, i, p) && after == part(rows[i]) else after == before
  }

  lemma AnyNext(rows: seq<PreparedJob>, p: PreparedJob -> bool)
    requires rows != []
    ensures Any(rows, p) <==> Any(Init(rows), p) || p(Last(rows))
    ensures forall i :: LastOf(rows, i, p) <==> if p(Last(rows)) then i == |rows| - 1 else LastOf(Init(rows), i, p)
  {
    assert rows == Init(rows) + [Last(rows)];
    assert Last(rows) in rows;
    if Any(Init(rows), p) {
      var r :| r in Init(rows) && p(r);
      assert r in rows;
    }
  }

  lemma LatestNext<T>(rows: seq<PreparedJob>, p: PreparedJob -> bool, part: PreparedJob -> T, before: T, after: T)
    requires rows != [] && Latest(Init(rows), p, part, before, after)
    ensures Latest(rows, p, part, before, if p(Last(rows)) then part(Last(rows)) else after)
  {
    AnyNext(rows, p);
    if p(Last(rows)) {
      assert LastOf(rows, |rows| - 1, p);
    } else if Any(Init(rows), p) {
      var i :| LastOf(Init(rows), i, p) && after == part(Init(rows)[i]);
      assert LastOf(rows, i, p);
    }
    hide Any;
  }

  // ---- a job ---------------------------------------------------------------------------------------

  /** A job after a load: seen now when such a row is in the batch, written by the last row that differs,
      enriched by the last of those that brings a company, a place or an industry. */
  ghost predicate JobInFull(t: Tables, rows: seq<PreparedJob>, seen: PreparedJob -> bool, cx: Context, id: JobId, j: Job, j': Job) {
    && j'.source == j.source && j'.firstSeenAt == j.firstSeenAt
    && j'.lastSeenAt == (if Any(rows, seen) then cx.now else j.lastSeenAt)
    && j'.lastUpdatedAt == (if Any(rows, Rewriting(t, id)) then Some(cx.now) else j.lastUpdatedAt)
    && Latest(rows, Rewriting(t, id), Saved(), j.columns, j'.columns)
    && Latest(rows, Bringing(t, id, CompanyId(cx)), CompanyId(cx), j.companyId, j'.companyId)
    && Latest(rows, Bringing(t, id, PlaceId(cx)), PlaceId(cx), j.locationId, j'.locationId)
    && Latest(rows, Bringing(t, id, IndustryOf()), IndustryOf(), j.industry, j'.industry)
  }

  lemma PartsNext(t: Tables, rows: seq<PreparedJob>)
    requires Valid(t) && rows != []
    ensures UnchangedRows(t, rows) == if IsUnchanged(t, Last(rows)) then UnchangedRows(t, Init(rows)) + [Last(rows)] else UnchangedRows(t, Init(rows))
    ensures ChangedRows(t, rows) == if IsChanged(t, Last(rows)) then ChangedRows(t, Init(rows)) + [Last(rows)] else ChangedRows(t, Init(rows))
  {
  }

  lemma TouchNext(jobs: map<JobId, Job>, t: Tables, rows: seq<PreparedJob>, r: PreparedJob, cx: Context)
    requires (forall x :: x in rows ==> Known(t, x)) && Known(t, r)
    ensures TouchAll(jobs, t, rows + [r], cx) == TouchOne(TouchAll(jobs, t, rows, cx), t, r, cx)
  {
    assert Init(rows + [r]) == rows;
  }

  lemma ChangeNext(t: Tables, before: Tables, rows: seq<PreparedJob>, r: PreparedJob, cx: Context)
    requires forall x :: x in rows + [r] ==> Known(before, x) && JobIdOf(before, x) in before.jobs
    ensures r in rows + [r] && (forall x :: x in rows ==> x in rows + [r])
    ensures ChangeAll(t, before, rows + [r], cx) == ChangeOne(ChangeAll(t, before, rows, cx), before, r, cx)
  {
    assert Init(rows + [r]) == rows && Last(rows + [r]) == r;
  }

  lemma {:induction false} TouchedJob(jobs: map<JobId, Job>, t: Tables, rows: seq<PreparedJob>, cx: Context, id: JobId)
    requires Valid(t) && id in jobs
    ensures var jobs' := TouchAll(jobs, t, UnchangedRows(t, rows), cx);
      id in jobs' && jobs'[id] == if Any(rows, Repeating(t, id)) then jobs[id].(lastSeenAt := cx.now) else jobs[id]
  {
    if rows != [] {
      TouchedJob(jobs, t, Init(rows), cx, id);
      AnyNext(rows, Repeating(t, id));
      PartsNext(t, rows);
      hide Any;
      if IsUnchanged(t, Last(rows)) {
        TouchNext(jobs, t, UnchangedRows(t, Init(rows)), Last(rows), cx);
      }
      hide UnchangedRows;
      hide TouchAll;
    }
  }

  lemma OverwriteInFull(job: Job, r: PreparedJob, cx: Context)
    ensures var j := Overwrite(job, r, cx);
      && j.source == job.source && j.firstSeenAt == job.firstSeenAt && j.lastSeenAt == cx.now && j.lastUpdatedAt == Some(cx.now)
      && j.columns == Saved()(r)
      && j.companyId == (if CompanyId(cx)(r).Some? then CompanyId(cx)(r) else job.companyId)
      && j.locationId == (if PlaceId(cx)(r).Some? then PlaceId(cx)(r) else job.locationId)
      && j.industry == (if IndustryOf()(r).Some? then IndustryOf()(r) else job.industry)
  {
    assert ColumnsOf(r) == Saved()(r);
  }

  /** What one more row does to it. */
  lemma ChangedNext(t: Tables, rows: seq<PreparedJob>, cx: Context, id: JobId, j: Job, j1: Job)
    requires rows != [] && JobInFull(t, Init(rows), Rewriting(t, id), cx, id, j, j1)
    ensures JobInFull(t, rows, Rewriting(t, id), cx, id, j, if Differs(t, Last(rows), id) then Overwrite(j1, Last(rows), cx) else j1)
  {
    var r := Last(rows);
    OverwriteInFull(j1, r, cx);
    AnyNext(rows, Rewriting(t, id));
    LatestNext(rows, Rewriting(t, id), Saved(), j.columns, j1.columns);
    LatestNext(rows, Bringing(t, id, CompanyId(cx)), CompanyId(cx), j.companyId, j1.companyId);
    LatestNext(rows, Bringing(t, id, PlaceId(cx)), PlaceId(cx), j.locationId, j1.locationId);
    LatestNext(rows, Bringing(t, id, IndustryOf()), IndustryOf(), j.industry, j1.industry);
    hide Latest;
    hide Any;
    hide LastOf;
    hide Overwrite;
    hide Saved;
    hide CompanyId;
    hide PlaceId;
    hide IndustryOf;
    hide Differs;
  }

  lemma {:induction false} ChangedJob(t3: Tables, t: Tables, rows: seq<PreparedJob>, cx: Context, id: JobId)
    requires Valid(t) && id in t3.jobs
    ensures var t' := ChangeAll(t3, t, ChangedRows(t, rows), cx);
      id in t'.jobs && JobInFull(t, rows, Rewriting(t, id), cx, id, t3.jobs[id], t'.jobs[id])
  {
    hide JobInFull;
    hide Overwrite;
    if rows == [] {
      NothingChanges(t, cx, id, t3.jobs[id]);
    } else {
      ChangedJob(t3, t, Init(rows), cx, id);
      var t' := ChangeAll(t3, t, ChangedRows(t, Init(rows)), cx);
      ChangedNext(t, rows, cx, id, t3.jobs[id], t'.jobs[id]);
      PartsNext(t, rows);
      if IsChanged(t, Last(rows)) {
        ChangeNext(t3, t, ChangedRows(t, Init(rows)), Last(rows), cx);
      }
      hide ChangedRows;
      hide ChangeAll;
    }
  }

  lemma NothingChanges(t: Tables, cx: Context, id: JobId, j: Job)
    ensures JobInFull(t, [], Rewriting(t, id), cx, id, j, j)
  {
  }

  lemma SeenEither(t: Tables, rows: seq<PreparedJob>, cx: Context, id: JobId, j: Job, j3: Job, j': Job)
    requires j3 == if Any(rows, Repeating(t, id)) then j.(lastSeenAt := cx.now) else j
    requires JobInFull(t, rows, Rewriting(t, id), cx, id, j3, j')
    ensures JobInFull(t, rows, Seeing(t, id), cx, id, j, j')
  {
    assert Any(rows, Seeing(t, id)) <==> Any(rows, Repeating(t, id)) || Any(rows, Rewriting(t, id)) by {
      assert forall r :: Seeing(t, id)(r) <==> Repeating(t, id)(r) || Rewriting(t, id)(r);
      hide Seeing;
      hide Repeating;
      hide Rewriting;
    }
    hide Any;
    hide Latest;
  }

  /** From the tables after the inserts to those after the load. */
  lemma StagesInFull(t: Tables, rows: seq<PreparedJob>, targets: map<string, Target>, cx: Context, id: JobId)
    requires Valid(t) && LoadableBatch(rows) && id in AfterInserts(t, rows, targets, cx).jobs
    ensures var t1, t' := AfterInserts(t, rows, targets, cx), Loaded(t, rows, targets, cx);
      id in t'.jobs && JobInFull(t, rows, Seeing(t, id), cx, id, t1.jobs[id], t'.jobs[id])
  {
    hide JobInFull;
    hide Loaded;
    hide AfterInserts;
    hide Any;
    StageJobs(t, rows, targets, cx);
    var t1, t3 := AfterInserts(t, rows, targets, cx), AfterTouch(t, rows, targets, cx);
    hide AfterTouch;
    TouchedJob(t1.jobs, t, rows, cx, id);
    ChangedJob(t3, t, rows, cx, id);
    SeenEither(t, rows, cx, id, t1.jobs[id], t3.jobs[id], Loaded(t, rows, targets, cx).jobs[id]);
  }

  /** Every job a load finds. */
  lemma OldJobInFull(t: Tables, rows: seq<PreparedJob>, targets: map<string, Target>, cx: Context, id: JobId)
    requires Valid(t) && LoadableBatch(rows) && id in t.jobs
    ensures id in Loaded(t, rows, targets, cx).jobs
    ensures JobInFull(t, rows, Seeing(t, id), cx, id, t.jobs[id], Loaded(t, rows, targets, cx).jobs[id])
  {
    hide JobInFull;
    hide Loaded;
    InsertedJobs(t, FreshRows(t, rows, targets), cx);
    StagesInFull(t, rows, targets, cx, id);
  }

  // ---- new rows --------------------------------------------------------------------------------------

  predicate New(t: Tables, r: PreparedJob) {
    SourceKey(r.source, r.externalId) !in t.sources
  }

  function Inserting(t: Tables, targets: map<string, Target>): PreparedJob -> bool {
    (r: PreparedJob) => New(t, r) && r.externalId !in targets
  }

  function Joining(t: Tables, targets: map<string, Target>): PreparedJob -> bool {
    (r: PreparedJob) => New(t, r) && r.externalId in targets
  }

  function Differing(t: Tables): PreparedJob -> bool {
    (r: PreparedJob) => !New(t, r) && Differs(t, r, t.sources[SourceKey(r.source, r.externalId)].jobId)
  }

  function Repeated(t: Tables): PreparedJob -> bool {
    (r: PreparedJob) => !New(t, r) && !Differing(t)(r)
  }

  lemma {:induction false} FilterSame(rows: seq<PreparedJob>, p: PreparedJob -> bool, q: PreparedJob -> bool)
    requires forall r :: r in rows ==> (p(r) <==> q(r))
    ensures Filter(rows, p) == Filter(rows, q)
  {
    if rows != [] {
      assert Last(rows) in rows;
      FilterSame(Init(rows), p, q);
    }
  }

  /** The four parts of a batch, by what the tables hold. */
  lemma PartsInFull(t: Tables, rows: seq<PreparedJob>, targets: map<string, Target>)
    requires Valid(t)
    ensures FreshRows(t, rows, targets) == Filter(rows, Inserting(t, targets))
    ensures MergeRows(t, rows, targets) == Filter(rows, Joining(t, targets))
    ensures ChangedRows(t, rows) == Filter(rows, Differing(t))
    ensures UnchangedRows(t, rows) == Filter(rows, Repeated(t))
  {
    FilterSame(rows, (r: PreparedJob) => !Known(t, r) && r.externalId !in targets, Inserting(t, targets));
    FilterSame(rows, (r: PreparedJob) => !Known(t, r) && r.externalId in targets, Joining(t, targets));
    FilterSame(rows, (r: PreparedJob) => IsChanged(t, r), Differing(t));
    FilterSame(rows, (r: PreparedJob) => IsUnchanged(t, r), Repeated(t));
  }

  /** Nothing in the batch is bound to a job that is not stored yet. */
  lemma NobodyKnows(t: Tables, rows: seq<PreparedJob>, cx: Context, id: JobId, j: Job, j': Job)
    requires Valid(t) && id !in t.jobs && JobInFull(t, rows, Seeing(t, id), cx, id, j, j')
    ensures j' == j
  {
    assert forall r :: !BoundTo(t, r, id);
    hide BoundTo;
  }

  lemma CreatedInFull(t: Tables, rows: seq<PreparedJob>, targets: map<string, Target>, cx: Context, i: nat)
    requires Valid(t) && LoadableBatch(rows) && i < |FreshRows(t, rows, targets)|
    ensures t.nextId + i !in t.jobs && t.nextId + i in Loaded(t, rows, targets, cx).jobs
    ensures Loaded(t, rows, targets, cx).jobs[t.nextId + i] == NewJob(FreshRows(t, rows, targets)[i], cx)
  {
    hide FreshRows;
    hide Loaded;
    hide NewJob;
    hide JobInFull;
    hide InsertAll;
    hide LoadableBatch;
    InsertedAt(t, FreshRows(t, rows, targets), cx, i);
    hide Valid;
    StagesInFull(t, rows, targets, cx, t.nextId + i);
    NobodyKnows(t, rows, cx, t.nextId + i, NewJob(FreshRows(t, rows, targets)[i], cx), Loaded(t, rows, targets, cx).jobs[t.nextId + i]);
  }

  /** Every job a load creates: one for each new row nothing claims, in order. */
  lemma NewJobInFull(t: Tables, rows: seq<PreparedJob>, targets: map<string, Target>, cx: Context, i: nat)
    requires Valid(t) && LoadableBatch(rows) && i < |Filter(rows, Inserting(t, targets))|
    ensures t.nextId + i !in t.jobs && t.nextId + i in Loaded(t, rows, targets, cx).jobs
    ensures var r := Filter(rows, Inserting(t, targets))[i];
      Loaded(t, rows, targets, cx).jobs[t.nextId + i] ==
      Job(Saved()(r), r.source, CompanyId(cx)(r), PlaceId(cx)(r), r.industry, cx.now, cx.now, None)
  {
    PartsInFull(t, rows, targets);
    hide FreshRows;
    hide Loaded;
    hide LoadableBatch;
    hide Valid;
    CreatedInFull(t, rows, targets, cx, i);
    NewInFull(Filter(rows, Inserting(t, targets))[i], cx);
    hide NewJob;
    hide Filter;
    hide Saved;
    hide CompanyId;
    hide PlaceId;
  }

  lemma NewInFull(r: PreparedJob, cx: Context)
    ensures NewJob(r, cx) == Job(Saved()(r), r.source, CompanyId(cx)(r), PlaceId(cx)(r), r.industry, cx.now, cx.now, None)
  {
    assert ColumnsOf(r) == Saved()(r);
  }

  // ---- provenance --------------------------------------------------------------------------------------

  predicate InBatch(rows: seq<PreparedJob>, k: SourceKey) {
    exists r :: r in rows && k == SourceKey(r.source, r.externalId)
  }

  lemma RefreshedSources(t: Tables, rows: seq<PreparedJob>, targets: map<string, Target>, cx: Context)
    requires Valid(t) && LoadableBatch(rows)
    ensures Loaded(t, rows, targets, cx).sources == RefreshAll(AfterMerges(t, rows, targets, cx).sources, rows, cx.now)
  {
    SplitDistinct(t, rows, targets);
    ChangeAllEffect(AfterTouch(t, rows, targets, cx), t, ChangedRows(t, rows), cx);
  }

  lemma RefreshedRow(sources: map<SourceKey, Provenance>, rows: seq<PreparedJob>, now: Time, k: SourceKey)
    requires k in sources
    ensures var sources' := RefreshAll(sources, rows, now);
      k in sources' && sources'[k] == if InBatch(rows, k) then sources[k].(lastSeenAt := now) else sources[k]
  {
    if InBatch(rows, k) {
      var r :| r in rows && k == SourceKey(r.source, r.externalId);
      assert KeyOf(r) == k;
    }
  }

  /** Every provenance row: the batch's are seen now, the others keep their instant, and nothing else
      of them moves; a new row is bound to the job it created or to its target's. */
  lemma ProvenanceInFull(t: Tables, rows: seq<PreparedJob>, targets: map<string, Target>, cx: Context, k: SourceKey)
    requires Valid(t) && LoadableBatch(rows)
    ensures var sources' := Loaded(t, rows, targets, cx).sources;
      && (k in sources' <==> k in t.sources || InBatch(rows, k))
      && (k in t.sources ==> sources'[k] == if InBatch(rows, k) then t.sources[k].(lastSeenAt := cx.now) else t.sources[k])
      && (forall r :: r in rows && New(t, r) && r.externalId in targets && k == SourceKey(r.source, r.externalId) ==>
            sources'[k] == Provenance(targets[r.externalId].jobId, false, targets[r.externalId].level, cx.now, cx.now))
      && (forall i :: 0 <= i < |Filter(rows, Inserting(t, targets))| ==>
            var r := Filter(rows, Inserting(t, targets))[i];
            k == SourceKey(r.source, r.externalId) ==>
              k in sources' && sources'[k] == Provenance(t.nextId + i, true, L1SourceId, cx.now, cx.now))
  {
    PartsInFull(t, rows, targets);
    hide Filter;
    hide Loaded;
    hide AfterMerges;
    RefreshedSources(t, rows, targets, cx);
    MergeStageSources(t, rows, targets, cx);
    var sources := AfterMerges(t, rows, targets, cx).sources;
    assert k in Keys(rows) <==> InBatch(rows, k) by {
      hide Inserting;
      if k in Keys(rows) {
        var r :| r in rows && KeyOf(r) == k;
        assert k == SourceKey(r.source, r.externalId);
      }
      if InBatch(rows, k) {
        var r :| r in rows && k == SourceKey(r.source, r.externalId);
        assert KeyOf(r) == k;
      }
    }
    hide Keys;
    if k in sources {
      RefreshedRow(sources, rows, cx.now, k);
    }
    hide RefreshAll;
    hide LoadableBatch;
    hide Valid;
    hide Inserting;
    forall r | r in rows && New(t, r) && r.externalId in targets && k == SourceKey(r.source, r.externalId)
      ensures Bound(sources, k, MergedRow(r, targets, cx)) && InBatch(rows, k)
    {
      assert r in MergeRows(t, rows, targets);
    }
    forall i | 0 <= i < |FreshRows(t, rows, targets)| && k == KeyOf(FreshRows(t, rows, targets)[i])
      ensures Bound(sources, k, Provenance(t.nextId + i, true, L1SourceId, cx.now, cx.now)) && InBatch(rows, k)
    {
      assert FreshRows(t, rows, targets)[i] in FreshRows(t, rows, targets);
    }
    hide FreshRows;
    hide MergeRows;
  }

  // ---- events and counters -----------------------------------------------------------------------------

  function Creations(from: JobId, n: nat, runId: nat): seq<Event> {
    seq(n, i requires 0 <= i < n => Event(from + i, JobCreated, runId, None, Some(Active)))
  }

  function Mergers(rows: seq<PreparedJob>, targets: map<string, Target>, runId: nat): seq<Event>
    requires forall r :: r in rows ==> r.externalId in targets
  {
    seq(|rows|, i requires 0 <= i < |rows| => Event(targets[rows[i].externalId].jobId, JobMerged, runId, None, None))
  }

  /** The status the job had, and the row's. */
  function Turning(id: JobId, before: JobStatus, after: JobStatus, runId: nat): Event {
    Event(id, if after == before then JobUpdated else if after == Expired then JobExpired
              else if after == Active then JobReactivated else JobUpdated, runId, Some(before), Some(after))
  }

  function Turns(t: Tables, rows: seq<PreparedJob>, runId: nat): seq<Event>
    requires forall r :: r in rows ==> Differing(t)(r)
  {
    seq(|rows|, i requires 0 <= i < |rows| =>
      assert rows[i] in rows && Differing(t)(rows[i]);
      var id := t.sources[SourceKey(rows[i].source, rows[i].externalId)].jobId;
      Turning(id, t.jobs[id].columns.status, rows[i].columns.status, runId))
  }

  lemma {:induction false} InsertedEvents(t: Tables, rows: seq<PreparedJob>, cx: Context)
    ensures var t' := InsertAll(t, rows, cx);
      t'.nextId == t.nextId + |rows| && t'.events == t.events + Creations(t.nextId, |rows|, cx.runId)
  {
    if rows != [] {
      InsertedEvents(t, Init(rows), cx);
      assert Creations(t.nextId, |rows|, cx.runId) ==
        Creations(t.nextId, |rows| - 1, cx.runId) + [Event(t.nextId + |rows| - 1, JobCreated, cx.runId, None, Some(Active))];
    }
  }

  lemma {:induction false} MergedEvents(t: Tables, rows: seq<PreparedJob>, targets: map<string, Target>, cx: Context)
    requires forall r :: r in rows ==> r.externalId in targets
    ensures MergeAll(t, rows, targets, cx).events == t.events + Mergers(rows, targets, cx.runId)
  {
    if rows != [] {
      MergedEvents(t, Init(rows), targets, cx);
      assert Mergers(rows, targets, cx.runId) ==
        Mergers(Init(rows), targets, cx.runId) + [Event(targets[Last(rows).externalId].jobId, JobMerged, cx.runId, None, None)];
    }
  }

  lemma {:induction false} ChangedEvents(t3: Tables, t: Tables, rows: seq<PreparedJob>, cx: Context)
    requires forall r :: r in rows ==> Differing(t)(r)
    ensures forall r :: r in rows ==> Known(t, r) && JobIdOf(t, r) in t.jobs
    ensures ChangeAll(t3, t, rows, cx).events == t3.events + Turns(t, rows, cx.runId)
  {
    if rows != [] {
      ChangedEvents(t3, t, Init(rows), cx);
      assert Last(rows) in rows && Differing(t)(Last(rows));
      var id := t.sources[SourceKey(Last(rows).source, Last(rows).externalId)].jobId;
      assert Turns(t, rows, cx.runId) ==
        Turns(t, Init(rows), cx.runId) + [Turning(id, t.jobs[id].columns.status, Last(rows).columns.status, cx.runId)];
      hide Overwrite;
    }
  }

  lemma PartMembers(t: Tables, rows: seq<PreparedJob>, targets: map<string, Target>)
    ensures forall r :: r in Filter(rows, Joining(t, targets)) ==> r.externalId in targets
    ensures forall r :: r in Filter(rows, Differing(t)) ==> Differing(t)(r)
  {
    FilterMembers(rows, Joining(t, targets));
    FilterMembers(rows, Differing(t));
  }

  /** The whole log after a load: the creations, the mergers and the turns of its rows, in order. */
  lemma EventsInFull(t: Tables, rows: seq<PreparedJob>, targets: map<string, Target>, cx: Context)
    requires Valid(t) && LoadableBatch(rows)
    ensures forall r :: r in Filter(rows, Joining(t, targets)) ==> r.externalId in targets
    ensures forall r :: r in Filter(rows, Differing(t)) ==> Differing(t)(r)
    ensures Loaded(t, rows, targets, cx).events == t.events
      + Creations(t.nextId, |Filter(rows, Inserting(t, targets))|, cx.runId)
      + Mergers(Filter(rows, Joining(t, targets)), targets, cx.runId) + Turns(t, Filter(rows, Differing(t)), cx.runId)
  {
    PartsInFull(t, rows, targets);
    PartMembers(t, rows, targets);
    hide Filter;
    hide Differing;
    InsertedEvents(t, FreshRows(t, rows, targets), cx);
    MergedEvents(AfterInserts(t, rows, targets, cx), MergeRows(t, rows, targets), targets, cx);
    ChangedEvents(AfterTouch(t, rows, targets, cx), t, ChangedRows(t, rows), cx);
    hide InsertAll;
    hide MergeAll;
    hide ChangeAll;
    hide TouchAll;
  }

  /** The counters: how many rows of each kind there are; as many jobs are new as were inserted. */
  lemma CountsInFull(t: Tables, rows: seq<PreparedJob>, targets: map<string, Target>, cx: Context)
    requires Valid(t) && LoadableBatch(rows)
    ensures ResultOf(t, rows, targets) == LoadResult(|Filter(rows, Inserting(t, targets))|, |Filter(rows, Differing(t))|,
                                                     |Filter(rows, Repeated(t))|, |Filter(rows, Joining(t, targets))|)
    ensures Loaded(t, rows, targets, cx).nextId == t.nextId + |Filter(rows, Inserting(t, targets))|
  {
    PartsInFull(t, rows, targets);
    hide Loaded;
    hide Filter;
    LoadDomain(t, rows, targets, cx);
  }
}
