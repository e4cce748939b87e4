/** What the stages of a load, and the load as a whole, do to each table entry. */
module LoadEffects {
  import opened Prelude
  import opened Schema
  import opened LoadSpec

  ghost predicate DistinctKeys(rows: seq<PreparedJob>) {
    forall i, j :: 0 <= i < j < |rows| ==> KeyOf(rows[i]) != KeyOf(rows[j])
  }

  /** Two provenance rows that differ at most in when they were last seen. */
  ghost predicate SameBinding(p: Provenance, q: Provenance) {
    p == q.(lastSeenAt := p.lastSeenAt)
  }

  ghost predicate Bound(sources: map<SourceKey, Provenance>, k: SourceKey, p: Provenance) {
    k in sources && sources[k] == p
  }

  ghost function Keys(rows: seq<PreparedJob>): set<SourceKey> {
    set r | r in rows :: KeyOf(r)
  }

  lemma KeysNext(rows: seq<PreparedJob>)
    requires rows != []
    ensures Keys(rows) == Keys(Init(rows)) + {KeyOf(Last(rows))}
  {
  }

  lemma {:induction false} InsertedJobs(t: Tables, rows: seq<PreparedJob>, cx: Context)
    requires Valid(t)
    ensures var t' := InsertAll(t, rows, cx);
      && t'.nextId == t.nextId + |rows|
      && (forall id :: id in t'.jobs <==> id in t.jobs || t.nextId <= id < t.nextId + |rows|)
      && (forall id :: id in t.jobs ==> t'.jobs[id] == t.jobs[id])
      && (forall i :: 0 <= i < |rows| ==> t'.jobs[t.nextId + i] == NewJob(rows[i], cx))
      && |t'.events| == |t.events| + |rows| && t.events <= t'.events
  {
    if rows != [] {
      InsertedJobs(t, Init(rows), cx);
    }
  }

  lemma {:induction false} InsertedSources(t: Tables, rows: seq<PreparedJob>, cx: Context)
    requires DistinctKeys(rows) && Keys(rows) !! t.sources.Keys
    ensures var t' := InsertAll(t, rows, cx);
      && t'.nextId == t.nextId + |rows|
      && t'.sources.Keys == t.sources.Keys + Keys(rows)
      && (forall k :: k in t.sources ==> Bound(t'.sources, k, t.sources[k]))
      && forall i :: 0 <= i < |rows| ==>
           Bound(t'.sources, KeyOf(rows[i]), Provenance(t.nextId + i, true, L1SourceId, cx.now, cx.now))
  {
    if rows != [] {
      KeysNext(rows);
      InsertedSources(t, Init(rows), cx);
      var t1 := InsertAll(t, Init(rows), cx);
      forall i | 0 <= i < |rows| - 1
        ensures KeyOf(rows[i]) != KeyOf(Last(rows)) && Init(rows)[i] == rows[i]
      {
      }
      assert KeyOf(Last(rows)) !in t1.sources;
    }
  }

  lemma {:induction false} MergedSources(t: Tables, rows: seq<PreparedJob>, targets: map<string, Target>, cx: Context)
    requires DistinctKeys(rows) && Keys(rows) !! t.sources.Keys
    requires forall r :: r in rows ==> r.externalId in targets
    ensures var t' := MergeAll(t, rows, targets, cx);
      && t'.jobs == t.jobs && t'.nextId == t.nextId
      && t'.sources.Keys == t.sources.Keys + Keys(rows)
      && (forall k :: k in t.sources ==> Bound(t'.sources, k, t.sources[k]))
      && (forall i :: 0 <= i < |rows| ==> Bound(t'.sources, KeyOf(rows[i]), MergedRow(rows[i], targets, cx)))
      && |t'.events| == |t.events| + |rows| && t.events <= t'.events
  {
    if rows != [] {
      KeysNext(rows);
      MergedSources(t, Init(rows), targets, cx);
      forall i | 0 <= i < |rows| - 1
        ensures KeyOf(rows[i]) != KeyOf(Last(rows)) && Init(rows)[i] == rows[i]
      {
      }
      assert KeyOf(Last(rows)) !in MergeAll(t, Init(rows), targets, cx).sources;
    }
  }

  ghost function MergedRow(row: PreparedJob, targets: map<string, Target>, cx: Context): Provenance
    requires row.externalId in targets
  {
    var target := targets[row.externalId];
    Provenance(target.jobId, false, target.level, cx.now, cx.now)
  }

  lemma {:induction false} TouchAllEffect(jobs: map<JobId, Job>, before: Tables, rows: seq<PreparedJob>, cx: Context)
    requires forall r :: r in rows ==> Known(before, r)
    ensures var jobs' := TouchAll(jobs, before, rows, cx);
      && jobs'.Keys == jobs.Keys
      && forall id :: id in jobs ==> jobs'[id] == jobs[id] || jobs'[id] == jobs[id].(lastSeenAt := cx.now)
  {
    if rows != [] {
      TouchAllEffect(jobs, before, Init(rows), cx);
    }
  }

  /** Some row of the batch is bound to the job. */
  ghost predicate Writes(before: Tables, r: PreparedJob, id: JobId) {
    Known(before, r) && JobIdOf(before, r) == id
  }

  /** The state of a job after the change stage: untouched, or the columns of some changed
      row that is bound to it; its first detection and its source stay. */
  ghost predicate ChangedOrKept(before: Tables, rows: seq<PreparedJob>, id: JobId, j: Job, j': Job) {
    && j'.firstSeenAt == j.firstSeenAt && j'.source == j.source
    && if exists r :: r in rows && Writes(before, r, id)
       then exists r :: r in rows && Writes(before, r, id) && j'.columns == ColumnsOf(r)
       else j' == j
  }

  lemma ChangedOrKeptNext(before: Tables, rows: seq<PreparedJob>, id: JobId, j: Job, j1: Job, cx: Context)
    requires rows != [] && ChangedOrKept(before, Init(rows), id, j, j1)
    ensures ChangedOrKept(before, rows, id, j, if Writes(before, Last(rows), id) then Overwrite(j1, Last(rows), cx) else j1)
  {
    assert rows == Init(rows) + [Last(rows)];
    if Writes(before, Last(rows), id) {
      assert Last(rows) in rows;
    } else {
      assert forall r :: r in rows && Writes(before, r, id) <==> r in Init(rows) && Writes(before, r, id);
    }
  }

  lemma {:induction false} ChangeAllJobs(t: Tables, before: Tables, rows: seq<PreparedJob>, cx: Context)
    requires forall r :: r in rows ==> Known(before, r) && JobIdOf(before, r) in before.jobs
    ensures ChangeAll(t, before, rows, cx).jobs.Keys == t.jobs.Keys
    ensures forall id :: id in t.jobs ==> ChangedOrKept(before, rows, id, t.jobs[id], ChangeAll(t, before, rows, cx).jobs[id])
  {
    if rows != [] {
      ChangeAllJobs(t, before, Init(rows), cx);
      var t1, t' := ChangeAll(t, before, Init(rows), cx), ChangeAll(t, before, rows, cx);
      assert Last(rows) in rows;
      forall id | id in t.jobs
        ensures ChangedOrKept(before, rows, id, t.jobs[id], t'.jobs[id])
      {
        assert ChangedOrKept(before, Init(rows), id, t.jobs[id], t1.jobs[id]);
        ChangedOrKeptNext(before, rows, id, t.jobs[id], t1.jobs[id], cx);
      }
      hide ChangedOrKept;
      hide Overwrite;
    }
  }

  lemma {:induction false} ChangeAllEffect(t: Tables, before: Tables, rows: seq<PreparedJob>, cx: Context)
    requires forall r :: r in rows ==> Known(before, r) && JobIdOf(before, r) in before.jobs
    ensures var t' := ChangeAll(t, before, rows, cx);
      && t'.sources == t.sources && t'.nextId == t.nextId && t'.jobs.Keys == t.jobs.Keys
      && (forall id :: id in t.jobs ==> ChangedOrKept(before, rows, id, t.jobs[id], t'.jobs[id]))
      && |t'.events| == |t.events| + |rows| && t.events <= t'.events
  {
    ChangeAllJobs(t, before, rows, cx);
    hide ChangedOrKept;
    if rows != [] {
      assert forall r :: r in Init(rows) ==> r in rows;
      ChangeAllEffect(t, before, Init(rows), cx);
    }
  }

  /** The parts of a batch keep its distinct keys. */
  lemma SplitDistinct(t: Tables, rows: seq<PreparedJob>, targets: map<string, Target>)
    requires Valid(t) && LoadableBatch(rows)
    ensures DistinctKeys(FreshRows(t, rows, targets)) && DistinctKeys(MergeRows(t, rows, targets))
  {
    DistinctFilter(rows, (r: PreparedJob) => !Known(t, r) && r.externalId !in targets);
    DistinctFilter(rows, (r: PreparedJob) => !Known(t, r) && r.externalId in targets);
  }

  // ---- the load as a whole --------------------------------------------------------

  /** `inserts` are the new rows of the batch that nothing claims. */
  ghost predicate InsertsOf(t: Tables, rows: seq<PreparedJob>, targets: map<string, Target>, inserts: seq<PreparedJob>) {
    && (forall r :: r in inserts ==> r in rows && !Known(t, r) && r.externalId !in targets)
    && (forall r :: r in rows && !Known(t, r) && r.externalId !in targets ==> r in inserts)
  }

  /** A load keeps every binding it finds, and binds each new row either as the primary row
      of a job it creates or as an extra row of the target's job. */
  ghost predicate BindingsAfter(t: Tables, t': Tables, rows: seq<PreparedJob>, inserts: seq<PreparedJob>,
                                targets: map<string, Target>, cx: Context)
    requires Valid(t)
  {
    && (forall k :: k in t.sources ==> k in t'.sources && SameBinding(t.sources[k], t'.sources[k]))
    && (forall i :: 0 <= i < |inserts| ==>
          Bound(t'.sources, KeyOf(inserts[i]), Provenance(t.nextId + i, true, L1SourceId, cx.now, cx.now)))
    && (forall r :: r in rows && !Known(t, r) && r.externalId in targets ==>
          Bound(t'.sources, KeyOf(r), MergedRow(r, targets, cx)))
  }

  /** The keys bound after a load: those of before, and the batch's. */
  ghost predicate KeysAfter(t: Tables, t': Tables, rows: seq<PreparedJob>) {
    t'.sources.Keys == t.sources.Keys + Keys(rows)
  }

  /** What the change stage makes of a job it finds. */
  ghost predicate RewrittenBy(t: Tables, rows: seq<PreparedJob>, id: JobId, r: PreparedJob)
    requires Valid(t)
  {
    r in rows && IsChanged(t, r) && Writes(t, r, id)
  }

  ghost predicate JobAfter(t: Tables, rows: seq<PreparedJob>, id: JobId, j: Job, j': Job)
    requires Valid(t)
  {
    && j'.firstSeenAt == j.firstSeenAt && j'.source == j.source
    && if exists r :: RewrittenBy(t, rows, id, r)
       then exists r :: RewrittenBy(t, rows, id, r) && j'.columns == ColumnsOf(r)
       else j' == j.(lastSeenAt := j'.lastSeenAt)
  }

  ghost predicate CreatedFrom(j: Job, row: PreparedJob, cx: Context) {
    j.columns == ColumnsOf(row) && j.source == row.source && j.firstSeenAt == cx.now
  }

  /** A load removes no job and creates one for each inserted row. */
  ghost predicate NewJobsAfter(t: Tables, t': Tables, inserts: seq<PreparedJob>, cx: Context) {
    && t'.nextId == t.nextId + |inserts|
    && (forall id :: id in t'.jobs <==> id in t.jobs || t.nextId <= id < t.nextId + |inserts|)
    && (forall i :: 0 <= i < |inserts| ==> CreatedFrom(t'.jobs[t.nextId + i], inserts[i], cx))
  }

  /** A load writes an existing job only through a changed row bound to it. */
  ghost predicate OldJobsAfter(t: Tables, t': Tables, rows: seq<PreparedJob>)
    requires Valid(t)
  {
    forall id :: id in t.jobs ==> id in t'.jobs && JobAfter(t, rows, id, t.jobs[id], t'.jobs[id])
  }

  /** The tables after each stage of a load. */
  ghost function AfterInserts(t: Tables, rows: seq<PreparedJob>, targets: map<string, Target>, cx: Context): Tables {
    InsertAll(t, FreshRows(t, rows, targets), cx)
  }

  ghost function AfterMerges(t: Tables, rows: seq<PreparedJob>, targets: map<string, Target>, cx: Context): Tables {
    MergeAll(AfterInserts(t, rows, targets, cx), MergeRows(t, rows, targets), targets, cx)
  }

  ghost function AfterTouch(t: Tables, rows: seq<PreparedJob>, targets: map<string, Target>, cx: Context): Tables
    requires Valid(t)
  {
    var t2 := AfterMerges(t, rows, targets, cx);
    t2.(jobs := TouchAll(t2.jobs, t, UnchangedRows(t, rows), cx))
  }

  lemma SplitKeys(t: Tables, rows: seq<PreparedJob>, targets: map<string, Target>)
    requires Valid(t) && LoadableBatch(rows)
    ensures var inserts, merges := FreshRows(t, rows, targets), MergeRows(t, rows, targets);
      && Keys(inserts) !! t.sources.Keys && Keys(merges) !! t.sources.Keys && Keys(inserts) !! Keys(merges)
      && t.sources.Keys + Keys(rows) == t.sources.Keys + Keys(inserts) + Keys(merges)
  {
  }

  /** The provenance table before its timestamps are refreshed. */
  lemma MergeStageSources(t: Tables, rows: seq<PreparedJob>, targets: map<string, Target>, cx: Context)
    requires Valid(t) && LoadableBatch(rows)
    ensures var sources := AfterMerges(t, rows, targets, cx).sources;
      var inserts, merges := FreshRows(t, rows, targets), MergeRows(t, rows, targets);
      && sources.Keys == t.sources.Keys + Keys(rows)
      && (forall k :: k in t.sources ==> Bound(sources, k, t.sources[k]))
      && (forall i :: 0 <= i < |inserts| ==>
            Bound(sources, KeyOf(inserts[i]), Provenance(t.nextId + i, true, L1SourceId, cx.now, cx.now)))
      && (forall r :: r in merges ==> Bound(sources, KeyOf(r), MergedRow(r, targets, cx)))
  {
    SplitDistinct(t, rows, targets);
    SplitKeys(t, rows, targets);
    InsertedSources(t, FreshRows(t, rows, targets), cx);
    MergedSources(AfterInserts(t, rows, targets, cx), MergeRows(t, rows, targets), targets, cx);
  }

  lemma RefreshKeeps(sources: map<SourceKey, Provenance>, rows: seq<PreparedJob>, now: Time, k: SourceKey)
    requires k in sources
    ensures var sources' := RefreshAll(sources, rows, now);
      && sources'.Keys == sources.Keys && SameBinding(sources[k], sources'[k])
      && (sources[k].lastSeenAt == now ==> Bound(sources', k, sources[k]))
  {
  }

  lemma LoadBindings(t: Tables, rows: seq<PreparedJob>, targets: map<string, Target>, cx: Context)
    requires Valid(t) && LoadableBatch(rows)
    ensures BindingsAfter(t, Loaded(t, rows, targets, cx), rows, FreshRows(t, rows, targets), targets, cx)
    ensures KeysAfter(t, Loaded(t, rows, targets, cx), rows)
  {
    SplitDistinct(t, rows, targets);
    MergeStageSources(t, rows, targets, cx);
    var sources := AfterMerges(t, rows, targets, cx).sources;
    var sources' := Loaded(t, rows, targets, cx).sources;
    assert sources' == RefreshAll(sources, rows, cx.now) by {
      ChangeAllEffect(AfterTouch(t, rows, targets, cx), t, ChangedRows(t, rows), cx);
    }
    assert sources'.Keys == sources.Keys;
    forall k | k in sources
      ensures SameBinding(sources[k], sources'[k])
      ensures sources[k].lastSeenAt == cx.now ==> Bound(sources', k, sources[k])
    {
      RefreshKeeps(sources, rows, cx.now, k);
    }
  }

  /** The last two stages write only jobs that a known row of the batch is bound to. */
  lemma UpdateStages(t: Tables, rows: seq<PreparedJob>, jobs: map<JobId, Job>, t3: Tables, cx: Context, id: JobId)
    requires Valid(t) && id in jobs
    requires forall r :: r in UnchangedRows(t, rows) ==> Known(t, r)
    requires forall r :: r in ChangedRows(t, rows) ==> Known(t, r) && JobIdOf(t, r) in t.jobs
    requires t3.jobs == TouchAll(jobs, t, UnchangedRows(t, rows), cx)
    ensures var jobs' := ChangeAll(t3, t, ChangedRows(t, rows), cx).jobs;
      && jobs'.Keys == jobs.Keys && JobAfter(t, rows, id, jobs[id], jobs'[id])
  {
    var changed := ChangedRows(t, rows);
    TouchAllEffect(jobs, t, UnchangedRows(t, rows), cx);
    ChangeAllEffect(t3, t, changed, cx);
    var jobs' := ChangeAll(t3, t, changed, cx).jobs;
    assert ChangedOrKept(t, changed, id, t3.jobs[id], jobs'[id]);
    assert forall r :: r in changed <==> r in rows && IsChanged(t, r);
    if r :| RewrittenBy(t, rows, id, r) {
      assert r in changed && Writes(t, r, id);
      var r' :| r' in changed && Writes(t, r', id) && jobs'[id].columns == ColumnsOf(r');
      assert RewrittenBy(t, rows, id, r');
    } else if r :| r in changed && Writes(t, r, id) {
      assert RewrittenBy(t, rows, id, r);
    }
  }

  lemma StageJobs(t: Tables, rows: seq<PreparedJob>, targets: map<string, Target>, cx: Context)
    requires Valid(t) && LoadableBatch(rows)
    ensures var t1, t3, t' := AfterInserts(t, rows, targets, cx), AfterTouch(t, rows, targets, cx), Loaded(t, rows, targets, cx);
      && t3.jobs == TouchAll(t1.jobs, t, UnchangedRows(t, rows), cx)
      && t'.jobs == ChangeAll(t3, t, ChangedRows(t, rows), cx).jobs && t'.nextId == t1.nextId
      && t'.jobs.Keys == t1.jobs.Keys
  {
    SplitDistinct(t, rows, targets);
    SplitKeys(t, rows, targets);
    InsertedSources(t, FreshRows(t, rows, targets), cx);
    MergedSources(AfterInserts(t, rows, targets, cx), MergeRows(t, rows, targets), targets, cx);
    ChangeAllEffect(AfterTouch(t, rows, targets, cx), t, ChangedRows(t, rows), cx);
    TouchAllEffect(AfterInserts(t, rows, targets, cx).jobs, t, UnchangedRows(t, rows), cx);
  }

  lemma LoadedJob(t: Tables, rows: seq<PreparedJob>, targets: map<string, Target>, cx: Context, id: JobId)
    requires Valid(t) && LoadableBatch(rows) && id in AfterInserts(t, rows, targets, cx).jobs
    ensures var t1, t' := AfterInserts(t, rows, targets, cx), Loaded(t, rows, targets, cx);
      id in t'.jobs && JobAfter(t, rows, id, t1.jobs[id], t'.jobs[id])
  {
    SplitDistinct(t, rows, targets);
    StageJobs(t, rows, targets, cx);
    UpdateStages(t, rows, AfterInserts(t, rows, targets, cx).jobs, AfterTouch(t, rows, targets, cx), cx, id);
  }

  lemma LoadOldJob(t: Tables, rows: seq<PreparedJob>, targets: map<string, Target>, cx: Context, id: JobId)
    requires Valid(t) && LoadableBatch(rows) && id in t.jobs
    ensures id in Loaded(t, rows, targets, cx).jobs
    ensures JobAfter(t, rows, id, t.jobs[id], Loaded(t, rows, targets, cx).jobs[id])
  {
    InsertedJobs(t, FreshRows(t, rows, targets), cx);
    LoadedJob(t, rows, targets, cx, id);
  }

  lemma LoadNewJob(t: Tables, rows: seq<PreparedJob>, targets: map<string, Target>, cx: Context, i: nat)
    requires Valid(t) && LoadableBatch(rows) && i < |FreshRows(t, rows, targets)|
    ensures t.nextId + i in Loaded(t, rows, targets, cx).jobs
    ensures CreatedFrom(Loaded(t, rows, targets, cx).jobs[t.nextId + i], FreshRows(t, rows, targets)[i], cx)
  {
    var id, inserts := t.nextId + i, FreshRows(t, rows, targets);
    InsertedAt(t, inserts, cx, i);
    var t1 := AfterInserts(t, rows, targets, cx);
    assert id in t1.jobs && t1.jobs[id] == NewJob(inserts[i], cx);
    hide InsertAll;
    hide AfterInserts;
    hide NewJob;
    hide Loaded;
    hide JobAfter;
    hide CreatedFrom;
    LoadedJob(t, rows, targets, cx, id);
    NewJobKept(t, rows, id, inserts[i], cx, Loaded(t, rows, targets, cx).jobs[id]);
  }

  lemma InsertedAt(t: Tables, rows: seq<PreparedJob>, cx: Context, i: nat)
    requires Valid(t) && i < |rows|
    ensures t.nextId + i in InsertAll(t, rows, cx).jobs && t.nextId + i !in t.jobs
    ensures InsertAll(t, rows, cx).jobs[t.nextId + i] == NewJob(rows[i], cx)
  {
    InsertedJobs(t, rows, cx);
  }

  lemma NewJobKept(t: Tables, rows: seq<PreparedJob>, id: JobId, row: PreparedJob, cx: Context, j': Job)
    requires Valid(t) && id !in t.jobs && JobAfter(t, rows, id, NewJob(row, cx), j')
    ensures CreatedFrom(j', row, cx)
  {
  }

  lemma LoadDomain(t: Tables, rows: seq<PreparedJob>, targets: map<string, Target>, cx: Context)
    requires Valid(t) && LoadableBatch(rows)
    ensures var t', n := Loaded(t, rows, targets, cx), |FreshRows(t, rows, targets)|;
      && t'.nextId == t.nextId + n
      && forall id :: id in t'.jobs <==> id in t.jobs || t.nextId <= id < t.nextId + n
  {
    InsertedJobs(t, FreshRows(t, rows, targets), cx);
    StageJobs(t, rows, targets, cx);
  }

  lemma LoadJobs(t: Tables, rows: seq<PreparedJob>, targets: map<string, Target>, cx: Context)
    requires Valid(t) && LoadableBatch(rows)
    ensures NewJobsAfter(t, Loaded(t, rows, targets, cx), FreshRows(t, rows, targets), cx)
    ensures OldJobsAfter(t, Loaded(t, rows, targets, cx), rows)
  {
    LoadDomain(t, rows, targets, cx);
    forall id | id in t.jobs
      ensures JobAfter(t, rows, id, t.jobs[id], Loaded(t, rows, targets, cx).jobs[id])
    {
      LoadOldJob(t, rows, targets, cx, id);
    }
    forall i | 0 <= i < |FreshRows(t, rows, targets)|
      ensures CreatedFrom(Loaded(t, rows, targets, cx).jobs[t.nextId + i], FreshRows(t, rows, targets)[i], cx)
    {
      LoadNewJob(t, rows, targets, cx, i);
    }
  }

  /** Everything that is used below of the tables after a load. */
  ghost predicate Effect(t: Tables, rows: seq<PreparedJob>, inserts: seq<PreparedJob>, targets: map<string, Target>,
                         cx: Context, t': Tables)
    requires Valid(t)
  {
    && InsertsOf(t, rows, targets, inserts)
    && BindingsAfter(t, t', rows, inserts, targets, cx)
    && KeysAfter(t, t', rows)
    && NewJobsAfter(t, t', inserts, cx)
    && OldJobsAfter(t, t', rows)
  }

  lemma LoadHasEffect(t: Tables, rows: seq<PreparedJob>, targets: map<string, Target>, cx: Context)
    requires Valid(t) && LoadableBatch(rows)
    ensures Effect(t, rows, FreshRows(t, rows, targets), targets, cx, Loaded(t, rows, targets, cx))
  {
    LoadBindings(t, rows, targets, cx);
    LoadJobs(t, rows, targets, cx);
    SplitDistinct(t, rows, targets);
  }

  /** Each load appends one event for each inserted, merged or updated row, and no other. */
  lemma LoadEvents(t: Tables, rows: seq<PreparedJob>, targets: map<string, Target>, cx: Context)
    requires Valid(t) && LoadableBatch(rows)
    ensures var t', result := Loaded(t, rows, targets, cx), ResultOf(t, rows, targets);
      && t.events <= t'.events
      && |t'.events| == |t.events| + result.inserted + result.merged + result.updated
  {
    SplitDistinct(t, rows, targets);
    SplitKeys(t, rows, targets);
    InsertedJobs(t, FreshRows(t, rows, targets), cx);
    InsertedSources(t, FreshRows(t, rows, targets), cx);
    MergedSources(AfterInserts(t, rows, targets, cx), MergeRows(t, rows, targets), targets, cx);
    ChangeAllEffect(AfterTouch(t, rows, targets, cx), t, ChangedRows(t, rows), cx);
  }
}
