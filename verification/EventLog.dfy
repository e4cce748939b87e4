/** The event log against the tables it reports on: nothing that happened to a live job is missing
    from it or told twice. */
module EventLog {
  import opened Prelude
  import opened Schema
  import opened LoadSpec
  import opened LoadEffects
  import opened History
  import opened Retention

  function CountOf(events: seq<Event>, id: JobId, kind: EventType): nat {
    if events == [] then 0
    else CountOf(Init(events), id, kind) + if Last(events).jobId == id && Last(events).kind == kind then 1 else 0
  }

  ghost function MergedKeys(t: Tables, id: JobId): set<SourceKey> {
    set k | k in t.sources && t.sources[k].jobId == id && !t.sources[k].isPrimary
  }

  /** Each live job has one creation event, and as many merge events as merged provenance rows. */
  ghost predicate Told(t: Tables, id: JobId) {
    && CountOf(t.events, id, JobCreated) == 1
    && CountOf(t.events, id, JobMerged) == |MergedKeys(t, id)|
  }

  ghost predicate Logged(t: Tables) {
    && Valid(t)
    && (forall e :: e in t.events ==> e.jobId < t.nextId)
    && forall id :: id in t.jobs ==> Told(t, id)
  }

  lemma CountNext(events: seq<Event>, e: Event, id: JobId, kind: EventType)
    ensures CountOf(events + [e], id, kind) == CountOf(events, id, kind) + if e.jobId == id && e.kind == kind then 1 else 0
  {
    assert Init(events + [e]) == events;
  }

  lemma {:induction false} NoneYet(events: seq<Event>, id: JobId, kind: EventType)
    requires forall e :: e in events ==> e.jobId != id
    ensures CountOf(events, id, kind) == 0
  {
    if events != [] {
      assert Last(events) in events && forall e :: e in Init(events) ==> e in events;
      NoneYet(Init(events), id, kind);
    }
  }

  lemma InsertKeepsLogged(t: Tables, row: PreparedJob, cx: Context)
    requires Logged(t) && KeyOf(row) !in t.sources
    ensures Logged(InsertOne(t, row, cx))
  {
    var t' := InsertOne(t, row, cx);
    var e := Event(t.nextId, JobCreated, cx.runId, None, Some(Active));
    forall id | id in t'.jobs
      ensures Told(t', id)
    {
      CountNext(t.events, e, id, JobCreated);
      CountNext(t.events, e, id, JobMerged);
      if id == t.nextId {
        NoneYet(t.events, id, JobCreated);
        NoneYet(t.events, id, JobMerged);
        assert MergedKeys(t', id) == {};
      } else {
        assert MergedKeys(t', id) == MergedKeys(t, id);
      }
    }
  }

  lemma MergeKeepsLogged(t: Tables, row: PreparedJob, target: Target, cx: Context)
    requires Logged(t) && KeyOf(row) !in t.sources && target.jobId in t.jobs
    ensures Logged(MergeOne(t, row, target, cx))
  {
    var t' := MergeOne(t, row, target, cx);
    var e := Event(target.jobId, JobMerged, cx.runId, None, None);
    forall id | id in t'.jobs
      ensures Told(t', id)
    {
      CountNext(t.events, e, id, JobCreated);
      CountNext(t.events, e, id, JobMerged);
      if id == target.jobId {
        assert MergedKeys(t', id) == MergedKeys(t, id) + {KeyOf(row)};
      } else {
        assert MergedKeys(t', id) == MergedKeys(t, id);
      }
    }
  }

  lemma ChangeKeepsLogged(t: Tables, before: Tables, row: PreparedJob, cx: Context)
    requires Logged(t) && Known(before, row) && JobIdOf(before, row) in before.jobs && JobIdOf(before, row) < t.nextId
    ensures Logged(ChangeOne(t, before, row, cx))
  {
    var t' := ChangeOne(t, before, row, cx);
    forall id | id in t'.jobs
      ensures Told(t', id)
    {
      CountNext(t.events, Last(t'.events), id, JobCreated);
      CountNext(t.events, Last(t'.events), id, JobMerged);
      assert MergedKeys(t', id) == MergedKeys(t, id);
    }
  }

  lemma {:induction false} InsertsKeepLogged(t: Tables, rows: seq<PreparedJob>, cx: Context)
    requires Logged(t) && DistinctKeys(rows) && Keys(rows) !! t.sources.Keys
    ensures Logged(InsertAll(t, rows, cx))
  {
    hide Logged;
    hide InsertOne;
    if rows != [] {
      KeysNext(rows);
      InsertsKeepLogged(t, Init(rows), cx);
      InsertedSources(t, Init(rows), cx);
      LastIsNew(rows);
      InsertKeepsLogged(InsertAll(t, Init(rows), cx), Last(rows), cx);
    }
  }

  lemma LastIsNew(rows: seq<PreparedJob>)
    requires rows != [] && DistinctKeys(rows)
    ensures KeyOf(Last(rows)) !in Keys(Init(rows)) && DistinctKeys(Init(rows))
  {
    forall i | 0 <= i < |rows| - 1
      ensures KeyOf(rows[i]) != KeyOf(Last(rows)) && Init(rows)[i] == rows[i]
    {
    }
  }

  lemma {:induction false} MergesKeepLogged(t: Tables, rows: seq<PreparedJob>, targets: map<string, Target>, cx: Context)
    requires Logged(t) && DistinctKeys(rows) && Keys(rows) !! t.sources.Keys
    requires forall r :: r in rows ==> r.externalId in targets && targets[r.externalId].jobId in t.jobs
    ensures Logged(MergeAll(t, rows, targets, cx))
  {
    hide Logged;
    hide MergeOne;
    if rows != [] {
      KeysNext(rows);
      assert rows == Init(rows) + [Last(rows)];
      MergesKeepLogged(t, Init(rows), targets, cx);
      MergedSources(t, Init(rows), targets, cx);
      LastIsNew(rows);
      MergeKeepsLogged(MergeAll(t, Init(rows), targets, cx), Last(rows), targets[Last(rows).externalId], cx);
    }
  }

  lemma {:induction false} ChangesKeepLogged(t: Tables, before: Tables, rows: seq<PreparedJob>, cx: Context)
    requires Logged(t) && forall r :: r in rows ==> Known(before, r) && JobIdOf(before, r) in before.jobs && JobIdOf(before, r) < t.nextId
    ensures Logged(ChangeAll(t, before, rows, cx)) && ChangeAll(t, before, rows, cx).nextId == t.nextId
  {
    hide Logged;
    if rows != [] {
      assert rows == Init(rows) + [Last(rows)];
      ChangesKeepLogged(t, before, Init(rows), cx);
      ChangeKeepsLogged(ChangeAll(t, before, Init(rows), cx), before, Last(rows), cx);
    }
  }

  /** Whatever touches neither the sets of jobs and merged rows nor the log keeps it true. */
  lemma SameSets(t: Tables, t': Tables)
    requires Logged(t) && Valid(t') && t'.jobs.Keys <= t.jobs.Keys && t'.events == t.events && t'.nextId == t.nextId
    requires forall id :: id in t'.jobs ==> MergedKeys(t', id) == MergedKeys(t, id)
    ensures Logged(t')
  {
    forall id | id in t'.jobs
      ensures Told(t', id)
    {
      assert Told(t, id);
    }
  }

  lemma InsertStageKeepsLogged(t: Tables, rows: seq<PreparedJob>, targets: map<string, Target>, cx: Context)
    requires Logged(t) && LoadableBatch(rows)
    ensures var t1 := AfterInserts(t, rows, targets, cx);
      && Logged(t1) && t.jobs.Keys <= t1.jobs.Keys && t.nextId <= t1.nextId
      && DistinctKeys(MergeRows(t, rows, targets)) && Keys(MergeRows(t, rows, targets)) !! t1.sources.Keys
  {
    SplitDistinct(t, rows, targets);
    SplitKeys(t, rows, targets);
    InsertedSources(t, FreshRows(t, rows, targets), cx);
    InsertedJobs(t, FreshRows(t, rows, targets), cx);
    InsertsKeepLogged(t, FreshRows(t, rows, targets), cx);
    hide InsertAll;
    hide Logged;
  }

  lemma MergeStageKeepsLogged(t: Tables, rows: seq<PreparedJob>, targets: map<string, Target>, cx: Context)
    requires Logged(t) && LoadableBatch(rows) && ValidTargets(t, NewRows(t, rows), targets)
    ensures var t2 := AfterMerges(t, rows, targets, cx); Logged(t2) && t.nextId <= t2.nextId
  {
    InsertStageKeepsLogged(t, rows, targets, cx);
    hide Logged;
    hide AfterInserts;
    var t1 := AfterInserts(t, rows, targets, cx);
    forall r | r in MergeRows(t, rows, targets)
      ensures targets[r.externalId].jobId in t1.jobs
    {
      TargetsExist(t, rows, targets, r);
    }
    MergedSources(t1, MergeRows(t, rows, targets), targets, cx);
    MergesKeepLogged(t1, MergeRows(t, rows, targets), targets, cx);
  }

  lemma TouchKeepsLogged(t: Tables, before: Tables, rows: seq<PreparedJob>, cx: Context)
    requires Logged(t) && forall r :: r in rows ==> Known(before, r)
    ensures Logged(t.(jobs := TouchAll(t.jobs, before, rows, cx)))
  {
    TouchAllEffect(t.jobs, before, rows, cx);
    SameSets(t, t.(jobs := TouchAll(t.jobs, before, rows, cx)));
  }

  lemma RefreshKeepsLogged(t: Tables, rows: seq<PreparedJob>, now: Time)
    requires Logged(t)
    ensures Logged(t.(sources := RefreshAll(t.sources, rows, now)))
  {
    var t' := t.(sources := RefreshAll(t.sources, rows, now));
    forall id
      ensures MergedKeys(t', id) == MergedKeys(t, id)
    {
    }
    SameSets(t, t');
  }

  /** A load tells everything it does, once. */
  lemma LoadKeepsLogged(t: Tables, rows: seq<PreparedJob>, targets: map<string, Target>, cx: Context)
    requires Logged(t) && LoadableBatch(rows) && ValidTargets(t, NewRows(t, rows), targets)
    ensures Logged(Loaded(t, rows, targets, cx))
  {
    MergeStageKeepsLogged(t, rows, targets, cx);
    TouchKeepsLogged(AfterMerges(t, rows, targets, cx), t, UnchangedRows(t, rows), cx);
    var t3 := AfterTouch(t, rows, targets, cx);
    ChangesKeepLogged(t3, t, ChangedRows(t, rows), cx);
    RefreshKeepsLogged(ChangeAll(t3, t, ChangedRows(t, rows), cx), rows, cx.now);
  }

  lemma {:induction false} CountLive(events: seq<Event>, jobs: map<JobId, Job>, id: JobId, kind: EventType)
    requires id in jobs
    ensures CountOf(LiveEvents(events, jobs), id, kind) == CountOf(events, id, kind)
  {
    if events != [] {
      CountLive(Init(events), jobs, id, kind);
      CountNext(LiveEvents(Init(events), jobs), Last(events), id, kind);
      assert LiveEvents(events, jobs) ==
        if Last(events).jobId in jobs then LiveEvents(Init(events), jobs) + [Last(events)] else LiveEvents(Init(events), jobs);
    }
  }

  lemma StepKeepsLogged(t: Tables, step: Step, t': Tables)
    requires Logged(t) && Next(t, step, t')
    ensures Logged(t')
  {
    match step
    case LoadBatch(rows, targets, cx) => LoadKeepsLogged(t, rows, targets, cx);
    case RolledBack =>
    case DeleteJobs(ids) =>
      forall id | id in t'.jobs
        ensures MergedKeys(t', id) == MergedKeys(t, id)
      {
      }
      SameSets(t, t');
    case ExpireJobs(ids, now) =>
      forall id | id in t'.jobs
        ensures MergedKeys(t', id) == MergedKeys(t, id)
      {
      }
      SameSets(t, t');
    case PurgeEvents =>
      FilterMembers(t.events, (e: Event) => e.jobId in t.jobs);
      forall id | id in t'.jobs
        ensures Told(t', id)
      {
        assert Told(t, id) && MergedKeys(t', id) == MergedKeys(t, id);
        CountLive(t.events, t.jobs, id, JobCreated);
        CountLive(t.events, t.jobs, id, JobMerged);
      }
  }

  /** The log is complete and tells nothing twice: in every state of every history that starts
      empty, each live job has exactly one creation event and exactly as many merge events as
      provenance rows that were merged into it, and no event speaks of a job that never was. */
  lemma {:induction false} LogInvariant(trace: seq<Tables>, steps: seq<Step>, i: nat)
    requires Run(trace, steps) && trace[0] == EMPTY && i < |trace|
    ensures Logged(trace[i])
  {
    if i > 0 {
      LogInvariant(trace, steps, i - 1);
      hide Logged;
      assert Next(trace[i - 1], steps[i - 1], trace[i]);
      StepKeepsLogged(trace[i - 1], steps[i - 1], trace[i]);
    }
  }
}
