/** Whole histories of the job tables: loads in any order, replays included, mixed with
    retention passes. A refused or crashed transaction is a step that changes nothing. */
module History {
  import opened Prelude
  import opened Schema
  import opened LoadSpec
  import opened LoadEffects
  import opened Retention

  datatype Step =
    | LoadBatch(rows: seq<PreparedJob>, targets: map<string, Target>, cx: Context)
    | RolledBack
    | DeleteJobs(ids: set<JobId>)
    | ExpireJobs(ids: set<JobId>, now: Time)
    | PurgeEvents

  ghost predicate Next(t: Tables, step: Step, t': Tables) {
    match step
    case LoadBatch(rows, targets, cx) =>
      Valid(t) && LoadableBatch(rows) && ValidTargets(t, NewRows(t, rows), targets)
      && t' == Loaded(t, rows, targets, cx)
    case RolledBack => t' == t
    case DeleteJobs(ids) => t' == Deleted(t, ids)
    case ExpireJobs(ids, now) => t' == ExpiredIn(t, ids, now)
    case PurgeEvents => t' == Purged(t)
  }

  /** A history: the tables before and after each step. */
  ghost predicate Run(trace: seq<Tables>, steps: seq<Step>) {
    && |trace| == |steps| + 1
    && forall i :: 0 <= i < |steps| ==> Next(trace[i], steps[i], trace[i + 1])
  }

  // ---- one step ---------------------------------------------------------------------

  /** The targets of a batch are jobs that exist before it. */
  lemma TargetsExist(t: Tables, rows: seq<PreparedJob>, targets: map<string, Target>, r: PreparedJob)
    requires ValidTargets(t, NewRows(t, rows), targets)
    requires r in rows && !Known(t, r) && r.externalId in targets
    ensures targets[r.externalId].jobId in t.jobs
  {
    var news := NewRows(t, rows);
    var i :| 0 <= i < |news| && news[i] == r;
    assert TargetFits(t, news, targets, i);
  }

  /** Where a load puts a new row: on a job it created, or on the target's existing job. */
  lemma NewBinding(t: Tables, rows: seq<PreparedJob>, inserts: seq<PreparedJob>, targets: map<string, Target>, cx: Context,
                   t': Tables, r: PreparedJob)
    returns (i: nat)
    requires Valid(t) && ValidTargets(t, NewRows(t, rows), targets)
    requires InsertsOf(t, rows, targets, inserts) && BindingsAfter(t, t', rows, inserts, targets, cx)
    requires r in rows && !Known(t, r)
    ensures r.externalId in targets ==>
      targets[r.externalId].jobId in t.jobs && Bound(t'.sources, KeyOf(r), MergedRow(r, targets, cx))
    ensures r.externalId !in targets ==>
      && i < |inserts| && inserts[i] == r
      && Bound(t'.sources, KeyOf(r), Provenance(t.nextId + i, true, L1SourceId, cx.now, cx.now))
  {
    i := 0;
    if r.externalId in targets {
      TargetsExist(t, rows, targets, r);
    } else {
      i :| 0 <= i < |inserts| && inserts[i] == r;
    }
  }

  /** Every binding after a load was there before, created its job, or joined an existing one. */
  lemma BoundAfterLoad(t: Tables, rows: seq<PreparedJob>, inserts: seq<PreparedJob>, targets: map<string, Target>, cx: Context,
                       t': Tables, k: SourceKey)
    returns (r: PreparedJob, i: nat)
    requires Valid(t) && ValidTargets(t, NewRows(t, rows), targets)
    requires InsertsOf(t, rows, targets, inserts) && BindingsAfter(t, t', rows, inserts, targets, cx)
    requires k in t'.sources && k !in t.sources
    requires KeysAfter(t, t', rows)
    ensures KeyOf(r) == k
    ensures if t'.sources[k].isPrimary then i < |inserts| && inserts[i] == r && t'.sources[k].jobId == t.nextId + i
            else t'.sources[k].jobId in t.jobs
  {
    assert k in Keys(rows);
    r :| r in rows && KeyOf(r) == k;
    i := NewBinding(t, rows, inserts, targets, cx, t', r);
  }

  lemma EffectKeepsValid(t: Tables, rows: seq<PreparedJob>, inserts: seq<PreparedJob>, targets: map<string, Target>, cx: Context,
                         t': Tables)
    requires Valid(t) && ValidTargets(t, NewRows(t, rows), targets)
    requires InsertsOf(t, rows, targets, inserts) && BindingsAfter(t, t', rows, inserts, targets, cx)
    requires NewJobsAfter(t, t', inserts, cx)
    requires KeysAfter(t, t', rows)
    ensures Valid(t')
  {
    forall k | k in t'.sources
      ensures t'.sources[k].jobId in t'.jobs
    {
      if k in t.sources {
        assert SameBinding(t.sources[k], t'.sources[k]);
      } else {
        var _, _ := BoundAfterLoad(t, rows, inserts, targets, cx, t', k);
      }
    }
  }

  /** A load keeps the invariant: each job has exactly one primary provenance row, and each
      provenance row points at a live job. */
  lemma EffectKeepsConsistent(t: Tables, rows: seq<PreparedJob>, inserts: seq<PreparedJob>, targets: map<string, Target>,
                              cx: Context, t': Tables)
    requires Consistent(t) && ValidTargets(t, NewRows(t, rows), targets)
    requires InsertsOf(t, rows, targets, inserts) && BindingsAfter(t, t', rows, inserts, targets, cx)
    requires NewJobsAfter(t, t', inserts, cx)
    requires KeysAfter(t, t', rows)
    ensures Consistent(t')
  {
    EffectKeepsValid(t, rows, inserts, targets, cx, t');
    forall id | id in t'.jobs
      ensures OnePrimary(t', id)
    {
      if id in t.jobs {
        OldJobKeepsPrimary(t, rows, inserts, targets, cx, t', id);
      } else {
        NewJobHasPrimary(t, rows, inserts, targets, cx, t', id);
      }
    }
  }

  lemma OldJobKeepsPrimary(t: Tables, rows: seq<PreparedJob>, inserts: seq<PreparedJob>, targets: map<string, Target>,
                           cx: Context, t': Tables, id: JobId)
    requires Consistent(t) && ValidTargets(t, NewRows(t, rows), targets)
    requires InsertsOf(t, rows, targets, inserts) && BindingsAfter(t, t', rows, inserts, targets, cx)
    requires id in t.jobs
    requires KeysAfter(t, t', rows)
    ensures OnePrimary(t', id)
  {
    var k0 :| Primary(t, id, k0);
    assert SameBinding(t.sources[k0], t'.sources[k0]);
    assert Primary(t', id, k0);
    forall k | Primary(t', id, k)
      ensures k == k0
    {
      if k in t.sources {
        assert SameBinding(t.sources[k], t'.sources[k]);
        assert Primary(t, id, k);
      } else {
        var _, _ := BoundAfterLoad(t, rows, inserts, targets, cx, t', k);
      }
    }
  }

  lemma NewJobHasPrimary(t: Tables, rows: seq<PreparedJob>, inserts: seq<PreparedJob>, targets: map<string, Target>,
                         cx: Context, t': Tables, id: JobId)
    requires Valid(t) && ValidTargets(t, NewRows(t, rows), targets)
    requires InsertsOf(t, rows, targets, inserts) && BindingsAfter(t, t', rows, inserts, targets, cx)
    requires t.nextId <= id < t.nextId + |inserts|
    requires KeysAfter(t, t', rows)
    ensures OnePrimary(t', id)
  {
    var k0 := KeyOf(inserts[id - t.nextId]);
    assert Primary(t', id, k0);
    forall k | Primary(t', id, k)
      ensures k == k0
    {
      if k !in t.sources {
        var r, i := BoundAfterLoad(t, rows, inserts, targets, cx, t', k);
      }
    }
  }

  lemma RetentionKeepsConsistent(t: Tables, step: Step, t': Tables)
    requires Consistent(t) && Next(t, step, t') && !step.LoadBatch?
    ensures Consistent(t')
  {
    forall id | id in t'.jobs
      ensures OnePrimary(t', id)
    {
      var k0 :| Primary(t, id, k0);
      assert Primary(t', id, k0);
      assert forall k :: Primary(t', id, k) ==> Primary(t, id, k);
    }
  }

  /** What no step ever does to a job or a binding whose job stays. */
  ghost predicate Preserved(t: Tables, t': Tables) {
    && t.nextId <= t'.nextId
    && (forall id :: id in t'.jobs && id < t.nextId ==> id in t.jobs)
    && (forall id :: id in t.jobs && id in t'.jobs ==>
          t'.jobs[id].firstSeenAt == t.jobs[id].firstSeenAt && t'.jobs[id].source == t.jobs[id].source)
    && (forall k :: k in t.sources && t.sources[k].jobId in t'.jobs ==>
          k in t'.sources && SameBinding(t.sources[k], t'.sources[k]))
  }

  lemma EffectPreserves(t: Tables, rows: seq<PreparedJob>, inserts: seq<PreparedJob>, targets: map<string, Target>,
                        cx: Context, t': Tables)
    requires Valid(t) && Effect(t, rows, inserts, targets, cx, t')
    ensures Preserved(t, t') && t.jobs.Keys <= t'.jobs.Keys
  {
  }

  lemma StepPreserves(t: Tables, step: Step, t': Tables)
    requires Consistent(t) && Next(t, step, t')
    ensures Consistent(t') && Preserved(t, t')
    ensures step.LoadBatch? || step.RolledBack? ==> t.jobs.Keys <= t'.jobs.Keys
  {
    if step.LoadBatch? {
      LoadHasEffect(t, step.rows, step.targets, step.cx);
      var inserts := FreshRows(t, step.rows, step.targets);
      EffectKeepsConsistent(t, step.rows, inserts, step.targets, step.cx, t');
      EffectPreserves(t, step.rows, inserts, step.targets, step.cx, t');
    } else {
      RetentionKeepsConsistent(t, step, t');
    }
  }

  // ---- whole histories ----------------------------------------------------------------

  lemma {:induction false} AllConsistent(trace: seq<Tables>, steps: seq<Step>, j: nat)
    requires Run(trace, steps) && Consistent(trace[0]) && j < |trace|
    ensures Consistent(trace[j])
  {
    hide Consistent;
    if j > 0 {
      AllConsistent(trace, steps, j - 1);
      LastStep(trace, steps, j);
    }
  }

  /** Provenance and history: in every state a history reaches, each job has exactly one
      primary provenance row, no provenance row dangles, job ids are never reused, detection
      times never change, and no row is ever moved to another job. */
  lemma {:induction false} HistoryInvariant(trace: seq<Tables>, steps: seq<Step>, i: nat, j: nat)
    requires Run(trace, steps) && Consistent(trace[0]) && i <= j < |trace|
    ensures Consistent(trace[j]) && Preserved(trace[i], trace[j])
    ensures LoadsOnly(steps) ==> trace[i].jobs.Keys <= trace[j].jobs.Keys
  {
    hide Run;
    hide Consistent;
    hide Preserved;
    hide LoadsOnly;
    AllConsistent(trace, steps, i);
    AllConsistent(trace, steps, j);
    ConsistentIsValid(trace[i]);
    if i < j {
      AllConsistent(trace, steps, j - 1);
      LastStep(trace, steps, j);
      HistoryInvariant(trace, steps, i, j - 1);
      PreservedTransitive(trace[i], trace[j - 1], trace[j]);
    } else {
      PreservedSame(trace[i]);
    }
  }

  lemma ConsistentIsValid(t: Tables)
    requires Consistent(t)
    ensures Valid(t)
  {
  }

  lemma PreservedSame(t: Tables)
    requires Valid(t)
    ensures Preserved(t, t)
  {
  }

  lemma LastStep(trace: seq<Tables>, steps: seq<Step>, j: nat)
    requires Run(trace, steps) && 0 < j < |trace| && Consistent(trace[j - 1])
    ensures Consistent(trace[j]) && Preserved(trace[j - 1], trace[j])
    ensures LoadsOnly(steps) ==> trace[j - 1].jobs.Keys <= trace[j].jobs.Keys
  {
    assert Next(trace[j - 1], steps[j - 1], trace[j]);
    StepPreserves(trace[j - 1], steps[j - 1], trace[j]);
  }

  lemma PreservedTransitive(a: Tables, b: Tables, c: Tables)
    requires Valid(a) && Preserved(a, b) && Preserved(b, c)
    ensures Preserved(a, c)
  {
  }

  ghost predicate LoadsOnly(steps: seq<Step>) {
    forall i :: 0 <= i < |steps| ==> steps[i].LoadBatch? || steps[i].RolledBack?
  }

  /** Binding stability: over any sequence of loads, replays in any order included, a bound
      row stays bound to the same job, and that job stays. */
  lemma BindingStable(trace: seq<Tables>, steps: seq<Step>, i: nat, j: nat, k: SourceKey)
    requires Run(trace, steps) && Consistent(trace[0]) && LoadsOnly(steps) && i <= j < |trace|
    requires k in trace[i].sources
    ensures k in trace[j].sources && trace[j].sources[k].jobId == trace[i].sources[k].jobId
    ensures trace[j].sources[k].jobId in trace[j].jobs
  {
    HistoryInvariant(trace, steps, i, j);
    HistoryInvariant(trace, steps, 0, i);
  }

  /** The four counters partition the batch. */
  lemma {:induction false} CountersPartition(t: Tables, rows: seq<PreparedJob>, targets: map<string, Target>)
    requires Valid(t)
    ensures var r := ResultOf(t, rows, targets);
      r.inserted + r.updated + r.unmodified + r.merged == |rows|
  {
    if rows != [] {
      CountersPartition(t, Init(rows), targets);
    }
  }

  /** Loading rows that are all known creates no job and no provenance row. */
  lemma KnownRowsAreQuiet(t: Tables, rows: seq<PreparedJob>, targets: map<string, Target>, cx: Context)
    requires Valid(t) && LoadableBatch(rows)
    requires forall r :: r in rows ==> Known(t, r)
    ensures var t', result := Loaded(t, rows, targets, cx), ResultOf(t, rows, targets);
      && result.inserted == 0 && result.merged == 0
      && t'.jobs.Keys == t.jobs.Keys && t'.sources.Keys == t.sources.Keys
  {
    NothingNew(t, rows, targets);
    LoadHasEffect(t, rows, targets, cx);
    assert Keys(rows) <= t.sources.Keys;
  }

  lemma {:induction false} NothingNew(t: Tables, rows: seq<PreparedJob>, targets: map<string, Target>)
    requires forall r :: r in rows ==> Known(t, r)
    ensures FreshRows(t, rows, targets) == [] && MergeRows(t, rows, targets) == []
  {
    if rows != [] {
      NothingNew(t, Init(rows), targets);
      assert Last(rows) in rows;
    }
  }

  /** Idempotence: once a batch is loaded, loading it again at any later point of a history of
      loads inserts nothing, merges nothing, and leaves the sets of jobs and bindings alone. */
  lemma ReloadIsQuiet(trace: seq<Tables>, steps: seq<Step>, i: nat, j: nat, targets: map<string, Target>, cx: Context)
    requires Run(trace, steps) && Consistent(trace[0]) && LoadsOnly(steps) && i < j < |trace|
    requires steps[i].LoadBatch?
    ensures Consistent(trace[j])
    ensures var t, rows := trace[j], steps[i].rows;
      var t', result := Loaded(t, rows, targets, cx), ResultOf(t, rows, targets);
      && result.inserted == 0 && result.merged == 0 && result.updated + result.unmodified == |rows|
      && t'.jobs.Keys == t.jobs.Keys && t'.sources.Keys == t.sources.Keys
  {
    HistoryInvariant(trace, steps, 0, j);
    HistoryInvariant(trace, steps, 0, i);
    RowsStayKnown(trace, steps, i, j);
    assert Next(trace[i], steps[i], trace[i + 1]);
    CountersPartition(trace[j], steps[i].rows, targets);
    KnownRowsAreQuiet(trace[j], steps[i].rows, targets, cx);
  }

  lemma RowsStayKnown(trace: seq<Tables>, steps: seq<Step>, i: nat, j: nat)
    requires Run(trace, steps) && Consistent(trace[0]) && LoadsOnly(steps) && i < j < |trace|
    requires steps[i].LoadBatch? && Consistent(trace[i])
    ensures forall r :: r in steps[i].rows ==> Known(trace[j], r)
  {
    var rows := steps[i].rows;
    assert Next(trace[i], steps[i], trace[i + 1]);
    assert trace[i + 1].sources.Keys >= Keys(rows) by {
      LoadBindings(trace[i], rows, steps[i].targets, steps[i].cx);
    }
    forall r | r in rows
      ensures Known(trace[j], r)
    {
      assert KeyOf(r) in Keys(rows);
      BindingStable(trace, steps, i + 1, j, KeyOf(r));
    }
  }

  // ---- merges -----------------------------------------------------------------------------

  lemma IndexOfNewRow(t: Tables, rows: seq<PreparedJob>, r: PreparedJob) returns (i: nat)
    requires r in rows && !Known(t, r)
    ensures i < |NewRows(t, rows)| && NewRows(t, rows)[i] == r
  {
    i :| 0 <= i < |NewRows(t, rows)| && NewRows(t, rows)[i] == r;
  }

  /** Merge soundness: a new row ends up as the primary row of a job it created, or attached to
      a job whose stored URL hash (recorded as level two) or fingerprint (recorded as level
      four) was the row's before the batch. */
  lemma MergeSound(t: Tables, rows: seq<PreparedJob>, inserts: seq<PreparedJob>, targets: map<string, Target>, cx: Context,
                   t': Tables, r: PreparedJob)
    requires Valid(t) && ValidTargets(t, NewRows(t, rows), targets)
    requires InsertsOf(t, rows, targets, inserts) && BindingsAfter(t, t', rows, inserts, targets, cx)
    requires r in rows && !Known(t, r)
    ensures KeyOf(r) in t'.sources
    ensures var p := t'.sources[KeyOf(r)];
      || (p.isPrimary && p.jobId !in t.jobs && p.matchedBy == L1SourceId && r.externalId !in targets)
      || (!p.isPrimary && p.matchedBy == L2ApplyUrl && UrlMatch(t, r, p.jobId))
      || (!p.isPrimary && p.matchedBy == L4ContentFingerprint && FingerprintMatch(t, r, p.jobId))
  {
    var i := IndexOfNewRow(t, rows, r);
    assert TargetFits(t, NewRows(t, rows), targets, i);
    var _ := NewBinding(t, rows, inserts, targets, cx, t', r);
  }

  ghost predicate DistinctDedupeKeys(rows: seq<PreparedJob>) {
    forall i, j :: 0 <= i < |rows| && 0 <= j < |rows| && i != j ==>
      && rows[i].columns.fingerprint != rows[j].columns.fingerprint
      && (rows[i].columns.applyUrlHash.Some? ==> rows[i].columns.applyUrlHash != rows[j].columns.applyUrlHash)
  }

  /** Merge completeness: when the new rows of the batch have pairwise distinct keys, a row is
      attached to an existing job exactly when one carries its URL hash or its fingerprint, and
      the URL wins when both do. */
  lemma MergeComplete(t: Tables, rows: seq<PreparedJob>, inserts: seq<PreparedJob>, targets: map<string, Target>, cx: Context,
                      t': Tables, r: PreparedJob)
    requires Valid(t) && ValidTargets(t, NewRows(t, rows), targets)
    requires InsertsOf(t, rows, targets, inserts) && BindingsAfter(t, t', rows, inserts, targets, cx)
    requires r in rows && !Known(t, r) && DistinctDedupeKeys(NewRows(t, rows))
    ensures KeyOf(r) in t'.sources
    ensures var p := t'.sources[KeyOf(r)];
      && (!p.isPrimary <==> exists id :: UrlMatch(t, r, id) || FingerprintMatch(t, r, id))
      && (p.matchedBy == L2ApplyUrl <==> exists id :: UrlMatch(t, r, id))
  {
    var _ := NewBinding(t, rows, inserts, targets, cx, t', r);
    MergeSound(t, rows, inserts, targets, cx, t', r);
    TargetIffKeyStored(t, NewRows(t, rows), targets, r);
  }

  lemma TargetIffKeyStored(t: Tables, news: seq<PreparedJob>, targets: map<string, Target>, r: PreparedJob)
    requires ValidTargets(t, news, targets) && DistinctDedupeKeys(news) && r in news
    ensures r.externalId in targets <==> exists id :: UrlMatch(t, r, id) || FingerprintMatch(t, r, id)
    ensures r.externalId in targets && targets[r.externalId].level == L2ApplyUrl <==> exists id :: UrlMatch(t, r, id)
  {
    var i :| 0 <= i < |news| && news[i] == r;
    assert TargetFits(t, news, targets, i);
    if id :| UrlMatch(t, r, id) {
      assert UrlHit(t, news, i);
    } else if id :| FingerprintMatch(t, r, id) {
      assert FingerprintHit(t, news, i);
    }
  }

  lemma HitDecides(t: Tables, rows: seq<PreparedJob>, inserts: seq<PreparedJob>, targets: map<string, Target>, cx: Context,
                   t': Tables, i: nat)
    requires Valid(t) && ValidTargets(t, NewRows(t, rows), targets) && i < |NewRows(t, rows)|
    requires InsertsOf(t, rows, targets, inserts) && BindingsAfter(t, t', rows, inserts, targets, cx)
    ensures var news := NewRows(t, rows); KeyOf(news[i]) in t'.sources && Attached(t, news, i, t'.sources[KeyOf(news[i])])
  {
    var news := NewRows(t, rows);
    assert news[i] in rows && !Known(t, news[i]);
    assert TargetFits(t, news, targets, i);
    var _ := NewBinding(t, rows, inserts, targets, cx, t', news[i]);
    hide UrlHit;
    hide FingerprintHit;
    hide NewRows;
  }

  /** How the new row at position i is bound. */
  ghost predicate Attached(t: Tables, news: seq<PreparedJob>, i: nat, p: Provenance)
    requires i < |news|
  {
    && (!p.isPrimary <==> UrlHit(t, news, i) || FingerprintHit(t, news, i))
    && (p.matchedBy == L2ApplyUrl <==> UrlHit(t, news, i))
    && (p.matchedBy == L4ContentFingerprint <==> FingerprintHit(t, news, i))
    && (!p.isPrimary ==> p.jobId in t.jobs)
  }

  /** Without distinct keys, exactly: of the new rows of a batch, the one at position i is attached to
      an existing job if and only if it is the last with its URL hash and some job stores that hash,
      recorded as level two, or else it is the last with its fingerprint among the rows without such
      a match and some job stores that fingerprint, recorded as level four. */
  lemma MergeExactly(t: Tables, rows: seq<PreparedJob>, targets: map<string, Target>, cx: Context, i: nat)
    requires Valid(t) && LoadableBatch(rows) && ValidTargets(t, NewRows(t, rows), targets) && i < |NewRows(t, rows)|
    ensures var news, sources := NewRows(t, rows), Loaded(t, rows, targets, cx).sources;
      KeyOf(news[i]) in sources && Attached(t, news, i, sources[KeyOf(news[i])])
  {
    LoadHasEffect(t, rows, targets, cx);
    hide Loaded;
    hide Attached;
    hide BindingsAfter;
    hide InsertsOf;
    HitDecides(t, rows, FreshRows(t, rows, targets), targets, cx, Loaded(t, rows, targets, cx), i);
  }

  /** So of two new rows with one stored URL the earlier never joins its job by that URL: it is
      inserted beside it, unless its fingerprint hits. */
  lemma EarlierTwinIsInserted(t: Tables, rows: seq<PreparedJob>, targets: map<string, Target>, cx: Context, i: nat, j: nat)
    requires Valid(t) && LoadableBatch(rows) && ValidTargets(t, NewRows(t, rows), targets) && i < j < |NewRows(t, rows)|
    requires exists id :: UrlMatch(t, NewRows(t, rows)[i], id)
    requires NewRows(t, rows)[i].columns.applyUrlHash == NewRows(t, rows)[j].columns.applyUrlHash
    ensures var news, sources := NewRows(t, rows), Loaded(t, rows, targets, cx).sources;
      && KeyOf(news[i]) in sources
      && (sources[KeyOf(news[i])].isPrimary <==> !FingerprintHit(t, news, i))
      && sources[KeyOf(news[i])].matchedBy != L2ApplyUrl
  {
    MergeExactly(t, rows, targets, cx, i);
    hide Loaded;
    assert !UrlHit(t, NewRows(t, rows), i);
  }
}
