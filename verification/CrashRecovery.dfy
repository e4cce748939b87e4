/** Crash equivalence: a file whose ingestion is killed after any number of committed batches,
    any number of times, and then ingested whole, leaves the same facts as one uninterrupted
    pass, provided the file is free of merges. */
module CrashRecovery {
  import opened Prelude
  import opened Schema
  import opened LoadSpec
  import opened LoadEffects
  import opened History

  /** What a source row can see of the tables: its job's columns and how it is bound. Surrogate
      ids, clocks, events and the COALESCE-kept columns are not part of it. */
  datatype Fact = Fact(columns: Columns, isPrimary: bool, matchedBy: DedupeLevel)

  ghost function FactAt(t: Tables, k: SourceKey): Option<Fact>
    requires Valid(t)
  {
    if k !in t.sources then None
    else Some(Fact(t.jobs[t.sources[k].jobId].columns, t.sources[k].isPrimary, t.sources[k].matchedBy))
  }

  /** What one row makes of the fact at its key. */
  function Observe(f: Option<Fact>, row: PreparedJob): Option<Fact> {
    if f.None? then Some(Fact(ColumnsOf(row), true, L1SourceId))
    else if f.value.columns.contentHash == row.columns.contentHash then f
    else Some(f.value.(columns := ColumnsOf(row)))
  }

  /** The fact at `k` after the rows, of which only those with key `k` count. */
  function Track(f: Option<Fact>, rows: seq<PreparedJob>, k: SourceKey): Option<Fact> {
    if rows == [] then f
    else
      var g := Track(f, Init(rows), k);
      if KeyOf(Last(rows)) == k then Observe(g, Last(rows)) else g
  }

  lemma {:induction false} TrackAppend(f: Option<Fact>, a: seq<PreparedJob>, b: seq<PreparedJob>, k: SourceKey)
    ensures Track(f, a + b, k) == Track(Track(f, a, k), b, k)
  {
    if b == [] {
      assert a + b == a;
    } else {
      assert Init(a + b) == a + Init(b);
      TrackAppend(f, a, Init(b), k);
    }
  }

  // ---- replaying a list of rows is absorbed ------------------------------------------

  ghost predicate Uniform(rows: seq<PreparedJob>, k: SourceKey, h: Hash) {
    forall r :: r in rows && KeyOf(r) == k ==> r.columns.contentHash == h
  }

  lemma {:induction false} TrackUniform(f: Option<Fact>, rows: seq<PreparedJob>, k: SourceKey, h: Hash)
    requires Uniform(rows, k, h)
    ensures f.Some? && f.value.columns.contentHash == h ==> Track(f, rows, k) == f
    ensures Track(f, rows, k) == f || (Track(f, rows, k).Some? && Track(f, rows, k).value.columns.contentHash == h)
  {
    if rows != [] {
      assert Last(rows) in rows && forall r :: r in Init(rows) ==> r in rows;
      TrackUniform(f, Init(rows), k, h);
    }
  }

  ghost predicate SameProvenance(f: Option<Fact>, g: Fact) {
    if f.None? then g.isPrimary && g.matchedBy == L1SourceId
    else g.isPrimary == f.value.isPrimary && g.matchedBy == f.value.matchedBy
  }

  lemma {:induction false} TrackKeepsProvenance(f: Option<Fact>, rows: seq<PreparedJob>, k: SourceKey)
    ensures Track(f, rows, k).None? ==> f.None? && forall r :: r in rows ==> KeyOf(r) != k
    ensures Track(f, rows, k).Some? ==> SameProvenance(f, Track(f, rows, k).value)
  {
    if rows != [] {
      TrackKeepsProvenance(f, Init(rows), k);
      assert rows == Init(rows) + [Last(rows)];
    }
  }

  lemma ObservedHash(f: Option<Fact>, row: PreparedJob)
    ensures Observe(f, row).Some? && Observe(f, row).value.columns.contentHash == row.columns.contentHash
  {
  }

  /** Two facts with the same provenance and a hash that is not the row's become one. */
  lemma ObservedMeet(f: Fact, g: Fact, row: PreparedJob)
    requires f.isPrimary == g.isPrimary && f.matchedBy == g.matchedBy
    requires f.columns.contentHash != row.columns.contentHash && g.columns.contentHash != row.columns.contentHash
    ensures Observe(Some(f), row) == Observe(Some(g), row)
  {
  }

  ghost predicate Occurs(rows: seq<PreparedJob>, k: SourceKey) {
    exists r :: r in rows && KeyOf(r) == k
  }

  /** From two starts with the same provenance, either the rows of `k` all carry one hash, or
      the first change makes the two runs equal for good. */
  lemma {:induction false} RunsMeet(f: Option<Fact>, g: Option<Fact>, rows: seq<PreparedJob>, k: SourceKey)
    returns (h: Hash)
    requires g.Some? && SameProvenance(f, g.value)
    ensures Track(f, rows, k) == Track(g, rows, k) || Uniform(rows, k, h)
    ensures Occurs(rows, k) ==>
      && Track(f, rows, k).Some? && Track(g, rows, k).Some?
      && (Uniform(rows, k, h) ==> Track(f, rows, k).value.columns.contentHash == h == Track(g, rows, k).value.columns.contentHash)
  {
    hide Observe;
    h := 0;
    if rows != [] {
      var first, last := Init(rows), Last(rows);
      h := RunsMeet(f, g, first, k);
      assert rows == first + [last];
      if KeyOf(last) == k {
        TrackKeepsProvenance(f, first, k);
        TrackKeepsProvenance(g, first, k);
        var f1, g1 := Track(f, first, k), Track(g, first, k);
        ObservedHash(f1, last);
        ObservedHash(g1, last);
        if f1 != g1 {
          if !Occurs(first, k) {
            h := last.columns.contentHash;
          } else if last.columns.contentHash != h {
            ObservedMeet(f1.value, g1.value, last);
          }
        }
      }
    }
  }

  /** Replaying rows that were all just observed changes nothing. */
  lemma ReplayAbsorbed(f: Option<Fact>, rows: seq<PreparedJob>, k: SourceKey)
    ensures Track(Track(f, rows, k), rows, k) == Track(f, rows, k)
  {
    var g := Track(f, rows, k);
    TrackKeepsProvenance(f, rows, k);
    if g.Some? {
      var h := RunsMeet(f, g, rows, k);
      if Track(g, rows, k) != g {
        TrackUniform(f, rows, k, h);
        TrackUniform(g, rows, k, h);
      }
    } else {
      TrackUniform(g, rows, k, 0);
    }
  }

  /** Starting over after a prefix ends where the uninterrupted list ends. */
  lemma RestartAbsorbed(f: Option<Fact>, done: seq<PreparedJob>, rest: seq<PreparedJob>, k: SourceKey)
    ensures Track(Track(f, done, k), done + rest, k) == Track(f, done + rest, k)
  {
    TrackAppend(f, done, rest, k);
    TrackAppend(Track(f, done, k), done, rest, k);
    ReplayAbsorbed(f, done, k);
  }

  // ---- merge-free files ----------------------------------------------------------------

  ghost predicate SharesKey(a: Columns, b: Columns) {
    a.fingerprint == b.fingerprint || (a.applyUrlHash.Some? && a.applyUrlHash == b.applyUrlHash)
  }

  /** `id` is the job of `r`, or has neither its URL nor its fingerprint. */
  ghost predicate OwnOrUnlike(t: Tables, r: PreparedJob, id: JobId)
    requires id in t.jobs
  {
    (Known(t, r) && JobIdOf(t, r) == id) || !SharesKey(r.columns, t.jobs[id].columns)
  }

  /** No two ids of the file, and no id and a stored job of another row, share a URL or a
      fingerprint, and every known id of the file is alone on its job. */
  ghost predicate MergeFree(t: Tables, file: seq<PreparedJob>) {
    && (forall r, r' :: r in file && r' in file ==> r.source == r'.source)
    && (forall r, r' :: r in file && r' in file && r.externalId != r'.externalId ==> !SharesKey(r.columns, r'.columns))
    && (forall r, id :: r in file && id in t.jobs ==> OwnOrUnlike(t, r, id))
    && (forall r, k :: r in file && Known(t, r) && k in t.sources && t.sources[k].jobId == JobIdOf(t, r) ==> k == KeyOf(r))
  }

  /** In a merge-free state the dedupe queries find nothing. */
  lemma NoTargets(t: Tables, file: seq<PreparedJob>, rows: seq<PreparedJob>, targets: map<string, Target>, r: PreparedJob)
    requires MergeFree(t, file) && r in rows && r in file && !Known(t, r)
    requires ValidTargets(t, NewRows(t, rows), targets)
    ensures r.externalId !in targets
  {
    var news := NewRows(t, rows);
    var i := IndexOfNewRow(t, rows, r);
    assert TargetFits(t, news, targets, i);
    forall id
      ensures !UrlMatch(t, r, id) && !FingerprintMatch(t, r, id)
    {
      if id in t.jobs {
        assert OwnOrUnlike(t, r, id);
      }
    }
  }

  ghost predicate RowFor(rows: seq<PreparedJob>, k: SourceKey, r: PreparedJob) {
    r in rows && KeyOf(r) == k
  }

  /** A batch holds at most one row of a key. */
  lemma {:induction false} TrackBatch(f: Option<Fact>, rows: seq<PreparedJob>, k: SourceKey)
    requires DistinctIds(rows)
    ensures (forall r :: !RowFor(rows, k, r)) ==> Track(f, rows, k) == f
    ensures forall r :: RowFor(rows, k, r) ==> Track(f, rows, k) == Observe(f, r)
  {
    if rows != [] {
      var first := Init(rows);
      assert rows == first + [Last(rows)];
      TrackBatch(f, first, k);
      forall r | r in first
        ensures r.externalId != Last(rows).externalId && r in rows
      {
      }
      assert RowFor(rows, KeyOf(Last(rows)), Last(rows));
      if KeyOf(Last(rows)) == k {
        assert forall r :: !RowFor(first, k, r);
      } else {
        assert forall r :: RowFor(rows, k, r) <==> RowFor(first, k, r);
      }
    }
  }

  /** The columns an existing job has after a merge-free load: those of the one row bound to it
      when its hash differs, its own otherwise. */
  lemma OwnRowDecides(t: Tables, file: seq<PreparedJob>, rows: seq<PreparedJob>, id: JobId, k: SourceKey, j': Job)
    requires Valid(t) && MergeFree(t, file) && LoadableBatch(rows) && (forall r :: r in rows ==> r in file)
    requires k in t.sources && t.sources[k].jobId == id && JobAfter(t, rows, id, t.jobs[id], j')
    ensures (forall r :: !RowFor(rows, k, r)) ==> j'.columns == t.jobs[id].columns
    ensures forall r :: RowFor(rows, k, r) ==>
      j'.columns == if SameContent(t, r) then t.jobs[id].columns else ColumnsOf(r)
  {
    if r' :| RewrittenBy(t, rows, id, r') {
      assert KeyOf(r') == k && RowFor(rows, k, r');
    }
    forall r | RowFor(rows, k, r)
      ensures j'.columns == if SameContent(t, r) then t.jobs[id].columns else ColumnsOf(r)
    {
      forall r' | RewrittenBy(t, rows, id, r')
        ensures r' == r
      {
        assert KeyOf(r') == KeyOf(r);
      }
      if !SameContent(t, r) {
        assert RewrittenBy(t, rows, id, r);
      }
    }
  }

  ghost predicate NoMerges(t: Tables, rows: seq<PreparedJob>, targets: map<string, Target>) {
    forall r :: r in rows && !Known(t, r) ==> r.externalId !in targets
  }

  lemma MergeFreeHasNoMerges(t: Tables, file: seq<PreparedJob>, rows: seq<PreparedJob>, targets: map<string, Target>)
    requires MergeFree(t, file) && (forall r :: r in rows ==> r in file)
    requires ValidTargets(t, NewRows(t, rows), targets)
    ensures NoMerges(t, rows, targets)
  {
    forall r | r in rows && !Known(t, r)
      ensures r.externalId !in targets
    {
      NoTargets(t, file, rows, targets, r);
    }
  }

  /** The job a new row creates when nothing merges. */
  lemma CreatedJob(t: Tables, rows: seq<PreparedJob>, inserts: seq<PreparedJob>, targets: map<string, Target>, cx: Context, t': Tables, r: PreparedJob)
    returns (id: JobId)
    requires Valid(t) && NoMerges(t, rows, targets) && InsertsOf(t, rows, targets, inserts) && BindingsAfter(t, t', rows, inserts, targets, cx)
    requires NewJobsAfter(t, t', inserts, cx)
    requires r in rows && !Known(t, r)
    ensures id !in t.jobs && id in t'.jobs && t'.jobs[id].columns == ColumnsOf(r)
    ensures Bound(t'.sources, KeyOf(r), Provenance(id, true, L1SourceId, cx.now, cx.now))
    ensures t.nextId <= id < t.nextId + |inserts| && inserts[id - t.nextId] == r
  {
    var i :| 0 <= i < |inserts| && inserts[i] == r;
    id := t.nextId + i;
  }

  /** One merge-free load, seen from a key that was bound before. */
  lemma LoadTracksKnown(t: Tables, file: seq<PreparedJob>, rows: seq<PreparedJob>, t': Tables, k: SourceKey)
    requires Valid(t) && Valid(t') && MergeFree(t, file) && LoadableBatch(rows) && (forall r :: r in rows ==> r in file)
    requires k in t.sources && k in t'.sources && SameBinding(t.sources[k], t'.sources[k])
    requires var id := t.sources[k].jobId; JobAfter(t, rows, id, t.jobs[id], t'.jobs[id])
    ensures FactAt(t', k) == Track(FactAt(t, k), rows, k)
  {
    TrackBatch(FactAt(t, k), rows, k);
    var id := t.sources[k].jobId;
    OwnRowDecides(t, file, rows, id, k, t'.jobs[id]);
    if r :| RowFor(rows, k, r) {
    }
  }

  /** One merge-free load, seen from any key. */
  lemma LoadTracks(t: Tables, file: seq<PreparedJob>, rows: seq<PreparedJob>, inserts: seq<PreparedJob>,
                   targets: map<string, Target>, cx: Context, t': Tables, k: SourceKey)
    requires Valid(t) && Valid(t') && MergeFree(t, file) && LoadableBatch(rows) && (forall r :: r in rows ==> r in file)
    requires NoMerges(t, rows, targets) && Effect(t, rows, inserts, targets, cx, t')
    ensures FactAt(t', k) == Track(FactAt(t, k), rows, k)
  {
    if k in t.sources {
      LoadTracksKnown(t, file, rows, t', k);
    } else {
      TrackBatch(FactAt(t, k), rows, k);
      if r :| RowFor(rows, k, r) {
        var id := CreatedJob(t, rows, inserts, targets, cx, t', r);
      } else {
        assert k !in Keys(rows) by {
          if r :| r in rows && KeyOf(r) == k {
            assert RowFor(rows, k, r);
          }
        }
      }
    }
  }

  ghost predicate WrittenFor(rows: seq<PreparedJob>, t': Tables, id: JobId, r: PreparedJob)
    requires id in t'.jobs
  {
    r in rows && Known(t', r) && JobIdOf(t', r) == id && t'.jobs[id].columns == ColumnsOf(r)
  }

  /** The columns a job carries after a load are those it had, or those of a row of the batch
      that is bound to it. */
  lemma ColumnsOfJob(t: Tables, rows: seq<PreparedJob>, inserts: seq<PreparedJob>, targets: map<string, Target>, cx: Context, t': Tables, id: JobId)
    requires Valid(t) && LoadableBatch(rows) && Effect(t, rows, inserts, targets, cx, t') && id in t'.jobs
    ensures (id in t.jobs && t'.jobs[id].columns == t.jobs[id].columns) || exists r :: WrittenFor(rows, t', id, r)
  {
    if id in t.jobs {
      assert JobAfter(t, rows, id, t.jobs[id], t'.jobs[id]);
      if r :| RewrittenBy(t, rows, id, r) {
        var r' :| RewrittenBy(t, rows, id, r') && t'.jobs[id].columns == ColumnsOf(r');
        assert SameBinding(t.sources[KeyOf(r')], t'.sources[KeyOf(r')]);
        assert WrittenFor(rows, t', id, r');
      }
    } else {
      NewJobColumns(t, rows, inserts, targets, cx, t', id);
    }
  }

  lemma NewJobColumns(t: Tables, rows: seq<PreparedJob>, inserts: seq<PreparedJob>, targets: map<string, Target>, cx: Context, t': Tables, id: JobId)
    requires Valid(t) && InsertsOf(t, rows, targets, inserts) && BindingsAfter(t, t', rows, inserts, targets, cx)
    requires NewJobsAfter(t, t', inserts, cx) && id in t'.jobs && id !in t.jobs
    ensures exists r :: WrittenFor(rows, t', id, r)
  {
    var r := inserts[id - t.nextId];
    assert Bound(t'.sources, KeyOf(r), Provenance(id, true, L1SourceId, cx.now, cx.now));
    assert WrittenFor(rows, t', id, r);
  }

  lemma StaysUnlike(t: Tables, file: seq<PreparedJob>, rows: seq<PreparedJob>, inserts: seq<PreparedJob>,
                    targets: map<string, Target>, cx: Context, t': Tables, r: PreparedJob, id: JobId)
    requires Valid(t) && MergeFree(t, file) && LoadableBatch(rows) && (forall x :: x in rows ==> x in file)
    requires Effect(t, rows, inserts, targets, cx, t') && r in file && id in t'.jobs
    ensures OwnOrUnlike(t', r, id)
  {
    ColumnsOfJob(t, rows, inserts, targets, cx, t', id);
    if own :| WrittenFor(rows, t', id, own) {
      assert own in file;
      if r.externalId == own.externalId {
        assert KeyOf(r) == KeyOf(own);
      }
    } else {
      assert OwnOrUnlike(t, r, id);
      if Known(t, r) {
        assert SameBinding(t.sources[KeyOf(r)], t'.sources[KeyOf(r)]);
      }
    }
  }

  /** A key first bound by a merge-free load is bound to the job created for its row. */
  lemma StaysAlone(t: Tables, file: seq<PreparedJob>, rows: seq<PreparedJob>, inserts: seq<PreparedJob>,
                   targets: map<string, Target>, cx: Context, t': Tables, r: PreparedJob, k: SourceKey)
    requires Valid(t) && MergeFree(t, file) && NoMerges(t, rows, targets) && InsertsOf(t, rows, targets, inserts) && BindingsAfter(t, t', rows, inserts, targets, cx)
    requires NewJobsAfter(t, t', inserts, cx)
    requires r in file && Known(t', r) && k in t'.sources && t'.sources[k].jobId == JobIdOf(t', r)
    requires KeysAfter(t, t', rows)
    ensures k == KeyOf(r)
  {
  }

  lemma StaysMergeFree(t: Tables, file: seq<PreparedJob>, rows: seq<PreparedJob>, inserts: seq<PreparedJob>,
                       targets: map<string, Target>, cx: Context, t': Tables)
    requires Valid(t) && MergeFree(t, file) && LoadableBatch(rows) && (forall r :: r in rows ==> r in file)
    requires NoMerges(t, rows, targets) && Effect(t, rows, inserts, targets, cx, t')
    ensures MergeFree(t', file)
  {
    forall r, id | r in file && id in t'.jobs
      ensures OwnOrUnlike(t', r, id)
    {
      StaysUnlike(t, file, rows, inserts, targets, cx, t', r, id);
    }
    forall r, k | r in file && Known(t', r) && k in t'.sources && t'.sources[k].jobId == JobIdOf(t', r)
      ensures k == KeyOf(r)
    {
      StaysAlone(t, file, rows, inserts, targets, cx, t', r, k);
    }
  }

  // ---- whole files ------------------------------------------------------------------------

  /** The batches a history loaded; rolled-back attempts load nothing. */
  function Batches(steps: seq<Step>): seq<seq<PreparedJob>> {
    if steps == [] then []
    else if Last(steps).LoadBatch? then Batches(Init(steps)) + [Last(steps).rows]
    else Batches(Init(steps))
  }

  lemma LoadStepTracks(t: Tables, step: Step, t': Tables, file: seq<PreparedJob>, k: SourceKey)
    requires Consistent(t) && MergeFree(t, file) && step.LoadBatch? && Next(t, step, t')
    requires forall r :: r in step.rows ==> r in file
    ensures Valid(t') && MergeFree(t', file) && FactAt(t', k) == Track(FactAt(t, k), step.rows, k)
  {
    var rows, targets, cx := step.rows, step.targets, step.cx;
    StepPreserves(t, step, t');
    LoadHasEffect(t, rows, targets, cx);
    hide Loaded;
    var inserts := FreshRows(t, rows, targets);
    MergeFreeHasNoMerges(t, file, rows, targets);
    hide MergeFree;
    hide FactAt;
    LoadTracks(t, file, rows, inserts, targets, cx, t', k);
    StaysMergeFree(t, file, rows, inserts, targets, cx, t');
  }

  lemma HistoryInit(trace: seq<Tables>, steps: seq<Step>)
    requires Run(trace, steps) && LoadsOnly(steps) && steps != []
    ensures Run(Init(trace), Init(steps)) && LoadsOnly(Init(steps)) && Next(Last(Init(trace)), Last(steps), Last(trace))
    ensures Init(trace)[0] == trace[0] && forall rows :: rows in Batches(Init(steps)) ==> rows in Batches(steps)
  {
    hide Next;
    var trace1, steps1 := Init(trace), Init(steps);
    assert Next(trace[|steps| - 1], steps[|steps| - 1], trace[|steps|]);
    forall i | 0 <= i < |steps1|
      ensures Next(trace1[i], steps1[i], trace1[i + 1])
    {
      assert Next(trace[i], steps[i], trace[i + 1]);
    }
  }

  lemma {:induction false} HistoryTracks(trace: seq<Tables>, steps: seq<Step>, file: seq<PreparedJob>, k: SourceKey)
    requires Run(trace, steps) && LoadsOnly(steps) && Consistent(trace[0]) && MergeFree(trace[0], file)
    requires forall rows, r :: rows in Batches(steps) && r in rows ==> r in file
    ensures Consistent(Last(trace)) && MergeFree(Last(trace), file)
    ensures FactAt(Last(trace), k) == Track(FactAt(trace[0], k), Flatten(Batches(steps)), k)
  {
    if steps != [] {
      HistoryInit(trace, steps);
      var trace1, steps1, t, t' := Init(trace), Init(steps), Last(Init(trace)), Last(trace);
      HistoryTracks(trace1, steps1, file, k);
      StepPreserves(t, Last(steps), t');
      if Last(steps).LoadBatch? {
        assert Last(Batches(steps)) == Last(steps).rows && Last(steps).rows in Batches(steps);
        assert Init(Batches(steps)) == Batches(steps1);
        LoadStepTracks(t, Last(steps), t', file, k);
        TrackAppend(FactAt(trace[0], k), Flatten(Batches(steps1)), Last(steps).rows, k);
      }
    }
  }

  /** The batches loaded by attempts that crash after `cuts[0]`, `cuts[1]`, ... committed batches,
      and by a last attempt that completes. */
  function Attempts(batches: seq<seq<PreparedJob>>, cuts: seq<nat>): seq<seq<PreparedJob>>
    requires forall i :: 0 <= i < |cuts| ==> cuts[i] <= |batches|
  {
    if cuts == [] then batches else batches[..cuts[0]] + Attempts(batches, cuts[1..])
  }

  lemma {:induction false} AttemptsAbsorbed(f: Option<Fact>, batches: seq<seq<PreparedJob>>, cuts: seq<nat>, k: SourceKey)
    requires forall i :: 0 <= i < |cuts| ==> cuts[i] <= |batches|
    ensures Track(f, Flatten(Attempts(batches, cuts)), k) == Track(f, Flatten(batches), k)
    decreases |cuts|
  {
    if cuts != [] {
      var done, rest := batches[..cuts[0]], batches[cuts[0]..];
      var g := Track(f, Flatten(done), k);
      AttemptsAbsorbed(g, batches, cuts[1..], k);
      FlattenAppend(done, Attempts(batches, cuts[1..]));
      TrackAppend(f, Flatten(done), Flatten(Attempts(batches, cuts[1..])), k);
      assert done + rest == batches;
      FlattenAppend(done, rest);
      RestartAbsorbed(f, Flatten(done), Flatten(rest), k);
    }
  }

  /** Crash equivalence. Two histories start from one consistent state; `straight` loads the
      batches of a merge-free file once, `crashed` is killed after any prefixes of them and
      then loads them all. Every source row ends with the same job content and the same
      provenance in both. */
  lemma CrashEquivalence(straight: seq<Tables>, steps: seq<Step>, crashed: seq<Tables>, steps': seq<Step>,
                         batches: seq<seq<PreparedJob>>, cuts: seq<nat>)
    requires Run(straight, steps) && LoadsOnly(steps) && Run(crashed, steps') && LoadsOnly(steps')
    requires straight[0] == crashed[0] && Consistent(straight[0]) && MergeFree(straight[0], Flatten(batches))
    requires forall i :: 0 <= i < |cuts| ==> cuts[i] <= |batches|
    requires Batches(steps) == batches && Batches(steps') == Attempts(batches, cuts)
    ensures Consistent(Last(straight)) && Consistent(Last(crashed))
    ensures forall k :: FactAt(Last(crashed), k) == FactAt(Last(straight), k)
  {
    var file := Flatten(batches);
    AttemptsWithin(batches, cuts);
    forall rows, r | (rows in batches || rows in Attempts(batches, cuts)) && r in rows
      ensures r in file
    {
      InFlatten(batches, r);
      var i :| 0 <= i < |batches| && batches[i] == rows;
    }
    forall k
      ensures Consistent(Last(straight)) && Consistent(Last(crashed))
      ensures FactAt(Last(crashed), k) == FactAt(Last(straight), k)
    {
      HistoryTracks(straight, steps, file, k);
      HistoryTracks(crashed, steps', file, k);
      AttemptsAbsorbed(FactAt(straight[0], k), batches, cuts, k);
    }
    HistoryTracks(straight, steps, file, SourceKey("", ""));
    HistoryTracks(crashed, steps', file, SourceKey("", ""));
  }

  lemma {:induction false} AttemptsWithin(batches: seq<seq<PreparedJob>>, cuts: seq<nat>)
    requires forall i :: 0 <= i < |cuts| ==> cuts[i] <= |batches|
    ensures forall rows :: rows in Attempts(batches, cuts) ==> rows in batches
    decreases |cuts|
  {
    if cuts != [] {
      AttemptsWithin(batches, cuts[1..]);
    }
  }
}
