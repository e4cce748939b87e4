/** IngestionPipeline: one run, file by file and batch by batch. Anything outside the worker may
    fail at any point: a fetch or a statement can raise, the process can be interrupted or
    killed. Those events are nondeterministic choices here. */
module Pipeline {
  import opened Prelude
  import opened Schema
  import opened LoadSpec
  import opened Loader
  import opened Sync
  import opened Preparation
  import opened Batching
  import H = History
  import C = CrashRecovery
  import W = Watcher

  /** How a piece of work ended. `Interrupted` is an exception that is not an `Exception`: cleanup
      blocks run, handlers do not. `Killed` runs nothing more. */
  datatype Outcome = Completed | Raised | Interrupted | Killed

  datatype Report = Report(rowsProcessed: nat, rowsAccepted: nat, rowsRejected: nat,
                           rowsInserted: nat, rowsUpdated: nat, rowsUnchanged: nat, rowsMerged: nat)

  function Written(r: Report): nat {
    r.rowsInserted + r.rowsUpdated + r.rowsUnchanged + r.rowsMerged
  }

  /** Each write counter grows by its own part of what the batch did, and the others stay. */
  ghost predicate Counters(before: Report, after: Report, did: LoadResult) {
    && after.rowsProcessed == before.rowsProcessed && after.rowsAccepted == before.rowsAccepted
    && after.rowsRejected == before.rowsRejected && after.rowsInserted == before.rowsInserted + did.inserted
    && after.rowsUpdated == before.rowsUpdated + did.updated && after.rowsUnchanged == before.rowsUnchanged + did.unmodified
    && after.rowsMerged == before.rowsMerged + did.merged
  }

  /** A history of loads from `t0` to `t` whose committed batches are `commits`. */
  ghost predicate Recorded(t0: Tables, t: Tables, trace: seq<Tables>, steps: seq<H.Step>, commits: seq<seq<PreparedJob>>) {
    && H.Run(trace, steps) && H.LoadsOnly(steps)
    && trace[0] == t0 && Last(trace) == t && C.Batches(steps) == commits
  }

  lemma StartRecording(t: Tables)
    ensures Recorded(t, t, [t], [], [])
  {
  }

  lemma RecordedNext(t0: Tables, t: Tables, trace: seq<Tables>, steps: seq<H.Step>, commits: seq<seq<PreparedJob>>,
                     step: H.Step, t': Tables)
    requires Recorded(t0, t, trace, steps, commits) && step.LoadBatch? && H.Next(t, step, t')
    ensures Recorded(t0, t', trace + [t'], steps + [step], commits + [step.rows])
  {
  }

  function PrepareAll(s: Settings, records: seq<SourceRecord>, clocks: seq<Clock>): (ps: seq<Prepared>)
    requires |clocks| == |records|
    ensures |ps| == |records|
  {
    seq(|records|, i requires 0 <= i < |records| => Prepare(s, records[i], clocks[i]))
  }

  class IngestionPipeline {
    const source: string
    const settings: Settings
    const sync: SyncRepository
    const loader: JobLoader
    var report: Report
    var filesFailed: nat

    constructor (source: string, settings: Settings, sync: SyncRepository, loader: JobLoader)
      ensures this.source == source && this.settings == settings && this.sync == sync && this.loader == loader
      ensures report == Report(0, 0, 0, 0, 0, 0, 0) && filesFailed == 0
    {
      this.source, this.settings, this.sync, this.loader := source, settings, sync, loader;
      report, filesFailed := Report(0, 0, 0, 0, 0, 0, 0), 0;
    }

    /** Write one batch and its checkpoint in one transaction: both happen or neither does. The worker
        may still be stopped after the commit and before it counts what the batch did. */
    method CommitBatch(batch: seq<PreparedJob>, fileId: nat, rows: nat, cx: Context)
      returns (outcome: Outcome, ghost step: H.Step)
      requires Valid(loader.State()) && LoadableBatch(batch) && sync.Valid() && fileId in sync.files
      modifies loader, sync`files, this`report
      ensures sync.Valid()
      ensures step.LoadBatch? ==>
        && step.rows == batch && H.Next(old(loader.State()), step, loader.State())
        && sync.files == old(sync.files)[fileId := old(sync.files)[fileId].(rowsCommitted := rows)]
      ensures !step.LoadBatch? ==>
        outcome != Completed && loader.State() == old(loader.State()) && sync.files == old(sync.files)
      ensures outcome == Completed ==>
        && step.LoadBatch? && Counters(old(report), report, ResultOf(old(loader.State()), batch, step.targets))
        && Written(report) == Written(old(report)) + |batch|
      ensures outcome != Completed ==> report == old(report)
    {
      step := H.RolledBack;
      if * {
        outcome :| outcome != Completed;
        return;
      }
      ghost var t := loader.State();
      var ok, result;
      ghost var targets;
      ok, result, targets := loader.Load(batch, cx);
      if !ok {
        return Raised, step;
      }
      sync.CheckpointFile(fileId, rows);
      step := H.LoadBatch(batch, targets, cx);
      if * {
        outcome :| outcome != Completed;
        return;
      }
      H.CountersPartition(t, batch, targets);
      report := report.(rowsInserted := report.rowsInserted + result.inserted,
                        rowsUpdated := report.rowsUpdated + result.updated,
                        rowsUnchanged := report.rowsUnchanged + result.unmodified,
                        rowsMerged := report.rowsMerged + result.merged);
      outcome := Completed;
    }

    /** Record every reason a record was given. */
    method AddAll(rejections: RejectionBuffer, reasons: seq<Reason>)
      requires rejections.Valid() && rejections.repo == sync
      modifies rejections, sync`errors
      ensures rejections.Valid() && rejections.added == old(rejections.added) + reasons
    {
      for i := 0 to |reasons|
        invariant rejections.Valid() && rejections.added == old(rejections.added) + reasons[..i]
      {
        rejections.Add(reasons[i]);
        assert reasons[..i + 1] == reasons[..i] + [reasons[i]];
      }
      assert reasons[..|reasons|] == reasons;
    }

    /** One record through the stages and into the open batch. */
    method TakeRecord(p: Prepared, rejections: RejectionBuffer, open: seq<PreparedJob>, seen: set<string>, ghost s: Stream, size: nat)
      returns (open': seq<PreparedJob>, seen': set<string>)
      requires rejections.Valid() && rejections.repo == sync && rejections.added == s.reasons
      requires open == s.open && |open| < size && seen == (set r | r in open :: r.externalId)
      modifies this`report, rejections, sync`errors
      ensures rejections.Valid() && rejections.added == Feed(s, p, size).reasons
      ensures seen' == set r | r in open' :: r.externalId
      ensures var t := Feed(s, p, size);
        if |open'| >= size then t.done == s.done + [open'] && t.open == [] else t.done == s.done && t.open == open'
      ensures Advanced(old(report), report, s, Feed(s, p, size), 0, 0)
    {
      VerdictNext(s, p, size);
      open', seen' := open, seen;
      report := report.(rowsProcessed := report.rowsProcessed + 1);
      AddAll(rejections, p.reasons);
      if p.row.None? {
        report := report.(rowsRejected := report.rowsRejected + 1);
      } else if p.row.value.externalId in seen {
        assert SeenIn(open, p.row.value.externalId);
        rejections.Add(DuplicateInBatch);
        report := report.(rowsRejected := report.rowsRejected + 1);
      } else {
        assert !SeenIn(open, p.row.value.externalId);
        open' := open + [p.row.value];
        seen' := seen + {p.row.value.externalId};
        report := report.(rowsAccepted := report.rowsAccepted + 1);
      }
    }

    /** One record that is not finished: it was counted as processed, and some of its reasons may have
        been recorded, when the exception came. */
    method BreakRecord(rejections: RejectionBuffer, reasons: seq<Reason>) returns (outcome: Outcome, ghost told: seq<Reason>)
      requires rejections.Valid() && rejections.repo == sync
      modifies this`report, rejections, sync`errors
      ensures outcome != Completed && told <= reasons
      ensures rejections.Valid() && rejections.added == old(rejections.added) + told
      ensures report == old(report).(rowsProcessed := old(report.rowsProcessed) + 1)
    {
      report := report.(rowsProcessed := report.rowsProcessed + 1);
      var k :| 0 <= k <= |reasons|;
      AddAll(rejections, reasons[..k]);
      told := reasons[..k];
      outcome :| outcome != Completed;
    }

    /** The tables of an attempt: a recorded history of committed batches, and a file row that
        claims exactly their rows. */
    ghost predicate InFile(t0: Tables, files0: map<nat, FileRow>, row: FileRow, fileId: nat, a: Attempt)
      reads loader, sync`runs, sync`files, sync`nextRun, sync`nextFile
    {
      && sync.Valid() && Consistent(loader.State())
      && Recorded(t0, loader.State(), a.trace, a.steps, a.commits)
      && row.status == Running && sync.files == files0[fileId := row.(rowsCommitted := |Flatten(a.commits)|)]
    }

    /** Process one file: start its row, load its batches, record its rejections, finish its row. */
    method ProcessFile(runId: nat, path: string, etag: Option<string>, records: seq<SourceRecord>, clocks: seq<Clock>)
      returns (outcome: Outcome, ghost fileId: nat, ghost taken: nat, ghost claimed: nat, ghost e: Ending, ghost a: Attempt)
      requires Consistent(loader.State()) && sync.Valid() && settings.chunkSize > 0 && |clocks| == |records|
      requires forall rec :: rec in records ==> WellFormed(rec, source)
      modifies this`report, this`filesFailed, loader, sync`files, sync`nextFile, sync`errors
      ensures sync.Valid() && Consistent(loader.State())
      ensures Recorded(old(loader.State()), loader.State(), a.trace, a.steps, a.commits)
      ensures taken + e.begun <= |records| && filesFailed == old(filesFailed) + if outcome == Raised then 1 else 0
      ensures var ps, all := PrepareAll(settings, records, clocks), AllBatches(PrepareAll(settings, records, clocks), settings.chunkSize);
        && Counted(old(report), report, FeedAll(ps[..taken], settings.chunkSize), |Flatten(a.commits)|, e)
        && CheckpointTrue(outcome, all, a.commits, claimed, e) && EndingFits(outcome, e, a.commits)
        && (outcome == Completed ==> taken == |records| && a.commits == all)
        && Told(outcome, ps, settings.chunkSize, taken, e, old(sync.errors), sync.errors)
      ensures outcome == Raised ==> (claimed == |Flatten(a.commits)| <==> !e.rolledBack)
      ensures fileId !in old(sync.files)
      ensures sync.files == old(sync.files)[fileId := FileRow(runId, source, path, etag,
        if outcome == Completed then Succeeded else if outcome == Raised then Failed else Running, claimed)]
    {
      StartRecording(loader.State());
      hide Recorded;
      hide FeedAll;
      hide AllBatches;
      hide Consistent;
      hide Counted;
      hide WellFormed;
      hide PrepareAll;
      hide Told;
      hide Claimed;
      hide CheckpointTrue;
      hide EndingFits;
      hide Flatten;
      ghost var t0, files0 := loader.State(), sync.files;
      var file := sync.StartFile(runId, source, path, etag);
      fileId := file;
      var committed;
      ghost var row := sync.files[file];
      outcome, committed, taken, e, a := AttemptFile(runId, records, clocks, t0, files0, row, file);
      assert sync.files == files0[file := row.(rowsCommitted := |Flatten(a.commits)|)];
      ghost var ended, all := outcome, AllBatches(PrepareAll(settings, records, clocks), settings.chunkSize);
      if outcome != Killed {
        outcome := FinishAttempt(outcome, file, committed);
      }
      claimed := if outcome == Completed || outcome == Raised then committed else |Flatten(a.commits)|;
      ClaimIsTrue(ended, outcome, all, a.commits, committed, e);
      WrittenOver(files0, file, row.(rowsCommitted := |Flatten(a.commits)|), row.(status := StatusAfter(outcome), rowsCommitted := claimed));
    }

    /** Load the file's batches and store what was rejected; a killed worker stores nothing more. */
    method AttemptFile(runId: nat, records: seq<SourceRecord>, clocks: seq<Clock>, ghost t0: Tables,
                       ghost files0: map<nat, FileRow>, ghost row: FileRow, fileId: nat)
      returns (outcome: Outcome, committed: nat, ghost taken: nat, ghost e: Ending, ghost a: Attempt)
      requires settings.chunkSize > 0 && |clocks| == |records|
      requires forall rec :: rec in records ==> WellFormed(rec, source)
      requires InFile(t0, files0, row, fileId, Attempt([t0], [], []))
      modifies this`report, loader, sync`files, sync`errors
      ensures taken + e.begun <= |records| && InFile(t0, files0, row, fileId, a)
      ensures var ps, size := PrepareAll(settings, records, clocks), settings.chunkSize;
        && Claimed(AllBatches(ps, size), a.commits, committed, e) && EndingFits(outcome, e, a.commits)
        && Counted(old(report), report, FeedAll(ps[..taken], size), |Flatten(a.commits)|, e)
        && (outcome == Completed ==> taken == |records| && a.commits == AllBatches(ps, size))
        && Told(outcome, ps, size, taken, e, old(sync.errors), sync.errors)
    {
      hide InFile;
      hide FeedAll;
      hide AllBatches;
      hide Counted;
      hide WellFormed;
      hide PrepareAll;
      hide Claimed;
      var rejections := new RejectionBuffer(sync, runId);
      var n;
      outcome, committed, n, e, a := LoadRecords(records, clocks, rejections, t0, files0, row, fileId, Attempt([t0], [], []));
      taken := n;
      ghost var added := rejections.added;
      if outcome != Killed {
        rejections.Finalize();
        assert Stored(outcome, old(sync.errors), sync.errors, added);
      } else {
        forall r
          ensures Occurrences(sync.errors, r) <= Occurrences(old(sync.errors), r) + Count(added, r)
        {
          assert rejections.Balanced(r);
        }
        assert Stored(outcome, old(sync.errors), sync.errors, added);
      }
    }

    /** The loop over the records, and the last batch. */
    method LoadRecords(records: seq<SourceRecord>, clocks: seq<Clock>, rejections: RejectionBuffer,
                       ghost t0: Tables, ghost files0: map<nat, FileRow>, ghost row: FileRow, fileId: nat, ghost a0: Attempt)
      returns (outcome: Outcome, committed: nat, taken: nat, ghost e: Ending, ghost a: Attempt)
      requires settings.chunkSize > 0 && |clocks| == |records|
      requires forall rec :: rec in records ==> WellFormed(rec, source)
      requires rejections.repo == sync && rejections.Valid() && rejections.added == []
      requires InFile(t0, files0, row, fileId, a0) && a0.commits == []
      modifies this`report, rejections, loader, sync`files, sync`errors
      ensures rejections.Valid() && taken + e.begun <= |records| && InFile(t0, files0, row, fileId, a)
      ensures var ps, size := PrepareAll(settings, records, clocks), settings.chunkSize;
        && ToldOf(ps, size, taken, e, rejections.added)
        && Claimed(AllBatches(ps, size), a.commits, committed, e) && EndingFits(outcome, e, a.commits)
        && Counted(old(report), report, FeedAll(ps[..taken], size), |Flatten(a.commits)|, e)
        && (outcome == Completed ==> taken == |records| && a.commits == AllBatches(ps, size))
    {
      hide InFile;
      hide FeedAll;
      hide AllBatches;
      hide AtWork;
      ghost var report0, ps, size := report, PrepareAll(settings, records, clocks), settings.chunkSize;
      ghost var all := AllBatches(ps, size);
      PreparedAreFit(settings, records, clocks, source);
      a, e := a0, CLEAN;
      var open: seq<PreparedJob>, seen: set<string> := [], {};
      committed, taken := 0, 0;
      outcome := Completed;
      StartWork(ps, all, a0);
      while taken < |records| && outcome == Completed
        invariant taken <= |records| && rejections.Valid() && InFile(t0, files0, row, fileId, a)
        invariant AtWork(ps, all, report0, rejections.added, taken, outcome, open, seen, committed, e, a)
        invariant outcome == Completed ==> e == CLEAN
        decreases |records| - taken, if outcome == Completed then 1 else 0
      {
        if * {
          outcome :| outcome != Completed;
          FetchBreaks(ps, all, report0, rejections.added, taken, outcome, open, seen, committed, e, a);
        } else {
          StreamStep(ps, size, taken, source);
          var p := Prepare(settings, records[taken], clocks[taken]);
          PreparedAt(settings, records, clocks, taken);
          outcome, open, seen, committed, taken, e, a :=
            TakeTurn(p, rejections, open, seen, committed, taken, t0, files0, row, ps, all, report0, fileId, a);
        }
      }
      EndWork(ps, all, report0, rejections.added, taken, outcome, open, seen, committed, e, a);
      if outcome == Completed {
        WholeStream(ps, size, taken, source);
        outcome, committed, e, a := LastBatch(open, seen, committed, taken, rejections, t0, files0, row, ps, all, report0, fileId, a);
      }
    }

    /** Where the loop stands: what is told, claimed and counted, and what the worker holds while no
        exception is on its way. */
    ghost predicate AtWork(ps: seq<Prepared>, all: seq<seq<PreparedJob>>, report0: Report, told: seq<Reason>, taken: nat, outcome: Outcome,
                           open: seq<PreparedJob>, seen: set<string>, committed: nat, e: Ending, a: Attempt)
      reads this`report
    {
      && taken <= |ps| && ToldOf(ps, settings.chunkSize, taken, e, told)
      && Claimed(all, a.commits, committed, e) && EndingFits(outcome, e, a.commits)
      && var s := FeedAll(ps[..taken], settings.chunkSize);
         && Counted(report0, report, s, |Flatten(a.commits)|, e)
         && (outcome == Completed ==> e == CLEAN && told == s.reasons && Filling(s, open, seen, committed, a))
    }

    lemma StartWork(ps: seq<Prepared>, all: seq<seq<PreparedJob>>, a: Attempt)
      requires a.commits == []
      ensures AtWork(ps, all, report, [], 0, Completed, [], {}, 0, CLEAN, a)
    {
      EmptyStream(settings.chunkSize);
      assert ps[..0] == [];
    }

    lemma FetchBreaks(ps: seq<Prepared>, all: seq<seq<PreparedJob>>, report0: Report, told: seq<Reason>, taken: nat, outcome: Outcome,
                      open: seq<PreparedJob>, seen: set<string>, committed: nat, e: Ending, a: Attempt)
      requires AtWork(ps, all, report0, told, taken, Completed, open, seen, committed, e, a) && outcome != Completed
      ensures AtWork(ps, all, report0, told, taken, outcome, open, seen, committed, e, a)
    {
    }

    lemma EndWork(ps: seq<Prepared>, all: seq<seq<PreparedJob>>, report0: Report, told: seq<Reason>, taken: nat, outcome: Outcome,
                  open: seq<PreparedJob>, seen: set<string>, committed: nat, e: Ending, a: Attempt)
      requires AtWork(ps, all, report0, told, taken, outcome, open, seen, committed, e, a)
      ensures taken + e.begun <= |ps| && ToldOf(ps, settings.chunkSize, taken, e, told)
      ensures Claimed(all, a.commits, committed, e) && EndingFits(outcome, e, a.commits) && (outcome == Completed ==> e == CLEAN)
      ensures Counted(report0, report, FeedAll(ps[..taken], settings.chunkSize), |Flatten(a.commits)|, e)
    {
    }

    /** One turn of the loop: the record is consumed, or broken off. */
    method TakeTurn(p: Prepared, rejections: RejectionBuffer, open: seq<PreparedJob>, seen: set<string>, committed: nat, taken: nat,
                    ghost t0: Tables, ghost files0: map<nat, FileRow>, ghost row: FileRow, ghost ps: seq<Prepared>,
                    ghost all: seq<seq<PreparedJob>>, ghost report0: Report, fileId: nat, ghost a: Attempt)
      returns (outcome: Outcome, open': seq<PreparedJob>, seen': set<string>, committed': nat, taken': nat, ghost e: Ending, ghost a': Attempt)
      requires taken < |ps| && p == ps[taken]
      requires var s, t := FeedAll(ps[..taken], settings.chunkSize), FeedAll(ps[..taken + 1], settings.chunkSize);
        t == Feed(s, p, settings.chunkSize) && Yields(s, t, all, settings.chunkSize)
      requires rejections.Valid() && rejections.repo == sync && InFile(t0, files0, row, fileId, a)
      requires AtWork(ps, all, report0, rejections.added, taken, Completed, open, seen, committed, CLEAN, a)
      modifies this`report, rejections, sync`errors, loader, sync`files
      ensures rejections.Valid() && InFile(t0, files0, row, fileId, a') && taken <= taken' <= |ps|
      ensures outcome == Completed ==> taken' > taken && e == CLEAN
      ensures AtWork(ps, all, report0, rejections.added, taken', outcome, open', seen', committed', e, a')
    {
      hide InFile;
      hide FeedAll;
      hide ToldOf;
      hide Claimed;
      hide EndingFits;
      ghost var s := FeedAll(ps[..taken], settings.chunkSize);
      open', seen', committed', taken', a' := open, seen, committed, taken, a;
      if * {
        ghost var told;
        outcome, told := BreakRecord(rejections, RecordReasons(p, open));
        e := Ending(false, 0, 1);
        BrokenOff(ps, settings.chunkSize, taken, told);
        BrokenClaim(all, a.commits, committed, outcome);
      } else {
        outcome, open', seen', committed', e, a' := ConsumeRecord(p, rejections, open, seen, committed, t0, files0, row, s, all, fileId, a);
        taken' := taken + 1;
        Decided(ps, settings.chunkSize, taken', e);
      }
    }

    /** A last, shorter batch, if any rows are left. */
    method LastBatch(open: seq<PreparedJob>, seen: set<string>, committed: nat, taken: nat, rejections: RejectionBuffer,
                     ghost t0: Tables, ghost files0: map<nat, FileRow>, ghost row: FileRow, ghost ps: seq<Prepared>,
                     ghost all: seq<seq<PreparedJob>>, ghost report0: Report, fileId: nat, ghost a: Attempt)
      returns (outcome: Outcome, committed': nat, ghost e: Ending, ghost a': Attempt)
      requires taken <= |ps| && InFile(t0, files0, row, fileId, a)
      requires AtWork(ps, all, report0, rejections.added, taken, Completed, open, seen, committed, CLEAN, a)
      requires var s := FeedAll(ps[..taken], settings.chunkSize);
        all == (if s.open == [] then s.done else s.done + [s.open]) && LoadableBatch(s.open)
      modifies this`report, loader, sync`files
      ensures InFile(t0, files0, row, fileId, a') && (outcome == Completed ==> a'.commits == all)
      ensures Claimed(all, a'.commits, committed', e) && EndingFits(outcome, e, a'.commits)
      ensures e.begun == 0 && ToldOf(ps, settings.chunkSize, taken, e, rejections.added)
      ensures Counted(report0, report, FeedAll(ps[..taken], settings.chunkSize), |Flatten(a'.commits)|, e)
    {
      hide InFile;
      hide FeedAll;
      hide ToldOf;
      hide Claimed;
      hide EndingFits;
      outcome, committed', e, a' := Completed, committed, CLEAN, a;
      if open != [] {
        ghost var s := FeedAll(ps[..taken], settings.chunkSize);
        outcome, committed', e, a' := CommitNext(open, committed, t0, files0, row, s, all, fileId, a);
        Decided(ps, settings.chunkSize, taken, e);
      }
    }

    /** What the worker holds while no exception is on its way. */
    ghost predicate Filling(s: Stream, open: seq<PreparedJob>, seen: set<string>, committed: nat, a: Attempt) {
      && a.commits == s.done && open == s.open
      && seen == (set r | r in open :: r.externalId) && committed == |Flatten(a.commits)|
    }

    /** One turn of the loop over the records. */
    method ConsumeRecord(p: Prepared, rejections: RejectionBuffer, open: seq<PreparedJob>, seen: set<string>, committed: nat,
                         ghost t0: Tables, ghost files0: map<nat, FileRow>, ghost row: FileRow,
                         ghost s: Stream, ghost all: seq<seq<PreparedJob>>, fileId: nat, ghost a: Attempt)
      returns (outcome: Outcome, open': seq<PreparedJob>, seen': set<string>, committed': nat, ghost e: Ending, ghost a': Attempt)
      requires Yields(s, Feed(s, p, settings.chunkSize), all, settings.chunkSize)
      requires rejections.Valid() && rejections.repo == sync && rejections.added == s.reasons
      requires InFile(t0, files0, row, fileId, a) && Filling(s, open, seen, committed, a)
      modifies this`report, rejections, sync`errors, loader, sync`files
      ensures rejections.Valid() && rejections.added == Feed(s, p, settings.chunkSize).reasons
      ensures InFile(t0, files0, row, fileId, a') && Claimed(all, a'.commits, committed', e) && EndingFits(outcome, e, a'.commits)
      ensures e.begun == 0 && (outcome == Completed ==> e == CLEAN)
      ensures Advanced(old(report), report, s, Feed(s, p, settings.chunkSize), |Flatten(a.commits)|, |Flatten(a'.commits)| - e.uncounted)
      ensures outcome == Completed ==> Filling(Feed(s, p, settings.chunkSize), open', seen', committed', a')
    {
      hide InFile;
      var size := settings.chunkSize;
      open', seen' := TakeRecord(p, rejections, open, seen, s, size);
      outcome, committed', a', e := Completed, committed, a, CLEAN;
      if |open'| >= size {
        ghost var t := Feed(s, p, size);
        assert Last(t.done) == open';
        outcome, committed', e, a' := CommitNext(open', committed, t0, files0, row, t, all, fileId, a);
        open', seen' := [], {};
      }
    }

    /** Commit the next of the file's batches. */
    method CommitNext(batch: seq<PreparedJob>, committed: nat, ghost t0: Tables, ghost files0: map<nat, FileRow>, ghost row: FileRow,
                      ghost s: Stream, ghost all: seq<seq<PreparedJob>>, fileId: nat, ghost a: Attempt)
      returns (outcome: Outcome, committed': nat, ghost e: Ending, ghost a': Attempt)
      requires InFile(t0, files0, row, fileId, a) && committed == |Flatten(a.commits)|
      requires a.commits + [batch] <= all && batch != [] && LoadableBatch(batch)
      modifies this`report, loader, sync`files
      ensures InFile(t0, files0, row, fileId, a') && Claimed(all, a'.commits, committed', e) && EndingFits(outcome, e, a'.commits)
      ensures e.begun == 0 && (outcome == Completed ==> e == CLEAN)
      ensures Advanced(old(report), report, s, s, |Flatten(a.commits)|, |Flatten(a'.commits)| - e.uncounted)
      ensures outcome == Completed ==> a'.commits == a.commits + [batch] && committed' == |Flatten(a'.commits)|
    {
      hide Recorded;
      hide Consistent;
      hide Claimed;
      hide EndingFits;
      hide LoadableBatch;
      hide Flatten;
      committed' := committed + |batch|;
      ghost var done;
      outcome, done, a' := Commit(batch, fileId, committed', t0, a);
      e := Ending(!done, if done && outcome != Completed then |batch| else 0, 0);
      BatchEnds(all, a.commits, batch, done, outcome);
      WrittenOver(files0, fileId, row.(rowsCommitted := committed), row.(rowsCommitted := committed'));
    }

    /** One run: reclaim, take the lock, plan, process, close. None is a run that was refused
        (CANCELLED); a status is the one the report carries; a killed worker reports nothing. `a` records
        the loads of the whole run. */
    method Run(discovered: seq<W.SourceFile>, maxFiles: Option<int>, contents: W.SourceFile -> Content, minutes: nat, now: Time,
               finishedAt: Time)
      returns (outcome: Outcome, status: SyncStatus, ghost run: Option<nat>, ghost planned: seq<W.SourceFile>, ghost a: Attempt)
      requires Consistent(loader.State()) && sync.Valid() && settings.chunkSize > 0
      requires filesFailed == 0 && report == Report(0, 0, 0, 0, 0, 0, 0)
      requires forall f :: f in discovered ==> FitContent(contents(f), source)
      modifies this`report, this`filesFailed, loader, sync
      ensures sync.Valid() && Consistent(loader.State()) && AllFit(planned, contents, source)
      ensures run.None? <==> HasActive(Reclaimed(old(sync.runs), source, minutes, now), source)
      ensures run.None? ==>
        && status == Cancelled && planned == [] && report == old(report) && sync.files == old(sync.files)
        && sync.runs == Reclaimed(old(sync.runs), source, minutes, now)
        && sync.errors == old(sync.errors) && loader.State() == old(loader.State())
      ensures run.Some? ==>
        && run.value !in old(sync.runs) && outcome.Completed? == status.Succeeded? && outcome.Raised? == status.Failed?
        && outcome.Interrupted? == status.Pending? && outcome.Killed? == status.Running?
        && sync.runs == Reclaimed(old(sync.runs), source, minutes, now)[run.value :=
             RunRow(source, status, now, if outcome == Killed then None else Some(finishedAt))]
      ensures run.Some? ==>
        && Recorded(old(loader.State()), loader.State(), a.trace, a.steps, a.commits)
        && Stands(outcome, PlanWork(settings, planned, contents, source), a.commits, old(report), report, old(sync.errors), sync.errors)
      ensures outcome == Completed && run.Some? ==>
        && planned == W.Planned(DoneKeys(old(sync.files), source), discovered, maxFiles)
        && DoneKeys(sync.files, source) == W.DoneAfter(DoneKeys(old(sync.files), source), discovered, maxFiles)
        && report.rowsProcessed == report.rowsRejected + Written(report)
    {
      hide DoneKeys;
      hide Consistent;
      hide FitContent;
      hide W.Planned;
      hide W.DoneAfter;
      hide HasActive;
      hide Reclaimed;
      hide Written;
      hide Recorded;
      hide Stands;
      hide PlanWork;
      ReclaimedKeys(sync.runs, source, minutes, now);
      NothingWritten();
      run, planned, status, outcome, a := None, [], Cancelled, Completed, Attempt([], [], []);
      sync.ReclaimStaleRuns(source, minutes, now);
      var started := sync.StartRun(source, now);
      run := started;
      if started.None? {
        return;
      }
      outcome, planned, a := PlanAndProcess(started.value, discovered, maxFiles, contents);
      status := CloseRun(started.value, outcome, finishedAt);
    }

    /** Plan the files that are not done, and process them. */
    method PlanAndProcess(runId: nat, discovered: seq<W.SourceFile>, maxFiles: Option<int>, contents: W.SourceFile -> Content)
      returns (outcome: Outcome, ghost planned: seq<W.SourceFile>, ghost a: Attempt)
      requires Consistent(loader.State()) && sync.Valid() && settings.chunkSize > 0 && filesFailed == 0
      requires report.rowsProcessed == report.rowsRejected + Written(report)
      requires forall f :: f in discovered ==> FitContent(contents(f), source)
      modifies this`report, this`filesFailed, loader, sync`files, sync`nextFile, sync`errors
      ensures sync.Valid() && Consistent(loader.State()) && AllFit(planned, contents, source)
      ensures Recorded(old(loader.State()), loader.State(), a.trace, a.steps, a.commits)
      ensures Stands(outcome, PlanWork(settings, planned, contents, source), a.commits, old(report), report, old(sync.errors), sync.errors)
      ensures outcome == Completed ==>
        && filesFailed == 0 && report.rowsProcessed == report.rowsRejected + Written(report)
        && planned == W.Planned(DoneKeys(old(sync.files), source), discovered, maxFiles)
        && DoneKeys(sync.files, source) == W.DoneAfter(DoneKeys(old(sync.files), source), discovered, maxFiles)
    {
      hide DoneKeys;
      hide Consistent;
      hide FitContent;
      hide W.Planned;
      hide Recorded;
      hide Stands;
      planned := [];
      if * {
        outcome :| outcome != Completed;
        a := Attempt([loader.State()], [], []);
        StartRecording(loader.State());
        NothingStands(outcome, report, sync.errors);
      } else {
        var plan := W.Planned(DoneKeys(sync.files, source), discovered, maxFiles);
        planned := plan;
        PlannedFit(DoneKeys(sync.files, source), discovered, maxFiles, contents, source);
        outcome, a := ProcessPlan(runId, plan, contents);
      }
    }

    /** The `finally` of the run; a killed worker does not reach it. */
    method CloseRun(runId: nat, outcome: Outcome, finishedAt: Time) returns (status: SyncStatus)
      requires sync.Valid() && runId in sync.runs && sync.runs[runId].status == Running && sync.runs[runId].finishedAt.None?
      requires outcome == Completed ==> filesFailed == 0
      modifies sync`runs
      ensures sync.Valid()
      ensures outcome.Completed? == status.Succeeded? && outcome.Raised? == status.Failed?
      ensures outcome.Interrupted? == status.Pending? && outcome.Killed? == status.Running?
      ensures sync.runs == old(sync.runs)[runId := old(sync.runs)[runId].(status := status,
        finishedAt := if outcome == Killed then None else Some(finishedAt))]
    {
      if outcome == Killed {
        return Running;
      }
      status := StatusOfRun(outcome);
      if outcome == Completed && filesFailed != 0 {
        status := Partial;
      }
      var _ := sync.FinishRun(runId, status, finishedAt);
    }

    /** The planned files in order; the first that does not complete ends the run. */
    method ProcessPlan(runId: nat, plan: seq<W.SourceFile>, contents: W.SourceFile -> Content)
      returns (outcome: Outcome, ghost a: Attempt)
      requires Consistent(loader.State()) && sync.Valid() && settings.chunkSize > 0 && filesFailed == 0
      requires report.rowsProcessed == report.rowsRejected + Written(report)
      requires AllFit(plan, contents, source)
      modifies this`report, this`filesFailed, loader, sync`files, sync`nextFile, sync`errors
      ensures sync.Valid() && Consistent(loader.State())
      ensures Recorded(old(loader.State()), loader.State(), a.trace, a.steps, a.commits)
      ensures Stands(outcome, PlanWork(settings, plan, contents, source), a.commits, old(report), report, old(sync.errors), sync.errors)
      ensures outcome == Completed ==>
        && filesFailed == 0 && report.rowsProcessed == report.rowsRejected + Written(report)
        && DoneKeys(sync.files, source) == DoneKeys(old(sync.files), source) + W.VersionsOf(plan)
    {
      hide Consistent;
      hide Recorded;
      hide Stands;
      hide DoneKeys;
      hide FitContent;
      hide PlanWork;
      ghost var t0, report0, errors0 := loader.State(), report, sync.errors;
      outcome, a := Completed, Attempt([t0], [], []);
      StartRecording(t0);
      NothingPlanned(settings, plan, contents, source);
      NothingStands(Completed, report0, errors0);
      for i := 0 to |plan|
        invariant sync.Valid() && Consistent(loader.State()) && filesFailed == 0 && outcome == Completed
        invariant Recorded(t0, loader.State(), a.trace, a.steps, a.commits)
        invariant Stands(Completed, PlanWork(settings, plan[..i], contents, source), a.commits, report0, report, errors0, sync.errors)
        invariant report.rowsProcessed == report.rowsRejected + Written(report)
        invariant DoneKeys(sync.files, source) == DoneKeys(old(sync.files), source) + W.VersionsOf(plan[..i])
      {
        ghost var t, report1, errors1 := loader.State(), report, sync.errors;
        ghost var b;
        outcome, b := ProcessNext(runId, plan[i], contents(plan[i]));
        RecordedJoin(t0, t, loader.State(), a, b);
        PlanGoesOn(settings, plan, contents, source, i, outcome, a.commits, b.commits, report0, report1, report, errors0, errors1, sync.errors);
        a := Attempt(a.trace + b.trace[1..], a.steps + b.steps, a.commits + b.commits);
        if outcome != Completed {
          return;
        }
        W.VersionsOfNext(plan, i);
      }
      assert plan[..|plan|] == plan;
    }

    /** One planned file. */
    method ProcessNext(runId: nat, f: W.SourceFile, content: Content) returns (outcome: Outcome, ghost a: Attempt)
      requires Consistent(loader.State()) && sync.Valid() && settings.chunkSize > 0 && FitContent(content, source)
      modifies this`report, this`filesFailed, loader, sync`files, sync`nextFile, sync`errors
      ensures sync.Valid() && Consistent(loader.State())
      ensures Recorded(old(loader.State()), loader.State(), a.trace, a.steps, a.commits)
      ensures Stands(outcome, FileWork(settings, content, source), a.commits, old(report), report, old(sync.errors), sync.errors)
      ensures filesFailed == old(filesFailed) + if outcome == Raised then 1 else 0
      ensures outcome == Completed ==>
        && report.rowsProcessed - old(report.rowsProcessed)
           == report.rowsRejected - old(report.rowsRejected) + Written(report) - Written(old(report))
        && DoneKeys(sync.files, source) == DoneKeys(old(sync.files), source) + {W.VersionOf(f)}
    {
      hide Consistent;
      hide Recorded;
      hide Stands;
      hide FileWork;
      hide PrepareAll;
      hide FeedAll;
      hide AllBatches;
      hide Counted;
      hide Told;
      hide CheckpointTrue;
      hide DoneKeys;
      hide Flatten;
      hide Written;
      hide WellFormed;
      ghost var files, report0, errors0 := sync.files, report, sync.errors;
      ghost var fileId, taken, claimed, e;
      outcome, fileId, taken, claimed, e, a := ProcessFile(runId, f.path, f.etag, content.records, content.clocks);
      FileStands(settings, content, source, outcome, taken, claimed, e, a.commits, report0, report, errors0, sync.errors);
      if outcome == Completed {
        DoneGrows(files, sync.files, fileId, source);
        CompletedConserves(settings, content.records, content.clocks, source, report0, report, a.commits);
      }
    }

    /** Close the file's row. The unique index refuses a second SUCCEEDED row of one version. */
    method FinishAttempt(outcome: Outcome, fileId: nat, committed: nat) returns (outcome': Outcome)
      requires outcome != Killed && sync.Valid() && fileId in sync.files && sync.files[fileId].status == Running
      modifies this`filesFailed, sync`files
      ensures sync.Valid() && filesFailed == old(filesFailed) + if outcome' == Raised then 1 else 0
      ensures outcome != Completed ==> outcome' == outcome
      ensures outcome == Completed ==> outcome' == Completed || outcome' == Raised
      ensures var f := old(sync.files)[fileId];
        sync.files == if outcome' == Interrupted then old(sync.files)
                      else old(sync.files)[fileId := f.(status := StatusAfter(outcome'), rowsCommitted := committed)]
    {
      outcome' := outcome;
      if outcome == Completed {
        var ok := sync.FinishFile(fileId, Succeeded, committed);
        if !ok {
          outcome' := Raised;
        }
      }
      if outcome' == Raised {
        filesFailed := filesFailed + 1;
        var _ := sync.FinishFile(fileId, Failed, committed);
      }
    }

    method Commit(batch: seq<PreparedJob>, fileId: nat, rows: nat, ghost t0: Tables, ghost a: Attempt)
      returns (outcome: Outcome, ghost done: bool, ghost a': Attempt)
      requires Consistent(loader.State()) && LoadableBatch(batch) && sync.Valid() && fileId in sync.files
      requires Recorded(t0, loader.State(), a.trace, a.steps, a.commits)
      modifies loader, sync`files, this`report
      ensures sync.Valid() && Consistent(loader.State()) && (outcome == Completed ==> done)
      ensures Recorded(t0, loader.State(), a'.trace, a'.steps, a'.commits)
      ensures a'.commits == if done then a.commits + [batch] else a.commits
      ensures |Flatten(a'.commits)| == |Flatten(a.commits)| + if done then |batch| else 0
      ensures sync.files == if done then old(sync.files)[fileId := old(sync.files)[fileId].(rowsCommitted := rows)] else old(sync.files)
      ensures Written(report) == Written(old(report)) + if outcome == Completed then |batch| else 0
      ensures report.rowsProcessed == old(report.rowsProcessed) && report.rowsAccepted == old(report.rowsAccepted)
              && report.rowsRejected == old(report.rowsRejected)
    {
      hide ResultOf;
      var cx: Context := *;
      ghost var t := loader.State();
      ghost var step;
      outcome, step := CommitBatch(batch, fileId, rows, cx);
      a', done := a, step.LoadBatch?;
      if done {
        RecordedNext(t0, t, a.trace, a.steps, a.commits, step, loader.State());
        H.StepPreserves(t, step, loader.State());
        a' := Attempt(a.trace + [loader.State()], a.steps + [step], a.commits + [batch]);
        assert Init(a'.commits) == a.commits;
      }
    }
  }

  /** What a fetched file yields, with the clock readings of its records. */
  datatype Content = Content(records: seq<SourceRecord>, clocks: seq<Clock>)

  ghost predicate FitContent(content: Content, source: string) {
    |content.clocks| == |content.records| && forall rec :: rec in content.records ==> WellFormed(rec, source)
  }

  ghost predicate AllFit(plan: seq<W.SourceFile>, contents: W.SourceFile -> Content, source: string) {
    forall f :: f in plan ==> FitContent(contents(f), source)
  }

  /** What files hold: their batches in order, how many records, and every reason a record is given. */
  datatype Work = Work(batches: seq<seq<PreparedJob>>, records: nat, reasons: seq<Reason>)

  ghost function FileWork(s: Settings, content: Content, source: string): Work
    requires FitContent(content, source)
  {
    var ps := PrepareAll(s, content.records, content.clocks);
    Work(AllBatches(ps, s.chunkSize), |content.records|, FeedAll(ps, s.chunkSize).reasons)
  }

  ghost function PlanWork(s: Settings, plan: seq<W.SourceFile>, contents: W.SourceFile -> Content, source: string): Work
    requires AllFit(plan, contents, source)
  {
    if plan == [] then Work([], 0, [])
    else Both(PlanWork(s, Init(plan), contents, source), FileWork(s, contents(Last(plan)), source))
  }

  function Both(v: Work, w: Work): Work {
    Work(v.batches + w.batches, v.records + w.records, v.reasons + w.reasons)
  }

  /** `v` is a first part of `w`. */
  ghost predicate PartOf(v: Work, w: Work) {
    v.batches <= w.batches && v.records <= w.records && v.reasons <= w.reasons
  }

  /** Where the work stands: the committed batches, the records counted and the reasons stored are a first
      part of it, and all of it once it completed. The write counters sum to the committed rows, or fall
      short by the last batch. */
  ghost predicate Stands(outcome: Outcome, w: Work, commits: seq<seq<PreparedJob>>, before: Report, after: Report,
                         errors0: seq<ErrorRow>, errors: seq<ErrorRow>) {
    && commits <= w.batches && before.rowsProcessed <= after.rowsProcessed <= before.rowsProcessed + w.records
    && (Written(after) == Written(before) + |Flatten(commits)|
        || (commits != [] && Written(after) + |Last(commits)| == Written(before) + |Flatten(commits)|))
    && (exists told :: told <= w.reasons && Stored(outcome, errors0, errors, told))
    && (outcome == Completed ==>
          && commits == w.batches && after.rowsProcessed == before.rowsProcessed + w.records
          && after.rowsAccepted == before.rowsAccepted + |Flatten(commits)| && Written(after) == Written(before) + |Flatten(commits)|
          && Stored(outcome, errors0, errors, w.reasons))
  }

  lemma NothingStands(outcome: Outcome, report: Report, errors: seq<ErrorRow>)
    ensures Stands(outcome, Work([], 0, []), [], report, report, errors, errors)
  {
    var none: seq<Reason> := [];
    assert none <= [] && Stored(outcome, errors, errors, none);
  }

  lemma NothingPlanned(s: Settings, plan: seq<W.SourceFile>, contents: W.SourceFile -> Content, source: string)
    ensures AllFit(plan[..0], contents, source) && PlanWork(s, plan[..0], contents, source) == Work([], 0, [])
  {
  }

  lemma StoredJoin(outcome: Outcome, e0: seq<ErrorRow>, e1: seq<ErrorRow>, e2: seq<ErrorRow>, a: seq<Reason>, b: seq<Reason>)
    requires Stored(Completed, e0, e1, a) && Stored(outcome, e1, e2, b)
    ensures Stored(outcome, e0, e2, a + b)
  {
    forall r
      ensures Count(a + b, r) == Count(a, r) + Count(b, r)
    {
      CountAppend(a, b, r);
    }
  }

  /** Work that completed, and work after it. */
  lemma StandsJoin(outcome: Outcome, v: Work, w: Work, c: seq<seq<PreparedJob>>, d: seq<seq<PreparedJob>>,
                   r0: Report, r1: Report, r2: Report, e0: seq<ErrorRow>, e1: seq<ErrorRow>, e2: seq<ErrorRow>)
    requires Stands(Completed, v, c, r0, r1, e0, e1) && Stands(outcome, w, d, r1, r2, e1, e2)
    ensures Stands(outcome, Both(v, w), c + d, r0, r2, e0, e2)
  {
    hide Written;
    FlattenAppend(c, d);
    hide Flatten;
    assert d == [] ==> c + d == c;
    assert d != [] ==> Last(c + d) == Last(d);
    var told :| told <= w.reasons && Stored(outcome, e1, e2, told);
    StoredJoin(outcome, e0, e1, e2, v.reasons, told);
    assert v.reasons + told <= Both(v, w).reasons;
    if outcome == Completed {
      StoredJoin(outcome, e0, e1, e2, v.reasons, w.reasons);
    }
    hide Stored;
  }

  lemma StandsInPart(outcome: Outcome, v: Work, w: Work, c: seq<seq<PreparedJob>>, r0: Report, r1: Report,
                     e0: seq<ErrorRow>, e1: seq<ErrorRow>)
    requires outcome != Completed && Stands(outcome, v, c, r0, r1, e0, e1) && PartOf(v, w)
    ensures Stands(outcome, w, c, r0, r1, e0, e1)
  {
    hide Stored;
    hide Written;
    hide Flatten;
    var told :| told <= v.reasons && Stored(outcome, e0, e1, told);
    assert told <= w.reasons;
  }

  /** The work of the first files is a first part of the plan's. */
  lemma {:induction false} PlanPrefix(s: Settings, plan: seq<W.SourceFile>, contents: W.SourceFile -> Content, source: string, i: nat)
    requires AllFit(plan, contents, source) && i <= |plan|
    ensures AllFit(plan[..i], contents, source)
    ensures PartOf(PlanWork(s, plan[..i], contents, source), PlanWork(s, plan, contents, source))
  {
    hide FileWork;
    hide FitContent;
    if i < |plan| {
      PlanPrefix(s, Init(plan), contents, source, i);
      assert Init(plan)[..i] == plan[..i];
    } else {
      assert plan[..i] == plan;
    }
  }

  /** One more file of the plan. */
  lemma PlanGoesOn(s: Settings, plan: seq<W.SourceFile>, contents: W.SourceFile -> Content, source: string, i: nat, outcome: Outcome,
                   c: seq<seq<PreparedJob>>, d: seq<seq<PreparedJob>>, r0: Report, r1: Report, r2: Report,
                   e0: seq<ErrorRow>, e1: seq<ErrorRow>, e2: seq<ErrorRow>)
    requires AllFit(plan, contents, source) && i < |plan|
    requires AllFit(plan[..i], contents, source)
    requires Stands(Completed, PlanWork(s, plan[..i], contents, source), c, r0, r1, e0, e1)
    requires Stands(outcome, FileWork(s, contents(plan[i]), source), d, r1, r2, e1, e2)
    ensures AllFit(plan[..i + 1], contents, source)
    ensures outcome == Completed ==> Stands(outcome, PlanWork(s, plan[..i + 1], contents, source), c + d, r0, r2, e0, e2)
    ensures outcome != Completed ==> Stands(outcome, PlanWork(s, plan, contents, source), c + d, r0, r2, e0, e2)
  {
    hide Stands;
    hide FileWork;
    hide FitContent;
    var first, next := plan[..i], plan[..i + 1];
    assert next != [] && Init(next) == first && Last(next) == plan[i];
    StandsJoin(outcome, PlanWork(s, first, contents, source), FileWork(s, contents(plan[i]), source), c, d, r0, r1, r2, e0, e1, e2);
    PlanPrefix(s, plan, contents, source, i + 1);
    hide Both;
    hide PartOf;
    if outcome != Completed {
      StandsInPart(outcome, PlanWork(s, next, contents, source), PlanWork(s, plan, contents, source), c + d, r0, r2, e0, e2);
    }
  }

  /** What an attempt at a file says of its work. */
  lemma FileStands(s: Settings, content: Content, source: string, outcome: Outcome, taken: nat, claimed: nat, e: Ending,
                   commits: seq<seq<PreparedJob>>, before: Report, after: Report, errors0: seq<ErrorRow>, errors: seq<ErrorRow>)
    requires FitContent(content, source) && s.chunkSize > 0 && taken + e.begun <= |content.records|
    requires var ps := PrepareAll(s, content.records, content.clocks);
      && Counted(before, after, FeedAll(ps[..taken], s.chunkSize), |Flatten(commits)|, e)
      && CheckpointTrue(outcome, AllBatches(ps, s.chunkSize), commits, claimed, e) && EndingFits(outcome, e, commits)
      && (outcome == Completed ==> taken == |content.records| && commits == AllBatches(ps, s.chunkSize))
      && Told(outcome, ps, s.chunkSize, taken, e, errors0, errors)
    ensures Stands(outcome, FileWork(s, content, source), commits, before, after, errors0, errors)
  {
    hide AllBatches;
    hide FeedAll;
    hide Stored;
    hide Written;
    hide Flatten;
    hide AcceptedRows;
    hide RefusedCount;
    hide WellFormed;
    var ps, size := PrepareAll(s, content.records, content.clocks), s.chunkSize;
    var told :| ToldOf(ps, size, taken, e, told) && Stored(outcome, errors0, errors, told);
    VerdictCount(ps[..taken], size);
    ReasonsStay(ps, size, taken + e.begun);
    assert told <= FeedAll(ps, size).reasons;
    if outcome == Completed {
      PreparedAreFit(s, content.records, content.clocks, source);
      assert ps[..taken] == ps;
      assert told == FeedAll(ps, size).reasons;
      BatchesPartition(ps, size);
    }
    hide PrepareAll;
  }

  /** What the `finally` of the run writes. An interrupt leaves the report PENDING. */
  function StatusOfRun(outcome: Outcome): SyncStatus {
    match outcome
    case Completed => Succeeded
    case Raised => Failed
    case Interrupted => SyncStatus.Pending
    case Killed => Running
  }

  lemma ReclaimedKeys(runs: map<nat, RunRow>, source: string, minutes: nat, now: Time)
    ensures Reclaimed(runs, source, minutes, now).Keys == runs.Keys
  {
  }

  lemma NothingWritten()
    ensures Written(Report(0, 0, 0, 0, 0, 0, 0)) == 0
  {
  }

  lemma PlannedFit(done: W.Versions, discovered: seq<W.SourceFile>, maxFiles: Option<int>, contents: W.SourceFile -> Content, source: string)
    requires forall f :: f in discovered ==> FitContent(contents(f), source)
    ensures AllFit(W.Planned(done, discovered, maxFiles), contents, source)
  {
    forall f | f in W.Planned(done, discovered, maxFiles)
      ensures f in discovered
    {
      W.PlannedArePending(done, discovered, maxFiles, f);
    }
  }

  lemma DoneGrows(files: map<nat, FileRow>, files': map<nat, FileRow>, id: nat, source: string)
    requires id !in files && id in files' && files' == files[id := files'[id]]
    requires files'[id].source == source && files'[id].status == Succeeded
    ensures DoneKeys(files', source) == DoneKeys(files, source) + {(files'[id].path, files'[id].etag.GetOr(""))}
  {
    forall k | k in DoneKeys(files, source)
      ensures k in DoneKeys(files', source)
    {
      var i :| i in files && files[i].source == source && files[i].status == Succeeded
               && (files[i].path, files[i].etag.GetOr("")) == k;
      assert i in files' && files'[i] == files[i];
    }
    assert id in files';
  }

  /** Conservation for a file that completes: every record is either rejected or written. */
  lemma CompletedConserves(s: Settings, records: seq<SourceRecord>, clocks: seq<Clock>, source: string,
                           before: Report, after: Report, commits: seq<seq<PreparedJob>>)
    requires s.chunkSize > 0 && |clocks| == |records| && forall rec :: rec in records ==> WellFormed(rec, source)
    requires var ps := PrepareAll(s, records, clocks);
      && commits == AllBatches(ps, s.chunkSize)
      && Counted(before, after, FeedAll(ps[..|records|], s.chunkSize), |Flatten(commits)|, CLEAN)
    ensures after.rowsProcessed - before.rowsProcessed == |records|
    ensures after.rowsProcessed - before.rowsProcessed
      == after.rowsRejected - before.rowsRejected + Written(after) - Written(before)
  {
    var ps := PrepareAll(s, records, clocks);
    PreparedAreFit(s, records, clocks, source);
    assert ps[..|records|] == ps;
    BatchesPartition(ps, s.chunkSize);
    VerdictCount(ps, s.chunkSize);
  }

  /** What an attempt at a file did to the tables. */
  datatype Attempt = Attempt(trace: seq<Tables>, steps: seq<H.Step>, commits: seq<seq<PreparedJob>>)

  function StatusAfter(outcome: Outcome): SyncStatus {
    match outcome
    case Completed => Succeeded
    case Raised => Failed
    case Interrupted => Running
    case Killed => Running
  }

  /** What was under way when an attempt at a file ended: a batch whose transaction was rolled back,
      rows whose batch was committed but not counted, a record counted but not decided. */
  datatype Ending = Ending(rolledBack: bool, uncounted: nat, begun: nat)

  const CLEAN := Ending(false, 0, 0)

  /** A completed attempt leaves nothing under way; another one at most one thing. */
  ghost predicate EndingFits(outcome: Outcome, e: Ending, commits: seq<seq<PreparedJob>>) {
    && (outcome == Completed ==> e == CLEAN)
    && e.begun <= 1 && (e.uncounted == 0 || (commits != [] && e.uncounted == |Last(commits)| && e.begun == 0 && !e.rolledBack))
    && !(e.begun == 1 && e.rolledBack)
  }

  /** The run counters against the stream: every decided record is processed, refused or accepted, and
      the write counters sum to the committed rows; but for what was under way. */
  ghost predicate Counted(before: Report, after: Report, s: Stream, committed: nat, e: Ending) {
    && after.rowsProcessed == before.rowsProcessed + |s.verdicts| + e.begun
    && after.rowsRejected == before.rowsRejected + RefusedCount(s.verdicts)
    && after.rowsAccepted == before.rowsAccepted + |AcceptedRows(s.verdicts)|
    && Written(after) + e.uncounted == Written(before) + committed
  }

  /** The reasons recorded: those of the decided records, and a first few of the one begun. */
  ghost predicate ToldOf(ps: seq<Prepared>, size: nat, taken: nat, e: Ending, told: seq<Reason>)
    requires taken <= |ps|
  {
    && taken + e.begun <= |ps|
    && FeedAll(ps[..taken], size).reasons <= told <= FeedAll(ps[..taken + e.begun], size).reasons
  }

  /** They are what was stored. */
  ghost predicate Told(outcome: Outcome, ps: seq<Prepared>, size: nat, taken: nat, e: Ending, before: seq<ErrorRow>, after: seq<ErrorRow>)
    requires taken <= |ps|
  {
    exists told :: ToldOf(ps, size, taken, e, told) && Stored(outcome, before, after, told)
  }

  /** From counting `s` and `n` committed rows to counting `t` and `m`. */
  ghost predicate Advanced(r: Report, r': Report, s: Stream, t: Stream, n: int, m: int) {
    && r'.rowsProcessed - |t.verdicts| == r.rowsProcessed - |s.verdicts|
    && r'.rowsRejected - RefusedCount(t.verdicts) == r.rowsRejected - RefusedCount(s.verdicts)
    && r'.rowsAccepted - |AcceptedRows(t.verdicts)| == r.rowsAccepted - |AcceptedRows(s.verdicts)|
    && Written(r') - m == Written(r) - n
  }

  /** Of each reason, exactly as many rejections were stored as were recorded; a killed worker may have
      stored fewer. */
  ghost predicate Stored(outcome: Outcome, before: seq<ErrorRow>, after: seq<ErrorRow>, reasons: seq<Reason>) {
    && (forall r :: Occurrences(after, r) <= Occurrences(before, r) + Count(reasons, r))
    && (outcome != Killed ==> forall r :: Occurrences(after, r) == Occurrences(before, r) + Count(reasons, r))
  }

  /** The worker's counter is the committed rows, and the batch that was rolled back. */
  ghost predicate Claimed(all: seq<seq<PreparedJob>>, commits: seq<seq<PreparedJob>>, committed: nat, e: Ending) {
    && commits <= all && (e.rolledBack ==> |commits| < |all| && all[|commits|] != [])
    && committed == |Flatten(commits)| + if e.rolledBack then |all[|commits|]| else 0
  }

  /** Checkpoint truth: a finished or unfinished file claims exactly its committed rows; so does a failed
      one, unless the exception came out of a batch's transaction: then it claims that batch on top. */
  ghost predicate CheckpointTrue(outcome: Outcome, all: seq<seq<PreparedJob>>, commits: seq<seq<PreparedJob>>, claimed: nat, e: Ending) {
    && commits <= all && (e.rolledBack ==> |commits| < |all| && all[|commits|] != [])
    && claimed == |Flatten(commits)| + if outcome == Raised && e.rolledBack then |all[|commits|]| else 0
  }

  lemma BatchEnds(all: seq<seq<PreparedJob>>, commits: seq<seq<PreparedJob>>, batch: seq<PreparedJob>, done: bool, outcome: Outcome)
    requires commits + [batch] <= all && batch != [] && (outcome == Completed ==> done)
    ensures var commits', e := if done then commits + [batch] else commits, Ending(!done, if done && outcome != Completed then |batch| else 0, 0);
      Claimed(all, commits', |Flatten(commits)| + |batch|, e) && EndingFits(outcome, e, commits')
  {
    assert batch == all[|commits|] && Init(commits + [batch]) == commits;
  }

  lemma WrittenOver(files: map<nat, FileRow>, id: nat, before: FileRow, after: FileRow)
    ensures files[id := before][id := after] == files[id := after]
  {
  }

  /** What the worker claims when the attempt ended is true of how the file ends. */
  lemma ClaimIsTrue(ended: Outcome, outcome: Outcome, all: seq<seq<PreparedJob>>, commits: seq<seq<PreparedJob>>, committed: nat, e: Ending)
    requires Claimed(all, commits, committed, e) && EndingFits(ended, e, commits)
    requires if ended == Completed then outcome == Completed || outcome == Raised else outcome == ended
    ensures EndingFits(outcome, e, commits)
    ensures var claimed := if outcome == Completed || outcome == Raised then committed else |Flatten(commits)|;
      && CheckpointTrue(outcome, all, commits, claimed, e)
      && (outcome == Raised ==> (claimed == |Flatten(commits)| <==> !e.rolledBack))
  {
  }

  /** The reasons of one record at this point of the stream. */
  function RecordReasons(p: Prepared, open: seq<PreparedJob>): seq<Reason> {
    if p.row.Some? && SeenIn(open, p.row.value.externalId) then p.reasons + [DuplicateInBatch] else p.reasons
  }

  lemma BrokenOff(ps: seq<Prepared>, size: nat, taken: nat, told: seq<Reason>)
    requires taken < |ps| && told <= RecordReasons(ps[taken], FeedAll(ps[..taken], size).open)
    ensures ToldOf(ps, size, taken, Ending(false, 0, 1), FeedAll(ps[..taken], size).reasons + told)
  {
    assert Init(ps[..taken + 1]) == ps[..taken];
    FeedReasons(FeedAll(ps[..taken], size), ps[taken], size);
    hide RecordReasons;
  }

  lemma Decided(ps: seq<Prepared>, size: nat, taken: nat, e: Ending)
    requires taken <= |ps| && e.begun == 0
    ensures ToldOf(ps, size, taken, e, FeedAll(ps[..taken], size).reasons)
  {
  }

  lemma BrokenClaim(all: seq<seq<PreparedJob>>, commits: seq<seq<PreparedJob>>, committed: nat, outcome: Outcome)
    requires Claimed(all, commits, committed, CLEAN) && outcome != Completed
    ensures Claimed(all, commits, committed, Ending(false, 0, 1)) && EndingFits(outcome, Ending(false, 0, 1), commits)
  {
  }

  lemma FeedReasons(s: Stream, p: Prepared, size: nat)
    ensures Feed(s, p, size).reasons == s.reasons + RecordReasons(p, s.open)
  {
  }

  lemma PreparedAt(s: Settings, records: seq<SourceRecord>, clocks: seq<Clock>, i: nat)
    requires |clocks| == |records| && i < |records|
    ensures PrepareAll(s, records, clocks)[i] == Prepare(s, records[i], clocks[i])
  {
  }

  lemma EmptyStream(size: nat)
    ensures FeedAll([], size) == Stream([], [], [], [])
  {
  }

  lemma PreparedAreFit(s: Settings, records: seq<SourceRecord>, clocks: seq<Clock>, source: string)
    requires |clocks| == |records| && forall rec :: rec in records ==> WellFormed(rec, source)
    ensures forall p :: p in PrepareAll(s, records, clocks) ==>
      if p.row.None? then p.reasons != [] else p.row.value.source == source
  {
    forall i | 0 <= i < |records|
      ensures var p := PrepareAll(s, records, clocks)[i];
        if p.row.None? then p.reasons != [] else p.row.value.source == source
    {
      RejectionHasReason(s, records[i], clocks[i], source);
    }
  }

  /** From `s` to `t` the stream moves towards `all`, and what it yields can be loaded. */
  ghost predicate Yields(s: Stream, t: Stream, all: seq<seq<PreparedJob>>, size: nat) {
    && |s.open| < size && s.done <= all && t.done <= all
    && (t.done != s.done ==> t.done != [] && LoadableBatch(Last(t.done)))
  }

  lemma StreamStep(ps: seq<Prepared>, size: nat, i: nat, source: string)
    requires i < |ps| && size > 0
    requires forall p :: p in ps ==> if p.row.None? then p.reasons != [] else p.row.value.source == source
    ensures var s, t := FeedAll(ps[..i], size), FeedAll(ps[..i + 1], size);
      t == Feed(s, ps[i], size) && Yields(s, t, AllBatches(ps, size), size)
  {
    assert Init(ps[..i + 1]) == ps[..i];
    FeedAllInvariant(ps[..i], size);
    BatchesAreLoadable(ps[..i + 1], size, source);
    YieldedStays(ps, size, i);
    YieldedStays(ps, size, i + 1);
  }

  lemma WholeStream(ps: seq<Prepared>, size: nat, i: nat, source: string)
    requires i == |ps| && size > 0
    requires forall p :: p in ps ==> if p.row.None? then p.reasons != [] else p.row.value.source == source
    ensures var s := FeedAll(ps[..i], size);
      && AllBatches(ps, size) == (if s.open == [] then s.done else s.done + [s.open])
      && LoadableBatch(s.open)
  {
    assert ps[..i] == ps;
    BatchesAreLoadable(ps, size, source);
  }

  // ---- attempts after one another ------------------------------------------------------------------

  lemma {:induction false} BatchesJoin(a: seq<H.Step>, b: seq<H.Step>)
    ensures C.Batches(a + b) == C.Batches(a) + C.Batches(b)
  {
    if b == [] {
      assert a + b == a;
    } else {
      assert Init(a + b) == a + Init(b);
      BatchesJoin(a, Init(b));
    }
  }

  /** Two recorded histories, the second from where the first ended, are one. */
  lemma RecordedJoin(t0: Tables, t1: Tables, t2: Tables, a: Attempt, b: Attempt)
    requires Recorded(t0, t1, a.trace, a.steps, a.commits) && Recorded(t1, t2, b.trace, b.steps, b.commits)
    ensures b.trace != [] && Recorded(t0, t2, a.trace + b.trace[1..], a.steps + b.steps, a.commits + b.commits)
  {
    BatchesJoin(a.steps, b.steps);
    hide H.Next;
    var trace, steps, n := a.trace + b.trace[1..], a.steps + b.steps, |a.steps|;
    forall i | 0 <= i < |steps|
      ensures H.Next(trace[i], steps[i], trace[i + 1])
    {
      if i < n {
        assert H.Next(a.trace[i], a.steps[i], a.trace[i + 1]);
      } else {
        assert H.Next(b.trace[i - n], b.steps[i - n], b.trace[i - n + 1]);
        assert trace[i] == b.trace[i - n];
      }
    }
  }

  /** Attempts at one file, each from the tables the one before it left. */
  ghost predicate Chained(states: seq<Tables>, attempts: seq<Attempt>, all: seq<seq<PreparedJob>>) {
    && |states| == |attempts| + 1
    && forall i :: 0 <= i < |attempts| ==> Follows(states[i], states[i + 1], attempts[i], all)
  }

  ghost predicate Follows(t: Tables, t': Tables, a: Attempt, all: seq<seq<PreparedJob>>) {
    Recorded(t, t', a.trace, a.steps, a.commits) && a.commits <= all
  }

  function Cuts(attempts: seq<Attempt>): seq<nat> {
    seq(|attempts|, i requires 0 <= i < |attempts| => |attempts[i].commits|)
  }

  lemma {:induction false} ChainIsHistory(states: seq<Tables>, attempts: seq<Attempt>, all: seq<seq<PreparedJob>>, last: Attempt, t: Tables)
    returns (a: Attempt)
    requires Chained(states, attempts, all) && Recorded(Last(states), t, last.trace, last.steps, last.commits) && last.commits == all
    ensures forall i :: 0 <= i < |attempts| ==> Cuts(attempts)[i] <= |all|
    ensures Recorded(states[0], t, a.trace, a.steps, a.commits) && a.commits == C.Attempts(all, Cuts(attempts))
    decreases |attempts|
  {
    hide Recorded;
    if attempts == [] {
      a := last;
    } else {
      assert Follows(states[0], states[1], attempts[0], all);
      forall i | 0 <= i < |attempts[1..]|
        ensures Follows(states[1..][i], states[1..][i + 1], attempts[1..][i], all)
      {
        assert Follows(states[i + 1], states[i + 2], attempts[i + 1], all);
      }
      var b := ChainIsHistory(states[1..], attempts[1..], all, last, t);
      RecordedJoin(states[0], states[1], t, attempts[0], b);
      a := Attempt(attempts[0].trace + b.trace[1..], attempts[0].steps + b.steps, attempts[0].commits + b.commits);
      assert Cuts(attempts)[1..] == Cuts(attempts[1..]);
      assert attempts[0].commits == all[..|attempts[0].commits|];
      assert forall i :: 0 < i < |attempts| ==> Cuts(attempts)[i] == Cuts(attempts[1..])[i - 1];
    }
  }

  /** Crash equivalence for the attempts ProcessFile records: however often the file of a merge-free
      batch list was broken off, once an attempt completes every source row has the job content and
      the provenance that one undisturbed attempt from the same tables would have given it. */
  lemma RestartEquivalence(t0: Tables, straight: Attempt, t: Tables, states: seq<Tables>, broken: seq<Attempt>, last: Attempt, t': Tables)
    requires Consistent(t0) && C.MergeFree(t0, Flatten(straight.commits))
    requires Recorded(t0, t, straight.trace, straight.steps, straight.commits)
    requires Chained(states, broken, straight.commits) && states[0] == t0
    requires Recorded(Last(states), t', last.trace, last.steps, last.commits) && last.commits == straight.commits
    ensures Consistent(t) && Consistent(t')
    ensures forall k :: C.FactAt(t', k) == C.FactAt(t, k)
  {
    var a := ChainIsHistory(states, broken, straight.commits, last, t');
    C.CrashEquivalence(straight.trace, straight.steps, a.trace, a.steps, straight.commits, Cuts(broken));
  }
}
