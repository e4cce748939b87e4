/** SyncRepository and its rejection buffer: runs, file checkpoints and recorded rejections. */
module Sync {
  import opened Prelude
  import opened Schema

  datatype SyncStatus = Pending | Running | Succeeded | Failed | Partial | Cancelled

  datatype RunRow = RunRow(source: string, status: SyncStatus, startedAt: Time, finishedAt: Option<Time>)

  datatype FileRow = FileRow(runId: nat, source: string, path: string, etag: Option<string>, status: SyncStatus,
                             rowsCommitted: nat)

  datatype Reason =
    | MissingTitle | MissingCompany | MissingLocation | MissingApplyUrl | MissingExternalId | InvalidUrl | InvalidDate
    | FuturePostedAt | ImplausiblePostedAt | InvalidCountry | CountryNotAllowed | CategoryNotAllowed | TooOld
    | UnparseablePayload | SchemaViolation | DuplicateInBatch

  /** A sync_errors row: a detailed example, or the count of those past the sample limit. */
  datatype ErrorRow = ErrorRow(runId: nat, reason: Reason, occurrences: nat, isExample: bool)

  const MINUTE: Time := 60_000_000

  // ---- runs ---------------------------------------------------------------------------

  predicate HoldsLock(run: RunRow) {
    run.status in {Pending, Running}
  }

  predicate HasActive(runs: map<nat, RunRow>, source: string) {
    exists id :: id in runs && runs[id].source == source && HoldsLock(runs[id])
  }

  /** The partial unique index sync_runs_one_active_per_source. */
  ghost predicate OneActive(runs: map<nat, RunRow>) {
    forall a, b :: a in runs && b in runs && HoldsLock(runs[a]) && HoldsLock(runs[b]) && runs[a].source == runs[b].source ==> a == b
  }

  predicate Stale(run: RunRow, source: string, minutes: nat, now: Time) {
    run.source == source && HoldsLock(run) && run.startedAt < now - minutes * MINUTE
  }

  function Reclaimed(runs: map<nat, RunRow>, source: string, minutes: nat, now: Time): map<nat, RunRow> {
    map id | id in runs ::
      if Stale(runs[id], source, minutes, now) then runs[id].(status := Failed, finishedAt := Some(now)) else runs[id]
  }

  function WithStatus(runs: map<nat, RunRow>, id: nat, status: SyncStatus, now: Time): map<nat, RunRow>
    requires id in runs
  {
    runs[id := runs[id].(status := status, finishedAt := Some(now))]
  }

  /** Whether the index lets run `id` take `status`: a terminal status always, an active one only
      when no other run of the source is active. */
  predicate FinishAllowed(runs: map<nat, RunRow>, id: nat, status: SyncStatus)
    requires id in runs
  {
    status in {Pending, Running} ==>
      forall other :: other in runs && other != id && runs[other].source == runs[id].source ==> !HoldsLock(runs[other])
  }

  // ---- files ----------------------------------------------------------------------------

  /** What counts as done: a path at exactly one version, an absent etag read as ''. */
  function DoneKeys(files: map<nat, FileRow>, source: string): set<(string, string)> {
    set id | id in files && files[id].source == source && files[id].status == Succeeded
      :: (files[id].path, files[id].etag.GetOr(""))
  }

  /** Done is what some file of the source finished as SUCCEEDED, at that version. */
  lemma DoneExactly(files: map<nat, FileRow>, source: string, path: string, version: string)
    ensures (path, version) in DoneKeys(files, source) <==>
      exists id :: id in files && files[id].source == source && files[id].status == Succeeded && files[id].path == path
                   && version == if files[id].etag.Some? then files[id].etag.value else ""
  {
    if (path, version) in DoneKeys(files, source) {
      var id :| id in files && files[id].source == source && files[id].status == Succeeded
                && (files[id].path, files[id].etag.GetOr("")) == (path, version);
    }
  }

  /** The partial unique index sync_files_completed_uq lets a file finish as SUCCEEDED once. */
  predicate SucceedAllowed(files: map<nat, FileRow>, id: nat)
    requires id in files
  {
    forall other :: other in files && other != id && files[other].status == Succeeded
      && files[other].source == files[id].source && files[other].path == files[id].path
      ==> files[other].etag.GetOr("") != files[id].etag.GetOr("")
  }

  // ---- rejections -------------------------------------------------------------------------

  function Occurrences(errors: seq<ErrorRow>, reason: Reason): nat {
    if errors == [] then 0
    else Occurrences(Init(errors), reason) + if Last(errors).reason == reason then Last(errors).occurrences else 0
  }

  function Examples(errors: seq<ErrorRow>, reason: Reason): nat {
    if errors == [] then 0
    else Examples(Init(errors), reason) + if Last(errors).reason == reason && Last(errors).isExample then 1 else 0
  }

  function Count(reasons: seq<Reason>, reason: Reason): nat {
    if reasons == [] then 0 else Count(Init(reasons), reason) + if Last(reasons) == reason then 1 else 0
  }

  lemma {:induction false} CountAppend(a: seq<Reason>, b: seq<Reason>, reason: Reason)
    ensures Count(a + b, reason) == Count(a, reason) + Count(b, reason)
  {
    if b == [] {
      assert a + b == a;
    } else {
      assert Init(a + b) == a + Init(b);
      CountAppend(a, Init(b), reason);
    }
  }

  lemma CountPush(s: seq<Reason>, x: Reason)
    ensures forall r :: Count(s + [x], r) == Count(s, r) + if r == x then 1 else 0
  {
  }

  lemma {:induction false} OccurrencesAppend(a: seq<ErrorRow>, b: seq<ErrorRow>, reason: Reason)
    ensures Occurrences(a + b, reason) == Occurrences(a, reason) + Occurrences(b, reason)
    ensures Examples(a + b, reason) == Examples(a, reason) + Examples(b, reason)
  {
    if b == [] {
      assert a + b == a;
    } else {
      assert Init(a + b) == a + Init(b);
      OccurrencesAppend(a, Init(b), reason);
    }
  }

  /** record_rejections: one example row each. */
  function ExampleRows(runId: nat, reasons: seq<Reason>): seq<ErrorRow> {
    if reasons == [] then [] else ExampleRows(runId, Init(reasons)) + [ErrorRow(runId, Last(reasons), 1, true)]
  }

  lemma {:induction false} ExampleRowsCount(runId: nat, reasons: seq<Reason>, reason: Reason)
    ensures Occurrences(ExampleRows(runId, reasons), reason) == Count(reasons, reason)
    ensures Examples(ExampleRows(runId, reasons), reason) == Count(reasons, reason)
  {
    if reasons != [] {
      ExampleRowsCount(runId, Init(reasons), reason);
    }
  }

  /** Each row holds a reason of the map with its count, and is no example. */
  ghost predicate CountRows(rows: seq<ErrorRow>, runId: nat, counts: map<Reason, nat>) {
    forall i :: 0 <= i < |rows| ==>
      rows[i].reason in counts && rows[i] == ErrorRow(runId, rows[i].reason, counts[rows[i].reason], false)
  }

  /** The rows of all reasons of the map but those that are left. */
  ghost predicate CountedBut(rows: seq<ErrorRow>, runId: nat, counts: map<Reason, nat>, left: set<Reason>) {
    && left <= counts.Keys && |rows| + |left| == |counts.Keys| && CountRows(rows, runId, counts)
    && (forall r :: Occurrences(rows, r) == if r in counts && r !in left then counts[r] else 0)
    && (forall r :: Examples(rows, r) == 0)
  }

  lemma NothingCounted(runId: nat, counts: map<Reason, nat>)
    ensures CountedBut([], runId, counts, counts.Keys)
  {
  }

  lemma CountNext(rows: seq<ErrorRow>, runId: nat, counts: map<Reason, nat>, left: set<Reason>, reason: Reason)
    requires CountedBut(rows, runId, counts, left) && reason in left
    ensures CountedBut(rows + [ErrorRow(runId, reason, counts[reason], false)], runId, counts, left - {reason})
  {
    var rows' := rows + [ErrorRow(runId, reason, counts[reason], false)];
    assert Init(rows') == rows;
    assert |left - {reason}| == |left| - 1;
  }

  /** One counted row per reason, behind what was there. */
  lemma AllCounted(before: seq<ErrorRow>, rows: seq<ErrorRow>, runId: nat, counts: map<Reason, nat>)
    requires CountedBut(rows, runId, counts, {})
    ensures forall r :: Occurrences(before + rows, r) == Occurrences(before, r) + (if r in counts then counts[r] else 0)
    ensures forall r :: Examples(before + rows, r) == Examples(before, r)
    ensures |rows| == |counts| && (before + rows)[|before|..] == rows && CountRows(rows, runId, counts)
  {
    forall r
      ensures Occurrences(before + rows, r) == Occurrences(before, r) + Occurrences(rows, r)
      ensures Examples(before + rows, r) == Examples(before, r) + Examples(rows, r)
    {
      OccurrencesAppend(before, rows, r);
    }
    assert |counts.Keys| == |counts|;
  }

  class SyncRepository {
    var runs: map<nat, RunRow>
    var files: map<nat, FileRow>
    var errors: seq<ErrorRow>
    var nextRun: nat
    var nextFile: nat

    constructor ()
      ensures runs == map[] && files == map[] && errors == []
      ensures Valid()
    {
      runs, files, errors, nextRun, nextFile := map[], map[], [], 0, 0;
    }

    /** The schema: fresh identities, and both partial unique indexes. */
    ghost predicate Valid()
      reads this`runs, this`files, this`nextRun, this`nextFile
    {
      && (forall id :: id in runs ==> id < nextRun) && (forall id :: id in files ==> id < nextFile)
      && OneActive(runs)
      && forall id :: id in files && files[id].status == Succeeded ==> SucceedAllowed(files, id)
    }

    /** Open a RUNNING run; None is SyncRunActiveError. */
    method StartRun(source: string, now: Time) returns (run: Option<nat>)
      requires Valid()
      modifies this`runs, this`nextRun
      ensures Valid()
      ensures run.None? <==> HasActive(old(runs), source)
      ensures run.None? <==> exists id :: id in old(runs) && old(runs)[id].source == source
                                          && (old(runs)[id].status == Pending || old(runs)[id].status == Running)
      ensures run.None? ==> runs == old(runs)
      ensures run.Some? ==> run.value !in old(runs) && runs == old(runs)[run.value := RunRow(source, Running, now, None)]
    {
      if HasActive(runs, source) {
        return None;
      }
      run := Some(nextRun);
      runs := runs[nextRun := RunRow(source, Running, now, None)];
      nextRun := nextRun + 1;
    }

    /** Mark long-abandoned runs FAILED: those of the source that are active and began before the window. */
    method ReclaimStaleRuns(source: string, minutes: nat, now: Time)
      requires Valid()
      modifies this`runs
      ensures Valid() && runs == Reclaimed(old(runs), source, minutes, now) && runs.Keys == old(runs).Keys
      ensures forall id :: id in runs ==>
        var run := old(runs)[id];
        runs[id] ==
        if run.source == source && (run.status == Pending || run.status == Running) && run.startedAt < now - minutes * 60_000_000
        then RunRow(source, Failed, run.startedAt, Some(now)) else run
    {
      runs := Reclaimed(runs, source, minutes, now);
    }

    /** Close a run, whoever asks. False is the unique index refusing. */
    method FinishRun(id: nat, status: SyncStatus, now: Time) returns (ok: bool)
      requires Valid() && id in runs
      modifies this`runs
      ensures Valid() && ok == FinishAllowed(old(runs), id, status)
      ensures !ok <==>
        && (status == Pending || status == Running)
        && exists other :: other in old(runs) && other != id && old(runs)[other].source == old(runs)[id].source
                           && (old(runs)[other].status == Pending || old(runs)[other].status == Running)
      ensures runs == if ok then old(runs)[id := old(runs)[id].(status := status, finishedAt := Some(now))] else old(runs)
    {
      ok := FinishAllowed(runs, id, status);
      if ok {
        runs := WithStatus(runs, id, status, now);
      }
    }

    method StartFile(runId: nat, source: string, path: string, etag: Option<string>) returns (id: nat)
      requires Valid()
      modifies this`files, this`nextFile
      ensures Valid() && id !in old(files)
      ensures files == old(files)[id := FileRow(runId, source, path, etag, Running, 0)]
    {
      id := nextFile;
      files := files[id := FileRow(runId, source, path, etag, Running, 0)];
      nextFile := nextFile + 1;
    }

    method CheckpointFile(id: nat, rowsCommitted: nat)
      requires Valid() && id in files
      modifies this`files
      ensures files == old(files)[id := old(files)[id].(rowsCommitted := rowsCommitted)]
      ensures Valid()
    {
      files := files[id := files[id].(rowsCommitted := rowsCommitted)];
    }

    /** False is the unique index refusing a second SUCCEEDED row for the same version. */
    method FinishFile(id: nat, status: SyncStatus, rowsCommitted: nat) returns (ok: bool)
      requires Valid() && id in files && files[id].status == Running && status in {Succeeded, Failed}
      modifies this`files
      ensures Valid()
      ensures !ok <==>
        && status == Succeeded
        && exists other :: other in old(files) && other != id && old(files)[other].status == Succeeded
                           && old(files)[other].source == old(files)[id].source && old(files)[other].path == old(files)[id].path
                           && old(files)[other].etag.GetOr("") == old(files)[id].etag.GetOr("")
      ensures files == if ok then old(files)[id := old(files)[id].(status := status, rowsCommitted := rowsCommitted)] else old(files)
    {
      ok := status == Succeeded ==> SucceedAllowed(files, id);
      if ok {
        files := files[id := files[id].(status := status, rowsCommitted := rowsCommitted)];
      }
    }

    method RecordRejections(runId: nat, reasons: seq<Reason>)
      modifies this`errors
      ensures errors == old(errors) + ExampleRows(runId, reasons) && |errors| == |old(errors)| + |reasons|
      ensures forall i :: 0 <= i < |reasons| ==> errors[|old(errors)| + i] == ErrorRow(runId, reasons[i], 1, true)
    {
      for i := 0 to |reasons|
        invariant errors == old(errors) + ExampleRows(runId, reasons[..i]) && |errors| == |old(errors)| + i
        invariant forall j :: 0 <= j < i ==> errors[|old(errors)| + j] == ErrorRow(runId, reasons[j], 1, true)
      {
        errors := errors + [ErrorRow(runId, reasons[i], 1, true)];
        assert Init(reasons[..i + 1]) == reasons[..i];
      }
      assert reasons[..|reasons|] == reasons;
    }

    /** One counted row per reason of the map. */
    method RecordRejectionCounts(runId: nat, counts: map<Reason, nat>)
      modifies this`errors
      ensures forall r :: Occurrences(errors, r) == Occurrences(old(errors), r) + (if r in counts then counts[r] else 0)
      ensures forall r :: Examples(errors, r) == Examples(old(errors), r)
      ensures old(errors) <= errors && |errors| == |old(errors)| + |counts| && CountRows(errors[|old(errors)|..], runId, counts)
    {
      hide CountedBut;
      hide CountRows;
      var left := counts.Keys;
      ghost var rows: seq<ErrorRow> := [];
      NothingCounted(runId, counts);
      while left != {}
        invariant errors == old(errors) + rows && left <= counts.Keys
        invariant CountedBut(rows, runId, counts, left)
        decreases left
      {
        var reason :| reason in left;
        CountNext(rows, runId, counts, left, reason);
        errors := errors + [ErrorRow(runId, reason, counts[reason], false)];
        rows := rows + [ErrorRow(runId, reason, counts[reason], false)];
        left := left - {reason};
      }
      AllCounted(old(errors), rows, runId, counts);
    }
  }

  const EXAMPLES_PER_REASON := 100
  const FLUSH_SIZE := 500

  function Tally(m: map<Reason, nat>, r: Reason): nat {
    if r in m then m[r] else 0
  }

  /** Accumulates rejections: a bounded sample of detailed rows plus exact counts. */
  class RejectionBuffer {
    const repo: SyncRepository
    const runId: nat
    var pending: seq<Reason>
    var examples: map<Reason, nat>
    var overflow: map<Reason, nat>
    var total: nat
    /** Everything added so far, and the error table as it was when the buffer opened. */
    ghost var added: seq<Reason>
    ghost const start: seq<ErrorRow>

    constructor (repo: SyncRepository, runId: nat)
      ensures this.repo == repo && this.runId == runId && start == repo.errors
      ensures Valid() && added == [] && total == 0
    {
      this.repo, this.runId := repo, runId;
      pending, examples, overflow, total := [], map[], map[], 0;
      added, start := [], repo.errors;
    }

    /** Of each reason: what is stored, pending or tallied is what was added, and the stored and
        pending examples never exceed the limit. */
    ghost predicate Balanced(r: Reason)
      reads this, repo`errors
    {
      && Occurrences(repo.errors, r) + Count(pending, r) + Tally(overflow, r) == Occurrences(start, r) + Count(added, r)
      && Examples(repo.errors, r) + Count(pending, r) == Examples(start, r) + Tally(examples, r)
      && Tally(examples, r) <= EXAMPLES_PER_REASON
    }

    ghost predicate Valid()
      reads this, repo`errors
    {
      && |pending| < FLUSH_SIZE && total == |added|
      && forall r :: Balanced(r)
    }

    method Add(reason: Reason)
      requires Valid()
      modifies this, repo`errors
      ensures Valid() && added == old(added) + [reason] && |pending| < FLUSH_SIZE
    {
      assert forall r :: Balanced(r);
      CountPush(added, reason);
      CountPush(pending, reason);
      added := added + [reason];
      total := total + 1;
      if Tally(examples, reason) < EXAMPLES_PER_REASON {
        examples := examples[reason := Tally(examples, reason) + 1];
        pending := pending + [reason];
        forall r
          ensures Balanced(r)
        {
          assert old(Balanced(r));
        }
        if |pending| >= FLUSH_SIZE {
          Flush();
        }
      } else {
        overflow := overflow[reason := Tally(overflow, reason) + 1];
        forall r
          ensures Balanced(r)
        {
          assert old(Balanced(r));
        }
      }
    }

    method Flush()
      requires forall r :: Balanced(r)
      modifies this`pending, repo`errors
      ensures pending == []
      ensures forall r :: Balanced(r)
    {
      if pending == [] {
        return;
      }
      label Flushing:
      ghost var before, rows := repo.errors, ExampleRows(runId, pending);
      forall r
        ensures Occurrences(before + rows, r) == Occurrences(before, r) + Count(pending, r)
        ensures Examples(before + rows, r) == Examples(before, r) + Count(pending, r)
      {
        OccurrencesAppend(before, rows, r);
        ExampleRowsCount(runId, pending, r);
      }
      repo.RecordRejections(runId, pending);
      pending := [];
      forall r
        ensures Balanced(r)
      {
        assert old@Flushing(Balanced(r));
      }
    }

    /** Close the buffer. The stored counts of each reason now sum exactly to what was added, and
        at most the limit of them are detailed examples. */
    method Finalize()
      requires Valid()
      modifies this, repo`errors
      ensures pending == [] && overflow == map[] && total == |added| && added == old(added)
      ensures forall r :: Occurrences(repo.errors, r) == Occurrences(start, r) + Count(added, r)
      ensures forall r :: Examples(repo.errors, r) <= Examples(start, r) + EXAMPLES_PER_REASON
    {
      Flush();
      forall r
        ensures Occurrences(repo.errors, r) + Tally(overflow, r) == Occurrences(start, r) + Count(added, r)
        ensures Examples(repo.errors, r) <= Examples(start, r) + EXAMPLES_PER_REASON
      {
        assert Balanced(r);
      }
      if overflow == map[] {
        return;
      }
      repo.RecordRejectionCounts(runId, overflow);
      overflow := map[];
    }
  }
}
