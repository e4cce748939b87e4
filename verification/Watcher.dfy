/** scripts/has_new_file.py against the planner of the pipeline: which published files are new,
    which are planned, and how the two meet. */
module Watcher {
  import opened Prelude

  datatype SourceFile = SourceFile(path: string, etag: Option<string>)

  type Versions = set<(string, string)>

  function VersionOf(f: SourceFile): (string, string) {
    (f.path, f.etag.GetOr(""))
  }

  /** Python's s[k:]. */
  function SliceFrom<T>(s: seq<T>, k: int): seq<T> {
    s[Min(Max(if k < 0 then |s| + k else k, 0), |s|)..]
  }

  /** Python's s[-n:]. For n = 0 that is the whole list, for n < 0 all but the first -n. */
  function Tail<T>(s: seq<T>, n: int): seq<T> {
    SliceFrom(s, -n)
  }

  // ---- the planner -------------------------------------------------------------------------

  /** SyncRepository.filter_unprocessed keeps the raw etag of what it returns. */
  function Unprocessed(done: Versions, files: seq<SourceFile>): set<(string, Option<string>)> {
    set f | f in files && VersionOf(f) !in done :: (f.path, f.etag)
  }

  /** _filter_pending looks up the etag or ''. */
  function IsPending(done: Versions, files: seq<SourceFile>, f: SourceFile): bool {
    (f.path, Some(f.etag.GetOr(""))) in Unprocessed(done, files)
  }

  function Pending(done: Versions, files: seq<SourceFile>): seq<SourceFile> {
    Filter(files, (f: SourceFile) => IsPending(done, files, f))
  }

  function Planned(done: Versions, files: seq<SourceFile>, maxFiles: Option<int>): seq<SourceFile> {
    var pending := Pending(done, files);
    if maxFiles.Some? then Tail(pending, maxFiles.value) else pending
  }

  /** Has an etag, or shares its path with a listed file whose etag is the empty string. */
  ghost predicate Plannable(files: seq<SourceFile>, f: SourceFile) {
    f.etag.Some? || SourceFile(f.path, Some("")) in files
  }

  /** A file is pending if and only if it is not done and the raw lookup can find it: a file
      without an etag is never planned on its own account. */
  lemma PendingExactly(done: Versions, files: seq<SourceFile>, f: SourceFile)
    requires f in files
    ensures f in Pending(done, files) <==> VersionOf(f) !in done && Plannable(files, f)
  {
    FilterMembers(files, (g: SourceFile) => IsPending(done, files, g));
    var want := (f.path, Some(f.etag.GetOr("")));
    if IsPending(done, files, f) {
      var g :| g in files && VersionOf(g) !in done && (g.path, g.etag) == want;
      assert g == SourceFile(f.path, Some(f.etag.GetOr("")));
    }
    if VersionOf(f) !in done && Plannable(files, f) {
      var g := SourceFile(f.path, Some(f.etag.GetOr("")));
      assert g in files && VersionOf(g) == VersionOf(f);
    }
  }

  // ---- the watcher -------------------------------------------------------------------------

  datatype Answer = NoneNew | New | CannotTell

  function HasNewFile(done: Versions, discovered: seq<SourceFile>, window: int): Answer {
    if window < 1 || discovered == [] then CannotTell
    else if Filter(Tail(discovered, window), (f: SourceFile) => VersionOf(f) !in done) == [] then NoneNew
    else New
  }

  /** The newest `window` files of a listing, which is oldest first. */
  function Newest(discovered: seq<SourceFile>, window: nat): seq<SourceFile> {
    if |discovered| <= window then discovered else discovered[|discovered| - window..]
  }

  /** The three answers: the watcher cannot tell without a window or a listing; else something is new exactly
      when one of the newest files was never done at its version. */
  lemma AnswerExactly(done: Versions, discovered: seq<SourceFile>, window: int)
    ensures HasNewFile(done, discovered, window) == CannotTell <==> window < 1 || discovered == []
    ensures window >= 1 && discovered != [] ==>
      && Tail(discovered, window) == Newest(discovered, window)
      && (HasNewFile(done, discovered, window) == NoneNew <==>
            forall f :: f in Newest(discovered, window) ==> (f.path, f.etag.GetOr("")) in done)
      && (HasNewFile(done, discovered, window) == New <==>
            exists f :: f in Newest(discovered, window) && (f.path, f.etag.GetOr("")) !in done)
  {
    var undone := (f: SourceFile) => VersionOf(f) !in done;
    var watched := Tail(discovered, window);
    FilterMembers(watched, undone);
    assert window >= 1 ==> watched == Newest(discovered, window);
    if Filter(watched, undone) != [] {
      assert Filter(watched, undone)[0] in Filter(watched, undone);
      assert VersionOf(Filter(watched, undone)[0]) !in done;
    }
  }

  /** What a run that succeeds leaves as done. */
  function DoneAfter(done: Versions, files: seq<SourceFile>, maxFiles: Option<int>): Versions {
    done + VersionsOf(Planned(done, files, maxFiles))
  }

  function VersionsOf(files: seq<SourceFile>): Versions {
    set f | f in files :: VersionOf(f)
  }

  lemma VersionsOfNext(files: seq<SourceFile>, i: nat)
    requires i < |files|
    ensures VersionsOf(files[..i + 1]) == VersionsOf(files[..i]) + {VersionOf(files[i])}
  {
  }

  lemma TailHolds<T>(a: seq<T>, b: seq<T>, n: int, x: T)
    requires n >= 1 && |b| <= n && x in b
    ensures x in Tail(a + b, n)
  {
    var s := a + b;
    var cut := Max(|s| - n, 0);
    var i :| 0 <= i < |b| && b[i] == x;
    assert s[cut..][|a| + i - cut] == x;
  }

  /** A pending file among the newest `window` is among the newest `window` pending ones. */
  lemma RecentPendingIsPlanned(done: Versions, files: seq<SourceFile>, maxFiles: Option<int>, window: int, f: SourceFile)
    requires window >= 1 && (maxFiles.Some? ==> maxFiles.value >= window)
    requires f in Tail(files, window) && f in Pending(done, files)
    ensures f in Planned(done, files, maxFiles)
  {
    if maxFiles.Some? {
      var keep := (g: SourceFile) => IsPending(done, files, g);
      var recent := Tail(files, window);
      var older := files[..|files| - |recent|];
      assert older + recent == files;
      FilterAppend(older, recent, keep);
      FilterMembers(recent, keep);
      FilterMembers(files, keep);
      TailHolds(Filter(older, keep), Filter(recent, keep), maxFiles.value, f);
    }
  }

  lemma PlannedArePending(done: Versions, files: seq<SourceFile>, maxFiles: Option<int>, f: SourceFile)
    requires f in Planned(done, files, maxFiles)
    ensures f in files && f in Pending(done, files)
  {
    FilterMembers(files, (g: SourceFile) => IsPending(done, files, g));
  }

  /** Watcher convergence, exactly: over an unchanged listing, after a successful run that may
      take at least `window` files the watcher answers "nothing new" if and only if every
      watched file was already done or could be planned. */
  lemma WatcherConverges(done: Versions, files: seq<SourceFile>, maxFiles: Option<int>, window: int)
    requires window >= 1 && files != [] && (maxFiles.Some? ==> maxFiles.value >= window)
    ensures HasNewFile(DoneAfter(done, files, maxFiles), files, window) == NoneNew
      <==> forall f :: f in Tail(files, window) ==> VersionOf(f) in done || Plannable(files, f)
  {
    var done' := DoneAfter(done, files, maxFiles);
    AnswerExactly(done', files, window);
    forall f | f in Tail(files, window)
      ensures VersionOf(f) in done' <==> VersionOf(f) in done || Plannable(files, f)
    {
      PendingExactly(done, files, f);
      if f in Pending(done, files) {
        RecentPendingIsPlanned(done, files, maxFiles, window, f);
      } else if VersionOf(f) in done' && VersionOf(f) !in done {
        var g :| g in Planned(done, files, maxFiles) && VersionOf(g) == VersionOf(f);
        PlannedArePending(done, files, maxFiles, g);
        PendingExactly(done, files, g);
        assert false;
      }
    }
  }

  // ---- the backlog -------------------------------------------------------------------------

  ghost predicate DistinctVersions(files: seq<SourceFile>) {
    forall i, j :: 0 <= i < j < |files| ==> VersionOf(files[i]) != VersionOf(files[j])
  }

  ghost predicate AllTagged(files: seq<SourceFile>) {
    forall f :: f in files ==> f.etag.Some?
  }

  /** In a list without repetitions, filtering out the last elements leaves the others. */
  lemma CutTail<T>(s: seq<T>, n: nat, keep: T -> bool)
    requires n <= |s|
    requires forall x | x in s[..n] :: keep(x)
    requires forall x | x in s[n..] :: !keep(x)
    ensures Filter(s, keep) == s[..n]
  {
    assert s == s[..n] + s[n..];
    FilterAppend(s[..n], s[n..], keep);
    FilterAll(s[..n], keep);
    FilterNone(s[n..], keep);
  }

  lemma {:induction false} FilterKeepsDistinct(files: seq<SourceFile>, keep: SourceFile -> bool)
    requires DistinctVersions(files)
    ensures DistinctVersions(Filter(files, keep))
  {
    if files != [] {
      FilterKeepsDistinct(Init(files), keep);
      FilterMembers(Init(files), keep);
      forall f | f in Filter(Init(files), keep)
        ensures VersionOf(f) != VersionOf(Last(files))
      {
        assert f in Init(files);
      }
    }
  }

  /** Each successful run takes exactly the newest min(max_files, pending) files off the list. */
  lemma BacklogShrinks(done: Versions, files: seq<SourceFile>, maxFiles: int)
    requires maxFiles >= 1 && DistinctVersions(files) && AllTagged(files)
    ensures var pending := Pending(done, files);
      Pending(DoneAfter(done, files, Some(maxFiles)), files) == pending[..|pending| - Min(maxFiles, |pending|)]
  {
    var pending, done' := Pending(done, files), DoneAfter(done, files, Some(maxFiles));
    var n := |pending| - Min(maxFiles, |pending|);
    assert Planned(done, files, Some(maxFiles)) == pending[n..];
    var keep, keep' := (f: SourceFile) => IsPending(done, files, f), (f: SourceFile) => IsPending(done', files, f);
    var undone := (f: SourceFile) => VersionOf(f) !in done';
    forall f | f in files
      ensures keep'(f) <==> keep(f) && undone(f)
    {
      StillPending(done, done', files, f);
    }
    FilterTwice(files, keep, undone, keep');
    FilterKeepsDistinct(files, keep);
    forall f | f in pending[..n]
      ensures undone(f)
    {
      var i :| 0 <= i < n && pending[i] == f;
      PendingAreUndone(done, files, f);
      assert forall j :: n <= j < |pending| ==> VersionOf(pending[i]) != VersionOf(pending[j]);
    }
    CutTail(pending, n, undone);
  }

  lemma PendingAreUndone(done: Versions, files: seq<SourceFile>, f: SourceFile)
    requires f in Pending(done, files)
    ensures VersionOf(f) !in done
  {
    FilterMembers(files, (g: SourceFile) => IsPending(done, files, g));
    PendingExactly(done, files, f);
  }

  lemma StillPending(done: Versions, done': Versions, files: seq<SourceFile>, f: SourceFile)
    requires AllTagged(files) && done <= done' && f in files
    ensures IsPending(done', files, f) <==> IsPending(done, files, f) && VersionOf(f) !in done'
  {
  }

  function AfterRuns(done: Versions, files: seq<SourceFile>, maxFiles: int, runs: nat): Versions {
    if runs == 0 then done else DoneAfter(AfterRuns(done, files, maxFiles, runs - 1), files, Some(maxFiles))
  }

  /** After k successful runs max(0, pending - k * max_files) files are left. */
  lemma {:induction false} BacklogDrains(done: Versions, files: seq<SourceFile>, maxFiles: int, runs: nat)
    requires maxFiles >= 1 && DistinctVersions(files) && AllTagged(files)
    ensures |Pending(AfterRuns(done, files, maxFiles, runs), files)| == Max(0, |Pending(done, files)| - runs * maxFiles)
  {
    hide Pending;
    hide DoneAfter;
    if runs > 0 {
      var before := AfterRuns(done, files, maxFiles, runs - 1);
      BacklogDrains(done, files, maxFiles, runs - 1);
      BacklogShrinks(before, files, maxFiles);
      MulNext(runs - 1, maxFiles);
    }
  }

  function Times(a: nat, b: nat): nat { a * b }

  lemma DrainedBy(done: Versions, files: seq<SourceFile>, maxFiles: nat, runs: nat)
    requires maxFiles >= 1 && DistinctVersions(files) && AllTagged(files)
    ensures Pending(AfterRuns(done, files, maxFiles, runs), files) == [] <==> |Pending(done, files)| <= Times(runs, maxFiles)
  {
    BacklogDrains(done, files, maxFiles, runs);
    hide Pending;
    hide AfterRuns;
  }

  lemma TimesReach(n: nat, d: nat, k: nat)
    requires d >= 1
    ensures n <= Times(k, d) <==> k >= (n + d - 1) / d
  {
    CeilingDivision(n, d, k);
  }

  /** So ceil(pending / max_files) runs empty the backlog, and no fewer do. */
  lemma RunsToDrain(done: Versions, files: seq<SourceFile>, maxFiles: int, runs: nat)
    requires maxFiles >= 1 && DistinctVersions(files) && AllTagged(files)
    ensures Pending(AfterRuns(done, files, maxFiles, runs), files) == []
      <==> runs >= (|Pending(done, files)| + maxFiles - 1) / maxFiles
  {
    hide Times;
    hide Pending;
    hide AfterRuns;
    DrainedBy(done, files, maxFiles, runs);
    TimesReach(|Pending(done, files)|, maxFiles, runs);
  }

  /** max_files bounds the plan when it is at least one. Zero plans everything, and a negative value all
      but the oldest files: neither is a bound, except zero when nothing is pending. */
  lemma PlanIsBounded(done: Versions, files: seq<SourceFile>, maxFiles: int)
    ensures maxFiles >= 1 ==> Planned(done, files, Some(maxFiles)) == Newest(Pending(done, files), maxFiles)
    ensures |Planned(done, files, Some(maxFiles))| <= maxFiles <==> maxFiles >= 1 || (maxFiles == 0 && Pending(done, files) == [])
    ensures maxFiles < 0 ==> Planned(done, files, Some(maxFiles)) == Pending(done, files)[Min(-maxFiles, |Pending(done, files)|)..]
    ensures maxFiles == 0 ==> Planned(done, files, Some(maxFiles)) == Pending(done, files)
  {
  }
}
