/** Where the keys of a stored job come from, and so what a merge joins; what the content hash
    keeps a load from writing. */
module Origins {
  import opened Prelude
  import opened Schema
  import opened LoadSpec
  import opened LoadEffects
  import opened History
  import Dedupe
  import Preparation
  import Retention

  /** The stored keys are the ones this row brought. */
  ghost predicate KeysFrom(j: Job, r: PreparedJob) {
    && j.columns.fingerprint == r.columns.fingerprint && j.columns.applyUrlHash == r.columns.applyUrlHash
    && j.columns.contentHash == r.columns.contentHash
  }

  lemma LoadKeepsOrigins(t: Tables, step: Step, t': Tables, id: JobId) returns (r: Option<PreparedJob>)
    requires Next(t, step, t') && step.LoadBatch? && id in t'.jobs
    ensures r.Some? ==> r.value in step.rows && KeysFrom(t'.jobs[id], r.value)
    ensures r.None? ==> id in t.jobs && t'.jobs[id].columns == t.jobs[id].columns
  {
    hide Loaded;
    hide ValidTargets;
    var rows, targets, cx := step.rows, step.targets, step.cx;
    assert t' == Loaded(t, rows, targets, cx) && LoadableBatch(rows);
    hide Next;
    hide LoadableBatch;
    if id in t.jobs {
      LoadOldJob(t, rows, targets, cx, id);
      if r' :| RewrittenBy(t, rows, id, r') {
        var w :| RewrittenBy(t, rows, id, w) && t'.jobs[id].columns == ColumnsOf(w);
        return Some(w);
      }
      return None;
    } else {
      LoadDomain(t, rows, targets, cx);
      LoadNewJob(t, rows, targets, cx, id - t.nextId);
      return Some(FreshRows(t, rows, targets)[id - t.nextId]);
    }
  }

  /** One step: the keys come from a row it loads, or were there before. */
  lemma StepKeepsOrigins(t: Tables, step: Step, t': Tables, id: JobId) returns (r: Option<PreparedJob>)
    requires Next(t, step, t') && id in t'.jobs
    ensures r.Some? ==> step.LoadBatch? && r.value in step.rows && KeysFrom(t'.jobs[id], r.value)
    ensures r.None? ==> id in t.jobs && forall x :: KeysFrom(t.jobs[id], x) ==> KeysFrom(t'.jobs[id], x)
  {
    r := None;
    if step.LoadBatch? {
      r := LoadKeepsOrigins(t, step, t', id);
    }
  }

  /** Every stored job carries the keys of a row an earlier step loaded. */
  lemma {:induction false} KeysHaveOrigin(trace: seq<Tables>, steps: seq<Step>, j: nat, id: JobId)
    returns (i: nat, r: PreparedJob)
    requires Run(trace, steps) && trace[0].jobs == map[] && j < |trace| && id in trace[j].jobs
    ensures i < j && steps[i].LoadBatch? && r in steps[i].rows && KeysFrom(trace[j].jobs[id], r)
  {
    hide Next;
    hide KeysFrom;
    assert Next(trace[j - 1], steps[j - 1], trace[j]);
    var found := StepKeepsOrigins(trace[j - 1], steps[j - 1], trace[j], id);
    if found.Some? {
      i, r := j - 1, found.value;
    } else {
      i, r := KeysHaveOrigin(trace, steps, j - 1, id);
    }
  }

  /** The dedupe service computed the keys of a row from its posting. */
  ghost predicate Keyed(r: PreparedJob, p: Dedupe.Posting, d: Dedupe.Digests) {
    && Dedupe.CleanCodes(p) && r.columns.fingerprint == Dedupe.Fingerprint(p, d)
    && r.columns.applyUrlHash == if p.canonicalUrl.None? then None else Some(d.sha(p.canonicalUrl.value))
  }

  ghost predicate AllKeyed(steps: seq<Step>, posting: PreparedJob -> Dedupe.Posting, d: Dedupe.Digests) {
    forall i, r :: 0 <= i < |steps| && steps[i].LoadBatch? && r in steps[i].rows ==> Keyed(r, posting(r), d)
  }

  /** A row a step binds as no primary one was attached by a key its job had stored. */
  lemma StepMergesSoundly(t: Tables, step: Step, t': Tables, r: PreparedJob)
    requires step.LoadBatch? && Next(t, step, t') && r in step.rows && !Known(t, r)
    requires KeyOf(r) in t'.sources && !t'.sources[KeyOf(r)].isPrimary
    ensures var p := t'.sources[KeyOf(r)];
      && p.jobId in t.jobs
      && ((p.matchedBy == L2ApplyUrl && UrlMatch(t, r, p.jobId)) || (p.matchedBy == L4ContentFingerprint && FingerprintMatch(t, r, p.jobId)))
  {
    LoadHasEffect(t, step.rows, step.targets, step.cx);
    hide Loaded;
    hide NewJobsAfter;
    hide OldJobsAfter;
    hide KeysAfter;
    hide ValidTargets;
    MergeSound(t, step.rows, FreshRows(t, step.rows, step.targets), step.targets, step.cx, t', r);
    hide BindingsAfter;
    hide InsertsOf;
  }

  /** Equal stored keys are keys of equal postings. */
  lemma SameKeysSamePosting(t: Tables, r: PreparedJob, origin: PreparedJob, p: Provenance, q: Dedupe.Posting, q': Dedupe.Posting,
                            d: Dedupe.Digests)
    requires Dedupe.Injective(d.sha) && Keyed(r, q, d) && Keyed(origin, q', d)
    requires p.jobId in t.jobs && KeysFrom(t.jobs[p.jobId], origin)
    ensures p.matchedBy == L4ContentFingerprint && FingerprintMatch(t, r, p.jobId) ==>
      && Dedupe.CompanyKey(q) == Dedupe.CompanyKey(q') && Dedupe.TitleKey(q) == Dedupe.TitleKey(q')
      && q.countryCode.GetOr("") == q'.countryCode.GetOr("") && q.stateCode.GetOr("") == q'.stateCode.GetOr("")
      && Dedupe.NormalizeKey(q.city.GetOr("")) == Dedupe.NormalizeKey(q'.city.GetOr(""))
      && Dedupe.DigestText(q.description, d) == Dedupe.DigestText(q'.description, d)
    ensures p.matchedBy == L2ApplyUrl && UrlMatch(t, r, p.jobId) ==> q.canonicalUrl.Some? && q.canonicalUrl == q'.canonicalUrl
  {
    Dedupe.FingerprintMeaning(q, q', d);
    hide Dedupe.CompanyKey;
    hide Dedupe.TitleKey;
    hide Dedupe.NormalizeKey;
    hide Dedupe.DigestText;
    hide Dedupe.Fingerprint;
    hide Dedupe.CleanCodes;
  }

  /** What a merge means, over every history that starts empty: a row attached by its fingerprint
      joins a job one of whose rows was a posting with the same company, title, place and
      description digest; a row attached by its URL, one with the same canonical address. */
  lemma MergeJoinsEquals(trace: seq<Tables>, steps: seq<Step>, j: nat, r: PreparedJob,
                         posting: PreparedJob -> Dedupe.Posting, d: Dedupe.Digests)
    returns (i: nat, origin: PreparedJob)
    requires Run(trace, steps) && trace[0].jobs == map[] && j < |steps| && steps[j].LoadBatch?
    requires Dedupe.Injective(d.sha) && AllKeyed(steps, posting, d)
    requires r in steps[j].rows && !Known(trace[j], r)
    requires KeyOf(r) in trace[j + 1].sources && !trace[j + 1].sources[KeyOf(r)].isPrimary
    ensures i < j && steps[i].LoadBatch? && origin in steps[i].rows
    ensures var p := trace[j + 1].sources[KeyOf(r)];
      && p.jobId in trace[j].jobs && KeysFrom(trace[j].jobs[p.jobId], origin)
      && (p.matchedBy == L4ContentFingerprint || p.matchedBy == L2ApplyUrl)
      && var q, q' := posting(r), posting(origin);
         && (p.matchedBy == L2ApplyUrl ==> q.canonicalUrl.Some? && q.canonicalUrl == q'.canonicalUrl)
         && (p.matchedBy == L4ContentFingerprint ==>
               && Dedupe.CompanyKey(q) == Dedupe.CompanyKey(q') && Dedupe.TitleKey(q) == Dedupe.TitleKey(q')
               && q.countryCode.GetOr("") == q'.countryCode.GetOr("") && q.stateCode.GetOr("") == q'.stateCode.GetOr("")
               && Dedupe.NormalizeKey(q.city.GetOr("")) == Dedupe.NormalizeKey(q'.city.GetOr(""))
               && Dedupe.DigestText(q.description, d) == Dedupe.DigestText(q'.description, d))
  {
    assert Next(trace[j], steps[j], trace[j + 1]);
    StepMergesSoundly(trace[j], steps[j], trace[j + 1], r);
    hide Next;
    hide UrlMatch;
    hide FingerprintMatch;
    var p := trace[j + 1].sources[KeyOf(r)];
    i, origin := KeysHaveOrigin(trace, steps, j, p.jobId);
    hide Run;
    assert Keyed(r, posting(r), d) && Keyed(origin, posting(origin), d);
    hide AllKeyed;
    SameKeysSamePosting(trace[j], r, origin, p, posting(r), posting(origin), d);
  }

  // ---- what an equal content hash hides ----------------------------------------------------------

  /** The rows of the batch bound to the job all have the content hash the job has. */
  ghost predicate AllAlike(t: Tables, rows: seq<PreparedJob>, id: JobId)
    requires Valid(t)
  {
    forall r :: r in rows && Known(t, r) && JobIdOf(t, r) == id ==> SameContent(t, r)
  }

  /** A load leaves a job's columns alone if and only if that is so: a row that only brings another
      status or other dates changes neither, and one with another hash changes all. */
  lemma EqualHashFreezes(t: Tables, rows: seq<PreparedJob>, targets: map<string, Target>, cx: Context, id: JobId)
    requires Valid(t) && LoadableBatch(rows) && id in t.jobs
    ensures id in Loaded(t, rows, targets, cx).jobs
    ensures Loaded(t, rows, targets, cx).jobs[id].columns == t.jobs[id].columns <==> AllAlike(t, rows, id)
    ensures AllAlike(t, rows, id) ==> Loaded(t, rows, targets, cx).jobs[id].lastUpdatedAt == t.jobs[id].lastUpdatedAt
  {
    LoadOldJob(t, rows, targets, cx, id);
    hide Loaded;
    JobDecides(t, rows, id, t.jobs[id], Loaded(t, rows, targets, cx).jobs[id]);
    hide JobAfter;
    hide AllAlike;
  }

  lemma JobDecides(t: Tables, rows: seq<PreparedJob>, id: JobId, j: Job, j': Job)
    requires Valid(t) && id in t.jobs && j == t.jobs[id] && JobAfter(t, rows, id, j, j')
    ensures j'.columns == j.columns <==> AllAlike(t, rows, id)
    ensures AllAlike(t, rows, id) ==> j'.lastUpdatedAt == j.lastUpdatedAt
  {
    if AllAlike(t, rows, id) {
      assert forall r :: !RewrittenBy(t, rows, id, r);
    } else {
      var r :| r in rows && Known(t, r) && JobIdOf(t, r) == id && !SameContent(t, r);
      assert RewrittenBy(t, rows, id, r);
    }
  }

  /** The only row bound to a job writes the job's columns exactly when its hash is another. */
  lemma LoneRowDecides(t: Tables, rows: seq<PreparedJob>, targets: map<string, Target>, cx: Context, r: PreparedJob)
    requires Valid(t) && LoadableBatch(rows) && r in rows && Known(t, r)
    requires forall x :: x in rows && Known(t, x) && JobIdOf(t, x) == JobIdOf(t, r) ==> x == r
    ensures JobIdOf(t, r) in Loaded(t, rows, targets, cx).jobs
    ensures Loaded(t, rows, targets, cx).jobs[JobIdOf(t, r)].columns ==
      if SameContent(t, r) then t.jobs[JobIdOf(t, r)].columns else ColumnsOf(r)
  {
    var id := JobIdOf(t, r);
    LoadOldJob(t, rows, targets, cx, id);
    hide Loaded;
    if SameContent(t, r) {
      assert forall x :: !RewrittenBy(t, rows, id, x);
    } else {
      assert RewrittenBy(t, rows, id, r);
    }
  }

  lemma KnownKeysStay(t: Tables, r: PreparedJob, targets: map<string, Target>, cx: Context)
    requires Valid(t) && Known(t, r)
    ensures var t' := Loaded(t, [r], targets, cx);
      && t'.sources.Keys == t.sources.Keys
      && forall k :: k in t.sources ==> k in t'.sources && t'.sources[k].jobId == t.sources[k].jobId
  {
    LoadBindings(t, [r], targets, cx);
    var t' := Loaded(t, [r], targets, cx);
    hide Loaded;
    assert Keys([r]) <= t.sources.Keys;
    assert forall k :: k in t.sources ==> SameBinding(t.sources[k], t'.sources[k]);
  }

  lemma LoadOneBinds(t: Tables, r: PreparedJob, targets: map<string, Target>, cx: Context)
    requires Valid(t) && Known(t, r)
    ensures var t' := Loaded(t, [r], targets, cx);
      Valid(t') && forall k :: k in t.sources ==> k in t'.sources && t'.sources[k].jobId == t.sources[k].jobId
  {
    KnownKeysStay(t, r, targets, cx);
    LoadDomain(t, [r], targets, cx);
    hide Loaded;
  }

  /** After a batch of one known row the job has its hash. */
  lemma LoadOneWrites(t: Tables, r: PreparedJob, targets: map<string, Target>, cx: Context)
    requires Valid(t) && Known(t, r)
    ensures var t', id := Loaded(t, [r], targets, cx), JobIdOf(t, r);
      && id in t'.jobs && t'.jobs[id].columns.contentHash == r.columns.contentHash
      && t'.jobs[id].columns == if SameContent(t, r) then t.jobs[id].columns else ColumnsOf(r)
  {
    assert [r][0] == r;
    LoneRowDecides(t, [r], targets, cx, r);
  }

  /** Two rows bound to one job settle if and only if their hashes agree: however the job stands, when
      they differ, loading the one and then the other writes the other's columns over the job and
      reports it as updated. No binding moves. */
  lemma MergedRowsFlipFlop(t: Tables, r: PreparedJob, other: PreparedJob, targets: map<string, Target>, cx: Context,
                           targets': map<string, Target>, cx': Context)
    requires Valid(t) && Known(t, r) && Known(t, other) && JobIdOf(t, r) == JobIdOf(t, other)
    ensures var id, t1 := JobIdOf(t, r), Loaded(t, [r], targets, cx);
      && Valid(t1) && Known(t1, other) && JobIdOf(t1, other) == id && id in t1.jobs
      && id in Loaded(t1, [other], targets', cx').jobs
      && var t2 := Loaded(t1, [other], targets', cx');
         && (t2.jobs[id].columns == t1.jobs[id].columns <==> r.columns.contentHash == other.columns.contentHash)
         && (r.columns.contentHash != other.columns.contentHash ==>
               ResultOf(t1, [other], targets').updated == 1 && t2.jobs[id].columns == ColumnsOf(other))
  {
    LoadOneBinds(t, r, targets, cx);
    LoadOneWrites(t, r, targets, cx);
    var t1 := Loaded(t, [r], targets, cx);
    hide Loaded;
    LoadOneWrites(t1, other, targets', cx');
    if r.columns.contentHash != other.columns.contentHash {
      assert IsChanged(t1, other);
      OneChanged(t1, other);
    }
  }

  lemma OneChanged(t: Tables, r: PreparedJob)
    requires Valid(t) && IsChanged(t, r)
    ensures |ChangedRows(t, [r])| == 1
  {
    var keep := (x: PreparedJob) => IsChanged(t, x);
    FilterAll([r], keep);
    assert Init([r]) == [];
  }

  lemma GatedSurvives(s: Preparation.Settings, rec: Preparation.SourceRecord, clock: Preparation.Clock, row: PreparedJob,
                      cx: Context, j: Job)
    requires clock.Ordered() && clock.fallbackAt <= cx.now && s.maxAgeDays > 0 && s.fallbackToFirstSeen
    requires Preparation.Prepare(s, rec, clock).row == Some(row) && CreatedFrom(j, row, cx)
    ensures !Retention.OutOfWindow(j, clock.cutoffAt - s.maxAgeDays * DAY)
  {
    Preparation.GateAgreesWithRetention(s, rec, clock, cx, row);
  }

  /** The gate and retention agree end to end: a job just inserted through the age gate, with equal
      windows and the fallback on, is not one retention would remove at the same instant. */
  lemma GatedJobSurvives(s: Preparation.Settings, rec: Preparation.SourceRecord, clock: Preparation.Clock,
                         t: Tables, rows: seq<PreparedJob>, targets: map<string, Target>, cx: Context, i: nat)
    requires clock.Ordered() && clock.fallbackAt <= cx.now && s.maxAgeDays > 0 && s.fallbackToFirstSeen
    requires Valid(t) && LoadableBatch(rows) && i < |FreshRows(t, rows, targets)|
    requires Preparation.Prepare(s, rec, clock).row == Some(FreshRows(t, rows, targets)[i])
    ensures var t', cutoff := Loaded(t, rows, targets, cx), clock.cutoffAt - s.maxAgeDays * DAY;
      t.nextId + i in t'.jobs && t.nextId + i !in Retention.OldJobs(t', cutoff)
  {
    hide Loaded;
    hide FreshRows;
    hide Preparation.Prepare;
    hide CreatedFrom;
    hide Retention.OutOfWindow;
    hide LoadableBatch;
    hide Valid;
    LoadNewJob(t, rows, targets, cx, i);
    GatedSurvives(s, rec, clock, FreshRows(t, rows, targets)[i], cx, Loaded(t, rows, targets, cx).jobs[t.nextId + i]);
  }
}
