/** States that histories from empty tables do reach: merged rows that overwrite each other, and a
    duplicate inserted beside the job it duplicates. */
module Reachable {
  import opened Prelude
  import opened Schema
  import opened LoadSpec
  import opened LoadEffects
  import opened History
  import opened Origins
  import opened Text
  import P = Preparation

  const NO_TARGETS: map<string, Target> := map[]

  lemma NewRowsAre(t: Tables, rows: seq<PreparedJob>)
    requires forall r :: r in rows ==> !Known(t, r)
    ensures NewRows(t, rows) == rows
  {
    FilterAll(rows, (r: PreparedJob) => !Known(t, r));
  }

  /** One job, introduced by one row. */
  ghost predicate Single(t: Tables, r: PreparedJob) {
    && Valid(t) && t.nextId == 1 && t.jobs.Keys == {0} && t.jobs[0].columns == ColumnsOf(r)
    && t.sources.Keys == {KeyOf(r)} && t.sources[KeyOf(r)].jobId == 0
  }

  lemma FreshRowsAre(t: Tables, rows: seq<PreparedJob>, targets: map<string, Target>)
    requires forall r :: r in rows ==> !Known(t, r) && r.externalId !in targets
    ensures FreshRows(t, rows, targets) == rows
  {
    FilterAll(rows, (r: PreparedJob) => !Known(t, r) && r.externalId !in targets);
  }

  lemma NoTargetsFit(r: PreparedJob)
    ensures ValidTargets(EMPTY, [r], NO_TARGETS) && LoadableBatch([r])
  {
    assert forall id :: !UrlMatch(EMPTY, r, id) && !FingerprintMatch(EMPTY, r, id);
    forall i | 0 <= i < 1
      ensures TargetFits(EMPTY, [r], NO_TARGETS, i)
    {
      assert [r][i] == r;
    }
  }

  lemma NothingStored(r: PreparedJob)
    ensures NewRows(EMPTY, [r]) == [r] && FreshRows(EMPTY, [r], NO_TARGETS) == [r]
    ensures ValidTargets(EMPTY, [r], NO_TARGETS) && LoadableBatch([r]) && Valid(EMPTY)
  {
    NoTargetsFit(r);
    hide ValidTargets;
    hide LoadableBatch;
    NewRowsAre(EMPTY, [r]);
    FreshRowsAre(EMPTY, [r], NO_TARGETS);
  }

  lemma FirstLoad(r: PreparedJob, cx: Context) returns (t: Tables)
    ensures Next(EMPTY, LoadBatch([r], NO_TARGETS, cx), t) && Single(t, r)
  {
    t := Loaded(EMPTY, [r], NO_TARGETS, cx);
    NothingStored(r);
    hide Loaded;
    hide ValidTargets;
    hide NewRows;
    hide FreshRows;
    hide LoadableBatch;
    LoadHasEffect(EMPTY, [r], NO_TARGETS, cx);
    EffectKeepsValid(EMPTY, [r], [r], NO_TARGETS, cx, t);
    OneInserted(r, cx, t);
  }

  lemma OneInserted(r: PreparedJob, cx: Context, t: Tables)
    requires Valid(EMPTY) && Valid(t) && Effect(EMPTY, [r], [r], NO_TARGETS, cx, t)
    ensures Single(t, r)
  {
    assert Keys([r]) == {KeyOf(r)};
    assert [r][0] == r;
    assert CreatedFrom(t.jobs[EMPTY.nextId + 0], [r][0], cx);
    assert Bound(t.sources, KeyOf([r][0]), Provenance(EMPTY.nextId + 0, true, L1SourceId, cx.now, cx.now));
    hide InsertsOf;
    hide OldJobsAfter;
  }

  /** Two rows with one URL and nothing else in common. */
  ghost predicate SameUrl(r: PreparedJob, other: PreparedJob) {
    && KeyOf(r) != KeyOf(other) && r.columns.applyUrlHash.Some? && r.columns.applyUrlHash == other.columns.applyUrlHash
    && r.columns.contentHash != other.columns.contentHash
  }

  /** One job, two rows bound to it. */
  ghost predicate Double(t: Tables, r: PreparedJob, other: PreparedJob) {
    && Valid(t) && Known(t, r) && Known(t, other) && JobIdOf(t, r) == 0 && JobIdOf(t, other) == 0
    && 0 in t.jobs
  }

  /** The second row's URL is stored by the one job there is. */
  lemma UrlIsStored(t: Tables, r: PreparedJob, other: PreparedJob)
    requires Single(t, r) && SameUrl(r, other)
    ensures var targets := map[other.externalId := Target(0, L2ApplyUrl)];
      && NewRows(t, [other]) == [other] && ValidTargets(t, [other], targets) && LoadableBatch([other])
      && FreshRows(t, [other], targets) == []
  {
    NewRowsAre(t, [other]);
    assert UrlMatch(t, other, 0);
    assert [other][0] in [other] && UrlHit(t, [other], 0);
    FilterNone([other], (x: PreparedJob) => !Known(t, x) && x.externalId !in map[other.externalId := Target(0, L2ApplyUrl)]);
  }

  lemma SecondLoad(t: Tables, r: PreparedJob, other: PreparedJob, cx: Context) returns (targets: map<string, Target>, t': Tables)
    requires Single(t, r) && SameUrl(r, other)
    ensures Next(t, LoadBatch([other], targets, cx), t') && Double(t', r, other)
    ensures t'.jobs[0].columns == ColumnsOf(r) && t'.sources[KeyOf(other)].matchedBy == L2ApplyUrl
  {
    targets := map[other.externalId := Target(0, L2ApplyUrl)];
    t' := Loaded(t, [other], targets, cx);
    UrlIsStored(t, r, other);
    hide Loaded;
    hide ValidTargets;
    hide NewRows;
    hide FreshRows;
    hide LoadableBatch;
    LoadHasEffect(t, [other], targets, cx);
    EffectKeepsValid(t, [other], [], targets, cx, t');
    OneMerged(t, r, other, targets, cx, t');
  }

  lemma OneMerged(t: Tables, r: PreparedJob, other: PreparedJob, targets: map<string, Target>, cx: Context, t': Tables)
    requires Single(t, r) && SameUrl(r, other) && Valid(t') && Effect(t, [other], [], targets, cx, t')
    requires targets == map[other.externalId := Target(0, L2ApplyUrl)]
    ensures Double(t', r, other)
    ensures t'.jobs[0].columns == ColumnsOf(r) && t'.sources[KeyOf(other)].matchedBy == L2ApplyUrl
  {
    assert [other][0] in [other] && !Known(t, other);
    assert SameBinding(t.sources[KeyOf(r)], t'.sources[KeyOf(r)]);
    assert Bound(t'.sources, KeyOf(other), MergedRow(other, targets, cx));
    assert JobAfter(t, [other], 0, t.jobs[0], t'.jobs[0]);
    assert forall x :: !RewrittenBy(t, [other], 0, x);
    hide InsertsOf;
    hide NewJobsAfter;
  }

  lemma NothingNewHere(t: Tables, x: PreparedJob)
    requires Known(t, x)
    ensures NewRows(t, [x]) == [] && ValidTargets(t, [], NO_TARGETS) && LoadableBatch([x])
  {
    FilterNone([x], (y: PreparedJob) => !Known(t, y));
  }

  lemma ReplayIsStep(t: Tables, x: PreparedJob, cx: Context)
    requires Valid(t) && Known(t, x)
    ensures Next(t, LoadBatch([x], NO_TARGETS, cx), Loaded(t, [x], NO_TARGETS, cx))
  {
    NothingNewHere(t, x);
    hide Loaded;
    hide ValidTargets;
    hide NewRows;
    hide LoadableBatch;
  }

  lemma ReplayBinds(t: Tables, r: PreparedJob, other: PreparedJob, x: PreparedJob, cx: Context)
    requires Double(t, r, other) && Known(t, x) && JobIdOf(t, x) == 0
    ensures Double(Loaded(t, [x], NO_TARGETS, cx), r, other)
  {
    hide Loaded;
    hide Valid;
    LoadOneBinds(t, x, NO_TARGETS, cx);
    LoadDomain(t, [x], NO_TARGETS, cx);
    assert KeyOf(r) in t.sources && KeyOf(other) in t.sources;
  }

  lemma Replay(t: Tables, r: PreparedJob, other: PreparedJob, x: PreparedJob, cx: Context) returns (t': Tables)
    requires Double(t, r, other) && (x == r || x == other)
    ensures Next(t, LoadBatch([x], NO_TARGETS, cx), t') && Double(t', r, other)
    ensures t'.jobs[0].columns.contentHash == x.columns.contentHash
    ensures t.jobs[0].columns.contentHash != x.columns.contentHash ==> t'.jobs[0].columns == ColumnsOf(x)
  {
    t' := Loaded(t, [x], NO_TARGETS, cx);
    hide Loaded;
    hide Next;
    hide ColumnsOf;
    hide Valid;
    ReplayIsStep(t, x, cx);
    ReplayBinds(t, r, other, x, cx);
    LoadOneWrites(t, x, NO_TARGETS, cx);
  }

  lemma FourSteps(t1: Tables, t2: Tables, t3: Tables, t4: Tables, s1: Step, s2: Step, s3: Step, s4: Step)
    requires Next(EMPTY, s1, t1) && Next(t1, s2, t2) && Next(t2, s3, t3) && Next(t3, s4, t4)
    ensures Run([EMPTY, t1, t2, t3, t4], [s1, s2, s3, s4])
  {
    hide Next;
    var trace, steps := [EMPTY, t1, t2, t3, t4], [s1, s2, s3, s4];
    forall i | 0 <= i < 4
      ensures Next(trace[i], steps[i], trace[i + 1])
    {
      assert i == 0 || i == 1 || i == 2 || i == 3;
    }
  }

  /** The row's batch and what a later state makes of it. */
  ghost predicate Loads(step: Step, r: PreparedJob) {
    step.LoadBatch? && step.rows == [r]
  }

  /** From empty tables, two postings with one URL reach a job they then overwrite in turn, for as long
      as both are replayed: after the second row was merged into the first one's job, replaying it
      writes its columns there, and replaying the first writes the first's again. */
  lemma FlipFlopIsReachable(r: PreparedJob, other: PreparedJob, cx: Context)
    returns (t1: Tables, t2: Tables, t3: Tables, t4: Tables, steps: seq<Step>)
    requires SameUrl(r, other)
    ensures Run([EMPTY, t1, t2, t3, t4], steps) && |steps| == 4
    ensures Loads(steps[0], r) && Loads(steps[1], other) && Loads(steps[2], other) && Loads(steps[3], r)
    ensures Double(t2, r, other) && Double(t3, r, other) && Double(t4, r, other)
    ensures t2.sources[KeyOf(other)].matchedBy == L2ApplyUrl
    ensures t2.jobs[0].columns == ColumnsOf(r) && t3.jobs[0].columns == ColumnsOf(other) && t4.jobs[0].columns == ColumnsOf(r)
  {
    assert ColumnsOf(r).contentHash == r.columns.contentHash;
    hide ColumnsOf;
    hide Next;
    t1 := FirstLoad(r, cx);
    var targets;
    targets, t2 := SecondLoad(t1, r, other, cx);
    t3 := Replay(t2, r, other, other, cx);
    t4 := Replay(t3, r, other, r, cx);
    steps := [LoadBatch([r], NO_TARGETS, cx), LoadBatch([other], targets, cx), LoadBatch([other], NO_TARGETS, cx), LoadBatch([r], NO_TARGETS, cx)];
    FourSteps(t1, t2, t3, t4, steps[0], steps[1], steps[2], steps[3]);
  }

  // ---- a duplicate beside its job ----------------------------------------------------------------

  /** Two more rows with the stored row's URL, of one source, and fingerprints of their own. */
  ghost predicate Twins(r: PreparedJob, a: PreparedJob, b: PreparedJob) {
    && r.columns.applyUrlHash.Some? && a.columns.applyUrlHash == r.columns.applyUrlHash == b.columns.applyUrlHash
    && a.source == b.source && a.externalId != b.externalId && KeyOf(a) != KeyOf(r) && KeyOf(b) != KeyOf(r)
    && a.columns.fingerprint != r.columns.fingerprint
  }

  lemma TwinTargets(t: Tables, r: PreparedJob, a: PreparedJob, b: PreparedJob)
    requires Single(t, r) && Twins(r, a, b)
    ensures NewRows(t, [a, b]) == [a, b] && LoadableBatch([a, b])
    ensures ValidTargets(t, [a, b], map[b.externalId := Target(0, L2ApplyUrl)])
    ensures !UrlHit(t, [a, b], 0) && !FingerprintHit(t, [a, b], 0) && UrlHit(t, [a, b], 1)
    ensures UrlMatch(t, a, 0)
  {
    var rows := [a, b];
    NewRowsAre(t, rows);
    assert UrlMatch(t, b, 0) && rows[0] == a && rows[1] == b;
    assert !UrlHit(t, rows, 0) && UrlHit(t, rows, 1);
    assert forall id :: !FingerprintMatch(t, a, id);
  }

  /** From empty tables: the earlier of two postings with a stored URL becomes a second job with that
      URL, the later is merged into the first. */
  lemma DuplicateIsReachable(r: PreparedJob, a: PreparedJob, b: PreparedJob, cx: Context)
    returns (t1: Tables, targets: map<string, Target>, t2: Tables)
    requires Twins(r, a, b)
    ensures Next(EMPTY, LoadBatch([r], NO_TARGETS, cx), t1) && Next(t1, LoadBatch([a, b], targets, cx), t2)
    ensures UrlMatch(t1, a, 0)
    ensures KeyOf(a) in t2.sources && t2.sources[KeyOf(a)].isPrimary
    ensures KeyOf(b) in t2.sources && t2.sources[KeyOf(b)].matchedBy == L2ApplyUrl
  {
    t1 := FirstLoad(r, cx);
    targets := map[b.externalId := Target(0, L2ApplyUrl)];
    t2 := Loaded(t1, [a, b], targets, cx);
    TwinTargets(t1, r, a, b);
    hide Loaded;
    hide NewRows;
    hide ValidTargets;
    hide UrlHit;
    hide FingerprintHit;
    hide LoadableBatch;
    MergeExactly(t1, [a, b], targets, cx, 0);
    MergeExactly(t1, [a, b], targets, cx, 1);
    assert [a, b][0] == a && [a, b][1] == b;
  }

  // ---- a record that aborts its batch --------------------------------------------------------------

  /** The tables find letters in Ukrainian text. */
  ghost predicate ReadsUkrainian(u: Unicode) {
    && u.upper(u.strip("грн")) == "ГРН"
    && u.isLetter('Г') && u.isLetter('Р') && u.isLetter('Н')
  }

  /** The columns of an ordinary American job. */
  function PlainColumns(): Columns {
    Columns("Nurse", "nurse", None, Some("US"), Some("NY"), Some("New York"), "ONSITE", "FULL_TIME", None, None, None,
            None, false, None, None, None, Active, None, None, 0, 0, "healthcare", "MID")
  }

  /** A posting paid in hryvnias. */
  function HryvniaRecord(): P.SourceRecord {
    P.SourceRecord("1", true, [], None, None, None, Some(100.0), Some(200.0), Some("грн"),
                   PreparedJob("feed", "1", PlainColumns(), None, None, None, None))
  }

  /** A country allowlist, the two-week age gate and its fallback. */
  function UsualSettings(u: Unicode): P.Settings {
    P.Settings({"US"}, {}, {}, 14, true, 24, 0, 5000, u)
  }

  /** In empty tables no choice of merge targets spares a row the insert. */
  lemma AlwaysInserted(r: PreparedJob, targets: map<string, Target>)
    requires ValidTargets(EMPTY, [r], targets)
    ensures r in FreshRows(EMPTY, [r], targets)
  {
    assert [r][0] == r && TargetFits(EMPTY, [r], targets, 0);
    assert !UrlHit(EMPTY, [r], 0) && !FingerprintHit(EMPTY, [r], 0);
  }

  lemma HryvniaIsKept(u: Unicode, clock: P.Clock)
    requires clock.Ordered()
    ensures P.Prepare(UsualSettings(u), HryvniaRecord(), clock).row.Some?
    ensures P.Prepare(UsualSettings(u), HryvniaRecord(), clock).row.value.externalId == "1"
  {
  }

  /** With usual settings, whatever the clock, the hryvnia posting passes every stage; its batch is one
      the loader takes, and with every choice of merge targets the transaction is refused. */
  lemma HryvniaIsReachable(u: Unicode, clock: P.Clock) returns (r: PreparedJob)
    requires ReadsUkrainian(u) && clock.Ordered()
    ensures P.WellFormed(HryvniaRecord(), "feed") && P.Prepare(UsualSettings(u), HryvniaRecord(), clock).row == Some(r)
    ensures Valid(EMPTY) && LoadableBatch([r]) && NewRows(EMPTY, [r]) == [r] && ValidTargets(EMPTY, [r], NO_TARGETS)
    ensures forall targets :: ValidTargets(EMPTY, [r], targets) ==> !Acceptable(EMPTY, [r], targets)
  {
    HryvniaIsKept(u, clock);
    r := P.Prepare(UsualSettings(u), HryvniaRecord(), clock).row.value;
    NothingStored(r);
    hide ValidTargets;
    hide LoadableBatch;
    hide NewRows;
    hide Acceptable;
    hide FreshRows;
    hide P.Prepare;
    forall targets | ValidTargets(EMPTY, [r], targets)
      ensures !Acceptable(EMPTY, [r], targets)
    {
      AlwaysInserted(r, targets);
      P.HryvniaAbortsBatch(UsualSettings(u), HryvniaRecord(), clock, EMPTY, [r], targets);
    }
  }
}
