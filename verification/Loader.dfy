/** JobLoader: the write path into the job tables, one transaction a batch. */
module Loader {
  import opened Prelude
  import opened Schema
  import opened LoadSpec

  /** A row the transaction has already found in job_sources, joined with its job. */
  datatype Existing = Existing(jobId: JobId, contentHash: Hash, status: JobStatus)

  class JobLoader {
    var jobs: map<JobId, Job>
    var sources: map<SourceKey, Provenance>
    var events: seq<Event>
    var nextId: JobId

    constructor ()
      ensures State() == EMPTY
    {
      jobs, sources, events, nextId := map[], map[], [], 0;
    }

    function State(): Tables
      reads this
    {
      Tables(jobs, sources, events, nextId)
    }

    /** Dedupe levels two and four: the stored jobs that these new source rows describe.
        The canonical apply URL is tried first; the fingerprint only for rows it left. */
    method FindMergeTargets(rows: seq<PreparedJob>) returns (targets: map<string, Target>)
      requires DistinctIds(rows)
      ensures ValidTargets(State(), rows, targets)
    {
      var storedUrls := map id | id in jobs :: jobs[id].columns.applyUrlHash;
      var urls := seq(|rows|, i requires 0 <= i < |rows| => rows[i].columns.applyUrlHash);
      var byUrl := MatchLast(urls, storedUrls);
      var storedPrints := map id | id in jobs :: Some(jobs[id].columns.fingerprint);
      var prints := seq(|rows|, i requires 0 <= i < |rows| =>
                          if byUrl[i].Some? then None else Some(rows[i].columns.fingerprint));
      var byPrint := MatchLast(prints, storedPrints);
      ghost var t := State();
      UrlHits(t, rows, urls, storedUrls, byUrl);
      FingerprintHits(t, rows, prints, storedPrints, byUrl, byPrint);
      targets := BuildTargets(t, rows, byUrl, byPrint);
    }

    /** Write a batch atomically: either every row is applied, or a constraint refused one
        and nothing changed. `targets` is the choice the dedupe queries made. */
    method Load(rows: seq<PreparedJob>, cx: Context) returns (ok: bool, result: LoadResult, ghost targets: map<string, Target>)
      requires Valid(State()) && LoadableBatch(rows)
      modifies this
      ensures ValidTargets(old(State()), NewRows(old(State()), rows), targets)
      ensures ok <==> Acceptable(old(State()), rows, targets)
      ensures ok ==> State() == Loaded(old(State()), rows, targets, cx)
      ensures ok ==> result == ResultOf(old(State()), rows, targets)
      ensures !ok ==> State() == old(State()) && result == LoadResult(0, 0, 0, 0)
    {
      hide InsertAll;
      hide MergeAll;
      hide TouchAll;
      hide ChangeAll;
      hide RefreshAll;
      hide ValidTargets;
      hide ChecksHold;
      hide ColumnsOf;
      hide Filter;
      ghost var t := State();
      var jobs0, sources0, events0, nextId0 := jobs, sources, events, nextId;
      var existing := LookUp(rows);
      var toInsert := RowsToInsert(t, rows, existing);
      DistinctFilter(rows, (r: PreparedJob) => !Known(t, r));
      var found := FindMergeTargets(toInsert);
      targets := found;
      var inserts, merges, changed, same := Split(t, rows, existing, found);
      result := LoadResult(0, 0, 0, 0);

      ok := InsertFresh(inserts, cx);
      if ok {
        AttachMerges(merges, found, cx);
        TouchUnchanged(t, same, existing, cx);
        ok := ApplyChanges(t, changed, existing, cx);
      }
      if ok {
        RefreshSources(rows, cx.now);
        result := LoadResult(|inserts|, |changed|, |same|, |merges|);
      } else {
        jobs, sources, events, nextId := jobs0, sources0, events0, nextId0;
      }
    }

    /** The level-one lookup: the batch's rows that job_sources already knows, with their jobs. */
    method LookUp(rows: seq<PreparedJob>) returns (existing: map<string, Existing>)
      requires Valid(State()) && LoadableBatch(rows)
      ensures Matches(State(), rows, existing)
    {
      existing := map[];
      for i := 0 to |rows|
        invariant Matches(State(), rows[..i], existing)
        invariant forall e :: e in existing ==> exists j :: 0 <= j < i && rows[j].externalId == e
      {
        var r := rows[i];
        if KeyOf(r) in sources {
          var id := sources[KeyOf(r)].jobId;
          existing := existing[r.externalId := Existing(id, jobs[id].columns.contentHash, jobs[id].columns.status)];
        }
        assert rows[..i + 1] == rows[..i] + [r];
      }
      assert rows[..|rows|] == rows;
    }

    method InsertFresh(rows: seq<PreparedJob>, cx: Context) returns (ok: bool)
      modifies this
      ensures ok <==> forall r :: r in rows ==> ChecksHold(ColumnsOf(r))
      ensures ok ==> State() == InsertAll(old(State()), rows, cx)
    {
      for i := 0 to |rows|
        invariant State() == InsertAll(old(State()), rows[..i], cx)
        invariant forall r :: r in rows[..i] ==> ChecksHold(ColumnsOf(r))
      {
        var row := rows[i];
        if !ChecksHold(ColumnsOf(row)) {
          return false;
        }
        var id := nextId;
        jobs := jobs[id := NewJob(row, cx)];
        sources := Bind(sources, KeyOf(row), Provenance(id, true, L1SourceId, cx.now, cx.now));
        events := events + [Event(id, JobCreated, cx.runId, None, Some(Active))];
        nextId := id + 1;
        assert Init(rows[..i + 1]) == rows[..i];
      }
      assert rows[..|rows|] == rows;
      ok := true;
    }

    method AttachMerges(rows: seq<PreparedJob>, targets: map<string, Target>, cx: Context)
      requires forall r :: r in rows ==> r.externalId in targets
      modifies this
      ensures State() == MergeAll(old(State()), rows, targets, cx)
    {
      for i := 0 to |rows|
        invariant State() == MergeAll(old(State()), rows[..i], targets, cx)
      {
        var row, target := rows[i], targets[rows[i].externalId];
        sources := Bind(sources, KeyOf(row), Provenance(target.jobId, false, target.level, cx.now, cx.now));
        events := events + [Event(target.jobId, JobMerged, cx.runId, None, None)];
        assert Init(rows[..i + 1]) == rows[..i];
      }
      assert rows[..|rows|] == rows;
    }

    /** A job seen again unchanged: only last_seen_at moves, and no event is written. */
    method TouchUnchanged(ghost t: Tables, rows: seq<PreparedJob>, existing: map<string, Existing>, cx: Context)
      requires Valid(t) && forall r :: r in rows ==> Known(t, r) && Describes(t, existing, r)
      modifies this
      ensures State() == old(State()).(jobs := TouchAll(old(State()).jobs, t, rows, cx))
    {
      for i := 0 to |rows|
        invariant State() == old(State()).(jobs := TouchAll(old(State()).jobs, t, rows[..i], cx))
      {
        assert Describes(t, existing, rows[i]);
        var id := existing[rows[i].externalId].jobId;
        if id in jobs {
          jobs := jobs[id := jobs[id].(lastSeenAt := cx.now)];
        }
        assert Init(rows[..i + 1]) == rows[..i];
      }
      assert rows[..|rows|] == rows;
    }

    method ApplyChanges(ghost t: Tables, rows: seq<PreparedJob>, existing: map<string, Existing>, cx: Context)
      returns (ok: bool)
      requires Valid(t) && forall r :: r in rows ==> Known(t, r) && Describes(t, existing, r)
      modifies this
      ensures ok <==> forall r :: r in rows ==> ChecksHold(ColumnsOf(r))
      ensures ok ==> State() == ChangeAll(old(State()), t, rows, cx)
    {
      for i := 0 to |rows|
        invariant forall r :: r in rows[..i] ==> Known(t, r) && JobIdOf(t, r) in t.jobs
        invariant State() == ChangeAll(old(State()), t, rows[..i], cx)
        invariant forall r :: r in rows[..i] ==> ChecksHold(ColumnsOf(r))
      {
        var row := rows[i];
        if !ChecksHold(ColumnsOf(row)) {
          return false;
        }
        assert Describes(t, existing, row);
        var id, previous := existing[row.externalId].jobId, existing[row.externalId].status;
        if id in jobs {
          jobs := jobs[id := Overwrite(jobs[id], row, cx)];
        }
        events := events + [Event(id, ChangeKind(previous, row.columns.status), cx.runId,
                                  Some(previous), Some(row.columns.status))];
        assert Init(rows[..i + 1]) == rows[..i];
      }
      assert rows[..|rows|] == rows;
      ok := true;
    }

    /** UPDATE job_sources SET last_seen_at for every id of the batch. */
    method RefreshSources(rows: seq<PreparedJob>, now: Time)
      modifies this
      ensures State() == old(State()).(sources := RefreshAll(old(State()).sources, rows, now))
    {
      for i := 0 to |rows|
        invariant State() == old(State()).(sources := RefreshAll(old(State()).sources, rows[..i], now))
      {
        var k := KeyOf(rows[i]);
        if k in sources {
          sources := sources[k := sources[k].(lastSeenAt := now)];
        }
        assert rows[..i + 1] == rows[..i] + [rows[i]];
      }
      assert rows[..|rows|] == rows;
    }
  }

  ghost predicate Describes(t: Tables, existing: map<string, Existing>, r: PreparedJob)
    requires Valid(t)
  {
    Known(t, r) && r.externalId in existing
    && var job := t.jobs[JobIdOf(t, r)];
       existing[r.externalId] == Existing(JobIdOf(t, r), job.columns.contentHash, job.columns.status)
  }

  /** `existing` holds exactly the known rows of the batch. */
  ghost predicate Matches(t: Tables, rows: seq<PreparedJob>, existing: map<string, Existing>)
    requires Valid(t)
  {
    forall r :: r in rows ==> if Known(t, r) then Describes(t, existing, r) else r.externalId !in existing
  }

  method RowsToInsert(ghost t: Tables, rows: seq<PreparedJob>, existing: map<string, Existing>)
    returns (toInsert: seq<PreparedJob>)
    requires Valid(t) && Matches(t, rows, existing)
    ensures toInsert == NewRows(t, rows)
  {
    toInsert := [];
    for i := 0 to |rows|
      invariant toInsert == NewRows(t, rows[..i])
    {
      assert Init(rows[..i + 1]) == rows[..i] && rows[i] in rows;
      if rows[i].externalId !in existing {
        toInsert := toInsert + [rows[i]];
      }
    }
    assert rows[..|rows|] == rows;
  }

  /** The four-way split of a batch. */
  method Split(ghost t: Tables, rows: seq<PreparedJob>, existing: map<string, Existing>, targets: map<string, Target>)
    returns (inserts: seq<PreparedJob>, merges: seq<PreparedJob>, changed: seq<PreparedJob>, same: seq<PreparedJob>)
    requires Valid(t) && Matches(t, rows, existing)
    ensures inserts == FreshRows(t, rows, targets) && merges == MergeRows(t, rows, targets)
    ensures changed == ChangedRows(t, rows) && same == UnchangedRows(t, rows)
  {
    inserts, merges, changed, same := [], [], [], [];
    for i := 0 to |rows|
      invariant inserts == FreshRows(t, rows[..i], targets) && merges == MergeRows(t, rows[..i], targets)
      invariant changed == ChangedRows(t, rows[..i]) && same == UnchangedRows(t, rows[..i])
    {
      var r := rows[i];
      assert Init(rows[..i + 1]) == rows[..i] && r in rows;
      if r.externalId in existing {
        assert Describes(t, existing, r);
        if existing[r.externalId].contentHash != r.columns.contentHash {
          changed := changed + [r];
        } else {
          same := same + [r];
        }
      } else if r.externalId in targets {
        merges := merges + [r];
      } else {
        inserts := inserts + [r];
      }
    }
    assert rows[..|rows|] == rows;
  }

  /** The merge targets as a dictionary from external id to job and level. */
  method BuildTargets(ghost t: Tables, rows: seq<PreparedJob>, byUrl: seq<Option<JobId>>, byPrint: seq<Option<JobId>>)
    returns (targets: map<string, Target>)
    requires DistinctIds(rows) && |byUrl| == |byPrint| == |rows|
    requires forall i :: 0 <= i < |rows| ==> (byUrl[i].Some? <==> UrlHit(t, rows, i))
    requires forall i :: 0 <= i < |rows| && byUrl[i].Some? ==> UrlMatch(t, rows[i], byUrl[i].value)
    requires forall i :: 0 <= i < |rows| ==> (byPrint[i].Some? <==> FingerprintHit(t, rows, i))
    requires forall i :: 0 <= i < |rows| && byPrint[i].Some? ==> FingerprintMatch(t, rows[i], byPrint[i].value)
    ensures ValidTargets(t, rows, targets)
  {
    hide UrlHit;
    hide FingerprintHit;
    hide UrlMatch;
    hide FingerprintMatch;
    hide TargetFits;
    targets := map[];
    for i := 0 to |rows|
      invariant forall e :: e in targets ==> exists j :: 0 <= j < i && rows[j].externalId == e
      invariant forall j :: 0 <= j < i ==> TargetFits(t, rows, targets, j)
    {
      ghost var before := targets;
      var e := rows[i].externalId;
      assert e !in targets;
      var found := if byUrl[i].Some? then Some(Target(byUrl[i].value, L2ApplyUrl))
                   else if byPrint[i].Some? then Some(Target(byPrint[i].value, L4ContentFingerprint)) else None;
      if found.Some? {
        targets := targets[e := found.value];
      }
      FitsFound(t, rows, targets, i, byUrl[i], byPrint[i]);
      FitsStill(t, rows, before, targets, i);
    }
  }

  /** A new entry for row i leaves those of the rows before it alone. */
  lemma FitsStill(t: Tables, rows: seq<PreparedJob>, before: map<string, Target>, targets: map<string, Target>, i: nat)
    requires i < |rows| && DistinctIds(rows) && forall j :: 0 <= j < i ==> TargetFits(t, rows, before, j)
    requires forall e :: e != rows[i].externalId ==> Lookup(before, e) == Lookup(targets, e)
    ensures forall j :: 0 <= j < i ==> TargetFits(t, rows, targets, j)
  {
    hide TargetFits;
    forall j | 0 <= j < i
      ensures TargetFits(t, rows, targets, j)
    {
      assert rows[j].externalId != rows[i].externalId;
      FitsByEntry(t, rows, before, targets, j);
    }
  }

  lemma FitsFound(t: Tables, rows: seq<PreparedJob>, targets: map<string, Target>, i: nat, byUrl: Option<JobId>, byPrint: Option<JobId>)
    requires i < |rows|
    requires byUrl.Some? <==> UrlHit(t, rows, i)
    requires byUrl.Some? ==> UrlMatch(t, rows[i], byUrl.value)
    requires byPrint.Some? <==> FingerprintHit(t, rows, i)
    requires byPrint.Some? ==> FingerprintMatch(t, rows[i], byPrint.value)
    requires Lookup(targets, rows[i].externalId) ==
      if byUrl.Some? then Some(Target(byUrl.value, L2ApplyUrl))
      else if byPrint.Some? then Some(Target(byPrint.value, L4ContentFingerprint)) else None
    ensures TargetFits(t, rows, targets, i)
  {
  }

  /** Whether a row's target fits depends on its own entry only. */
  lemma FitsByEntry(t: Tables, rows: seq<PreparedJob>, before: map<string, Target>, targets: map<string, Target>, j: nat)
    requires j < |rows| && TargetFits(t, rows, before, j)
    requires Lookup(before, rows[j].externalId) == Lookup(targets, rows[j].externalId)
    ensures TargetFits(t, rows, targets, j)
  {
  }

  /** Key `i` is the last of its value and some stored job carries it. */
  ghost predicate KeyHit(keys: seq<Option<Hash>>, stored: map<JobId, Option<Hash>>, i: int)
    requires 0 <= i < |keys|
  {
    && keys[i].Some?
    && (exists id :: id in stored && stored[id] == keys[i])
    && forall j :: i < j < |keys| ==> keys[j] != keys[i]
  }

  /** The dictionary that keeps the last position of each key. */
  method LastPositions(keys: seq<Option<Hash>>) returns (last: map<Hash, nat>)
    ensures forall h :: h in last ==> last[h] < |keys| && keys[last[h]] == Some(h)
    ensures forall h :: h in last ==> forall j :: last[h] < j < |keys| ==> keys[j] != Some(h)
    ensures forall i :: 0 <= i < |keys| && keys[i].Some? ==> keys[i].value in last
  {
    last := map[];
    for i := 0 to |keys|
      invariant forall h :: h in last ==> last[h] < i && keys[last[h]] == Some(h)
      invariant forall h :: h in last ==> forall j :: last[h] < j < i ==> keys[j] != Some(h)
      invariant forall j :: 0 <= j < i && keys[j].Some? ==> keys[j].value in last
    {
      if keys[i].Some? {
        last := last[keys[i].value := i];
      }
    }
  }

  /** SELECT id ... WHERE key = ANY(wanted); the row order is the database's. */
  method Select(stored: map<JobId, Option<Hash>>, wanted: set<Hash>) returns (ids: seq<JobId>)
    ensures forall id :: id in ids <==> id in stored && stored[id].Some? && stored[id].value in wanted
  {
    ids := [];
    var left := set id | id in stored && stored[id].Some? && stored[id].value in wanted;
    ghost var all := left;
    while left != {}
      invariant left <= all
      invariant forall id :: id in ids <==> id in all - left
      decreases left
    {
      var id :| id in left;
      ids, left := ids + [id], left - {id};
    }
  }

  /** One dedupe level: for each position that holds the last occurrence of its key, a stored
      job with the same key if there is one. Later rows of the query overwrite earlier ones. */
  method MatchLast(keys: seq<Option<Hash>>, stored: map<JobId, Option<Hash>>) returns (hits: seq<Option<JobId>>)
    ensures |hits| == |keys|
    ensures forall i :: 0 <= i < |keys| ==> (hits[i].Some? <==> KeyHit(keys, stored, i))
    ensures forall i :: 0 <= i < |keys| && hits[i].Some? ==> hits[i].value in stored && stored[hits[i].value] == keys[i]
  {
    var last := LastPositions(keys);
    var found := Select(stored, last.Keys);
    hits := seq(|keys|, i => None);
    for n := 0 to |found|
      invariant |hits| == |keys|
      invariant forall i :: 0 <= i < |keys| && hits[i].Some? ==>
        hits[i].value in stored && stored[hits[i].value] == keys[i] && KeyHit(keys, stored, i)
      invariant forall m :: 0 <= m < n ==> hits[last[stored[found[m]].value]].Some?
    {
      var id := found[n];
      assert stored[id] == keys[last[stored[id].value]];
      hits := hits[last[stored[id].value] := Some(id)];
    }
    forall i | 0 <= i < |keys| && KeyHit(keys, stored, i)
      ensures hits[i].Some?
    {
      var id :| id in stored && stored[id] == keys[i];
      assert last[keys[i].value] == i;
      assert id in found;
    }
  }

  lemma UrlHits(t: Tables, rows: seq<PreparedJob>, urls: seq<Option<Hash>>, stored: map<JobId, Option<Hash>>,
                hits: seq<Option<JobId>>)
    requires |urls| == |rows| == |hits|
    requires forall i :: 0 <= i < |rows| ==> urls[i] == rows[i].columns.applyUrlHash
    requires stored == map id | id in t.jobs :: t.jobs[id].columns.applyUrlHash
    requires forall i :: 0 <= i < |rows| ==> (hits[i].Some? <==> KeyHit(urls, stored, i))
    ensures forall i :: 0 <= i < |rows| ==> (hits[i].Some? <==> UrlHit(t, rows, i))
  {
    forall i | 0 <= i < |rows|
      ensures KeyHit(urls, stored, i) <==> UrlHit(t, rows, i)
    {
      if id :| UrlMatch(t, rows[i], id) {
        assert id in stored && stored[id] == urls[i];
      }
      if id :| id in stored && stored[id] == urls[i] && urls[i].Some? {
        assert UrlMatch(t, rows[i], id);
      }
    }
  }

  lemma FingerprintHits(t: Tables, rows: seq<PreparedJob>, prints: seq<Option<Hash>>, stored: map<JobId, Option<Hash>>,
                        byUrl: seq<Option<JobId>>, hits: seq<Option<JobId>>)
    requires |prints| == |rows| == |byUrl| == |hits|
    requires forall i :: 0 <= i < |rows| ==> (byUrl[i].Some? <==> UrlHit(t, rows, i))
    requires forall i :: 0 <= i < |rows| ==>
      prints[i] == if byUrl[i].Some? then None else Some(rows[i].columns.fingerprint)
    requires stored == map id | id in t.jobs :: Some(t.jobs[id].columns.fingerprint)
    requires forall i :: 0 <= i < |rows| ==> (hits[i].Some? <==> KeyHit(prints, stored, i))
    ensures forall i :: 0 <= i < |rows| ==> (hits[i].Some? <==> FingerprintHit(t, rows, i))
  {
    forall i | 0 <= i < |rows|
      ensures KeyHit(prints, stored, i) <==> FingerprintHit(t, rows, i)
    {
      if id :| FingerprintMatch(t, rows[i], id) {
        assert id in stored && stored[id] == Some(rows[i].columns.fingerprint);
      }
      if id :| id in stored && stored[id] == prints[i] && prints[i].Some? {
        assert FingerprintMatch(t, rows[i], id);
      }
    }
  }
}
