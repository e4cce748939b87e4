/** scripts/enforce_retention.py: removing, or expiring, the jobs that left the window. */
module Retention {
  import opened Prelude
  import opened Schema
  import opened Loader

  /** The best date there is: the employer's where it is trusted, our detection otherwise. */
  function BestDate(j: Job): Time {
    (if j.columns.postedAtIsValid then j.columns.postedAt else None).GetOr(j.firstSeenAt)
  }

  predicate OutOfWindow(j: Job, cutoff: Time) {
    BestDate(j) < cutoff
  }

  function OldJobs(t: Tables, cutoff: Time): set<JobId> {
    set id | id in t.jobs && OutOfWindow(t.jobs[id], cutoff)
  }

  function UnexpiredOldJobs(t: Tables, cutoff: Time): set<JobId> {
    set id | id in OldJobs(t, cutoff) && t.jobs[id].columns.status != Expired
  }

  /** DELETE FROM jobs: job_sources cascades, job_events has no foreign key and does not. */
  function Deleted(t: Tables, ids: set<JobId>): Tables {
    t.(jobs := t.jobs - ids,
       sources := map k | k in t.sources && t.sources[k].jobId !in ids :: t.sources[k])
  }

  function ExpireJob(j: Job, now: Time): Job {
    j.(columns := j.columns.(status := Expired, closedAt := j.columns.closedAt.OrElse(Some(now))))
  }

  function ExpiredIn(t: Tables, ids: set<JobId>, now: Time): Tables {
    t.(jobs := map id | id in t.jobs :: if id in ids then ExpireJob(t.jobs[id], now) else t.jobs[id])
  }

  function LiveEvents(events: seq<Event>, jobs: map<JobId, Job>): seq<Event> {
    Filter(events, (e: Event) => e.jobId in jobs)
  }

  function Purged(t: Tables): Tables {
    t.(events := LiveEvents(t.events, t.jobs))
  }

  /** A statement's LIMIT: some of the ids, at least one when there are any. */
  method PickBatch(ids: set<JobId>, limit: nat) returns (batch: set<JobId>)
    requires limit > 0
    ensures batch <= ids && |batch| <= limit && (ids != {} ==> batch != {})
  {
    batch := {};
    var left := ids;
    while left != {} && |batch| < limit
      invariant batch <= ids && left == ids - batch && |batch| <= limit
      invariant batch == {} ==> left == ids
      decreases left
    {
      var id :| id in left;
      batch, left := batch + {id}, left - {id};
    }
  }

  lemma DeletedTwice(t: Tables, gone: set<JobId>, batch: set<JobId>)
    ensures Deleted(Deleted(t, gone), batch) == Deleted(t, gone + batch)
  {
  }

  lemma ExpiredTwice(t: Tables, done: set<JobId>, batch: set<JobId>, now: Time)
    requires done !! batch
    ensures ExpiredIn(ExpiredIn(t, done, now), batch, now) == ExpiredIn(t, done + batch, now)
  {
  }

  lemma LeftToDelete(t: Tables, gone: set<JobId>, cutoff: Time)
    ensures OldJobs(Deleted(t, gone), cutoff) == OldJobs(t, cutoff) - gone
  {
  }

  /** One more batch of a delete pass. */
  lemma DeleteStep(t: Tables, gone: set<JobId>, batch: set<JobId>, cutoff: Time)
    requires gone <= OldJobs(t, cutoff) && batch <= OldJobs(Deleted(t, gone), cutoff)
    ensures gone !! batch && gone + batch <= OldJobs(t, cutoff)
    ensures Deleted(Deleted(t, gone), batch) == Deleted(t, gone + batch)
    ensures |gone + batch| == |gone| + |batch|
    ensures OldJobs(Deleted(t, gone), cutoff) == {} ==> gone == OldJobs(t, cutoff)
  {
    LeftToDelete(t, gone, cutoff);
    DeletedTwice(t, gone, batch);
    hide Deleted;
    hide OldJobs;
    UnionSize(gone, batch);
  }

  lemma LeftToExpire(t: Tables, done: set<JobId>, cutoff: Time, now: Time)
    ensures UnexpiredOldJobs(ExpiredIn(t, done, now), cutoff) == UnexpiredOldJobs(t, cutoff) - done
  {
  }

  /** One more batch of an expire pass. */
  lemma ExpireStep(t: Tables, done: set<JobId>, batch: set<JobId>, cutoff: Time, now: Time)
    requires done <= UnexpiredOldJobs(t, cutoff)
    requires batch <= UnexpiredOldJobs(ExpiredIn(t, done, now), cutoff)
    ensures done !! batch && done + batch <= UnexpiredOldJobs(t, cutoff)
    ensures ExpiredIn(ExpiredIn(t, done, now), batch, now) == ExpiredIn(t, done + batch, now)
    ensures |done + batch| == |done| + |batch|
    ensures UnexpiredOldJobs(ExpiredIn(t, done, now), cutoff) == {} ==> done == UnexpiredOldJobs(t, cutoff)
  {
    LeftToExpire(t, done, cutoff, now);
    hide UnexpiredOldJobs;
    hide ExpiredIn;
    ExpiredTwice(t, done, batch, now);
    UnionSize(done, batch);
  }

  lemma {:induction false} UnionSize<T>(a: set<T>, b: set<T>)
    requires a !! b
    ensures |a + b| == |a| + |b|
    decreases |b|
  {
  }

  /** One statement of the delete loop, in a transaction of its own. */
  method DeleteBatch(db: JobLoader, cutoff: Time, limit: nat) returns (ghost batch: set<JobId>, count: nat)
    requires limit > 0
    modifies db
    ensures batch <= OldJobs(old(db.State()), cutoff) && count == |batch|
    ensures OldJobs(old(db.State()), cutoff) != {} ==> batch != {}
    ensures db.State() == Deleted(old(db.State()), batch)
  {
    var ids := set id | id in db.jobs && OutOfWindow(db.jobs[id], cutoff);
    assert ids == OldJobs(db.State(), cutoff);
    var picked := PickBatch(ids, limit);
    batch := picked;
    db.jobs := db.jobs - picked;
    db.sources := map k | k in db.sources && db.sources[k].jobId !in picked :: db.sources[k];
    count := |picked|;
  }

  /** Delete in batches until a batch is empty. */
  method DeleteOldJobs(db: JobLoader, cutoff: Time, limit: nat) returns (affected: nat)
    requires limit > 0
    modifies db
    ensures db.State() == Deleted(old(db.State()), OldJobs(old(db.State()), cutoff))
    ensures affected == |OldJobs(old(db.State()), cutoff)|
  {
    affected := 0;
    ghost var t, gone := db.State(), {};
    assert Deleted(t, {}).jobs == t.jobs && Deleted(t, {}).sources == t.sources;
    hide Deleted;
    hide OldJobs;
    while true
      invariant gone <= OldJobs(t, cutoff) && affected == |gone|
      invariant db.State() == Deleted(t, gone)
      decreases OldJobs(t, cutoff) - gone
    {
      ghost var batch;
      var count;
      batch, count := DeleteBatch(db, cutoff, limit);
      DeleteStep(t, gone, batch, cutoff);
      affected := affected + count;
      gone := gone + batch;
      if count == 0 {
        break;
      }
    }
    assert gone == OldJobs(t, cutoff);
  }

  method ExpireBatch(db: JobLoader, cutoff: Time, now: Time, limit: nat) returns (ghost batch: set<JobId>, count: nat)
    requires limit > 0
    modifies db
    ensures batch <= UnexpiredOldJobs(old(db.State()), cutoff) && count == |batch|
    ensures UnexpiredOldJobs(old(db.State()), cutoff) != {} ==> batch != {}
    ensures db.State() == ExpiredIn(old(db.State()), batch, now)
  {
    var ids := set id | id in db.jobs && OutOfWindow(db.jobs[id], cutoff) && db.jobs[id].columns.status != Expired;
    assert ids == UnexpiredOldJobs(db.State(), cutoff);
    var picked := PickBatch(ids, limit);
    batch := picked;
    db.jobs := map id | id in db.jobs :: if id in picked then ExpireJob(db.jobs[id], now) else db.jobs[id];
    count := |picked|;
  }

  /** The --expire-only mode: mark the unexpired old jobs, in batches, until none is left. */
  method ExpireOldJobs(db: JobLoader, cutoff: Time, now: Time, limit: nat) returns (affected: nat)
    requires limit > 0
    modifies db
    ensures db.State() == ExpiredIn(old(db.State()), UnexpiredOldJobs(old(db.State()), cutoff), now)
    ensures affected == |UnexpiredOldJobs(old(db.State()), cutoff)|
  {
    affected := 0;
    ghost var t, all, done := db.State(), UnexpiredOldJobs(db.State(), cutoff), {};
    assert ExpiredIn(t, {}, now).jobs == t.jobs;
    hide ExpiredIn;
    hide UnexpiredOldJobs;
    while true
      invariant done <= all && affected == |done|
      invariant db.State() == ExpiredIn(t, done, now)
      decreases all - done
    {
      ghost var batch;
      var count;
      batch, count := ExpireBatch(db, cutoff, now, limit);
      ExpireStep(t, done, batch, cutoff, now);
      affected := affected + count;
      done := done + batch;
      if count == 0 {
        break;
      }
    }
    assert done == all;
  }

  /** The script. Exit code 2: retention is disabled. With nothing out of window it returns
      before the orphan cleanup; otherwise a delete is followed by it. */
  method Enforce(db: JobLoader, now: Time, days: int, expireOnly: bool, limit: nat) returns (code: nat)
    requires limit > 0
    modifies db
    ensures var t, cutoff := old(db.State()), now - days * DAY;
      && code == (if days <= 0 then 2 else 0)
      && db.State() == if days <= 0 || OldJobs(t, cutoff) == {} then t
                       else if expireOnly then ExpiredIn(t, UnexpiredOldJobs(t, cutoff), now)
                       else Purged(Deleted(t, OldJobs(t, cutoff)))
  {
    if days <= 0 {
      return 2;
    }
    code := 0;
    var cutoff := now - days * DAY;
    var outOfWindow := set id | id in db.jobs && OutOfWindow(db.jobs[id], cutoff);
    assert outOfWindow == OldJobs(db.State(), cutoff);
    if outOfWindow == {} {
      return;
    }
    if expireOnly {
      var _ := ExpireOldJobs(db, cutoff, now, limit);
    } else {
      var _ := DeleteOldJobs(db, cutoff, limit);
      db.events := LiveEvents(db.events, db.jobs);
    }
  }

  /** Older than the cutoff by the employer's date where that is trusted, or else by our detection. */
  predicate Past(j: Job, cutoff: Time) {
    if j.columns.postedAtIsValid && j.columns.postedAt.Some? then j.columns.postedAt.value < cutoff else j.firstSeenAt < cutoff
  }

  /** Expiring marks exactly the old jobs that are not expired, and keeps a closing date they have; every
      other job, and everything else of theirs, stays. */
  lemma ExpiredIsExact(t: Tables, cutoff: Time, now: Time)
    ensures var t' := ExpiredIn(t, UnexpiredOldJobs(t, cutoff), now);
      && t'.sources == t.sources && t'.events == t.events && t'.nextId == t.nextId && t'.jobs.Keys == t.jobs.Keys
      && forall id :: id in t.jobs ==>
           var c := t.jobs[id].columns;
           t'.jobs[id] ==
           if Past(t.jobs[id], cutoff) && c.status != Expired
           then t.jobs[id].(columns := c.(status := Expired, closedAt := if c.closedAt.Some? then c.closedAt else Some(now)))
           else t.jobs[id]
  {
  }

  /** Deleting leaves exactly the jobs in the window, takes their provenance along, and after the
      cleanup no event refers to a missing job. */
  lemma DeletedIsExact(t: Tables, cutoff: Time)
    requires Valid(t)
    ensures var t' := Purged(Deleted(t, OldJobs(t, cutoff)));
      && Valid(t')
      && (forall id :: id in t'.jobs <==> id in t.jobs && !Past(t.jobs[id], cutoff))
      && (forall id :: id in t'.jobs ==> t'.jobs[id] == t.jobs[id])
      && (forall k :: k in t'.sources <==> k in t.sources && t.sources[k].jobId in t'.jobs)
      && (forall e :: e in t'.events <==> e in t.events && e.jobId in t'.jobs)
  {
    var t' := Purged(Deleted(t, OldJobs(t, cutoff)));
    FilterMembers(t.events, (e: Event) => e.jobId in t'.jobs);
  }

  /** With nothing out of window the script stops early, so orphans left by an interrupted
      earlier pass survive: the cleanup is complete if and only if the pass deleted something
      or there were none. */
  lemma CleanupNeedsADelete(t: Tables, cutoff: Time)
    requires Valid(t)
    ensures var old' := OldJobs(t, cutoff);
      var t' := if old' == {} then t else Purged(Deleted(t, old'));
      (forall e :: e in t'.events ==> e.jobId in t'.jobs)
      <==> old' != {} || forall e :: e in t.events ==> e.jobId in t.jobs
  {
    DeletedIsExact(t, cutoff);
  }
}
