/** The tables the ingestion worker writes: jobs, job_sources and job_events, with the
    constraints of database/migrations/versions/0001_initial_schema.py. */
module Schema {
  import opened Prelude

  /** A SHA-256 digest. The loader only ever compares digests for equality. */
  type Hash = nat

  /** An instant, in microseconds. Every timestamp of the platform is UTC. */
  type Time = int

  const DAY: Time := 86_400_000_000

  type JobId = nat

  datatype JobStatus = Active | Expired | Removed | Unknown

  datatype DedupeLevel = L1SourceId | L2ApplyUrl | L4ContentFingerprint

  datatype EventType = JobCreated | JobUpdated | JobExpired | JobReactivated | JobMerged

  /** The columns of `jobs` that an insert sets and a content change overwrites wholesale. */
  datatype Columns = Columns(
    title: string, titleNormalized: string, descriptionText: Option<string>,
    countryCode: Option<string>, stateCode: Option<string>, city: Option<string>,
    remoteType: string, employmentType: string,
    salaryMin: Option<real>, salaryMax: Option<real>, salaryCurrency: Option<string>,
    postedAt: Option<Time>, postedAtIsValid: bool, sourceFetchedAt: Option<Time>,
    closeAt: Option<Time>, closedAt: Option<Time>, status: JobStatus,
    applyUrl: Option<string>, applyUrlHash: Option<Hash>,
    contentHash: Hash, fingerprint: Hash,
    categorySlug: string, seniorityLevel: string)

  /** A job that has passed the pipeline and is ready to be written. */
  datatype PreparedJob = PreparedJob(
    source: string, externalId: string, columns: Columns,
    companyExternalId: Option<string>, cityNormalized: Option<string>,
    postalCode: Option<string>, industry: Option<string>)

  datatype Job = Job(
    columns: Columns, source: string,
    companyId: Option<nat>, locationId: Option<nat>, industry: Option<string>,
    firstSeenAt: Time, lastSeenAt: Time, lastUpdatedAt: Option<Time>)

  /** The unique key of job_sources: level one of the dedupe. */
  datatype SourceKey = SourceKey(source: string, externalId: string)

  datatype Provenance = Provenance(
    jobId: JobId, isPrimary: bool, matchedBy: DedupeLevel,
    firstSeenAt: Time, lastSeenAt: Time)

  datatype Event = Event(
    jobId: JobId, kind: EventType, runId: nat,
    previous: Option<JobStatus>, next: Option<JobStatus>)

  datatype Tables = Tables(
    jobs: map<JobId, Job>, sources: map<SourceKey, Provenance>,
    events: seq<Event>, nextId: JobId)

  const EMPTY := Tables(map[], map[], [], 0)

  function KeyOf(row: PreparedJob): SourceKey {
    SourceKey(row.source, row.externalId)
  }

  /** What the constraints of the schema give on their own: identity values are fresh and
      a provenance row references a live job. */
  ghost predicate Valid(t: Tables) {
    && (forall id :: id in t.jobs ==> id < t.nextId)
    && (forall k :: k in t.sources ==> t.sources[k].jobId in t.jobs)
  }

  ghost predicate Primary(t: Tables, id: JobId, k: SourceKey) {
    k in t.sources && t.sources[k].jobId == id && t.sources[k].isPrimary
  }

  ghost predicate OnePrimary(t: Tables, id: JobId) {
    && (exists k :: Primary(t, id, k))
    && (forall k, k' :: Primary(t, id, k) && Primary(t, id, k') ==> k == k')
  }

  /** What the platform relies on beyond the schema: every job was introduced by exactly
      one source row. */
  ghost predicate Consistent(t: Tables) {
    Valid(t) && forall id :: id in t.jobs ==> OnePrimary(t, id)
  }

  /** The CHECK constraints of the `jobs` table that a loaded row can meet or break. */
  predicate ChecksHold(c: Columns) {
    && (c.salaryMin.Some? && c.salaryMax.Some? ==> c.salaryMin.value <= c.salaryMax.value)
    && (c.salaryMin.Some? ==> c.salaryMin.value >= 0.0)
    && (c.salaryMax.Some? ==> c.salaryMax.value >= 0.0)
    && (c.countryCode.Some? ==> UpperLetters(c.countryCode.value, 2))
    && (c.salaryCurrency.Some? ==> UpperLetters(c.salaryCurrency.value, 3))
    && (c.postedAtIsValid ==> c.postedAt.Some?)
    && (c.status == Expired ==> c.closedAt.Some? || c.closeAt.Some?)
  }

  predicate UpperLetters(s: string, n: nat) {
    |s| == n && forall i :: 0 <= i < |s| ==> 'A' <= s[i] <= 'Z'
  }
}
