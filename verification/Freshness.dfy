/** FreshnessService and the API's own copy of the bucketing. Instants are microseconds since
    the epoch in UTC, so a calendar day is a quotient by DAY. */
module Freshness {
  import opened Prelude
  import opened Schema

  const HOUR: Time := 3_600_000_000
  datatype PostedDefect = FuturePostedAt | ImplausiblePostedAt

  datatype Assessment = Assessment(postedAt: Option<Time>, isValid: bool, defect: Option<PostedDefect>)

  /** `minPostedAt` is the first instant of the configured minimum year. */
  function Assess(postedAt: Option<Time>, now: Time, maxFutureHours: nat, minPostedAt: Time): Assessment {
    if postedAt.None? then Assessment(None, false, None)
    else if postedAt.value > now + maxFutureHours * HOUR then Assessment(postedAt, false, Some(FuturePostedAt))
    else if postedAt.value < minPostedAt then Assessment(postedAt, false, Some(ImplausiblePostedAt))
    else Assessment(postedAt, true, None)
  }

  datatype Bucket = NewLastHour | NewLast6Hours | NewToday | PostedLast24Hours | PostedToday | UpdatedToday | Older | ExpiredBucket

  function Date(t: Time): int { t / DAY }

  /** FreshnessService.classify. */
  function Classify(postedAt: Option<Time>, postedAtIsValid: bool, firstSeenAt: Time, lastUpdatedAt: Option<Time>,
                    status: JobStatus, now: Time): Bucket
  {
    if status == Expired || status == Removed then ExpiredBucket
    else if now - firstSeenAt < HOUR then NewLastHour
    else if now - firstSeenAt < 6 * HOUR then NewLast6Hours
    else if Date(firstSeenAt) == Date(now) then NewToday
    else
      var posted := if postedAtIsValid then postedAt else None;
      if posted.Some? && now - posted.value < 24 * HOUR then PostedLast24Hours
      else if posted.Some? && Date(posted.value) == Date(now) then PostedToday
      else if lastUpdatedAt.Some? && Date(lastUpdatedAt.value) == Date(now) then UpdatedToday
      else Older
  }

  /** Which bucket, in microseconds: each asks only what the ones before it left. */
  lemma ClassifyExactly(postedAt: Option<Time>, valid: bool, seen: Time, updated: Option<Time>, status: JobStatus, now: Time)
    ensures var b := Classify(postedAt, valid, seen, updated, status, now);
      var live, age := status != Expired && status != Removed, now - seen;
      var today := now / 86_400_000_000;
      var later := live && age >= 21_600_000_000 && seen / 86_400_000_000 != today;
      var posted := valid && postedAt.Some? && now - postedAt.value < 86_400_000_000;
      && (b == ExpiredBucket <==> status == Expired || status == Removed)
      && (b == NewLastHour <==> live && age < 3_600_000_000)
      && (b == NewLast6Hours <==> live && 3_600_000_000 <= age < 21_600_000_000)
      && (b == NewToday <==> live && age >= 21_600_000_000 && seen / 86_400_000_000 == today)
      && (b == PostedLast24Hours <==> later && posted)
      && b != PostedToday
      && (b == UpdatedToday <==> later && !posted && updated.Some? && updated.value / 86_400_000_000 == today)
      && (b == Older <==> later && !posted && (updated.None? || updated.value / 86_400_000_000 != today))
  {
  }

  /** A row of the API's result set; every column may be absent there. */
  datatype ApiRow = ApiRow(status: JobStatus, firstSeenAt: Option<Time>, postedAt: Option<Time>, postedAtIsValid: bool,
                           lastUpdatedAt: Option<Time>)

  /** total_seconds() < s, for whole seconds s, without leaving the integers. */
  predicate YoungerThan(age: Time, seconds: nat) {
    age < seconds * 1_000_000
  }

  function SeenBucket(firstSeenAt: Option<Time>, now: Time): Option<Bucket> {
    if firstSeenAt.None? then None
    else if YoungerThan(now - firstSeenAt.value, 3600) then Some(NewLastHour)
    else if YoungerThan(now - firstSeenAt.value, 6 * 3600) then Some(NewLast6Hours)
    else if Date(firstSeenAt.value) == Date(now) then Some(NewToday) else None
  }

  function PostedBucket(row: ApiRow, now: Time): Option<Bucket> {
    if !row.postedAtIsValid || row.postedAt.None? then None
    else if YoungerThan(now - row.postedAt.value, 24 * 3600) then Some(PostedLast24Hours)
    else if Date(row.postedAt.value) == Date(now) then Some(PostedToday) else None
  }

  function UpdatedBucket(row: ApiRow, now: Time): Bucket {
    if row.lastUpdatedAt.Some? && Date(row.lastUpdatedAt.value) == Date(now) then UpdatedToday else Older
  }

  /** The API's _freshness: three independent questions, asked in order. */
  function ApiBucket(row: ApiRow, now: Time): Bucket {
    if row.status in {Expired, Removed} then ExpiredBucket
    else SeenBucket(row.firstSeenAt, now).OrElse(PostedBucket(row, now)).GetOr(UpdatedBucket(row, now))
  }

  /** The two implementations agree, and neither ever answers POSTED_TODAY: a posting of today
      is younger than a day. */
  lemma ImplementationsAgree(row: ApiRow, now: Time)
    requires row.firstSeenAt.Some?
    ensures ApiBucket(row, now) ==
      Classify(row.postedAt, row.postedAtIsValid, row.firstSeenAt.value, row.lastUpdatedAt, row.status, now)
    ensures ApiBucket(row, now) != PostedToday
  {
  }

  function Rank(b: Bucket): nat {
    match b
    case NewLastHour => 0
    case NewLast6Hours => 1
    case NewToday => 2
    case PostedLast24Hours => 3
    case PostedToday => 4
    case UpdatedToday => 5
    case Older => 6
    case ExpiredBucket => 7
  }

  /** Nothing but its update could place the row on a later day: it is live, seen six hours ago or more
      and on another day, and its trusted posting is a day old or more. */
  predicate OnlyUpdateCounts(postedAt: Option<Time>, valid: bool, firstSeenAt: Time, status: JobStatus, now: Time) {
    && status != Expired && status != Removed
    && now - firstSeenAt >= 6 * HOUR && Date(firstSeenAt) != Date(now)
    && (valid && postedAt.Some? ==> now - postedAt.value >= 24 * HOUR)
  }

  /** As the clock advances over an unchanged row, the bucket only gets later, with one exception: it
      goes back if and only if at the earlier clock nothing but an update counts for the row, and its
      update is dated on a later day than that clock's, which is the later clock's. */
  lemma BucketsOnlyAge(postedAt: Option<Time>, valid: bool, firstSeenAt: Time, updated: Option<Time>, status: JobStatus,
                       now: Time, later: Time)
    requires now <= later
    ensures Rank(Classify(postedAt, valid, firstSeenAt, updated, status, later))
          < Rank(Classify(postedAt, valid, firstSeenAt, updated, status, now))
      <==> OnlyUpdateCounts(postedAt, valid, firstSeenAt, status, now)
           && updated.Some? && Date(now) < Date(updated.value) == Date(later)
  {
  }

  /** A job first seen two days ago whose update is dated tomorrow is old today and updated tomorrow. */
  lemma BucketGoesBack()
    ensures Classify(None, false, 0, Some(3 * DAY), Active, 2 * DAY) == Older
    ensures Classify(None, false, 0, Some(3 * DAY), Active, 3 * DAY) == UpdatedToday
    ensures Rank(UpdatedToday) < Rank(Older)
  {
  }

  /** In particular it never goes back for a row whose last update is not dated after the clock. */
  lemma NoUpdateAhead(postedAt: Option<Time>, valid: bool, firstSeenAt: Time, updated: Option<Time>, status: JobStatus,
                      now: Time, later: Time)
    requires now <= later && (updated.Some? ==> updated.value <= now)
    ensures Rank(Classify(postedAt, valid, firstSeenAt, updated, status, now))
         <= Rank(Classify(postedAt, valid, firstSeenAt, updated, status, later))
  {
  }
}
