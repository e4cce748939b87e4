/** How the stream of prepared records is cut into write-sized batches. */
module Batching {
  import opened Prelude
  import opened Schema
  import opened Sync
  import opened LoadSpec
  import opened Preparation

  /** What became of a record in the stream. */
  datatype Verdict = Accepted(row: PreparedJob) | Refused

  /** The generator's state: yielded batches, the batch being filled, every recorded reason,
      and what became of each record. */
  datatype Stream = Stream(done: seq<seq<PreparedJob>>, open: seq<PreparedJob>, reasons: seq<Reason>,
                           verdicts: seq<Verdict>)

  predicate SeenIn(batch: seq<PreparedJob>, id: string) {
    exists i :: 0 <= i < |batch| && batch[i].externalId == id
  }

  /** One record: rejected by its stages, refused as a repeat within the open batch, or accepted;
      a full batch is yielded at once. */
  function Feed(s: Stream, p: Prepared, size: nat): Stream {
    if p.row.None? then s.(reasons := s.reasons + p.reasons, verdicts := s.verdicts + [Refused])
    else if SeenIn(s.open, p.row.value.externalId) then
      s.(reasons := s.reasons + p.reasons + [DuplicateInBatch], verdicts := s.verdicts + [Refused])
    else
      var batch := s.open + [p.row.value];
      var t := s.(reasons := s.reasons + p.reasons, verdicts := s.verdicts + [Accepted(p.row.value)]);
      if |batch| >= size then t.(done := s.done + [batch], open := []) else t.(open := batch)
  }

  function FeedAll(ps: seq<Prepared>, size: nat): Stream {
    if ps == [] then Stream([], [], [], []) else Feed(FeedAll(Init(ps), size), Last(ps), size)
  }

  /** All the batches of a file: a last, shorter one is yielded when it is not empty. */
  function AllBatches(ps: seq<Prepared>, size: nat): seq<seq<PreparedJob>> {
    var s := FeedAll(ps, size);
    if s.open == [] then s.done else s.done + [s.open]
  }

  function AcceptedRows(verdicts: seq<Verdict>): seq<PreparedJob> {
    if verdicts == [] then []
    else AcceptedRows(Init(verdicts)) + if Last(verdicts).Accepted? then [Last(verdicts).row] else []
  }

  function RefusedCount(verdicts: seq<Verdict>): nat {
    if verdicts == [] then 0 else RefusedCount(Init(verdicts)) + if Last(verdicts).Refused? then 1 else 0
  }

  lemma {:induction false} VerdictsSplit(verdicts: seq<Verdict>)
    ensures |AcceptedRows(verdicts)| + RefusedCount(verdicts) == |verdicts|
  {
    if verdicts != [] {
      VerdictsSplit(Init(verdicts));
    }
  }

  /** Yielded batches hold exactly the chunk size and no id twice. */
  ghost predicate BatchesFit(done: seq<seq<PreparedJob>>, size: nat) {
    forall i :: 0 <= i < |done| ==> |done[i]| == size && DistinctIds(done[i])
  }

  /** An accepted row is its record's prepared row. */
  ghost predicate VerdictsFit(ps: seq<Prepared>, verdicts: seq<Verdict>) {
    |verdicts| == |ps| && forall i :: 0 <= i < |ps| && verdicts[i].Accepted? ==> ps[i].row == Some(verdicts[i].row)
  }

  ghost predicate StreamInvariant(ps: seq<Prepared>, size: nat, s: Stream) {
    && VerdictsFit(ps, s.verdicts) && BatchesFit(s.done, size)
    && Flatten(s.done) + s.open == AcceptedRows(s.verdicts)
    && |s.open| < size && DistinctIds(s.open)
    && RefusedCount(s.verdicts) <= |s.reasons|
  }

  /** The batches are an order-preserving partition of the accepted rows, full ones hold exactly
      the chunk size, no batch repeats an id, an accepted row is its record's prepared row, and
      refused records are covered by recorded reasons. */
  lemma {:induction false} FeedAllInvariant(ps: seq<Prepared>, size: nat)
    requires size > 0 && forall p :: p in ps && p.row.None? ==> p.reasons != []
    ensures StreamInvariant(ps, size, FeedAll(ps, size))
  {
    if ps != [] {
      FeedAllInvariant(Init(ps), size);
      assert Last(ps) in ps && Init(ps) + [Last(ps)] == ps;
      FeedKeepsInvariant(Init(ps), size, FeedAll(Init(ps), size), Last(ps));
    }
  }

  lemma VerdictAdded(verdicts: seq<Verdict>, v: Verdict)
    ensures AcceptedRows(verdicts + [v]) == if v.Accepted? then AcceptedRows(verdicts) + [v.row] else AcceptedRows(verdicts)
    ensures RefusedCount(verdicts + [v]) == RefusedCount(verdicts) + if v.Refused? then 1 else 0
  {
    assert Init(verdicts + [v]) == verdicts;
  }

  lemma BatchAdded(done: seq<seq<PreparedJob>>, batch: seq<PreparedJob>)
    ensures Flatten(done + [batch]) == Flatten(done) + batch
  {
    assert Init(done + [batch]) == done;
  }

  lemma VerdictFits(ps: seq<Prepared>, verdicts: seq<Verdict>, p: Prepared, v: Verdict)
    requires VerdictsFit(ps, verdicts) && (v.Accepted? ==> p.row == Some(v.row))
    ensures VerdictsFit(ps + [p], verdicts + [v])
  {
  }

  lemma BatchFits(done: seq<seq<PreparedJob>>, size: nat, batch: seq<PreparedJob>)
    requires BatchesFit(done, size) && |batch| == size && DistinctIds(batch)
    ensures BatchesFit(done + [batch], size)
  {
    hide DistinctIds;
  }

  lemma RefusedKeeps(ps: seq<Prepared>, size: nat, s: Stream, p: Prepared, reasons: seq<Reason>)
    requires StreamInvariant(ps, size, s) && reasons != []
    ensures StreamInvariant(ps + [p], size, s.(reasons := s.reasons + reasons, verdicts := s.verdicts + [Refused]))
  {
    VerdictAdded(s.verdicts, Refused);
    VerdictFits(ps, s.verdicts, p, Refused);
    hide AcceptedRows;
    hide RefusedCount;
    hide Flatten;
    hide DistinctIds;
    hide BatchesFit;
    hide VerdictsFit;
  }

  lemma AcceptedKeeps(ps: seq<Prepared>, size: nat, s: Stream, p: Prepared)
    requires size > 0 && StreamInvariant(ps, size, s) && p.row.Some? && !SeenIn(s.open, p.row.value.externalId)
    ensures StreamInvariant(ps + [p], size, Feed(s, p, size))
  {
    hide AcceptedRows;
    hide RefusedCount;
    hide Flatten;
    hide DistinctIds;
    hide BatchesFit;
    hide VerdictsFit;
    hide SeenIn;
    var row := p.row.value;
    var batch := s.open + [row];
    VerdictAdded(s.verdicts, Accepted(row));
    VerdictFits(ps, s.verdicts, p, Accepted(row));
    DistinctAdded(s.open, row);
    assert Flatten(s.done) + batch == (Flatten(s.done) + s.open) + [row];
    if |batch| >= size {
      BatchAdded(s.done, batch);
      BatchFits(s.done, size, batch);
      assert Flatten(s.done + [batch]) + [] == Flatten(s.done) + batch;
    }
  }

  lemma DistinctAdded(rows: seq<PreparedJob>, row: PreparedJob)
    requires DistinctIds(rows) && !SeenIn(rows, row.externalId)
    ensures DistinctIds(rows + [row]) && DistinctIds([])
  {
  }

  lemma FeedKeepsInvariant(ps: seq<Prepared>, size: nat, s: Stream, p: Prepared)
    requires size > 0 && StreamInvariant(ps, size, s) && (p.row.None? ==> p.reasons != [])
    ensures StreamInvariant(ps + [p], size, Feed(s, p, size))
  {
    if p.row.None? {
      RefusedKeeps(ps, size, s, p, p.reasons);
    } else if SeenIn(s.open, p.row.value.externalId) {
      RefusedKeeps(ps, size, s, p, p.reasons + [DuplicateInBatch]);
      assert s.reasons + p.reasons + [DuplicateInBatch] == s.reasons + (p.reasons + [DuplicateInBatch]);
    } else {
      AcceptedKeeps(ps, size, s, p);
    }
    hide StreamInvariant;
    hide SeenIn;
  }

  /** A record is refused exactly when its stages rejected it or the batch being filled at that
      point already holds its id. */
  lemma {:induction false} RefusedExactly(ps: seq<Prepared>, size: nat, i: nat)
    requires i < |ps|
    ensures |FeedAll(ps, size).verdicts| == |ps|
    ensures FeedAll(ps, size).verdicts[i].Refused? <==>
      ps[i].row.None? || SeenIn(FeedAll(ps[..i], size).open, ps[i].row.value.externalId)
  {
    VerdictCount(Init(ps), size);
    if i < |ps| - 1 {
      RefusedExactly(Init(ps), size, i);
      assert Init(ps)[..i] == ps[..i];
    } else {
      assert Init(ps) == ps[..i];
    }
  }

  lemma {:induction false} VerdictCount(ps: seq<Prepared>, size: nat)
    ensures |FeedAll(ps, size).verdicts| == |ps|
  {
    if ps != [] {
      VerdictCount(Init(ps), size);
    }
  }

  /** End-to-end conservation for the stream: accepted rows are what the batches hold, in order;
      together with the refused ones they are all the records. */
  lemma BatchesPartition(ps: seq<Prepared>, size: nat)
    requires size > 0 && forall p :: p in ps && p.row.None? ==> p.reasons != []
    ensures var s, batches := FeedAll(ps, size), AllBatches(ps, size);
      && Flatten(batches) == AcceptedRows(s.verdicts)
      && |Flatten(batches)| + RefusedCount(s.verdicts) == |ps|
      && (forall i :: 0 <= i < |batches| ==> 0 < |batches[i]| <= size && DistinctIds(batches[i]))
      && (forall i :: 0 <= i < |batches| - 1 ==> |batches[i]| == size)
      && RefusedCount(s.verdicts) <= |s.reasons|
  {
    FeedAllInvariant(ps, size);
    var s := FeedAll(ps, size);
    VerdictsSplit(s.verdicts);
    assert Init(s.done + [s.open]) == s.done;
  }

  lemma {:induction false} RowsKeepSource(ps: seq<Prepared>, size: nat, source: string)
    requires forall p :: p in ps && p.row.Some? ==> p.row.value.source == source
    ensures var s := FeedAll(ps, size);
      && (forall r :: r in s.open ==> r.source == source)
      && (forall i, r :: 0 <= i < |s.done| && r in s.done[i] ==> r.source == source)
  {
    if ps != [] {
      RowsKeepSource(Init(ps), size, source);
      assert Last(ps) in ps;
    }
  }

  /** Every batch is one the loader takes. */
  lemma BatchesAreLoadable(ps: seq<Prepared>, size: nat, source: string)
    requires size > 0
    requires forall p :: p in ps ==> if p.row.None? then p.reasons != [] else p.row.value.source == source
    ensures LoadableBatch(FeedAll(ps, size).open)
    ensures forall i :: 0 <= i < |FeedAll(ps, size).done| ==> LoadableBatch(FeedAll(ps, size).done[i])
  {
    FeedAllInvariant(ps, size);
    RowsKeepSource(ps, size, source);
  }

  /** What was yielded stays yielded: the batches of a prefix of the records begin those of all. */
  lemma {:induction false} YieldedStays(ps: seq<Prepared>, size: nat, i: nat)
    requires i <= |ps|
    ensures FeedAll(ps[..i], size).done <= FeedAll(ps, size).done
    ensures FeedAll(ps, size).done <= AllBatches(ps, size)
  {
    if i < |ps| {
      YieldedStays(Init(ps), size, i);
      assert Init(ps)[..i] == ps[..i];
      var s := FeedAll(Init(ps), size);
      assert FeedAll(ps, size) == Feed(s, Last(ps), size);
      assert s.done <= FeedAll(ps, size).done;
    } else {
      assert ps[..i] == ps;
    }
  }

  /** What each record is given as reasons: those of its stages, and the repeat where only that refused it. */
  function ReasonsOf(ps: seq<Prepared>, verdicts: seq<Verdict>): seq<seq<Reason>>
    requires |verdicts| == |ps|
  {
    seq(|ps|, i requires 0 <= i < |ps| =>
      ps[i].reasons + if ps[i].row.Some? && verdicts[i].Refused? then [DuplicateInBatch] else [])
  }

  /** The recorded reasons are the records' own, in order. */
  lemma {:induction false} ReasonsExactly(ps: seq<Prepared>, size: nat)
    ensures var s := FeedAll(ps, size); |s.verdicts| == |ps| && s.reasons == Flatten(ReasonsOf(ps, s.verdicts))
  {
    VerdictCount(ps, size);
    if ps != [] {
      ReasonsExactly(Init(ps), size);
      VerdictCount(Init(ps), size);
      var s, t := FeedAll(Init(ps), size), FeedAll(ps, size);
      OneMoreVerdict(s, Last(ps), size);
      hide FeedAll;
      hide Feed;
      ReasonsNext(Init(ps), Last(ps), s.verdicts, Last(t.verdicts));
      assert Init(ps) + [Last(ps)] == ps && s.verdicts + [Last(t.verdicts)] == t.verdicts;
    }
  }

  lemma OneMoreVerdict(s: Stream, p: Prepared, size: nat)
    ensures var t := Feed(s, p, size);
      && t.verdicts != [] && Init(t.verdicts) == s.verdicts
      && t.reasons == s.reasons + (p.reasons + if p.row.Some? && Last(t.verdicts).Refused? then [DuplicateInBatch] else [])
  {
    assert p.reasons + [] == p.reasons;
  }

  lemma ReasonsNext(ps: seq<Prepared>, p: Prepared, verdicts: seq<Verdict>, v: Verdict)
    requires |verdicts| == |ps|
    ensures Flatten(ReasonsOf(ps + [p], verdicts + [v])) ==
      Flatten(ReasonsOf(ps, verdicts)) + (p.reasons + if p.row.Some? && v.Refused? then [DuplicateInBatch] else [])
  {
    assert Init(ReasonsOf(ps + [p], verdicts + [v])) == ReasonsOf(ps, verdicts);
  }

  lemma {:induction false} ReasonsStay(ps: seq<Prepared>, size: nat, i: nat)
    requires i <= |ps|
    ensures FeedAll(ps[..i], size).reasons <= FeedAll(ps, size).reasons
  {
    if i < |ps| {
      ReasonsStay(Init(ps), size, i);
      assert Init(ps)[..i] == ps[..i];
      var s := FeedAll(Init(ps), size);
      assert FeedAll(ps, size) == Feed(s, Last(ps), size);
      assert s.reasons <= FeedAll(ps, size).reasons;
    } else {
      assert ps[..i] == ps;
    }
  }

  /** One verdict more, and what it adds to the counts. */
  lemma VerdictNext(s: Stream, p: Prepared, size: nat)
    ensures var t, accepted := Feed(s, p, size), p.row.Some? && !SeenIn(s.open, p.row.value.externalId);
      && |t.verdicts| == |s.verdicts| + 1
      && |AcceptedRows(t.verdicts)| == |AcceptedRows(s.verdicts)| + (if accepted then 1 else 0)
      && RefusedCount(t.verdicts) == RefusedCount(s.verdicts) + (if accepted then 0 else 1)
  {
  }
}
