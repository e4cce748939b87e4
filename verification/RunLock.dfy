/** The per-source run lock as a state machine over sync_runs. Workers may crash, be reclaimed
    while alive, and finish late; the clock only moves forward. */
module RunLock {
  import opened Prelude
  import opened Schema
  import opened Sync

  datatype State = State(runs: map<nat, RunRow>, nextRun: nat, now: Time)

  datatype Step =
    | Tick(to: Time)
    | Start(source: string)
    | StartRefused(source: string)
    | Reclaim(source: string, minutes: nat)
    | Finish(run: nat, status: SyncStatus)
    | FinishRefused(run: nat, status: SyncStatus)
    | Crash

  ghost predicate Initial(s: State) {
    s.runs == map[] && s.nextRun == 0
  }

  ghost predicate Next(s: State, step: Step, s': State) {
    match step
    case Tick(to) => s.now <= to && s' == s.(now := to)
    case Start(source) => !HasActive(s.runs, source)
      && s' == s.(runs := s.runs[s.nextRun := RunRow(source, Running, s.now, None)], nextRun := s.nextRun + 1)
    case StartRefused(source) => HasActive(s.runs, source) && s' == s
    case Reclaim(source, minutes) => s' == s.(runs := Reclaimed(s.runs, source, minutes, s.now))
    case Finish(run, status) => run in s.runs && FinishAllowed(s.runs, run, status)
      && s' == s.(runs := WithStatus(s.runs, run, status, s.now))
    case FinishRefused(run, status) => run in s.runs && !FinishAllowed(s.runs, run, status) && s' == s
    case Crash => s' == s
  }

  ghost predicate Behaviour(trace: seq<State>, steps: seq<Step>) {
    && |trace| == |steps| + 1 && Initial(trace[0])
    && forall i :: 0 <= i < |steps| ==> Next(trace[i], steps[i], trace[i + 1])
  }

  ghost predicate Invariant(s: State) {
    && OneActive(s.runs)
    && (forall id :: id in s.runs ==> id < s.nextRun && s.runs[id].startedAt <= s.now)
  }

  lemma StepKeepsInvariant(s: State, step: Step, s': State)
    requires Invariant(s) && Next(s, step, s')
    ensures Invariant(s')
  {
  }

  /** In every reachable state a source has at most one PENDING or RUNNING row. */
  lemma {:induction false} AtMostOneActive(trace: seq<State>, steps: seq<Step>, i: nat)
    requires Behaviour(trace, steps) && i < |trace|
    ensures Invariant(trace[i])
  {
    if i > 0 {
      AtMostOneActive(trace, steps, i - 1);
      assert Next(trace[i - 1], steps[i - 1], trace[i]);
      StepKeepsInvariant(trace[i - 1], steps[i - 1], trace[i]);
    }
  }

  /** Reclaim-then-start succeeds exactly when the reclaim window of the active run, if there is
      one, has passed; then the new run is the one active row. */
  lemma ReclaimThenStart(s: State, source: string, minutes: nat)
    requires Invariant(s)
    ensures var runs := Reclaimed(s.runs, source, minutes, s.now);
      !HasActive(runs, source) <==>
        forall id :: id in s.runs && s.runs[id].source == source && HoldsLock(s.runs[id]) ==>
          s.runs[id].startedAt < s.now - minutes * MINUTE
  {
    var runs := Reclaimed(s.runs, source, minutes, s.now);
    forall id | id in s.runs && s.runs[id].source == source && HoldsLock(s.runs[id])
      ensures id in runs && (HoldsLock(runs[id]) <==> !(s.runs[id].startedAt < s.now - minutes * MINUTE))
    {
    }
  }

  ghost predicate StartedBy(s: State, source: string, time: Time) {
    forall id :: id in s.runs && s.runs[id].source == source ==> s.runs[id].startedAt <= time
  }

  lemma {:induction false} NothingStarted(trace: seq<State>, steps: seq<Step>, i: nat, j: nat, source: string)
    requires Behaviour(trace, steps) && i <= j < |trace|
    requires forall k :: i <= k < j ==> steps[k] != Start(source)
    ensures StartedBy(trace[j], source, trace[i].now)
  {
    if i == j {
      AtMostOneActive(trace, steps, i);
    } else {
      NothingStarted(trace, steps, i, j - 1, source);
      assert Next(trace[j - 1], steps[j - 1], trace[j]);
    }
  }

  /** A crashed worker costs at most the window: whatever happened up to some moment, and whatever
      else but a start of the source happens after it, once the clock is past that moment by more
      than the window the lock can be taken. */
  lemma LockAlwaysRecovers(trace: seq<State>, steps: seq<Step>, i: nat, j: nat, source: string, minutes: nat)
    requires Behaviour(trace, steps) && i <= j < |trace|
    requires forall k :: i <= k < j ==> steps[k] != Start(source)
    requires trace[j].now > trace[i].now + minutes * MINUTE
    ensures !HasActive(Reclaimed(trace[j].runs, source, minutes, trace[j].now), source)
  {
    NothingStarted(trace, steps, i, j, source);
  }

  /** Mutual exclusion in time: of two runs of one source, the later could start only because the
      earlier was no longer active at that moment, so an active row is always the newest. */
  ghost predicate NewestIsActive(s: State) {
    forall a, b :: a in s.runs && b in s.runs && s.runs[a].source == s.runs[b].source && a < b ==> s.runs[a].status != Running
  }

  lemma {:induction false} OnlyTheNewestRuns(trace: seq<State>, steps: seq<Step>, i: nat)
    requires Behaviour(trace, steps) && i < |trace|
    requires forall k :: 0 <= k < |steps| && steps[k].Finish? ==> steps[k].status != Running
    ensures NewestIsActive(trace[i])
  {
    if i > 0 {
      AtMostOneActive(trace, steps, i - 1);
      OnlyTheNewestRuns(trace, steps, i - 1);
      assert Next(trace[i - 1], steps[i - 1], trace[i]);
    }
  }

  /** A late finish by a reclaimed worker never blocks anyone, unless it is the PENDING that an
      interrupted worker writes: that takes the lock back when it is free. */
  lemma LateFinish(s: State, run: nat, status: SyncStatus)
    requires Invariant(s) && run in s.runs && FinishAllowed(s.runs, run, status)
    ensures var after := WithStatus(s.runs, run, status, s.now);
      && (forall source :: HasActive(after, source) && !HasActive(s.runs, source) <==>
            source == s.runs[run].source && status in {Pending, Running} && !HasActive(s.runs, source))
  {
    var after := WithStatus(s.runs, run, status, s.now);
    forall source | HasActive(after, source) && !HasActive(s.runs, source)
      ensures source == s.runs[run].source && status in {Pending, Running}
    {
      var id :| id in after && after[id].source == source && HoldsLock(after[id]);
    }
    if status in {Pending, Running} {
      assert run in after && after[run].source == s.runs[run].source && HoldsLock(after[run]);
    }
  }

  /** Reclaiming a worker that was only slow: a second run starts beside it, and its late finish
      turns the FAILED row it was given into SUCCEEDED. */
  lemma SlowWorkerIsReclaimed(source: string, minutes: nat) returns (trace: seq<State>, steps: seq<Step>)
    ensures Behaviour(trace, steps)
    ensures |trace| == 6 && 0 in trace[3].runs && trace[3].runs[0].status == Failed
    ensures 0 in trace[5].runs && 1 in trace[5].runs
    ensures trace[5].runs[0].status == Succeeded && trace[5].runs[1].status == Running
  {
    var late := minutes * MINUTE + 1;
    var first := RunRow(source, Running, 0, None);
    var s0 := State(map[], 0, 0);
    var s1 := State(map[0 := first], 1, 0);
    var s2 := s1.(now := late);
    var s3 := s2.(runs := Reclaimed(s2.runs, source, minutes, late));
    var s4 := s3.(runs := s3.runs[1 := RunRow(source, Running, late, None)], nextRun := 2);
    var s5 := s4.(runs := WithStatus(s4.runs, 0, Succeeded, late));
    trace := [s0, s1, s2, s3, s4, s5];
    steps := [Start(source), Tick(late), Reclaim(source, minutes), Start(source), Finish(0, Succeeded)];
    assert s1.runs == s0.runs[0 := first];
    assert Next(s0, steps[0], s1) && Next(s1, steps[1], s2) && Next(s2, steps[2], s3);
    assert Next(s3, steps[3], s4) && Next(s4, steps[4], s5);
  }
}
