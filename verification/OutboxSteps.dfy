/**
 What each step of the dispatcher writes, field by field, and what a whole run adds up to
 (src/jobs/outbox.dispatcher.js, 175-326).
 */
module OutboxSteps {
  import opened Options
  import opened Outbox

  // ---------------------------------------------------------------- scanning and claiming

  /**
   A batch takes one deadline for all its claims: its start plus the lease, brought between a second and ten minutes.
   */
  lemma {:induction false} BatchesStart(s: State, w: WorkerId, leaseMs: int)
    requires Enabled(s, Begin(w, leaseMs))
    ensures var b := Next(s, Begin(w, leaseMs)).workers[w];
            && b.startedAt == s.now && b.startedAt + 1_000 <= b.deadline <= b.startedAt + 600_000
            && (1_000 <= leaseMs <= 600_000 ==> b.deadline == b.startedAt + leaseMs)
            && (leaseMs < 1_000 ==> b.deadline == b.startedAt + 1_000)
            && (leaseMs > 600_000 ==> b.deadline == b.startedAt + 600_000)
            && b.candidates == [] && b.claimed == []
  {
  }

  /** Not marked published, and claimed by nobody or under a lease that ended before the batch began. */
  ghost predicate Free(row: Row, startedAt: int) {
    && row.publishedAt == None
    && (row.claimedAt == None || (row.claimExpiresAt.Some? && row.claimExpiresAt.value < startedAt))
  }

  /** A scan may find a row exactly when it is free. */
  lemma {:induction false} ScanFinds(s: State, w: WorkerId, r: RowId)
    requires w in s.workers && s.workers[w].stage == Scanning && r in s.rows
    ensures Enabled(s, Scan(w, [r])) <==> Free(s.rows[r], s.workers[w].startedAt)
    ensures Enabled(s, Scan(w, [r])) ==> Next(s, Scan(w, [r])).workers[w].candidates == [r]
  {
    var found := [r];
    assert found[0] == r && forall x :: x in found ==> x == r;
  }

  /** A claim wins exactly a free row, writes the batch's claim on it and lists it; else it counts a lost race. */
  lemma {:induction false} ClaimWrites(s: State, w: WorkerId)
    requires Enabled(s, Claim(w))
    ensures var b, t := s.workers[w], Next(s, Claim(w));
            var r := b.candidates[b.examined];
            var row, c := s.rows[r], t.workers[w];
            && (Free(row, b.startedAt) ==>
                  && t.rows == s.rows[r := Row(row.publishedAt, Some(b.startedAt), Some(w), Some(b.deadline),
                                               row.attempts, row.failedLast)]
                  && c == b.(examined := b.examined + 1, claimed := b.claimed + [r]))
            && (!Free(row, b.startedAt) ==>
                  t.rows == s.rows && c == b.(examined := b.examined + 1, raceLost := b.raceLost + 1))
            && t.stream == s.stream
  {
  }

  // ---------------------------------------------------------------- publishing

  /** A publish that reaches the stream appends one entry for the worker's row; no row changes. */
  lemma {:induction false} PublishWrites(s: State, step: Step)
    requires Enabled(s, step) && (step.Publish? || step.PublishThrows?)
    ensures var b, t := s.workers[step.worker], Next(s, step);
            && t.rows == s.rows
            && t.stream == s.stream + (if step.Publish? || step.sent
                                       then [Entry(b.claimed[b.handled], step.worker, b.deadline, s.now)] else [])
            && t.workers[step.worker]
               == (if step.Publish? then b.(stage := Marking) else b.(stage := Releasing, failed := b.failed + 1))
  {
  }

  /** The worker's claim is still on its row when the write looks. */
  ghost predicate StillClaimed(s: State, w: WorkerId)
    requires w in s.workers && s.workers[w].handled < |s.workers[w].claimed|
    requires s.workers[w].claimed[s.workers[w].handled] in s.rows
  {
    s.rows[s.workers[w].claimed[s.workers[w].handled]].claimedBy == Some(w)
  }

  /**
   A mark that reaches the database publishes the worker's unpublished row, now and for good, and clears its claim;
   when the claim is gone it changes no row and counts an expired lease.
   */
  lemma {:induction false} MarkWrites(s: State, step: Step)
    requires Enabled(s, step) && (step.Mark? || step.MarkThrows?)
    ensures var w, b, t := step.worker, s.workers[step.worker], Next(s, step);
            var r := b.claimed[b.handled];
            var row := s.rows[r];
            var found := StillClaimed(s, w) && row.publishedAt == None;
            && (found && (step.Mark? || step.applied) ==>
                  t.rows == s.rows[r := Row(Some(s.now), None, None, None, row.attempts + 1, false)])
            && (!(found && (step.Mark? || step.applied)) ==> t.rows == s.rows)
            && t.stream == s.stream
            && t.workers[w]
               == (if step.MarkThrows? then b.(stage := Releasing, failed := b.failed + 1)
                   else if found then
                     b.(stage := Publishing, handled := b.handled + 1, published := b.published + 1)
                   else b.(stage := Publishing, handled := b.handled + 1, expiredMidPublish := b.expiredMidPublish + 1))
  {
  }

  /** A failure that is recorded clears the claim, counts the attempt and keeps whether the row was published. */
  lemma {:induction false} ReleaseWrites(s: State, step: Step)
    requires Enabled(s, step) && (step.Release? || step.ReleaseThrows?)
    ensures var w, b, t := step.worker, s.workers[step.worker], Next(s, step);
            var r := b.claimed[b.handled];
            var row := s.rows[r];
            var recorded := StillClaimed(s, w) && (step.Release? || step.applied);
            && (recorded ==>
                  t.rows == s.rows[r := Row(row.publishedAt, None, None, None, row.attempts + 1, true)])
            && (!recorded ==> t.rows == s.rows)
            && t.stream == s.stream
            && t.workers[w]
               == (if step.Release? then b.(stage := Publishing, handled := b.handled + 1)
                   else b.(stage := Publishing, handled := b.handled + 1, bookkeepingFailed := b.bookkeepingFailed + 1))
  {
  }

  /** The remaining steps touch no row that is there and no entry. */
  lemma {:induction false} OtherSteps(s: State, step: Step)
    requires Enabled(s, step)
    requires step.Tick? || step.Insert? || step.ClaimsDone? || step.Finish? || step.Crash?
    ensures var t := Next(s, step);
            && t.stream == s.stream
            && (step.Insert? ==>
                  step.row !in s.rows && t.rows == s.rows[step.row := Row(None, None, None, None, 0, false)])
            && (!step.Insert? ==> t.rows == s.rows)
            && (step.Tick? ==> t.now == step.to >= s.now)
            && (step.ClaimsDone? ==>
                  && s.workers[step.worker].examined == |s.workers[step.worker].candidates|
                  && t.workers == s.workers[step.worker := s.workers[step.worker].(stage := Publishing)])
            && (step.Finish? ==>
                  s.workers[step.worker].handled == |s.workers[step.worker].claimed|
                  && t.workers == s.workers - {step.worker})
            && (step.Crash? ==> t.workers == s.workers - {step.worker})
  {
  }

  // ---------------------------------------------------------------- what a run adds up to

  /** The step sends the row to the stream. */
  ghost predicate Sends(s: State, step: Step, r: RowId)
    requires Enabled(s, step)
  {
    && (step.Publish? || (step.PublishThrows? && step.sent))
    && s.workers[step.worker].claimed[s.workers[step.worker].handled] == r
  }

  /** The step records the end of an attempt on the row, sent or failed. */
  ghost predicate Records(s: State, step: Step, r: RowId)
    requires Enabled(s, step)
  {
    && (step.Mark? || (step.MarkThrows? && step.applied) || step.Release? || (step.ReleaseThrows? && step.applied))
    && s.workers[step.worker].claimed[s.workers[step.worker].handled] == r
    && StillClaimed(s, step.worker)
    && (step.Mark? || step.MarkThrows? ==> s.rows[r].publishedAt == None)
  }

  ghost function SendsIn(s: State, steps: seq<Step>, r: RowId): nat
    decreases |steps|
  {
    if |steps| == 0 || !Enabled(s, steps[0]) then 0
    else SendsIn(Next(s, steps[0]), steps[1..], r) + (if Sends(s, steps[0], r) then 1 else 0)
  }

  ghost function RecordsIn(s: State, steps: seq<Step>, r: RowId): nat
    decreases |steps|
  {
    if |steps| == 0 || !Enabled(s, steps[0]) then 0
    else RecordsIn(Next(s, steps[0]), steps[1..], r) + (if Records(s, steps[0], r) then 1 else 0)
  }

  /** How often the row is on the stream. */
  function Copies(stream: seq<Entry>, r: RowId): nat {
    if |stream| == 0 then 0 else Copies(stream[..|stream| - 1], r) + (if stream[|stream| - 1].row == r then 1 else 0)
  }

  lemma {:induction false} CopiesSnoc(stream: seq<Entry>, e: Entry, r: RowId)
    ensures Copies(stream + [e], r) == Copies(stream, r) + (if e.row == r then 1 else 0)
    ensures stream + [] == stream
  {
    assert (stream + [e])[..|stream|] == stream;
  }

  lemma {:induction false} StepSends(s: State, step: Step, r: RowId)
    requires Enabled(s, step)
    ensures Copies(Next(s, step).stream, r) == Copies(s.stream, r) + (if Sends(s, step, r) then 1 else 0)
  {
    if step.Publish? || step.PublishThrows? {
      var b := s.workers[step.worker];
      PublishWrites(s, step);
      CopiesSnoc(s.stream, Entry(b.claimed[b.handled], step.worker, b.deadline, s.now), r);
    }
  }

  lemma {:induction false} StepRecords(s: State, step: Step, r: RowId)
    requires Enabled(s, step) && r in s.rows
    ensures r in Next(s, step).rows
    ensures Next(s, step).rows[r].attempts == s.rows[r].attempts + (if Records(s, step, r) then 1 else 0)
  {
    if step.Mark? || step.MarkThrows? {
      MarkWrites(s, step);
    } else if step.Release? || step.ReleaseThrows? {
      ReleaseWrites(s, step);
    } else if step.Claim? {
      ClaimWrites(s, step.worker);
    }
  }

  /** Over every run the stream gains one copy per send, and a row one attempt per recorded end of an attempt. */
  lemma {:induction false} RunsAddUp(s: State, steps: seq<Step>, t: State, r: RowId)
    requires Run(s, steps, t) && r in s.rows
    ensures Copies(t.stream, r) == Copies(s.stream, r) + SendsIn(s, steps, r)
    ensures r in t.rows && t.rows[r].attempts == s.rows[r].attempts + RecordsIn(s, steps, r)
    decreases |steps|
  {
    if |steps| > 0 {
      StepSends(s, steps[0], r);
      StepRecords(s, steps[0], r);
      RunsAddUp(Next(s, steps[0]), steps[1..], t, r);
    }
  }
}
