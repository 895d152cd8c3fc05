/**
 What each step of the provisioning worker writes, field by field, and where final statuses come from
 (src/jobs/system-account-provisioning.js, 122-130 and 150-256).
 */
module ProvisioningOutcomes {
  import opened Options
  import opened Provisioning

  // ---------------------------------------------------------------- the backoff

  /** The first wait is thirty seconds, each further one is twice as long, and none is longer than an hour. */
  lemma {:induction false} BackoffDoubles(attempt: int)
    ensures attempt <= 1 ==> BaseDelay(attempt) == 30_000
    ensures attempt >= 1 ==> BaseDelay(attempt + 1)
                             == (if 2 * BaseDelay(attempt) < 3_600_000 then 2 * BaseDelay(attempt) else 3_600_000)
  {
    if attempt >= 1 {
      assert Doubled(attempt) == 2 * Doubled(attempt - 1);
    }
  }

  /** Jitter adds the whole part of a fifth of the wait, times the draw. */
  lemma {:induction false} JitterIsAFifth(attempt: int, jitter: Jitter)
    ensures var extra, base := RetryDelay(attempt, jitter) - BaseDelay(attempt), BaseDelay(attempt);
            extra as real <= base as real * 0.2 * jitter < extra as real + 1.0
  {
    var x := BaseDelay(attempt) as real * 0.2 * jitter;
    assert x.Floor as real <= x < x.Floor as real + 1.0;
  }

  // ---------------------------------------------------------------- scanning and claiming

  /** A batch dates its claims at its own start. */
  lemma {:induction false} BatchesStart(s: State, w: WorkerId, leaseMs: nat)
    requires Enabled(s, Begin(w, leaseMs))
    ensures var b := Next(s, Begin(w, leaseMs)).workers[w];
            b.startedAt == s.now && b.leaseUntil == s.now + leaseMs && b.candidates == [] && b.phase == Scanning
  {
  }

  /** The scan may find a row exactly when it is unclaimed and due, or its claim ran out before the batch started. */
  lemma {:induction false} ScanFinds(s: State, w: WorkerId, r: RowId)
    requires w in s.workers && s.workers[w].phase == Scanning && r in s.rows
    ensures var row, start := s.rows[r], s.workers[w].startedAt;
            var expired := row.claimExpiresAt.Some? && row.claimExpiresAt.value < start;
            Enabled(s, Scan(w, [r])) <==>
              || (row.status in {Pending, RetryWait} && (row.claimedAt.None? || expired)
                  && row.nextAttemptAt.Some? && row.nextAttemptAt.value <= start)
              || (row.status == Processing && expired)
    ensures Enabled(s, Scan(w, [r])) ==>
              Next(s, Scan(w, [r])).workers[w].candidates == [Snapshot(r, s.rows[r].attempts, s.rows[r].maxAttempts)]
  {
    var found := [r];
    assert found[0] == r;
    if Enabled(s, Scan(w, found)) {
      assert ReadAll(s, found) == [Snapshot(r, s.rows[r].attempts, s.rows[r].maxAttempts)];
    }
  }

  /** A claim that is applied wins exactly the rows that are free, and marks them with its batch; else nothing moves. */
  lemma {:induction false} ClaimWrites(s: State, step: Step)
    requires Enabled(s, step) && (step.Claim? || step.ClaimThrows?)
    ensures var b := s.workers[step.worker];
            var id := b.candidates[b.next].id;
            var row := s.rows[id];
            var expired := row.claimExpiresAt.Some? && row.claimExpiresAt.value < b.startedAt;
            var free := (row.status in {Pending, RetryWait} && (row.claimedAt.None? || expired))
                        || (row.status == Processing && expired);
            var wins := free && (step.ClaimThrows? ==> step.applied);
            var t := Next(s, step);
            && (wins ==> t.rows == s.rows[id := Row(Processing, row.attempts, row.maxAttempts, row.nextAttemptAt,
                                                    Some(b.startedAt), Some(step.worker), Some(b.leaseUntil))])
            && (!wins ==> t.rows == s.rows)
            && (step.ClaimThrows? ==> step.worker !in t.workers)
            && (step.Claim? ==>
                  && step.worker in t.workers
                  && t.workers[step.worker] == if free then b.(phase := Calling, claimed := b.claimed + 1)
                                               else b.(next := b.next + 1, raceLost := b.raceLost + 1))
  {
  }

  /** The remaining steps leave every row alone: time, an answer taken in, a batch that ends or dies. */
  lemma {:induction false} OtherSteps(s: State, step: Step)
    requires Enabled(s, step) && (step.Tick? || step.Call? || step.Finish? || step.Crash?)
    ensures var t := Next(s, step);
            && t.rows == s.rows
            && (step.Tick? ==> t.now == step.to >= s.now && t.workers == s.workers)
            && (step.Call? ==> step.worker in s.workers && s.workers[step.worker].phase == Calling
                               && t.workers
                                  == s.workers[step.worker := s.workers[step.worker].(phase := Writing(step.answer))])
            && (step.Finish? ==> t.workers == s.workers - {step.worker}
                                 && s.workers[step.worker].next == |s.workers[step.worker].candidates|)
            && (step.Crash? ==> t.workers == s.workers - {step.worker})
  {
  }

  // ---------------------------------------------------------------- recording an outcome

  /** A client error other than a timeout, a conflict, too early and too many requests. */
  ghost predicate Rejects(answer: Answer) {
    match answer
    case Done => false
    case Refused(None) => false
    case Refused(Some(code)) => 400 <= code <= 499 && code != 408 && code != 409 && code != 425 && code != 429
  }

  /** The claim holder's own row, when its write reaches the database. */
  ghost predicate Stores(s: State, step: Step, r: RowId)
    requires Enabled(s, step)
  {
    && (step.Write? || (step.WriteThrows? && step.applied)) && r in s.rows
    && s.workers[step.worker].candidates[s.workers[step.worker].next].id == r
    && s.rows[r].status == Processing && s.rows[r].claimedBy == Some(step.worker)
  }

  /**
   What a recorded outcome leaves of a row: succeeded if and only if the service did its work, failed for good if and
   only if it rejected the request or the attempts are used up, waiting otherwise, and only then with a next attempt.
   */
  lemma {:induction false} OutcomeIsStored(s: State, step: Step, r: RowId)
    requires Enabled(s, step) && Stores(s, step, r)
    ensures RecordsOutcome(s, step, r) && r in Next(s, step).rows
    ensures var b := s.workers[step.worker];
            var snap, answer, after := b.candidates[b.next], b.phase.answer, Next(s, step).rows[r];
            && (after.status == Succeeded <==> answer == Done)
            && (after.status == TerminalFailed <==>
                  answer != Done && (Rejects(answer) || snap.attempts + 1 >= snap.maxAttempts))
            && (after.status == RetryWait <==>
                  answer != Done && !Rejects(answer) && snap.attempts + 1 < snap.maxAttempts)
            && after.attempts == snap.attempts + 1 && after.maxAttempts == s.rows[r].maxAttempts
            && after.claimedAt.None? && after.claimedBy.None? && after.claimExpiresAt.None?
            && (after.nextAttemptAt.Some? <==> after.status == RetryWait)
            && (after.status == RetryWait ==>
                  after.nextAttemptAt == Some(s.now + RetryDelay(snap.attempts + 1, step.jitter)))
  {
  }

  /** No other row is touched by a write, and a write that is not applied or finds its claim gone touches none. */
  lemma {:induction false} OnlyStored(s: State, step: Step, r: RowId)
    requires Enabled(s, step) && (step.Write? || step.WriteThrows?) && r in s.rows && !Stores(s, step, r)
    ensures r in Next(s, step).rows && Next(s, step).rows[r] == s.rows[r]
  {
  }

  /** Whatever the database did with it, a write that returns is counted and the batch goes on. */
  lemma {:induction false} WriteCounts(s: State, w: WorkerId, jitter: Jitter)
    requires Enabled(s, Write(w, jitter))
    ensures var b, c := s.workers[w], Next(s, Write(w, jitter)).workers[w];
            && c.phase == Claiming && c.next == b.next + 1 && c.claimed == b.claimed && c.raceLost == b.raceLost
            && c.succeeded == b.succeeded + (if b.phase.answer == Done then 1 else 0)
            && c.failed == b.failed + (if b.phase.answer == Done then 0 else 1)
  {
  }

  // ---------------------------------------------------------------- where a final status comes from

  /** The service's answer earns the row its final status. */
  ghost predicate Earns(snap: Snapshot, answer: Answer, final: Status) {
    if answer == Done then final == Succeeded
    else final == TerminalFailed && (Rejects(answer) || snap.attempts + 1 >= snap.maxAttempts)
  }

  ghost predicate AnswersNow(s: State, step: Step, r: RowId, final: Status)
    requires Enabled(s, step)
  {
    step.Call? && s.workers[step.worker].candidates[s.workers[step.worker].next].id == r
    && Earns(s.workers[step.worker].candidates[s.workers[step.worker].next], step.answer, final)
  }

  /** Somewhere in the run the service gave such an answer about the row. */
  ghost predicate Answered(s: State, steps: seq<Step>, r: RowId, final: Status)
    decreases |steps|
  {
    |steps| > 0 && Enabled(s, steps[0])
    && (AnswersNow(s, steps[0], r, final) || Answered(Next(s, steps[0]), steps[1..], r, final))
  }

  /** A worker has the answer and has not stored it yet. */
  ghost predicate Unstored(s: State, w: WorkerId, r: RowId, final: Status) {
    && w in s.workers && s.workers[w].phase.Writing? && s.workers[w].next < |s.workers[w].candidates|
    && s.workers[w].candidates[s.workers[w].next].id == r
    && Earns(s.workers[w].candidates[s.workers[w].next], s.workers[w].phase.answer, final)
  }

  lemma {:induction false} StatusComesFrom(s: State, step: Step, r: RowId, final: Status)
    requires Inv(s) && Enabled(s, step) && final in {Succeeded, TerminalFailed}
    requires r in Next(s, step).rows && Next(s, step).rows[r].status == final
    ensures (r in s.rows && s.rows[r].status == final) || exists w :: Unstored(s, w, r, final)
  {
    if step.Write? || step.WriteThrows? {
      if Stores(s, step, r) {
        OutcomeIsStored(s, step, r);
        assert Unstored(s, step.worker, r, final);
      } else {
        OnlyStored(s, step, r);
      }
    } else if r in s.rows {
      RowChangesOnlyByHolder(s, step, r);
    }
  }

  lemma {:induction false} AnswerComesFrom(s: State, step: Step, w: WorkerId, r: RowId, final: Status)
    requires Enabled(s, step) && Unstored(Next(s, step), w, r, final)
    ensures Unstored(s, w, r, final) || AnswersNow(s, step, r, final)
  {
  }

  lemma {:induction false} FinalComesFrom(s: State, steps: seq<Step>, t: State, r: RowId, final: Status)
    requires Inv(s) && Run(s, steps, t) && final in {Succeeded, TerminalFailed}
    requires r in t.rows && t.rows[r].status == final
    ensures (r in s.rows && s.rows[r].status == final) || (exists w :: Unstored(s, w, r, final))
            || Answered(s, steps, r, final)
    decreases |steps|
  {
    if |steps| > 0 {
      var u := Next(s, steps[0]);
      StepKeepsInv(s, steps[0]);
      FinalComesFrom(u, steps[1..], t, r, final);
      if r in u.rows && u.rows[r].status == final {
        StatusComesFrom(s, steps[0], r, final);
      } else if w :| Unstored(u, w, r, final) {
        AnswerComesFrom(s, steps[0], w, r, final);
      }
    }
  }

  /**
   Over every run from the start, a succeeded row is one about which the service answered that it was done, and a
   failed one is one about which it answered with a rejection or on the last attempt.
   */
  lemma {:induction false} FinalStatusWasAnswered(s: State, steps: seq<Step>, t: State, r: RowId)
    requires Init(s) && Run(s, steps, t) && r in t.rows
    ensures t.rows[r].status == Succeeded ==> Answered(s, steps, r, Succeeded)
    ensures t.rows[r].status == TerminalFailed ==> Answered(s, steps, r, TerminalFailed)
  {
    if t.rows[r].status in {Succeeded, TerminalFailed} {
      FinalComesFrom(s, steps, t, r, t.rows[r].status);
    }
  }
}
