/**
 System-account provisioning as a leased retry protocol (src/jobs/system-account-provisioning.js, 122-130 and
 150-256). Every await of a batch is a step of its own, so a worker acts on the snapshot of its scan while other
 workers, crashes and thrown database calls change the rows under it.
 */
module Provisioning {
  import opened Options
  import opened Sequences

  type RowId = int
  type WorkerId = int

  datatype Status = Pending | Processing | RetryWait | Succeeded | TerminalFailed

  datatype Row = Row(
    status: Status, attempts: nat, maxAttempts: nat, nextAttemptAt: Option<int>,
    claimedAt: Option<int>, claimedBy: Option<WorkerId>, claimExpiresAt: Option<int>)

  /** What the scan read of a row. */
  datatype Snapshot = Snapshot(id: RowId, attempts: nat, maxAttempts: nat)

  /** The answer of the account service; a thrown call has no HTTP status. */
  datatype Answer = Done | Refused(httpStatus: Option<int>)

  datatype Phase = Scanning | Claiming | Calling | Writing(answer: Answer)

  datatype Batch = Batch(
    startedAt: int, leaseUntil: int, phase: Phase, candidates: seq<Snapshot>, next: nat,
    claimed: nat, succeeded: nat, failed: nat, raceLost: nat)

  datatype State = State(now: int, rows: map<RowId, Row>, workers: map<WorkerId, Batch>)

  /** A random draw in [0, 1). */
  type Jitter = j: real | 0.0 <= j < 1.0 witness 0.0

  datatype Step =
    | Tick(to: int)
    | Insert(row: RowId, maxAttempts: nat)
    | Begin(worker: WorkerId, leaseMs: nat)
    | Scan(worker: WorkerId, found: seq<RowId>)
    | Claim(worker: WorkerId)
    | ClaimThrows(worker: WorkerId, applied: bool)
    | Call(worker: WorkerId, answer: Answer)
    | Write(worker: WorkerId, jitter: Jitter)
    | WriteThrows(worker: WorkerId, jitter: Jitter, applied: bool)
    | Finish(worker: WorkerId)
    | Crash(worker: WorkerId)

  // ---------------------------------------------------------------- backoff

  const FIRST_DELAY := 30_000
  const LONGEST_DELAY := 3_600_000

  function Doubled(n: nat): (r: int)
    ensures r >= 1
  {
    if n == 0 then 1 else 2 * Doubled(n - 1)
  }

  function BaseDelay(attempt: int): (r: int)
    ensures FIRST_DELAY <= r <= LONGEST_DELAY
  {
    var raw := FIRST_DELAY * Doubled(if attempt >= 1 then attempt - 1 else 0);
    if raw < LONGEST_DELAY then raw else LONGEST_DELAY
  }

  /** Up to a fifth of the base on top. */
  function Extra(base: int, jitter: Jitter): int {
    (base as real * 0.2 * jitter).Floor
  }

  function RetryDelay(attempt: int, jitter: Jitter): (r: int) {
    BaseDelay(attempt) + Extra(BaseDelay(attempt), jitter)
  }

  lemma {:induction false} ExtraIsAFifth(base: int, jitter: Jitter)
    requires base > 0
    ensures 0 <= Extra(base, jitter) && 5 * Extra(base, jitter) < base
  {
    var part := base as real * 0.2;
    JitterPart(part, jitter);
    FloorPart(part * jitter, part);
    FifthOf(base, Extra(base, jitter));
  }

  lemma {:induction false} FloorPart(x: real, part: real)
    requires 0.0 <= x < part
    ensures 0 <= x.Floor && x.Floor as real < part
  {
  }

  lemma {:induction false} FifthOf(base: int, whole: int)
    requires whole as real < base as real * 0.2
    ensures 5 * whole < base
  {
    assert (5 * whole) as real == 5.0 * (whole as real);
  }

  lemma {:induction false} JitterPart(part: real, jitter: Jitter)
    requires part > 0.0
    ensures 0.0 <= part * jitter < part
  {
    assert part * jitter < part * 1.0;
  }

  /** Every backoff is at least thirty seconds and less than seventy-two minutes. */
  lemma {:induction false} BackoffIsBounded(attempt: int, jitter: Jitter)
    ensures BaseDelay(attempt) <= RetryDelay(attempt, jitter)
    ensures 5 * RetryDelay(attempt, jitter) < 6 * BaseDelay(attempt)
    ensures 30_000 <= RetryDelay(attempt, jitter) < 72 * 60_000
  {
    ExtraIsAFifth(BaseDelay(attempt), jitter);
  }

  lemma {:induction false} DoublingGrows(m: nat, n: nat)
    requires m <= n
    ensures Doubled(m) <= Doubled(n)
  {
    if m < n {
      DoublingGrows(m, n - 1);
    }
  }

  /** Below the cap the base is at most 64 first delays, and the next one is twice as long. */
  lemma {:induction false} BaseBelowCap(attempt: int, later: int)
    requires 1 <= attempt < later && BaseDelay(attempt) < LONGEST_DELAY
    ensures 6 * BaseDelay(attempt) <= 5 * BaseDelay(later)
  {
    var n := attempt - 1;
    assert Doubled(3) == 8 && Doubled(5) == 32 && Doubled(7) == 128;
    if n >= 7 {
      DoublingGrows(7, n);
    }
    DoublingGrows(n, 6);
    assert Doubled(6) == 64;
    DoublingGrows(n + 1, later - 1);
  }

  /** Below the cap, jitter never makes a later attempt wait less than an earlier one. */
  lemma {:induction false} BackoffGrows(attempt: int, later: int, jitter: Jitter, laterJitter: Jitter)
    requires 1 <= attempt < later && BaseDelay(attempt) < LONGEST_DELAY
    ensures RetryDelay(attempt, jitter) < RetryDelay(later, laterJitter)
  {
    BackoffIsBounded(attempt, jitter);
    BackoffIsBounded(later, laterJitter);
    BaseBelowCap(attempt, later);
  }

  function PermanentFailure(httpStatus: Option<int>): (r: bool) {
    httpStatus.Some? && 400 <= httpStatus.value < 500 && httpStatus.value !in {408, 409, 425, 429}
  }

  // ---------------------------------------------------------------- rows

  predicate Unclaimed(r: Row, startedAt: int) {
    r.claimedAt.None? || (r.claimExpiresAt.Some? && r.claimExpiresAt.value < startedAt)
  }

  /** The filter of the claim: unlike the scan it does not look at nextAttemptAt. */
  predicate Claimable(r: Row, startedAt: int) {
    || ((r.status == Pending || r.status == RetryWait) && Unclaimed(r, startedAt))
    || (r.status == Processing && r.claimExpiresAt.Some? && r.claimExpiresAt.value < startedAt)
  }

  predicate Scannable(r: Row, startedAt: int) {
    Claimable(r, startedAt) && (r.status == Processing || (r.nextAttemptAt.Some? && r.nextAttemptAt.value <= startedAt))
  }

  predicate Terminal(r: Row) { r.status == Succeeded || r.status == TerminalFailed }

  function ClaimRow(r: Row, w: WorkerId, b: Batch): Row {
    r.(status := Processing, claimedAt := Some(b.startedAt), claimedBy := Some(w), claimExpiresAt := Some(b.leaseUntil))
  }

  predicate Owns(r: Row, w: WorkerId) { r.claimedBy == Some(w) && r.status == Processing }

  predicate GivesUp(snap: Snapshot, httpStatus: Option<int>) {
    PermanentFailure(httpStatus) || snap.attempts + 1 >= snap.maxAttempts
  }

  function OutcomeRow(r: Row, snap: Snapshot, answer: Answer, now: int, jitter: Jitter): Row {
    var freed := r.(attempts := snap.attempts + 1, claimedAt := None, claimedBy := None, claimExpiresAt := None);
    if answer.Done? then freed.(status := Succeeded, nextAttemptAt := None)
    else if GivesUp(snap, answer.httpStatus) then freed.(status := TerminalFailed, nextAttemptAt := None)
    else freed.(status := RetryWait, nextAttemptAt := Some(now + RetryDelay(snap.attempts + 1, jitter)))
  }

  // ---------------------------------------------------------------- steps

  /** The worker is busy with one of its candidates. */
  predicate Busy(s: State, w: WorkerId) {
    w in s.workers && s.workers[w].next < |s.workers[w].candidates| && Current(s.workers[w]).id in s.rows
  }

  function Current(b: Batch): Snapshot
    requires b.next < |b.candidates|
  {
    b.candidates[b.next]
  }

  ghost predicate Enabled(s: State, step: Step) {
    match step
    case Tick(to) => to >= s.now
    case Insert(row, maxAttempts) => row !in s.rows && maxAttempts >= 1
    case Begin(w, _) => w !in s.workers
    case Scan(w, found) =>
      w in s.workers && s.workers[w].phase == Scanning && Distinct(found)
      && forall i :: 0 <= i < |found| ==> found[i] in s.rows && Scannable(s.rows[found[i]], s.workers[w].startedAt)
    case Claim(w) => Busy(s, w) && s.workers[w].phase == Claiming
    case ClaimThrows(w, _) => Busy(s, w) && s.workers[w].phase == Claiming
    case Call(w, _) => Busy(s, w) && s.workers[w].phase == Calling
    case Write(w, _) => Busy(s, w) && s.workers[w].phase.Writing?
    case WriteThrows(w, _, _) => Busy(s, w) && s.workers[w].phase.Writing?
    case Finish(w) => w in s.workers && s.workers[w].phase == Claiming && s.workers[w].next == |s.workers[w].candidates|
    case Crash(w) => w in s.workers
  }

  function SetRow(s: State, r: RowId, row: Row): State { s.(rows := s.rows[r := row]) }

  function SetBatch(s: State, w: WorkerId, b: Batch): State { s.(workers := s.workers[w := b]) }

  function Drop(s: State, w: WorkerId): State { s.(workers := s.workers - {w}) }

  function ReadAll(s: State, found: seq<RowId>): seq<Snapshot>
    requires forall i :: 0 <= i < |found| ==> found[i] in s.rows
  {
    seq(|found|, i requires 0 <= i < |found| =>
      Snapshot(found[i], s.rows[found[i]].attempts, s.rows[found[i]].maxAttempts))
  }

  predicate ClaimWins(s: State, w: WorkerId)
    requires Busy(s, w)
  {
    Claimable(s.rows[Current(s.workers[w]).id], s.workers[w].startedAt)
  }

  /** The conditional update of a claim. */
  function Claimed(s: State, w: WorkerId): State
    requires Busy(s, w)
  {
    var b := s.workers[w];
    var id := Current(b).id;
    if ClaimWins(s, w) then SetRow(s, id, ClaimRow(s.rows[id], w, b)) else s
  }

  /** The conditional update of an outcome. */
  function Recorded(s: State, w: WorkerId, jitter: Jitter): State
    requires Busy(s, w) && s.workers[w].phase.Writing?
  {
    var b := s.workers[w];
    var id := Current(b).id;
    if Owns(s.rows[id], w) then SetRow(s, id, OutcomeRow(s.rows[id], Current(b), b.phase.answer, s.now, jitter)) else s
  }

  function AfterWrite(b: Batch): Batch
    requires b.phase.Writing?
  {
    var c := b.(phase := Claiming, next := b.next + 1);
    if b.phase.answer.Done? then c.(succeeded := b.succeeded + 1) else c.(failed := b.failed + 1)
  }

  function Next(s: State, step: Step): State
    requires Enabled(s, step)
  {
    match step
    case Tick(to) => s.(now := to)
    case Insert(row, maxAttempts) => SetRow(s, row, Row(Pending, 0, maxAttempts, Some(s.now), None, None, None))
    case Begin(w, leaseMs) => SetBatch(s, w, Batch(s.now, s.now + leaseMs, Scanning, [], 0, 0, 0, 0, 0))
    case Scan(w, found) => SetBatch(s, w, s.workers[w].(phase := Claiming, candidates := ReadAll(s, found)))
    case Claim(w) =>
      var b := s.workers[w];
      SetBatch(Claimed(s, w), w, if ClaimWins(s, w) then b.(phase := Calling, claimed := b.claimed + 1)
                                 else b.(next := b.next + 1, raceLost := b.raceLost + 1))
    case ClaimThrows(w, applied) => Drop(if applied then Claimed(s, w) else s, w)
    case Call(w, answer) => SetBatch(s, w, s.workers[w].(phase := Writing(answer)))
    case Write(w, jitter) => SetBatch(Recorded(s, w, jitter), w, AfterWrite(s.workers[w]))
    case WriteThrows(w, jitter, applied) => Drop(if applied then Recorded(s, w, jitter) else s, w)
    case Finish(w) => Drop(s, w)
    case Crash(w) => Drop(s, w)
  }

  // ---------------------------------------------------------------- what every step keeps

  ghost predicate RowHolds(r: Row) {
    && (if Terminal(r) then r.attempts <= r.maxAttempts else r.attempts < r.maxAttempts)
    && (r.status == Processing <==> r.claimedBy.Some?)
    && (r.claimedBy.Some? <==> r.claimedAt.Some?)
    && (r.claimedBy.Some? <==> r.claimExpiresAt.Some?)
  }

  ghost predicate SnapshotHolds(s: State, snap: Snapshot) {
    snap.id in s.rows && snap.attempts < snap.maxAttempts == s.rows[snap.id].maxAttempts
  }

  /** The worker's claim on its current candidate stands. */
  ghost predicate Holds(s: State, w: WorkerId, b: Batch, id: RowId) {
    id in s.rows && Owns(s.rows[id], w) && s.rows[id].claimExpiresAt == Some(b.leaseUntil)
  }

  predicate Engaged(b: Batch) { b.phase == Calling || b.phase.Writing? }

  ghost predicate BatchHolds(s: State, w: WorkerId, b: Batch) {
    && b.startedAt <= s.now
    && b.next <= |b.candidates|
    && (forall i :: 0 <= i < |b.candidates| ==> SnapshotHolds(s, b.candidates[i]))
    && (b.phase == Scanning ==> b.candidates == [])
    && (Engaged(b) ==> b.next < |b.candidates| && (Holds(s, w, b, Current(b).id) || b.leaseUntil < s.now))
    && b.next + (if Engaged(b) then 1 else 0) == b.claimed + b.raceLost
    && b.claimed == b.succeeded + b.failed + (if Engaged(b) then 1 else 0)
  }

  ghost predicate Inv(s: State) {
    && (forall r :: r in s.rows ==> RowHolds(s.rows[r]))
    && (forall w :: w in s.workers ==> BatchHolds(s, w, s.workers[w]))
  }

  ghost predicate Init(s: State) {
    && s.workers == map[]
    && forall r :: r in s.rows ==>
         s.rows[r] == Row(Pending, 0, s.rows[r].maxAttempts, s.rows[r].nextAttemptAt, None, None, None)
           && s.rows[r].maxAttempts >= 1
  }

  /** Time moves on and rows keep their limit. */
  ghost predicate Grows(s: State, t: State) {
    s.now <= t.now && forall r :: r in s.rows ==> r in t.rows && t.rows[r].maxAttempts == s.rows[r].maxAttempts
  }

  lemma {:induction false} SnapshotsKept(s: State, t: State, b: Batch)
    requires Grows(s, t) && forall i :: 0 <= i < |b.candidates| ==> SnapshotHolds(s, b.candidates[i])
    ensures forall i :: 0 <= i < |b.candidates| ==> SnapshotHolds(t, b.candidates[i])
  {
    forall i | 0 <= i < |b.candidates| ensures SnapshotHolds(t, b.candidates[i]) {
      assert SnapshotHolds(s, b.candidates[i]);
    }
  }

  /** A batch survives any step that leaves its claim alone or comes after its lease. */
  lemma {:induction false} BatchKept(s: State, t: State, w: WorkerId, b: Batch)
    requires BatchHolds(s, w, b) && Grows(s, t)
    requires Engaged(b) && Holds(s, w, b, Current(b).id) ==> Holds(t, w, b, Current(b).id) || b.leaseUntil < t.now
    ensures BatchHolds(t, w, b)
  {
    SnapshotsKept(s, t, b);
  }

  /** Steps that change no row that is there. */
  lemma {:induction false} QuietStepKeepsInv(s: State, step: Step)
    requires Inv(s) && Enabled(s, step)
    requires step.Tick? || step.Insert? || step.Finish? || step.Crash? || step.Begin? || step.Call?
    ensures Inv(Next(s, step))
  {
    var t := Next(s, step);
    forall w | w in t.workers ensures BatchHolds(t, w, t.workers[w]) {
      if w in s.workers {
        BatchKept(s, t, w, s.workers[w]);
      }
    }
  }

  lemma {:induction false} ScannedHolds(s: State, startedAt: int, r: RowId)
    requires r in s.rows && RowHolds(s.rows[r]) && Scannable(s.rows[r], startedAt)
    ensures SnapshotHolds(s, Snapshot(r, s.rows[r].attempts, s.rows[r].maxAttempts))
  {
  }

  lemma {:induction false} ScanKeepsInv(s: State, w: WorkerId, found: seq<RowId>)
    requires Inv(s) && Enabled(s, Scan(w, found))
    ensures Inv(Next(s, Scan(w, found)))
  {
    var t := Next(s, Scan(w, found));
    forall v | v in t.workers ensures BatchHolds(t, v, t.workers[v]) {
      if v != w {
        BatchKept(s, t, v, s.workers[v]);
      } else {
        forall i | 0 <= i < |found| ensures SnapshotHolds(t, t.workers[w].candidates[i]) {
          ScannedHolds(s, s.workers[w].startedAt, found[i]);
        }
      }
    }
  }

  lemma {:induction false} ClaimedKeeps(s: State, w: WorkerId)
    requires Inv(s) && Busy(s, w)
    ensures Grows(s, Claimed(s, w))
    ensures forall r :: r in Claimed(s, w).rows ==> RowHolds(Claimed(s, w).rows[r])
    ensures forall v :: v in s.workers && v != w ==> BatchHolds(Claimed(s, w), v, s.workers[v])
  {
    var t := Claimed(s, w);
    forall v | v in s.workers && v != w ensures BatchHolds(t, v, s.workers[v]) {
      BatchKept(s, t, v, s.workers[v]);
    }
  }

  lemma {:induction false} RecordedKeeps(s: State, w: WorkerId, jitter: Jitter)
    requires Inv(s) && Busy(s, w) && s.workers[w].phase.Writing?
    ensures Grows(s, Recorded(s, w, jitter))
    ensures forall r :: r in Recorded(s, w, jitter).rows ==> RowHolds(Recorded(s, w, jitter).rows[r])
    ensures forall v :: v in s.workers && v != w ==> BatchHolds(Recorded(s, w, jitter), v, s.workers[v])
  {
    var t := Recorded(s, w, jitter);
    assert SnapshotHolds(s, Current(s.workers[w]));
    forall v | v in s.workers && v != w ensures BatchHolds(t, v, s.workers[v]) {
      BatchKept(s, t, v, s.workers[v]);
    }
  }

  /** Batches do not look at each other. */
  lemma {:induction false} BatchLocal(s: State, t: State, w: WorkerId, b: Batch)
    requires BatchHolds(s, w, b) && s.rows == t.rows && s.now == t.now
    ensures BatchHolds(t, w, b)
  {
    SnapshotsKept(s, t, b);
  }

  lemma {:induction false} ClaimKeepsInv(s: State, step: Step)
    requires Inv(s) && Enabled(s, step) && (step.Claim? || step.ClaimThrows?)
    ensures Inv(Next(s, step))
  {
    var t, w := Next(s, step), step.worker;
    ClaimedKeeps(s, w);
    var c := if step.ClaimThrows? && !step.applied then s else Claimed(s, w);
    forall v | v in t.workers && v != w ensures BatchHolds(t, v, t.workers[v]) {
      BatchLocal(c, t, v, s.workers[v]);
    }
    if step.Claim? {
      SnapshotsKept(s, t, s.workers[w]);
      assert BatchHolds(t, w, t.workers[w]);
    }
  }

  lemma {:induction false} WriteKeepsInv(s: State, step: Step)
    requires Inv(s) && Enabled(s, step) && (step.Write? || step.WriteThrows?)
    ensures Inv(Next(s, step))
  {
    var t, w := Next(s, step), step.worker;
    RecordedKeeps(s, w, step.jitter);
    var c := if step.WriteThrows? && !step.applied then s else Recorded(s, w, step.jitter);
    forall v | v in t.workers && v != w ensures BatchHolds(t, v, t.workers[v]) {
      BatchLocal(c, t, v, s.workers[v]);
    }
    if step.Write? {
      SnapshotsKept(s, t, s.workers[w]);
      assert BatchHolds(t, w, t.workers[w]);
    }
  }

  lemma {:induction false} StepKeepsInv(s: State, step: Step)
    requires Inv(s) && Enabled(s, step)
    ensures Inv(Next(s, step))
  {
    match step
    case Scan(w, found) => ScanKeepsInv(s, w, found);
    case Claim(_) => ClaimKeepsInv(s, step);
    case ClaimThrows(_, _) => ClaimKeepsInv(s, step);
    case Write(_, _) => WriteKeepsInv(s, step);
    case WriteThrows(_, _, _) => WriteKeepsInv(s, step);
    case _ => QuietStepKeepsInv(s, step);
  }

  // ---------------------------------------------------------------- what one step may do to a row

  /** The step of a worker that owns the row and stores what the service answered. */
  ghost predicate RecordsOutcome(s: State, step: Step, r: RowId)
    requires Enabled(s, step)
  {
    && (step.Write? || (step.WriteThrows? && step.applied))
    && Current(s.workers[step.worker]).id == r && Owns(s.rows[r], step.worker)
  }

  /** The step that wins a claim on the row. */
  ghost predicate TakesOver(s: State, step: Step, r: RowId)
    requires Enabled(s, step)
  {
    && (step.Claim? || (step.ClaimThrows? && step.applied))
    && Current(s.workers[step.worker]).id == r && ClaimWins(s, step.worker)
  }

  /**
   A row changes only when a worker takes over an expired or free claim, or when the current claim holder
   records its outcome; in the first case nothing is recorded, in the second the attempt of its snapshot is.
   */
  lemma {:induction false} RowChangesOnlyByHolder(s: State, step: Step, r: RowId)
    requires Inv(s) && Enabled(s, step) && r in s.rows
    ensures r in Next(s, step).rows
    ensures var before, after := s.rows[r], Next(s, step).rows[r];
            && (after != before ==> TakesOver(s, step, r) || RecordsOutcome(s, step, r))
            && (TakesOver(s, step, r) ==>
               !Terminal(before) && Owns(after, step.worker) && after.attempts == before.attempts
                                          && (before.claimExpiresAt.Some? ==> before.claimExpiresAt.value < s.now))
            && (RecordsOutcome(s, step, r) ==> after.status != Processing && after.claimedBy.None?
                                               && after.attempts == Current(s.workers[step.worker]).attempts + 1)
  {
  }

  /** A finished row is frozen. */
  lemma {:induction false} TerminalIsAbsorbing(s: State, step: Step, r: RowId)
    requires Inv(s) && Enabled(s, step) && r in s.rows && Terminal(s.rows[r])
    ensures r in Next(s, step).rows && Next(s, step).rows[r] == s.rows[r]
  {
    RowChangesOnlyByHolder(s, step, r);
  }

  /** A retry is scheduled thirty seconds to seventy-two minutes ahead. */
  lemma {:induction false} RetryIsScheduled(s: State, step: Step, r: RowId)
    requires Inv(s) && Enabled(s, step) && r in s.rows && RecordsOutcome(s, step, r)
    requires Next(s, step).rows[r].status == RetryWait
    ensures var next := Next(s, step).rows[r].nextAttemptAt;
            next.Some? && s.now + 30_000 <= next.value < s.now + 72 * 60_000
  {
    BackoffIsBounded(Current(s.workers[step.worker]).attempts + 1, step.jitter);
  }

  /** The worker is busy under a lease that has not run out. */
  ghost predicate Leased(s: State, w: WorkerId, r: RowId) {
    && w in s.workers && Engaged(s.workers[w]) && s.workers[w].next < |s.workers[w].candidates|
    && Current(s.workers[w]).id == r && s.now <= s.workers[w].leaseUntil
  }

  lemma {:induction false} LeaseIsExclusive(s: State, v: WorkerId, w: WorkerId, r: RowId)
    requires Inv(s) && Leased(s, v, r) && Leased(s, w, r)
    ensures v == w
  {
    assert BatchHolds(s, v, s.workers[v]) && BatchHolds(s, w, s.workers[w]);
  }

  /** A finished batch accounts for every row it scanned. */
  lemma {:induction false} BatchCountsBalance(s: State, w: WorkerId)
    requires Inv(s) && Enabled(s, Finish(w))
    ensures var b := s.workers[w];
            |b.candidates| == b.claimed + b.raceLost && b.claimed == b.succeeded + b.failed
  {
    assert BatchHolds(s, w, s.workers[w]);
  }

  // ---------------------------------------------------------------- whole runs

  ghost predicate Run(s: State, steps: seq<Step>, t: State)
    decreases |steps|
  {
    if |steps| == 0 then s == t
    else Enabled(s, steps[0]) && Run(Next(s, steps[0]), steps[1..], t)
  }

  lemma {:induction false} RunIsSafe(s: State, steps: seq<Step>, t: State)
    requires Inv(s) && Run(s, steps, t)
    ensures Inv(t)
    ensures forall r :: r in s.rows && Terminal(s.rows[r]) ==> r in t.rows && t.rows[r] == s.rows[r]
    decreases |steps|
  {
    if |steps| > 0 {
      var u := Next(s, steps[0]);
      StepKeepsInv(s, steps[0]);
      forall r | r in s.rows && Terminal(s.rows[r]) ensures r in u.rows && u.rows[r] == s.rows[r] {
        TerminalIsAbsorbing(s, steps[0], r);
      }
      RunIsSafe(u, steps[1..], t);
    }
  }

  /** Over every interleaving attempts stay bounded, unfinished rows keep an attempt, and leases are exclusive. */
  lemma {:induction false} ProvisioningIsBounded(s: State, steps: seq<Step>, t: State)
    requires Init(s) && Run(s, steps, t)
    ensures forall r :: r in t.rows ==> t.rows[r].attempts <= t.rows[r].maxAttempts
    ensures forall r :: r in t.rows && !Terminal(t.rows[r]) ==> t.rows[r].attempts < t.rows[r].maxAttempts
    ensures forall v, w, r :: Leased(t, v, r) && Leased(t, w, r) ==> v == w
  {
    RunIsSafe(s, steps, t);
    forall v, w, r | Leased(t, v, r) && Leased(t, w, r) ensures v == w {
      LeaseIsExclusive(t, v, w, r);
    }
  }

  // ---------------------------------------------------------------- what stale snapshots break

  /** Recorded attempts fall exactly when the holder's snapshot is two or more attempts behind the row. */
  lemma {:induction false} AttemptsFallIff(s: State, step: Step, r: RowId)
    requires Inv(s) && Enabled(s, step) && r in s.rows
    ensures r in Next(s, step).rows
    ensures Next(s, step).rows[r].attempts < s.rows[r].attempts <==>
            RecordsOutcome(s, step, r) && Current(s.workers[step.worker]).attempts + 1 < s.rows[r].attempts
  {
    RowChangesOnlyByHolder(s, step, r);
  }

  predicate NotDue(r: Row, now: int) { r.nextAttemptAt.Some? && r.nextAttemptAt.value > now }

  /**
   A worker takes over its candidate before the row is due exactly when the row, not yet due, is waiting again or was
   left behind by a lease that ended before the batch began: nothing else keeps the claim from going ahead.
   */
  lemma {:induction false} EarlyClaimIff(s: State, w: WorkerId)
    requires Inv(s) && Enabled(s, Claim(w))
    ensures var b, r := s.workers[w], Current(s.workers[w]).id;
            TakesOver(s, Claim(w), r) && NotDue(s.rows[r], s.now) <==>
            && NotDue(s.rows[r], s.now) && !Terminal(s.rows[r])
            && (s.rows[r].status == Processing ==> s.rows[r].claimExpiresAt.value < b.startedAt)
  {
    assert RowHolds(s.rows[Current(s.workers[w]).id]);
  }

  /** A candidate that was waiting when it was scanned is taken early only if it was rescheduled since. */
  lemma {:induction false} ScannedRowWasDue(s: State, w: WorkerId, found: seq<RowId>, i: nat)
    requires Inv(s) && Enabled(s, Scan(w, found)) && i < |found|
    ensures s.rows[found[i]].status != Processing ==> !NotDue(s.rows[found[i]], s.now)
  {
    assert BatchHolds(s, w, s.workers[w]);
    assert Scannable(s.rows[found[i]], s.workers[w].startedAt);
  }

  lemma {:induction false} RunsCompose(s: State, a: seq<Step>, t: State, b: seq<Step>, u: State)
    requires Run(s, a, t) && Run(t, b, u)
    ensures Run(s, a + b, u)
    decreases |a|
  {
    if |a| == 0 {
      assert a + b == b;
    } else {
      RunsCompose(Next(s, a[0]), a[1..], t, b, u);
      assert (a + b)[1..] == a[1..] + b;
    }
  }

  lemma {:induction false} RunTwo(s: State, a: Step, b: Step)
    requires Enabled(s, a) && Enabled(Next(s, a), b)
    ensures Run(s, [a, b], Next(Next(s, a), b))
  {
    var t := Next(s, a);
    assert Run(Next(t, b), [], Next(t, b));
    assert [b][1..] == [];
    assert Run(t, [b], Next(t, b));
    assert [a, b][1..] == [b];
  }

  lemma {:induction false} RunThree(s: State, a: Step, b: Step, c: Step)
    requires Enabled(s, a) && Enabled(Next(s, a), b) && Enabled(Next(Next(s, a), b), c)
    ensures Run(s, [a, b, c], Next(Next(Next(s, a), b), c))
  {
    RunTwo(Next(s, a), b, c);
    assert [a, b, c][1..] == [b, c];
  }

  const REFUSED := Refused(None)

  function Waiting(attempts: nat, next: int): Row { Row(RetryWait, attempts, 5, Some(next), None, None, None) }

  function Holding(startedAt: int, attempts: nat): Batch {
    Batch(startedAt, startedAt, Claiming, [Snapshot(7, attempts, 5)], 0, 0, 0, 0, 0)
  }

  lemma {:induction false} ScansRow(s: State, w: WorkerId) returns (t: State)
    requires w !in s.workers && 7 in s.rows && Scannable(s.rows[7], s.now) && s.rows[7].maxAttempts == 5
    ensures Run(s, [Begin(w, 0), Scan(w, [7])], t)
    ensures t == SetBatch(s, w, Holding(s.now, s.rows[7].attempts))
  {
    var s1 := Next(s, Begin(w, 0));
    t := Next(s1, Scan(w, [7]));
    RunTwo(s, Begin(w, 0), Scan(w, [7]));
    assert ReadAll(s1, [7]) == [Snapshot(7, s.rows[7].attempts, 5)];
  }

  /** A worker that scanned row 7 earlier claims it, is refused and records the attempt of its snapshot. */
  lemma {:induction false} RefusedAttempt(s: State, w: WorkerId, snap: Snapshot, b: Batch) returns (t: State)
    requires w in s.workers && s.workers[w] == b && b.phase == Claiming && b.candidates == [snap] && b.next == 0
    requires snap.id == 7 && 7 in s.rows && snap.maxAttempts == 5 && snap.attempts < 3
    requires Claimable(s.rows[7], b.startedAt) && s.rows[7].maxAttempts == 5
    ensures Run(s, [Claim(w), Call(w, REFUSED), Write(w, 0.0)], t)
    ensures t.now == s.now
            && t.rows == s.rows[7 := Waiting(snap.attempts + 1, s.now + RetryDelay(snap.attempts + 1, 0.0))]
    ensures t.workers.Keys == s.workers.Keys && t.workers - {w} == s.workers - {w}
    ensures Enabled(t, Finish(w)) && Next(t, Finish(w)).rows == t.rows && Next(t, Finish(w)).workers == s.workers - {w}
  {
    var s1 := Next(s, Claim(w));
    var s2 := Next(s1, Call(w, REFUSED));
    t := Next(s2, Write(w, 0.0));
    RunThree(s, Claim(w), Call(w, REFUSED), Write(w, 0.0));
    assert t.rows[7] == Waiting(snap.attempts + 1, s.now + RetryDelay(snap.attempts + 1, 0.0));
    assert t.rows == s.rows[7 := t.rows[7]];
  }

  /** A whole batch of one worker over row 7, refused once. */
  lemma {:induction false} RefusedBatch(s: State, w: WorkerId) returns (steps: seq<Step>, t: State)
    requires w !in s.workers && 7 in s.rows && Scannable(s.rows[7], s.now)
    requires s.rows[7].maxAttempts == 5 && s.rows[7].attempts < 3
    ensures Run(s, steps, t)
    ensures t.now == s.now && t.workers == s.workers
    ensures t.rows == s.rows[7 := Waiting(s.rows[7].attempts + 1, s.now + RetryDelay(s.rows[7].attempts + 1, 0.0))]
  {
    var n := s.rows[7].attempts;
    var s1 := ScansRow(s, w);
    var s2 := RefusedAttempt(s1, w, Snapshot(7, n, 5), Holding(s.now, n));
    t := Next(s2, Finish(w));
    assert t.workers == s.workers;
    assert Run(t, [], t) && [Finish(w)][1..] == [];
    assert Run(s2, [Finish(w)], t);
    var attempt := [Claim(w), Call(w, REFUSED), Write(w, 0.0)];
    RunsCompose(s1, attempt, s2, [Finish(w)], t);
    RunsCompose(s, [Begin(w, 0), Scan(w, [7])], s1, attempt + [Finish(w)], t);
    steps := [Begin(w, 0), Scan(w, [7])] + (attempt + [Finish(w)]);
  }

  lemma {:induction false} FirstDelays()
    ensures RetryDelay(1, 0.0) == 30_000
  {
    assert Doubled(0) == 1;
    assert Extra(30_000, 0.0) == 0;
  }

  lemma {:induction false} Waits(s: State, to: int)
    requires s.now <= to
    ensures Run(s, [Tick(to)], s.(now := to))
  {
    var t := s.(now := to);
    assert Run(t, [], t) && [Tick(to)][1..] == [];
  }

  /** Worker 2 is refused, waits out the backoff and is refused again, while worker 1 sits on its first scan. */
  lemma {:induction false} TwoRefusals(a: State) returns (steps: seq<Step>, t: State)
    requires a == State(0, map[7 := Row(Pending, 0, 5, Some(0), None, None, None)], map[1 := Holding(0, 0)])
    ensures Run(a, steps, t)
    ensures t == State(30_000, map[7 := Waiting(2, 30_000 + RetryDelay(2, 0.0))], map[1 := Holding(0, 0)])
  {
    FirstDelays();
    var first, b := RefusedBatch(a, 2);
    assert b == State(0, map[7 := Waiting(1, 30_000)], map[1 := Holding(0, 0)]);
    Waits(b, 30_000);
    var c := b.(now := 30_000);
    var second;
    second, t := RefusedBatch(c, 2);
    assert t.rows == map[7 := Waiting(2, 30_000 + RetryDelay(2, 0.0))];
    RunsCompose(b, [Tick(30_000)], c, second, t);
    RunsCompose(a, first, b, [Tick(30_000)] + second, t);
    steps := first + ([Tick(30_000)] + second);
  }

  /**
   Recorded attempts can fall: a worker with a scan from before two refused attempts claims the row, before its
   next attempt is due, and stores one attempt.
   */
  lemma {:induction false} StaleScanLosesAttempts(s: State) returns (early: State, before: seq<Step>, t: State)
    requires s == State(0, map[7 := Row(Pending, 0, 5, Some(0), None, None, None)], map[])
    ensures Init(s) && Run(s, before, early)
    ensures 7 in early.rows && early.rows[7].attempts == 2 && early.rows[7].nextAttemptAt.Some?
    ensures early.now < early.rows[7].nextAttemptAt.value
    ensures Run(early, [Claim(1), Call(1, REFUSED), Write(1, 0.0)], t)
    ensures 7 in t.rows && t.rows[7].attempts == 1
  {
    BackoffIsBounded(2, 0.0);
    var a := ScansRow(s, 1);
    assert a.workers == map[1 := Holding(0, 0)];
    var steps;
    steps, early := TwoRefusals(a);
    RunsCompose(s, [Begin(1, 0), Scan(1, [7])], a, steps, early);
    before := [Begin(1, 0), Scan(1, [7])] + steps;
    t := RefusedAttempt(early, 1, Snapshot(7, 0, 5), Holding(0, 0));
  }
}
