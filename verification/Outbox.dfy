/**
 The outbox dispatcher as a protocol (src/jobs/outbox.dispatcher.js, 175-326): many workers claim rows
 under a lease, publish them to a stream, and mark or release them. Every await is a step of its own, so
 any interleaving, crash, thrown publish or thrown database call is a run.
 */
module Outbox {
  import opened Options
  import opened Sequences

  type RowId = int
  type WorkerId = int

  datatype Row = Row(
    publishedAt: Option<int>, claimedAt: Option<int>, claimedBy: Option<WorkerId>, claimExpiresAt: Option<int>,
    attempts: nat, failedLast: bool)

  /** A stream entry, with the claim it was published under and the time of publishing. */
  datatype Entry = Entry(row: RowId, worker: WorkerId, deadline: int, at: int)

  datatype Stage = Scanning | Claiming | Publishing | Marking | Releasing

  /** One worker's run of the batch: its local variables. */
  datatype Batch = Batch(
    startedAt: int, deadline: int, stage: Stage,
    candidates: seq<RowId>, examined: nat, claimed: seq<RowId>, raceLost: nat,
    handled: nat, published: nat, failed: nat, expiredMidPublish: nat, bookkeepingFailed: nat)

  datatype State = State(now: int, rows: map<RowId, Row>, stream: seq<Entry>, workers: map<WorkerId, Batch>)

  datatype Step =
    | Tick(to: int)
    | Insert(row: RowId)
    | Begin(worker: WorkerId, leaseMs: int)
    | Scan(worker: WorkerId, found: seq<RowId>)
    | Claim(worker: WorkerId)
    | ClaimsDone(worker: WorkerId)
    | Publish(worker: WorkerId)
    | PublishThrows(worker: WorkerId, sent: bool)
    | Mark(worker: WorkerId)
    | MarkThrows(worker: WorkerId, applied: bool)
    | Release(worker: WorkerId)
    | ReleaseThrows(worker: WorkerId, applied: bool)
    | Finish(worker: WorkerId)
    | Crash(worker: WorkerId)

  const MIN_LEASE := 1_000
  const MAX_LEASE := 600_000

  function ClampLease(ms: int): int {
    if ms < MIN_LEASE then MIN_LEASE else if ms > MAX_LEASE then MAX_LEASE else ms
  }

  /** The filter of the scan and of the per-row claim. */
  predicate Claimable(r: Row, startedAt: int) {
    r.publishedAt.None? && (r.claimedAt.None? || (r.claimExpiresAt.Some? && r.claimExpiresAt.value < startedAt))
  }

  function ClaimRow(r: Row, w: WorkerId, b: Batch): Row {
    r.(claimedAt := Some(b.startedAt), claimedBy := Some(w), claimExpiresAt := Some(b.deadline))
  }

  function MarkRow(r: Row, now: int): Row {
    Row(Some(now), None, None, None, r.attempts + 1, false)
  }

  function ReleaseRow(r: Row): Row {
    r.(claimedAt := None, claimedBy := None, claimExpiresAt := None, attempts := r.attempts + 1, failedLast := true)
  }

  predicate Marks(r: Row, w: WorkerId) { r.claimedBy == Some(w) && r.publishedAt.None? }

  predicate Releases(r: Row, w: WorkerId) { r.claimedBy == Some(w) }

  // ---------------------------------------------------------------- steps

  predicate AtStage(s: State, w: WorkerId, stage: Stage) {
    w in s.workers && s.workers[w].stage == stage
  }

  /** The row a publishing worker is busy with. */
  predicate Busy(s: State, w: WorkerId) {
    w in s.workers && s.workers[w].handled < |s.workers[w].claimed|
      && s.workers[w].claimed[s.workers[w].handled] in s.rows
  }

  function Current(b: Batch): RowId
    requires b.handled < |b.claimed|
  {
    b.claimed[b.handled]
  }

  ghost predicate Enabled(s: State, step: Step) {
    match step
    case Tick(to) => to >= s.now
    case Insert(row) => row !in s.rows
    case Begin(w, _) => w !in s.workers
    case Scan(w, found) =>
      AtStage(s, w, Scanning) && Distinct(found)
      && forall r :: r in found ==> r in s.rows && Claimable(s.rows[r], s.workers[w].startedAt)
    case Claim(w) => AtStage(s, w, Claiming) && s.workers[w].examined < |s.workers[w].candidates|
                     && s.workers[w].candidates[s.workers[w].examined] in s.rows
    case ClaimsDone(w) => AtStage(s, w, Claiming) && s.workers[w].examined == |s.workers[w].candidates|
    case Publish(w) => AtStage(s, w, Publishing) && Busy(s, w)
    case PublishThrows(w, _) => AtStage(s, w, Publishing) && Busy(s, w)
    case Mark(w) => AtStage(s, w, Marking) && Busy(s, w)
    case MarkThrows(w, _) => AtStage(s, w, Marking) && Busy(s, w)
    case Release(w) => AtStage(s, w, Releasing) && Busy(s, w)
    case ReleaseThrows(w, _) => AtStage(s, w, Releasing) && Busy(s, w)
    case Finish(w) => AtStage(s, w, Publishing) && s.workers[w].handled == |s.workers[w].claimed|
    case Crash(w) => w in s.workers
  }

  function SetRow(s: State, r: RowId, row: Row): State { s.(rows := s.rows[r := row]) }

  function SetBatch(s: State, w: WorkerId, b: Batch): State { s.(workers := s.workers[w := b]) }

  function Next(s: State, step: Step): State
    requires Enabled(s, step)
  {
    match step
    case Tick(to) => s.(now := to)
    case Insert(row) => SetRow(s, row, Row(None, None, None, None, 0, false))
    case Begin(w, leaseMs) =>
      SetBatch(s, w, Batch(s.now, s.now + ClampLease(leaseMs), Scanning, [], 0, [], 0, 0, 0, 0, 0, 0))
    case Scan(w, found) =>
      SetBatch(s, w, s.workers[w].(stage := Claiming, candidates := found))
    case Claim(w) =>
      var b := s.workers[w];
      var r := b.candidates[b.examined];
      if Claimable(s.rows[r], b.startedAt) then
        SetBatch(SetRow(s, r, ClaimRow(s.rows[r], w, b)), w, b.(examined := b.examined + 1, claimed := b.claimed + [r]))
      else
        SetBatch(s, w, b.(examined := b.examined + 1, raceLost := b.raceLost + 1))
    case ClaimsDone(w) =>
      SetBatch(s, w, s.workers[w].(stage := Publishing))
    case Publish(w) =>
      Send(SetBatch(s, w, s.workers[w].(stage := Marking)), w)
    case PublishThrows(w, sent) =>
      var b := s.workers[w];
      var t := SetBatch(s, w, b.(stage := Releasing, failed := b.failed + 1));
      if sent then Send(t, w) else t
    case Mark(w) =>
      var b := s.workers[w];
      var r := Current(b);
      if Marks(s.rows[r], w) then
        SetBatch(SetRow(s, r, MarkRow(s.rows[r], s.now)), w,
                 b.(stage := Publishing, handled := b.handled + 1, published := b.published + 1))
      else
        SetBatch(s, w, b.(stage := Publishing, handled := b.handled + 1, expiredMidPublish := b.expiredMidPublish + 1))
    case MarkThrows(w, applied) =>
      var b := s.workers[w];
      var r := Current(b);
      var t := if applied && Marks(s.rows[r], w) then SetRow(s, r, MarkRow(s.rows[r], s.now)) else s;
      SetBatch(t, w, b.(stage := Releasing, failed := b.failed + 1))
    case Release(w) =>
      var b := s.workers[w];
      SetBatch(Released(s, w, Current(b)), w, b.(stage := Publishing, handled := b.handled + 1))
    case ReleaseThrows(w, applied) =>
      var b := s.workers[w];
      SetBatch(if applied then Released(s, w, Current(b)) else s, w,
               b.(stage := Publishing, handled := b.handled + 1, bookkeepingFailed := b.bookkeepingFailed + 1))
    case Finish(w) => s.(workers := s.workers - {w})
    case Crash(w) => s.(workers := s.workers - {w})
  }

  /** The worker's current row goes onto the stream. */
  function Send(s: State, w: WorkerId): State
    requires w in s.workers && s.workers[w].handled < |s.workers[w].claimed|
  {
    s.(stream := s.stream + [Entry(Current(s.workers[w]), w, s.workers[w].deadline, s.now)])
  }

  function Released(s: State, w: WorkerId, r: RowId): State
    requires r in s.rows
  {
    if Releases(s.rows[r], w) then SetRow(s, r, ReleaseRow(s.rows[r])) else s
  }

  // ---------------------------------------------------------------- what every step keeps

  ghost predicate OnStream(stream: seq<Entry>, r: RowId) {
    exists e :: e in stream && e.row == r
  }

  /** A published row is on the stream and carries no claim; a claim has all of its parts. */
  ghost predicate RowHolds(s: State, r: RowId)
    requires r in s.rows
  {
    var row := s.rows[r];
    && (row.claimedBy.Some? <==> row.claimedAt.Some?)
    && (row.claimedBy.Some? <==> row.claimExpiresAt.Some?)
    && (row.publishedAt.Some? ==> row.claimedBy.None? && OnStream(s.stream, r))
  }

  /** The worker's claim on the row stands. */
  ghost predicate Held(s: State, w: WorkerId, b: Batch, r: RowId) {
    r in s.rows && s.rows[r].publishedAt.None? && s.rows[r].claimedBy == Some(w)
      && s.rows[r].claimExpiresAt == Some(b.deadline)
  }

  /** A claimed row is held until the deadline, and the worker has no other claim on it. */
  ghost predicate Ours(s: State, w: WorkerId, b: Batch, r: RowId) {
    && r in s.rows && (Held(s, w, b, r) || b.deadline < s.now)
    && (s.rows[r].claimedBy == Some(w) ==> s.rows[r].claimExpiresAt == Some(b.deadline))
  }

  /** The worker's current row went onto the stream under its claim. */
  ghost predicate Sent(stream: seq<Entry>, w: WorkerId, b: Batch)
    requires b.handled < |b.claimed|
  {
    exists e :: e in stream && e.row == Current(b) && e.worker == w && e.deadline == b.deadline
  }

  /** Rows the worker claimed and has neither marked nor failed to publish. */
  function Unfinished(b: Batch): nat {
    if b.stage == Releasing then b.handled + 1 else b.handled
  }

  ghost predicate BatchHolds(s: State, w: WorkerId, b: Batch) {
    && b.startedAt <= s.now && b.startedAt + MIN_LEASE <= b.deadline
    && Distinct(b.candidates) && Distinct(b.claimed)
    && b.examined <= |b.candidates| && |b.claimed| + b.raceLost == b.examined
    && (forall r :: r in b.candidates ==> r in s.rows)
    && (forall r :: r in b.claimed ==> r in b.candidates[..b.examined])
    && (b.stage == Scanning ==> b.candidates == [])
    && (b.stage == Scanning || b.stage == Claiming ==> b.handled == 0)
    && (b.stage != Scanning && b.stage != Claiming ==> b.examined == |b.candidates|)
    && b.handled <= |b.claimed|
    && (b.stage == Marking || b.stage == Releasing ==> b.handled < |b.claimed|)
    && b.published + b.failed + b.expiredMidPublish == Unfinished(b)
    && (b.stage == Marking ==> Sent(s.stream, w, b))
    && (forall k :: Unfinished(b) <= k < |b.claimed| ==> Ours(s, w, b, b.claimed[k]))
  }

  ghost predicate Inv(s: State) {
    && (forall r :: r in s.rows ==> RowHolds(s, r))
    && (forall w :: w in s.workers ==> BatchHolds(s, w, s.workers[w]))
  }

  ghost predicate Init(s: State) {
    && s.stream == [] && s.workers == map[]
    && forall r :: r in s.rows ==> s.rows[r].publishedAt.None? && s.rows[r].claimedAt.None?
                                   && s.rows[r].claimedBy.None? && s.rows[r].claimExpiresAt.None?
  }

  /** Time moves on, rows and entries are only added. */
  ghost predicate Grows(s: State, t: State) {
    && s.now <= t.now
    && (forall r :: r in s.rows ==> r in t.rows)
    && (forall e :: e in s.stream ==> e in t.stream)
  }

  /** A batch is untouched by a step that leaves its standing claims alone, or comes after its deadline. */
  lemma {:induction false} BatchKept(s: State, t: State, w: WorkerId, b: Batch)
    requires BatchHolds(s, w, b) && Grows(s, t)
    requires forall k :: Unfinished(b) <= k < |b.claimed| && Ours(s, w, b, b.claimed[k]) ==> Ours(t, w, b, b.claimed[k])
    ensures BatchHolds(t, w, b)
  {
  }

  lemma {:induction false} RowKept(s: State, t: State, r: RowId)
    requires r in s.rows && RowHolds(s, r) && Grows(s, t) && t.rows[r] == s.rows[r]
    ensures RowHolds(t, r)
  {
  }

  /** Steps that touch no existing row, no entry and no batch that stays. */
  lemma {:induction false} QuietStepKeepsInv(s: State, step: Step)
    requires Inv(s) && Enabled(s, step)
    requires step.Tick? || step.Insert? || step.Finish? || step.Crash?
    ensures Inv(Next(s, step))
  {
    var t := Next(s, step);
    forall r | r in t.rows ensures RowHolds(t, r) {
      if r in s.rows { RowKept(s, t, r); }
    }
    forall w | w in t.workers ensures BatchHolds(t, w, t.workers[w]) {
      BatchKept(s, t, w, s.workers[w]);
    }
  }

  /** Steps that only move one worker's own batch forward. */
  lemma {:induction false} LocalStepKeepsInv(s: State, step: Step)
    requires Inv(s) && Enabled(s, step) && (step.Begin? || step.Scan? || step.ClaimsDone?)
    ensures Inv(Next(s, step))
  {
    var t := Next(s, step);
    forall r | r in t.rows ensures RowHolds(t, r) { RowKept(s, t, r); }
    forall w | w in t.workers ensures BatchHolds(t, w, t.workers[w]) {
      if w != step.worker { BatchKept(s, t, w, s.workers[w]); }
    }
  }

  lemma {:induction false} ClaimKeepsInv(s: State, w: WorkerId)
    requires Inv(s) && Enabled(s, Claim(w))
    ensures Inv(Next(s, Claim(w)))
  {
    var t, b := Next(s, Claim(w)), s.workers[w];
    var c := b.candidates[b.examined];
    assert b.candidates[..b.examined + 1] == b.candidates[..b.examined] + [c];
    forall r | r in t.rows ensures RowHolds(t, r) {
      if t.rows[r] == s.rows[r] { RowKept(s, t, r); }
    }
    ClaimerHolds(s, w);
    forall v | v in t.workers ensures BatchHolds(t, v, t.workers[v]) {
      if v != w { BatchKept(s, t, v, s.workers[v]); }
    }
  }

  lemma {:induction false} ClaimerHolds(s: State, w: WorkerId)
    requires Inv(s) && Enabled(s, Claim(w))
    ensures var t := Next(s, Claim(w)); BatchHolds(t, w, t.workers[w])
  {
    var b := s.workers[w];
    var c := b.candidates[b.examined];
    assert b.candidates[..b.examined + 1] == b.candidates[..b.examined] + [c];
    assert c !in b.claimed;
  }

  lemma {:induction false} SentIsOnStream(stream: seq<Entry>, e: Entry)
    ensures e in stream + [e] && forall x :: x in stream ==> x in stream + [e]
  {
    assert (stream + [e])[|stream|] == e;
  }

  lemma {:induction false} PublishKeepsInv(s: State, step: Step)
    requires Inv(s) && Enabled(s, step) && (step.Publish? || step.PublishThrows?)
    ensures Inv(Next(s, step))
  {
    var t, b := Next(s, step), s.workers[step.worker];
    SentIsOnStream(s.stream, Entry(Current(b), step.worker, b.deadline, s.now));
    PublisherHolds(s, step);
    OthersKept(s, t, step.worker, Current(b));
    RowsKept(s, t, Current(b));
  }

  lemma {:induction false} PublisherHolds(s: State, step: Step)
    requires Inv(s) && Enabled(s, step) && (step.Publish? || step.PublishThrows?)
    ensures BatchHolds(Next(s, step), step.worker, Next(s, step).workers[step.worker])
  {
    var b := s.workers[step.worker];
    assert BatchHolds(s, step.worker, b);
    SentIsOnStream(s.stream, Entry(Current(b), step.worker, b.deadline, s.now));
  }

  /** A step of one worker that rewrites at most a row it holds leaves every other batch alone. */
  lemma {:induction false} OthersKept(s: State, t: State, w: WorkerId, r: RowId)
    requires Inv(s) && Grows(s, t) && r in s.rows
    requires t.rows == s.rows
             || (s.rows[r].claimedBy == Some(w) && t.rows == s.rows[r := t.rows[r]] && t.rows[r].claimedBy.None?)
    requires forall v :: v in t.workers && v != w ==> v in s.workers && t.workers[v] == s.workers[v]
    ensures forall v :: v in t.workers && v != w ==> BatchHolds(t, v, t.workers[v])
  {
    forall v | v in t.workers && v != w ensures BatchHolds(t, v, t.workers[v]) {
      BatchKept(s, t, v, s.workers[v]);
    }
  }

  lemma {:induction false} RowsKept(s: State, t: State, r: RowId)
    requires Inv(s) && Grows(s, t) && r in s.rows
    requires t.rows == s.rows || (t.rows == s.rows[r := t.rows[r]] && RowHolds(t, r))
    ensures forall q :: q in t.rows ==> RowHolds(t, q)
  {
    forall q | q in t.rows ensures RowHolds(t, q) {
      if t.rows[q] == s.rows[q] { RowKept(s, t, q); }
    }
  }

  /** The worker's own batch after it marked, released or gave up on its current row. */
  lemma {:induction false} OwnBatchMoves(s: State, t: State, w: WorkerId, c: Batch)
    requires w in s.workers && BatchHolds(s, w, s.workers[w]) && Grows(s, t) && Busy(s, w)
    requires s.workers[w].stage == Marking || s.workers[w].stage == Releasing
    requires var b := s.workers[w];
             && c.startedAt == b.startedAt && c.deadline == b.deadline && c.candidates == b.candidates
             && c.examined == b.examined && c.claimed == b.claimed && c.raceLost == b.raceLost
             && Unfinished(c) == b.handled + 1
             && (c.stage == Publishing || (c.stage == Releasing && c.handled == b.handled))
             && c.published + c.failed + c.expiredMidPublish == b.handled + 1
    requires t.rows == s.rows || t.rows == s.rows[Current(s.workers[w]) := t.rows[Current(s.workers[w])]]
    ensures BatchHolds(t, w, c)
  {
    var b := s.workers[w];
    forall k | Unfinished(c) <= k < |c.claimed| ensures Ours(t, w, c, c.claimed[k]) {
      assert c.claimed[k] != Current(b);
      assert Ours(s, w, b, b.claimed[k]);
    }
  }

  lemma {:induction false} MarkKeepsInv(s: State, w: WorkerId)
    requires Inv(s) && Enabled(s, Mark(w))
    ensures Inv(Next(s, Mark(w)))
  {
    var t, r := Next(s, Mark(w)), Current(s.workers[w]);
    assert BatchHolds(s, w, s.workers[w]);
    OwnBatchMoves(s, t, w, t.workers[w]);
    RowsKept(s, t, r);
    OthersKept(s, t, w, r);
  }

  lemma {:induction false} MarkThrowsKeepsInv(s: State, w: WorkerId, applied: bool)
    requires Inv(s) && Enabled(s, MarkThrows(w, applied))
    ensures Inv(Next(s, MarkThrows(w, applied)))
  {
    var t, r := Next(s, MarkThrows(w, applied)), Current(s.workers[w]);
    assert BatchHolds(s, w, s.workers[w]);
    OwnBatchMoves(s, t, w, t.workers[w]);
    RowsKept(s, t, r);
    OthersKept(s, t, w, r);
  }

  lemma {:induction false} ReleaseKeepsInv(s: State, w: WorkerId)
    requires Inv(s) && Enabled(s, Release(w))
    ensures Inv(Next(s, Release(w)))
  {
    var t, r := Next(s, Release(w)), Current(s.workers[w]);
    assert BatchHolds(s, w, s.workers[w]);
    OwnBatchMoves(s, t, w, t.workers[w]);
    RowsKept(s, t, r);
    OthersKept(s, t, w, r);
  }

  lemma {:induction false} ReleaseThrowsKeepsInv(s: State, w: WorkerId, applied: bool)
    requires Inv(s) && Enabled(s, ReleaseThrows(w, applied))
    ensures Inv(Next(s, ReleaseThrows(w, applied)))
  {
    var t, r := Next(s, ReleaseThrows(w, applied)), Current(s.workers[w]);
    assert BatchHolds(s, w, s.workers[w]);
    OwnBatchMoves(s, t, w, t.workers[w]);
    RowsKept(s, t, r);
    OthersKept(s, t, w, r);
  }

  lemma {:induction false} InitHolds(s: State)
    requires Init(s)
    ensures Inv(s)
  {
  }

  /** Every step keeps the invariant. */
  lemma {:induction false} StepKeepsInv(s: State, step: Step)
    requires Inv(s) && Enabled(s, step)
    ensures Inv(Next(s, step))
  {
    match step
    case Begin(_, _) => LocalStepKeepsInv(s, step);
    case Scan(_, _) => LocalStepKeepsInv(s, step);
    case ClaimsDone(_) => LocalStepKeepsInv(s, step);
    case Claim(w) => ClaimKeepsInv(s, w);
    case Publish(_) => PublishKeepsInv(s, step);
    case PublishThrows(_, _) => PublishKeepsInv(s, step);
    case Mark(w) => MarkKeepsInv(s, w);
    case MarkThrows(w, applied) => MarkThrowsKeepsInv(s, w, applied);
    case Release(w) => ReleaseKeepsInv(s, w);
    case ReleaseThrows(w, applied) => ReleaseThrowsKeepsInv(s, w, applied);
    case _ => QuietStepKeepsInv(s, step);
  }

  // ---------------------------------------------------------------- leases are exclusive

  ghost predicate HoldsUnfinished(s: State, w: WorkerId, r: RowId) {
    w in s.workers
    && exists k :: Unfinished(s.workers[w]) <= k < |s.workers[w].claimed| && s.workers[w].claimed[k] == r
  }

  ghost predicate Leased(s: State, w: WorkerId, r: RowId) {
    HoldsUnfinished(s, w, r) && s.now <= s.workers[w].deadline
  }

  /** At most one worker holds an unfinished claim on a row whose deadline has not passed. */
  lemma {:induction false} LeaseIsExclusive(s: State, v: WorkerId, w: WorkerId, r: RowId)
    requires Inv(s) && Leased(s, v, r) && Leased(s, w, r)
    ensures v == w
  {
    var i :| Unfinished(s.workers[v]) <= i < |s.workers[v].claimed| && s.workers[v].claimed[i] == r;
    var j :| Unfinished(s.workers[w]) <= j < |s.workers[w].claimed| && s.workers[w].claimed[j] == r;
    assert Ours(s, v, s.workers[v], s.workers[v].claimed[i]);
    assert Ours(s, w, s.workers[w], s.workers[w].claimed[j]);
  }

  // ---------------------------------------------------------------- published rows are frozen

  /** No step claims, changes or unpublishes a published row: not even the failure release. */
  lemma {:induction false} PublishedRowIsFrozen(s: State, step: Step, r: RowId)
    requires Inv(s) && Enabled(s, step) && r in s.rows && s.rows[r].publishedAt.Some?
    ensures r in Next(s, step).rows && Next(s, step).rows[r] == s.rows[r]
  {
    assert RowHolds(s, r);
  }

  // ---------------------------------------------------------------- batch counts

  /** A completed batch accounts for every row it scanned and every row it claimed. */
  lemma {:induction false} BatchCountsBalance(s: State, w: WorkerId)
    requires Inv(s) && Enabled(s, Finish(w))
    ensures var b := s.workers[w];
            && |b.candidates| == |b.claimed| + b.raceLost
            && |b.claimed| == b.published + b.failed + b.expiredMidPublish
  {
    assert BatchHolds(s, w, s.workers[w]);
  }

  // ---------------------------------------------------------------- duplicates come from expired leases

  /** A publish that threw after sending, or a mark that failed without effect, forgets a sent row. */
  predicate ForgetsSend(step: Step) {
    (step.PublishThrows? && step.sent) || (step.MarkThrows? && !step.applied)
  }

  /** ...and does so while the worker's lease is running. */
  ghost predicate ForgetsEarly(s: State, step: Step)
    requires Enabled(s, step)
  {
    ForgetsSend(step) && s.now <= s.workers[step.worker].deadline
  }

  /** The rows the worker may still send or give back. */
  function Unsent(b: Batch): nat {
    if b.stage == Marking then b.handled + 1 else b.handled
  }

  ghost predicate WillSend(s: State, w: WorkerId, r: RowId) {
    w in s.workers
    && exists k :: Unsent(s.workers[w]) <= k < |s.workers[w].claimed| && s.workers[w].claimed[k] == r
  }

  /**
   A sent row is published, or its lease is over, or its claim still stands and its holder
   will neither send it again nor give it back.
   */
  ghost predicate Remembered(s: State, e: Entry) {
    e.row in s.rows &&
    (|| s.rows[e.row].publishedAt.Some?
     || e.deadline < s.now
     || (s.rows[e.row].claimedBy == Some(e.worker) && s.rows[e.row].claimExpiresAt == Some(e.deadline)
         && !WillSend(s, e.worker, e.row)))
  }

  ghost predicate AllRemembered(s: State) {
    forall e :: e in s.stream ==> Remembered(s, e)
  }

  /** Of two entries for a row, the second was sent after one of the two leases was over. */
  ghost predicate NoEarlyDuplicate(stream: seq<Entry>) {
    forall i, j :: 0 <= i < j < |stream| && stream[i].row == stream[j].row ==>
      stream[j].at > stream[i].deadline || stream[j].at > stream[j].deadline
  }

  lemma {:induction false} RememberedKept(s: State, t: State, e: Entry)
    requires Remembered(s, e) && s.now <= t.now && e.row in t.rows
    requires s.rows[e.row].publishedAt.Some? ==> t.rows[e.row].publishedAt.Some?
    requires s.rows[e.row].claimedBy == Some(e.worker) && s.rows[e.row].claimExpiresAt == Some(e.deadline) ==>
               || t.rows[e.row].publishedAt.Some? || e.deadline < t.now
               || (t.rows[e.row].claimedBy == Some(e.worker) && t.rows[e.row].claimExpiresAt == Some(e.deadline)
                   && (WillSend(t, e.worker, e.row) ==> WillSend(s, e.worker, e.row)))
    ensures Remembered(t, e)
  {
  }

  lemma {:induction false} QuietStepRemembers(s: State, step: Step, e: Entry)
    requires Inv(s) && Enabled(s, step) && Remembered(s, e)
    requires step.Tick? || step.Insert? || step.Begin? || step.Scan? || step.ClaimsDone? || step.Finish? || step.Crash?
    ensures Remembered(Next(s, step), e)
  {
    var t := Next(s, step);
    assert WillSend(t, e.worker, e.row) ==> WillSend(s, e.worker, e.row);
  }

  lemma {:induction false} ClaimRemembers(s: State, w: WorkerId, e: Entry)
    requires Inv(s) && Enabled(s, Claim(w)) && Remembered(s, e)
    ensures Remembered(Next(s, Claim(w)), e)
  {
    var t, b := Next(s, Claim(w)), s.workers[w];
    var c := b.candidates[b.examined];
    assert RowHolds(s, c) && BatchHolds(s, w, b);
    if e.row != c || t.rows == s.rows {
      if WillSend(t, e.worker, e.row) {
        var u := t.workers[e.worker];
        var k :| Unsent(u) <= k < |u.claimed| && u.claimed[k] == e.row;
        assert s.workers[e.worker].claimed[k] == e.row;
        assert WillSend(s, e.worker, e.row);
      }
      RememberedKept(s, t, e);
    }
  }

  /** What a worker may still send does not grow as it deals with its current row. */
  lemma {:induction false} SendsShrink(s: State, t: State, w: WorkerId, e: Entry)
    requires w in s.workers && w in t.workers && forall v :: v != w && v in t.workers ==>
             v in s.workers && t.workers[v] == s.workers[v]
    requires t.workers[w].claimed == s.workers[w].claimed && Unsent(s.workers[w]) <= Unsent(t.workers[w])
    ensures WillSend(t, e.worker, e.row) ==> WillSend(s, e.worker, e.row)
  {
    if WillSend(t, e.worker, e.row) {
      var u := t.workers[e.worker];
      var k :| Unsent(u) <= k < |u.claimed| && u.claimed[k] == e.row;
      assert s.workers[e.worker].claimed[k] == e.row;
    }
  }

  lemma {:induction false} PublishRemembers(s: State, step: Step, e: Entry)
    requires Inv(s) && Enabled(s, step) && Remembered(s, e) && (step.Publish? || step.PublishThrows?)
    ensures Remembered(Next(s, step), e)
  {
    SendsShrink(s, Next(s, step), step.worker, e);
  }

  lemma {:induction false} MarkRemembers(s: State, w: WorkerId, e: Entry)
    requires Inv(s) && Enabled(s, Mark(w)) && Remembered(s, e)
    ensures Remembered(Next(s, Mark(w)), e)
  {
    SendsShrink(s, Next(s, Mark(w)), w, e);
  }

  /** A mark that took effect before it threw leaves the row published. */
  lemma {:induction false} MarkThrowsRemembers(s: State, w: WorkerId, e: Entry)
    requires Inv(s) && Enabled(s, MarkThrows(w, true)) && Remembered(s, e)
    ensures Remembered(Next(s, MarkThrows(w, true)), e)
  {
    var t, b := Next(s, MarkThrows(w, true)), s.workers[w];
    if WillSend(t, e.worker, e.row) && !WillSend(s, e.worker, e.row) {
      var u := t.workers[e.worker];
      var k :| Unsent(u) <= k < |u.claimed| && u.claimed[k] == e.row;
      assert s.workers[e.worker].claimed[k] == e.row;
      assert e.worker == w && e.row == Current(b);
    }
  }

  /** A row that is given back was not sent under the claim that is given up. */
  lemma {:induction false} ReleaseRemembers(s: State, step: Step, e: Entry)
    requires Inv(s) && Enabled(s, step) && Remembered(s, e) && (step.Release? || step.ReleaseThrows?)
    ensures Remembered(Next(s, step), e)
  {
    var t, w := Next(s, step), step.worker;
    var b := s.workers[w];
    SendsShrink(s, t, w, e);
    if e.worker == w && e.row == Current(b) {
      assert b.claimed[b.handled] == e.row;
      assert WillSend(s, w, e.row);
    }
  }

  lemma {:induction false} SentIsRemembered(s: State, w: WorkerId)
    requires Inv(s) && Enabled(s, Publish(w))
    ensures var t := Next(s, Publish(w)); Remembered(t, t.stream[|s.stream|])
  {
    var t, b := Next(s, Publish(w)), s.workers[w];
    assert BatchHolds(s, w, b);
    assert Ours(s, w, b, b.claimed[b.handled]);
    assert !WillSend(t, w, Current(b));
  }

  lemma {:induction false} SendIsNotEarly(s: State, w: WorkerId)
    requires Inv(s) && Enabled(s, Publish(w)) && AllRemembered(s) && NoEarlyDuplicate(s.stream)
    ensures NoEarlyDuplicate(Next(s, Publish(w)).stream)
  {
    var b, n := s.workers[w], |s.stream|;
    var r := Current(b);
    assert BatchHolds(s, w, b);
    assert Ours(s, w, b, b.claimed[b.handled]);
    forall i | 0 <= i < n && s.stream[i].row == r ensures s.now > s.stream[i].deadline || s.now > b.deadline {
      var e := s.stream[i];
      assert e in s.stream;
      assert Remembered(s, e);
      assert WillSend(s, w, r) by { assert b.claimed[b.handled] == r; }
    }
    var stream := Next(s, Publish(w)).stream;
    forall i, j | 0 <= i < j < |stream| && stream[i].row == stream[j].row
      ensures stream[j].at > stream[i].deadline || stream[j].at > stream[j].deadline
    {
      assert stream[i] == s.stream[i];
      if j < n { assert stream[j] == s.stream[j]; }
    }
  }

  /** A send that is forgotten after the lease leaves an entry whose lease is over. */
  lemma {:induction false} LateSend(s: State, w: WorkerId)
    requires Inv(s) && Enabled(s, PublishThrows(w, true)) && s.workers[w].deadline < s.now && NoEarlyDuplicate(s.stream)
    ensures var t := Next(s, PublishThrows(w, true)); Remembered(t, t.stream[|s.stream|]) && NoEarlyDuplicate(t.stream)
  {
    var stream := Next(s, PublishThrows(w, true)).stream;
    forall i, j | 0 <= i < j < |stream| && stream[i].row == stream[j].row
      ensures stream[j].at > stream[i].deadline || stream[j].at > stream[j].deadline
    {
      assert stream[i] == s.stream[i];
      if j < |s.stream| { assert stream[j] == s.stream[j]; }
    }
  }

  lemma {:induction false} LateMarkRemembers(s: State, w: WorkerId, e: Entry)
    requires Inv(s) && Enabled(s, MarkThrows(w, false)) && s.workers[w].deadline < s.now && Remembered(s, e)
    ensures Remembered(Next(s, MarkThrows(w, false)), e)
  {
    var t, b := Next(s, MarkThrows(w, false)), s.workers[w];
    assert BatchHolds(s, w, b);
    assert Ours(s, w, b, b.claimed[b.handled]);
    if WillSend(t, e.worker, e.row) && !WillSend(s, e.worker, e.row) {
      var u := t.workers[e.worker];
      var k :| Unsent(u) <= k < |u.claimed| && u.claimed[k] == e.row;
      assert s.workers[e.worker].claimed[k] == e.row;
      assert e.worker == w && e.row == Current(b);
    }
  }

  lemma {:induction false} StepRemembers(s: State, step: Step, e: Entry)
    requires Inv(s) && Enabled(s, step) && !ForgetsEarly(s, step) && Remembered(s, e)
    ensures Remembered(Next(s, step), e)
  {
    match step
    case Claim(w) => ClaimRemembers(s, w, e);
    case Publish(_) => PublishRemembers(s, step, e);
    case PublishThrows(_, _) => PublishRemembers(s, step, e);
    case Mark(w) => MarkRemembers(s, w, e);
    case MarkThrows(w, applied) =>
      if applied { MarkThrowsRemembers(s, w, e); } else { LateMarkRemembers(s, w, e); }
    case Release(_) => ReleaseRemembers(s, step, e);
    case ReleaseThrows(_, _) => ReleaseRemembers(s, step, e);
    case _ => QuietStepRemembers(s, step, e);
  }

  /** Unless a step forgets a send early, duplicates on the stream come only from expired leases. */
  lemma {:induction false} StepKeepsDuplicatesLate(s: State, step: Step)
    requires Inv(s) && AllRemembered(s) && NoEarlyDuplicate(s.stream)
    requires Enabled(s, step) && !ForgetsEarly(s, step)
    ensures AllRemembered(Next(s, step)) && NoEarlyDuplicate(Next(s, step).stream)
  {
    var t := Next(s, step);
    forall e | e in s.stream ensures Remembered(t, e) {
      StepRemembers(s, step, e);
    }
    if step.Publish? {
      SentIsRemembered(s, step.worker);
      SendIsNotEarly(s, step.worker);
    } else if step.PublishThrows? && step.sent {
      LateSend(s, step.worker);
    }
  }

  // ---------------------------------------------------------------- whole runs

  /** The state after a sequence of steps, if every step was enabled when it was taken. */
  ghost predicate Run(s: State, steps: seq<Step>, t: State)
    decreases |steps|
  {
    if |steps| == 0 then s == t
    else Enabled(s, steps[0]) && Run(Next(s, steps[0]), steps[1..], t)
  }

  /** Safety over every run: the invariant holds and published rows stay as they are. */
  lemma {:induction false} RunIsSafe(s: State, steps: seq<Step>, t: State)
    requires Inv(s) && Run(s, steps, t)
    ensures Inv(t)
    ensures forall r :: r in s.rows && s.rows[r].publishedAt.Some? ==> r in t.rows && t.rows[r] == s.rows[r]
    decreases |steps|
  {
    if |steps| > 0 {
      StepKeepsInv(s, steps[0]);
      forall r | r in s.rows && s.rows[r].publishedAt.Some?
        ensures r in Next(s, steps[0]).rows && Next(s, steps[0]).rows[r] == s.rows[r]
      {
        PublishedRowIsFrozen(s, steps[0], r);
      }
      RunIsSafe(Next(s, steps[0]), steps[1..], t);
    }
  }

  /** A run in which no step forgets a send while its lease is running. */
  ghost predicate Mindful(s: State, steps: seq<Step>)
    decreases |steps|
  {
    |steps| == 0
    || (Enabled(s, steps[0]) && !ForgetsEarly(s, steps[0]) && Mindful(Next(s, steps[0]), steps[1..]))
  }

  /** In a run that forgets no send early, a row is on the stream twice only after a lease on it was over. */
  lemma {:induction false} RunHasNoEarlyDuplicate(s: State, steps: seq<Step>, t: State)
    requires Inv(s) && AllRemembered(s) && NoEarlyDuplicate(s.stream) && Run(s, steps, t) && Mindful(s, steps)
    ensures NoEarlyDuplicate(t.stream)
    decreases |steps|
  {
    if |steps| > 0 {
      StepKeepsInv(s, steps[0]);
      StepKeepsDuplicatesLate(s, steps[0]);
      RunHasNoEarlyDuplicate(Next(s, steps[0]), steps[1..], t);
    }
  }

  /** From the start, over every interleaving: leases are exclusive, published rows are on the stream. */
  lemma {:induction false} OutboxIsSafe(s: State, steps: seq<Step>, t: State)
    requires Init(s) && Run(s, steps, t)
    ensures forall r :: r in t.rows && t.rows[r].publishedAt.Some? ==> OnStream(t.stream, r)
    ensures forall v, w, r :: Leased(t, v, r) && Leased(t, w, r) ==> v == w
    ensures Mindful(s, steps) ==> NoEarlyDuplicate(t.stream)
  {
    InitHolds(s);
    RunIsSafe(s, steps, t);
    forall r | r in t.rows && t.rows[r].publishedAt.Some? ensures OnStream(t.stream, r) {
      assert RowHolds(t, r);
    }
    forall v, w, r | Leased(t, v, r) && Leased(t, w, r) ensures v == w {
      LeaseIsExclusive(t, v, w, r);
    }
    if Mindful(s, steps) {
      RunHasNoEarlyDuplicate(s, steps, t);
    }
  }

  // ---------------------------------------------------------------- a forgotten send does duplicate

  lemma {:induction false} RunOne(s: State, step: Step)
    requires Enabled(s, step)
    ensures Run(s, [step], Next(s, step))
  {
    assert [step][1..] == [];
    assert Run(Next(s, step), [], Next(s, step));
  }

  lemma {:induction false} RunsCompose(s: State, a: seq<Step>, t: State, b: seq<Step>, u: State)
    requires Run(s, a, t) && Run(t, b, u)
    ensures Run(s, a + b, u)
    decreases |a|
  {
    if |a| == 0 {
      assert a + b == b;
    } else {
      RunsCompose(Next(s, a[0]), a[1..], t, b, u);
      assert (a + b)[1..] == a[1..] + b;
    }
  }

  lemma {:induction false} RunStep(s: State, steps: seq<Step>, t: State, step: Step)
    requires Run(s, steps, t) && Enabled(t, step)
    ensures Run(s, steps + [step], Next(t, step))
  {
    RunOne(t, step);
    RunsCompose(s, steps, t, [step], Next(t, step));
  }

  /** A worker that begins now, with the shortest lease, on one row. */
  function Single(now: int, r: RowId, stage: Stage): Batch {
    Batch(now, now + MIN_LEASE, stage, [r], 1, [r], 0, 0, 0, 0, 0, 0)
  }

  lemma {:induction false} ClaimsRow(s: State, v: WorkerId, r: RowId) returns (steps: seq<Step>, t: State)
    requires r in s.rows && Claimable(s.rows[r], s.now) && v !in s.workers
    ensures Run(s, steps, t)
    ensures t.now == s.now && t.stream == s.stream && r in t.rows
    ensures v in t.workers && t.workers[v] == Single(s.now, r, Claiming)
  {
    var s1 := Next(s, Begin(v, 0));
    RunOne(s, Begin(v, 0));
    var s2 := Next(s1, Scan(v, [r]));
    RunStep(s, [Begin(v, 0)], s1, Scan(v, [r]));
    t := Next(s2, Claim(v));
    RunStep(s, [Begin(v, 0)] + [Scan(v, [r])], s2, Claim(v));
    steps := [Begin(v, 0)] + [Scan(v, [r])] + [Claim(v)];
    assert t.workers[v].claimed == [] + [r];
  }

  /** A fresh worker claims a free row and sends it at once. */
  lemma {:induction false} SendsRow(s: State, v: WorkerId, r: RowId) returns (steps: seq<Step>, t: State)
    requires r in s.rows && Claimable(s.rows[r], s.now) && v !in s.workers
    ensures Run(s, steps, t)
    ensures t.now == s.now && t.stream == s.stream + [Entry(r, v, s.now + MIN_LEASE, s.now)] && r in t.rows
    ensures v in t.workers && t.workers[v] == Single(s.now, r, Marking)
  {
    var claims, s3 := ClaimsRow(s, v, r);
    var s4 := Next(s3, ClaimsDone(v));
    RunStep(s, claims, s3, ClaimsDone(v));
    t := Next(s4, Publish(v));
    RunStep(s, claims + [ClaimsDone(v)], s4, Publish(v));
    steps := claims + [ClaimsDone(v)] + [Publish(v)];
  }

  /** There is always another worker. */
  lemma {:induction false} AnotherWorker(ids: set<WorkerId>) returns (v: WorkerId)
    ensures forall x :: x in ids ==> x < v
    decreases |ids|
  {
    v := 0;
    if x :| x in ids {
      var above := AnotherWorker(ids - {x});
      v := if x < above then above else x + 1;
      assert forall y :: y in ids ==> y == x || y in ids - {x};
    }
  }

  ghost predicate HasRunningEntry(s: State, r: RowId) {
    exists i :: 0 <= i < |s.stream| && s.stream[i].row == r && s.now <= s.stream[i].deadline
  }

  /** A row that is free while an entry for it is under a running lease can be sent again at once. */
  lemma {:induction false} FreeRowIsSentAgain(s: State, r: RowId) returns (steps: seq<Step>, t: State)
    requires r in s.rows && Claimable(s.rows[r], s.now) && HasRunningEntry(s, r)
    ensures Run(s, steps, t) && !NoEarlyDuplicate(t.stream)
  {
    var v := AnotherWorker(s.workers.Keys);
    steps, t := SendsRow(s, v, r);
    var i :| 0 <= i < |s.stream| && s.stream[i].row == r && s.now <= s.stream[i].deadline;
    assert t.stream[i] == s.stream[i] && t.stream[|s.stream|].row == r && t.stream[|s.stream|].at == s.now;
  }

  /** After a forgotten send the row is still claimed, is about to be given back, and is on the stream. */
  lemma {:induction false} ForgottenRow(s: State, step: Step)
    requires Inv(s) && Enabled(s, step) && ForgetsEarly(s, step)
    ensures var t, w := Next(s, step), step.worker;
            && Enabled(t, Release(w)) && t.now == s.now && HasRunningEntry(t, Current(s.workers[w]))
            && Current(t.workers[w]) == Current(s.workers[w])
            && t.rows == s.rows && Held(s, w, s.workers[w], Current(s.workers[w]))
  {
    var t, w := Next(s, step), step.worker;
    var b := s.workers[w];
    assert BatchHolds(s, w, b);
    assert Ours(s, w, b, b.claimed[b.handled]);
    if step.PublishThrows? {
      assert t.stream[|s.stream|] == Entry(Current(b), w, b.deadline, s.now);
    } else {
      var e :| e in s.stream && e.row == Current(b) && e.worker == w && e.deadline == b.deadline;
      var i :| 0 <= i < |s.stream| && s.stream[i] == e;
    }
  }

  lemma {:induction false} GivenBack(s: State, w: WorkerId)
    requires Enabled(s, Release(w)) && s.rows[Current(s.workers[w])].claimedBy == Some(w)
    requires s.rows[Current(s.workers[w])].publishedAt.None?
    ensures var t, r := Next(s, Release(w)), Current(s.workers[w]);
            t.now == s.now && t.stream == s.stream && r in t.rows && Claimable(t.rows[r], t.now)
  {
  }

  /**
   Whatever the state, a holder that forgets a send while its lease is running lets the row be sent again before
   that lease is over.
   */
  lemma {:induction false} ForgettingDuplicatesEarly(s: State, step: Step) returns (rest: seq<Step>, t: State)
    requires Inv(s) && Enabled(s, step) && ForgetsEarly(s, step)
    ensures Run(s, [step] + rest, t) && !NoEarlyDuplicate(t.stream)
  {
    var w, r := step.worker, Current(s.workers[step.worker]);
    var s1 := Next(s, step);
    ForgottenRow(s, step);
    GivenBack(s1, w);
    var s2 := Next(s1, Release(w));
    assert HasRunningEntry(s2, r);
    var again;
    again, t := FreeRowIsSentAgain(s2, r);
    RunOne(s, step);
    RunOne(s1, Release(w));
    RunsCompose(s1, [Release(w)], s2, again, t);
    RunsCompose(s, [step], s1, [Release(w)] + again, t);
    rest := [Release(w)] + again;
  }

  /** So a run that is not mindful can go on, from the step that was not, to an early duplicate. */
  lemma {:induction false} CarelessRunsDuplicateEarly(s: State, steps: seq<Step>, t: State)
    returns (k: nat, rest: seq<Step>, u: State)
    requires Inv(s) && Run(s, steps, t) && !Mindful(s, steps)
    ensures k < |steps| && Run(s, steps[..k + 1] + rest, u) && !NoEarlyDuplicate(u.stream)
    decreases |steps|
  {
    if ForgetsEarly(s, steps[0]) {
      rest, u := ForgettingDuplicatesEarly(s, steps[0]);
      k := 0;
      assert steps[..1] == [steps[0]];
    } else {
      var next := Next(s, steps[0]);
      StepKeepsInv(s, steps[0]);
      k, rest, u := CarelessRunsDuplicateEarly(next, steps[1..], t);
      RunOne(s, steps[0]);
      RunsCompose(s, [steps[0]], next, steps[1..][..k + 1] + rest, u);
      FirstAndRest(steps, k + 1, rest);
      k := k + 1;
    }
  }

  lemma {:induction false} FirstAndRest(steps: seq<Step>, n: nat, rest: seq<Step>)
    requires n < |steps|
    ensures [steps[0]] + (steps[1..][..n] + rest) == steps[..n + 1] + rest
  {
    assert [steps[0]] + steps[1..][..n] == steps[..n + 1];
  }

  function Fresh(): Row { Row(None, None, None, None, 0, false) }

  /**
   Expired leases are not the only source of duplicates: from a single unpublished row, one worker sends it, its mark
   throws without effect, and another worker sends the row again at once.
   */
  lemma {:induction false} FailedMarkDuplicatesEarly(s: State) returns (steps: seq<Step>, t: State)
    requires s == State(0, map[7 := Fresh()], [], map[])
    ensures Init(s) && Run(s, steps, t) && !NoEarlyDuplicate(t.stream)
  {
    var sends, a := SendsRow(s, 1, 7);
    InitHolds(s);
    RunIsSafe(s, sends, a);
    var rest;
    rest, t := ForgettingDuplicatesEarly(a, MarkThrows(1, false));
    RunsCompose(s, sends, a, [MarkThrows(1, false)] + rest, t);
    steps := sends + ([MarkThrows(1, false)] + rest);
  }
}
