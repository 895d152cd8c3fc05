/**
 Forwarding append-only collector files under a durable row checkpoint (scripts/attendance_csv_bridge.py, 53-84).
 A checkpoint's digest stands for the rows it was taken of. Timestamps are seconds of civil time.
 */
module Bridge {
  import opened Options
  import opened Trimming

  /** A collector row; a field that does not parse is None. */
  datatype Row = Row(stamp: Option<int>, userId: string, punch: Option<int>, verify: Option<int>)

  /** One line of the intake request. */
  datatype Line = Line(userId: string, stamp: int, punch: int, verify: int)

  /** A file as one run reads it; an empty file lacks its columns. */
  datatype File = File(complete: bool, hasColumns: bool, rows: seq<Row>)

  datatype Checkpoint = Checkpoint(rows: nat, digest: Option<seq<Row>>)

  /** The checkpoint in memory and on disk, the lines sent and the lines whose sending returned. */
  datatype State = State(memory: Checkpoint, disk: Checkpoint, sends: seq<Line>, acked: seq<Line>)

  /** What happens to the batch that starts at an offset. */
  datatype Fate = Fine | SendFails | StoppedAfterSend | SaveFails(written: bool)

  datatype Outcome = Done | Raised | Stopped

  datatype Delivery = Delivery(state: State, sent: nat, outcome: Outcome)

  const SECONDS_PER_DAY := 86_400
  const BATCH := 400

  // ---------------------------------------------------------------- rows to lines

  function Strip(s: string): string { Trim(s, PyBlank) }

  predicate ValidId(id: string) { id != "" && '\t' !in id && '\r' !in id && '\n' !in id }

  /** A row before the start date yields nothing, a bad one raises. */
  function LineOf(row: Row, startDay: int): Result<seq<Line>> {
    if row.stamp.None? then Thrown
    else if row.stamp.value / SECONDS_PER_DAY < startDay then Ok([])
    else if !ValidId(Strip(row.userId)) || row.punch.None? || row.verify.None? then Thrown
    else Ok([Line(Strip(row.userId), row.stamp.value, row.punch.value, row.verify.value)])
  }

  function LinesOf(rows: seq<Row>, startDay: int): Result<seq<Line>> {
    if |rows| == 0 then Ok([])
    else
      var front, last := LinesOf(rows[..|rows| - 1], startDay), LineOf(rows[|rows| - 1], startDay);
      if front.Thrown? || last.Thrown? then Thrown else Ok(front.value + last.value)
  }

  method BatchLines(rows: seq<Row>, startDay: int) returns (r: Result<seq<Line>>)
    ensures r == LinesOf(rows, startDay)
  {
    var lines: seq<Line> := [];
    for i := 0 to |rows|
      invariant LinesOf(rows[..i], startDay) == Ok(lines)
    {
      assert rows[..i + 1][..i] == rows[..i];
      var line := LineOf(rows[i], startDay);
      if line.Thrown? {
        PrefixThrows(rows, i + 1, startDay);
        return Thrown;
      }
      lines := lines + line.value;
    }
    assert rows[..|rows|] == rows;
    r := Ok(lines);
  }

  lemma {:induction false} PrefixThrows(rows: seq<Row>, k: nat, startDay: int)
    requires k <= |rows| && LinesOf(rows[..k], startDay).Thrown?
    ensures LinesOf(rows, startDay).Thrown?
  {
    if k == |rows| {
      assert rows[..k] == rows;
    } else {
      var front := rows[..|rows| - 1];
      assert front[..k] == rows[..k];
      PrefixThrows(front, k, startDay);
    }
  }

  lemma {:induction false} LinesSplit(a: seq<Row>, b: seq<Row>, startDay: int)
    requires LinesOf(a, startDay).Ok? && LinesOf(b, startDay).Ok?
    ensures LinesOf(a + b, startDay) == Ok(LinesOf(a, startDay).value + LinesOf(b, startDay).value)
  {
    if |b| == 0 {
      assert a + b == a;
      assert LinesOf(a, startDay).value + [] == LinesOf(a, startDay).value;
    } else {
      var n := |b| - 1;
      LinesSplit(a, b[..n], startDay);
      assert (a + b)[..|a + b| - 1] == a + b[..n];
      var x, y, z := LinesOf(a, startDay).value, LinesOf(b[..n], startDay).value, LineOf(b[n], startDay).value;
      assert x + y + z == x + (y + z);
    }
  }

  // ---------------------------------------------------------------- one batch, one run

  function EndOf(rows: seq<Row>, offset: nat, size: nat): nat {
    if offset + size < |rows| then offset + size else |rows|
  }

  /** Sending one batch: the lines go out and may be acknowledged. */
  function Send(st: State, lines: seq<Line>, fate: Fate): State {
    var out := st.(sends := st.sends + lines);
    if |lines| > 0 && fate.SendFails? then out else out.(acked := st.acked + lines)
  }

  predicate EndsAtSend(lines: seq<Line>, fate: Fate) { |lines| > 0 && (fate.SendFails? || fate.StoppedAfterSend?) }

  /** Advancing the checkpoint and saving it. */
  function Save(st: State, rows: seq<Row>, end: nat, fate: Fate): State
    requires end <= |rows|
  {
    var memory := Checkpoint(end, Some(rows[..end]));
    st.(memory := memory, disk := if fate.SaveFails? && !fate.written then st.disk else memory)
  }

  function Deliver(st: State, rows: seq<Row>, startDay: int, size: nat, fates: int -> Fate, offset: nat): Delivery
    requires size >= 1
    decreases |rows| - offset
  {
    if offset >= |rows| then Delivery(st, 0, Done)
    else
      var end, fate := EndOf(rows, offset, size), fates(offset);
      var lines := LinesOf(rows[offset..end], startDay);
      if lines.Thrown? then Delivery(st, 0, Raised)
      else
        var out := Send(st, lines.value, fate);
        if EndsAtSend(lines.value, fate) then Delivery(out, 0, if fate.SendFails? then Raised else Stopped)
        else
          var kept := Save(out, rows, end, fate);
          if fate.SaveFails? then Delivery(kept, 0, Raised)
          else
            var rest := Deliver(kept, rows, startDay, size, fates, end);
            rest.(sent := if rest.outcome.Done? then rest.sent + |lines.value| else 0)
  }

  /** The rows that were counted are not the rows of the file any more. */
  predicate Changed(c: Checkpoint, rows: seq<Row>) {
    c.rows > |rows| || (c.rows > 0 && c.digest != Some(rows[..c.rows]))
  }

  function Forward(st: State, file: File, startDay: int, size: nat, fates: int -> Fate): Delivery
    requires size >= 1
  {
    if !file.complete then Delivery(st, 0, Done)
    else if !file.hasColumns || Changed(st.memory, file.rows) then Delivery(st, 0, Raised)
    else Deliver(st, file.rows, startDay, size, fates, st.memory.rows)
  }

  /** The forwarder with its checkpoint dictionary and the world around it. */
  class Forwarder {
    var memory: Checkpoint
    var disk: Checkpoint
    var sends: seq<Line>
    var acked: seq<Line>

    function Now(): State
      reads this
    {
      State(memory, disk, sends, acked)
    }

    method ForwardFile(file: File, startDay: int, size: nat, fates: int -> Fate) returns (sent: nat, outcome: Outcome)
      requires size >= 1
      modifies this
      ensures Delivery(Now(), sent, outcome) == Forward(old(Now()), file, startDay, size, fates)
    {
      if !file.complete { return 0, Done; }
      if !file.hasColumns { return 0, Raised; }
      var rows := file.rows;
      if memory.rows > |rows| || (memory.rows > 0 && memory.digest != Some(rows[..memory.rows])) {
        return 0, Raised;
      }
      ghost var start := Now();
      var offset := memory.rows;
      sent := 0;
      while offset < |rows|
        invariant offset <= |rows|
        invariant var rest := Deliver(Now(), rows, startDay, size, fates, offset);
                  Deliver(start, rows, startDay, size, fates, start.memory.rows)
                  == rest.(sent := if rest.outcome.Done? then rest.sent + sent else 0)
      {
        var end := EndOf(rows, offset, size);
        var failure, count := OneBatch(rows, offset, end, startDay, fates(offset));
        if failure.Some? { return 0, failure.value; }
        sent := sent + count;
        offset := end;
      }
      outcome := Done;
    }

    /** Sends one batch, advances the checkpoint and saves it. */
    method OneBatch(rows: seq<Row>, offset: nat, end: nat, startDay: int, fate: Fate)
      returns (failure: Option<Outcome>, count: nat)
      requires offset <= end <= |rows|
      modifies this
      ensures var lines := LinesOf(rows[offset..end], startDay);
              && (lines.Thrown? ==> failure == Some(Raised) && Now() == old(Now()))
              && (lines.Ok? ==>
                    var out := Send(old(Now()), lines.value, fate);
                    if EndsAtSend(lines.value, fate) then
                      failure == Some(if fate.SendFails? then Raised else Stopped) && Now() == out
                    else
                      && Now() == Save(out, rows, end, fate)
                      && (if fate.SaveFails? then failure == Some(Raised) else failure.None? && count == |lines.value|))
    {
      count := 0;
      var lines := BatchLines(rows[offset..end], startDay);
      if lines.Thrown? { return Some(Raised), 0; }
      if |lines.value| > 0 {
        sends := sends + lines.value;
        if fate.SendFails? { return Some(Raised), 0; }
        acked := acked + lines.value;
        if fate.StoppedAfterSend? { return Some(Stopped), 0; }
        count := |lines.value|;
      }
      memory := Checkpoint(end, Some(rows[..end]));
      if !fate.SaveFails? || fate.written { disk := memory; }
      if fate.SaveFails? { return Some(Raised), 0; }
      failure := None;
    }
  }

  // ---------------------------------------------------------------- what a checkpoint means

  /** How often a line occurs. */
  function Occurs(lines: seq<Line>, line: Line): nat {
    if |lines| == 0 then 0 else Occurs(lines[..|lines| - 1], line) + (if lines[|lines| - 1] == line then 1 else 0)
  }

  lemma {:induction false} OccursSplit(a: seq<Line>, b: seq<Line>, line: Line)
    ensures Occurs(a + b, line) == Occurs(a, line) + Occurs(b, line)
  {
    if |b| == 0 {
      assert a + b == a;
    } else {
      OccursSplit(a, b[..|b| - 1], line);
      assert (a + b)[..|a + b| - 1] == a + b[..|b| - 1];
    }
  }

  /** Lines that are among others as often as they occur. */
  ghost predicate Among(lines: seq<Line>, acked: seq<Line>) {
    forall line :: Occurs(lines, line) <= Occurs(acked, line)
  }

  lemma {:induction false} AmongBoth(lines: seq<Line>, acked: seq<Line>, more: seq<Line>)
    requires Among(lines, acked)
    ensures Among(lines, acked + more) && Among(lines + more, acked + more)
  {
    forall line
      ensures Occurs(lines, line) <= Occurs(acked + more, line)
      ensures Occurs(lines + more, line) <= Occurs(acked + more, line)
    {
      OccursSplit(acked, more, line);
      OccursSplit(lines, more, line);
    }
  }

  /** The lines of the rows are among the acknowledged ones, as often as they occur. */
  ghost predicate Acknowledged(rows: seq<Row>, acked: seq<Line>, startDay: int) {
    LinesOf(rows, startDay).Ok? && Among(LinesOf(rows, startDay).value, acked)
  }

  /** Every eligible row below the checkpoint was acknowledged. */
  ghost predicate Backed(c: Checkpoint, acked: seq<Line>, startDay: int) {
    c.rows == 0 || (c.digest.Some? && |c.digest.value| == c.rows && Acknowledged(c.digest.value, acked, startDay))
  }

  ghost predicate Inv(st: State, startDay: int) {
    Backed(st.memory, st.acked, startDay) && Backed(st.disk, st.acked, startDay)
  }

  lemma {:induction false} MoreAcked(rows: seq<Row>, acked: seq<Line>, lines: seq<Line>, startDay: int)
    requires Acknowledged(rows, acked, startDay)
    ensures Acknowledged(rows, acked + lines, startDay)
  {
    AmongBoth(LinesOf(rows, startDay).value, acked, lines);
  }

  lemma {:induction false} BackedLater(c: Checkpoint, acked: seq<Line>, lines: seq<Line>, startDay: int)
    requires Backed(c, acked, startDay)
    ensures Backed(c, acked + lines, startDay)
  {
    if c.rows > 0 {
      MoreAcked(c.digest.value, acked, lines, startDay);
    }
  }

  lemma {:induction false} BatchAcked(a: seq<Row>, b: seq<Row>, acked: seq<Line>, lines: seq<Line>, startDay: int)
    requires Acknowledged(a, acked, startDay) && LinesOf(b, startDay) == Ok(lines)
    ensures Acknowledged(a + b, acked + lines, startDay)
  {
    LinesSplit(a, b, startDay);
    AmongBoth(LinesOf(a, startDay).value, acked, lines);
  }

  /** Rows up to the offset are acknowledged and both checkpoints are backed. */
  ghost predicate Ready(st: State, rows: seq<Row>, offset: nat, startDay: int) {
    offset <= |rows| && Acknowledged(rows[..offset], st.acked, startDay) && Inv(st, startDay)
  }

  lemma {:induction false} SendKeepsInv(st: State, lines: seq<Line>, fate: Fate, startDay: int)
    requires Inv(st, startDay)
    ensures Inv(Send(st, lines, fate), startDay)
  {
    BackedLater(st.memory, st.acked, lines, startDay);
    BackedLater(st.disk, st.acked, lines, startDay);
  }

  lemma {:induction false} SaveIsReady(out: State, rows: seq<Row>, end: nat, fate: Fate, startDay: int)
    requires end <= |rows| && Inv(out, startDay) && Acknowledged(rows[..end], out.acked, startDay)
    ensures Ready(Save(out, rows, end, fate), rows, end, startDay)
  {
  }

  lemma {:induction false} SendAcks(st: State, rows: seq<Row>, offset: nat, end: nat, lines: seq<Line>, startDay: int)
    requires offset <= end <= |rows| && Acknowledged(rows[..offset], st.acked, startDay)
    requires LinesOf(rows[offset..end], startDay) == Ok(lines)
    ensures Acknowledged(rows[..end], st.acked + lines, startDay)
  {
    assert rows[..offset] + rows[offset..end] == rows[..end];
    BatchAcked(rows[..offset], rows[offset..end], st.acked, lines, startDay);
  }

  lemma {:induction false} SendKeepsReady(st: State, rows: seq<Row>, offset: nat, end: nat, lines: seq<Line>,
                                          startDay: int, fate: Fate)
    requires Ready(st, rows, offset, startDay) && offset <= end <= |rows|
             && LinesOf(rows[offset..end], startDay) == Ok(lines)
    ensures Inv(Send(st, lines, fate), startDay)
    ensures !EndsAtSend(lines, fate) ==> Ready(Save(Send(st, lines, fate), rows, end, fate), rows, end, startDay)
  {
    SendKeepsInv(st, lines, fate, startDay);
    if !EndsAtSend(lines, fate) {
      SendAcks(st, rows, offset, end, lines, startDay);
      SaveIsReady(Send(st, lines, fate), rows, end, fate, startDay);
    }
  }

  lemma {:induction false} DeliverKeepsInv(st: State, rows: seq<Row>, startDay: int, size: nat, fates: int -> Fate,
                                           offset: nat)
    requires size >= 1 && Ready(st, rows, offset, startDay)
    ensures Inv(Deliver(st, rows, startDay, size, fates, offset).state, startDay)
    decreases |rows| - offset
  {
    if offset < |rows| {
      var end, fate := EndOf(rows, offset, size), fates(offset);
      var lines := LinesOf(rows[offset..end], startDay);
      if lines.Ok? {
        SendKeepsReady(st, rows, offset, end, lines.value, startDay, fate);
        var out := Send(st, lines.value, fate);
        if !EndsAtSend(lines.value, fate) && !fate.SaveFails? {
          DeliverKeepsInv(Save(out, rows, end, fate), rows, startDay, size, fates, end);
        }
      }
    }
  }

  lemma {:induction false} ForwardKeepsInv(st: State, file: File, startDay: int, size: nat, fates: int -> Fate)
    requires size >= 1 && Inv(st, startDay)
    ensures Inv(Forward(st, file, startDay, size, fates).state, startDay)
  {
    if file.complete && file.hasColumns && !Changed(st.memory, file.rows) {
      assert st.memory.rows == 0 ==> file.rows[..0] == [];
      DeliverKeepsInv(st, file.rows, startDay, size, fates, st.memory.rows);
    }
  }

  // ---------------------------------------------------------------- one run, in order

  /** Acknowledged and sent lines of a run are the file's lines from the offset up to two row counts. */
  ghost predicate InOrder(st: State, d: Delivery, rows: seq<Row>, offset: nat, acked: nat, sent: nat, startDay: int) {
    && offset <= acked <= sent <= |rows|
    && LinesOf(rows[offset..acked], startDay).Ok? && LinesOf(rows[offset..sent], startDay).Ok?
    && d.state.acked == st.acked + LinesOf(rows[offset..acked], startDay).value
    && d.state.sends == st.sends + LinesOf(rows[offset..sent], startDay).value
    && (d.state.memory == st.memory || d.state.memory.rows <= acked)
    && (d.outcome.Done? ==> acked == sent == |rows| && d.sent == |LinesOf(rows[offset..acked], startDay).value|)
    && (d.outcome.Done? && offset < |rows| ==> d.state.memory == d.state.disk == Checkpoint(|rows|, Some(rows)))
    && (d.outcome.Done? && offset == |rows| ==> d.state == st)
  }

  lemma {:induction false} InOrderCons(st: State, mid: State, d: Delivery, rows: seq<Row>, offset: nat, end: nat,
                                       acked: nat, sent: nat, startDay: int)
    requires offset < end <= |rows| && LinesOf(rows[offset..end], startDay).Ok?
    requires var lines := LinesOf(rows[offset..end], startDay).value;
             mid.acked == st.acked + lines && mid.sends == st.sends + lines
    requires mid.memory == mid.disk == Checkpoint(end, Some(rows[..end]))
             && InOrder(mid, d, rows, end, acked, sent, startDay)
    ensures var lines := LinesOf(rows[offset..end], startDay).value;
            InOrder(st, d.(sent := if d.outcome.Done? then d.sent + |lines| else 0), rows, offset, acked, sent,
                    startDay)
  {
    JoinedLines(st.acked, rows, offset, end, acked, startDay);
    JoinedLines(st.sends, rows, offset, end, sent, startDay);
    assert end == |rows| ==> rows[..end] == rows;
  }

  lemma {:induction false} JoinedLines(log: seq<Line>, rows: seq<Row>, i: nat, j: nat, k: nat, startDay: int)
    requires i <= j <= k <= |rows| && LinesOf(rows[i..j], startDay).Ok? && LinesOf(rows[j..k], startDay).Ok?
    ensures LinesOf(rows[i..k], startDay).Ok?
    ensures |LinesOf(rows[i..k], startDay).value|
            == |LinesOf(rows[i..j], startDay).value| + |LinesOf(rows[j..k], startDay).value|
    ensures log + LinesOf(rows[i..k], startDay).value
            == log + LinesOf(rows[i..j], startDay).value + LinesOf(rows[j..k], startDay).value
  {
    LinesSplit(rows[i..j], rows[j..k], startDay);
    assert rows[i..j] + rows[j..k] == rows[i..k];
  }

  /** Within a run nothing is sent out of file order and no row is left out in between. */
  lemma {:induction false} DeliversInOrder(st: State, rows: seq<Row>, startDay: int, size: nat, fates: int -> Fate,
                                           offset: nat)
    returns (acked: nat, sent: nat)
    requires size >= 1 && offset <= |rows|
    ensures InOrder(st, Deliver(st, rows, startDay, size, fates, offset), rows, offset, acked, sent, startDay)
    decreases |rows| - offset
  {
    acked, sent := offset, offset;
    assert rows[offset..offset] == [];
    if offset < |rows| {
      var end, fate := EndOf(rows, offset, size), fates(offset);
      var lines := LinesOf(rows[offset..end], startDay);
      if lines.Ok? {
        sent := end;
        if |lines.value| > 0 && fate.SendFails? { return; }
        acked := end;
        var kept := Save(Send(st, lines.value, fate), rows, end, fate);
        if !EndsAtSend(lines.value, fate) && !fate.SaveFails? {
          var d := Deliver(kept, rows, startDay, size, fates, end);
          acked, sent := DeliversInOrder(kept, rows, startDay, size, fates, end);
          InOrderCons(st, kept, d, rows, offset, end, acked, sent, startDay);
        }
      }
    }
  }

  /** When a row that was already counted has changed or gone, nothing is sent and no checkpoint moves. */
  lemma {:induction false} ChangedRowsHoldDelivery(st: State, file: File, startDay: int, size: nat, fates: int -> Fate)
    requires size >= 1 && Inv(st, startDay) && file.complete
    requires file.rows[..Least(|file.rows|, st.memory.rows)] != st.memory.digest.GetOr([]) && st.memory.rows > 0
    ensures Forward(st, file, startDay, size, fates) == Delivery(st, 0, Raised)
  {
    assert st.memory.rows <= |file.rows| ==> file.rows[..st.memory.rows] != st.memory.digest.value;
  }

  function Least(a: nat, b: nat): nat { if a < b then a else b }

  // ---------------------------------------------------------------- whole histories

  /** A run over the file as it then is, a restart that keeps only the disk, or a save made for another file. */
  datatype Event = Run(file: File, fates: int -> Fate) | Restart | SaveElsewhere

  function Step(st: State, e: Event, startDay: int, size: nat): State
    requires size >= 1
  {
    match e
    case Run(file, fates) => Forward(st, file, startDay, size, fates).state
    case Restart => st.(memory := st.disk)
    case SaveElsewhere => st.(disk := st.memory)
  }

  function After(events: seq<Event>, startDay: int, size: nat): State
    requires size >= 1
  {
    if |events| == 0 then State(Checkpoint(0, None), Checkpoint(0, None), [], [])
    else Step(After(events[..|events| - 1], startDay, size), events[|events| - 1], startDay, size)
  }

  /** Over every history of runs, failures and restarts, eligible rows below a checkpoint were acknowledged. */
  lemma {:induction false} CheckpointsAreBacked(events: seq<Event>, startDay: int, size: nat)
    requires size >= 1
    ensures Inv(After(events, startDay, size), startDay)
  {
    if |events| > 0 {
      var before, e := After(events[..|events| - 1], startDay, size), events[|events| - 1];
      CheckpointsAreBacked(events[..|events| - 1], startDay, size);
      if e.Run? {
        ForwardKeepsInv(before, e.file, startDay, size, e.fates);
      }
    }
  }

  /** After any history, a run that ends without an error leaves every eligible row of the file acknowledged. */
  lemma {:induction false} FinishedRunDeliversAll(events: seq<Event>, file: File, fates: int -> Fate, startDay: int,
                                                  size: nat)
    requires size >= 1 && file.complete
    requires Forward(After(events, startDay, size), file, startDay, size, fates).outcome.Done?
    ensures Acknowledged(file.rows, Forward(After(events, startDay, size), file, startDay, size, fates).state.acked,
                         startDay)
  {
    CheckpointsAreBacked(events, startDay, size);
    var st := After(events, startDay, size);
    ForwardKeepsInv(st, file, startDay, size, fates);
    var acked, sent := DeliversInOrder(st, file.rows, startDay, size, fates, st.memory.rows);
    if st.memory.rows == |file.rows| {
      assert file.rows[..|file.rows|] == file.rows;
      assert st.memory.rows == 0 ==> file.rows == [];
    }
  }

  // ---------------------------------------------------------------- nothing twice

  /** The run's process is not killed between a send and the checkpoint. */
  ghost predicate Unkilled(e: Event) {
    e.Run? ==> forall o :: !(e.fates)(o).StoppedAfterSend?
  }

  /** Every save reached the disk. */
  ghost predicate SavesReachDisk(e: Event) {
    e.Run? ==> forall o :: (e.fates)(o) != SaveFails(false)
  }

  /** What was acknowledged is exactly what the checkpoint in memory counts. */
  ghost predicate Exact(st: State, startDay: int, saved: bool) {
    && (saved ==> st.memory == st.disk)
    && (if st.memory.rows == 0 then st.acked == []
        else st.memory.digest.Some? && LinesOf(st.memory.digest.value, startDay) == Ok(st.acked))
  }

  /** One batch that is sent, acknowledged and counted. */
  lemma {:induction false} BatchIsExact(st: State, rows: seq<Row>, startDay: int, offset: nat, end: nat, fate: Fate,
                                        saved: bool)
    requires offset < end <= |rows| && Exact(st, startDay, saved) && LinesOf(rows[..offset], startDay) == Ok(st.acked)
    requires LinesOf(rows[offset..end], startDay).Ok? && (saved ==> fate != SaveFails(false))
    requires !EndsAtSend(LinesOf(rows[offset..end], startDay).value, fate)
    ensures var kept := Save(Send(st, LinesOf(rows[offset..end], startDay).value, fate), rows, end, fate);
            Exact(kept, startDay, saved) && LinesOf(rows[..end], startDay) == Ok(kept.acked)
  {
    LinesSplit(rows[..offset], rows[offset..end], startDay);
    assert rows[..offset] + rows[offset..end] == rows[..end];
  }

  lemma {:induction false} DeliverIsExact(st: State, rows: seq<Row>, startDay: int, size: nat, fates: int -> Fate,
                                          offset: nat, saved: bool)
    requires size >= 1 && offset <= |rows| && Exact(st, startDay, saved)
             && LinesOf(rows[..offset], startDay) == Ok(st.acked)
    requires Unkilled(Run(File(true, true, rows), fates))
             && (saved ==> SavesReachDisk(Run(File(true, true, rows), fates)))
    ensures Exact(Deliver(st, rows, startDay, size, fates, offset).state, startDay, saved)
    decreases |rows| - offset
  {
    if offset < |rows| {
      var end, fate := EndOf(rows, offset, size), fates(offset);
      var lines := LinesOf(rows[offset..end], startDay);
      if lines.Ok? && !EndsAtSend(lines.value, fate) {
        BatchIsExact(st, rows, startDay, offset, end, fate, saved);
        if !fate.SaveFails? {
          DeliverIsExact(Save(Send(st, lines.value, fate), rows, end, fate), rows, startDay, size, fates, end, saved);
        }
      }
    }
  }

  /**
   Each eligible row is acknowledged exactly once, whatever sends and saves fail, as long as no process is killed
   between a send and its checkpoint and no restart follows a save that did not reach the disk.
   */
  lemma {:induction false} RowsAreAcknowledgedOnce(events: seq<Event>, startDay: int, size: nat, saved: bool)
    requires size >= 1 && forall i :: 0 <= i < |events| ==> Unkilled(events[i])
    requires if saved then forall i :: 0 <= i < |events| ==> SavesReachDisk(events[i])
             else forall i :: 0 <= i < |events| ==> !events[i].Restart?
    ensures Exact(After(events, startDay, size), startDay, saved)
  {
    if |events| > 0 {
      var n := |events| - 1;
      var before, e := After(events[..n], startDay, size), events[n];
      RowsAreAcknowledgedOnce(events[..n], startDay, size, saved);
      if e.Run? && e.file.complete && e.file.hasColumns && !Changed(before.memory, e.file.rows) {
        var rows := e.file.rows;
        assert rows[..0] == [];
        assert Unkilled(events[n]) && (saved ==> SavesReachDisk(events[n]));
        DeliverIsExact(before, rows, startDay, size, e.fates, before.memory.rows, saved);
      }
    }
  }
}
