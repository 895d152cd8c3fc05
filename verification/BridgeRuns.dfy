/**
 Which rows of a collector file become lines, and what one run over a file does batch by batch, written out
 (scripts/attendance_csv_bridge.py, 53-84).
 */
module BridgeRuns {
  import opened Options
  import opened Trimming
  import opened Subsequences
  import opened Bridge

  // ---------------------------------------------------------------- rows

  /** A row of the start date or later. */
  ghost predicate Counts(row: Row, startDay: int) { row.stamp.Some? && row.stamp.value >= startDay * 86_400 }

  ghost function NameOf(row: Row): string { Trim(row.userId, PyBlank) }

  /** A row without a time, or one that counts and lacks a field, or whose name is empty or spans columns or lines. */
  ghost predicate Bad(row: Row, startDay: int) {
    || row.stamp.None?
    || (Counts(row, startDay)
        && (row.punch.None? || row.verify.None? || Unusable(NameOf(row))))
  }

  ghost predicate Unusable(name: string) {
    name == "" || exists c :: c in name && (c == '\t' || c == '\r' || c == '\n')
  }

  ghost predicate Says(line: Line, row: Row) {
    && row.stamp == Some(line.stamp) && row.punch == Some(line.punch) && row.verify == Some(line.verify)
    && line.userId == NameOf(row)
  }

  ghost function Counting(startDay: int): Row -> bool { row => Counts(row, startDay) }

  ghost function Saying(): (Line, Row) -> bool { (line, row) => Says(line, row) }

  /** One line for each row that counts, in file order. */
  ghost predicate Tells(lines: seq<Line>, places: seq<nat>, rows: seq<Row>, startDay: int) {
    Answered(lines, places, rows, Counting(startDay), Saying())
  }

  ghost predicate SomeBad(rows: seq<Row>, startDay: int) { exists row :: row in rows && Bad(row, startDay) }

  /** Either no row is bad and these are the lines of the rows, or one is and there are none. */
  ghost predicate Read(lines: Result<seq<Line>>, rows: seq<Row>, startDay: int) {
    && (lines.Thrown? <==> SomeBad(rows, startDay))
    && (lines.Ok? ==> exists places: seq<nat> :: Tells(lines.value, places, rows, startDay))
  }

  lemma {:induction false} IdIs(id: string)
    ensures ValidId(id) <==> !Unusable(id)
  {
  }

  lemma {:induction false} CountsIs(row: Row, startDay: int)
    requires row.stamp.Some?
    ensures row.stamp.value / SECONDS_PER_DAY < startDay <==> !Counts(row, startDay)
  {
  }

  lemma {:induction false} LineIs(row: Row, startDay: int)
    ensures LineOf(row, startDay).Thrown? <==> Bad(row, startDay)
    ensures LineOf(row, startDay).Ok? && !Counts(row, startDay) ==> LineOf(row, startDay).value == []
    ensures LineOf(row, startDay).Ok? && Counts(row, startDay) ==>
              |LineOf(row, startDay).value| == 1 && Says(LineOf(row, startDay).value[0], row)
  {
    if row.stamp.Some? {
      CountsIs(row, startDay);
      IdIs(Strip(row.userId));
    }
  }

  lemma {:induction false} BadNext(front: seq<Row>, row: Row, startDay: int)
    ensures SomeBad(front + [row], startDay) <==> SomeBad(front, startDay) || Bad(row, startDay)
  {
    var rows := front + [row];
    if SomeBad(front, startDay) {
      var x :| x in front && Bad(x, startDay);
      assert x in rows;
    }
    assert row in rows;
  }

  lemma {:induction false} TellsMore(lines: seq<Line>, places: seq<nat>, front: seq<Row>, row: Row, line: Line,
                                     startDay: int)
    requires Tells(lines, places, front, startDay) && Counts(row, startDay) && Says(line, row)
    ensures Tells(lines + [line], places + [|front|], front + [row], startDay)
  {
    AnsweredNext(lines, places, front, row, line, Counting(startDay), Saying());
  }

  lemma {:induction false} TellsSame(lines: seq<Line>, places: seq<nat>, front: seq<Row>, row: Row, startDay: int)
    requires Tells(lines, places, front, startDay) && !Counts(row, startDay)
    ensures Tells(lines, places, front + [row], startDay)
  {
    AnsweredNext(lines, places, front, row, Line("", 0, 0, 0), Counting(startDay), Saying());
  }

  lemma {:induction false} TellsLast(lines: seq<Line>, more: seq<Line>, places: seq<nat>, front: seq<Row>, row: Row,
                                     startDay: int)
      returns (all: seq<nat>)
    requires Tells(lines, places, front, startDay)
    requires if Counts(row, startDay) then |more| == 1 && Says(more[0], row) else more == []
    ensures Tells(lines + more, all, front + [row], startDay)
  {
    if Counts(row, startDay) {
      TellsMore(lines, places, front, row, more[0], startDay);
      assert lines + more == lines + [more[0]];
      all := places + [|front|];
    } else {
      TellsSame(lines, places, front, row, startDay);
      assert lines + more == lines;
      all := places;
    }
  }

  lemma {:induction false} LinesTell(rows: seq<Row>, startDay: int) returns (places: seq<nat>)
    ensures LinesOf(rows, startDay).Thrown? <==> SomeBad(rows, startDay)
    ensures LinesOf(rows, startDay).Ok? ==> Tells(LinesOf(rows, startDay).value, places, rows, startDay)
  {
    places := [];
    if |rows| > 0 {
      var front, row := rows[..|rows| - 1], rows[|rows| - 1];
      assert rows == front + [row];
      var before := LinesTell(front, startDay);
      LineIs(row, startDay);
      BadNext(front, row, startDay);
      if LinesOf(front, startDay).Ok? && LineOf(row, startDay).Ok? {
        places := TellsLast(LinesOf(front, startDay).value, LineOf(row, startDay).value, before, front, row, startDay);
      }
    }
  }

  /** The lines of a batch. */
  lemma {:induction false} LinesAre(rows: seq<Row>, startDay: int)
    ensures Read(LinesOf(rows, startDay), rows, startDay)
  {
    var places := LinesTell(rows, startDay);
  }

  // ---------------------------------------------------------------- batches

  /** The batch ends after its size, or with the file. */
  ghost predicate Spans(rows: seq<Row>, offset: nat, end: nat, size: nat) {
    offset < |rows| && offset < end <= |rows| && end <= offset + size && (end < |rows| ==> end == offset + size)
  }

  /** Nothing hinders the batch: what goes out is acknowledged, and the checkpoint is saved. */
  ghost predicate Succeeds(lines: seq<Line>, fate: Fate) {
    !fate.SaveFails? && (lines == [] || (fate != SendFails && fate != StoppedAfterSend))
  }

  ghost predicate Counted(c: Checkpoint, rows: seq<Row>, end: nat) {
    end <= |rows| && c.rows == end && c.digest == Some(rows[..end])
  }

  /** The batch is sent, acknowledged and counted, in memory and on disk. */
  ghost predicate Passes(st: State, next: State, rows: seq<Row>, startDay: int, size: nat, fate: Fate, offset: nat,
                         end: nat, lines: seq<Line>) {
    && Spans(rows, offset, end, size) && Read(Ok(lines), rows[offset..end], startDay) && Succeeds(lines, fate)
    && next.sends == st.sends + lines && next.acked == st.acked + lines
    && Counted(next.memory, rows, end) && next.disk == next.memory
  }

  /** The batch at which a run ends. */
  ghost predicate Fails(st: State, d: Delivery, rows: seq<Row>, startDay: int, size: nat, fate: Fate, offset: nat,
                        end: nat, lines: seq<Line>) {
    && Spans(rows, offset, end, size) && d.sent == 0
    && if SomeBad(rows[offset..end], startDay) then d.outcome == Raised && d.state == st
       else
         && Read(Ok(lines), rows[offset..end], startDay) && !Succeeds(lines, fate)
         && d.state.sends == st.sends + lines
         && match fate
            case SendFails => d.outcome == Raised && d.state == st.(sends := d.state.sends)
            case StoppedAfterSend =>
              d.outcome == Stopped && d.state == st.(sends := d.state.sends, acked := st.acked + lines)
            case SaveFails(written) =>
              && d.outcome == Raised && d.state.acked == st.acked + lines && Counted(d.state.memory, rows, end)
              && d.state.disk == if written then d.state.memory else st.disk
            case Fine => false
  }

  /** A run: batches that pass one after the other, and then the end of the file or a batch that fails. */
  datatype Batches = Batches(states: seq<State>, offsets: seq<nat>, lines: seq<seq<Line>>)

  ghost predicate Passing(b: Batches, rows: seq<Row>, startDay: int, size: nat, fates: int -> Fate) {
    && |b.states| == |b.offsets| == |b.lines| + 1
    && forall j :: 0 <= j < |b.lines| ==>
         Passes(b.states[j], b.states[j + 1], rows, startDay, size, fates(b.offsets[j]), b.offsets[j], b.offsets[j + 1],
                b.lines[j])
  }

  ghost predicate Ends(st: State, d: Delivery, rows: seq<Row>, startDay: int, size: nat, fates: int -> Fate,
                       offset: nat) {
    if d.outcome.Done? then offset >= |rows| && d.state == st
    else exists end, lines :: Fails(st, d, rows, startDay, size, fates(offset), offset, end, lines)
  }

  ghost predicate Delivers(b: Batches, st: State, d: Delivery, rows: seq<Row>, startDay: int, size: nat,
                           fates: int -> Fate, offset: nat) {
    && Passing(b, rows, startDay, size, fates) && b.states[0] == st && b.offsets[0] == offset
    && Ends(b.states[|b.lines|], d, rows, startDay, size, fates, b.offsets[|b.lines|])
    && d.sent == if d.outcome.Done? then Total(b.lines) else 0
  }

  ghost function Total(lines: seq<seq<Line>>): nat {
    if |lines| == 0 then 0 else |lines[0]| + Total(lines[1..])
  }

  lemma {:induction false} EndSpans(rows: seq<Row>, offset: nat, size: nat)
    requires size >= 1 && offset < |rows|
    ensures Spans(rows, offset, EndOf(rows, offset, size), size)
  {
  }

  lemma {:induction false} BatchFails(st: State, rows: seq<Row>, startDay: int, size: nat, fates: int -> Fate,
                                      offset: nat)
    requires size >= 1 && offset < |rows|
    requires var lines, fate := LinesOf(rows[offset..EndOf(rows, offset, size)], startDay), fates(offset);
             lines.Ok? ==> EndsAtSend(lines.value, fate) || fate.SaveFails?
    ensures Ends(st, Deliver(st, rows, startDay, size, fates, offset), rows, startDay, size, fates, offset)
  {
    var end := EndOf(rows, offset, size);
    EndSpans(rows, offset, size);
    LinesAre(rows[offset..end], startDay);
    var r := LinesOf(rows[offset..end], startDay);
    var d := Deliver(st, rows, startDay, size, fates, offset);
    assert Fails(st, d, rows, startDay, size, fates(offset), offset, end, if r.Ok? then r.value else []);
  }

  lemma {:induction false} BatchPasses(st: State, rows: seq<Row>, startDay: int, size: nat, fate: Fate, offset: nat,
                                       lines: seq<Line>)
    requires size >= 1 && offset < |rows| && LinesOf(rows[offset..EndOf(rows, offset, size)], startDay) == Ok(lines)
    requires !EndsAtSend(lines, fate) && !fate.SaveFails?
    ensures var end := EndOf(rows, offset, size);
            Passes(st, Save(Send(st, lines, fate), rows, end, fate), rows, startDay, size, fate, offset, end, lines)
  {
    EndSpans(rows, offset, size);
    LinesAre(rows[offset..EndOf(rows, offset, size)], startDay);
  }

  lemma {:induction false} PassingCons(b: Batches, st: State, lines: seq<Line>, rows: seq<Row>, startDay: int,
                                       size: nat, fates: int -> Fate, offset: nat)
    requires Passing(b, rows, startDay, size, fates)
    requires Passes(st, b.states[0], rows, startDay, size, fates(offset), offset, b.offsets[0], lines)
    ensures Passing(Batches([st] + b.states, [offset] + b.offsets, [lines] + b.lines), rows, startDay, size, fates)
  {
    var c := Batches([st] + b.states, [offset] + b.offsets, [lines] + b.lines);
    forall j | 0 <= j < |c.lines|
      ensures Passes(c.states[j], c.states[j + 1], rows, startDay, size, fates(c.offsets[j]), c.offsets[j],
                     c.offsets[j + 1], c.lines[j])
    {
      if j > 0 {
        assert c.states[j] == b.states[j - 1] && c.states[j + 1] == b.states[j] && c.lines[j] == b.lines[j - 1];
        assert c.offsets[j] == b.offsets[j - 1] && c.offsets[j + 1] == b.offsets[j];
      }
    }
  }

  lemma {:induction false} RunDelivers(st: State, rows: seq<Row>, startDay: int, size: nat, fates: int -> Fate,
                                       offset: nat)
      returns (b: Batches)
    requires size >= 1
    ensures Delivers(b, st, Deliver(st, rows, startDay, size, fates, offset), rows, startDay, size, fates, offset)
    decreases |rows| - offset
  {
    b := Batches([st], [offset], []);
    if offset < |rows| {
      var end, fate := EndOf(rows, offset, size), fates(offset);
      var lines := LinesOf(rows[offset..end], startDay);
      if lines.Thrown? || EndsAtSend(lines.value, fate) || fate.SaveFails? {
        BatchFails(st, rows, startDay, size, fates, offset);
      } else {
        var kept := Save(Send(st, lines.value, fate), rows, end, fate);
        BatchPasses(st, rows, startDay, size, fate, offset, lines.value);
        var rest := RunDelivers(kept, rows, startDay, size, fates, end);
        PassingCons(rest, st, lines.value, rows, startDay, size, fates, offset);
        b := Batches([st] + rest.states, [offset] + rest.offsets, [lines.value] + rest.lines);
        assert b.lines[1..] == rest.lines;
      }
    }
  }

  // ---------------------------------------------------------------- one run

  /** The counted rows are gone or changed. */
  ghost predicate Moved(c: Checkpoint, rows: seq<Row>) {
    c.rows > |rows| || (c.rows > 0 && !(c.digest.Some? && c.digest.value == rows[..c.rows]))
  }

  /**
   A file that is not yet complete waits; one without columns or with moved rows raises; else the rest is delivered.
   */
  ghost predicate Runs(b: Batches, st: State, d: Delivery, file: File, startDay: int, size: nat, fates: int -> Fate) {
    if !file.complete then d.state == st && d.sent == 0 && d.outcome == Done
    else if !file.hasColumns || Moved(st.memory, file.rows) then d.state == st && d.sent == 0 && d.outcome == Raised
    else Delivers(b, st, d, file.rows, startDay, size, fates, st.memory.rows)
  }

  lemma {:induction false} ForwardRuns(st: State, file: File, startDay: int, size: nat, fates: int -> Fate)
      returns (b: Batches)
    requires size >= 1
    ensures Runs(b, st, Forward(st, file, startDay, size, fates), file, startDay, size, fates)
  {
    b := RunDelivers(st, file.rows, startDay, size, fates, st.memory.rows);
  }
}
