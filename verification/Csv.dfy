/**
 The CSV printer (src/lib/export.util.js, 22-35) and a reader that follows section 2 of RFC 4180.
 */
module Csv {
  import opened Options

  type Record = seq<string>

  // ---------------------------------------------------------------- the printer

  predicate Special(c: char) { c == '"' || c == ',' || c == '\n' || c == '\r' }

  predicate NeedsQuotes(s: string) {
    exists i :: 0 <= i < |s| && Special(s[i])
  }

  /** Every quote becomes two. */
  function Doubled(s: string): string {
    if |s| == 0 then "" else Doubled(s[..|s| - 1]) + (if s[|s| - 1] == '"' then "\"\"" else [s[|s| - 1]])
  }

  /** A missing value prints as nothing. */
  function CellText(v: Option<string>): string { v.GetOr("") }

  function CsvCell(v: Option<string>): string {
    var s := CellText(v);
    if NeedsQuotes(s) then "\"" + Doubled(s) + "\"" else s
  }

  function JoinCells(cells: seq<Option<string>>): string
    requires |cells| > 0
  {
    if |cells| == 1 then CsvCell(cells[0])
    else JoinCells(cells[..|cells| - 1]) + "," + CsvCell(cells[|cells| - 1])
  }

  ghost predicate Table(lines: seq<seq<Option<string>>>) {
    |lines| > 0 && forall i :: 0 <= i < |lines| ==> |lines[i]| > 0
  }

  function JoinLines(lines: seq<seq<Option<string>>>): string
    requires Table(lines)
  {
    if |lines| == 1 then JoinCells(lines[0])
    else JoinLines(lines[..|lines| - 1]) + "\r\n" + JoinCells(lines[|lines| - 1])
  }

  /** The head and one line per row, each with a cell per column. */
  function ToCsv(head: seq<Option<string>>, rows: seq<seq<Option<string>>>): string
    requires Table([head] + rows)
  {
    JoinLines([head] + rows)
  }

  // ---------------------------------------------------------------- the reader

  datatype Mode = FieldStart | Plain | Quoted | QuoteSeen | AfterCr | Bad

  /** Finished records, the record and the field being read. */
  datatype Reader = Reader(records: seq<Record>, record: Record, field: string, mode: Mode)

  const Fresh := Reader([], [], "", FieldStart)

  function EndField(r: Reader): Reader {
    r.(record := r.record + [r.field], field := "", mode := FieldStart)
  }

  function EndRecord(r: Reader): Reader {
    var e := EndField(r);
    Reader(e.records + [e.record], [], "", AfterCr)
  }

  function Read1(r: Reader, c: char): Reader {
    match r.mode
    case FieldStart =>
      if c == '"' then r.(mode := Quoted)
      else if c == ',' then EndField(r)
      else if c == '\r' then EndRecord(r)
      else if c == '\n' then r.(mode := Bad)
      else r.(field := r.field + [c], mode := Plain)
    case Plain =>
      if c == ',' then EndField(r)
      else if c == '\r' then EndRecord(r)
      else if c == '"' || c == '\n' then r.(mode := Bad)
      else r.(field := r.field + [c])
    case Quoted =>
      if c == '"' then r.(mode := QuoteSeen) else r.(field := r.field + [c])
    case QuoteSeen =>
      if c == '"' then r.(field := r.field + [c], mode := Quoted)
      else if c == ',' then EndField(r)
      else if c == '\r' then EndRecord(r)
      else r.(mode := Bad)
    case AfterCr =>
      if c == '\n' then r.(mode := FieldStart) else r.(mode := Bad)
    case Bad => r
  }

  function ReadFrom(r: Reader, text: string): Reader {
    if |text| == 0 then r else Read1(ReadFrom(r, text[..|text| - 1]), text[|text| - 1])
  }

  predicate BetweenChars(m: Mode) { m == FieldStart || m == Plain || m == QuoteSeen }

  /** The records of a text; the last one has no line break after it. */
  function Records(text: string): Option<seq<Record>> {
    var r := ReadFrom(Fresh, text);
    if BetweenChars(r.mode) then Some(r.records + [r.record + [r.field]]) else None
  }

  /** The records of a text when a line break at its very end belongs to the last record. */
  function RecordsWithFinalBreak(text: string): Option<seq<Record>> {
    var r := Records(text);
    if r.Some? && |r.value| >= 2 && |text| >= 2 && text[|text| - 2..] == "\r\n" && r.value[|r.value| - 1] == [""]
    then Some(r.value[..|r.value| - 1]) else r
  }

  // ---------------------------------------------------------------- reading what was printed

  lemma {:induction false} ReadSplit(r: Reader, a: string, b: string)
    ensures ReadFrom(r, a + b) == ReadFrom(ReadFrom(r, a), b)
  {
    if |b| == 0 {
      assert a + b == a;
    } else {
      ReadSplit(r, a, b[..|b| - 1]);
      assert (a + b)[..|a + b| - 1] == a + b[..|b| - 1];
    }
  }

  lemma {:induction false} ReadChar(r: Reader, c: char)
    ensures ReadFrom(r, [c]) == Read1(r, c)
  {
    assert [c][..0] == "";
    assert ReadFrom(r, "") == r;
  }

  lemma {:induction false} ReadDoubled(r: Reader, s: string)
    requires r.mode == Quoted
    ensures ReadFrom(r, Doubled(s)) == r.(field := r.field + s)
  {
    if |s| == 0 {
      assert r.field + s == r.field;
    } else {
      var n := |s| - 1;
      ReadDoubled(r, s[..n]);
      var mid := r.(field := r.field + s[..n]);
      var last := if s[n] == '"' then "\"\"" else [s[n]];
      ReadSplit(r, Doubled(s[..n]), last);
      if s[n] == '"' {
        assert last == "\"" + "\"";
        ReadSplit(mid, "\"", "\"");
        ReadChar(mid, '"');
        ReadChar(Read1(mid, '"'), '"');
      } else {
        ReadChar(mid, s[n]);
      }
      assert r.field + s == r.field + s[..n] + [s[n]];
    }
  }

  lemma {:induction false} PlainFront(s: string)
    requires |s| > 0 && NeedsQuotes(s[..|s| - 1])
    ensures NeedsQuotes(s)
  {
    var front := s[..|s| - 1];
    var i :| 0 <= i < |front| && Special(front[i]);
    assert Special(s[i]);
  }

  lemma {:induction false} ReadPlain(r: Reader, s: string)
    requires r.mode == FieldStart && r.field == "" && !NeedsQuotes(s)
    ensures ReadFrom(r, s) == r.(field := s, mode := if s == "" then FieldStart else Plain)
  {
    if |s| > 0 {
      var n := |s| - 1;
      assert !Special(s[n]);
      if NeedsQuotes(s[..n]) {
        PlainFront(s);
      }
      ReadPlain(r, s[..n]);
      assert s == s[..n] + [s[n]];
    }
  }

  /** A printed cell leaves the reader at its text, ready for a separator or the end. */
  lemma {:induction false} ReadCell(r: Reader, v: Option<string>)
    requires r.mode == FieldStart && r.field == ""
    ensures var t := ReadFrom(r, CsvCell(v));
            t == r.(field := CellText(v), mode := t.mode) && BetweenChars(t.mode)
  {
    var s := CellText(v);
    if NeedsQuotes(s) {
      var q := r.(mode := Quoted);
      ReadSplit(r, "\"" + Doubled(s), "\"");
      ReadSplit(r, "\"", Doubled(s));
      ReadChar(r, '"');
      ReadDoubled(q, s);
      assert "" + s == s;
      ReadChar(q.(field := s), '"');
    } else {
      ReadPlain(r, s);
    }
  }

  function Texts(cells: seq<Option<string>>): Record {
    seq(|cells|, i requires 0 <= i < |cells| => CellText(cells[i]))
  }

  /** At the start of a record. */
  predicate Rested(r: Reader) { r.mode == FieldStart && r.field == "" && r.record == [] }

  /** The reader has seen the texts in the current record and may end it here. */
  predicate Holds(r: Reader, t: Reader, texts: Record) {
    t.records == r.records && t.record + [t.field] == texts && BetweenChars(t.mode)
  }

  lemma {:induction false} TextsSnoc(cells: seq<Option<string>>, v: Option<string>)
    ensures Texts(cells + [v]) == Texts(cells) + [CellText(v)]
  {
  }

  lemma {:induction false} ReadCells(r: Reader, cells: seq<Option<string>>)
    requires Rested(r) && |cells| > 0
    ensures Holds(r, ReadFrom(r, JoinCells(cells)), Texts(cells))
  {
    var n := |cells| - 1;
    if n == 0 {
      ReadCell(r, cells[0]);
      assert Texts(cells) == [] + [CellText(cells[0])];
    } else {
      ReadCells(r, cells[..n]);
      NextCell(r, JoinCells(cells[..n]), Texts(cells[..n]), cells[n]);
      assert cells == cells[..n] + [cells[n]];
      TextsSnoc(cells[..n], cells[n]);
    }
  }

  lemma {:induction false} NextCell(r: Reader, front: string, texts: Record, v: Option<string>)
    requires Holds(r, ReadFrom(r, front), texts)
    ensures Holds(r, ReadFrom(r, front + "," + CsvCell(v)), texts + [CellText(v)])
  {
    var t := ReadFrom(r, front);
    ReadSplit(r, front + ",", CsvCell(v));
    ReadSplit(r, front, ",");
    ReadChar(t, ',');
    ReadCell(EndField(t), v);
  }

  function AllTexts(lines: seq<seq<Option<string>>>): seq<Record> {
    seq(|lines|, i requires 0 <= i < |lines| => Texts(lines[i]))
  }

  lemma {:induction false} ReadBreak(t: Reader)
    requires BetweenChars(t.mode)
    ensures ReadFrom(t, "\r\n") == Reader(t.records + [t.record + [t.field]], [], "", FieldStart)
  {
    assert "\r\n" == "\r" + "\n";
    ReadSplit(t, "\r", "\n");
    ReadChar(t, '\r');
    ReadChar(EndRecord(t), '\n');
  }

  /** The reader has read the records and may stop here. */
  predicate HasRead(t: Reader, records: seq<Record>) {
    t.records + [t.record + [t.field]] == records && BetweenChars(t.mode)
  }

  lemma {:induction false} NextRecord(front: string, records: seq<Record>, cells: seq<Option<string>>)
    requires HasRead(ReadFrom(Fresh, front), records) && |cells| > 0
    ensures HasRead(ReadFrom(Fresh, front + "\r\n" + JoinCells(cells)), records + [Texts(cells)])
  {
    var t := ReadFrom(Fresh, front);
    ReadSplit(Fresh, front + "\r\n", JoinCells(cells));
    ReadSplit(Fresh, front, "\r\n");
    ReadBreak(t);
    ReadCells(ReadFrom(t, "\r\n"), cells);
  }

  lemma {:induction false} ReadLines(lines: seq<seq<Option<string>>>)
    requires Table(lines)
    ensures HasRead(ReadFrom(Fresh, JoinLines(lines)), AllTexts(lines))
  {
    var n := |lines| - 1;
    if n == 0 {
      ReadCells(Fresh, lines[0]);
      assert AllTexts(lines) == [] + [Texts(lines[0])];
    } else {
      ReadLines(lines[..n]);
      NextRecord(JoinLines(lines[..n]), AllTexts(lines[..n]), lines[n]);
      assert AllTexts(lines) == AllTexts(lines[..n]) + [Texts(lines[n])];
    }
  }

  /** Reading the printed table returns exactly the texts of its head and cells. */
  lemma {:induction false} CsvRoundTrip(head: seq<Option<string>>, rows: seq<seq<Option<string>>>)
    requires Table([head] + rows)
    ensures Records(ToCsv(head, rows)) == Some(AllTexts([head] + rows))
  {
    ReadLines([head] + rows);
  }

  /** So tables that print alike have the same texts. */
  lemma {:induction false} PrintingIsInjective(a: seq<seq<Option<string>>>, b: seq<seq<Option<string>>>)
    requires Table(a) && Table(b) && JoinLines(a) == JoinLines(b)
    ensures AllTexts(a) == AllTexts(b)
  {
    ReadLines(a);
    ReadLines(b);
  }

  /**
   A reader that counts a final line break to the last record loses a table's last row exactly when that row is a
   single empty cell.
   */
  lemma {:induction false} FinalBreakIsAmbiguous(lines: seq<seq<Option<string>>>)
    requires Table(lines)
    ensures RecordsWithFinalBreak(JoinLines(lines)) == Some(AllTexts(lines)) <==>
            !(|lines| >= 2 && Texts(lines[|lines| - 1]) == [""])
  {
    ReadLines(lines);
    var n, texts := |lines| - 1, AllTexts(lines);
    assert texts[n] == Texts(lines[n]);
    if n >= 1 && Texts(lines[n]) == [""] {
      assert Texts(lines[n])[0] == CellText(lines[n][0]);
      var front := JoinLines(lines[..n]);
      assert JoinLines(lines) == front + "\r\n";
      assert (front + "\r\n")[|front|..] == "\r\n";
      assert |texts[..n]| != |texts|;
    }
  }

  // ---------------------------------------------------------------- one cell, character by character

  /** The text with every quote twice; each character starts at its place. */
  ghost predicate Doubles(body: string, starts: seq<nat>, s: string) {
    && |starts| == |s| + 1 && starts[0] == 0 && starts[|s|] == |body|
    && forall i :: 0 <= i < |s| ==> Takes(body, starts[i], starts[i + 1], s[i])
  }

  ghost predicate Takes(body: string, from: nat, to: nat, c: char) {
    from < to <= |body| && body[from] == c
    && if c == '"' then to == from + 2 && body[from + 1] == '"' else to == from + 1
  }

  /** A field goes in quotes exactly if it holds a comma, a quote or a line break; a missing value prints as nothing. */
  ghost predicate Prints(text: string, v: Option<string>) {
    if v.None? then text == ""
    else if exists c :: c in v.value && (c == ',' || c == '"' || c == '\n' || c == '\r') then
      exists body, starts: seq<nat> :: text == "\"" + body + "\"" && Doubles(body, starts, v.value)
    else text == v.value
  }

  lemma {:induction false} DoublesNext(body: string, starts: seq<nat>, s: string, c: char, last: string)
    requires Doubles(body, starts, s) && last == if c == '"' then "\"\"" else [c]
    ensures Doubles(body + last, starts + [|body| + |last|], s + [c])
  {
    var b, t := body + last, starts + [|body| + |last|];
    forall i | 0 <= i < |s| + 1 ensures Takes(b, t[i], t[i + 1], (s + [c])[i]) {
      if i < |s| {
        assert Takes(body, starts[i], starts[i + 1], s[i]);
      }
    }
  }

  lemma {:induction false} DoubledIs(s: string) returns (starts: seq<nat>)
    ensures Doubles(Doubled(s), starts, s)
  {
    starts := [0];
    if |s| > 0 {
      var n := |s| - 1;
      var last := if s[n] == '"' then "\"\"" else [s[n]];
      starts := DoubledIs(s[..n]);
      DoublesNext(Doubled(s[..n]), starts, s[..n], s[n], last);
      assert s == s[..n] + [s[n]];
      starts := starts + [|Doubled(s[..n])| + |last|];
    }
  }

  lemma {:induction false} QuotesIff(s: string)
    ensures NeedsQuotes(s) <==> exists c :: c in s && (c == ',' || c == '"' || c == '\n' || c == '\r')
  {
    if c :| c in s && (c == ',' || c == '"' || c == '\n' || c == '\r') {
      var i :| 0 <= i < |s| && s[i] == c;
      assert Special(s[i]);
    }
    if i :| 0 <= i < |s| && Special(s[i]) {
      assert s[i] in s;
    }
  }

  lemma {:induction false} CellIs(v: Option<string>)
    ensures Prints(CsvCell(v), v)
  {
    QuotesIff(CellText(v));
    var starts := DoubledIs(CellText(v));
  }
}
