/**
 The fixed-width ACH credit file (src/lib/bankFileFormats.js, 24-58 and 69-180), in the layout of the ACH
 Record Format Specifications, Appendix Three of the Nacha Operating Rules.
 */
module Nacha {
  import opened Decimals

  const RECORD_LENGTH := 94
  const BLOCKING_FACTOR := 10

  // ---------------------------------------------------------------- fields

  function DigitsOnly(s: string): (d: string)
    ensures AllDigits(d)
  {
    if |s| == 0 then []
    else DigitsOnly(s[..|s| - 1]) + (if IsDigit(s[|s| - 1]) then [s[|s| - 1]] else [])
  }

  function Spaces(n: nat): (r: string)
    ensures |r| == n
    ensures '\n' !in r
  {
    seq(n, i => ' ')
  }

  /** Left-justified, space-padded, cut to `len`. */
  function PadRight(s: string, len: nat): (r: string)
    ensures |r| == len
    ensures '\n' !in s ==> '\n' !in r
  {
    if |s| >= len then s[..len] else s + Spaces(len - |s|)
  }

  /** Right-justified, zero-filled digits. */
  function NumField(s: string, len: nat): (r: string)
    ensures |r| == len && AllDigits(r) && '\n' !in r
  {
    LastDigits(DigitsOnly(s), len)
  }

  predicate Alphameric(c: char) { 'A' <= c <= 'Z' || IsDigit(c) || c == ' ' }

  function AlphamericOnly(s: string): (r: string)
    ensures forall i :: 0 <= i < |r| ==> Alphameric(r[i])
  {
    if |s| == 0 then []
    else
      var c := s[|s| - 1];
      AlphamericOnly(s[..|s| - 1]) + (if Alphameric(c) then [c] else [])
  }

  /** The capital letters, digits and spaces of an upper-cased text, padded to `len`. */
  function AlnumUpper(s: string, len: nat): (r: string)
    ensures |r| == len
    ensures '\n' !in r
  {
    PadRight(AlphamericOnly(s), len)
  }

  predicate Savings(accountType: string) {
    |accountType| >= 3 && accountType[..3] == "SAV"
  }

  /** Credit to a savings account is 32, to any other account 22. */
  function TransactionCode(accountType: string): (r: string)
    ensures |r| == 2 && '\n' !in r
  {
    if Savings(accountType) then "32" else "22"
  }

  type Year = y: int | 10 <= y <= 9999 witness 2000

  /** A civil time as a JavaScript date reports it. */
  datatype Moment = Moment(year: Year, month: nat, day: nat, hour: nat, minute: nat)

  /** The last two digits, zero-filled. */
  function Two(n: nat): (r: string)
    ensures |r| == 2 && '\n' !in r
  {
    DecimalValue(n);
    LastDigits(Decimal(n), 2)
  }

  function Yymmdd(m: Moment): (r: string)
    ensures |r| == 6 && '\n' !in r
  {
    Two(m.year) + Two(m.month) + Two(m.day)
  }

  function Hhmm(m: Moment): (r: string)
    ensures |r| == 4 && '\n' !in r
  {
    Two(m.hour) + Two(m.minute)
  }

  /** `String(n)` of an integer. */
  function Text(n: int): string {
    if n < 0 then "-" + Decimal(-n) else Decimal(n)
  }

  // ---------------------------------------------------------------- inputs

  /** The account type and the name arrive upper-cased. */
  datatype Row = Row(
    routingNumber: string, accountNumber: string, accountType: string, amountMinor: int, employeeId: string,
    name: string)

  /** Empty strings count as missing; names and the description arrive upper-cased. */
  datatype Opts = Opts(
    companyName: string, companyId: string, originName: string, originatingDfi: string,
    immediateDestination: string, immediateOrigin: string, immediateDestinationName: string,
    entryDescription: string, created: Moment, effective: Moment)

  function Or(a: string, b: string): string { if a != "" then a else b }

  function Odfi(o: Opts): (r: string)
    ensures |r| == 9 && '\n' !in r
  {
    NumField(Or(o.originatingDfi, Or(o.immediateOrigin, "000000000")), 9)
  }

  function Odfi8(o: Opts): (r: string)
    ensures |r| == 8 && '\n' !in r
  {
    Odfi(o)[..8]
  }

  /** Fields that are printed as they are given hold no line break. */
  predicate CleanOpts(o: Opts) {
    '\n' !in o.companyId && '\n' !in o.immediateDestination && '\n' !in o.immediateOrigin
  }

  predicate CleanRow(row: Row) {
    '\n' !in row.accountNumber && '\n' !in row.employeeId
  }

  function ImmediateDest(o: Opts): (r: string)
    ensures |r| == 10
    ensures CleanOpts(o) ==> '\n' !in r
  {
    if o.immediateDestination != "" then PadRight(o.immediateDestination, 10)
    else " " + NumField(Or(o.originatingDfi, "000000000"), 9)
  }

  function ImmediateOrig(o: Opts): (r: string)
    ensures |r| == 10
    ensures CleanOpts(o) ==> '\n' !in r
  {
    if o.immediateOrigin != "" then PadRight(o.immediateOrigin, 10) else " " + NumField(Or(o.companyId, Odfi(o)), 9)
  }

  // ---------------------------------------------------------------- records

  function FileHeader(o: Opts): (r: string)
    ensures CleanOpts(o) ==> '\n' !in r
    ensures |r| == RECORD_LENGTH && r[0] == '1'
  {
    "1" + "01" + ImmediateDest(o) + ImmediateOrig(o) + Yymmdd(o.created) + Hhmm(o.created) + "A" + "094" + "10" + "1"
    + AlnumUpper(Or(o.immediateDestinationName, Or(o.companyName, "BANK")), 23)
    + AlnumUpper(Or(o.originName, Or(o.companyName, "COMPANY")), 23)
    + Spaces(8)
  }

  function BatchHeader(o: Opts): (r: string)
    ensures CleanOpts(o) ==> '\n' !in r
    ensures |r| == RECORD_LENGTH && r[0] == '5'
  {
    "5" + "220" + AlnumUpper(Or(o.companyName, "COMPANY"), 16) + Spaces(20) + PadRight(Or(o.companyId, Odfi(o)), 10)
    + "PPD" + AlnumUpper(Or(o.entryDescription, "PAYROLL"), 10) + Yymmdd(o.created) + Yymmdd(o.effective)
    + "   " + "1" + Odfi8(o) + NumField("1", 7)
  }

  function Rdfi(row: Row): (r: string)
    ensures |r| == 9 && AllDigits(r) && '\n' !in r
  {
    NumField(row.routingNumber, 9)
  }

  function AmountField(row: Row): (r: string)
    ensures |r| == 10 && '\n' !in r
  {
    NumField(Text(row.amountMinor), 10)
  }

  /** Where a reader finds the routing prefix and the amount of an entry. */
  function EntryDetail(row: Row, i: nat, o: Opts): (r: string)
    ensures CleanRow(row) ==> '\n' !in r
    ensures |r| == RECORD_LENGTH && r[0] == '6'
    ensures r[3..11] == Rdfi(row)[..8]
    ensures r[29..39] == AmountField(row)
  {
    var r := EntryHead(row) + AmountField(row) + EntryTail(row, i, o);
    assert r[3..11] == EntryHead(row)[3..11];
    assert r[29..39] == AmountField(row);
    r
  }

  function EntryHead(row: Row): (r: string)
    ensures |r| == 29 && r[0] == '6' && r[3..11] == Rdfi(row)[..8]
    ensures CleanRow(row) ==> '\n' !in r
  {
    var routing := Rdfi(row)[..8];
    var r := "6" + TransactionCode(row.accountType) + routing + Rdfi(row)[8..9] + PadRight(row.accountNumber, 17);
    assert r[3..11] == routing;
    r
  }

  function EntryTail(row: Row, i: nat, o: Opts): (r: string)
    ensures |r| == 55
    ensures CleanRow(row) ==> '\n' !in r
  {
    PadRight(row.employeeId, 15) + AlnumUpper(row.name, 22) + "  " + "0" + Odfi8(o) + NumField(Decimal(i + 1), 7)
  }

  /** The left part of a batch control record, up to the total debit. */
  function BatchCounts(count: nat, hash: nat): (r: string)
    ensures |r| == 32 && r[0] == '8' && '\n' !in r
    ensures r[4..10] == NumField(Decimal(count), 6) && r[10..20] == HashField(hash)
  {
    var counts := NumField(Decimal(count), 6);
    var r := "8220" + counts + HashField(hash) + NumField("0", 12);
    assert r[4..10] == counts;
    assert r[10..20] == HashField(hash);
    r
  }

  function BatchTail(o: Opts): (r: string)
    ensures |r| == 50
    ensures CleanOpts(o) ==> '\n' !in r
  {
    PadRight(Or(o.companyId, Odfi(o)), 10) + Spaces(19) + Spaces(6) + Odfi8(o) + NumField("1", 7)
  }

  function BatchControl(count: nat, hash: nat, total: int, o: Opts): (r: string)
    ensures CleanOpts(o) ==> '\n' !in r
    ensures |r| == RECORD_LENGTH && r[0] == '8'
    ensures r[4..10] == NumField(Decimal(count), 6)
    ensures r[10..20] == HashField(hash)
    ensures r[32..44] == NumField(Text(total), 12)
  {
    ThreeParts(BatchCounts(count, hash), NumField(Text(total), 12), BatchTail(o));
    BatchCounts(count, hash) + NumField(Text(total), 12) + BatchTail(o)
  }

  /** A column of the left part is a column of the record; the middle part is one. */
  lemma {:induction false} ThreeParts(a: string, b: string, c: string)
    ensures var r := a + b + c;
            && (forall i, j :: 0 <= i <= j <= |a| ==> r[i..j] == a[i..j])
            && r[|a|..|a| + |b|] == b
            && ('\n' !in a && '\n' !in b && '\n' !in c ==> '\n' !in r)
  {
    var r := a + b + c;
    forall i, j | 0 <= i <= j <= |a| ensures r[i..j] == a[i..j] {
      assert r[..|a|] == a;
    }
  }

  /** The entry hash modulo ten to the tenth, zero-filled. */
  function HashField(hash: nat): (r: string)
    ensures |r| == 10 && '\n' !in r
  {
    DecimalValue(hash % 10_000_000_000);
    LastDigits(Decimal(hash % 10_000_000_000), 10)
  }

  function FileCounts(count: nat, blocks: nat): (r: string)
    ensures |r| == 21 && r[0] == '9' && '\n' !in r
    ensures r[7..13] == NumField(Decimal(blocks), 6) && r[13..21] == NumField(Decimal(count), 8)
  {
    var r := "9" + NumField("1", 6) + NumField(Decimal(blocks), 6) + NumField(Decimal(count), 8);
    assert r[7..13] == NumField(Decimal(blocks), 6);
    assert r[13..21] == NumField(Decimal(count), 8);
    r
  }

  /** The left part of a file control record, up to the total debit. */
  function FileHead(count: nat, blocks: nat, hash: nat): (r: string)
    ensures |r| == 43 && r[0] == '9' && '\n' !in r
    ensures r[7..13] == NumField(Decimal(blocks), 6)
    ensures r[13..21] == NumField(Decimal(count), 8)
    ensures r[21..31] == HashField(hash)
  {
    ThreeParts(FileCounts(count, blocks), HashField(hash), NumField("0", 12));
    FileCounts(count, blocks) + HashField(hash) + NumField("0", 12)
  }

  function FileControl(count: nat, blocks: nat, hash: nat, total: int): (r: string)
    ensures '\n' !in r
    ensures |r| == RECORD_LENGTH && r[0] == '9'
    ensures r[7..13] == NumField(Decimal(blocks), 6)
    ensures r[13..21] == NumField(Decimal(count), 8)
    ensures r[21..31] == HashField(hash)
    ensures r[43..55] == NumField(Text(total), 12)
  {
    ThreeParts(FileHead(count, blocks, hash), NumField(Text(total), 12), Spaces(39));
    FileHead(count, blocks, hash) + NumField(Text(total), 12) + Spaces(39)
  }

  // ---------------------------------------------------------------- the whole file

  function EntryLines(rows: seq<Row>, o: Opts): (r: seq<string>)
    ensures |r| == |rows|
  {
    if |rows| == 0 then []
    else EntryLines(rows[..|rows| - 1], o) + [EntryDetail(rows[|rows| - 1], |rows| - 1, o)]
  }

  /** The eight-digit routing prefix as a number. */
  function RoutingPrefix(row: Row): nat {
    ValueBounds(Rdfi(row)[..8]);
    Value(Rdfi(row)[..8])
  }

  /** Sum of the eight-digit routing prefixes. */
  function HashOf(rows: seq<Row>): (h: nat) {
    if |rows| == 0 then 0
    else HashOf(rows[..|rows| - 1]) + RoutingPrefix(rows[|rows| - 1])
  }

  function TotalOf(rows: seq<Row>): int {
    if |rows| == 0 then 0 else TotalOf(rows[..|rows| - 1]) + rows[|rows| - 1].amountMinor
  }

  function Blocks(entries: nat): nat {
    (entries + 4 + BLOCKING_FACTOR - 1) / BLOCKING_FACTOR
  }

  function Filler(): (r: string)
    ensures |r| == RECORD_LENGTH && r[0] == '9' && '\n' !in r
  {
    seq(RECORD_LENGTH, i => '9')
  }

  function Fillers(n: nat): seq<string> {
    seq(n, i => Filler())
  }

  /** The records in file order. */
  function Assemble(fileHeader: string, batchHeader: string, entries: seq<string>, batchControl: string,
                    fileControl: string): seq<string> {
    [fileHeader, batchHeader] + entries + [batchControl] + [fileControl]
  }

  /** The records before padding. */
  function Records(rows: seq<Row>, o: Opts): seq<string> {
    Assemble(FileHeader(o), BatchHeader(o), EntryLines(rows, o),
      BatchControl(|rows|, HashOf(rows), TotalOf(rows), o),
      FileControl(|rows|, Blocks(|rows|), HashOf(rows), TotalOf(rows)))
  }

  /** All-nines records fill the last block. */
  function Padding(n: nat): nat {
    (BLOCKING_FACTOR - n % BLOCKING_FACTOR) % BLOCKING_FACTOR
  }

  function Padded(records: seq<string>): seq<string> {
    records + Fillers(Padding(|records|))
  }

  function File(rows: seq<Row>, o: Opts): seq<string> {
    Padded(Records(rows, o))
  }

  function Join(lines: seq<string>): string {
    if |lines| == 0 then ""
    else if |lines| == 1 then lines[0]
    else Join(lines[..|lines| - 1]) + "\n" + lines[|lines| - 1]
  }

  /** The source's run: push the headers, the entries and the controls, then pad. */
  method BuildNachaFile(rows: seq<Row>, o: Opts) returns (text: string)
    ensures text == Join(File(rows, o))
  {
    var entries, entryHash, creditTotal := BuildEntries(rows, o);
    var batchControl := BatchControl(|rows|, entryHash, creditTotal, o);
    var lines := [FileHeader(o), BatchHeader(o)] + entries + [batchControl];
    var recordsBeforeFileCtrl := |lines| + 1;
    var blockCount := (recordsBeforeFileCtrl + BLOCKING_FACTOR - 1) / BLOCKING_FACTOR;
    assert blockCount == Blocks(|rows|);
    lines := lines + [FileControl(|rows|, blockCount, entryHash, creditTotal)];
    lines := PadBlock(lines);
    text := Join(lines);
  }

  /** One detail record per row, with the running hash and total. */
  method BuildEntries(rows: seq<Row>, o: Opts) returns (entries: seq<string>, entryHash: nat, creditTotal: int)
    ensures entries == EntryLines(rows, o) && entryHash == HashOf(rows) && creditTotal == TotalOf(rows)
  {
    entries, entryHash, creditTotal := [], 0, 0;
    BuiltNone(rows, o);
    for i := 0 to |rows|
      invariant Built(rows[..i], o, entries, entryHash, creditTotal)
    {
      BuiltNext(rows, i, o, entries, entryHash, creditTotal);
      entryHash := entryHash + RoutingPrefix(rows[i]);
      creditTotal := creditTotal + rows[i].amountMinor;
      entries := entries + [EntryDetail(rows[i], i, o)];
    }
    BuiltAll(rows, o, entries, entryHash, creditTotal);
  }

  lemma {:induction false} BuiltNone(rows: seq<Row>, o: Opts)
    ensures Built(rows[..0], o, [], 0, 0)
  {
  }

  lemma {:induction false} BuiltAll(rows: seq<Row>, o: Opts, entries: seq<string>, entryHash: int, creditTotal: int)
    requires Built(rows[..|rows|], o, entries, entryHash, creditTotal)
    ensures entries == EntryLines(rows, o) && entryHash == HashOf(rows) && creditTotal == TotalOf(rows)
  {
    assert rows[..|rows|] == rows;
  }

  lemma {:induction false} BuiltNext(rows: seq<Row>, i: nat, o: Opts, entries: seq<string>, hash: int, total: int)
    requires i < |rows| && Built(rows[..i], o, entries, hash, total)
    ensures Built(rows[..i + 1], o, entries + [EntryDetail(rows[i], i, o)], hash + RoutingPrefix(rows[i]),
                  total + rows[i].amountMinor)
  {
    PrefixSnoc(rows, i);
    BuiltSnoc(rows[..i], rows[i], o, entries, hash, total);
  }

  lemma {:induction false} PrefixSnoc(rows: seq<Row>, i: nat)
    requires i < |rows|
    ensures rows[..i] + [rows[i]] == rows[..i + 1] && |rows[..i]| == i
  {
  }

  lemma {:induction false} BuiltSnoc(rows: seq<Row>, row: Row, o: Opts, entries: seq<string>, hash: int, total: int)
    requires Built(rows, o, entries, hash, total)
    ensures Built(rows + [row], o, entries + [EntryDetail(row, |rows|, o)], hash + RoutingPrefix(row),
                  total + row.amountMinor)
  {
    EntrySnoc(rows, row, o);
  }

  ghost predicate Built(rows: seq<Row>, o: Opts, entries: seq<string>, entryHash: int, creditTotal: int) {
    entries == EntryLines(rows, o) && entryHash == HashOf(rows) && creditTotal == TotalOf(rows)
  }

  lemma {:induction false} EntrySnoc(rows: seq<Row>, row: Row, o: Opts)
    ensures EntryLines(rows + [row], o) == EntryLines(rows, o) + [EntryDetail(row, |rows|, o)]
    ensures HashOf(rows + [row]) == HashOf(rows) + RoutingPrefix(row)
    ensures TotalOf(rows + [row]) == TotalOf(rows) + row.amountMinor
  {
    assert (rows + [row])[..|rows|] == rows;
  }

  method PadBlock(records: seq<string>) returns (lines: seq<string>)
    ensures lines == Padded(records)
  {
    lines := records;
    ghost var pushed := 0;
    while |lines| % BLOCKING_FACTOR != 0
      invariant lines == records + Fillers(pushed) && |lines| == |records| + pushed
      invariant 0 <= pushed <= Padding(|records|)
      decreases Padding(|records|) - pushed
    {
      PaddingEnds(|records|, pushed);
      FillersSnoc(records, pushed);
      lines := lines + [Filler()];
      pushed := pushed + 1;
    }
    PaddingEnds(|records|, pushed);
  }

  lemma {:induction false} PaddingEnds(n: nat, pushed: nat)
    requires pushed <= Padding(n)
    ensures (n + pushed) % BLOCKING_FACTOR == 0 <==> pushed == Padding(n)
  {
  }

  lemma {:induction false} FillersSnoc(records: seq<string>, n: nat)
    ensures records + Fillers(n) + [Filler()] == records + Fillers(n + 1)
  {
    assert Fillers(n + 1) == Fillers(n) + [Filler()];
  }

  lemma {:induction false} EntryAt(rows: seq<Row>, o: Opts, i: nat)
    requires i < |rows|
    ensures EntryLines(rows, o)[i] == EntryDetail(rows[i], i, o)
  {
    if i < |rows| - 1 {
      EntryAt(rows[..|rows| - 1], o, i);
    }
  }

  // ---------------------------------------------------------------- well-formed blocks

  /** A 94-character record, on one line when the given fields are. */
  ghost predicate IsRecord(line: string, clean: bool) {
    |line| == RECORD_LENGTH && (clean ==> '\n' !in line)
  }

  ghost predicate CleanRows(rows: seq<Row>) {
    forall i :: 0 <= i < |rows| ==> CleanRow(rows[i])
  }

  ghost predicate Clean(rows: seq<Row>, o: Opts) { CleanOpts(o) && CleanRows(rows) }

  /** Every record is 94 characters and the file has ten lines for every declared block. */
  lemma {:induction false} FileIsBlocked(rows: seq<Row>, o: Opts)
    ensures forall i :: 0 <= i < |File(rows, o)| ==> IsRecord(File(rows, o)[i], Clean(rows, o))
    ensures |File(rows, o)| == BLOCKING_FACTOR * Blocks(|rows|)
  {
    var clean := Clean(rows, o);
    EntriesAreRecords(rows, o);
    var bc := BatchControl(|rows|, HashOf(rows), TotalOf(rows), o);
    var fc := FileControl(|rows|, Blocks(|rows|), HashOf(rows), TotalOf(rows));
    assert IsRecord(FileHeader(o), clean) && IsRecord(BatchHeader(o), clean);
    assert IsRecord(bc, clean) && IsRecord(fc, clean);
    AssembledRecords(FileHeader(o), BatchHeader(o), EntryLines(rows, o), bc, fc, clean);
    PaddedBlocks(Records(rows, o), |rows|, clean);
  }

  lemma {:induction false} EntriesAreRecords(rows: seq<Row>, o: Opts)
    ensures forall i :: 0 <= i < |rows| ==> IsRecord(EntryLines(rows, o)[i], CleanRows(rows))
  {
    var es := EntryLines(rows, o);
    forall i | 0 <= i < |rows| ensures IsRecord(es[i], CleanRows(rows)) {
      EntryAt(rows, o, i);
    }
  }

  lemma {:induction false} AssembledRecords(fh: string, bh: string, es: seq<string>, bc: string, fc: string,
                                            clean: bool)
    requires IsRecord(fh, clean) && IsRecord(bh, clean) && IsRecord(bc, clean) && IsRecord(fc, clean)
    requires forall i :: 0 <= i < |es| ==> IsRecord(es[i], clean)
    ensures |Assemble(fh, bh, es, bc, fc)| == |es| + 4
    ensures forall i :: 0 <= i < |es| + 4 ==> IsRecord(Assemble(fh, bh, es, bc, fc)[i], clean)
  {
    var r := Assemble(fh, bh, es, bc, fc);
    forall i | 0 <= i < |r| ensures IsRecord(r[i], clean) {
      if 2 <= i < |es| + 2 {
        assert r[i] == es[i - 2];
      }
    }
  }

  lemma {:induction false} PaddedBlocks(records: seq<string>, n: nat, clean: bool)
    requires |records| == n + 4 && forall i :: 0 <= i < |records| ==> IsRecord(records[i], clean)
    ensures |Padded(records)| == BLOCKING_FACTOR * Blocks(n)
    ensures forall i :: 0 <= i < |Padded(records)| ==> IsRecord(Padded(records)[i], clean)
  {
    var fill := Fillers(Padding(|records|));
    assert forall i :: 0 <= i < |fill| ==> fill[i] == Filler();
  }

  // ---------------------------------------------------------------- reading the text back

  /** Lines of a text, cut at line breaks. */
  function Lines(text: string): (r: seq<string>)
    ensures |r| > 0
  {
    if |text| == 0 then [""]
    else
      var before, c := Lines(text[..|text| - 1]), text[|text| - 1];
      if c == '\n' then before + [""] else before[|before| - 1 := before[|before| - 1] + [c]]
  }

  lemma {:induction false} LinesExtend(text: string, s: string)
    requires '\n' !in s
    ensures Lines(text + s) == Lines(text)[|Lines(text)| - 1 := Lines(text)[|Lines(text)| - 1] + s]
  {
    if |s| == 0 {
      assert text + s == text;
      assert Lines(text)[|Lines(text)| - 1] + s == Lines(text)[|Lines(text)| - 1];
    } else {
      var n := |s| - 1;
      assert s[n] != '\n' by { assert s[n] in s; }
      LinesExtend(text, s[..n]);
      assert (text + s)[..|text + s| - 1] == text + s[..n];
      var ls := Lines(text);
      var k := |ls| - 1;
      assert s == s[..n] + [s[n]];
      assert ls[k] + s == (ls[k] + s[..n]) + [s[n]];
    }
  }

  lemma {:induction false} OneLine(line: string)
    requires '\n' !in line
    ensures Lines(line) == [line]
  {
    LinesExtend("", line);
    assert "" + line == line;
    assert Lines("") == [""];
  }

  lemma {:induction false} LinesOfJoin(lines: seq<string>)
    requires |lines| > 0 && forall i :: 0 <= i < |lines| ==> '\n' !in lines[i]
    ensures Lines(Join(lines)) == lines
  {
    var n := |lines| - 1;
    if n == 0 {
      OneLine(lines[0]);
    } else {
      var front, last := lines[..n], lines[n];
      LinesOfJoin(front);
      NextLine(Join(front), front, last);
      assert Join(lines) == Join(front) + "\n" + last;
    }
  }

  lemma {:induction false} NextLine(before: string, lines: seq<string>, line: string)
    requires Lines(before) == lines && '\n' !in line
    ensures Lines(before + "\n" + line) == lines + [line]
  {
    assert (before + "\n")[..|before|] == before;
    assert Lines(before + "\n") == lines + [""];
    LinesExtend(before + "\n", line);
    assert "" + line == line;
  }

  // ---------------------------------------------------------------- read-back

  /** What a reader adds up over the entry records of a file. */
  datatype Tally = Tally(count: nat, prefixes: int, amounts: int)

  predicate IsEntry(line: string) { |line| == RECORD_LENGTH && line[0] == '6' }

  function TallyOf(lines: seq<string>): (t: Tally) {
    if |lines| == 0 then Tally(0, 0, 0)
    else
      var t, l := TallyOf(lines[..|lines| - 1]), lines[|lines| - 1];
      if IsEntry(l) then Tally(t.count + 1, t.prefixes + Value(l[3..11]), t.amounts + Value(l[29..39])) else t
  }

  lemma {:induction false} TallySnoc(lines: seq<string>, l: string)
    ensures !IsEntry(l) ==> TallyOf(lines + [l]) == TallyOf(lines)
    ensures IsEntry(l) ==> TallyOf(lines + [l]) == Tally(TallyOf(lines).count + 1,
        TallyOf(lines).prefixes + Value(l[3..11]), TallyOf(lines).amounts + Value(l[29..39]))
  {
    assert (lines + [l])[..|lines|] == lines;
  }

  lemma {:induction false} DigitsOfDigits(s: string)
    requires AllDigits(s)
    ensures DigitsOnly(s) == s
  {
    if |s| > 0 {
      var front := s[..|s| - 1];
      assert AllDigits(front) && s == front + [s[|s| - 1]];
      DigitsOfDigits(front);
    }
  }

  /** A numeric field of a whole number reads back as that number modulo the field's width. */
  lemma {:induction false} NumFieldValue(n: nat, len: nat)
    ensures Value(NumField(Decimal(n), len)) == n % Pow10(len)
  {
    DecimalValue(n);
    DigitsOfDigits(Decimal(n));
    LastDigitsValue(Decimal(n), len);
  }

  lemma {:induction false} DigitsSnoc(s: string, c: char)
    ensures DigitsOnly(s + [c]) == DigitsOnly(s) + (if IsDigit(c) then [c] else [])
  {
    assert (s + [c])[..|s|] == s;
  }

  lemma {:induction false} DigitsAfterSign(s: string)
    requires AllDigits(s)
    ensures DigitsOnly("-" + s) == s
  {
    if |s| == 0 {
      DigitsSnoc("", '-');
      assert "" + ['-'] == "-" + s;
    } else {
      var n := |s| - 1;
      DigitsAfterSign(s[..n]);
      DigitsSnoc("-" + s[..n], s[n]);
      assert "-" + s == ("-" + s[..n]) + [s[n]];
    }
  }

  function Magnitude(n: int): nat { if n < 0 then -n else n }

  lemma {:induction false} TextDigits(n: int)
    ensures DigitsOnly(Text(n)) == Decimal(Magnitude(n))
  {
    DecimalValue(Magnitude(n));
    if n < 0 {
      DigitsAfterSign(Decimal(-n));
    } else {
      DigitsOfDigits(Decimal(n));
    }
  }

  /** The amount column holds the amount exactly when it is not negative and has at most ten digits. */
  lemma {:induction false} AmountColumnIsExact(row: Row)
    ensures Value(AmountField(row)) == row.amountMinor <==> 0 <= row.amountMinor < 10_000_000_000
    ensures Value(AmountField(row)) == Magnitude(row.amountMinor) % 10_000_000_000
  {
    PowersOfTen();
    TextDigits(row.amountMinor);
    var m := Magnitude(row.amountMinor);
    DecimalValue(m);
    LastDigitsValue(Decimal(m), 10);
    Remainder(row.amountMinor, m % 10_000_000_000);
  }

  lemma {:induction false} Remainder(n: int, r: int)
    requires r == Magnitude(n) % 10_000_000_000
    ensures r == n <==> 0 <= n < 10_000_000_000
  {
  }

  lemma {:induction false} HashFieldValue(hash: nat)
    ensures Value(HashField(hash)) == hash % 10_000_000_000
  {
    PowersOfTen();
    var n := hash % 10_000_000_000;
    DecimalValue(n);
    LastDigitsValue(Decimal(n), 10);
  }

  ghost predicate InRange(rows: seq<Row>) {
    forall i :: 0 <= i < |rows| ==> 0 <= rows[i].amountMinor < 10_000_000_000
  }

  lemma {:induction false} TallyEntries(head: seq<string>, rows: seq<Row>, o: Opts)
    requires TallyOf(head) == Tally(0, 0, 0) && InRange(rows)
    ensures TallyOf(head + EntryLines(rows, o)) == Tally(|rows|, HashOf(rows), TotalOf(rows))
  {
    if |rows| == 0 {
      TallyNone(head, rows, o);
    } else {
      var front, row := rows[..|rows| - 1], rows[|rows| - 1];
      assert InRange(front) && front + [row] == rows;
      TallyEntries(head, front, o);
      TallyNext(head, front, row, o);
    }
  }

  lemma {:induction false} TallyNone(head: seq<string>, rows: seq<Row>, o: Opts)
    requires TallyOf(head) == Tally(0, 0, 0) && |rows| == 0
    ensures TallyOf(head + EntryLines(rows, o)) == Tally(|rows|, HashOf(rows), TotalOf(rows))
  {
    assert head + [] == head;
  }

  lemma {:induction false} TallyNext(head: seq<string>, rows: seq<Row>, row: Row, o: Opts)
    requires TallyOf(head + EntryLines(rows, o)) == Tally(|rows|, HashOf(rows), TotalOf(rows))
    requires 0 <= row.amountMinor < 10_000_000_000
    ensures TallyOf(head + EntryLines(rows + [row], o))
            == Tally(|rows| + 1, HashOf(rows + [row]), TotalOf(rows + [row]))
  {
    EntrySnoc(rows, row, o);
    TallyEntry(head + EntryLines(rows, o), row, |rows|, o);
    AppendAssoc(head, EntryLines(rows, o), EntryDetail(row, |rows|, o));
  }

  lemma {:induction false} AppendAssoc(a: seq<string>, b: seq<string>, l: string)
    ensures a + (b + [l]) == a + b + [l]
  {
  }

  lemma {:induction false} TallyEntry(before: seq<string>, row: Row, i: nat, o: Opts)
    requires 0 <= row.amountMinor < 10_000_000_000
    ensures var t := TallyOf(before);
            TallyOf(before + [EntryDetail(row, i, o)])
            == Tally(t.count + 1, t.prefixes + RoutingPrefix(row), t.amounts + row.amountMinor)
  {
    AmountColumnIsExact(row);
    TallySnoc(before, EntryDetail(row, i, o));
  }

  lemma {:induction false} TallySkips(lines: seq<string>, n: nat)
    ensures TallyOf(lines + Fillers(n)) == TallyOf(lines)
  {
    if n == 0 {
      assert lines + Fillers(0) == lines;
    } else {
      TallySkips(lines, n - 1);
      TallySnoc(lines + Fillers(n - 1), Filler());
      assert lines + Fillers(n) == lines + Fillers(n - 1) + [Filler()];
    }
  }

  lemma {:induction false} TallyAssembled(fh: string, bh: string, es: seq<string>, bc: string, fc: string)
    requires !IsEntry(fh) && !IsEntry(bh) && !IsEntry(bc) && !IsEntry(fc)
    ensures TallyOf([fh, bh]) == Tally(0, 0, 0)
    ensures TallyOf(Padded(Assemble(fh, bh, es, bc, fc))) == TallyOf([fh, bh] + es)
  {
    TallySnoc([], fh);
    TallySnoc([fh], bh);
    assert [] + [fh] == [fh] && [fh] + [bh] == [fh, bh];
    TallySnoc([fh, bh] + es, bc);
    TallySnoc([fh, bh] + es + [bc], fc);
    TallySkips(Assemble(fh, bh, es, bc, fc), Padding(|es| + 4));
  }

  lemma {:induction false} TallyFile(rows: seq<Row>, o: Opts)
    requires InRange(rows)
    ensures TallyOf(File(rows, o)) == Tally(|rows|, HashOf(rows), TotalOf(rows))
  {
    var bc := BatchControl(|rows|, HashOf(rows), TotalOf(rows), o);
    var fc := FileControl(|rows|, Blocks(|rows|), HashOf(rows), TotalOf(rows));
    var fh, bh := FileHeader(o), BatchHeader(o);
    TallyAssembled(fh, bh, EntryLines(rows, o), bc, fc);
    TallyEntries([fh, bh], rows, o);
  }

  // What the control records declare.

  function BatchCount(line: string): int requires |line| == RECORD_LENGTH { Value(line[4..10]) }
  function BatchHash(line: string): int requires |line| == RECORD_LENGTH { Value(line[10..20]) }
  function BatchTotal(line: string): int requires |line| == RECORD_LENGTH { Value(line[32..44]) }
  function FileBlocks(line: string): int requires |line| == RECORD_LENGTH { Value(line[7..13]) }
  function FileCount(line: string): int requires |line| == RECORD_LENGTH { Value(line[13..21]) }
  function FileHash(line: string): int requires |line| == RECORD_LENGTH { Value(line[21..31]) }
  function FileTotal(line: string): int requires |line| == RECORD_LENGTH { Value(line[43..55]) }

  lemma {:induction false} BatchControlReads(count: nat, hash: nat, total: nat, o: Opts)
    ensures BatchCount(BatchControl(count, hash, total, o)) == count % 1_000_000
    ensures BatchHash(BatchControl(count, hash, total, o)) == hash % 10_000_000_000
    ensures BatchTotal(BatchControl(count, hash, total, o)) == total % 1_000_000_000_000
  {
    PowersOfTen();
    NumFieldValue(count, 6);
    HashFieldValue(hash);
    NumFieldValue(total, 12);
  }

  lemma {:induction false} FileControlReads(count: nat, blocks: nat, hash: nat, total: nat)
    ensures FileBlocks(FileControl(count, blocks, hash, total)) == blocks % 1_000_000
    ensures FileCount(FileControl(count, blocks, hash, total)) == count % 100_000_000
    ensures FileHash(FileControl(count, blocks, hash, total)) == hash % 10_000_000_000
    ensures FileTotal(FileControl(count, blocks, hash, total)) == total % 1_000_000_000_000
  {
    PowersOfTen();
    NumFieldValue(count, 8);
    NumFieldValue(blocks, 6);
    HashFieldValue(hash);
    NumFieldValue(total, 12);
  }

  lemma {:induction false} TotalIsNat(rows: seq<Row>)
    requires InRange(rows)
    ensures TotalOf(rows) >= 0
  {
    if |rows| > 0 {
      TotalIsNat(rows[..|rows| - 1]);
    }
  }

  lemma {:induction false} ControlsInPlace(fh: string, bh: string, es: seq<string>, bc: string, fc: string)
    ensures var file := Padded(Assemble(fh, bh, es, bc, fc));
            |file| >= |es| + 4 && file[|es| + 2] == bc && file[|es| + 3] == fc
  {
  }

  /** The two control records agree with a tally of the entries and with the number of lines. */
  ghost predicate Balanced(lines: seq<string>, n: nat) {
    && |lines| >= n + 4
    && IsRecord(lines[n + 2], true) && lines[n + 2][0] == '8'
    && IsRecord(lines[n + 3], true) && lines[n + 3][0] == '9'
    && var bc, fc, t := lines[n + 2], lines[n + 3], TallyOf(lines);
       && BatchCount(bc) == t.count % 1_000_000 && FileCount(fc) == t.count % 100_000_000
       && BatchHash(bc) == FileHash(fc) == t.prefixes % 10_000_000_000
       && BatchTotal(bc) == FileTotal(fc) == t.amounts % 1_000_000_000_000
       && FileBlocks(fc) == (|lines| / BLOCKING_FACTOR) % 1_000_000
  }

  /**
   Reading the printed text back line by line gives the records, and both control records hold the entry
   count, the routing hash and the credit total that the entry columns add up to, each up to its own width.
   */
  lemma {:induction false} TextReadsBack(rows: seq<Row>, o: Opts)
    requires Clean(rows, o) && InRange(rows)
    ensures Lines(Join(File(rows, o))) == File(rows, o)
    ensures Balanced(Lines(Join(File(rows, o))), |rows|)
    ensures TallyOf(Lines(Join(File(rows, o)))) == Tally(|rows|, HashOf(rows), TotalOf(rows))
  {
    FileIsBlocked(rows, o);
    var file := File(rows, o);
    assert forall i :: 0 <= i < |file| ==> IsRecord(file[i], true);
    LinesOfJoin(file);
    TallyFile(rows, o);
    FileBalances(rows, o);
  }

  lemma {:induction false} FileBalances(rows: seq<Row>, o: Opts)
    requires InRange(rows) && |File(rows, o)| == BLOCKING_FACTOR * Blocks(|rows|)
    requires Clean(rows, o)
    requires TallyOf(File(rows, o)) == Tally(|rows|, HashOf(rows), TotalOf(rows))
    ensures Balanced(File(rows, o), |rows|)
  {
    TotalIsNat(rows);
    var n, hash: nat, total: nat := |rows|, HashOf(rows), TotalOf(rows);
    var bc, fc := BatchControl(n, hash, total, o), FileControl(n, Blocks(n), hash, total);
    BatchControlReads(n, hash, total, o);
    FileControlReads(n, Blocks(n), hash, total);
    ControlsBalance(FileHeader(o), BatchHeader(o), EntryLines(rows, o), bc, fc, hash, total);
  }

  lemma {:induction false} ControlsBalance(fh: string, bh: string, es: seq<string>, bc: string, fc: string, hash: nat,
                                           total: nat)
    requires IsRecord(bc, true) && bc[0] == '8' && IsRecord(fc, true) && fc[0] == '9'
    requires BatchCount(bc) == |es| % 1_000_000 && FileCount(fc) == |es| % 100_000_000
    requires BatchHash(bc) == FileHash(fc) == hash % 10_000_000_000
    requires BatchTotal(bc) == FileTotal(fc) == total % 1_000_000_000_000
    requires FileBlocks(fc) == Blocks(|es|) % 1_000_000
    requires var file := Padded(Assemble(fh, bh, es, bc, fc));
             |file| == BLOCKING_FACTOR * Blocks(|es|) && TallyOf(file) == Tally(|es|, hash, total)
    ensures Balanced(Padded(Assemble(fh, bh, es, bc, fc)), |es|)
  {
    ControlsInPlace(fh, bh, es, bc, fc);
  }

  // ---------------------------------------------------------------- every column of an entry

  lemma {:induction false} HeadColumns(row: Row)
    ensures EntryHead(row)[1..3] == TransactionCode(row.accountType)
    ensures EntryHead(row)[11..12] == Rdfi(row)[8..9]
    ensures EntryHead(row)[12..29] == PadRight(row.accountNumber, 17)
  {
    HeadSlices(TransactionCode(row.accountType), Rdfi(row)[..8], Rdfi(row)[8..9], PadRight(row.accountNumber, 17));
  }

  lemma {:induction false} HeadSlices(code: string, routing: string, check: string, account: string)
    requires |code| == 2 && |routing| == 8 && |check| == 1 && |account| == 17
    ensures var r := "6" + code + routing + check + account;
            r[1..3] == code && r[11..12] == check && r[12..29] == account
  {
    var a, b := "6" + code + routing, "6" + code + routing + check;
    assert a[1..3] == code;
    ThreeParts(a, check, account);
    assert b + account == a + check + account;
  }

  lemma {:induction false} TailColumns(row: Row, i: nat, o: Opts)
    ensures EntryTail(row, i, o)[..15] == PadRight(row.employeeId, 15)
    ensures EntryTail(row, i, o)[15..37] == AlnumUpper(row.name, 22)
    ensures EntryTail(row, i, o)[40..48] == Odfi8(o)
    ensures EntryTail(row, i, o)[48..55] == NumField(Decimal(i + 1), 7)
  {
    var id, name := PadRight(row.employeeId, 15), AlnumUpper(row.name, 22);
    var odfi, trace := Odfi8(o), NumField(Decimal(i + 1), 7);
    ThreeParts(id, name, "  " + "0" + odfi + trace);
    assert EntryTail(row, i, o) == id + name + ("  " + "0" + odfi + trace);
    assert (id + name + ("  " + "0" + odfi + trace))[..15] == id;
    ThreeParts(id + name + "  " + "0", odfi, trace);
    ThreeParts(id + name + "  " + "0" + odfi, trace, "");
  }

  /** The remaining columns of an entry detail record, at the positions of the ACH record format. */
  lemma {:induction false} EntryColumns(row: Row, i: nat, o: Opts)
    ensures var r := EntryDetail(row, i, o);
            && r[1..3] == TransactionCode(row.accountType)
            && r[11..12] == Rdfi(row)[8..9]
            && r[12..29] == PadRight(row.accountNumber, 17)
            && r[39..54] == PadRight(row.employeeId, 15)
            && r[54..76] == AlnumUpper(row.name, 22)
            && r[79..87] == Odfi8(o)
            && r[87..94] == NumField(Decimal(i + 1), 7)
  {
    HeadColumns(row);
    TailColumns(row, i, o);
    EntrySlices(EntryHead(row), AmountField(row), EntryTail(row, i, o));
  }

  lemma {:induction false} EntrySlices(head: string, amount: string, tail: string)
    requires |head| == 29 && |amount| == 10 && |tail| == 55
    ensures var r := head + amount + tail;
            && (forall i, j :: 0 <= i <= j <= 29 ==> r[i..j] == head[i..j])
            && r[39..54] == tail[..15] && r[54..76] == tail[15..37] && r[79..87] == tail[40..48]
            && r[87..94] == tail[48..55]
  {
    ThreeParts(head, amount, tail);
  }
}
