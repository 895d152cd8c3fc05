/**
 What stands in every column of the records of a credit file (src/lib/bankFileFormats.js, 27-58 and 69-180), in the
 layout of the ACH Record Format Specifications, Appendix Three of the Nacha Operating Rules.
 */
module BankColumns {
  import opened Decimals
  import opened Subsequences
  import opened Nacha

  // ---------------------------------------------------------------- fields

  /** The text from the left, cut to the column, then spaces. */
  ghost predicate Left(column: string, text: string) {
    forall i :: 0 <= i < |column| ==> column[i] == if i < |text| then text[i] else ' '
  }

  /** The last of the digits, with zeros before them. */
  ghost predicate Right(column: string, digits: string) {
    forall i :: 0 <= i < |column| ==>
      column[i] == if i < |column| - |digits| then '0' else digits[|digits| - |column| + i]
  }

  /** The digits of a text, whatever is between them. */
  ghost predicate Digits(column: string, text: string) {
    exists digits, places :: DigitsIn(digits, places, text) && Right(column, digits)
  }

  ghost predicate DigitsIn(digits: string, places: seq<nat>, text: string) {
    Sifted(digits, places, text, c => '0' <= c <= '9')
  }

  /** The capital letters, digits and spaces of a text. */
  ghost predicate Capitals(column: string, text: string) {
    exists kept, places :: CapitalsIn(kept, places, text) && Left(column, kept)
  }

  ghost predicate CapitalsIn(kept: string, places: seq<nat>, text: string) {
    Sifted(kept, places, text, c => 'A' <= c <= 'Z' || '0' <= c <= '9' || c == ' ')
  }

  /** Tens and units of a number. */
  ghost predicate TwoDigits(column: string, n: nat) {
    |column| == 2 && column[0] as int == '0' as int + n / 10 % 10 && column[1] as int == '0' as int + n % 10
  }

  ghost predicate Date(column: string, m: Moment) {
    && |column| == 6
    && TwoDigits(column[..2], m.year) && TwoDigits(column[2..4], m.month) && TwoDigits(column[4..], m.day)
  }

  ghost predicate Clock(column: string, m: Moment) {
    |column| == 4 && TwoDigits(column[..2], m.hour) && TwoDigits(column[2..], m.minute)
  }

  /** The first eight digits of the originating bank's routing number. */
  ghost predicate Bank(column: string, o: Opts) {
    |column| == 8 && exists last :: Digits(column + [last], BankText(o))
  }

  ghost function BankText(o: Opts): string {
    if o.originatingDfi != "" then o.originatingDfi
    else if o.immediateOrigin != "" then o.immediateOrigin
    else "000000000"
  }

  /** The company's number as it is given, or else the nine digits of the originating bank. */
  ghost predicate Company(column: string, o: Opts) {
    if o.companyId != "" then Left(column, o.companyId)
    else exists nine :: |nine| == 9 && Digits(nine, BankText(o)) && Left(column, nine)
  }

  /** The destination as it is given, or else a space and the originating bank, or zeros. */
  ghost predicate Destination(column: string, o: Opts) {
    if o.immediateDestination != "" then Left(column, o.immediateDestination)
    else |column| == 10 && column[0] == ' '
         && Digits(column[1..], if o.originatingDfi != "" then o.originatingDfi else "000000000")
  }

  /** The origin as it is given, or else a space and the digits of the company, or of the originating bank. */
  ghost predicate Origin(column: string, o: Opts) {
    if o.immediateOrigin != "" then Left(column, o.immediateOrigin)
    else |column| == 10 && column[0] == ' '
         && if o.companyId != "" then Digits(column[1..], o.companyId)
            else exists nine :: |nine| == 9 && Digits(nine, BankText(o)) && Digits(column[1..], nine)
  }

  ghost predicate Blank(column: string) { forall i :: 0 <= i < |column| ==> column[i] == ' ' }

  ghost function CompanyName(o: Opts, none: string): string { if o.companyName != "" then o.companyName else none }

  /** Credits to savings are 32, and all others 22. */
  ghost predicate Credit(column: string, accountType: string) {
    column == if |accountType| >= 3 && accountType[0] == 'S' && accountType[1] == 'A' && accountType[2] == 'V' then "32"
              else "22"
  }

  // ---------------------------------------------------------------- records

  ghost predicate IsFileHeader(r: string, o: Opts) {
    && |r| == 94 && r[0..1] == "1" && r[1..3] == "01"
    && Destination(r[3..13], o) && Origin(r[13..23], o)
    && Date(r[23..29], o.created) && Clock(r[29..33], o.created)
    && r[33..34] == "A" && r[34..37] == "094" && r[37..39] == "10" && r[39..40] == "1"
    && Capitals(r[40..63], if o.immediateDestinationName != "" then o.immediateDestinationName
       else CompanyName(o, "BANK"))
    && Capitals(r[63..86], if o.originName != "" then o.originName else CompanyName(o, "COMPANY"))
    && Blank(r[86..94])
  }

  ghost predicate IsBatchHeader(r: string, o: Opts) {
    && |r| == 94 && r[0..1] == "5" && r[1..4] == "220"
    && Capitals(r[4..20], CompanyName(o, "COMPANY")) && Blank(r[20..40]) && Company(r[40..50], o)
    && r[50..53] == "PPD"
    && Capitals(r[53..63], if o.entryDescription != "" then o.entryDescription else "PAYROLL")
    && Date(r[63..69], o.created) && Date(r[69..75], o.effective)
    && Blank(r[75..78]) && r[78..79] == "1" && Bank(r[79..87], o) && r[87..94] == "0000001"
  }

  ghost predicate IsEntryOf(r: string, row: Row, i: nat, o: Opts) {
    && |r| == 94 && r[0..1] == "6" && Credit(r[1..3], row.accountType)
    && Digits(r[3..12], row.routingNumber) && Left(r[12..29], row.accountNumber)
    && Value(r[29..39]) == (if row.amountMinor < 0 then -row.amountMinor else row.amountMinor) % 10_000_000_000
    && Left(r[39..54], row.employeeId) && Capitals(r[54..76], row.name)
    && Blank(r[76..78]) && r[78..79] == "0" && Bank(r[79..87], o)
    && AllDigits(r[87..94]) && Value(r[87..94]) == (i + 1) % 10_000_000
  }

  // ---------------------------------------------------------------- what the fields hold

  lemma {:induction false} PadIsLeft(s: string, len: nat)
    ensures Left(PadRight(s, len), s)
  {
  }

  lemma {:induction false} LastIsRight(digits: string, len: nat)
    ensures Right(LastDigits(digits, len), digits)
  {
  }

  lemma {:induction false} DigitsAre(s: string) returns (places: seq<nat>)
    ensures DigitsIn(DigitsOnly(s), places, s)
  {
    places := [];
    if |s| > 0 {
      var n := |s| - 1;
      places := DigitsAre(s[..n]);
      assert s == s[..n] + [s[n]];
      SiftedNext(DigitsOnly(s[..n]), places, s[..n], s[n], c => '0' <= c <= '9');
      if IsDigit(s[n]) {
        places := places + [n];
      }
    }
  }

  lemma {:induction false} CapitalsAre(s: string) returns (places: seq<nat>)
    ensures CapitalsIn(AlphamericOnly(s), places, s)
  {
    places := [];
    if |s| > 0 {
      var n := |s| - 1;
      places := CapitalsAre(s[..n]);
      assert s == s[..n] + [s[n]];
      SiftedNext(AlphamericOnly(s[..n]), places, s[..n], s[n], c => 'A' <= c <= 'Z' || '0' <= c <= '9' || c == ' ');
      if Alphameric(s[n]) {
        places := places + [n];
      }
    }
  }

  lemma {:induction false} NumIsDigits(s: string, len: nat)
    ensures Digits(NumField(s, len), s)
  {
    var places := DigitsAre(s);
    LastIsRight(DigitsOnly(s), len);
  }

  lemma {:induction false} UpperIsCapitals(s: string, len: nat)
    ensures Capitals(AlnumUpper(s, len), s)
  {
    var places := CapitalsAre(s);
    PadIsLeft(AlphamericOnly(s), len);
  }

  lemma {:induction false} LastOfDecimal(n: nat)
    ensures Decimal(n)[|Decimal(n)| - 1] as int == '0' as int + n % 10
    ensures n >= 10 ==> |Decimal(n)| >= 2 && Decimal(n)[|Decimal(n)| - 2] as int == '0' as int + n / 10 % 10
    ensures n < 10 ==> |Decimal(n)| == 1
  {
    if n >= 10 {
      LastOfDecimal(n / 10);
    }
  }

  lemma {:induction false} TwoIs(n: nat)
    ensures TwoDigits(Two(n), n)
  {
    LastOfDecimal(n);
    DecimalValue(n);
  }

  lemma {:induction false} DateIs(m: Moment)
    ensures Date(Yymmdd(m), m)
  {
    TwoIs(m.year);
    TwoIs(m.month);
    TwoIs(m.day);
    ThreePairs(Two(m.year), Two(m.month), Two(m.day));
  }

  lemma {:induction false} ThreePairs(a: string, b: string, c: string)
    requires |a| == |b| == |c| == 2
    ensures (a + b + c)[..2] == a && (a + b + c)[2..4] == b && (a + b + c)[4..] == c
  {
  }

  lemma {:induction false} ClockIs(m: Moment)
    ensures Clock(Hhmm(m), m)
  {
    TwoIs(m.hour);
    TwoIs(m.minute);
    assert Hhmm(m)[..2] == Two(m.hour) && Hhmm(m)[2..] == Two(m.minute);
  }

  lemma {:induction false} OdfiIs(o: Opts)
    ensures Digits(Odfi(o), BankText(o)) && Bank(Odfi8(o), o)
  {
    NumIsDigits(BankText(o), 9);
    assert Odfi8(o) + [Odfi(o)[8]] == Odfi(o);
  }

  lemma {:induction false} CompanyIs(o: Opts)
    ensures Company(PadRight(Or(o.companyId, Odfi(o)), 10), o)
  {
    OdfiIs(o);
    PadIsLeft(o.companyId, 10);
    PadIsLeft(Odfi(o), 10);
  }

  lemma {:induction false} AfterSpace(s: string)
    ensures (" " + s)[1..] == s && (" " + s)[0] == ' '
  {
  }

  lemma {:induction false} DestinationIs(o: Opts)
    ensures Destination(ImmediateDest(o), o)
  {
    PadIsLeft(o.immediateDestination, 10);
    var text := if o.originatingDfi != "" then o.originatingDfi else "000000000";
    NumIsDigits(text, 9);
    AfterSpace(NumField(text, 9));
  }

  lemma {:induction false} OriginIs(o: Opts)
    ensures Origin(ImmediateOrig(o), o)
  {
    PadIsLeft(o.immediateOrigin, 10);
    OdfiIs(o);
    var text := Or(o.companyId, Odfi(o));
    NumIsDigits(text, 9);
    AfterSpace(NumField(text, 9));
  }

  // ---------------------------------------------------------------- where they stand

  /** The last field of a part of the record, and the part before it. */
  lemma {:induction false} Cut(before: string, field: string, r: string)
    requires before + field <= r
    ensures before <= r && |before| + |field| <= |r| && r[|before|..|before| + |field|] == field
  {
    assert (before + field)[..|before|] == before;
    assert r[..|before| + |field|] == before + field;
  }

  lemma {:induction false} SixFields(a: string, b: string, c: string, d: string, e: string, f: string, r: string)
    requires a + b + c + d + e + f <= r
    ensures a + b + c <= r && a <= r
    ensures r[|a|..|a| + |b|] == b
    ensures r[|a| + |b|..|a| + |b| + |c|] == c
    ensures r[|a| + |b| + |c|..|a| + |b| + |c| + |d|] == d
    ensures r[|a| + |b| + |c| + |d|..|a| + |b| + |c| + |d| + |e|] == e
    ensures r[|a| + |b| + |c| + |d| + |e|..|a| + |b| + |c| + |d| + |e| + |f|] == f
  {
    Cut(a + b + c + d + e, f, r);
    Cut(a + b + c + d, e, r);
    Cut(a + b + c, d, r);
    Cut(a + b, c, r);
    Cut(a, b, r);
  }

  lemma {:induction false} FileHeaderSlices(dest: string, orig: string, date: string, clock: string, bank: string,
                                            name: string, rest: string)
    requires |dest| == |orig| == 10 && |date| == 6 && |clock| == 4 && |bank| == |name| == 23 && |rest| == 8
    ensures var r := "1" + "01" + dest + orig + date + clock + "A" + "094" + "10" + "1" + bank + name + rest;
            && r[1..3] == "01" && r[3..13] == dest && r[13..23] == orig && r[23..29] == date && r[29..33] == clock
            && r[33..34] == "A" && r[34..37] == "094" && r[37..39] == "10" && r[39..40] == "1"
            && r[40..63] == bank && r[63..86] == name && r[86..94] == rest
  {
    var head := "1" + "01" + dest + orig + date + clock;
    var r := head + "A" + "094" + "10" + "1" + bank + name + rest;
    Cut(head + "A" + "094" + "10" + "1" + bank + name, rest, r);
    SixFields(head + "A", "094", "10", "1", bank, name, r);
    Cut(head, "A", r);
    SixFields("1", "01", dest, orig, date, clock, r);
  }

  lemma {:induction false} FileHeaderIs(o: Opts)
    ensures IsFileHeader(FileHeader(o), o)
  {
    var bank := Or(o.immediateDestinationName, Or(o.companyName, "BANK"));
    var name := Or(o.originName, Or(o.companyName, "COMPANY"));
    FileHeaderSlices(ImmediateDest(o), ImmediateOrig(o), Yymmdd(o.created), Hhmm(o.created), AlnumUpper(bank, 23),
      AlnumUpper(name, 23), Spaces(8));
    DestinationIs(o);
    OriginIs(o);
    DateIs(o.created);
    ClockIs(o.created);
    UpperIsCapitals(bank, 23);
    UpperIsCapitals(name, 23);
  }

  lemma {:induction false} BatchHeaderSlices(name: string, gap: string, id: string, entry: string, created: string,
                                             effective: string, bank: string, number: string)
    requires |name| == 16 && |gap| == 20 && |id| == |entry| == 10 && |created| == |effective| == 6
    requires |bank| == 8 && |number| == 7
    ensures var r := "5" + "220" + name + gap + id + "PPD" + entry + created + effective + "   " + "1" + bank + number;
            && r[1..4] == "220" && r[4..20] == name && r[20..40] == gap && r[40..50] == id && r[50..53] == "PPD"
            && r[53..63] == entry && r[63..69] == created && r[69..75] == effective && r[75..78] == "   "
            && r[78..79] == "1" && r[79..87] == bank && r[87..94] == number
  {
    var head := "5" + "220" + name + gap + id + "PPD";
    var r := head + entry + created + effective + "   " + "1" + bank + number;
    Cut(head + entry + created + effective + "   " + "1" + bank, number, r);
    SixFields(head + entry, created, effective, "   ", "1", bank, r);
    Cut(head, entry, r);
    SixFields("5", "220", name, gap, id, "PPD", r);
  }

  lemma {:induction false} SpacesAreBlank(n: nat)
    ensures Blank(Spaces(n))
  {
  }

  lemma {:induction false} NumberOne()
    ensures NumField("1", 7) == "0000001"
  {
    DigitsSnoc("", '1');
    assert [] + ['1'] == "1";
    assert NumField("1", 7) == Zeros(6) + "1";
  }

  lemma {:induction false} BatchHeaderOf(name: string, gap: string, id: string, entry: string, created: string,
                                         effective: string, bank: string, o: Opts)
    requires |name| == 16 && |gap| == 20 && |id| == |entry| == 10 && |created| == |effective| == 6
    requires Capitals(name, CompanyName(o, "COMPANY")) && Blank(gap) && Company(id, o)
    requires Capitals(entry, if o.entryDescription != "" then o.entryDescription else "PAYROLL")
    requires Date(created, o.created) && Date(effective, o.effective) && Bank(bank, o)
    ensures IsBatchHeader("5" + "220" + name + gap + id + "PPD" + entry + created + effective + "   " + "1" + bank
            + "0000001",
                          o)
  {
    BatchHeaderSlices(name, gap, id, entry, created, effective, bank, "0000001");
  }

  lemma {:induction false} BatchHeaderIs(o: Opts)
    ensures IsBatchHeader(BatchHeader(o), o)
  {
    var name, entry := Or(o.companyName, "COMPANY"), Or(o.entryDescription, "PAYROLL");
    var id := PadRight(Or(o.companyId, Odfi(o)), 10);
    UpperIsCapitals(name, 16);
    UpperIsCapitals(entry, 10);
    SpacesAreBlank(20);
    CompanyIs(o);
    DateIs(o.created);
    DateIs(o.effective);
    OdfiIs(o);
    NumberOne();
    BatchHeaderOf(AlnumUpper(name, 16), Spaces(20), id, AlnumUpper(entry, 10), Yymmdd(o.created), Yymmdd(o.effective),
      Odfi8(o), o);
  }

  lemma {:induction false} EntryGap(row: Row, i: nat, o: Opts)
    ensures EntryDetail(row, i, o)[76..78] == "  " && EntryDetail(row, i, o)[78..79] == "0"
  {
    var id, name := PadRight(row.employeeId, 15), AlnumUpper(row.name, 22);
    var tail := EntryTail(row, i, o);
    Cut(id + name + "  ", "0", tail);
    Cut(id + name, "  ", tail);
    TailSlices(EntryHead(row), AmountField(row), tail);
  }

  lemma {:induction false} TailSlices(head: string, amount: string, tail: string)
    requires |head| == 29 && |amount| == 10 && |tail| == 55
    ensures (head + amount + tail)[76..78] == tail[37..39] && (head + amount + tail)[78..79] == tail[39..40]
  {
  }

  lemma {:induction false} RoutingIs(row: Row, i: nat, o: Opts)
    ensures Digits(EntryDetail(row, i, o)[3..12], row.routingNumber)
  {
    EntryColumns(row, i, o);
    NumIsDigits(row.routingNumber, 9);
    var r, nine := EntryDetail(row, i, o), Rdfi(row);
    assert r[3..12] == r[3..11] + r[11..12];
    assert nine == nine[..8] + nine[8..9];
  }

  lemma {:induction false} EntryIs(row: Row, i: nat, o: Opts)
    ensures IsEntryOf(EntryDetail(row, i, o), row, i, o)
  {
    var r := EntryDetail(row, i, o);
    EntryColumns(row, i, o);
    EntryGap(row, i, o);
    RoutingIs(row, i, o);
    CreditIs(row.accountType);
    PadIsLeft(row.accountNumber, 17);
    PadIsLeft(row.employeeId, 15);
    UpperIsCapitals(row.name, 22);
    OdfiIs(o);
    AmountColumnIsExact(row);
    TraceIs(i + 1);
  }

  lemma {:induction false} CreditIs(accountType: string)
    ensures Credit(TransactionCode(accountType), accountType)
  {
    if |accountType| >= 3 {
      assert accountType[..3] == [accountType[0], accountType[1], accountType[2]];
    }
  }

  lemma {:induction false} TraceIs(n: nat)
    ensures AllDigits(NumField(Decimal(n), 7)) && Value(NumField(Decimal(n), 7)) == n % 10_000_000
  {
    NumFieldValue(n, 7);
    assert Pow10(3) == 1000;
    assert Pow10(7) == 10_000_000;
  }

  // ---------------------------------------------------------------- control records and the whole file

  ghost predicate Holds(column: string, n: nat, width: nat) {
    AllDigits(column) && |column| == width && Value(column) == n % Pow10(width)
  }

  ghost function Size(n: int): nat { if n < 0 then -n else n }

  ghost predicate IsBatchControl(r: string, count: nat, hash: nat, total: int, o: Opts) {
    && |r| == 94 && r[0..1] == "8" && r[1..4] == "220" && Holds(r[4..10], count, 6) && Holds(r[10..20], hash, 10)
    && r[20..32] == "000000000000" && Holds(r[32..44], Size(total), 12)
    && Company(r[44..54], o) && Blank(r[54..79]) && Bank(r[79..87], o) && r[87..94] == "0000001"
  }

  ghost predicate IsFileControl(r: string, count: nat, blocks: nat, hash: nat, total: int) {
    && |r| == 94 && r[0..1] == "9" && r[1..7] == "000001" && Holds(r[7..13], blocks, 6) && Holds(r[13..21], count, 8)
    && Holds(r[21..31], hash, 10) && r[31..43] == "000000000000" && Holds(r[43..55], Size(total), 12)
    && Blank(r[55..94])
  }

  lemma {:induction false} NumHolds(n: int, len: nat)
    ensures Holds(NumField(Text(n), len), Size(n), len)
  {
    TextDigits(n);
    DecimalValue(Size(n));
    LastDigitsValue(Decimal(Size(n)), len);
  }

  lemma {:induction false} DecimalHolds(n: nat, len: nat)
    ensures Holds(NumField(Decimal(n), len), n, len)
  {
    NumFieldValue(n, len);
  }

  lemma {:induction false} HashHolds(hash: nat)
    ensures Holds(HashField(hash), hash, 10)
  {
    HashFieldValue(hash);
    PowersOfTen();
    DecimalValue(hash % 10_000_000_000);
  }

  lemma {:induction false} NumberZero()
    ensures NumField("0", 12) == "000000000000" && NumField("1", 6) == "000001"
  {
    DigitsSnoc("", '0');
    DigitsSnoc("", '1');
    assert [] + ['0'] == "0" && [] + ['1'] == "1";
    assert NumField("0", 12) == Zeros(11) + "0";
    assert NumField("1", 6) == Zeros(5) + "1";
  }

  lemma {:induction false} BatchControlOf(count: string, hash: string, debit: string, total: string, id: string,
                                          gap: string, rest: string, bank: string, number: string)
    requires |count| == 6 && |hash| == |id| == 10 && |debit| == |total| == 12 && |gap| == 19 && |rest| == 6
    requires |bank| == 8 && |number| == 7
    ensures var r := "8220" + count + hash + debit + total + (id + gap + rest + bank + number);
            && r[0..1] == "8" && r[1..4] == "220" && r[4..10] == count && r[10..20] == hash && r[20..32] == debit
            && r[32..44] == total && r[44..54] == id && r[54..79] == gap + rest && r[79..87] == bank
            && r[87..94] == number
  {
    var tail := id + gap + rest + bank + number;
    var r := "8220" + count + hash + debit + total + tail;
    SixFields("8220", count, hash, debit, total, tail, r);
    SixFields("", id, gap, rest, bank, number, tail);
    TailOf(r, tail, 44);
    assert tail[10..35] == gap + rest;
  }

  lemma {:induction false} TailOf(r: string, tail: string, at: nat)
    requires at + |tail| == |r| && r[at..] == tail
    ensures forall i, j :: 0 <= i <= j <= |tail| ==> r[at + i..at + j] == tail[i..j]
  {
    forall i, j | 0 <= i <= j <= |tail| ensures r[at + i..at + j] == tail[i..j] {
      assert r[at..][i..j] == r[at + i..at + j];
    }
  }

  lemma {:induction false} BatchControlIs(count: nat, hash: nat, total: int, o: Opts)
    ensures IsBatchControl(BatchControl(count, hash, total, o), count, hash, total, o)
  {
    var id := PadRight(Or(o.companyId, Odfi(o)), 10);
    BatchControlOf(NumField(Decimal(count), 6), HashField(hash), NumField("0", 12), NumField(Text(total), 12), id,
      Spaces(19), Spaces(6), Odfi8(o), NumField("1", 7));
    DecimalHolds(count, 6);
    HashHolds(hash);
    NumHolds(total, 12);
    CompanyIs(o);
    OdfiIs(o);
    NumberOne();
    NumberZero();
  }

  lemma {:induction false} FileControlOf(batches: string, blocks: string, count: string, hash: string, debit: string,
                                         total: string, rest: string)
    requires |batches| == |blocks| == 6 && |count| == 8 && |hash| == 10 && |debit| == |total| == 12 && |rest| == 39
    ensures var r := "9" + batches + blocks + count + hash + debit + total + rest;
            && r[0..1] == "9" && r[1..7] == batches && r[7..13] == blocks && r[13..21] == count && r[21..31] == hash
            && r[31..43] == debit && r[43..55] == total && r[55..94] == rest
  {
    var r := "9" + batches + blocks + count + hash + debit + total + rest;
    Cut("9" + batches + blocks + count + hash + debit + total, rest, r);
    SixFields("9" + batches, blocks, count, hash, debit, total, r);
    Cut("9", batches, r);
  }

  lemma {:induction false} FileControlIs(count: nat, blocks: nat, hash: nat, total: int)
    ensures IsFileControl(FileControl(count, blocks, hash, total), count, blocks, hash, total)
  {
    FileControlOf(NumField("1", 6), NumField(Decimal(blocks), 6), NumField(Decimal(count), 8), HashField(hash),
      NumField("0", 12), NumField(Text(total), 12), Spaces(39));
    DecimalHolds(blocks, 6);
    DecimalHolds(count, 8);
    HashHolds(hash);
    NumHolds(total, 12);
    NumberZero();
    SpacesAreBlank(39);
  }

  /** All records of a file in their places, and records of nines up to the last block. */
  ghost predicate Reads(lines: seq<string>, rows: seq<Row>, o: Opts, hash: nat, total: int) {
    var n := |rows|;
    && |lines| % 10 == 0 && n + 4 <= |lines| < n + 14
    && IsFileHeader(lines[0], o) && IsBatchHeader(lines[1], o)
    && EntriesRead(lines, rows, o)
    && IsBatchControl(lines[n + 2], n, hash, total, o) && IsFileControl(lines[n + 3], n, |lines| / 10, hash, total)
    && (forall i :: n + 4 <= i < |lines| ==> IsFiller(lines[i]))
  }

  ghost predicate EntriesRead(lines: seq<string>, rows: seq<Row>, o: Opts) {
    |lines| >= |rows| + 2 && forall i :: 0 <= i < |rows| ==> IsEntryOf(lines[i + 2], rows[i], i, o)
  }

  ghost predicate IsFiller(line: string) { |line| == 94 && forall k :: 0 <= k < 94 ==> line[k] == '9' }

  lemma {:induction false} InPlace(fh: string, bh: string, es: seq<string>, bc: string, fc: string)
    ensures var n, file := |es|, Padded(Assemble(fh, bh, es, bc, fc));
            && |file| % 10 == 0 && n + 4 <= |file| < n + 14
            && file[0] == fh && file[1] == bh && file[n + 2] == bc && file[n + 3] == fc
            && (forall i :: 0 <= i < n ==> file[i + 2] == es[i])
            && (forall i :: n + 4 <= i < |file| ==> file[i] == Filler())
  {
    PaddingEnds(|es| + 4, Padding(|es| + 4));
  }

  lemma {:induction false} EntriesAre(rows: seq<Row>, o: Opts)
    ensures forall i :: 0 <= i < |rows| ==> IsEntryOf(EntryLines(rows, o)[i], rows[i], i, o)
  {
    forall i | 0 <= i < |rows| ensures IsEntryOf(EntryLines(rows, o)[i], rows[i], i, o) {
      EntryAt(rows, o, i);
      EntryIs(rows[i], i, o);
    }
  }

  lemma {:induction false} ReadsOf(fh: string, bh: string, es: seq<string>, bc: string, fc: string, rows: seq<Row>,
                                   o: Opts, hash: nat, total: int)
    requires IsFileHeader(fh, o) && IsBatchHeader(bh, o) && IsBatchControl(bc, |rows|, hash, total, o)
    requires |es| == |rows| && forall i :: 0 <= i < |rows| ==> IsEntryOf(es[i], rows[i], i, o)
    requires IsFileControl(fc, |rows|, (|rows| + 13) / 10, hash, total)
    ensures Reads(Padded(Assemble(fh, bh, es, bc, fc)), rows, o, hash, total)
  {
    var lines, n := Padded(Assemble(fh, bh, es, bc, fc)), |rows|;
    InPlace(fh, bh, es, bc, fc);
    EntriesInPlace(lines, es, rows, o);
    FillersInPlace(lines, n + 4);
    ReadsFrom(lines, rows, o, hash, total);
  }

  lemma {:induction false} EntriesInPlace(lines: seq<string>, es: seq<string>, rows: seq<Row>, o: Opts)
    requires |es| == |rows| && |lines| >= |rows| + 2 && forall i :: 0 <= i < |es| ==> lines[i + 2] == es[i]
    requires forall i :: 0 <= i < |rows| ==> IsEntryOf(es[i], rows[i], i, o)
    ensures EntriesRead(lines, rows, o)
  {
  }

  lemma {:induction false} FillersInPlace(lines: seq<string>, from: nat)
    requires forall i :: from <= i < |lines| ==> lines[i] == Filler()
    ensures forall i :: from <= i < |lines| ==> IsFiller(lines[i])
  {
  }

  lemma {:induction false} ReadsFrom(lines: seq<string>, rows: seq<Row>, o: Opts, hash: nat, total: int)
    requires var n := |rows|;
             && |lines| % 10 == 0 && n + 4 <= |lines| < n + 14
             && IsFileHeader(lines[0], o) && IsBatchHeader(lines[1], o) && EntriesRead(lines, rows, o)
             && IsBatchControl(lines[n + 2], n, hash, total, o)
             && IsFileControl(lines[n + 3], n, (n + 13) / 10, hash, total)
             && forall i :: n + 4 <= i < |lines| ==> IsFiller(lines[i])
    ensures Reads(lines, rows, o, hash, total)
  {
    assert (|rows| + 13) / 10 == |lines| / 10;
  }

  lemma {:induction false} ControlsAre(n: nat, hash: nat, total: int, o: Opts)
    ensures IsBatchControl(BatchControl(n, hash, total, o), n, hash, total, o)
    ensures IsFileControl(FileControl(n, Blocks(n), hash, total), n, (n + 13) / 10, hash, total)
  {
    BatchControlIs(n, hash, total, o);
    FileControlIs(n, Blocks(n), hash, total);
  }

  lemma {:induction false} RecordsRead(rows: seq<Row>, o: Opts, hash: nat, total: int)
    ensures Reads(Padded(Assemble(FileHeader(o), BatchHeader(o), EntryLines(rows, o),
                                  BatchControl(|rows|, hash, total, o),
                                  FileControl(|rows|, Blocks(|rows|), hash, total))), rows, o, hash, total)
  {
    FileHeaderIs(o);
    BatchHeaderIs(o);
    ControlsAre(|rows|, hash, total, o);
    EntriesAre(rows, o);
    ReadsOf(FileHeader(o), BatchHeader(o), EntryLines(rows, o), BatchControl(|rows|, hash, total, o),
      FileControl(|rows|, Blocks(|rows|), hash, total), rows, o, hash, total);
  }

  /** What is printed reads as the rows that were given, whatever the rows and options are. */
  lemma {:induction false} FileReads(rows: seq<Row>, o: Opts)
    ensures Reads(File(rows, o), rows, o, HashOf(rows), TotalOf(rows))
  {
    RecordsRead(rows, o, HashOf(rows), TotalOf(rows));
  }
}
