/**
 Automatic deductions of a whole period and their attribution to dates
 (src/lib/anomalyPayroll.js, 1-144). Amounts are hundredths of a day.
 */
module Attribution {
  import opened Options
  import opened Sums
  import opened Violations
  import opened Pricing

  datatype Basis = PerRule | PooledFloor | PooledFloorDirect

  datatype Config = Config(basis: Basis, absenceRecovery: bool)

  /** Lines whose raw value is pooled and floored once; every other line keeps its own floored days. */
  predicate Pooled(config: Config, k: RuleKey) {
    k != DisapprovedLeaveKey && (config.basis == PooledFloor || (config.basis == PooledFloorDirect && k == LateKey))
  }

  function RawPart(config: Config, l: Line): int {
    if Pooled(config, l.key) then l.raw else 0
  }

  function FixedPart(config: Config, l: Line): int {
    if Pooled(config, l.key) then 0 else l.days
  }

  function RawTotal(config: Config, lines: seq<Line>): int {
    if |lines| == 0 then 0 else RawTotal(config, lines[..|lines| - 1]) + RawPart(config, lines[|lines| - 1])
  }

  function FixedTotal(config: Config, lines: seq<Line>): int {
    if |lines| == 0 then 0 else FixedTotal(config, lines[..|lines| - 1]) + FixedPart(config, lines[|lines| - 1])
  }

  // ---------------------------------------------------------------- credit loss and refused absences

  /** The credit a row loses, given the cases of its day: nothing on an excused or non-working day. */
  function Lost(r: Row, cases: seq<Case>): int {
    if r.dayCredit.None? || NonWorking(r.status) || Excused(cases) then 0
    else if r.dayCredit.value < 0 || r.dayCredit.value > 100 then 0
    else 100 - r.dayCredit.value
  }

  predicate Charged(entries: seq<Entry<int>>, d: int) {
    exists e :: e in entries && e.key == d
  }

  /** Each day is charged once, for its first row that lost credit. */
  function AbsenceEntries(rows: seq<Row>, cases: seq<Case>): seq<Entry<int>> {
    if |rows| == 0 then []
    else
      var r := rows[|rows| - 1];
      var before := AbsenceEntries(rows[..|rows| - 1], cases);
      var lost := Lost(r, CasesOn(cases, r.date));
      if Charged(before, r.date) || lost <= 0 then before else before + [Entry(r.date, lost)]
  }

  predicate RefusedAbsence(c: Case) {
    c.status == Rejected && c.kind == AbsentCase
  }

  /** A refused absence costs a day unless the day is excused or already charged. */
  function RefusedEntries(scan: seq<Case>, cases: seq<Case>, absence: seq<Entry<int>>): seq<Entry<int>> {
    if |scan| == 0 then []
    else
      var c := scan[|scan| - 1];
      var before := RefusedEntries(scan[..|scan| - 1], cases, absence);
      if RefusedAbsence(c) && !Charged(absence, c.date) && !Charged(before, c.date) && !Excused(CasesOn(cases, c.date))
      then before + [Entry(c.date, 100)] else before
  }

  function Compose(config: Config, fixed: int, raw: int, absence: int, refused: int): int {
    fixed + match config.basis
            case PooledFloor => (raw + absence) / 100 * 100
            case PooledFloorDirect => raw / 100 * 100 + absence + refused
            case PerRule => absence
  }

  // ---------------------------------------------------------------- the total of a period

  ghost function DatesOf(rows: seq<Row>, cases: seq<Case>): set<int> {
    (set r | r in rows :: r.date) + (set c | c in cases :: c.date)
  }

  ghost function SeenOf(rows: seq<Row>, cases: seq<Case>, rules: seq<Rule>, recovery: bool): set<(RuleKey, int)> {
    set k, d | k in ALL_KEYS && d in DatesOf(rows, cases)
               && Violates(RowsOn(rows, d), CasesOn(cases, d), TimingKeys(rules), recovery, k) :: (k, d)
  }

  ghost function MeasuredOf(rows: seq<Row>, cases: seq<Case>, rules: seq<Rule>): map<(RuleKey, int), int> {
    map k, d | k in TimingKeys(rules) && d in DatesOf(rows, cases)
               && Measured(RowsOn(rows, d), CasesOn(cases, d), k).Some?
      :: (k, d) := Measured(RowsOn(rows, d), CasesOn(cases, d), k).value
  }

  ghost function CountedOf(rows: seq<Row>, cases: seq<Case>, rules: seq<Rule>, recovery: bool): Counted {
    Counted(SeenOf(rows, cases, rules, recovery), MeasuredOf(rows, cases, rules))
  }

  ghost predicate Unmeasured(rows: seq<Row>, cases: seq<Case>, rules: seq<Rule>) {
    exists r :: r in rows && LacksEvidence(r, cases, TimingKeys(rules))
  }

  ghost function LinesOf(rows: seq<Row>, cases: seq<Case>, rules: seq<Rule>, config: Config): Result<seq<Line>> {
    if Unmeasured(rows, cases, rules) then Thrown
    else PricedLines(CountedOf(rows, cases, rules, config.absenceRecovery), rules)
  }

  ghost function AbsenceOf(rows: seq<Row>, cases: seq<Case>, config: Config): seq<Entry<int>> {
    if config.absenceRecovery then AbsenceEntries(rows, cases) else []
  }

  ghost function RefusedOf(rows: seq<Row>, cases: seq<Case>, config: Config): seq<Entry<int>> {
    if config.basis == PooledFloorDirect then RefusedEntries(cases, cases, AbsenceOf(rows, cases, config)) else []
  }

  ghost function TotalOf(rows: seq<Row>, cases: seq<Case>, rules: seq<Rule>, config: Config): Result<int> {
    var lines := LinesOf(rows, cases, rules, config);
    if lines.Thrown? then Thrown
    else Ok(Compose(config, FixedTotal(config, lines.value), RawTotal(config, lines.value),
                    Total(AbsenceOf(rows, cases, config)), Total(RefusedOf(rows, cases, config))))
  }

  lemma {:induction false} NoDayNoFile(rows: seq<Row>, cases: seq<Case>, d: int)
    requires d !in DatesOf(rows, cases)
    ensures RowsOn(rows, d) == [] && CasesOn(cases, d) == []
  {
    if |RowsOn(rows, d)| > 0 {
      RowsOnMembers(rows, d, RowsOn(rows, d)[0]);
    }
    if |CasesOn(cases, d)| > 0 {
      CasesOnMembers(cases, d, CasesOn(cases, d)[0]);
    }
  }

  lemma {:induction false} CountedMembers(rows: seq<Row>, cases: seq<Case>, rules: seq<Rule>, recovery: bool,
                                          k: RuleKey, d: int)
    ensures (k, d) in SeenOf(rows, cases, rules, recovery) <==>
              Violates(RowsOn(rows, d), CasesOn(cases, d), TimingKeys(rules), recovery, k)
    ensures (k, d) in MeasuredOf(rows, cases, rules) <==>
              k in TimingKeys(rules) && Measured(RowsOn(rows, d), CasesOn(cases, d), k).Some?
    ensures (k, d) in MeasuredOf(rows, cases, rules) ==>
              Some(MeasuredOf(rows, cases, rules)[(k, d)]) == Measured(RowsOn(rows, d), CasesOn(cases, d), k)
  {
    if d !in DatesOf(rows, cases) {
      NoDayNoFile(rows, cases, d);
    }
  }

  /** The source's loops: price the lines, sum them by bucket, then charge lost credit and refused absences. */
  method AutomaticTotal(rows: seq<Row>, cases: seq<Case>, rules: seq<Rule>, config: Config) returns (total: Result<int>)
    ensures total == TotalOf(rows, cases, rules, config)
  {
    var seen := CountViolationDays(rows, cases, rules, config.absenceRecovery);
    var measured := TimingViolationDays(rows, cases, rules);
    if measured.Thrown? {
      return Thrown;
    }
    CountedIsSpec(rows, cases, rules, config.absenceRecovery, seen, measured.value);
    var lines := ComputeAttendanceDeductions(Counted(seen, measured.value), rules);
    if lines.Thrown? {
      return Thrown;
    }
    var raw, fixed := SumLines(lines.value, config);
    var absence: seq<Entry<int>> := [];
    if config.absenceRecovery {
      absence := ChargeAbsences(rows, cases);
    }
    var refused: seq<Entry<int>> := [];
    if config.basis == PooledFloorDirect {
      refused := ChargeRefusals(cases, absence);
    }
    return Ok(Compose(config, fixed, raw, Total(absence), Total(refused)));
  }

  lemma {:induction false} CountedIsSpec(rows: seq<Row>, cases: seq<Case>, rules: seq<Rule>, recovery: bool,
                                         seen: set<(RuleKey, int)>, measured: map<(RuleKey, int), int>)
    requires forall k, d :: (k, d) in seen <==>
               Violates(RowsOn(rows, d), CasesOn(cases, d), TimingKeys(rules), recovery, k)
    requires HoldsMeasured(measured, rows, cases, TimingKeys(rules))
    ensures Counted(seen, measured) == CountedOf(rows, cases, rules, recovery)
  {
    forall x ensures x in seen <==> x in SeenOf(rows, cases, rules, recovery) {
      assert x == (x.0, x.1);
      CountedMembers(rows, cases, rules, recovery, x.0, x.1);
    }
    forall x
      ensures x in measured <==> x in MeasuredOf(rows, cases, rules)
      ensures x in measured ==> measured[x] == MeasuredOf(rows, cases, rules)[x]
    {
      assert x == (x.0, x.1);
      CountedMembers(rows, cases, rules, recovery, x.0, x.1);
    }
  }

  method SumLines(lines: seq<Line>, config: Config) returns (raw: int, fixed: int)
    ensures raw == RawTotal(config, lines) && fixed == FixedTotal(config, lines)
  {
    raw, fixed := 0, 0;
    for i := 0 to |lines|
      invariant raw == RawTotal(config, lines[..i]) && fixed == FixedTotal(config, lines[..i])
    {
      assert lines[..i + 1][..i] == lines[..i];
      if Pooled(config, lines[i].key) {
        raw := raw + lines[i].raw;
      } else {
        fixed := fixed + lines[i].days;
      }
    }
    assert lines[..|lines|] == lines;
  }

  method ChargeAbsences(rows: seq<Row>, cases: seq<Case>) returns (entries: seq<Entry<int>>)
    ensures entries == AbsenceEntries(rows, cases)
  {
    entries := [];
    for i := 0 to |rows|
      invariant entries == AbsenceEntries(rows[..i], cases)
    {
      assert rows[..i + 1][..i] == rows[..i];
      var r := rows[i];
      if !Charged(entries, r.date) {
        var lost := Lost(r, CasesOn(cases, r.date));
        if lost > 0 {
          entries := entries + [Entry(r.date, lost)];
        }
      }
    }
    assert rows[..|rows|] == rows;
  }

  method ChargeRefusals(cases: seq<Case>, absence: seq<Entry<int>>) returns (entries: seq<Entry<int>>)
    ensures entries == RefusedEntries(cases, cases, absence)
  {
    entries := [];
    for i := 0 to |cases|
      invariant entries == RefusedEntries(cases[..i], cases, absence)
    {
      assert cases[..i + 1][..i] == cases[..i];
      var c := cases[i];
      if RefusedAbsence(c) && !Charged(absence, c.date) && !Charged(entries, c.date)
        && !Excused(CasesOn(cases, c.date)) {
        entries := entries + [Entry(c.date, 100)];
      }
    }
    assert cases[..|cases|] == cases;
  }
}
