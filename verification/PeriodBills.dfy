/**
 The bill of a period: an independent account of what its rows, cases and rules cost. The automatic total is the total
 of the one bill there is (src/lib/anomalyPayroll.js, 42-101).
 */
module PeriodBills {
  import opened Options
  import opened Arithmetic
  import opened Sums
  import opened Violations
  import opened Pricing
  import opened Attribution
  import opened Monotone
  import opened CounterPrices
  import opened BandPrices
  import opened PeriodCosts

  datatype Bill = Bill(
    violations: Counted, counted: seq<Line>, heads: seq<nat>, timed: seq<Line>, places: seq<(nat, bool)>,
    absences: seq<Entry<int>>, refusals: seq<Entry<int>>)

  /** Lines whose raw value goes into the sum that is floored once. */
  ghost predicate Shared(basis: Basis, k: RuleKey) {
    match basis
    case PerRule => false
    case PooledFloor => k != DisapprovedLeaveKey
    case PooledFloorDirect => k == LateKey
  }

  ghost function OwnDays(lines: seq<Line>, basis: Basis): int {
    if |lines| == 0 then 0
    else (if Shared(basis, lines[0].key) then 0 else lines[0].days) + OwnDays(lines[1..], basis)
  }

  ghost function SharedDays(lines: seq<Line>, basis: Basis): int {
    if |lines| == 0 then 0
    else (if Shared(basis, lines[0].key) then lines[0].raw else 0) + SharedDays(lines[1..], basis)
  }

  ghost function Summed(entries: seq<Entry<int>>): int {
    if |entries| == 0 then 0 else entries[0].amount + Summed(entries[1..])
  }

  /** Whole days only. */
  ghost function WholeDays(hundredths: int): int { (hundredths / 100) * 100 }

  /** The violations of the record. */
  ghost predicate IsViolations(v: Counted, rows: seq<Row>, cases: seq<Case>, rules: seq<Rule>, recovery: bool) {
    && (forall k, d :: (k, d) in v.seen <==> Breaks(rows, cases, rules, recovery, k, d))
    && (forall k, d :: (k, d) in v.measured ==> TimedKey(rules, k) && HasTime(rows, cases, k, d, v.measured[(k, d)]))
    && (forall k, d, m :: TimedKey(rules, k) && HasTime(rows, cases, k, d, m) ==> (k, d) in v.measured)
  }

  /** What is charged besides the rules. */
  ghost predicate Extras(b: Bill, rows: seq<Row>, cases: seq<Case>, config: Config) {
    && (if config.absenceRecovery then AbsenceCharges(b.absences, rows, cases) else b.absences == [])
    && (if config.basis == PooledFloorDirect then RefusalCharges(b.refusals, cases, cases, b.absences)
        else b.refusals == [])
  }

  /** Violations, their lines, lost credit and refused absences, and what they add up to under the basis. */
  ghost predicate Billed(b: Bill, total: int, rows: seq<Row>, cases: seq<Case>, rules: seq<Rule>, config: Config) {
    && IsViolations(b.violations, rows, cases, rules, config.absenceRecovery)
    && CountedLines(b.counted, b.heads, b.violations, rules)
    && TimedLinesHold(b.timed, b.places, b.violations.measured, rules)
    && Extras(b, rows, cases, config)
    && total == Sum(b.counted, b.timed, Summed(b.absences), Summed(b.refusals), config.basis)
  }

  ghost function Sum(counted: seq<Line>, timed: seq<Line>, absences: int, refusals: int, basis: Basis): int {
    OwnDays(counted, basis) + OwnDays(timed, basis)
    + AddedUp(basis, SharedDays(counted, basis) + SharedDays(timed, basis), absences, refusals)
  }

  ghost function AddedUp(basis: Basis, shared: int, absences: int, refusals: int): int {
    match basis
    case PerRule => absences
    case PooledFloor => WholeDays(shared + absences)
    case PooledFloorDirect => WholeDays(shared) + absences + refusals
  }

  // ---------------------------------------------------------------- the total is the total of a bill

  lemma {:induction false} OwnIs(lines: seq<Line>, config: Config)
    ensures OwnDays(lines, config.basis) == FixedTotal(config, lines)
    ensures SharedDays(lines, config.basis) == RawTotal(config, lines)
  {
    if |lines| > 0 {
      OwnIs(lines[1..], config);
      assert [lines[0]] + lines[1..] == lines;
      TotalsSplit(config, [lines[0]], lines[1..]);
      OneTotal(lines[0], config);
    }
  }

  lemma {:induction false} OneTotal(l: Line, config: Config)
    ensures FixedTotal(config, [l]) == if Shared(config.basis, l.key) then 0 else l.days
    ensures RawTotal(config, [l]) == if Shared(config.basis, l.key) then l.raw else 0
  {
    var lines := [l];
    assert lines[..|lines| - 1] == [];
  }

  lemma {:induction false} SummedIs(entries: seq<Entry<int>>)
    ensures Summed(entries) == Total(entries)
  {
    if |entries| > 0 {
      SummedIs(entries[1..]);
      var first := [entries[0]];
      assert first + entries[1..] == entries;
      TotalSplit(first, entries[1..]);
      assert first[..|first| - 1] == [];
    }
  }

  lemma {:induction false} ViolationsAre(rows: seq<Row>, cases: seq<Case>, rules: seq<Rule>, recovery: bool)
    ensures IsViolations(CountedOf(rows, cases, rules, recovery), rows, cases, rules, recovery)
  {
    var v := CountedOf(rows, cases, rules, recovery);
    forall k, d ensures (k, d) in v.seen <==> Breaks(rows, cases, rules, recovery, k, d) {
      CountedMembers(rows, cases, rules, recovery, k, d);
      CountedDays(rows, cases, rules, recovery, k, d);
    }
    forall k, d | (k, d) in v.measured
      ensures TimedKey(rules, k) && HasTime(rows, cases, k, d, v.measured[(k, d)])
    {
      MeasuredDays(rows, cases, rules, k, d, v.measured[(k, d)]);
    }
    forall k, d, m | TimedKey(rules, k) && HasTime(rows, cases, k, d, m) ensures (k, d) in v.measured {
      MeasuredDays(rows, cases, rules, k, d, m);
    }
  }

  /** Pricing a record fails exactly when a time is missing or timed rules of one counter disagree. */
  lemma {:induction false} TotalThrowsIff(rows: seq<Row>, cases: seq<Case>, rules: seq<Rule>, config: Config)
    ensures TotalOf(rows, cases, rules, config).Thrown? <==> TimeIsMissing(rows, cases, rules) || Disputed(rules)
  {
    MissingTime(rows, cases, rules);
    var measured := MeasuredOf(rows, cases, rules);
    var places := TimedRulesArePriced(measured, rules);
    MeasuredOfTakesTime(rows, cases, rules);
    UntimedIs(measured, rules);
  }

  /** The automatic total of a record is the total of a bill of it. */
  lemma {:induction false} TotalIsBilled(rows: seq<Row>, cases: seq<Case>, rules: seq<Rule>, config: Config)
      returns (b: Bill)
    requires TotalOf(rows, cases, rules, config).Ok?
    ensures Billed(b, TotalOf(rows, cases, rules, config).value, rows, cases, rules, config)
  {
    var v := CountedOf(rows, cases, rules, config.absenceRecovery);
    ViolationsAre(rows, cases, rules, config.absenceRecovery);
    var heads := CountersArePriced(rules, v);
    var places := TimedRulesArePriced(v.measured, rules);
    b := Bill(v, PoolLines(PoolsOf(rules, v)), heads, TimedLines(v.measured, rules).value, places,
              AbsenceOf(rows, cases, config), RefusedOf(rows, cases, config));
    ExtrasAre(b, rows, cases, config);
    AddsUp(b, rows, cases, rules, config);
  }

  lemma {:induction false} ExtrasAre(b: Bill, rows: seq<Row>, cases: seq<Case>, config: Config)
    requires b.absences == AbsenceOf(rows, cases, config) && b.refusals == RefusedOf(rows, cases, config)
    ensures Extras(b, rows, cases, config)
  {
    AbsencesAreCharged(rows, cases);
    RefusalsAreCharged(cases, cases, b.absences);
  }

  lemma {:induction false} AddsUp(b: Bill, rows: seq<Row>, cases: seq<Case>, rules: seq<Rule>, config: Config)
    requires TotalOf(rows, cases, rules, config).Ok?
    requires LinesOf(rows, cases, rules, config) == Ok(b.counted + b.timed)
    requires b.absences == AbsenceOf(rows, cases, config) && b.refusals == RefusedOf(rows, cases, config)
    ensures TotalOf(rows, cases, rules, config).value
            == Sum(b.counted, b.timed, Summed(b.absences), Summed(b.refusals), config.basis)
  {
    SummedIs(b.absences);
    SummedIs(b.refusals);
    TotalComposes(rows, cases, rules, config, b.counted + b.timed);
    SumIs(b.counted, b.timed, Total(b.absences), Total(b.refusals), config);
  }

  lemma {:induction false} SumIs(counted: seq<Line>, timed: seq<Line>, absences: int, refusals: int, config: Config)
    ensures var lines := counted + timed;
            Sum(counted, timed, absences, refusals, config.basis)
            == Compose(config, FixedTotal(config, lines), RawTotal(config, lines), absences, refusals)
  {
    PartsAddUp(counted, timed, config);
    ComposesAs(config, FixedTotal(config, counted + timed), RawTotal(config, counted + timed), absences, refusals);
  }

  lemma {:induction false} TotalComposes(rows: seq<Row>, cases: seq<Case>, rules: seq<Rule>, config: Config,
                                         lines: seq<Line>)
    requires LinesOf(rows, cases, rules, config) == Ok(lines)
    ensures TotalOf(rows, cases, rules, config)
            == Ok(Compose(config, FixedTotal(config, lines), RawTotal(config, lines),
                          Total(AbsenceOf(rows, cases, config)), Total(RefusedOf(rows, cases, config))))
  {
  }

  lemma {:induction false} PartsAddUp(a: seq<Line>, b: seq<Line>, config: Config)
    ensures FixedTotal(config, a + b) == OwnDays(a, config.basis) + OwnDays(b, config.basis)
    ensures RawTotal(config, a + b) == SharedDays(a, config.basis) + SharedDays(b, config.basis)
  {
    TotalsSplit(config, a, b);
    OwnIs(a, config);
    OwnIs(b, config);
  }

  lemma {:induction false} ComposesAs(config: Config, fixed: int, raw: int, absences: int, refusals: int)
    ensures Compose(config, fixed, raw, absences, refusals)
            == fixed + AddedUp(config.basis, raw, absences, refusals)
  {
  }

  // ---------------------------------------------------------------- there is one bill

  lemma {:induction false} OneViolations(a: Counted, b: Counted, rows: seq<Row>, cases: seq<Case>, rules: seq<Rule>,
                                         recovery: bool)
    requires IsViolations(a, rows, cases, rules, recovery) && IsViolations(b, rows, cases, rules, recovery)
    ensures a == b
  {
    forall x: (RuleKey, int)
      ensures x in a.seen <==> x in b.seen
      ensures x in a.measured <==> x in b.measured
      ensures x in a.measured && x in b.measured ==> a.measured[x] == b.measured[x]
    {
      var k, d := x.0, x.1;
      assert x == (k, d);
      assert (k, d) in a.seen <==> (k, d) in b.seen;
      assert (k, d) in a.measured <==> (k, d) in b.measured;
      if (k, d) in a.measured && (k, d) in b.measured {
        OneTime(rows, cases, k, d, a.measured[(k, d)], b.measured[(k, d)]);
      }
    }
    assert a.seen == b.seen && a.measured == b.measured;
  }

  lemma {:induction false} OneMultiple(u: int, low: int, x: int, y: int)
    requires u >= 1 && low < u * x <= low + u && low < u * y <= low + u
    ensures x <= y
  {
    var z := if x > y then x else y + 1;
    MulGrows(y + 1, z, u);
    assert (y + 1) * u == u * y + u && u * z == z * u;
  }

  lemma {:induction false} OneRaw(n: int, t: int, x: int, y: int)
    requires t >= 1 && 2 * n - t < 2 * t * x <= 2 * n + t && 2 * n - t < 2 * t * y <= 2 * n + t
    ensures x == y
  {
    OneMultiple(2 * t, 2 * n - t, x, y);
    OneMultiple(2 * t, 2 * n - t, y, x);
  }

  /** The line of a counter is determined by the rule that heads it. */
  lemma {:induction false} OneCountedLine(l: Line, m: Line, v: Counted, rules: seq<Rule>, j: nat)
    requires j < |rules| && CountedLine(l, v, rules, j) && CountedLine(m, v, rules, j)
    ensures l == m
  {
    var x: set<int> :| HoldsCounter(x, v, rules, Counter(rules[j])) && l.occurrences == |x|;
    var y: set<int> :| HoldsCounter(y, v, rules, Counter(rules[j])) && m.occurrences == |y|;
    forall d ensures d in x <==> d in y {
      assert d in x <==> OnCounter(v, rules, Counter(rules[j]), d);
    }
    assert x == y;
    OneRaw(l.occurrences * rules[j].deductionDays, if rules[j].triggerCount > 1 then rules[j].triggerCount else 1,
           l.raw, m.raw);
  }

  lemma {:induction false} FirstMember(b: seq<nat>)
    ensures |b| > 0 ==> b[0] in b
  {
  }

  lemma {:induction false} SameRising(a: seq<nat>, b: seq<nat>)
    requires Rising(a) && Rising(b) && forall j :: j in a <==> j in b
    ensures a == b
  {
    if |a| == 0 {
      FirstMember(b);
    } else {
      assert a[|a| - 1] in a;
      var i :| 0 <= i < |b| && b[i] == a[|a| - 1];
      LastOfRising(a, b, i);
      var x, y := a[..|a| - 1], b[..|b| - 1];
      forall j ensures j in x <==> j in y {
        FrontOfRising(a, j);
        FrontOfRising(b, j);
      }
      SameRising(x, y);
      assert a == x + [a[|a| - 1]] && b == y + [b[|b| - 1]];
    }
  }

  lemma {:induction false} LastOfRising(a: seq<nat>, b: seq<nat>, i: nat)
    requires Rising(a) && Rising(b) && |a| > 0 && (forall j :: j in b ==> j in a)
    requires i < |b| && b[i] == a[|a| - 1]
    ensures b[|b| - 1] == a[|a| - 1]
  {
    assert b[|b| - 1] in b;
    var k :| 0 <= k < |a| && a[k] == b[|b| - 1];
  }

  lemma {:induction false} FrontOfRising(a: seq<nat>, j: nat)
    requires Rising(a) && |a| > 0
    ensures j in a[..|a| - 1] <==> j in a && j != a[|a| - 1]
  {
    if j in a && j != a[|a| - 1] {
      var i :| 0 <= i < |a| && a[i] == j;
      assert a[..|a| - 1][i] == j;
    }
  }

  lemma {:induction false} HeadsCost(lines: seq<Line>, heads: seq<nat>, v: Counted, rules: seq<Rule>, j: nat)
    requires CountedLines(lines, heads, v, rules)
    ensures j in heads <==> Heads(v, rules, j) && !CostsNothing(v, rules, j)
  {
    if j in heads {
      var i :| 0 <= i < |heads| && heads[i] == j;
      assert CostlyLine(lines[i], v, rules, j);
      if CostsNothing(v, rules, j) {
        var l :| CountedLine(l, v, rules, j) && l.days <= 0 && l.raw <= 0;
        OneCountedLine(l, lines[i], v, rules, j);
      }
    }
  }

  lemma {:induction false} OneCounted(a: seq<Line>, x: seq<nat>, b: seq<Line>, y: seq<nat>, v: Counted,
                                      rules: seq<Rule>)
    requires CountedLines(a, x, v, rules) && CountedLines(b, y, v, rules)
    ensures a == b
  {
    forall j ensures j in x <==> j in y {
      HeadsCost(a, x, v, rules, j);
      HeadsCost(b, y, v, rules, j);
    }
    SameRising(x, y);
    forall i | 0 <= i < |a| ensures a[i] == b[i] {
      assert CostlyLine(a[i], v, rules, x[i]) && CostlyLine(b[i], v, rules, x[i]);
      OneCountedLine(a[i], b[i], v, rules, x[i]);
    }
  }

  lemma {:induction false} OneTimedLine(l: Line, m: Line, measured: map<(RuleKey, int), int>, rules: seq<Rule>,
                                        p: (nat, bool))
    requires TimedAt(l, measured, rules, p) && TimedAt(m, measured, rules, p)
    ensures l == m
  {
    var r := rules[p.0];
    var x: set<(RuleKey, int)>, y: set<(RuleKey, int)> :|
      SplitsCounter(measured, rules, Counter(r), x, y) && TimedPrices(l, r, |x|, |y|, p.1);
    var u: set<(RuleKey, int)>, w: set<(RuleKey, int)> :|
      SplitsCounter(measured, rules, Counter(r), u, w) && TimedPrices(m, r, |u|, |w|, p.1);
    OneSplit(measured, rules, Counter(r), x, y, u, w);
  }

  lemma {:induction false} OneSplit(measured: map<(RuleKey, int), int>, rules: seq<Rule>, counter: string,
                                    x: set<(RuleKey, int)>, y: set<(RuleKey, int)>,
                                    u: set<(RuleKey, int)>, w: set<(RuleKey, int)>)
    requires SplitsCounter(measured, rules, counter, x, y) && SplitsCounter(measured, rules, counter, u, w)
    ensures x == u && y == w
  {
    forall z ensures z in x <==> z in u { assert z in x <==> LongOn(measured, rules, counter, z); }
    forall z ensures z in y <==> z in w { assert z in y <==> ShortOn(measured, rules, counter, z); }
  }

  lemma {:induction false} PlacesCost(lines: seq<Line>, places: seq<(nat, bool)>, measured: map<(RuleKey, int), int>,
                                      rules: seq<Rule>, p: (nat, bool))
    requires TimedLinesHold(lines, places, measured, rules)
    ensures p in places <==> TimedHead(rules, p.0) && !FreeTimed(measured, rules, p)
  {
    var j, long := p.0, p.1;
    assert p == (j, long);
    assert TimedHead(rules, j) ==> (j, long) in places || FreeTimed(measured, rules, (j, long));
    if p in places {
      var i :| 0 <= i < |places| && places[i] == p;
      assert CostlyTimed(lines[i], measured, rules, p);
      if FreeTimed(measured, rules, p) {
        var l :| TimedLine(l, measured, rules, p.0, p.1) && l.days <= 0;
        OneTimedLine(l, lines[i], measured, rules, p);
      }
    }
  }

  lemma {:induction false} SameOrdered(a: seq<(nat, bool)>, b: seq<(nat, bool)>)
    requires Ordered(a) && Ordered(b) && forall p :: p in a <==> p in b
    ensures a == b
  {
    if |a| == 0 {
      FirstPlace(b);
    } else {
      assert a[|a| - 1] in a;
      var i :| 0 <= i < |b| && b[i] == a[|a| - 1];
      LastOfOrdered(a, b, i);
      var x, y := a[..|a| - 1], b[..|b| - 1];
      forall p ensures p in x <==> p in y {
        FrontOfOrdered(a, p);
        FrontOfOrdered(b, p);
      }
      SameOrdered(x, y);
      assert a == x + [a[|a| - 1]] && b == y + [b[|b| - 1]];
    }
  }

  lemma {:induction false} FirstPlace(b: seq<(nat, bool)>)
    ensures |b| > 0 ==> b[0] in b
  {
  }

  lemma {:induction false} LastOfOrdered(a: seq<(nat, bool)>, b: seq<(nat, bool)>, i: nat)
    requires Ordered(a) && Ordered(b) && |a| > 0 && (forall p :: p in b ==> p in a)
    requires i < |b| && b[i] == a[|a| - 1]
    ensures b[|b| - 1] == a[|a| - 1]
  {
    assert b[|b| - 1] in b;
    var k :| 0 <= k < |a| && a[k] == b[|b| - 1];
  }

  lemma {:induction false} FrontOfOrdered(a: seq<(nat, bool)>, p: (nat, bool))
    requires Ordered(a) && |a| > 0
    ensures p in a[..|a| - 1] <==> p in a && p != a[|a| - 1]
  {
    if p in a && p != a[|a| - 1] {
      var i :| 0 <= i < |a| && a[i] == p;
      assert a[..|a| - 1][i] == p;
    }
  }

  lemma {:induction false} OneTimed(a: seq<Line>, x: seq<(nat, bool)>, b: seq<Line>, y: seq<(nat, bool)>,
                                    measured: map<(RuleKey, int), int>, rules: seq<Rule>)
    requires TimedLinesHold(a, x, measured, rules) && TimedLinesHold(b, y, measured, rules)
    ensures a == b
  {
    forall p ensures p in x <==> p in y {
      PlacesCost(a, x, measured, rules, p);
      PlacesCost(b, y, measured, rules, p);
    }
    SameOrdered(x, y);
    forall i | 0 <= i < |a| ensures a[i] == b[i] {
      assert CostlyTimed(a[i], measured, rules, x[i]) && CostlyTimed(b[i], measured, rules, x[i]);
      OneTimedLine(a[i], b[i], measured, rules, x[i]);
    }
  }

  lemma {:induction false} CoveredIn(e: Entry<int>, ys: seq<Entry<int>>)
    requires e in ys
    ensures Covered(e, ys)
  {
    var j :| 0 <= j < |ys| && ys[j] == e;
  }

  /** Distinct charges with the same members have the same sum. */
  lemma {:induction false} SameSum(a: seq<Entry<int>>, b: seq<Entry<int>>)
    requires DistinctKeys(a) && DistinctKeys(b) && (forall e :: e in a <==> e in b)
    requires forall e :: e in a ==> e.amount >= 0
    ensures Summed(a) == Summed(b)
  {
    forall i | 0 <= i < |a| ensures a[i].amount >= 0 && Covered(a[i], b) {
      assert a[i] in a;
      CoveredIn(a[i], b);
    }
    forall i | 0 <= i < |b| ensures b[i].amount >= 0 && Covered(b[i], a) {
      assert b[i] in b;
      CoveredIn(b[i], a);
    }
    SameEntriesSameTotal(a, b);
    SummedIs(a);
    SummedIs(b);
  }

  lemma {:induction false} OneAbsences(a: seq<Entry<int>>, b: seq<Entry<int>>, rows: seq<Row>, cases: seq<Case>)
    requires AbsenceCharges(a, rows, cases) && AbsenceCharges(b, rows, cases)
    ensures Summed(a) == Summed(b) && forall e :: e in a <==> e in b
  {
    forall e ensures (e in a <==> e in b) && (e in a ==> e.amount >= 0) {
      if e in a || e in b {
        assert ChargesLoss(e, rows, cases);
        var i: nat :| FirstToLose(rows, cases, i) && e == LossOf(rows[i]);
      }
    }
    SameSum(a, b);
  }

  lemma {:induction false} OneRefusals(a: seq<Entry<int>>, x: seq<Entry<int>>, b: seq<Entry<int>>, y: seq<Entry<int>>,
                                       cases: seq<Case>)
    requires RefusalCharges(a, cases, cases, x) && RefusalCharges(b, cases, cases, y) && forall e :: e in x <==> e in y
    ensures Summed(a) == Summed(b)
  {
    forall d ensures RefusedDay(cases, cases, x, d) <==> RefusedDay(cases, cases, y, d) {
    }
    forall e ensures e in a <==> e in b {
      if e in a || e in b {
        assert e == Entry(e.key, 100) && RefusedDay(cases, cases, x, e.key);
      }
    }
    SameSum(a, b);
  }

  /** Two bills of one record come to the same total. */
  lemma {:induction false} BillsAgree(a: Bill, s: int, b: Bill, t: int, rows: seq<Row>, cases: seq<Case>,
                                      rules: seq<Rule>, config: Config)
    requires Billed(a, s, rows, cases, rules, config) && Billed(b, t, rows, cases, rules, config)
    ensures s == t
  {
    OneViolations(a.violations, b.violations, rows, cases, rules, config.absenceRecovery);
    OneCounted(a.counted, a.heads, b.counted, b.heads, a.violations, rules);
    OneTimed(a.timed, a.places, b.timed, b.places, a.violations.measured, rules);
    OneExtras(a, b, rows, cases, config);
  }

  lemma {:induction false} OneExtras(a: Bill, b: Bill, rows: seq<Row>, cases: seq<Case>, config: Config)
    requires Extras(a, rows, cases, config) && Extras(b, rows, cases, config)
    ensures Summed(a.absences) == Summed(b.absences) && Summed(a.refusals) == Summed(b.refusals)
  {
    if config.absenceRecovery {
      OneAbsences(a.absences, b.absences, rows, cases);
    }
    if config.basis == PooledFloorDirect {
      OneRefusals(a.refusals, a.absences, b.refusals, b.absences, cases);
    }
  }

  /** A number is the automatic total of a record that can be priced if and only if it is the total of a bill of it. */
  lemma {:induction false} TotalIffBilled(rows: seq<Row>, cases: seq<Case>, rules: seq<Rule>, config: Config,
                                          total: int)
    requires !TimeIsMissing(rows, cases, rules) && !Disputed(rules)
    ensures TotalOf(rows, cases, rules, config) == Ok(total)
            <==> exists b :: Billed(b, total, rows, cases, rules, config)
  {
    TotalThrowsIff(rows, cases, rules, config);
    var b := TotalIsBilled(rows, cases, rules, config);
    if c :| Billed(c, total, rows, cases, rules, config) {
      BillsAgree(b, TotalOf(rows, cases, rules, config).value, c, total, rows, cases, rules, config);
    }
  }

  /**
   With recovery on and no rules, a record costs the credit that the first such row of each day lost, and a whole day
   for every uncharged refused absence where the basis asks for it.
   */
  lemma {:induction false} LostCreditIsCharged(rows: seq<Row>, cases: seq<Case>, rules: seq<Rule>, config: Config)
      returns (absences: seq<Entry<int>>, refusals: seq<Entry<int>>)
    requires config.absenceRecovery && |rules| == 0
    ensures AbsenceCharges(absences, rows, cases)
    ensures config.basis == PooledFloorDirect ==> RefusalCharges(refusals, cases, cases, absences)
    ensures TotalOf(rows, cases, rules, config) == Ok(LossTotal(config.basis, Summed(absences), Summed(refusals)))
  {
    var b, total := BillWithoutRules(rows, cases, rules, config);
    absences, refusals := b.absences, b.refusals;
    BilledWithoutRules(b, total, rows, cases, rules, config);
  }

  /** What is lost besides the rules: pooled losses count in whole days. */
  ghost function LossTotal(basis: Basis, absences: int, refusals: int): int {
    match basis
    case PerRule => absences
    case PooledFloor => WholeDays(absences)
    case PooledFloorDirect => absences + refusals
  }

  lemma {:induction false} BillWithoutRules(rows: seq<Row>, cases: seq<Case>, rules: seq<Rule>, config: Config)
      returns (b: Bill, total: int)
    requires |rules| == 0
    ensures TotalOf(rows, cases, rules, config) == Ok(total) && Billed(b, total, rows, cases, rules, config)
  {
    NothingThrows(rows, cases, rules);
    TotalThrowsIff(rows, cases, rules, config);
    b := TotalIsBilled(rows, cases, rules, config);
    total := TotalOf(rows, cases, rules, config).value;
  }

  lemma {:induction false} NothingThrows(rows: seq<Row>, cases: seq<Case>, rules: seq<Rule>)
    requires |rules| == 0
    ensures !TimeIsMissing(rows, cases, rules) && !Disputed(rules)
  {
  }

  lemma {:induction false} BilledWithoutRules(b: Bill, total: int, rows: seq<Row>, cases: seq<Case>, rules: seq<Rule>,
                                              config: Config)
    requires Billed(b, total, rows, cases, rules, config) && config.absenceRecovery && |rules| == 0
    ensures total == LossTotal(config.basis, Summed(b.absences), Summed(b.refusals))
  {
    NoRulesNoLines(b, rules);
  }

  lemma {:induction false} NoRulesNoLines(b: Bill, rules: seq<Rule>)
    requires CountedLines(b.counted, b.heads, b.violations, rules) && |rules| == 0
    requires TimedLinesHold(b.timed, b.places, b.violations.measured, rules)
    ensures b.counted == [] && b.timed == []
  {
    CountedNeedRules(b.counted, b.heads, b.violations, rules);
    TimedNeedRules(b.timed, b.places, b.violations.measured, rules);
  }

  lemma {:induction false} CountedNeedRules(lines: seq<Line>, heads: seq<nat>, v: Counted, rules: seq<Rule>)
    requires CountedLines(lines, heads, v, rules)
    ensures |lines| > 0 ==> |rules| > 0
  {
    if |lines| > 0 {
      assert Heads(v, rules, heads[0]);
    }
  }

  lemma {:induction false} TimedNeedRules(lines: seq<Line>, places: seq<(nat, bool)>,
                                          measured: map<(RuleKey, int), int>, rules: seq<Rule>)
    requires TimedLinesHold(lines, places, measured, rules)
    ensures |lines| > 0 ==> |rules| > 0
  {
    if |lines| > 0 {
      assert CostlyTimed(lines[0], measured, rules, places[0]);
    }
  }
}
