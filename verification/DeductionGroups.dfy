/**
 Which rule sets attribution can rely on (src/lib/attendanceSetup.js, 91-116). The validator compares
 rules of one named counter group; it does not look at how a basis pools them.
 */
module DeductionGroups {
  import opened Options
  import opened Violations
  import opened Pricing
  import opened Attribution
  import opened Monotone
  import opened Telescoping

  predicate Grouped(r: Rule) {
    r.enabled && r.counterGroup.Some? && r.counterGroup.value != ""
  }

  /** What the validator compares: the terms of a rule and its period. */
  predicate SameSignature(a: Rule, b: Rule) {
    SameTerms(a, b) && a.periodScope == b.periodScope
  }

  /** Enabled rules of one named group have the same terms. */
  ghost predicate GroupsAgree(rules: seq<Rule>) {
    forall a, b :: a in rules && b in rules && SharedGroup(a, b) ==> SameSignature(a, b)
  }

  predicate SharedGroup(a: Rule, b: Rule) {
    Grouped(a) && Grouped(b) && a.counterGroup == b.counterGroup
  }

  /** The groups agree exactly when no two enabled rules of a named group differ in one of six settings. */
  lemma {:induction false} AgreementIs(rules: seq<Rule>)
    ensures GroupsAgree(rules) <==>
            forall a, b :: a in rules && b in rules && a.enabled && b.enabled && a.counterGroup == b.counterGroup
                           && a.counterGroup.GetOr("") != "" ==>
              && a.triggerCount == b.triggerCount && a.deductionDays == b.deductionDays
              && a.periodScope == b.periodScope && a.cap == b.cap
              && a.durationThreshold == b.durationThreshold && a.overThresholdDays == b.overThresholdDays
  {
    if GroupsAgree(rules) {
      forall a, b | a in rules && b in rules && a.enabled && b.enabled && a.counterGroup == b.counterGroup
                    && a.counterGroup.GetOr("") != ""
        ensures SameSignature(a, b)
      {
        assert SharedGroup(a, b);
      }
    }
  }

  /** The source's loop: each grouped rule is compared with the latest one of its group. */
  method ValidateDeductionGroups(rules: seq<Rule>) returns (valid: bool)
    ensures valid <==> GroupsAgree(rules)
  {
    valid := true;
    var groups: map<string, Rule> := map[];
    for i := 0 to |rules|
      invariant forall g :: g in groups ==>
                  groups[g] in rules[..i] && Grouped(groups[g]) && groups[g].counterGroup == Some(g)
      invariant forall a :: a in rules[..i] && Grouped(a) ==> a.counterGroup.value in groups
      invariant valid ==> forall a :: a in rules[..i] && Grouped(a) ==> SameSignature(a, groups[a.counterGroup.value])
      invariant !valid ==> !GroupsAgree(rules[..i])
    {
      var r := rules[i];
      assert rules[..i + 1] == rules[..i] + [r];
      if Grouped(r) {
        var g := r.counterGroup.value;
        if g in groups && !SameSignature(groups[g], r) {
          assert SharedGroup(groups[g], r);
          valid := false;
        }
        groups := groups[g := r];
      }
    }
    assert rules[..|rules|] == rules;
  }

  /** No two enabled rules meet on a counter unless both name it as their group. */
  ghost predicate CountersAreGroups(rules: seq<Rule>) {
    forall i, j ::
      0 <= i < j < |rules| && Counts(rules[i]) && Counts(rules[j]) && CounterOf(rules[i]) == CounterOf(rules[j]) ==>
        Grouped(rules[i]) && Grouped(rules[j])
  }

  ghost predicate UniformPooling(rules: seq<Rule>, config: Config) {
    forall a, b :: a in rules && b in rules && Counts(a) && Counts(b) && CounterOf(a) == CounterOf(b) ==>
      Pooled(config, a.key) == Pooled(config, b.key)
  }

  /** Validated groups with uniform pooling are what attribution needs. */
  lemma {:induction false} ValidGroupsAreCoherent(rules: seq<Rule>, config: Config)
    requires GroupsAgree(rules)
    requires CountersAreGroups(rules) && UniformPooling(rules, config)
    ensures Coherent(rules, config)
  {
    forall a, b | a in rules && b in rules && Counts(a) && Counts(b) && CounterOf(a) == CounterOf(b)
      ensures Trigger(a) == Trigger(b) && a.deductionDays == b.deductionDays && a.cap == b.cap
    {
      var i :| 0 <= i < |rules| && rules[i] == a;
      var j :| 0 <= j < |rules| && rules[j] == b;
      if i != j {
        assert SharedGroup(a, b);
      }
    }
  }

  // ---------------------------------------------------------------- without uniform pooling it fails

  const LATE_RULE := Rule(LateKey, true, 2, 50, Some("TIMING"), None, None, None, None)
  const EARLY_RULE := Rule(EarlyCheckoutKey, true, 2, 50, Some("TIMING"), None, None, None, None)
  const DIRECT := Config(PooledFloorDirect, false)

  lemma {:induction false} TwoRulePools(v: Counted)
    ensures PoolsOf([LATE_RULE, EARLY_RULE], v)
              == AddToPool(AddToPool([], LATE_RULE, DaysOf(v, LateKey)), EARLY_RULE, DaysOf(v, EarlyCheckoutKey))
  {
    var rules := [LATE_RULE, EARLY_RULE];
    assert rules[..1] == [LATE_RULE] && rules[..1][..0] == [];
    assert PoolsOf([], v) == [];
    assert PoolsOf(rules[..1], v) == AddToPool([], LATE_RULE, DaysOf(v, LateKey));
  }

  lemma {:induction false} EarlyPools(v: Counted)
    requires DaysOf(v, LateKey) == {} && DaysOf(v, EarlyCheckoutKey) == {1, 2}
    ensures PoolsOf([LATE_RULE, EARLY_RULE], v) == [Pool("TIMING", EARLY_RULE, {1, 2})]
  {
    TwoRulePools(v);
  }

  lemma {:induction false} MixedPools(w: Counted)
    requires DaysOf(w, LateKey) == {3} && DaysOf(w, EarlyCheckoutKey) == {1, 2}
    ensures PoolsOf([LATE_RULE, EARLY_RULE], w) == [Pool("TIMING", LATE_RULE, {1, 2, 3})]
  {
    TwoRulePools(w);
    assert AddToPool([], LATE_RULE, {3}) == [Pool("TIMING", LATE_RULE, {3})];
    assert {3} + {1, 2} == {1, 2, 3};
  }

  lemma {:induction false} OnePoolOneLine(rules: seq<Rule>, v: Counted, p: Pool)
    requires rules == [LATE_RULE, EARLY_RULE] && PoolsOf(rules, v) == [p] && PoolLine(p).raw > 0
    ensures PricedLines(v, rules) == Ok([PoolLine(p)])
  {
    assert [p][..0] == [];
    assert PoolLines([]) == [];
    assert PoolLines([p]) == [PoolLine(p)];
    NoTimedRules(v.measured);
    assert BandLines([]) == [];
    assert [PoolLine(p)] + [] == [PoolLine(p)];
  }

  /** Two early departures cost half a day... */
  lemma {:induction false} EarlyOnly(v: Counted)
    requires DaysOf(v, LateKey) == {} && DaysOf(v, EarlyCheckoutKey) == {1, 2}
    ensures PricedLines(v, [LATE_RULE, EARLY_RULE]) == Ok([Line(EarlyCheckoutKey, 2, 50, 50)])
  {
    EarlyPools(v);
    EarlyLine(Pool("TIMING", EARLY_RULE, {1, 2}));
    OnePoolOneLine([LATE_RULE, EARLY_RULE], v, Pool("TIMING", EARLY_RULE, {1, 2}));
  }

  lemma {:induction false} EarlyLine(p: Pool)
    requires p == Pool("TIMING", EARLY_RULE, {1, 2})
    ensures PoolLine(p) == Line(EarlyCheckoutKey, 2, 50, 50)
  {
    assert |p.days| == 2;
  }

  /** ...and a late arrival on a third day moves the shared counter to the pooled bucket. */
  lemma {:induction false} EarlyThenLate(w: Counted)
    requires DaysOf(w, LateKey) == {3} && DaysOf(w, EarlyCheckoutKey) == {1, 2}
    ensures PricedLines(w, [LATE_RULE, EARLY_RULE]) == Ok([Line(LateKey, 3, 75, 50)])
  {
    MixedPools(w);
    MixedLine(Pool("TIMING", LATE_RULE, {1, 2, 3}));
    OnePoolOneLine([LATE_RULE, EARLY_RULE], w, Pool("TIMING", LATE_RULE, {1, 2, 3}));
  }

  lemma {:induction false} MixedLine(p: Pool)
    requires p == Pool("TIMING", LATE_RULE, {1, 2, 3})
    ensures PoolLine(p) == Line(LateKey, 3, 75, 50)
  {
    assert |p.days| == 3;
  }

  lemma {:induction false} NoTimedRules(measured: map<(RuleKey, int), int>)
    ensures TimedLines(measured, [LATE_RULE, EARLY_RULE]) == Ok([])
  {
    var rules := [LATE_RULE, EARLY_RULE];
    assert rules[..1] == [LATE_RULE] && rules[..1][..0] == [];
    assert BandsOf([], measured) == Ok([]);
    assert BandsOf(rules[..1], measured) == Ok([]);
  }

  lemma {:induction false} OneEarly(v: Counted)
    requires DaysOf(v, LateKey) == {} && DaysOf(v, EarlyCheckoutKey) == {1}
    ensures PricedLines(v, [LATE_RULE, EARLY_RULE]) == Ok([Line(EarlyCheckoutKey, 1, 25, 0)])
  {
    TwoRulePools(v);
    OnePoolOneLine([LATE_RULE, EARLY_RULE], v, Pool("TIMING", EARLY_RULE, {1}));
  }

  // A record of late rows and undecided early check-outs.

  predicate PlainRow(r: Row) { r == Row(r.date, Late, false, None, None, None) }

  predicate PlainCase(c: Case) { c == Case(c.date, EarlyCase, Pending, false, false) }

  ghost predicate Plain(rows: seq<Row>, cases: seq<Case>) {
    (forall r :: r in rows ==> PlainRow(r)) && (forall c :: c in cases ==> PlainCase(c))
  }

  lemma {:induction false} PlainDay(rows: seq<Row>, cases: seq<Case>, d: int)
    requires Plain(rows, cases)
    ensures Violates(RowsOn(rows, d), CasesOn(cases, d), {}, false, LateKey) <==> exists r :: r in rows && r.date == d
    ensures Violates(RowsOn(rows, d), CasesOn(cases, d), {}, false, EarlyCheckoutKey)
            <==> exists c :: c in cases && c.date == d
  {
    var dayRows, dayCases := RowsOn(rows, d), CasesOn(cases, d);
    forall r ensures r in dayRows <==> r in rows && r.date == d { RowsOnMembers(rows, d, r); }
    forall c ensures c in dayCases <==> c in cases && c.date == d { CasesOnMembers(cases, d, c); }
    assert !Excused(dayCases);
    assert forall r :: r in dayRows ==> !LosesCredit(r) && StatusRule(r.status) == Some(LateKey);
    if r :| r in rows && r.date == d { assert r in dayRows; }
    if c :| c in cases && c.date == d { assert c in dayCases && c.kind == EarlyCase; }
  }

  lemma {:induction false} NoTiming(rules: seq<Rule>)
    requires rules == [LATE_RULE, EARLY_RULE]
    ensures TimingKeys(rules) == {}
  {
  }

  /** The dates of the rows and of the cases. */
  ghost predicate OnDates(rows: seq<Row>, cases: seq<Case>, late: set<int>, early: set<int>) {
    (forall d :: d in late <==> exists r :: r in rows && r.date == d)
      && (forall d :: d in early <==> exists c :: c in cases && c.date == d)
  }

  lemma {:induction false} PlainDays(rows: seq<Row>, cases: seq<Case>, rules: seq<Rule>, late: set<int>,
                                     early: set<int>)
    requires Plain(rows, cases) && rules == [LATE_RULE, EARLY_RULE] && OnDates(rows, cases, late, early)
    ensures DaysOf(CountedOf(rows, cases, rules, false), LateKey) == late
    ensures DaysOf(CountedOf(rows, cases, rules, false), EarlyCheckoutKey) == early
  {
    NoTiming(rules);
    var v := CountedOf(rows, cases, rules, false);
    forall d ensures (LateKey, d) in v.seen <==> d in late {
      PlainDay(rows, cases, d);
      CountedMembers(rows, cases, rules, false, LateKey, d);
    }
    forall d ensures (EarlyCheckoutKey, d) in v.seen <==> d in early {
      PlainDay(rows, cases, d);
      CountedMembers(rows, cases, rules, false, EarlyCheckoutKey, d);
    }
    SeenDays(v, LateKey, late);
    SeenDays(v, EarlyCheckoutKey, early);
  }

  lemma {:induction false} SeenDays(v: Counted, k: RuleKey, days: set<int>)
    requires v.measured == map[] && forall d :: (k, d) in v.seen <==> d in days
    ensures DaysOf(v, k) == days
  {
    forall d ensures d in DaysOf(v, k) <==> d in days {
      if d in days { assert (k, d) in v.seen; }
      if d in DaysOf(v, k) {
        var x :| x in v.seen && x.0 == k && x.1 == d;
        assert x == (k, d);
      }
    }
  }

  lemma {:induction false} NoRefusals(scan: seq<Case>, cases: seq<Case>)
    requires forall c :: c in scan ==> PlainCase(c)
    ensures RefusedEntries(scan, cases, []) == []
  {
    if |scan| > 0 {
      assert scan[|scan| - 1] in scan;
      NoRefusals(scan[..|scan| - 1], cases);
    }
  }

  lemma {:induction false} PlainTotal(rows: seq<Row>, cases: seq<Case>, rules: seq<Rule>, line: Line)
    requires Plain(rows, cases) && rules == [LATE_RULE, EARLY_RULE]
    requires PricedLines(CountedOf(rows, cases, rules, false), rules) == Ok([line])
    ensures TotalOf(rows, cases, rules, DIRECT)
            == Ok(Compose(DIRECT, FixedPart(DIRECT, line), RawPart(DIRECT, line), 0, 0))
  {
    NoTiming(rules);
    NoRefusals(cases, cases);
    TotalOfOne(DIRECT, line);
  }

  lemma {:induction false} TotalOfOne(config: Config, l: Line)
    ensures FixedTotal(config, [l]) == FixedPart(config, l) && RawTotal(config, [l]) == RawPart(config, l)
  {
    var lines := [l];
    assert lines[..|lines| - 1] == [];
  }

  lemma {:induction false} LineCost(line: Line, cost: int)
    requires (line, cost) in {
               (Line(EarlyCheckoutKey, 1, 25, 0), 0), (Line(EarlyCheckoutKey, 2, 50, 50), 50),
               (Line(LateKey, 3, 75, 50), 0)
             }
    ensures Compose(DIRECT, FixedPart(DIRECT, line), RawPart(DIRECT, line), 0, 0) == cost
  {
  }

  // What such a record costs by its first, second and third day.

  lemma {:induction false} FirstDay(rows: seq<Row>, cases: seq<Case>, rules: seq<Rule>)
    requires Plain(rows, cases) && rules == [LATE_RULE, EARLY_RULE] && OnDates(rows, cases, {}, {1})
    ensures TotalOf(rows, cases, rules, DIRECT) == Ok(0)
  {
    PlainDays(rows, cases, rules, {}, {1});
    OneEarly(CountedOf(rows, cases, rules, false));
    LineCost(Line(EarlyCheckoutKey, 1, 25, 0), 0);
    PlainTotal(rows, cases, rules, Line(EarlyCheckoutKey, 1, 25, 0));
  }

  lemma {:induction false} SecondDay(rows: seq<Row>, cases: seq<Case>, rules: seq<Rule>)
    requires Plain(rows, cases) && rules == [LATE_RULE, EARLY_RULE] && OnDates(rows, cases, {}, {1, 2})
    ensures TotalOf(rows, cases, rules, DIRECT) == Ok(50)
  {
    PlainDays(rows, cases, rules, {}, {1, 2});
    EarlyOnly(CountedOf(rows, cases, rules, false));
    LineCost(Line(EarlyCheckoutKey, 2, 50, 50), 50);
    PlainTotal(rows, cases, rules, Line(EarlyCheckoutKey, 2, 50, 50));
  }

  lemma {:induction false} ThirdDay(rows: seq<Row>, cases: seq<Case>, rules: seq<Rule>)
    requires Plain(rows, cases) && rules == [LATE_RULE, EARLY_RULE] && OnDates(rows, cases, {3}, {1, 2})
    ensures TotalOf(rows, cases, rules, DIRECT) == Ok(0)
  {
    PlainDays(rows, cases, rules, {3}, {1, 2});
    EarlyThenLate(CountedOf(rows, cases, rules, false));
    LineCost(Line(LateKey, 3, 75, 50), 0);
    PlainTotal(rows, cases, rules, Line(LateKey, 3, 75, 50));
  }

  // ---------------------------------------------------------------- the failing record

  const LATE_DAY := Row(3, Late, false, None, None, None)
  const EARLY_ONE := Anomaly(Some(1), Some(1), EarlyCase, Pending, None, false)
  const EARLY_TWO := Anomaly(Some(2), Some(2), EarlyCase, Pending, None, false)

  lemma {:induction false} RecordPrefixes(rows: seq<Row>, anomalies: seq<Anomaly>)
    requires rows == [LATE_DAY] && anomalies == [EARLY_ONE, EARLY_TWO]
    ensures RowsUpTo(rows, 1, {}) == [] && RowsUpTo(rows, 2, {}) == [] && RowsUpTo(rows, 3, {}) == rows
    ensures CasesUpTo(anomalies, 1, {}) == [CaseOf(EARLY_ONE)]
    ensures CasesUpTo(anomalies, 2, {}) == [CaseOf(EARLY_ONE), CaseOf(EARLY_TWO)] == CasesUpTo(anomalies, 3, {})
  {
    forall t ensures RowsUpTo(rows, t, {}) == if t >= 3 then rows else [] {
      OneRow(rows, t);
    }
    forall t ensures CasesUpTo(anomalies[..1], t, {}) == if t >= 1 then [CaseOf(EARLY_ONE)] else [] {
      OneCase(anomalies[..1], EARLY_ONE, t);
    }
  }

  lemma {:induction false} OneRow(rows: seq<Row>, t: int)
    requires rows == [LATE_DAY]
    ensures RowsUpTo(rows, t, {}) == if t >= 3 then rows else []
  {
    assert rows[..0] == [];
  }

  lemma {:induction false} OneCase(anomalies: seq<Anomaly>, a: Anomaly, t: int)
    requires anomalies == [a] && a.date.Some?
    ensures CasesUpTo(anomalies, t, {}) == if t >= a.date.value then [CaseOf(a)] else []
  {
    assert anomalies[..0] == [];
  }

  lemma {:induction false} RecordShape(rows: seq<Row>, anomalies: seq<Anomaly>)
    requires rows == [LATE_DAY] && anomalies == [EARLY_ONE, EARLY_TWO]
    ensures RecordDates(rows, anomalies) == [1, 2, 3] && EndsOnThree(rows, anomalies)
  {
    OneRowDate(rows);
    NextDate(rows, [], EARLY_ONE);
    NextDate(rows, [EARLY_ONE], EARLY_TWO);
    InsertedDates([3], [1, 3]);
    assert anomalies == [EARLY_ONE] + [EARLY_TWO] && [EARLY_ONE] == [] + [EARLY_ONE];
  }

  lemma {:induction false} OneRowDate(rows: seq<Row>)
    requires rows == [LATE_DAY]
    ensures RecordDates(rows, []) == [3]
  {
    assert rows[..0] == [] && RowDates([]) == [];
  }

  lemma {:induction false} NextDate(rows: seq<Row>, front: seq<Anomaly>, a: Anomaly)
    requires a.date.Some?
    ensures RecordDates(rows, front + [a]) == InsertDate(RecordDates(rows, front), a.date.value)
  {
    assert (front + [a])[..|front|] == front;
  }

  lemma {:induction false} InsertedDates(one: seq<int>, two: seq<int>)
    requires one == [3] && two == [1, 3]
    ensures InsertDate(one, 1) == [1, 3] && InsertDate(two, 2) == [1, 2, 3]
  {
    assert one[..0] == [] && two[..1] == [1];
    assert InsertDate([], 1) == [1] && InsertDate([1], 2) == [1, 2];
  }

  /** Nothing is marked and nothing is dated after the third day. */
  ghost predicate EndsOnThree(rows: seq<Row>, anomalies: seq<Anomaly>) {
    && (forall r :: r in rows ==> r.date <= 3)
    && (forall a :: a in anomalies ==> a.manual.None? && (a.date.Some? ==> a.date.value <= 3))
  }

  lemma {:induction false} RecordDays(rows: seq<Row>, one: seq<Case>, two: seq<Case>)
    requires rows == [LATE_DAY] && one == [CaseOf(EARLY_ONE)] && two == [CaseOf(EARLY_ONE), CaseOf(EARLY_TWO)]
    ensures Plain(rows, two) && Plain([], two) && Plain([], one)
    ensures OnDates([], one, {}, {1}) && OnDates([], two, {}, {1, 2}) && OnDates(rows, two, {3}, {1, 2})
  {
    assert LATE_DAY in rows && CaseOf(EARLY_ONE) in one && CaseOf(EARLY_ONE) in two && CaseOf(EARLY_TWO) in two;
  }

  lemma {:induction false} RecordTotals(rows: seq<Row>, anomalies: seq<Anomaly>, rules: seq<Rule>)
    requires rows == [LATE_DAY] && anomalies == [EARLY_ONE, EARLY_TWO] && rules == [LATE_RULE, EARLY_RULE]
    ensures PrefixTotal(rows, anomalies, 1, {}, rules, DIRECT) == Ok(0)
    ensures PrefixTotal(rows, anomalies, 2, {}, rules, DIRECT) == Ok(50)
    ensures PrefixTotal(rows, anomalies, 3, {}, rules, DIRECT) == Ok(0)
  {
    RecordPrefixes(rows, anomalies);
    var one, two := [CaseOf(EARLY_ONE)], [CaseOf(EARLY_ONE), CaseOf(EARLY_TWO)];
    RecordDays(rows, one, two);
    FirstDay([], one, rules);
    SecondDay([], two, rules);
    ThirdDay(rows, two, rules);
  }

  /**
   The validator accepts a group that mixes pooled and unpooled rules. With two early check-outs and a late arrival
   after them the lines then sum to half a day while the record costs nothing.
   */
  lemma {:induction false} MixedPoolingDrops(rows: seq<Row>, anomalies: seq<Anomaly>, rules: seq<Rule>,
                                             lines: seq<DateLine>)
    requires rows == [LATE_DAY] && anomalies == [EARLY_ONE, EARLY_TWO] && rules == [LATE_RULE, EARLY_RULE]
    requires Combines(Ok(lines), rows, anomalies, rules, DIRECT)
    ensures GroupsAgree(rules) && Payable(rules)
    ensures DaysTotal(lines) == 50
    ensures TotalOf(UnmarkedRows(rows, {}), UnmarkedCases(anomalies, {}), rules, DIRECT) == Ok(0)
    ensures !SumsUp(lines, rows, anomalies, rules, DIRECT)
  {
    RecordShape(rows, anomalies);
    RecordTotals(rows, anomalies, rules);
    MixedGroupIsValid(rules);
    MixedRecord(rows, anomalies, rules, lines);
  }

  lemma {:induction false} MixedRecord(rows: seq<Row>, anomalies: seq<Anomaly>, rules: seq<Rule>, lines: seq<DateLine>)
    requires Combines(Ok(lines), rows, anomalies, rules, DIRECT) && Payable(rules)
    requires RecordDates(rows, anomalies) == [1, 2, 3] && EndsOnThree(rows, anomalies)
    requires PrefixTotal(rows, anomalies, 1, {}, rules, DIRECT) == Ok(0)
    requires PrefixTotal(rows, anomalies, 2, {}, rules, DIRECT) == Ok(50)
    requires PrefixTotal(rows, anomalies, 3, {}, rules, DIRECT) == Ok(0)
    ensures DaysTotal(lines) == 50 && !SumsUp(lines, rows, anomalies, rules, DIRECT)
    ensures TotalOf(UnmarkedRows(rows, {}), UnmarkedCases(anomalies, {}), rules, DIRECT) == Ok(0)
  {
    var marks :| MarksOf(marks, anomalies)
                 && AttributesDates(Ok(lines), RecordDates(rows, anomalies), rows, anomalies, marks, rules, DIRECT);
    NothingMarked(marks, anomalies);
    MixedLines(lines, marks, rows, anomalies, rules);
    NotSummedUp(lines, marks, rows, anomalies, rules);
    WholeRecord(rows, anomalies, rules);
  }

  lemma {:induction false} WholeRecord(rows: seq<Row>, anomalies: seq<Anomaly>, rules: seq<Rule>)
    requires (forall r :: r in rows ==> r.date <= 3)
             && (forall a :: a in anomalies && a.date.Some? ==> a.date.value <= 3)
    ensures TotalOf(UnmarkedRows(rows, {}), UnmarkedCases(anomalies, {}), rules, DIRECT)
            == PrefixTotal(rows, anomalies, 3, {}, rules, DIRECT)
  {
    WholeRows(rows, 3, {});
    WholeCases(anomalies, 3, {});
  }

  lemma {:induction false} MixedGroupIsValid(rules: seq<Rule>)
    requires rules == [LATE_RULE, EARLY_RULE]
    ensures GroupsAgree(rules) && Payable(rules)
  {
  }

  lemma {:induction false} NotSummedUp(lines: seq<DateLine>, marks: map<int, int>, rows: seq<Row>,
                                       anomalies: seq<Anomaly>, rules: seq<Rule>)
    requires Payable(rules) && |RecordDates(rows, anomalies)| > 0 && MarksOf(marks, anomalies)
    requires AttributesDates(Ok(lines), RecordDates(rows, anomalies), rows, anomalies, marks, rules, DIRECT)
    requires !NeverDrops(rows, anomalies, marks, rules, DIRECT)
    ensures !SumsUp(lines, rows, anomalies, rules, DIRECT)
  {
    LinesSumUpIff(lines, marks, rows, anomalies, rules, DIRECT);
    OneMarking(lines, marks, rows, anomalies, rules, DIRECT);
  }

  lemma {:induction false} SomeMark(marks: map<int, int>, anomalies: seq<Anomaly>, d: int)
    requires HighestMarks(marks, anomalies) && d in marks
    ensures exists a :: a in anomalies && a.manual.Some?
  {
    var i :| 0 <= i < |anomalies| && MarksDate(anomalies, i, d) && anomalies[i].manual == Some(marks[d]);
    assert anomalies[i] in anomalies;
  }

  lemma {:induction false} NothingMarked(marks: map<int, int>, anomalies: seq<Anomaly>)
    requires HighestMarks(marks, anomalies) && forall a :: a in anomalies ==> a.manual.None?
    ensures marks == map[]
  {
    forall d ensures d !in marks {
      if d in marks {
        SomeMark(marks, anomalies, d);
      }
    }
  }

  lemma {:induction false} MixedLines(lines: seq<DateLine>, marks: map<int, int>, rows: seq<Row>,
                                      anomalies: seq<Anomaly>, rules: seq<Rule>)
    requires RecordDates(rows, anomalies) == [1, 2, 3] && marks == map[] && marks.Keys == {}
    requires PrefixTotal(rows, anomalies, 1, {}, rules, DIRECT) == Ok(0)
    requires PrefixTotal(rows, anomalies, 2, {}, rules, DIRECT) == Ok(50)
    requires PrefixTotal(rows, anomalies, 3, {}, rules, DIRECT) == Ok(0)
    requires AttributesDates(Ok(lines), RecordDates(rows, anomalies), rows, anomalies, marks, rules, DIRECT)
    ensures DaysTotal(lines) == 50 && !NeverDrops(rows, anomalies, marks, rules, DIRECT)
  {
    var dates := RecordDates(rows, anomalies);
    var totals :| PrefixTotals(totals, dates, rows, anomalies, marks.Keys, rules, DIRECT)
                  && lines == LinesFor(dates, totals, marks, |totals|);
    MixedTotals(totals, dates, rows, anomalies, {}, rules, DIRECT);
    RiseAndFall(totals, dates, marks);
    GrowthIsDetermined(totals, marks, rows, anomalies, rules, DIRECT);
  }

  lemma {:induction false} MixedTotals(totals: seq<int>, dates: seq<int>, rows: seq<Row>, anomalies: seq<Anomaly>,
                                       marked: set<int>, rules: seq<Rule>, config: Config)
    requires |dates| == 3 && PrefixTotals(totals, dates, rows, anomalies, marked, rules, config)
    requires PrefixTotal(rows, anomalies, dates[0], marked, rules, config) == Ok(0)
    requires PrefixTotal(rows, anomalies, dates[1], marked, rules, config) == Ok(50)
    requires PrefixTotal(rows, anomalies, dates[2], marked, rules, config) == Ok(0)
    ensures totals == [0, 50, 0]
  {
    TotalAt(totals, dates, rows, anomalies, marked, rules, config, 0);
    TotalAt(totals, dates, rows, anomalies, marked, rules, config, 1);
    TotalAt(totals, dates, rows, anomalies, marked, rules, config, 2);
  }

  lemma {:induction false} TotalAt(totals: seq<int>, dates: seq<int>, rows: seq<Row>, anomalies: seq<Anomaly>,
                                   marked: set<int>, rules: seq<Rule>, config: Config, i: nat)
    requires PrefixTotals(totals, dates, rows, anomalies, marked, rules, config) && i < |dates|
    ensures PrefixTotal(rows, anomalies, dates[i], marked, rules, config) == Ok(totals[i])
  {
  }

  lemma {:induction false} RiseAndFall(totals: seq<int>, dates: seq<int>, marks: map<int, int>)
    requires totals == [0, 50, 0] && |dates| == 3 && marks == map[]
    ensures DaysTotal(LinesFor(dates, totals, marks, |totals|)) == 50 && !Grow(totals)
  {
    Telescope(dates, totals, marks, 3);
    assert Drops(totals, 1) == 0 && Drops(totals, 2) == 0 && Drops(totals, 3) == 50;
    assert MarksTotal(dates, marks, 1) == 0 && MarksTotal(dates, marks, 2) == 0 && MarksTotal(dates, marks, 3) == 0;
    assert Prior(totals, 2) == 50 && totals[2] == 0;
  }
}
