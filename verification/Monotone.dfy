/** Adding whole days to a period never lowers its automatic deduction total. */
module Monotone {
  import opened Options
  import opened Arithmetic
  import opened Sums
  import opened Violations
  import opened Pricing
  import opened Attribution

  /** Amounts are between 0 and 31 days wherever rules are written. */
  ghost predicate Payable(rules: seq<Rule>) {
    forall r :: r in rules ==>
      r.deductionDays >= 0 && r.cap.GetOr(0) >= 0 && r.overThresholdDays.GetOr(0) >= 0
  }

  /**
   Rules that feed one counter agree on trigger, days and cap, and are all pooled or all not pooled
   under the chosen basis.
   */
  ghost predicate Coherent(rules: seq<Rule>, config: Config) {
    forall a, b :: a in rules && b in rules && Counts(a) && Counts(b) && CounterOf(a) == CounterOf(b) ==>
      && Trigger(a) == Trigger(b) && a.deductionDays == b.deductionDays && a.cap == b.cap
      && Pooled(config, a.key) == Pooled(config, b.key)
  }

  // ---------------------------------------------------------------- counted rules

  ghost function CounterDays(rules: seq<Rule>, v: Counted, counter: string): set<int> {
    if |rules| == 0 then {}
    else
      var r := rules[|rules| - 1];
      CounterDays(rules[..|rules| - 1], v, counter)
      + (if Counts(r) && CounterOf(r) == counter then DaysOf(v, r.key) else {})
  }

  /** Pools hold exactly the days of their counters, one pool for each counter that has any. */
  ghost predicate PoolsHold(pools: seq<Pool>, rules: seq<Rule>, v: Counted) {
    && (forall i, j :: 0 <= i < j < |pools| ==> pools[i].counter != pools[j].counter)
    && (forall i :: 0 <= i < |pools| ==> PoolHolds(pools[i], rules, v))
    && (forall c :: CounterDays(rules, v, c) != {} ==> PoolIndex(pools, c) < |pools|)
  }

  ghost predicate PoolHolds(p: Pool, rules: seq<Rule>, v: Counted) {
    p.rule in rules && Counts(p.rule) && CounterOf(p.rule) == p.counter && p.days == CounterDays(rules, v, p.counter)
  }

  lemma {:induction false} CounterDaysSnoc(rules: seq<Rule>, r: Rule, v: Counted, c: string)
    ensures CounterDays(rules + [r], v, c)
            == CounterDays(rules, v, c) + (if Counts(r) && CounterOf(r) == c then DaysOf(v, r.key) else {})
  {
    assert (rules + [r])[..|rules|] == rules;
  }

  lemma {:induction false} AddedPool(pools: seq<Pool>, rules: seq<Rule>, r: Rule, v: Counted, i: nat)
    requires PoolsHold(pools, rules, v) && Counts(r) && i < |AddToPool(pools, r, DaysOf(v, r.key))|
    ensures PoolHolds(AddToPool(pools, r, DaysOf(v, r.key))[i], rules + [r], v)
  {
    var out := AddToPool(pools, r, DaysOf(v, r.key));
    CounterDaysSnoc(rules, r, v, out[i].counter);
    assert PoolIndex(pools, CounterOf(r)) == |pools| ==> CounterDays(rules, v, CounterOf(r)) == {};
  }

  lemma {:induction false} AddedIndex(pools: seq<Pool>, rules: seq<Rule>, r: Rule, v: Counted, c: string)
    requires PoolsHold(pools, rules, v) && Counts(r) && CounterDays(rules + [r], v, c) != {}
    ensures var out := AddToPool(pools, r, DaysOf(v, r.key)); PoolIndex(out, c) < |out|
  {
    var out := AddToPool(pools, r, DaysOf(v, r.key));
    CounterDaysSnoc(rules, r, v, c);
    if c != CounterOf(r) {
      assert out[PoolIndex(pools, c)].counter == c;
    } else if DaysOf(v, r.key) != {} {
      assert out[PoolIndex(pools, c)].counter == c;
    }
  }

  lemma {:induction false} AddKeepsPools(pools: seq<Pool>, rules: seq<Rule>, r: Rule, v: Counted)
    requires PoolsHold(pools, rules, v) && Counts(r)
    ensures PoolsHold(AddToPool(pools, r, DaysOf(v, r.key)), rules + [r], v)
  {
    var out := AddToPool(pools, r, DaysOf(v, r.key));
    forall i | 0 <= i < |out| ensures PoolHolds(out[i], rules + [r], v) {
      AddedPool(pools, rules, r, v, i);
    }
    forall c | CounterDays(rules + [r], v, c) != {} ensures PoolIndex(out, c) < |out| {
      AddedIndex(pools, rules, r, v, c);
    }
  }

  lemma {:induction false} SkipKeepsPools(pools: seq<Pool>, rules: seq<Rule>, r: Rule, v: Counted)
    requires PoolsHold(pools, rules, v) && !Counts(r)
    ensures PoolsHold(pools, rules + [r], v)
  {
    forall c ensures CounterDays(rules + [r], v, c) == CounterDays(rules, v, c) {
      CounterDaysSnoc(rules, r, v, c);
    }
  }

  lemma {:induction false} PoolsOfHold(rules: seq<Rule>, v: Counted)
    ensures PoolsHold(PoolsOf(rules, v), rules, v)
  {
    if |rules| > 0 {
      var front, r := rules[..|rules| - 1], rules[|rules| - 1];
      assert rules == front + [r];
      PoolsOfHold(front, v);
      PoolsNext(PoolsOf(front, v), front, r, v);
    }
  }

  lemma {:induction false} PoolsNext(pools: seq<Pool>, rules: seq<Rule>, r: Rule, v: Counted)
    requires PoolsHold(pools, rules, v)
    ensures PoolsHold(if Counts(r) then AddToPool(pools, r, DaysOf(v, r.key)) else pools, rules + [r], v)
  {
    if Counts(r) {
      AddKeepsPools(pools, rules, r, v);
    } else {
      SkipKeepsPools(pools, rules, r, v);
    }
  }

  ghost predicate Within(v: Counted, w: Counted) {
    && v.seen <= w.seen
    && (forall x :: x in v.measured ==> x in w.measured && w.measured[x] == v.measured[x])
  }

  lemma {:induction false} CounterDaysGrow(rules: seq<Rule>, v: Counted, w: Counted, counter: string)
    requires Within(v, w)
    ensures CounterDays(rules, v, counter) <= CounterDays(rules, w, counter)
  {
    if |rules| > 0 {
      CounterDaysGrow(rules[..|rules| - 1], v, w, counter);
    }
  }

  // ---------------------------------------------------------------- one line

  lemma {:induction false} LineGrows(n: nat, m: nat, r: Rule)
    requires n <= m && r.deductionDays >= 0 && r.cap.GetOr(0) >= 0
    ensures var charged := (n / Trigger(r)) * r.deductionDays;
            var more := (m / Trigger(r)) * r.deductionDays;
            && 0 <= charged <= more
            && 0 <= RoundDiv(n * r.deductionDays, Trigger(r)) <= RoundDiv(m * r.deductionDays, Trigger(r))
  {
    var t, d := Trigger(r), r.deductionDays;
    DivGrows(n, m, t);
    DivGrows(0, n, t);
    MulGrows(0, n / t, d);
    MulGrows(n / t, m / t, d);
    MulGrows(0, n, d);
    MulGrows(n, m, d);
    DivGrows(2 * (n * d) + t, 2 * (m * d) + t, 2 * t);
    DivGrows(0, 2 * (n * d) + t, 2 * t);
  }

  // ---------------------------------------------------------------- buckets as keyed amounts

  function RawEntries(pools: seq<Pool>, config: Config): seq<Entry<string>> {
    seq(|pools|, i requires 0 <= i < |pools| => Entry(pools[i].counter, RawPart(config, PoolLine(pools[i]))))
  }

  function FixedEntries(pools: seq<Pool>, config: Config): seq<Entry<string>> {
    seq(|pools|, i requires 0 <= i < |pools| => Entry(pools[i].counter, FixedPart(config, PoolLine(pools[i]))))
  }

  lemma {:induction false} PoolLineNonNegative(p: Pool)
    requires p.rule.deductionDays >= 0 && p.rule.cap.GetOr(0) >= 0
    ensures PoolLine(p).raw >= 0 && PoolLine(p).days >= 0
  {
    LineGrows(|p.days|, |p.days|, p.rule);
  }

  /** A line that costs nothing may be left out. */
  lemma {:induction false} AddPoolLine(before: seq<Line>, line: Line, config: Config)
    requires line.raw >= 0 && line.days >= 0
    ensures var after := before + (if line.days > 0 || line.raw > 0 then [line] else []);
            && RawTotal(config, after) == RawTotal(config, before) + RawPart(config, line)
            && FixedTotal(config, after) == FixedTotal(config, before) + FixedPart(config, line)
  {
    TotalsSnoc(config, before, line);
    assert before + [] == before;
  }

  lemma {:induction false} EntriesAreLines(pools: seq<Pool>, config: Config)
    requires forall i :: 0 <= i < |pools| ==> pools[i].rule.deductionDays >= 0 && pools[i].rule.cap.GetOr(0) >= 0
    ensures Total(RawEntries(pools, config)) == RawTotal(config, PoolLines(pools))
    ensures Total(FixedEntries(pools, config)) == FixedTotal(config, PoolLines(pools))
  {
    if |pools| > 0 {
      var front, p := pools[..|pools| - 1], pools[|pools| - 1];
      EntriesAreLines(front, config);
      LastEntry(front, p, config);
      LastPoolLine(front, p, config);
      assert pools == front + [p];
    }
  }

  lemma {:induction false} LastPoolLine(front: seq<Pool>, p: Pool, config: Config)
    requires p.rule.deductionDays >= 0 && p.rule.cap.GetOr(0) >= 0
    ensures RawTotal(config, PoolLines(front + [p]))
            == RawTotal(config, PoolLines(front)) + RawPart(config, PoolLine(p))
    ensures FixedTotal(config, PoolLines(front + [p]))
            == FixedTotal(config, PoolLines(front)) + FixedPart(config, PoolLine(p))
  {
    assert (front + [p])[..|front|] == front;
    PoolLineNonNegative(p);
    AddPoolLine(PoolLines(front), PoolLine(p), config);
  }

  lemma {:induction false} LastEntry(front: seq<Pool>, p: Pool, config: Config)
    ensures Total(RawEntries(front + [p], config)) == Total(RawEntries(front, config)) + RawPart(config, PoolLine(p))
    ensures Total(FixedEntries(front + [p], config))
            == Total(FixedEntries(front, config)) + FixedPart(config, PoolLine(p))
  {
    var pools := front + [p];
    assert RawEntries(pools, config)[..|front|] == RawEntries(front, config);
    assert FixedEntries(pools, config)[..|front|] == FixedEntries(front, config);
  }

  lemma {:induction false} PoolCovered(rules: seq<Rule>, v: Counted, w: Counted, config: Config, i: nat)
    requires Payable(rules) && Coherent(rules, config) && Within(v, w)
    requires PoolsHold(PoolsOf(rules, v), rules, v) && PoolsHold(PoolsOf(rules, w), rules, w)
    requires i < |PoolsOf(rules, v)|
    ensures Covered(RawEntries(PoolsOf(rules, v), config)[i], RawEntries(PoolsOf(rules, w), config))
    ensures Covered(FixedEntries(PoolsOf(rules, v), config)[i], FixedEntries(PoolsOf(rules, w), config))
  {
    var few, many := PoolsOf(rules, v), PoolsOf(rules, w);
    var p := few[i];
    PoolDaysNonEmpty(rules, v, i);
    CounterDaysGrow(rules, v, w, p.counter);
    var j := PoolIndex(many, p.counter);
    var q := many[j];
    SubsetSize(p.days, q.days);
    LineGrows(|p.days|, |q.days|, p.rule);
    assert Trigger(p.rule) == Trigger(q.rule) && p.rule.deductionDays == q.rule.deductionDays
           && p.rule.cap == q.rule.cap;
    assert RawEntries(many, config)[j].key == p.counter;
    assert FixedEntries(many, config)[j].key == p.counter;
  }

  lemma {:induction false} SubsetSize<T>(a: set<T>, b: set<T>)
    requires a <= b
    ensures |a| <= |b|
  {
    assert |b| == |a| + |b - a| by {
      assert b == a + (b - a);
    }
  }

  lemma {:induction false} PoolDaysNonEmpty(rules: seq<Rule>, v: Counted, i: nat)
    requires i < |PoolsOf(rules, v)|
    ensures PoolsOf(rules, v)[i].days != {}
  {
    if |rules| > 0 {
      var front, r := rules[..|rules| - 1], rules[|rules| - 1];
      if i < |PoolsOf(front, v)| {
        PoolDaysNonEmpty(front, v, i);
      }
    }
  }

  ghost predicate Payables(pools: seq<Pool>) {
    && (forall i, j :: 0 <= i < j < |pools| ==> pools[i].counter != pools[j].counter)
    && (forall i :: 0 <= i < |pools| ==> PoolLine(pools[i]).raw >= 0 && PoolLine(pools[i]).days >= 0)
  }

  lemma {:induction false} PoolsArePayable(pools: seq<Pool>, rules: seq<Rule>, v: Counted)
    requires Payable(rules) && PoolsHold(pools, rules, v)
    ensures Payables(pools)
  {
    forall i | 0 <= i < |pools| ensures PoolLine(pools[i]).raw >= 0 && PoolLine(pools[i]).days >= 0 {
      assert PoolHolds(pools[i], rules, v);
      PoolLineNonNegative(pools[i]);
    }
  }

  lemma {:induction false} EntriesHold(pools: seq<Pool>, config: Config)
    requires Payables(pools)
    ensures DistinctKeys(RawEntries(pools, config)) && NonNegative(RawEntries(pools, config))
    ensures DistinctKeys(FixedEntries(pools, config)) && NonNegative(FixedEntries(pools, config))
  {
  }

  /** More violations never lower either bucket of the counted rules. */
  lemma {:induction false} PoolsGrow(rules: seq<Rule>, v: Counted, w: Counted, config: Config)
    requires Payable(rules) && Coherent(rules, config) && Within(v, w)
    ensures RawTotal(config, PoolLines(PoolsOf(rules, v))) <= RawTotal(config, PoolLines(PoolsOf(rules, w)))
    ensures FixedTotal(config, PoolLines(PoolsOf(rules, v))) <= FixedTotal(config, PoolLines(PoolsOf(rules, w)))
  {
    var few, many := PoolsOf(rules, v), PoolsOf(rules, w);
    PoolsOfHold(rules, v);
    PoolsOfHold(rules, w);
    forall i | 0 <= i < |few|
      ensures Covered(RawEntries(few, config)[i], RawEntries(many, config))
      ensures Covered(FixedEntries(few, config)[i], FixedEntries(many, config))
    {
      PoolCovered(rules, v, w, config, i);
    }
    PoolsArePayable(few, rules, v);
    PoolsArePayable(many, rules, w);
    EntriesHold(few, config);
    EntriesHold(many, config);
    DominatedTotal(RawEntries(few, config), RawEntries(many, config));
    DominatedTotal(FixedEntries(few, config), FixedEntries(many, config));
    EntriesAreLines(few, config);
    EntriesAreLines(many, config);
  }

  // ---------------------------------------------------------------- timed rules

  /** Bands of the same rules on fewer measurements: same counters, smaller sets. */
  ghost predicate BandsWithin(few: seq<Band>, many: seq<Band>) {
    && |few| == |many|
    && forall i :: 0 <= i < |few| ==>
         && few[i].counter == many[i].counter && few[i].rule == many[i].rule
         && few[i].short <= many[i].short && few[i].long <= many[i].long
  }

  lemma {:induction false} SameBandIndex(few: seq<Band>, many: seq<Band>, counter: string)
    requires BandsWithin(few, many)
    ensures BandIndex(few, counter) == BandIndex(many, counter)
  {
    if |few| > 0 {
      SameBandIndex(few[..|few| - 1], many[..|many| - 1], counter);
    }
  }

  lemma {:induction false} BandsGrow(rules: seq<Rule>, v: Counted, w: Counted)
    requires Within(v, w)
    ensures BandsOf(rules, v.measured).Thrown? <==> BandsOf(rules, w.measured).Thrown?
    ensures BandsOf(rules, v.measured).Ok? ==>
              BandsWithin(BandsOf(rules, v.measured).value, BandsOf(rules, w.measured).value)
  {
    if |rules| > 0 {
      var front, r := rules[..|rules| - 1], rules[|rules| - 1];
      BandsGrow(front, v, w);
      if IsTimingRule(r) && BandsOf(front, v.measured).Ok? {
        SameBandIndex(BandsOf(front, v.measured).value, BandsOf(front, w.measured).value, CounterOf(r));
        assert ShortOf(v.measured, r) <= ShortOf(w.measured, r);
        assert LongOf(v.measured, r) <= LongOf(w.measured, r);
      }
    }
  }

  lemma {:induction false} BandRulesPayable(rules: seq<Rule>, measured: map<(RuleKey, int), int>)
    requires Payable(rules) && BandsOf(rules, measured).Ok?
    ensures forall i :: 0 <= i < |BandsOf(rules, measured).value| ==> BandsOf(rules, measured).value[i].rule in rules
  {
    if |rules| > 0 {
      var front := rules[..|rules| - 1];
      assert rules == front + [rules[|rules| - 1]];
      BandRulesPayable(front, measured);
    }
  }

  /** A band charges long incidents first, then short ones, and stops at its cap. */
  lemma {:induction false} BandCharge(b: Band)
    requires b.rule.deductionDays >= 0 && b.rule.cap.GetOr(0) >= 0 && b.rule.overThresholdDays.GetOr(0) >= 0
    ensures LongCharge(b) >= 0 && ShortCharge(b) >= 0
    ensures LongCharge(b) + ShortCharge(b) ==
              Charge(|b.long| * b.rule.overThresholdDays.GetOr(0)
                + (|b.short| / Trigger(b.rule)) * b.rule.deductionDays,
                     b.rule.cap)
  {
    MulGrows(0, |b.long|, b.rule.overThresholdDays.GetOr(0));
    LineGrows(|b.short|, |b.short|, b.rule);
  }

  lemma {:induction false} BandGrows(a: Band, b: Band)
    requires a.rule == b.rule && a.short <= b.short && a.long <= b.long
    requires a.rule.deductionDays >= 0 && a.rule.cap.GetOr(0) >= 0 && a.rule.overThresholdDays.GetOr(0) >= 0
    ensures LongCharge(a) + ShortCharge(a) <= LongCharge(b) + ShortCharge(b)
  {
    BandCharge(a);
    BandCharge(b);
    SubsetSize(a.long, b.long);
    SubsetSize(a.short, b.short);
    MulGrows(|a.long|, |b.long|, a.rule.overThresholdDays.GetOr(0));
    LineGrows(|a.short|, |b.short|, a.rule);
  }

  lemma {:induction false} TotalsSnoc(config: Config, lines: seq<Line>, l: Line)
    ensures RawTotal(config, lines + [l]) == RawTotal(config, lines) + RawPart(config, l)
    ensures FixedTotal(config, lines + [l]) == FixedTotal(config, lines) + FixedPart(config, l)
  {
    assert (lines + [l])[..|lines|] == lines;
  }

  lemma {:induction false} ChargeTotals(config: Config, lines: seq<Line>, b: Band, n: nat, charged: int)
    requires charged >= 0
    ensures RawTotal(config, lines + ChargeLine(b, n, charged))
              == RawTotal(config, lines) + (if Pooled(config, b.rule.key) then charged else 0)
    ensures FixedTotal(config, lines + ChargeLine(b, n, charged))
              == FixedTotal(config, lines) + (if Pooled(config, b.rule.key) then 0 else charged)
  {
    if charged > 0 {
      TotalsSnoc(config, lines, Line(b.rule.key, n, charged, charged));
    } else {
      assert lines + [] == lines;
    }
  }

  lemma {:induction false} BandTotals(config: Config, bands: seq<Band>)
    requires |bands| > 0
    requires var r := bands[|bands| - 1].rule;
             r.deductionDays >= 0 && r.cap.GetOr(0) >= 0 && r.overThresholdDays.GetOr(0) >= 0
    ensures var b := bands[|bands| - 1];
            var charged := LongCharge(b) + ShortCharge(b);
            && RawTotal(config, BandLines(bands)) == RawTotal(config, BandLines(bands[..|bands| - 1]))
                 + (if Pooled(config, b.rule.key) then charged else 0)
            && FixedTotal(config, BandLines(bands)) == FixedTotal(config, BandLines(bands[..|bands| - 1]))
                 + (if Pooled(config, b.rule.key) then 0 else charged)
  {
    var b, before := bands[|bands| - 1], BandLines(bands[..|bands| - 1]);
    BandCharge(b);
    ChargeTotals(config, before, b, |b.long|, LongCharge(b));
    ChargeTotals(config, before + ChargeLine(b, |b.long|, LongCharge(b)), b, |b.short|, ShortCharge(b));
  }

  lemma {:induction false} BandLinesGrow(config: Config, few: seq<Band>, many: seq<Band>)
    requires BandsWithin(few, many)
    requires forall i :: 0 <= i < |few| ==>
               few[i].rule.deductionDays >= 0 && few[i].rule.cap.GetOr(0) >= 0
                 && few[i].rule.overThresholdDays.GetOr(0) >= 0
    ensures RawTotal(config, BandLines(few)) <= RawTotal(config, BandLines(many))
    ensures FixedTotal(config, BandLines(few)) <= FixedTotal(config, BandLines(many))
  {
    if |few| > 0 {
      var n := |few| - 1;
      BandLinesGrow(config, few[..n], many[..n]);
      BandTotals(config, few);
      BandTotals(config, many);
      BandGrows(few[n], many[n]);
    }
  }

  lemma {:induction false} TotalsSplit(config: Config, a: seq<Line>, b: seq<Line>)
    ensures RawTotal(config, a + b) == RawTotal(config, a) + RawTotal(config, b)
    ensures FixedTotal(config, a + b) == FixedTotal(config, a) + FixedTotal(config, b)
  {
    if |b| == 0 {
      assert a + b == a;
    } else {
      var n := |b| - 1;
      TotalsSplit(config, a, b[..n]);
      assert (a + b)[..|a + b| - 1] == a + b[..n];
    }
  }

  /** More violations never lower either bucket of the priced lines; pricing throws only for one that took no time. */
  lemma {:induction false} LinesGrow(rules: seq<Rule>, v: Counted, w: Counted, config: Config)
    requires Payable(rules) && Coherent(rules, config) && Within(v, w)
    ensures PricedLines(w, rules).Thrown? <==> PricedLines(v, rules).Thrown? || Untimed(rules, w.measured)
    ensures PricedLines(w, rules).Ok? ==>
              && RawTotal(config, PricedLines(v, rules).value) <= RawTotal(config, PricedLines(w, rules).value)
              && FixedTotal(config, PricedLines(v, rules).value) <= FixedTotal(config, PricedLines(w, rules).value)
  {
    BandsGrow(rules, v, w);
    UntimedGrows(rules, v, w);
    if PricedLines(w, rules).Ok? {
      var few, many := BandsOf(rules, v.measured).value, BandsOf(rules, w.measured).value;
      PoolsGrow(rules, v, w, config);
      BandRulesPayable(rules, v.measured);
      BandLinesGrow(config, few, many);
      TotalsSplit(config, PoolLines(PoolsOf(rules, v)), BandLines(few));
      TotalsSplit(config, PoolLines(PoolsOf(rules, w)), BandLines(many));
    }
  }

  lemma {:induction false} UntimedGrows(rules: seq<Rule>, v: Counted, w: Counted)
    requires Within(v, w)
    ensures Untimed(rules, v.measured) ==> Untimed(rules, w.measured)
  {
    if i :| 0 <= i < |rules| && IsTimingRule(rules[i]) && TakesNoTime(rules[i], v.measured) {
      assert TakesNoTime(rules[i], w.measured);
    }
  }

  lemma {:induction false} MeasuredTakesTime(rows: seq<Row>, cases: seq<Case>, k: RuleKey)
    requires Measured(rows, cases, k).Some?
    ensures Measured(rows, cases, k).value > 0
  {
    var r := rows[|rows| - 1];
    if !(Examined(r, cases, k) && Minutes(r, k).GetOr(0) > 0) {
      MeasuredTakesTime(rows[..|rows| - 1], cases, k);
    }
  }

  /** What a record measures always took time. */
  lemma {:induction false} MeasuredOfTakesTime(rows: seq<Row>, cases: seq<Case>, rules: seq<Rule>)
    ensures !Untimed(rules, MeasuredOf(rows, cases, rules))
  {
    var measured := MeasuredOf(rows, cases, rules);
    forall x | x in measured ensures measured[x] > 0 {
      MeasuredTakesTime(RowsOn(rows, x.1), CasesOn(cases, x.1), x.0);
    }
  }

  // ---------------------------------------------------------------- whole days

  /** Every day's file is either the same in both records or absent from the first. */
  ghost predicate DayWise(rows: seq<Row>, cases: seq<Case>, moreRows: seq<Row>, moreCases: seq<Case>) {
    forall d :: SameDay(rows, cases, moreRows, moreCases, d) || NoDay(rows, cases, d)
  }

  ghost predicate SameDay(rows: seq<Row>, cases: seq<Case>, moreRows: seq<Row>, moreCases: seq<Case>, d: int) {
    RowsOn(rows, d) == RowsOn(moreRows, d) && CasesOn(cases, d) == CasesOn(moreCases, d)
  }

  ghost predicate NoDay(rows: seq<Row>, cases: seq<Case>, d: int) {
    RowsOn(rows, d) == [] && CasesOn(cases, d) == []
  }

  lemma {:induction false} CountedGrows(rows: seq<Row>, cases: seq<Case>, moreRows: seq<Row>, moreCases: seq<Case>,
                                        rules: seq<Rule>, recovery: bool)
    requires DayWise(rows, cases, moreRows, moreCases)
    ensures Within(CountedOf(rows, cases, rules, recovery), CountedOf(moreRows, moreCases, rules, recovery))
  {
    forall x
      ensures x in SeenOf(rows, cases, rules, recovery) ==> x in SeenOf(moreRows, moreCases, rules, recovery)
      ensures x in MeasuredOf(rows, cases, rules) ==>
                && x in MeasuredOf(moreRows, moreCases, rules)
                && MeasuredOf(moreRows, moreCases, rules)[x] == MeasuredOf(rows, cases, rules)[x]
    {
      assert x == (x.0, x.1);
      CountedMembers(rows, cases, rules, recovery, x.0, x.1);
      CountedMembers(moreRows, moreCases, rules, recovery, x.0, x.1);
      assert SameDay(rows, cases, moreRows, moreCases, x.1) || NoDay(rows, cases, x.1);
    }
  }

  lemma {:induction false} UnmeasuredGrows(rows: seq<Row>, cases: seq<Case>, moreRows: seq<Row>, moreCases: seq<Case>,
                                           rules: seq<Rule>)
    requires DayWise(rows, cases, moreRows, moreCases)
    ensures Unmeasured(rows, cases, rules) ==> Unmeasured(moreRows, moreCases, rules)
  {
    if r :| r in rows && LacksEvidence(r, cases, TimingKeys(rules)) {
      RowsOnMembers(rows, r.date, r);
      assert SameDay(rows, cases, moreRows, moreCases, r.date) || NoDay(rows, cases, r.date);
      RowsOnMembers(moreRows, r.date, r);
      assert LacksEvidence(r, moreCases, TimingKeys(rules));
    }
  }

  /** The loss a day is charged for: that of its first row with any. */
  function FirstLoss(rows: seq<Row>, cases: seq<Case>): int {
    if |rows| == 0 then 0
    else
      var before := FirstLoss(rows[..|rows| - 1], cases);
      if before > 0 then before else Max(0, Lost(rows[|rows| - 1], cases))
  }

  ghost function DayLoss(rows: seq<Row>, cases: seq<Case>, d: int): int {
    FirstLoss(RowsOn(rows, d), CasesOn(cases, d))
  }

  ghost predicate HoldsLosses(entries: seq<Entry<int>>, rows: seq<Row>, cases: seq<Case>) {
    && DistinctKeys(entries)
    && (forall e :: e in entries ==> e.amount == DayLoss(rows, cases, e.key) > 0)
    && (forall d :: DayLoss(rows, cases, d) > 0 ==> Charged(entries, d))
  }

  lemma {:induction false} RowsOnSnoc(rows: seq<Row>, r: Row, d: int)
    ensures RowsOn(rows + [r], d) == if r.date == d then RowsOn(rows, d) + [r] else RowsOn(rows, d)
  {
    assert (rows + [r])[..|rows|] == rows;
  }

  lemma {:induction false} DayLossSnoc(rows: seq<Row>, r: Row, cases: seq<Case>, d: int)
    ensures DayLoss(rows + [r], cases, d) ==
              (if r.date != d || DayLoss(rows, cases, d) > 0 then DayLoss(rows, cases, d)
               else Max(0, Lost(r, CasesOn(cases, d))))
  {
    RowsOnSnoc(rows, r, d);
    var day := RowsOn(rows, d);
    assert (day + [r])[..|day|] == day;
  }

  lemma {:induction false} LossSkipped(before: seq<Entry<int>>, rows: seq<Row>, r: Row, cases: seq<Case>)
    requires HoldsLosses(before, rows, cases)
    requires Charged(before, r.date) || Lost(r, CasesOn(cases, r.date)) <= 0
    ensures HoldsLosses(before, rows + [r], cases)
  {
    forall d ensures DayLoss(rows + [r], cases, d) > 0 ==> DayLoss(rows + [r], cases, d) == DayLoss(rows, cases, d)
             ensures DayLoss(rows, cases, d) > 0 ==> DayLoss(rows + [r], cases, d) == DayLoss(rows, cases, d) {
      DayLossSnoc(rows, r, cases, d);
    }
  }

  lemma {:induction false} LossAdded(before: seq<Entry<int>>, rows: seq<Row>, r: Row, cases: seq<Case>, lost: int)
    requires HoldsLosses(before, rows, cases)
    requires !Charged(before, r.date) && lost == Lost(r, CasesOn(cases, r.date)) > 0
    ensures HoldsLosses(before + [Entry(r.date, lost)], rows + [r], cases)
  {
    var after := before + [Entry(r.date, lost)];
    assert after[|before|] == Entry(r.date, lost);
    DayLossSnoc(rows, r, cases, r.date);
    assert DayLoss(rows + [r], cases, r.date) == lost;
    forall d | d != r.date ensures DayLoss(rows + [r], cases, d) == DayLoss(rows, cases, d) {
      DayLossSnoc(rows, r, cases, d);
    }
    LossesAfter(before, Entry(r.date, lost), rows, rows + [r], cases);
  }

  lemma {:induction false} LossesAfter(before: seq<Entry<int>>, e: Entry<int>, rows: seq<Row>, more: seq<Row>,
                                       cases: seq<Case>)
    requires HoldsLosses(before, rows, cases) && !Charged(before, e.key)
    requires DayLoss(more, cases, e.key) == e.amount > 0
    requires forall d :: d != e.key ==> DayLoss(more, cases, d) == DayLoss(rows, cases, d)
    ensures HoldsLosses(before + [e], more, cases)
  {
    var after := before + [e];
    forall x | x in after ensures x.amount == DayLoss(more, cases, x.key) > 0 {
      assert x in before ==> x.key != e.key;
    }
    forall d | DayLoss(more, cases, d) > 0 ensures Charged(after, d) {
      if d == e.key {
        assert e in after;
      } else {
        var x :| x in before && x.key == d;
        assert x in after;
      }
    }
    forall i, j | 0 <= i < j < |after| ensures after[i].key != after[j].key {
      assert after[i] in before;
    }
  }

  lemma {:induction false} AbsenceEntriesHold(rows: seq<Row>, cases: seq<Case>)
    ensures HoldsLosses(AbsenceEntries(rows, cases), rows, cases)
  {
    if |rows| > 0 {
      var front := rows[..|rows| - 1];
      AbsenceEntriesHold(front, cases);
      var before, r := AbsenceEntries(front, cases), rows[|rows| - 1];
      assert rows == front + [r];
      if Charged(before, r.date) || Lost(r, CasesOn(cases, r.date)) <= 0 {
        LossSkipped(before, front, r, cases);
      } else {
        LossAdded(before, front, r, cases, Lost(r, CasesOn(cases, r.date)));
      }
    }
  }

  lemma {:induction false} AbsencesGrow(rows: seq<Row>, cases: seq<Case>, moreRows: seq<Row>, moreCases: seq<Case>)
    requires DayWise(rows, cases, moreRows, moreCases)
    ensures 0 <= Total(AbsenceEntries(rows, cases)) <= Total(AbsenceEntries(moreRows, moreCases))
  {
    var few, many := AbsenceEntries(rows, cases), AbsenceEntries(moreRows, moreCases);
    AbsenceEntriesHold(rows, cases);
    AbsenceEntriesHold(moreRows, moreCases);
    forall i | 0 <= i < |few| ensures Covered(few[i], many) {
      var e := few[i];
      assert e in few;
      assert SameDay(rows, cases, moreRows, moreCases, e.key) || NoDay(rows, cases, e.key);
      assert Charged(many, e.key);
      var f :| f in many && f.key == e.key;
    }
    TotalNonNegative(few);
    DominatedTotal(few, many);
  }

  ghost predicate Refused(cases: seq<Case>) {
    exists c :: c in cases && RefusedAbsence(c)
  }

  ghost predicate HoldsRefusals(entries: seq<Entry<int>>, scan: seq<Case>, cases: seq<Case>, absence: seq<Entry<int>>) {
    && DistinctKeys(entries)
    && (forall e :: e in entries ==> e.amount == 100)
    && (forall d :: Charged(entries, d) <==>
          Refused(CasesOn(scan, d)) && !Charged(absence, d) && !Excused(CasesOn(cases, d)))
  }

  lemma {:induction false} RefusedSnoc(scan: seq<Case>, c: Case, d: int)
    ensures Refused(CasesOn(scan + [c], d)) <==> Refused(CasesOn(scan, d)) || (c.date == d && RefusedAbsence(c))
  {
    assert (scan + [c])[..|scan|] == scan;
    var day := CasesOn(scan, d);
    if x :| x in day && RefusedAbsence(x) {
      assert x in day + [c];
    }
    assert c in day + [c];
  }

  lemma {:induction false} RefusedEntriesHold(scan: seq<Case>, cases: seq<Case>, absence: seq<Entry<int>>)
    ensures HoldsRefusals(RefusedEntries(scan, cases, absence), scan, cases, absence)
  {
    if |scan| > 0 {
      var front, c := scan[..|scan| - 1], scan[|scan| - 1];
      RefusedEntriesHold(front, cases, absence);
      assert scan == front + [c];
      var before, after := RefusedEntries(front, cases, absence), RefusedEntries(scan, cases, absence);
      forall d ensures Charged(after, d) <==>
                       Refused(CasesOn(scan, d)) && !Charged(absence, d) && !Excused(CasesOn(cases, d))
      {
        RefusedSnoc(front, c, d);
        if after != before {
          assert Charged(after, d) <==> Charged(before, d) || d == c.date by {
            assert Entry(c.date, 100) in after;
            if e :| e in before && e.key == d { assert e in after; }
          }
        }
      }
    }
  }

  /** The absence and refusal charges of one configuration. */
  lemma {:induction false} ChargesGrow(rows: seq<Row>, cases: seq<Case>, moreRows: seq<Row>, moreCases: seq<Case>,
                                       config: Config)
    requires DayWise(rows, cases, moreRows, moreCases)
    ensures 0 <= Total(AbsenceOf(rows, cases, config)) <= Total(AbsenceOf(moreRows, moreCases, config))
    ensures 0 <= Total(RefusedOf(rows, cases, config)) <= Total(RefusedOf(moreRows, moreCases, config))
  {
    AbsencesGrow(rows, cases, moreRows, moreCases);
    if config.basis == PooledFloorDirect {
      var a, b := AbsenceOf(rows, cases, config), AbsenceOf(moreRows, moreCases, config);
      var few, many := RefusedOf(rows, cases, config), RefusedOf(moreRows, moreCases, config);
      AbsenceEntriesHold(rows, cases);
      AbsenceEntriesHold(moreRows, moreCases);
      RefusedEntriesHold(cases, cases, a);
      RefusedEntriesHold(moreCases, moreCases, b);
      forall i | 0 <= i < |few| ensures Covered(few[i], many) {
        var d := few[i].key;
        assert few[i] in few;
        assert Charged(few, d);
        assert SameDay(rows, cases, moreRows, moreCases, d) || NoDay(rows, cases, d);
        SameCharge(rows, cases, moreRows, moreCases, config, d);
        var f :| f in many && f.key == d;
      }
      TotalNonNegative(few);
      DominatedTotal(few, many);
    }
  }

  lemma {:induction false} SameCharge(rows: seq<Row>, cases: seq<Case>, moreRows: seq<Row>, moreCases: seq<Case>,
                                      config: Config, d: int)
    requires SameDay(rows, cases, moreRows, moreCases, d)
    ensures Charged(AbsenceOf(rows, cases, config), d) <==> Charged(AbsenceOf(moreRows, moreCases, config), d)
  {
    AbsenceEntriesHold(rows, cases);
    AbsenceEntriesHold(moreRows, moreCases);
  }

  lemma {:induction false} ComposeGrows(config: Config, f: int, r: int, a: int, x: int, g: int, s: int, b: int, y: int)
    requires f <= g && r <= s && a <= b && x <= y
    ensures Compose(config, f, r, a, x) <= Compose(config, g, s, b, y)
  {
    DivGrows(r + a, s + b, 100);
    DivGrows(r, s, 100);
  }

  /** Prefix totals never drop: adding whole days never lowers the automatic total. */
  lemma {:induction false} TotalGrows(rows: seq<Row>, cases: seq<Case>, moreRows: seq<Row>, moreCases: seq<Case>,
                                      rules: seq<Rule>, config: Config)
    requires Payable(rules) && Coherent(rules, config)
    requires DayWise(rows, cases, moreRows, moreCases)
    requires TotalOf(moreRows, moreCases, rules, config).Ok?
    ensures TotalOf(rows, cases, rules, config).Ok?
    ensures TotalOf(rows, cases, rules, config).value <= TotalOf(moreRows, moreCases, rules, config).value
  {
    UnmeasuredGrows(rows, cases, moreRows, moreCases, rules);
    CountedGrows(rows, cases, moreRows, moreCases, rules, config.absenceRecovery);
    var v := CountedOf(rows, cases, rules, config.absenceRecovery);
    var w := CountedOf(moreRows, moreCases, rules, config.absenceRecovery);
    LinesGrow(rules, v, w, config);
    ChargesGrow(rows, cases, moreRows, moreCases, config);
    var few, many := PricedLines(v, rules).value, PricedLines(w, rules).value;
    ComposeGrows(config,
      FixedTotal(config, few), RawTotal(config, few), Total(AbsenceOf(rows, cases, config)),
      Total(RefusedOf(rows, cases, config)),
      FixedTotal(config, many), RawTotal(config, many), Total(AbsenceOf(moreRows, moreCases, config)),
      Total(RefusedOf(moreRows, moreCases, config)));
  }

  // ---------------------------------------------------------------- an empty period

  lemma {:induction false} NoPools(rules: seq<Rule>, v: Counted)
    requires v.seen == {} && v.measured == map[]
    ensures PoolsOf(rules, v) == []
  {
    if |rules| > 0 {
      NoPools(rules[..|rules| - 1], v);
      assert DaysOf(v, rules[|rules| - 1].key) == {};
    }
  }

  lemma {:induction false} EmptyBands(rules: seq<Rule>)
    requires BandsOf(rules, map[]).Ok?
    ensures forall i :: 0 <= i < |BandsOf(rules, map[]).value| ==>
              BandsOf(rules, map[]).value[i].short == {} && BandsOf(rules, map[]).value[i].long == {}
  {
    if |rules| > 0 {
      EmptyBands(rules[..|rules| - 1]);
      assert ShortOf(map[], rules[|rules| - 1]) == {} && LongOf(map[], rules[|rules| - 1]) == {};
    }
  }

  lemma {:induction false} EmptyBand(b: Band)
    requires b.short == {} && b.long == {} && b.rule.cap.GetOr(0) >= 0
    ensures ChargeLine(b, |b.long|, LongCharge(b)) + ChargeLine(b, |b.short|, ShortCharge(b)) == []
  {
  }

  lemma {:induction false} EmptyBandLines(bands: seq<Band>)
    requires forall i :: 0 <= i < |bands| ==>
               bands[i].short == {} && bands[i].long == {} && bands[i].rule.cap.GetOr(0) >= 0
    ensures BandLines(bands) == []
  {
    if |bands| > 0 {
      EmptyBandLines(bands[..|bands| - 1]);
      EmptyBand(bands[|bands| - 1]);
    }
  }

  /** An empty period costs nothing. */
  lemma {:induction false} EmptyTotal(rules: seq<Rule>, config: Config)
    requires Payable(rules) && TotalOf([], [], rules, config).Ok?
    ensures TotalOf([], [], rules, config).value == 0
  {
    var v := CountedOf([], [], rules, config.absenceRecovery);
    assert v.seen == {} && v.measured == map[];
    NoPools(rules, v);
    EmptyBands(rules);
    BandRulesPayable(rules, map[]);
    EmptyBandLines(BandsOf(rules, map[]).value);
    assert PricedLines(v, rules).value == [];
  }
}
