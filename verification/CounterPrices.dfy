/**
 What given violations cost under given rules, said of the rules rather than of the pools that are built from them
 (src/lib/attendanceDeduction.js, 168-225, and src/lib/attendanceTimingPolicy.js, 35-56).
 */
module CounterPrices {
  import opened Options
  import opened Arithmetic
  import opened Violations
  import opened Pricing
  import opened Monotone

  // ---------------------------------------------------------------- rules and their counters

  /** The rule prices its days by their length. */
  ghost predicate Timed(r: Rule) {
    r.enabled && (r.key == LateKey || r.key == EarlyCheckoutKey) && r.durationThreshold.Some?
      && r.overThresholdDays.Some?
  }

  /** The rule counts its days. */
  ghost predicate Plain(r: Rule) { r.enabled && !Timed(r) }

  /** Rules with the same group share a counter; a rule without one counts by itself. */
  ghost function Counter(r: Rule): string {
    if r.counterGroup != None && r.counterGroup != Some("") then r.counterGroup.value
    else match r.key
         case LateKey => "LATE"
         case EarlyCheckoutKey => "EARLY_CHECKOUT"
         case MissingCheckinKey => "MISSING_CHECKIN"
         case MissingCheckoutKey => "MISSING_CHECKOUT"
         case DisapprovedLeaveKey => "DISAPPROVED_LEAVE"
  }

  ghost predicate Violated(v: Counted, k: RuleKey, d: int) { (k, d) in v.seen || (k, d) in v.measured }

  /** The rule has a violation to count. */
  ghost predicate Feeds(v: Counted, r: Rule) { Plain(r) && exists d :: Violated(v, r.key, d) }

  /** The first rule of its counter that has one. */
  ghost predicate Heads(v: Counted, rules: seq<Rule>, j: nat) {
    && j < |rules| && Feeds(v, rules[j])
    && forall i :: 0 <= i < j && Feeds(v, rules[i]) ==> Counter(rules[i]) != Counter(rules[j])
  }

  /** The day has a violation of some rule of the counter. */
  ghost predicate OnCounter(v: Counted, rules: seq<Rule>, counter: string, d: int) {
    exists r :: r in rules && Plain(r) && Counter(r) == counter && Violated(v, r.key, d)
  }

  /**
   Every whole `trigger` of the days costs the rule's days, up to its cap; the raw value is the days' share of a
   trigger to the nearest hundredth, halves up, without floor or cap.
   */
  ghost predicate Prices(l: Line, r: Rule) {
    var n, t := l.occurrences, if r.triggerCount > 1 then r.triggerCount else 1;
    var whole := (n / t) * r.deductionDays;
    && l.days == (if r.cap.Some? && r.cap.value < whole then r.cap.value else whole)
    && 2 * (n * r.deductionDays) - t < 2 * t * l.raw <= 2 * (n * r.deductionDays) + t
  }

  /** The line of the counter that the rule heads: its distinct days, priced by that rule. */
  ghost predicate CountedLine(l: Line, v: Counted, rules: seq<Rule>, j: nat)
    requires j < |rules|
  {
    && l.key == rules[j].key && Prices(l, rules[j])
    && exists days: set<int> :: HoldsCounter(days, v, rules, Counter(rules[j])) && l.occurrences == |days|
  }

  /** The days of the counter. */
  ghost predicate HoldsCounter(days: set<int>, v: Counted, rules: seq<Rule>, counter: string) {
    forall d :: d in days <==> OnCounter(v, rules, counter, d)
  }

  /** One line for each counter with a cost, in the order of the rules that head them. */
  ghost predicate CountedLines(lines: seq<Line>, heads: seq<nat>, v: Counted, rules: seq<Rule>) {
    && |lines| == |heads|
    && (forall i, j :: 0 <= i < j < |heads| ==> heads[i] < heads[j])
    && (forall i :: 0 <= i < |heads| ==> Heads(v, rules, heads[i]) && CostlyLine(lines[i], v, rules, heads[i]))
    && (forall j :: Heads(v, rules, j) ==> j in heads || CostsNothing(v, rules, j))
  }

  ghost predicate CostlyLine(l: Line, v: Counted, rules: seq<Rule>, j: nat) {
    j < |rules| && CountedLine(l, v, rules, j) && (l.days > 0 || l.raw > 0)
  }

  ghost predicate CostsNothing(v: Counted, rules: seq<Rule>, j: nat)
    requires j < |rules|
  {
    exists l :: CountedLine(l, v, rules, j) && l.days <= 0 && l.raw <= 0
  }

  lemma {:induction false} RuleIs(r: Rule)
    ensures IsTimingRule(r) <==> Timed(r)
    ensures Counts(r) <==> Plain(r)
    ensures CounterOf(r) == Counter(r)
  {
  }

  lemma {:induction false} DaysAre(v: Counted, r: Rule)
    ensures forall d :: d in DaysOf(v, r.key) <==> Violated(v, r.key, d)
    ensures Counts(r) && DaysOf(v, r.key) != {} <==> Feeds(v, r)
  {
    RuleIs(r);
    forall d ensures d in DaysOf(v, r.key) <==> Violated(v, r.key, d) {
      if (r.key, d) in v.seen { assert d in set x | x in v.seen && x.0 == r.key :: x.1; }
      if (r.key, d) in v.measured { assert d in set x | x in v.measured && x.0 == r.key :: x.1; }
      if d in DaysOf(v, r.key) {
        if x :| x in v.seen && x.0 == r.key && x.1 == d { assert x == (r.key, d); }
        if x :| x in v.measured && x.0 == r.key && x.1 == d { assert x == (r.key, d); }
      }
    }
    var days := DaysOf(v, r.key);
    if !(exists d :: Violated(v, r.key, d)) {
      assert forall d :: d !in days;
      assert days == {};
    }
  }

  lemma {:induction false} CounterDaysAre(rules: seq<Rule>, v: Counted, counter: string, d: int)
    ensures d in CounterDays(rules, v, counter) <==> OnCounter(v, rules, counter, d)
  {
    if |rules| > 0 {
      var front, r := rules[..|rules| - 1], rules[|rules| - 1];
      assert rules == front + [r];
      CounterDaysAre(front, v, counter, d);
      RuleIs(r);
      DaysAre(v, r);
      OnCounterSnoc(v, front, r, counter, d);
    }
  }

  lemma {:induction false} OnCounterSnoc(v: Counted, front: seq<Rule>, r: Rule, counter: string, d: int)
    ensures OnCounter(v, front + [r], counter, d)
            <==> OnCounter(v, front, counter, d) || (Plain(r) && Counter(r) == counter && Violated(v, r.key, d))
  {
    var rules := front + [r];
    assert r in rules && forall x :: x in front ==> x in rules;
    if OnCounter(v, front, counter, d) {
      var x :| x in front && Plain(x) && Counter(x) == counter && Violated(v, x.key, d);
      assert x in rules;
    }
  }

  // ---------------------------------------------------------------- the pools and their heads

  /** The rules that head the pools. */
  ghost function PoolHeads(rules: seq<Rule>, v: Counted): seq<nat> {
    if |rules| == 0 then []
    else
      var n := |rules| - 1;
      var r, pools, before := rules[n], PoolsOf(rules[..n], v), PoolHeads(rules[..n], v);
      if Counts(r) && DaysOf(v, r.key) != {} && PoolIndex(pools, CounterOf(r)) == |pools| then before + [n] else before
  }

  /** Each pool is headed by its rule, and each rule that feeds a counter does so behind the head of its pool. */
  ghost predicate Headed(pools: seq<Pool>, heads: seq<nat>, rules: seq<Rule>, v: Counted) {
    && |heads| == |pools|
    && (forall i, j :: 0 <= i < j < |heads| ==> heads[i] < heads[j])
    && (forall i :: 0 <= i < |heads| ==> heads[i] < |rules| && pools[i].rule == rules[heads[i]]
                                         && pools[i].counter == Counter(rules[heads[i]]) && Feeds(v, rules[heads[i]]))
    && (forall j :: 0 <= j < |rules| && Feeds(v, rules[j]) ==> IsHeaded(pools, heads, rules[j], j))
  }

  ghost predicate IsHeaded(pools: seq<Pool>, heads: seq<nat>, r: Rule, j: nat)
    requires |heads| == |pools|
  {
    exists i :: 0 <= i < |heads| && heads[i] <= j && pools[i].counter == Counter(r)
  }

  lemma {:induction false} PoolsAreHeaded(rules: seq<Rule>, v: Counted)
    ensures Headed(PoolsOf(rules, v), PoolHeads(rules, v), rules, v)
  {
    if |rules| > 0 {
      var front, r := rules[..|rules| - 1], rules[|rules| - 1];
      assert rules == front + [r];
      PoolsAreHeaded(front, v);
      RuleIs(r);
      DaysAre(v, r);
      var pools, heads := PoolsOf(front, v), PoolHeads(front, v);
      if !Feeds(v, r) {
        HeadedSkips(pools, heads, front, r, v);
      } else if PoolIndex(pools, CounterOf(r)) < |pools| {
        HeadedMore(pools, heads, front, r, v, DaysOf(v, r.key));
      } else {
        HeadedNew(pools, heads, front, r, v, DaysOf(v, r.key));
      }
    }
  }

  lemma {:induction false} HeadedSkips(pools: seq<Pool>, heads: seq<nat>, rules: seq<Rule>, r: Rule, v: Counted)
    requires Headed(pools, heads, rules, v) && !Feeds(v, r)
    ensures Headed(pools, heads, rules + [r], v)
  {
  }

  lemma {:induction false} HeadedMore(pools: seq<Pool>, heads: seq<nat>, rules: seq<Rule>, r: Rule, v: Counted,
                                      days: set<int>)
    requires Headed(pools, heads, rules, v) && PoolIndex(pools, Counter(r)) < |pools|
    ensures var k := PoolIndex(pools, Counter(r));
            Headed(pools[k := pools[k].(days := pools[k].days + days)], heads, rules + [r], v)
  {
    var k := PoolIndex(pools, Counter(r));
    var out := pools[k := pools[k].(days := pools[k].days + days)];
    HeadedSame(pools, out, heads, rules, v);
    assert IsHeaded(out, heads, r, |rules|) by {
      assert out[k].counter == Counter(r) && heads[k] <= |rules|;
    }
    HeadedOn(out, heads, rules, r, v);
  }

  lemma {:induction false} HeadedSame(pools: seq<Pool>, out: seq<Pool>, heads: seq<nat>, rules: seq<Rule>, v: Counted)
    requires Headed(pools, heads, rules, v) && |out| == |pools|
    requires forall i :: 0 <= i < |pools| ==> out[i].rule == pools[i].rule && out[i].counter == pools[i].counter
    ensures Headed(out, heads, rules, v)
  {
    forall j | 0 <= j < |rules| && Feeds(v, rules[j]) ensures IsHeaded(out, heads, rules[j], j) {
      assert IsHeaded(pools, heads, rules[j], j);
      var i :| 0 <= i < |heads| && heads[i] <= j && pools[i].counter == Counter(rules[j]);
      assert out[i].counter == pools[i].counter;
    }
  }

  lemma {:induction false} HeadedOn(pools: seq<Pool>, heads: seq<nat>, rules: seq<Rule>, r: Rule, v: Counted)
    requires Headed(pools, heads, rules, v) && IsHeaded(pools, heads, r, |rules|)
    ensures Headed(pools, heads, rules + [r], v)
  {
  }

  lemma {:induction false} HeadedNew(pools: seq<Pool>, heads: seq<nat>, rules: seq<Rule>, r: Rule, v: Counted,
                                     days: set<int>)
    requires Headed(pools, heads, rules, v) && Feeds(v, r)
    ensures Headed(pools + [Pool(Counter(r), r, days)], heads + [|rules|], rules + [r], v)
  {
    var out, all := pools + [Pool(Counter(r), r, days)], heads + [|rules|];
    forall j | 0 <= j < |rules| + 1 && Feeds(v, (rules + [r])[j]) ensures IsHeaded(out, all, (rules + [r])[j], j) {
      if j < |rules| {
        assert IsHeaded(pools, heads, rules[j], j);
        var i :| 0 <= i < |heads| && heads[i] <= j && pools[i].counter == Counter(rules[j]);
        assert out[i] == pools[i] && all[i] == heads[i];
      } else {
        assert out[|pools|].counter == Counter(r) && all[|pools|] == j;
      }
    }
  }

  /** The heads of the pools are the heads of the counters. */
  lemma {:induction false} HeadsAre(pools: seq<Pool>, heads: seq<nat>, rules: seq<Rule>, v: Counted, j: nat)
    requires Headed(pools, heads, rules, v)
    requires forall i, k :: 0 <= i < k < |pools| ==> pools[i].counter != pools[k].counter
    ensures Heads(v, rules, j) <==> j in heads
  {
    if i: nat :| i < |heads| && heads[i] == j {
      HeadFeedsFirst(pools, heads, rules, v, i);
    }
    if Heads(v, rules, j) {
      FirstIsHead(pools, heads, rules, v, j);
    }
  }

  lemma {:induction false} HeadFeedsFirst(pools: seq<Pool>, heads: seq<nat>, rules: seq<Rule>, v: Counted, i: nat)
    requires Headed(pools, heads, rules, v) && i < |heads|
    requires forall i, k :: 0 <= i < k < |pools| ==> pools[i].counter != pools[k].counter
    ensures Heads(v, rules, heads[i])
  {
    var j := heads[i];
    forall k | 0 <= k < j && Feeds(v, rules[k]) ensures Counter(rules[k]) != Counter(rules[j]) {
      assert IsHeaded(pools, heads, rules[k], k);
      var h :| 0 <= h < |heads| && heads[h] <= k && pools[h].counter == Counter(rules[k]);
      assert pools[i].counter == Counter(rules[j]);
    }
  }

  lemma {:induction false} FirstIsHead(pools: seq<Pool>, heads: seq<nat>, rules: seq<Rule>, v: Counted, j: nat)
    requires Headed(pools, heads, rules, v) && Heads(v, rules, j)
    ensures j in heads
  {
    assert IsHeaded(pools, heads, rules[j], j);
    var i :| 0 <= i < |heads| && heads[i] <= j && pools[i].counter == Counter(rules[j]);
    assert Feeds(v, rules[heads[i]]) && Counter(rules[heads[i]]) == Counter(rules[j]);
  }

  // ---------------------------------------------------------------- the lines of the counters

  lemma {:induction false} RoundedShare(a: int, b: int)
    requires b > 0
    ensures 2 * a - b < 2 * b * RoundDiv(a, b) <= 2 * a + b
  {
    var x := RoundDiv(a, b);
    assert 2 * a + b == (2 * b) * x + (2 * a + b) % (2 * b);
  }

  lemma {:induction false} PoolLinePrices(p: Pool)
    ensures Prices(PoolLine(p), p.rule)
  {
    RoundedShare(|p.days| * p.rule.deductionDays, Trigger(p.rule));
  }

  lemma {:induction false} PoolIsCounted(p: Pool, v: Counted, rules: seq<Rule>, j: nat)
    requires j < |rules| && p.rule == rules[j] && p.counter == Counter(rules[j])
    requires p.days == CounterDays(rules, v, p.counter)
    ensures CountedLine(PoolLine(p), v, rules, j)
  {
    PoolLinePrices(p);
    forall d ensures d in p.days <==> OnCounter(v, rules, Counter(rules[j]), d) {
      CounterDaysAre(rules, v, p.counter, d);
    }
    assert HoldsCounter(p.days, v, rules, Counter(rules[j]));
  }

  /** The heads of the pools that cost something. */
  ghost function Costly(pools: seq<Pool>, heads: seq<nat>): seq<nat>
    requires |pools| == |heads|
  {
    if |pools| == 0 then []
    else
      var n, line := |pools| - 1, PoolLine(pools[|pools| - 1]);
      Costly(pools[..n], heads[..n]) + (if line.days <= 0 && line.raw <= 0 then [] else [heads[n]])
  }

  ghost predicate Rising(heads: seq<nat>) {
    forall i, j :: 0 <= i < j < |heads| ==> heads[i] < heads[j]
  }

  /** Lines with a cost, of rising heads, that leave out only what costs nothing. */
  ghost predicate KeepsCost(lines: seq<Line>, kept: seq<nat>, heads: seq<nat>, v: Counted, rules: seq<Rule>) {
    && |kept| == |lines| && Rising(kept) && (forall j :: j in kept ==> j in heads)
    && (forall i :: 0 <= i < |kept| ==> CostlyLine(lines[i], v, rules, kept[i]))
    && (forall j :: j in heads ==> j in kept || (j < |rules| && CostsNothing(v, rules, j)))
  }

  lemma {:induction false} OneMoreCostly(lines: seq<Line>, kept: seq<nat>, heads: seq<nat>, v: Counted,
                                         rules: seq<Rule>, l: Line, j: nat)
    requires KeepsCost(lines, kept, heads, v, rules) && (forall k :: k in heads ==> k < j)
    requires CostlyLine(l, v, rules, j)
    ensures KeepsCost(lines + [l], kept + [j], heads + [j], v, rules)
  {
    var all := kept + [j];
    assert forall i :: 0 <= i < |kept| ==> kept[i] in heads;
    assert forall k :: k in kept ==> k in all;
  }

  lemma {:induction false} OneMoreFree(lines: seq<Line>, kept: seq<nat>, heads: seq<nat>, v: Counted, rules: seq<Rule>,
                                       l: Line, j: nat)
    requires KeepsCost(lines, kept, heads, v, rules) && j < |rules| && CostsNothing(v, rules, j)
    ensures KeepsCost(lines, kept, heads + [j], v, rules)
  {
  }

  ghost predicate AllCounted(pools: seq<Pool>, heads: seq<nat>, v: Counted, rules: seq<Rule>)
    requires |pools| == |heads|
  {
    forall i :: 0 <= i < |heads| ==> heads[i] < |rules| && CountedLine(PoolLine(pools[i]), v, rules, heads[i])
  }

  lemma {:induction false} FrontCounted(pools: seq<Pool>, heads: seq<nat>, v: Counted, rules: seq<Rule>)
    requires |pools| == |heads| > 0 && AllCounted(pools, heads, v, rules) && Rising(heads)
    ensures var n := |pools| - 1;
            && AllCounted(pools[..n], heads[..n], v, rules) && Rising(heads[..n])
            && heads[n] < |rules| && CountedLine(PoolLine(pools[n]), v, rules, heads[n])
            && heads == heads[..n] + [heads[n]] && forall k :: k in heads[..n] ==> k < heads[n]
  {
  }

  lemma {:induction false} CostlyStep(lines: seq<Line>, kept: seq<nat>, heads: seq<nat>, v: Counted, rules: seq<Rule>,
                                      l: Line, j: nat)
    requires KeepsCost(lines, kept, heads, v, rules) && (forall k :: k in heads ==> k < j)
    requires j < |rules| && CountedLine(l, v, rules, j)
    ensures var free := l.days <= 0 && l.raw <= 0;
            KeepsCost(lines + (if free then [] else [l]), kept + (if free then [] else [j]), heads + [j], v, rules)
  {
    if l.days <= 0 && l.raw <= 0 {
      OneMoreFree(lines, kept, heads, v, rules, l, j);
      assert kept + [] == kept && lines + [] == lines;
    } else {
      OneMoreCostly(lines, kept, heads, v, rules, l, j);
    }
  }

  lemma {:induction false} CostlyLines(pools: seq<Pool>, heads: seq<nat>, v: Counted, rules: seq<Rule>)
    requires |pools| == |heads| && Rising(heads) && AllCounted(pools, heads, v, rules)
    ensures KeepsCost(PoolLines(pools), Costly(pools, heads), heads, v, rules)
  {
    if |pools| > 0 {
      var n := |pools| - 1;
      FrontCounted(pools, heads, v, rules);
      CostlyLines(pools[..n], heads[..n], v, rules);
      CostlyStep(PoolLines(pools[..n]), Costly(pools[..n], heads[..n]), heads[..n], v, rules, PoolLine(pools[n]),
                 heads[n]);
    }
  }

  /** The counted lines are those of the counters, by the rules that head them. */
  lemma {:induction false} CountersArePriced(rules: seq<Rule>, v: Counted) returns (heads: seq<nat>)
    ensures CountedLines(PoolLines(PoolsOf(rules, v)), heads, v, rules)
  {
    var pools, all := PoolsOf(rules, v), PoolHeads(rules, v);
    PoolsAreHeaded(rules, v);
    PoolsOfHold(rules, v);
    forall i | 0 <= i < |all| ensures all[i] < |rules| && CountedLine(PoolLine(pools[i]), v, rules, all[i]) {
      assert PoolHolds(pools[i], rules, v);
      PoolIsCounted(pools[i], v, rules, all[i]);
    }
    forall j: nat ensures Heads(v, rules, j) <==> j in all {
      HeadsAre(pools, all, rules, v, j);
    }
    CostlyLines(pools, all, v, rules);
    heads := Costly(pools, all);
  }

  // ---------------------------------------------------------------- timed rules

  ghost predicate SameCounter(a: Rule, b: Rule) { Timed(a) && Timed(b) && Counter(a) == Counter(b) }

  /** Two timed rules share a counter and ask for different prices. */
  ghost predicate Disagree(a: Rule, b: Rule) {
    SameCounter(a, b)
    && !(a.triggerCount == b.triggerCount && a.deductionDays == b.deductionDays && a.cap == b.cap
         && a.durationThreshold == b.durationThreshold && a.overThresholdDays == b.overThresholdDays)
  }

  ghost predicate Disputed(rules: seq<Rule>) {
    exists a, b :: a in rules && b in rules && Disagree(a, b)
  }

  /** A timed rule is given a violation that took no time. */
  ghost predicate NoTime(measured: map<(RuleKey, int), int>, rules: seq<Rule>) {
    exists r, x :: r in rules && Timed(r) && x in measured && x.0 == r.key && measured[x] <= 0
  }

  /** The first timed rule of its counter. */
  ghost predicate TimedHead(rules: seq<Rule>, j: nat) {
    j < |rules| && Timed(rules[j]) && forall i :: 0 <= i < j ==> !SameCounter(rules[i], rules[j])
  }

  /** The violation is one of a timed rule of the counter, and longer than its threshold. */
  ghost predicate LongOn(measured: map<(RuleKey, int), int>, rules: seq<Rule>, counter: string, x: (RuleKey, int)) {
    && x in measured
    && exists r :: r in rules && Timed(r) && Counter(r) == counter && r.key == x.0
                   && measured[x] > r.durationThreshold.value
  }

  ghost predicate ShortOn(measured: map<(RuleKey, int), int>, rules: seq<Rule>, counter: string, x: (RuleKey, int)) {
    && x in measured
    && exists r :: r in rules && Timed(r) && Counter(r) == counter && r.key == x.0
                   && measured[x] <= r.durationThreshold.value
  }

  ghost function AtMost(days: int, limit: Option<int>): int {
    if limit.Some? && limit.value < days then limit.value else days
  }

  /** Each long violation costs its own days; whole triggers of short ones cost theirs under what is left of the cap. */
  ghost predicate TimedPrices(l: Line, r: Rule, longs: nat, shorts: nat, long: bool)
    requires Timed(r)
  {
    var longDays := AtMost(longs * r.overThresholdDays.value, r.cap);
    var t := if r.triggerCount > 1 then r.triggerCount else 1;
    && l.key == r.key && l.raw == l.days
    && (long ==> l.occurrences == longs && l.days == longDays)
    && (!long ==>
          && l.occurrences == shorts
          && l.days == AtMost((shorts / t) * r.deductionDays,
                              if r.cap.Some? then Some(r.cap.value - longDays) else None))
  }

  ghost predicate TimedLine(l: Line, measured: map<(RuleKey, int), int>, rules: seq<Rule>, j: nat, long: bool)
    requires j < |rules| && Timed(rules[j])
  {
    exists longs: set<(RuleKey, int)>, shorts: set<(RuleKey, int)> ::
      SplitsCounter(measured, rules, Counter(rules[j]), longs, shorts)
      && TimedPrices(l, rules[j], |longs|, |shorts|, long)
  }

  /** The long and the short violations of the counter. */
  ghost predicate SplitsCounter(measured: map<(RuleKey, int), int>, rules: seq<Rule>, counter: string,
                                longs: set<(RuleKey, int)>, shorts: set<(RuleKey, int)>) {
    && (forall x :: x in longs <==> LongOn(measured, rules, counter, x))
    && (forall x :: x in shorts <==> ShortOn(measured, rules, counter, x))
  }

  ghost predicate Ordered(places: seq<(nat, bool)>) {
    forall i, j :: 0 <= i < j < |places| ==>
      places[i].0 < places[j].0 || (places[i].0 == places[j].0 && places[i].1 && !places[j].1)
  }

  ghost predicate CostlyTimed(l: Line, measured: map<(RuleKey, int), int>, rules: seq<Rule>, place: (nat, bool)) {
    TimedHead(rules, place.0) && TimedLine(l, measured, rules, place.0, place.1) && l.days > 0
  }

  ghost predicate FreeTimed(measured: map<(RuleKey, int), int>, rules: seq<Rule>, place: (nat, bool)) {
    place.0 < |rules| && Timed(rules[place.0])
    && exists l :: TimedLine(l, measured, rules, place.0, place.1) && l.days <= 0
  }

  /** One line for the long and one for the short violations of each counter, where they cost something. */
  ghost predicate TimedLinesHold(lines: seq<Line>, places: seq<(nat, bool)>, measured: map<(RuleKey, int), int>,
                                 rules: seq<Rule>) {
    && |lines| == |places| && Ordered(places)
    && (forall i :: 0 <= i < |lines| ==> CostlyTimed(lines[i], measured, rules, places[i]))
    && (forall j: nat, long :: TimedHead(rules, j) ==> (j, long) in places || FreeTimed(measured, rules, (j, long)))
  }
}
