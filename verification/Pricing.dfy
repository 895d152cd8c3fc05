/**
 Violations priced in hundredths of a day (src/lib/attendanceDeduction.js, 168-225, and
 src/lib/attendanceTimingPolicy.js, 35-56).
 */
module Pricing {
  import opened Options
  import opened Arithmetic
  import opened Violations

  datatype Counted = Counted(seen: set<(RuleKey, int)>, measured: map<(RuleKey, int), int>)

  datatype Line = Line(key: RuleKey, occurrences: nat, raw: int, days: int)

  /** `Math.round(a / b)`: halves go up. */
  function RoundDiv(a: int, b: int): int
    requires b > 0
  {
    (2 * a + b) / (2 * b)
  }

  function KeyName(k: RuleKey): string {
    match k
    case LateKey => "LATE"
    case EarlyCheckoutKey => "EARLY_CHECKOUT"
    case MissingCheckinKey => "MISSING_CHECKIN"
    case MissingCheckoutKey => "MISSING_CHECKOUT"
    case DisapprovedLeaveKey => "DISAPPROVED_LEAVE"
  }

  /** The counter a rule feeds: its group, or its own key when it has none. */
  function CounterOf(r: Rule): string {
    if r.counterGroup.Some? && r.counterGroup.value != "" then r.counterGroup.value else KeyName(r.key)
  }

  function Trigger(r: Rule): (t: int)
    ensures t >= 1
  {
    Max(1, r.triggerCount)
  }

  // ---------------------------------------------------------------- counted rules

  datatype Pool = Pool(counter: string, rule: Rule, days: set<int>)

  predicate Counts(r: Rule) {
    r.enabled && !IsTimingRule(r)
  }

  function DaysOf(v: Counted, k: RuleKey): set<int> {
    (set x | x in v.seen && x.0 == k :: x.1) + (set x | x in v.measured && x.0 == k :: x.1)
  }

  /** Position of a counter's pool, or the number of pools when it has none. */
  function PoolIndex(pools: seq<Pool>, counter: string): (i: nat)
    ensures i <= |pools|
    ensures i < |pools| ==> pools[i].counter == counter
    ensures forall j :: 0 <= j < i ==> pools[j].counter != counter
  {
    if |pools| == 0 then 0
    else
      var n := |pools| - 1;
      var i := PoolIndex(pools[..n], counter);
      if i < n || pools[n].counter == counter then i else n + 1
  }

  function AddToPool(pools: seq<Pool>, r: Rule, days: set<int>): seq<Pool> {
    var i := PoolIndex(pools, CounterOf(r));
    if days == {} then pools
    else if i < |pools| then pools[i := pools[i].(days := pools[i].days + days)]
    else pools + [Pool(CounterOf(r), r, days)]
  }

  /** One pool per counter with a violation, under the first contributing rule, in rule order. */
  function PoolsOf(rules: seq<Rule>, v: Counted): seq<Pool> {
    if |rules| == 0 then []
    else
      var r := rules[|rules| - 1];
      var pools := PoolsOf(rules[..|rules| - 1], v);
      if Counts(r) then AddToPool(pools, r, DaysOf(v, r.key)) else pools
  }

  /** Every `trigger` occurrences cost the rule's days, up to its cap; the raw value is neither floored nor capped. */
  function PoolLine(p: Pool): Line {
    var n := |p.days|;
    var charged := (n / Trigger(p.rule)) * p.rule.deductionDays;
    Line(p.rule.key, n, RoundDiv(n * p.rule.deductionDays, Trigger(p.rule)),
         if p.rule.cap.Some? then Min(charged, p.rule.cap.value) else charged)
  }

  function PoolLines(pools: seq<Pool>): seq<Line> {
    if |pools| == 0 then []
    else
      var line := PoolLine(pools[|pools| - 1]);
      PoolLines(pools[..|pools| - 1]) + (if line.days <= 0 && line.raw <= 0 then [] else [line])
  }

  // ---------------------------------------------------------------- timed rules

  datatype Band = Band(counter: string, rule: Rule, short: set<(RuleKey, int)>, long: set<(RuleKey, int)>)

  predicate SameTerms(a: Rule, b: Rule) {
    a.triggerCount == b.triggerCount && a.deductionDays == b.deductionDays && a.cap == b.cap
    && a.durationThreshold == b.durationThreshold && a.overThresholdDays == b.overThresholdDays
  }

  function LongOf(measured: map<(RuleKey, int), int>, r: Rule): set<(RuleKey, int)> {
    set x | x in measured && x.0 == r.key && measured[x] > r.durationThreshold.GetOr(0)
  }

  function ShortOf(measured: map<(RuleKey, int), int>, r: Rule): set<(RuleKey, int)> {
    set x | x in measured && x.0 == r.key && measured[x] <= r.durationThreshold.GetOr(0)
  }

  function BandIndex(bands: seq<Band>, counter: string): (i: nat)
    ensures i <= |bands|
    ensures i < |bands| ==> bands[i].counter == counter
  {
    if |bands| == 0 then 0
    else
      var n := |bands| - 1;
      var i := BandIndex(bands[..n], counter);
      if i < n || bands[n].counter == counter then i else n + 1
  }

  function AddToBand(bands: seq<Band>, r: Rule, measured: map<(RuleKey, int), int>): Result<seq<Band>> {
    var i := BandIndex(bands, CounterOf(r));
    var all := if i < |bands| then bands else bands + [Band(CounterOf(r), r, {}, {})];
    if !SameTerms(all[i].rule, r) then Thrown
    else Ok(all[i := all[i].(short := all[i].short + ShortOf(measured, r),
                                   long := all[i].long + LongOf(measured, r))])
  }

  /** One band per counter of timed rules; rules that share a counter must agree on their terms. */
  function BandsOf(rules: seq<Rule>, measured: map<(RuleKey, int), int>): Result<seq<Band>> {
    if |rules| == 0 then Ok([])
    else
      var r := rules[|rules| - 1];
      var bands := BandsOf(rules[..|rules| - 1], measured);
      if !IsTimingRule(r) || bands.Thrown? then bands else AddToBand(bands.value, r, measured)
  }

  /** What is charged of `days` while `remaining` (None is unlimited) is left of the cap. */
  function Charge(days: int, remaining: Option<int>): int {
    if remaining.Some? then Min(days, remaining.value) else days
  }

  function LongCharge(b: Band): int {
    Charge(|b.long| * b.rule.overThresholdDays.GetOr(0), b.rule.cap)
  }

  function ShortCharge(b: Band): int {
    Charge((|b.short| / Trigger(b.rule)) * b.rule.deductionDays,
           if b.rule.cap.Some? then Some(b.rule.cap.value - LongCharge(b)) else None)
  }

  function ChargeLine(b: Band, occurrences: nat, charged: int): seq<Line> {
    if charged > 0 then [Line(b.rule.key, occurrences, charged, charged)] else []
  }

  function BandLines(bands: seq<Band>): seq<Line> {
    if |bands| == 0 then []
    else
      var b := bands[|bands| - 1];
      BandLines(bands[..|bands| - 1])
      + ChargeLine(b, |b.long|, LongCharge(b)) + ChargeLine(b, |b.short|, ShortCharge(b))
  }

  /** A timed rule is given a violation that took no time. */
  predicate Untimed(rules: seq<Rule>, measured: map<(RuleKey, int), int>) {
    exists i :: 0 <= i < |rules| && IsTimingRule(rules[i]) && TakesNoTime(rules[i], measured)
  }

  predicate TakesNoTime(r: Rule, measured: map<(RuleKey, int), int>) {
    exists x :: x in measured && x.0 == r.key && measured[x] <= 0
  }

  /** Rules that disagree on a counter and violations that took no time are errors. */
  function TimedLines(measured: map<(RuleKey, int), int>, rules: seq<Rule>): Result<seq<Line>> {
    if BandsOf(rules, measured).Thrown? || Untimed(rules, measured) then Thrown
    else Ok(BandLines(BandsOf(rules, measured).value))
  }

  // ---------------------------------------------------------------- the two engines together

  function PricedLines(v: Counted, rules: seq<Rule>): Result<seq<Line>> {
    var timed := TimedLines(v.measured, rules);
    if timed.Thrown? then Thrown else Ok(PoolLines(PoolsOf(rules, v)) + timed.value)
  }

  method ComputeTimingDeductions(measured: map<(RuleKey, int), int>, rules: seq<Rule>) returns (res: Result<seq<Line>>)
    ensures res == TimedLines(measured, rules)
  {
    var bands: seq<Band> := [];
    for i := 0 to |rules|
      invariant BandsOf(rules[..i], measured) == Ok(bands)
      invariant forall k :: 0 <= k < i && IsTimingRule(rules[k]) ==> !TakesNoTime(rules[k], measured)
    {
      assert rules[..i + 1][..i] == rules[..i];
      var r := rules[i];
      if IsTimingRule(r) {
        var k := BandIndex(bands, CounterOf(r));
        if k == |bands| {
          bands := bands + [Band(CounterOf(r), r, {}, {})];
        }
        if !SameTerms(bands[k].rule, r) {
          BandsThrow(rules, i + 1, measured);
          return Thrown;
        }
        if TakesNoTime(r, measured) {
          return Thrown;
        }
        bands := bands[k := bands[k].(short := bands[k].short + ShortOf(measured, r),
                                      long := bands[k].long + LongOf(measured, r))];
      }
    }
    assert rules[..|rules|] == rules;
    var lines := ChargeBands(bands);
    return Ok(lines);
  }

  /** Long violations are charged first and use up the cap before the short ones. */
  method ChargeBands(bands: seq<Band>) returns (lines: seq<Line>)
    ensures lines == BandLines(bands)
  {
    lines := [];
    for i := 0 to |bands|
      invariant lines == BandLines(bands[..i])
    {
      assert bands[..i + 1][..i] == bands[..i];
      var b := bands[i];
      var remaining := b.rule.cap;
      var charged := Charge(|b.long| * b.rule.overThresholdDays.GetOr(0), remaining);
      if remaining.Some? { remaining := Some(remaining.value - charged); }
      if charged > 0 { lines := lines + [Line(b.rule.key, |b.long|, charged, charged)]; }
      charged := Charge((|b.short| / Trigger(b.rule)) * b.rule.deductionDays, remaining);
      if charged > 0 { lines := lines + [Line(b.rule.key, |b.short|, charged, charged)]; }
    }
    assert bands[..|bands|] == bands;
  }

  lemma {:induction false} BandsThrow(rules: seq<Rule>, i: nat, measured: map<(RuleKey, int), int>)
    requires i <= |rules| && BandsOf(rules[..i], measured).Thrown?
    ensures BandsOf(rules, measured).Thrown?
    decreases |rules|
  {
    if i == |rules| {
      assert rules[..i] == rules;
    } else {
      assert rules[..|rules| - 1][..i] == rules[..i];
      BandsThrow(rules[..|rules| - 1], i, measured);
    }
  }

  method ComputeAttendanceDeductions(v: Counted, rules: seq<Rule>) returns (res: Result<seq<Line>>)
    ensures res == PricedLines(v, rules)
  {
    var timing := ComputeTimingDeductions(v.measured, rules);
    if timing.Thrown? {
      return Thrown;
    }
    var pools: seq<Pool> := [];
    for i := 0 to |rules|
      invariant pools == PoolsOf(rules[..i], v)
    {
      assert rules[..i + 1][..i] == rules[..i];
      var r := rules[i];
      if Counts(r) {
        var days := DaysOf(v, r.key);
        if days != {} {
          var k := PoolIndex(pools, CounterOf(r));
          if k == |pools| {
            pools := pools + [Pool(CounterOf(r), r, days)];
          } else {
            pools := pools[k := pools[k].(days := pools[k].days + days)];
          }
        }
      }
    }
    assert rules[..|rules|] == rules;
    var lines: seq<Line> := [];
    for i := 0 to |pools|
      invariant lines == PoolLines(pools[..i])
    {
      assert pools[..i + 1][..i] == pools[..i];
      var rule, occurrences := pools[i].rule, |pools[i].days|;
      var charged := (occurrences / Trigger(rule)) * rule.deductionDays;
      if rule.cap.Some? {
        charged := Min(charged, rule.cap.value);
      }
      var raw := RoundDiv(occurrences * rule.deductionDays, Trigger(rule));
      if charged > 0 || raw > 0 {
        lines := lines + [Line(rule.key, occurrences, raw, charged)];
      }
    }
    assert pools[..|pools|] == pools;
    return Ok(lines + timing.value);
  }
}
