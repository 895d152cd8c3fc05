/** The bands of timed rules hold the violations of their counters, and are priced by the rules that head them. */
module BandPrices {
  import opened Options
  import opened Arithmetic
  import opened Violations
  import opened Pricing
  import opened CounterPrices

  // ---------------------------------------------------------------- the bands and their heads

  ghost function BandHeads(rules: seq<Rule>, measured: map<(RuleKey, int), int>): seq<nat> {
    if |rules| == 0 || BandsOf(rules[..|rules| - 1], measured).Thrown? then []
    else
      var n := |rules| - 1;
      var bands, before := BandsOf(rules[..n], measured).value, BandHeads(rules[..n], measured);
      if IsTimingRule(rules[n]) && BandIndex(bands, CounterOf(rules[n])) == |bands| then before + [n] else before
  }

  ghost predicate Splits(b: Band, rules: seq<Rule>, measured: map<(RuleKey, int), int>) {
    SplitsCounter(measured, rules, b.counter, b.long, b.short)
  }

  ghost predicate BandHeld(b: Band, h: nat, rules: seq<Rule>, measured: map<(RuleKey, int), int>) {
    && h < |rules| && Timed(rules[h]) && b.rule == rules[h] && b.counter == Counter(rules[h])
    && Splits(b, rules, measured)
  }

  ghost predicate IsBanded(bands: seq<Band>, heads: seq<nat>, r: Rule, j: nat)
    requires |heads| == |bands|
  {
    exists i :: 0 <= i < |heads| && heads[i] <= j && bands[i].counter == Counter(r) && SameTerms(bands[i].rule, r)
  }

  /** Each band is headed by its rule and holds its counter; each timed rule has the terms of the head of its band. */
  ghost predicate Banded(bands: seq<Band>, heads: seq<nat>, rules: seq<Rule>, measured: map<(RuleKey, int), int>) {
    && |heads| == |bands| && Rising(heads) && AllHeld(bands, heads, rules, measured)
    && Different(bands) && AllBanded(bands, heads, rules)
  }

  ghost predicate AllHeld(bands: seq<Band>, heads: seq<nat>, rules: seq<Rule>, measured: map<(RuleKey, int), int>)
    requires |heads| == |bands|
  {
    forall i :: 0 <= i < |bands| ==> BandHeld(bands[i], heads[i], rules, measured)
  }

  ghost predicate Different(bands: seq<Band>) {
    forall i, j :: 0 <= i < j < |bands| ==> bands[i].counter != bands[j].counter
  }

  ghost predicate AllBanded(bands: seq<Band>, heads: seq<nat>, rules: seq<Rule>)
    requires |heads| == |bands|
  {
    forall j :: 0 <= j < |rules| && Timed(rules[j]) ==> IsBanded(bands, heads, rules[j], j)
  }

  lemma {:induction false} NoBand(bands: seq<Band>, counter: string)
    ensures BandIndex(bands, counter) == |bands| ==> forall i :: 0 <= i < |bands| ==> bands[i].counter != counter
  {
    if |bands| > 0 {
      NoBand(bands[..|bands| - 1], counter);
    }
  }

  lemma {:induction false} LongSnoc(measured: map<(RuleKey, int), int>, rules: seq<Rule>, r: Rule, counter: string,
                                    x: (RuleKey, int))
    ensures LongOn(measured, rules + [r], counter, x) <==>
              LongOn(measured, rules, counter, x)
              || (Timed(r) && Counter(r) == counter && x in LongOf(measured, r))
    ensures ShortOn(measured, rules + [r], counter, x) <==>
              ShortOn(measured, rules, counter, x)
              || (Timed(r) && Counter(r) == counter && x in ShortOf(measured, r))
  {
    var all := rules + [r];
    assert r in all && forall y :: y in rules ==> y in all;
    if LongOn(measured, rules, counter, x) {
      var y :| y in rules && Timed(y) && Counter(y) == counter && y.key == x.0
               && measured[x] > y.durationThreshold.value;
      assert y in all;
    }
    if ShortOn(measured, rules, counter, x) {
      var y :| y in rules && Timed(y) && Counter(y) == counter && y.key == x.0
               && measured[x] <= y.durationThreshold.value;
      assert y in all;
    }
  }

  /** A rule of another counter, or one that is not timed, leaves a band alone. */
  lemma {:induction false} SplitsStay(b: Band, rules: seq<Rule>, r: Rule, measured: map<(RuleKey, int), int>)
    requires Splits(b, rules, measured) && !(Timed(r) && Counter(r) == b.counter)
    ensures Splits(b, rules + [r], measured)
  {
    forall x ensures x in b.long <==> LongOn(measured, rules + [r], b.counter, x) {
      LongSnoc(measured, rules, r, b.counter, x);
    }
    forall x ensures x in b.short <==> ShortOn(measured, rules + [r], b.counter, x) {
      LongSnoc(measured, rules, r, b.counter, x);
    }
  }

  ghost function Widened(b: Band, r: Rule, measured: map<(RuleKey, int), int>): Band {
    b.(short := b.short + ShortOf(measured, r), long := b.long + LongOf(measured, r))
  }

  lemma {:induction false} SplitsGrow(b: Band, rules: seq<Rule>, r: Rule, measured: map<(RuleKey, int), int>)
    requires Splits(b, rules, measured) && Timed(r) && Counter(r) == b.counter
    ensures Splits(Widened(b, r, measured), rules + [r], measured)
  {
    var c := Widened(b, r, measured);
    forall x ensures x in c.long <==> LongOn(measured, rules + [r], b.counter, x) {
      LongSnoc(measured, rules, r, b.counter, x);
    }
    forall x ensures x in c.short <==> ShortOn(measured, rules + [r], b.counter, x) {
      LongSnoc(measured, rules, r, b.counter, x);
    }
  }

  lemma {:induction false} BandedSkips(bands: seq<Band>, heads: seq<nat>, rules: seq<Rule>, r: Rule,
                                       measured: map<(RuleKey, int), int>)
    requires Banded(bands, heads, rules, measured) && !Timed(r)
    ensures Banded(bands, heads, rules + [r], measured)
  {
    forall i | 0 <= i < |bands| ensures BandHeld(bands[i], heads[i], rules + [r], measured) {
      SplitsStay(bands[i], rules, r, measured);
    }
  }

  lemma {:induction false} HeldMore(bands: seq<Band>, heads: seq<nat>, rules: seq<Rule>, r: Rule,
                                    measured: map<(RuleKey, int), int>, k: nat)
    requires |heads| == |bands| && AllHeld(bands, heads, rules, measured) && Different(bands) && Timed(r)
    requires k < |bands| && bands[k].counter == Counter(r)
    ensures AllHeld(bands[k := Widened(bands[k], r, measured)], heads, rules + [r], measured)
  {
    var out := bands[k := Widened(bands[k], r, measured)];
    forall i | 0 <= i < |bands| ensures BandHeld(out[i], heads[i], rules + [r], measured) {
      assert BandHeld(bands[i], heads[i], rules, measured);
      if i == k {
        SplitsGrow(bands[k], rules, r, measured);
      } else {
        SplitsStay(bands[i], rules, r, measured);
      }
    }
  }

  lemma {:induction false} BandedMore(bands: seq<Band>, heads: seq<nat>, rules: seq<Rule>, r: Rule,
                                      measured: map<(RuleKey, int), int>, k: nat)
    requires Banded(bands, heads, rules, measured) && Timed(r)
    requires k < |bands| && bands[k].counter == Counter(r) && SameTerms(bands[k].rule, r)
    ensures Banded(bands[k := Widened(bands[k], r, measured)], heads, rules + [r], measured)
  {
    var out := bands[k := Widened(bands[k], r, measured)];
    HeldMore(bands, heads, rules, r, measured, k);
    assert BandHeld(bands[k], heads[k], rules, measured);
    SameCounters(bands, k, Widened(bands[k], r, measured));
    StillBanded(bands, out, heads, rules, r, k);
  }

  lemma {:induction false} SameCounters(bands: seq<Band>, k: nat, b: Band)
    requires k < |bands| && b.counter == bands[k].counter && b.rule == bands[k].rule && Different(bands)
    ensures var out := bands[k := b];
            && Different(out)
            && forall i :: 0 <= i < |bands| ==> out[i].counter == bands[i].counter && out[i].rule == bands[i].rule
  {
  }

  lemma {:induction false} StillBanded(bands: seq<Band>, out: seq<Band>, heads: seq<nat>, rules: seq<Rule>, r: Rule,
                                       k: nat)
    requires |heads| == |bands| == |out| && k < |bands| && bands[k].counter == Counter(r) && SameTerms(bands[k].rule, r)
    requires forall i :: 0 <= i < |bands| ==> out[i].counter == bands[i].counter && out[i].rule == bands[i].rule
    requires heads[k] <= |rules| && AllBanded(bands, heads, rules)
    ensures AllBanded(out, heads, rules + [r])
  {
    var all := rules + [r];
    forall j | 0 <= j < |all| && Timed(all[j]) ensures IsBanded(out, heads, all[j], j) {
      if j < |rules| {
        assert IsBanded(bands, heads, rules[j], j);
        var i :| 0 <= i < |heads| && heads[i] <= j && bands[i].counter == Counter(rules[j])
                 && SameTerms(bands[i].rule, rules[j]);
        assert out[i].counter == bands[i].counter && out[i].rule == bands[i].rule;
      } else {
        assert out[k].counter == bands[k].counter && out[k].rule == bands[k].rule;
      }
    }
  }

  lemma {:induction false} HeldNew(bands: seq<Band>, heads: seq<nat>, rules: seq<Rule>, r: Rule,
                                   measured: map<(RuleKey, int), int>, b: Band)
    requires |heads| == |bands| && AllHeld(bands, heads, rules, measured)
    requires Timed(r) && b.rule == r && b.counter == Counter(r) && Splits(b, rules + [r], measured)
    requires forall i :: 0 <= i < |bands| ==> bands[i].counter != Counter(r)
    ensures AllHeld(bands + [b], heads + [|rules|], rules + [r], measured)
  {
    var out, all := bands + [b], heads + [|rules|];
    forall i | 0 <= i < |out| ensures BandHeld(out[i], all[i], rules + [r], measured) {
      if i < |bands| {
        assert BandHeld(bands[i], heads[i], rules, measured);
        SplitsStay(bands[i], rules, r, measured);
      }
    }
  }

  lemma {:induction false} BandedTo(bands: seq<Band>, heads: seq<nat>, rules: seq<Rule>, r: Rule, b: Band)
    requires |heads| == |bands| && AllBanded(bands, heads, rules) && b.rule == r && b.counter == Counter(r)
    ensures AllBanded(bands + [b], heads + [|rules|], rules + [r])
  {
    var out, all, more := bands + [b], heads + [|rules|], rules + [r];
    forall j | 0 <= j < |more| && Timed(more[j]) ensures IsBanded(out, all, more[j], j) {
      if j < |rules| {
        assert IsBanded(bands, heads, rules[j], j);
        var i :| 0 <= i < |heads| && heads[i] <= j && bands[i].counter == Counter(rules[j])
                 && SameTerms(bands[i].rule, rules[j]);
        assert out[i] == bands[i] && all[i] == heads[i];
      } else {
        assert out[|bands|] == b && all[|bands|] == j;
      }
    }
  }

  lemma {:induction false} BandedNew(bands: seq<Band>, heads: seq<nat>, rules: seq<Rule>, r: Rule,
                                     measured: map<(RuleKey, int), int>)
    requires Banded(bands, heads, rules, measured) && Timed(r)
    requires forall i :: 0 <= i < |bands| ==> bands[i].counter != Counter(r)
    ensures Banded(bands + [Widened(Band(Counter(r), r, {}, {}), r, measured)], heads + [|rules|], rules + [r],
                   measured)
  {
    var empty := Band(Counter(r), r, {}, {});
    var b := Widened(empty, r, measured);
    NothingYet(bands, heads, rules, r, measured);
    SplitsGrow(empty, rules, r, measured);
    HeldNew(bands, heads, rules, r, measured, b);
    BandedTo(bands, heads, rules, r, b);
    HeadsRise(bands, heads, rules, measured);
  }

  lemma {:induction false} HeadsRise(bands: seq<Band>, heads: seq<nat>, rules: seq<Rule>,
                                     measured: map<(RuleKey, int), int>)
    requires |heads| == |bands| && AllHeld(bands, heads, rules, measured) && Rising(heads)
    ensures Rising(heads + [|rules|])
  {
    forall i | 0 <= i < |heads| ensures heads[i] < |rules| {
      assert BandHeld(bands[i], heads[i], rules, measured);
    }
  }

  lemma {:induction false} NothingYet(bands: seq<Band>, heads: seq<nat>, rules: seq<Rule>, r: Rule,
                                      measured: map<(RuleKey, int), int>)
    requires Banded(bands, heads, rules, measured)
    requires forall i :: 0 <= i < |bands| ==> bands[i].counter != Counter(r)
    ensures Splits(Band(Counter(r), r, {}, {}), rules, measured)
  {
    forall y | y in rules && Timed(y) ensures Counter(y) != Counter(r) {
      var j :| 0 <= j < |rules| && rules[j] == y;
      assert IsBanded(bands, heads, rules[j], j);
    }
  }

  /** The bands exist exactly when no two timed rules of a counter disagree. */
  lemma {:induction false} BandsAreBanded(rules: seq<Rule>, measured: map<(RuleKey, int), int>)
    ensures BandsOf(rules, measured).Thrown? <==> Disputed(rules)
    ensures BandsOf(rules, measured).Ok? ==>
              Banded(BandsOf(rules, measured).value, BandHeads(rules, measured), rules, measured)
  {
    if |rules| > 0 {
      var front, r := rules[..|rules| - 1], rules[|rules| - 1];
      assert rules == front + [r];
      BandsAreBanded(front, measured);
      RuleIs(r);
      if BandsOf(front, measured).Thrown? {
        StillDisputed(front, r);
      } else {
        var bands, heads := BandsOf(front, measured).value, BandHeads(front, measured);
        if !Timed(r) {
          BandedSkips(bands, heads, front, r, measured);
          NoNewDispute(front, r);
        } else {
          NoBand(bands, Counter(r));
          OneMoreBand(bands, heads, front, r, measured);
        }
      }
    }
  }

  lemma {:induction false} StillDisputed(front: seq<Rule>, r: Rule)
    requires Disputed(front)
    ensures Disputed(front + [r])
  {
    var a, b :| a in front && b in front && Disagree(a, b);
    assert a in front + [r] && b in front + [r];
  }

  lemma {:induction false} NoNewDispute(front: seq<Rule>, r: Rule)
    requires !Disputed(front) && !Timed(r)
    ensures !Disputed(front + [r])
  {
  }

  lemma {:induction false} OneMoreBand(bands: seq<Band>, heads: seq<nat>, front: seq<Rule>, r: Rule,
                                       measured: map<(RuleKey, int), int>)
    requires Banded(bands, heads, front, measured) && Timed(r) && !Disputed(front)
    requires BandIndex(bands, Counter(r)) == |bands| ==> forall i :: 0 <= i < |bands| ==> bands[i].counter != Counter(r)
    ensures var k, out := BandIndex(bands, Counter(r)), AddToBand(bands, r, measured);
            && (out.Thrown? <==> Disputed(front + [r]))
            && (out.Ok? ==>
                  Banded(out.value, if k == |bands| then heads + [|front|] else heads, front + [r], measured))
  {
    RuleIs(r);
    var k := BandIndex(bands, Counter(r));
    if k == |bands| {
      BandedNew(bands, heads, front, r, measured);
      assert (bands + [Band(Counter(r), r, {}, {})])[k := Widened(Band(Counter(r), r, {}, {}), r, measured)]
             == bands + [Widened(Band(Counter(r), r, {}, {}), r, measured)];
      AgreesWithNone(bands, heads, front, r, measured);
    } else if SameTerms(bands[k].rule, r) {
      BandedMore(bands, heads, front, r, measured, k);
      AgreesWithHead(bands, heads, front, r, measured, k);
    } else {
      assert BandHeld(bands[k], heads[k], front, measured);
      assert Disagree(front[heads[k]], r) && front[heads[k]] in front + [r] && r in front + [r];
    }
  }

  lemma {:induction false} AgreesWithNone(bands: seq<Band>, heads: seq<nat>, front: seq<Rule>, r: Rule,
                                          measured: map<(RuleKey, int), int>)
    requires Banded(bands, heads, front, measured) && !Disputed(front)
    requires forall i :: 0 <= i < |bands| ==> bands[i].counter != Counter(r)
    ensures !Disputed(front + [r])
  {
    forall y | y in front ensures !SameCounter(y, r) {
      var j :| 0 <= j < |front| && front[j] == y;
      assert Timed(y) ==> IsBanded(bands, heads, front[j], j);
    }
  }

  lemma {:induction false} OneBand(bands: seq<Band>, i: nat, k: nat)
    requires Different(bands) && i < |bands| && k < |bands| && bands[i].counter == bands[k].counter
    ensures i == k
  {
  }

  lemma {:induction false} AgreesWithHead(bands: seq<Band>, heads: seq<nat>, front: seq<Rule>, r: Rule,
                                          measured: map<(RuleKey, int), int>, k: nat)
    requires Banded(bands, heads, front, measured) && !Disputed(front) && k < |bands|
    requires bands[k].counter == Counter(r) && SameTerms(bands[k].rule, r)
    ensures !Disputed(front + [r])
  {
    forall y | y in front ensures !Disagree(y, r) && !Disagree(r, y) {
      var j :| 0 <= j < |front| && front[j] == y;
      if Timed(y) && Counter(y) == Counter(r) {
        assert IsBanded(bands, heads, front[j], j);
        var i :| 0 <= i < |heads| && heads[i] <= j && bands[i].counter == Counter(y) && SameTerms(bands[i].rule, y);
        OneBand(bands, i, k);
      }
    }
  }

  // ---------------------------------------------------------------- the lines of the bands

  ghost predicate TimedAt(l: Line, measured: map<(RuleKey, int), int>, rules: seq<Rule>, place: (nat, bool)) {
    place.0 < |rules| && Timed(rules[place.0]) && TimedLine(l, measured, rules, place.0, place.1)
  }

  function LongLine(b: Band): Line { Line(b.rule.key, |b.long|, LongCharge(b), LongCharge(b)) }

  function ShortLine(b: Band): Line { Line(b.rule.key, |b.short|, ShortCharge(b), ShortCharge(b)) }

  lemma {:induction false} BandLinesAre(b: Band, h: nat, rules: seq<Rule>, measured: map<(RuleKey, int), int>)
    requires BandHeld(b, h, rules, measured)
    ensures TimedAt(LongLine(b), measured, rules, (h, true))
    ensures TimedAt(ShortLine(b), measured, rules, (h, false))
  {
    assert SplitsCounter(measured, rules, Counter(rules[h]), b.long, b.short);
    assert TimedPrices(LongLine(b), rules[h], |b.long|, |b.short|, true);
    assert TimedPrices(ShortLine(b), rules[h], |b.long|, |b.short|, false);
  }

  ghost predicate Earlier(a: (nat, bool), b: (nat, bool)) {
    a.0 < b.0 || (a.0 == b.0 && a.1 && !b.1)
  }

  /** Of the places looked at, the lines are those that cost something. */
  ghost predicate Kept(lines: seq<Line>, places: seq<(nat, bool)>, done: seq<(nat, bool)>,
                       measured: map<(RuleKey, int), int>, rules: seq<Rule>) {
    && |lines| == |places| && Ordered(places) && (forall p :: p in places ==> p in done)
    && (forall i :: 0 <= i < |lines| ==> TimedAt(lines[i], measured, rules, places[i]) && lines[i].days > 0)
    && (forall p :: p in done ==> p in places || FreeTimed(measured, rules, p))
  }

  lemma {:induction false} KeptNext(lines: seq<Line>, places: seq<(nat, bool)>, done: seq<(nat, bool)>,
                                    measured: map<(RuleKey, int), int>, rules: seq<Rule>, l: Line, p: (nat, bool))
    requires Kept(lines, places, done, measured, rules) && (forall q :: q in done ==> Earlier(q, p))
    requires TimedAt(l, measured, rules, p)
    ensures Kept(lines + (if l.days > 0 then [l] else []), places + (if l.days > 0 then [p] else []), done + [p],
                 measured, rules)
  {
    if l.days > 0 {
      var all := places + [p];
      forall i | 0 <= i < |places| ensures Earlier(all[i], p) {
        assert places[i] in done;
      }
      assert forall q :: q in places ==> q in all;
    } else {
      assert lines + [] == lines && places + [] == places;
      assert FreeTimed(measured, rules, p);
    }
  }

  ghost function Places(heads: seq<nat>): seq<(nat, bool)> {
    if |heads| == 0 then []
    else Places(heads[..|heads| - 1]) + [(heads[|heads| - 1], true)] + [(heads[|heads| - 1], false)]
  }

  lemma {:induction false} PlacesAre(heads: seq<nat>, p: (nat, bool))
    ensures p in Places(heads) <==> p.0 in heads
  {
    if |heads| > 0 {
      var h := heads[|heads| - 1];
      assert heads == heads[..|heads| - 1] + [h];
      PlacesAre(heads[..|heads| - 1], p);
      if p.1 { assert p == (p.0, true); } else { assert p == (p.0, false); }
    }
  }

  lemma {:induction false} PlacesBefore(heads: seq<nat>, h: nat)
    requires forall k :: k in heads ==> k < h
    ensures forall q :: q in Places(heads) ==> Earlier(q, (h, true)) && Earlier(q, (h, false))
  {
    forall q | q in Places(heads) ensures q.0 < h {
      PlacesAre(heads, q);
    }
  }

  /** What one band adds. */
  lemma {:induction false} KeptBand(lines: seq<Line>, places: seq<(nat, bool)>, heads: seq<nat>,
                                    measured: map<(RuleKey, int), int>, rules: seq<Rule>, b: Band, h: nat)
      returns (next: seq<(nat, bool)>)
    requires Kept(lines, places, Places(heads), measured, rules) && (forall k :: k in heads ==> k < h)
    requires BandHeld(b, h, rules, measured)
    ensures Kept(lines + ChargeLine(b, |b.long|, LongCharge(b)) + ChargeLine(b, |b.short|, ShortCharge(b)), next,
                 Places(heads) + [(h, true)] + [(h, false)], measured, rules)
  {
    BandLinesAre(b, h, rules, measured);
    PlacesBefore(heads, h);
    KeptNext(lines, places, Places(heads), measured, rules, LongLine(b), (h, true));
    var mid := places + (if LongLine(b).days > 0 then [(h, true)] else []);
    KeptNext(lines + ChargeLine(b, |b.long|, LongCharge(b)), mid, Places(heads) + [(h, true)], measured, rules,
             ShortLine(b), (h, false));
    next := mid + (if ShortLine(b).days > 0 then [(h, false)] else []);
  }

  lemma {:induction false} KeptBands(bands: seq<Band>, heads: seq<nat>, measured: map<(RuleKey, int), int>,
                                     rules: seq<Rule>)
      returns (places: seq<(nat, bool)>)
    requires |heads| == |bands| && Rising(heads) && AllHeld(bands, heads, rules, measured)
    ensures Kept(BandLines(bands), places, Places(heads), measured, rules)
  {
    places := [];
    if |bands| > 0 {
      var n := |bands| - 1;
      HeldFront(bands, heads, rules, measured);
      var before := KeptBands(bands[..n], heads[..n], measured, rules);
      places := KeptBand(BandLines(bands[..n]), before, heads[..n], measured, rules, bands[n], heads[n]);
    }
  }

  lemma {:induction false} HeldFront(bands: seq<Band>, heads: seq<nat>, rules: seq<Rule>,
                                     measured: map<(RuleKey, int), int>)
    requires |heads| == |bands| > 0 && Rising(heads) && AllHeld(bands, heads, rules, measured)
    ensures var n := |bands| - 1;
            && AllHeld(bands[..n], heads[..n], rules, measured) && Rising(heads[..n])
            && BandHeld(bands[n], heads[n], rules, measured) && forall k :: k in heads[..n] ==> k < heads[n]
  {
    var n := |bands| - 1;
    var front, hs := bands[..n], heads[..n];
    forall i | 0 <= i < n ensures BandHeld(front[i], hs[i], rules, measured) {
      assert BandHeld(bands[i], heads[i], rules, measured);
    }
  }

  lemma {:induction false} BandHeadsAre(bands: seq<Band>, heads: seq<nat>, rules: seq<Rule>,
                                        measured: map<(RuleKey, int), int>, j: nat)
    requires Banded(bands, heads, rules, measured)
    ensures TimedHead(rules, j) <==> j in heads
  {
    if j in heads {
      var i :| 0 <= i < |heads| && heads[i] == j;
      assert BandHeld(bands[i], heads[i], rules, measured);
      forall k | 0 <= k < j ensures !SameCounter(rules[k], rules[j]) {
        if Timed(rules[k]) {
          assert IsBanded(bands, heads, rules[k], k);
          NotBefore(bands, heads, rules[k], k, i);
        }
      }
    }
    if TimedHead(rules, j) {
      assert IsBanded(bands, heads, rules[j], j);
      HeadsItself(bands, heads, rules, measured, j);
    }
  }

  /** A rule before the head of a band belongs to another band. */
  lemma {:induction false} NotBefore(bands: seq<Band>, heads: seq<nat>, r: Rule, k: nat, i: nat)
    requires |heads| == |bands| && Different(bands) && IsBanded(bands, heads, r, k) && i < |heads| && k < heads[i]
    ensures bands[i].counter != Counter(r)
  {
    var x :| 0 <= x < |heads| && heads[x] <= k && bands[x].counter == Counter(r) && SameTerms(bands[x].rule, r);
    assert i != x;
  }

  lemma {:induction false} HeadsItself(bands: seq<Band>, heads: seq<nat>, rules: seq<Rule>,
                                       measured: map<(RuleKey, int), int>, j: nat)
    requires |heads| == |bands| && AllHeld(bands, heads, rules, measured)
    requires TimedHead(rules, j) && IsBanded(bands, heads, rules[j], j)
    ensures j in heads
  {
    var i :| 0 <= i < |heads| && heads[i] <= j && bands[i].counter == Counter(rules[j])
             && SameTerms(bands[i].rule, rules[j]);
    assert BandHeld(bands[i], heads[i], rules, measured);
    assert SameCounter(rules[heads[i]], rules[j]);
  }

  /** Timed pricing throws exactly for a dispute or a violation without time, and else has the lines of the counters. */
  lemma {:induction false} TimedRulesArePriced(measured: map<(RuleKey, int), int>, rules: seq<Rule>)
      returns (places: seq<(nat, bool)>)
    ensures TimedLines(measured, rules).Thrown? <==> Disputed(rules) || NoTime(measured, rules)
    ensures TimedLines(measured, rules).Ok? ==>
            TimedLinesHold(TimedLines(measured, rules).value, places, measured, rules)
  {
    BandsAreBanded(rules, measured);
    UntimedIs(measured, rules);
    places := [];
    if TimedLines(measured, rules).Ok? {
      var bands, heads := BandsOf(rules, measured).value, BandHeads(rules, measured);
      places := KeptBands(bands, heads, measured, rules);
      forall j: nat, long
        ensures (j, long) in Places(heads) <==> TimedHead(rules, j)
      {
        BandHeadsAre(bands, heads, rules, measured, j);
        PlacesAre(heads, (j, long));
      }
      KeptHold(BandLines(bands), places, Places(heads), measured, rules);
    }
  }

  lemma {:induction false} UntimedIs(measured: map<(RuleKey, int), int>, rules: seq<Rule>)
    ensures Untimed(rules, measured) <==> NoTime(measured, rules)
  {
    if Untimed(rules, measured) {
      var i :| 0 <= i < |rules| && IsTimingRule(rules[i]) && TakesNoTime(rules[i], measured);
      var x :| x in measured && x.0 == rules[i].key && measured[x] <= 0;
      assert rules[i] in rules && Timed(rules[i]);
    }
    if NoTime(measured, rules) {
      var r, x :| r in rules && Timed(r) && x in measured && x.0 == r.key && measured[x] <= 0;
      var i :| 0 <= i < |rules| && rules[i] == r;
      assert IsTimingRule(rules[i]) && TakesNoTime(rules[i], measured);
    }
  }

  lemma {:induction false} KeptHold(lines: seq<Line>, places: seq<(nat, bool)>, done: seq<(nat, bool)>,
                                    measured: map<(RuleKey, int), int>, rules: seq<Rule>)
    requires Kept(lines, places, done, measured, rules)
    requires forall j: nat, long :: (j, long) in done <==> TimedHead(rules, j)
    ensures TimedLinesHold(lines, places, measured, rules)
  {
    forall i | 0 <= i < |lines| ensures CostlyTimed(lines[i], measured, rules, places[i]) {
      assert places[i] in done && places[i] == (places[i].0, places[i].1);
    }
    forall j: nat, long | TimedHead(rules, j) ensures (j, long) in places || FreeTimed(measured, rules, (j, long)) {
      assert (j, long) in done;
    }
  }
}
