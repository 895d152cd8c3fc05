/**
 Countable attendance violations (src/lib/attendanceDeduction.js, 58-166, and
 src/lib/attendanceTimingPolicy.js, 2-34). Days are calendar-day numbers.
 */
module Violations {
  import opened Options

  datatype RowStatus =
    | Present | Late | EarlyCheckout | HalfDay | Absent | MissingCheckin | MissingCheckout
    | WeeklyOff | Holiday | OnLeave | OtherStatus

  /** One attendance row; the day credit is in hundredths of a day. */
  datatype Row = Row(
    date: int, status: RowStatus, manuallyCorrected: bool, dayCredit: Option<int>,
    lateMinutes: Option<int>, earlyMinutes: Option<int>)

  datatype CaseKind = LateCase | EarlyCase | MissingInCase | MissingOutCase | AbsentCase | OtherCase

  datatype CaseStatus = Approved | Rejected | Pending | Resolved

  /** One dated anomaly record. */
  datatype Case = Case(date: int, kind: CaseKind, status: CaseStatus, marked: bool, superseded: bool)

  datatype RuleKey = LateKey | EarlyCheckoutKey | MissingCheckinKey | MissingCheckoutKey | DisapprovedLeaveKey

  /** Amounts of days are hundredths. */
  datatype Rule = Rule(
    key: RuleKey, enabled: bool, triggerCount: int, deductionDays: int, counterGroup: Option<string>,
    cap: Option<int>, durationThreshold: Option<int>, overThresholdDays: Option<int>, periodScope: Option<string>)

  const ALL_KEYS: set<RuleKey> := {LateKey, EarlyCheckoutKey, MissingCheckinKey, MissingCheckoutKey,
                                   DisapprovedLeaveKey}

  predicate NonWorking(status: RowStatus) {
    status == WeeklyOff || status == Holiday || status == OnLeave
  }

  predicate IsTimingRule(r: Rule) {
    r.enabled && (r.key == LateKey || r.key == EarlyCheckoutKey)
    && r.durationThreshold.Some? && r.overThresholdDays.Some?
  }

  function StatusRule(status: RowStatus): Option<RuleKey> {
    match status
    case Late => Some(LateKey)
    case MissingCheckin => Some(MissingCheckinKey)
    case MissingCheckout => Some(MissingCheckoutKey)
    case _ => None
  }

  // ---------------------------------------------------------------- one day's file

  function RowsOn(rows: seq<Row>, d: int): seq<Row> {
    if |rows| == 0 then []
    else RowsOn(rows[..|rows| - 1], d) + (if rows[|rows| - 1].date == d then [rows[|rows| - 1]] else [])
  }

  function CasesOn(cases: seq<Case>, d: int): seq<Case> {
    if |cases| == 0 then []
    else CasesOn(cases[..|cases| - 1], d) + (if cases[|cases| - 1].date == d then [cases[|cases| - 1]] else [])
  }

  lemma {:induction false} RowsOnMembers(rows: seq<Row>, d: int, r: Row)
    ensures r in RowsOn(rows, d) <==> r in rows && r.date == d
  {
    if |rows| > 0 {
      RowsOnMembers(rows[..|rows| - 1], d, r);
      assert rows == rows[..|rows| - 1] + [rows[|rows| - 1]];
    }
  }

  lemma {:induction false} CasesOnMembers(cases: seq<Case>, d: int, c: Case)
    ensures c in CasesOn(cases, d) <==> c in cases && c.date == d
  {
    if |cases| > 0 {
      CasesOnMembers(cases[..|cases| - 1], d, c);
      assert cases == cases[..|cases| - 1] + [cases[|cases| - 1]];
    }
  }

  /** An approved case excuses the whole day. */
  predicate Excused(cases: seq<Case>) {
    exists c :: c in cases && c.status == Approved
  }

  predicate LosesCredit(r: Row) {
    !r.manuallyCorrected
    && (r.status == Absent || r.status == HalfDay || r.status == EarlyCheckout
        || (r.dayCredit.Some? && r.dayCredit.value < 100))
  }

  predicate Recovers(r: Row) {
    r.dayCredit == Some(0) && !NonWorking(r.status)
  }

  /**
   Whether a day counts once against rule k, given the rows and the cases of that day. A status counts
   unless HR corrected the row; a refused absence counts unless the absence bridge recovers it; an
   early check-out counts unless the day already lost credit; an approved case excuses everything.
   */
  predicate Violates(rows: seq<Row>, cases: seq<Case>, timingKeys: set<RuleKey>, recovery: bool, k: RuleKey) {
    !Excused(cases) && (
      || (k !in timingKeys && exists r :: r in rows && !r.manuallyCorrected && StatusRule(r.status) == Some(k))
      || (k == DisapprovedLeaveKey
          && !(recovery && exists r :: r in rows && Recovers(r))
          && exists c :: c in cases && c.status == Rejected && c.kind == AbsentCase)
      || (k == EarlyCheckoutKey && k !in timingKeys
          && !(exists r :: r in rows && LosesCredit(r))
          && exists c :: c in cases && c.kind == EarlyCase)
    )
  }

  function TimingKeys(rules: seq<Rule>): set<RuleKey> {
    set r | r in rules && IsTimingRule(r) :: r.key
  }

  method ExcusedDays(cases: seq<Case>) returns (excused: set<int>)
    ensures forall d :: d in excused <==> exists c :: c in cases && c.status == Approved && c.date == d
  {
    excused := {};
    for i := 0 to |cases|
      invariant forall d :: d in excused <==> exists c :: c in cases[..i] && c.status == Approved && c.date == d
    {
      assert cases[..i + 1] == cases[..i] + [cases[i]];
      if cases[i].status == Approved {
        excused := excused + {cases[i].date};
      }
    }
    assert cases[..|cases|] == cases;
  }

  method CreditLossDays(rows: seq<Row>, excused: set<int>) returns (lost: set<int>)
    ensures forall d :: d in lost <==> d !in excused && exists r :: r in rows && LosesCredit(r) && r.date == d
  {
    lost := {};
    for i := 0 to |rows|
      invariant forall d :: d in lost <==> d !in excused && exists r :: r in rows[..i] && LosesCredit(r) && r.date == d
    {
      assert rows[..i + 1] == rows[..i] + [rows[i]];
      if rows[i].date !in excused && LosesCredit(rows[i]) {
        lost := lost + {rows[i].date};
      }
    }
    assert rows[..|rows|] == rows;
  }

  predicate StatusCounts(r: Row, timingKeys: set<RuleKey>, excused: set<int>, k: RuleKey, d: int) {
    !r.manuallyCorrected && StatusRule(r.status) == Some(k) && k !in timingKeys && r.date == d && d !in excused
  }

  method StatusViolations(rows: seq<Row>, timingKeys: set<RuleKey>, excused: set<int>)
    returns (seen: set<(RuleKey, int)>)
    ensures forall k, d :: (k, d) in seen <==> exists r :: r in rows && StatusCounts(r, timingKeys, excused, k, d)
  {
    seen := {};
    for i := 0 to |rows|
      invariant forall k, d ::
                  (k, d) in seen <==> exists r :: r in rows[..i] && StatusCounts(r, timingKeys, excused, k, d)
    {
      ghost var before := seen;
      if !rows[i].manuallyCorrected {
        var k := StatusRule(rows[i].status);
        if k.Some? && k.value !in timingKeys && rows[i].date !in excused {
          seen := seen + {(k.value, rows[i].date)};
        }
      }
      assert rows[..i + 1] == rows[..i] + [rows[i]];
      forall k, d ensures (k, d) in seen <==>
                          exists r :: r in rows[..i + 1] && StatusCounts(r, timingKeys, excused, k, d) {
        assert (k, d) in seen <==> (k, d) in before || StatusCounts(rows[i], timingKeys, excused, k, d);
      }
    }
    assert rows[..|rows|] == rows;
  }

  predicate Recovered(rows: seq<Row>, recovery: bool, d: int) {
    recovery && exists r :: r in rows && r.date == d && Recovers(r)
  }

  predicate CaseCounts(c: Case, rows: seq<Row>, timingKeys: set<RuleKey>, recovery: bool,
                       excused: set<int>, lost: set<int>, k: RuleKey, d: int) {
    c.date == d && d !in excused &&
    if c.status == Rejected && c.kind == AbsentCase then k == DisapprovedLeaveKey && !Recovered(rows, recovery, d)
    else c.status != Approved && c.kind == EarlyCase && k == EarlyCheckoutKey && d !in lost && k !in timingKeys
  }

  method CaseViolations(cases: seq<Case>, rows: seq<Row>, timingKeys: set<RuleKey>, recovery: bool,
                        excused: set<int>, lost: set<int>)
    returns (seen: set<(RuleKey, int)>)
    ensures forall k, d :: (k, d) in seen <==>
              exists c :: c in cases && CaseCounts(c, rows, timingKeys, recovery, excused, lost, k, d)
  {
    seen := {};
    for i := 0 to |cases|
      invariant forall k, d :: (k, d) in seen <==>
                  exists c :: c in cases[..i] && CaseCounts(c, rows, timingKeys, recovery, excused, lost, k, d)
    {
      ghost var before := seen;
      var c := cases[i];
      if c.status == Rejected && c.kind == AbsentCase {
        if !Recovered(rows, recovery, c.date) && c.date !in excused {
          seen := seen + {(DisapprovedLeaveKey, c.date)};
        }
      } else if c.status != Approved && c.kind == EarlyCase && c.date !in lost {
        if EarlyCheckoutKey !in timingKeys && c.date !in excused {
          seen := seen + {(EarlyCheckoutKey, c.date)};
        }
      }
      assert cases[..i + 1] == cases[..i] + [c];
      forall k, d ensures (k, d) in seen <==>
                          exists x :: x in cases[..i + 1]
                            && CaseCounts(x, rows, timingKeys, recovery, excused, lost, k, d) {
        assert (k, d) in seen <==> (k, d) in before || CaseCounts(c, rows, timingKeys, recovery, excused, lost, k, d);
      }
    }
    assert cases[..|cases|] == cases;
  }

  /** The source's successive loops; a JavaScript Set of "rule|day" strings becomes a set of pairs. */
  method CountViolationDays(rows: seq<Row>, cases: seq<Case>, rules: seq<Rule>, recovery: bool)
    returns (seen: set<(RuleKey, int)>)
    ensures forall k, d :: (k, d) in seen <==>
              Violates(RowsOn(rows, d), CasesOn(cases, d), TimingKeys(rules), recovery, k)
  {
    var timingKeys := TimingKeys(rules);
    var excused := ExcusedDays(cases);
    var lost := CreditLossDays(rows, excused);
    var byStatus := StatusViolations(rows, timingKeys, excused);
    var byCase := CaseViolations(cases, rows, timingKeys, recovery, excused, lost);
    seen := byStatus + byCase;
    forall k, d ensures (k, d) in seen <==> Violates(RowsOn(rows, d), CasesOn(cases, d), timingKeys, recovery, k) {
      ViolatesByDate(rows, cases, timingKeys, recovery, excused, lost, k, d);
    }
  }

  lemma {:induction false} ViolatesByDate(rows: seq<Row>, cases: seq<Case>, timingKeys: set<RuleKey>, recovery: bool,
                                          excused: set<int>, lost: set<int>, k: RuleKey, d: int)
    requires d in excused <==> exists c :: c in cases && c.status == Approved && c.date == d
    requires d in lost <==> d !in excused && exists r :: r in rows && LosesCredit(r) && r.date == d
    ensures Violates(RowsOn(rows, d), CasesOn(cases, d), timingKeys, recovery, k) <==>
              || (exists r :: r in rows && StatusCounts(r, timingKeys, excused, k, d))
              || (exists c :: c in cases && CaseCounts(c, rows, timingKeys, recovery, excused, lost, k, d))
  {
    var dayRows, dayCases := RowsOn(rows, d), CasesOn(cases, d);
    forall r ensures r in dayRows <==> r in rows && r.date == d { RowsOnMembers(rows, d, r); }
    forall c ensures c in dayCases <==> c in cases && c.date == d { CasesOnMembers(cases, d, c); }
    assert Excused(dayCases) <==> d in excused;
    if d !in excused {
      StatusPart(rows, dayRows, timingKeys, excused, k, d);
      CasePart(cases, dayCases, rows, dayRows, timingKeys, recovery, excused, lost, k, d);
    }
  }

  lemma {:induction false} StatusPart(rows: seq<Row>, dayRows: seq<Row>, timingKeys: set<RuleKey>, excused: set<int>,
                                      k: RuleKey, d: int)
    requires d !in excused
    requires forall r :: r in dayRows <==> r in rows && r.date == d
    ensures (k !in timingKeys && exists r :: r in dayRows && !r.manuallyCorrected && StatusRule(r.status) == Some(k))
            <==> exists r :: r in rows && StatusCounts(r, timingKeys, excused, k, d)
  {
    if r :| r in dayRows && !r.manuallyCorrected && StatusRule(r.status) == Some(k) {
      assert k !in timingKeys ==> StatusCounts(r, timingKeys, excused, k, d);
    }
  }

  lemma {:induction false} CasePart(cases: seq<Case>, dayCases: seq<Case>, rows: seq<Row>, dayRows: seq<Row>,
                                    timingKeys: set<RuleKey>,
                                    recovery: bool, excused: set<int>, lost: set<int>, k: RuleKey, d: int)
    requires d !in excused && forall c :: c in dayCases ==> c.status != Approved
    requires forall r :: r in dayRows <==> r in rows && r.date == d
    requires forall c :: c in dayCases <==> c in cases && c.date == d
    requires d in lost <==> exists r :: r in rows && LosesCredit(r) && r.date == d
    ensures (exists c :: c in cases && CaseCounts(c, rows, timingKeys, recovery, excused, lost, k, d)) <==>
              || (k == DisapprovedLeaveKey
                  && !(recovery && exists r :: r in dayRows && Recovers(r))
                  && exists c :: c in dayCases && c.status == Rejected && c.kind == AbsentCase)
              || (k == EarlyCheckoutKey && k !in timingKeys
                  && !(exists r :: r in dayRows && LosesCredit(r))
                  && exists c :: c in dayCases && c.kind == EarlyCase)
  {
    assert d in lost <==> exists r :: r in dayRows && LosesCredit(r);
    assert Recovered(rows, recovery, d) <==> recovery && exists r :: r in dayRows && Recovers(r);
    if c :| c in dayCases && c.status == Rejected && c.kind == AbsentCase {
      assert k == DisapprovedLeaveKey && !Recovered(rows, recovery, d)
             ==> CaseCounts(c, rows, timingKeys, recovery, excused, lost, k, d);
    }
    if c :| c in dayCases && c.kind == EarlyCase {
      assert k == EarlyCheckoutKey && k !in timingKeys && d !in lost
             ==> CaseCounts(c, rows, timingKeys, recovery, excused, lost, k, d);
    }
  }

  // ---------------------------------------------------------------- measured late and early incidents

  function Minutes(r: Row, k: RuleKey): Option<int> {
    if k == LateKey then r.lateMinutes else r.earlyMinutes
  }

  predicate RecordedIncident(r: Row, cases: seq<Case>, k: RuleKey) {
    || (if k == LateKey then r.status == Late else r.status == EarlyCheckout)
    || ((r.status == Late || r.status == EarlyCheckout) && Minutes(r, k).GetOr(0) > 0)
    || r.status == HalfDay
    || exists c :: c in cases && c.kind == (if k == LateKey then LateCase else EarlyCase) && c.status != Approved
  }

  /** A row whose incident of kind k is priced by its minutes, given the cases of its day. */
  predicate Examined(r: Row, cases: seq<Case>, k: RuleKey) {
    && !r.manuallyCorrected && !NonWorking(r.status)
    && !(exists c :: c in cases && c.marked && !c.superseded)
    && !Excused(cases)
    && RecordedIncident(r, cases, k)
  }

  /** The minutes a day is priced with: those of its last examined row that has any. */
  function Measured(rows: seq<Row>, cases: seq<Case>, k: RuleKey): Option<int> {
    if |rows| == 0 then None
    else
      var r := rows[|rows| - 1];
      if Examined(r, cases, k) && Minutes(r, k).GetOr(0) > 0 then Minutes(r, k)
      else Measured(rows[..|rows| - 1], cases, k)
  }

  predicate LacksEvidence(r: Row, cases: seq<Case>, keys: set<RuleKey>) {
    exists k :: k in keys && Examined(r, CasesOn(cases, r.date), k) && Minutes(r, k).None?
  }

  ghost predicate HoldsMeasured(m: map<(RuleKey, int), int>, rows: seq<Row>, cases: seq<Case>, keys: set<RuleKey>) {
    forall k, d ::
      && ((k, d) in m <==> k in keys && Measured(RowsOn(rows, d), CasesOn(cases, d), k).Some?)
      && ((k, d) in m ==> Some(m[(k, d)]) == Measured(RowsOn(rows, d), CasesOn(cases, d), k))
  }

  /** What one row adds: one entry per timing key of an already scanned rule. */
  ghost predicate RowAdded(before: map<(RuleKey, int), int>, after: map<(RuleKey, int), int>, r: Row,
                           cases: seq<Case>, keys: set<RuleKey>) {
    forall k, d ::
      if k in keys && d == r.date && Examined(r, CasesOn(cases, d), k) && Minutes(r, k).GetOr(0) > 0
      then (k, d) in after && Some(after[(k, d)]) == Minutes(r, k)
      else ((k, d) in after <==> (k, d) in before) && ((k, d) in before ==> after[(k, d)] == before[(k, d)])
  }

  lemma {:induction false} RowAddedKeepsMeasured(before: map<(RuleKey, int), int>, after: map<(RuleKey, int), int>,
                                                 rows: seq<Row>, r: Row, cases: seq<Case>, keys: set<RuleKey>)
    requires HoldsMeasured(before, rows, cases, keys) && RowAdded(before, after, r, cases, keys)
    ensures HoldsMeasured(after, rows + [r], cases, keys)
  {
    assert (rows + [r])[..|rows|] == rows;
    forall k, d
      ensures (k, d) in after <==> k in keys && Measured(RowsOn(rows + [r], d), CasesOn(cases, d), k).Some?
      ensures (k, d) in after ==> Some(after[(k, d)]) == Measured(RowsOn(rows + [r], d), CasesOn(cases, d), k)
    {
      var dayRows := RowsOn(rows, d);
      assert (dayRows + [r])[..|dayRows|] == dayRows;
      assert RowsOn(rows + [r], d) == if r.date == d then dayRows + [r] else dayRows;
    }
  }

  method MeasureRow(m: map<(RuleKey, int), int>, r: Row, cases: seq<Case>, rules: seq<Rule>)
    returns (res: Result<map<(RuleKey, int), int>>)
    ensures res.Thrown? <==> LacksEvidence(r, cases, TimingKeys(rules))
    ensures res.Ok? ==> RowAdded(m, res.value, r, cases, TimingKeys(rules))
  {
    var dayCases := CasesOn(cases, r.date);
    var out := m;
    for i := 0 to |rules|
      invariant !LacksEvidence(r, cases, TimingKeys(rules[..i]))
      invariant RowAdded(m, out, r, cases, TimingKeys(rules[..i]))
    {
      var rule := rules[i];
      ghost var seen, next := TimingKeys(rules[..i]), TimingKeys(rules[..i + 1]);
      assert rules[..i + 1] == rules[..i] + [rule];
      assert next == if IsTimingRule(rule) then seen + {rule.key} else seen;
      if IsTimingRule(rule) && Examined(r, dayCases, rule.key) {
        var minutes := Minutes(r, rule.key);
        if minutes.None? {
          assert rule.key in TimingKeys(rules);
          return Thrown;
        }
        if minutes.value > 0 {
          out := out[(rule.key, r.date) := minutes.value];
        }
      }
    }
    assert rules[..|rules|] == rules;
    return Ok(out);
  }

  /** The source's loop over rows; a Map keyed "rule|day" becomes a map on pairs. */
  method TimingViolationDays(rows: seq<Row>, cases: seq<Case>, rules: seq<Rule>)
    returns (res: Result<map<(RuleKey, int), int>>)
    ensures res.Thrown? <==> exists r :: r in rows && LacksEvidence(r, cases, TimingKeys(rules))
    ensures res.Ok? ==> HoldsMeasured(res.value, rows, cases, TimingKeys(rules))
  {
    var m: map<(RuleKey, int), int> := map[];
    for i := 0 to |rows|
      invariant forall r :: r in rows[..i] ==> !LacksEvidence(r, cases, TimingKeys(rules))
      invariant HoldsMeasured(m, rows[..i], cases, TimingKeys(rules))
    {
      assert rows[..i + 1] == rows[..i] + [rows[i]];
      var next := MeasureRow(m, rows[i], cases, rules);
      if next.Thrown? {
        return Thrown;
      }
      RowAddedKeepsMeasured(m, next.value, rows[..i], rows[i], cases, TimingKeys(rules));
      m := next.value;
    }
    assert rows[..|rows|] == rows;
    return Ok(m);
  }
}
