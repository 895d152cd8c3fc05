/**
 What a period costs, said of its rows, cases and rules rather than of the loops over them
 (src/lib/attendanceDeduction.js, 60-225, src/lib/attendanceTimingPolicy.js, 4-56, and src/lib/anomalyPayroll.js,
  42-101).
 */
module PeriodCosts {
  import opened Options
  import opened Arithmetic
  import opened Sums
  import opened Violations
  import opened Pricing
  import opened Attribution
  import opened Monotone
  import opened CounterPrices
  import opened BandPrices

  // ---------------------------------------------------------------- which days break a rule

  /** An approved case forgives the day. */
  ghost predicate Forgiven(cases: seq<Case>, d: int) {
    exists c :: c in cases && c.date == d && c.status == Approved
  }

  ghost predicate TimedKey(rules: seq<Rule>, k: RuleKey) {
    exists r :: r in rules && Timed(r) && r.key == k
  }

  ghost predicate Stands(rows: seq<Row>, d: int, status: RowStatus) {
    exists r :: r in rows && r.date == d && !r.manuallyCorrected && r.status == status
  }

  ghost predicate Working(r: Row) { r.status != WeeklyOff && r.status != Holiday && r.status != OnLeave }

  /** The day lost credit already, so that leaving early is not charged again. */
  ghost predicate CreditLost(rows: seq<Row>, d: int) {
    exists r :: r in rows && r.date == d && !r.manuallyCorrected
                && (r.status == Absent || r.status == HalfDay || r.status == EarlyCheckout
                    || (r.dayCredit.Some? && r.dayCredit.value < 100))
  }

  /** A whole lost day of work, which recovery charges itself. */
  ghost predicate WhollyLost(rows: seq<Row>, d: int) {
    exists r :: r in rows && r.date == d && Working(r) && r.dayCredit == Some(0)
  }

  ghost predicate RefusedOn(cases: seq<Case>, d: int) {
    exists c :: c in cases && c.date == d && c.status == Rejected && c.kind == AbsentCase
  }

  ghost predicate EarlyOn(cases: seq<Case>, d: int) {
    exists c :: c in cases && c.date == d && c.kind == EarlyCase
  }

  /** The day counts once against the key. */
  ghost predicate Breaks(rows: seq<Row>, cases: seq<Case>, rules: seq<Rule>, recovery: bool, k: RuleKey, d: int) {
    && !Forgiven(cases, d)
    && match k
       case LateKey => !TimedKey(rules, LateKey) && Stands(rows, d, Late)
       case MissingCheckinKey => Stands(rows, d, MissingCheckin)
       case MissingCheckoutKey => Stands(rows, d, MissingCheckout)
       case EarlyCheckoutKey => !TimedKey(rules, EarlyCheckoutKey) && EarlyOn(cases, d) && !CreditLost(rows, d)
       case DisapprovedLeaveKey => RefusedOn(cases, d) && !(recovery && WhollyLost(rows, d))
  }

  lemma {:induction false} TimedKeys(rules: seq<Rule>, k: RuleKey)
    ensures k in TimingKeys(rules) <==> TimedKey(rules, k)
  {
    if TimedKey(rules, k) {
      var r :| r in rules && Timed(r) && r.key == k;
      assert IsTimingRule(r);
    }
  }

  /** The members of one day's file are the rows and cases of that date. */
  ghost predicate DayFile(rows: seq<Row>, cases: seq<Case>, d: int, dayRows: seq<Row>, dayCases: seq<Case>) {
    && (forall r :: r in dayRows <==> r in rows && r.date == d)
    && (forall c :: c in dayCases <==> c in cases && c.date == d)
  }

  lemma {:induction false} FileOf(rows: seq<Row>, cases: seq<Case>, d: int)
    ensures DayFile(rows, cases, d, RowsOn(rows, d), CasesOn(cases, d))
  {
    forall r ensures r in RowsOn(rows, d) <==> r in rows && r.date == d { RowsOnMembers(rows, d, r); }
    forall c ensures c in CasesOn(cases, d) <==> c in cases && c.date == d { CasesOnMembers(cases, d, c); }
  }

  lemma {:induction false} FileSays(rows: seq<Row>, cases: seq<Case>, d: int, dayRows: seq<Row>, dayCases: seq<Case>)
    requires DayFile(rows, cases, d, dayRows, dayCases)
    ensures Excused(dayCases) <==> Forgiven(cases, d)
    ensures forall s :: (exists r :: r in dayRows && !r.manuallyCorrected && r.status == s) <==> Stands(rows, d, s)
    ensures (exists r :: r in dayRows && Recovers(r)) <==> WhollyLost(rows, d)
    ensures (exists r :: r in dayRows && LosesCredit(r)) <==> CreditLost(rows, d)
    ensures (exists c :: c in dayCases && c.status == Rejected && c.kind == AbsentCase) <==> RefusedOn(cases, d)
    ensures (exists c :: c in dayCases && c.kind == EarlyCase) <==> EarlyOn(cases, d)
  {
    forall r ensures Recovers(r) <==> Working(r) && r.dayCredit == Some(0) {
    }
    if WhollyLost(rows, d) {
      var r :| r in rows && r.date == d && Working(r) && r.dayCredit == Some(0);
      assert r in dayRows && Recovers(r);
    }
    if CreditLost(rows, d) {
      var r :| r in rows && r.date == d && !r.manuallyCorrected
               && (r.status == Absent || r.status == HalfDay || r.status == EarlyCheckout
                   || (r.dayCredit.Some? && r.dayCredit.value < 100));
      assert r in dayRows && LosesCredit(r);
    }
    forall s ensures (exists r :: r in dayRows && !r.manuallyCorrected && r.status == s) <==> Stands(rows, d, s) {
      if Stands(rows, d, s) {
        var r :| r in rows && r.date == d && !r.manuallyCorrected && r.status == s;
        assert r in dayRows;
      }
    }
  }

  /** The status that feeds a key, if any. */
  lemma {:induction false} StatusFeeds(dayRows: seq<Row>, k: RuleKey)
    ensures (exists r :: r in dayRows && !r.manuallyCorrected && StatusRule(r.status) == Some(k)) <==>
              match k
              case LateKey => exists r :: r in dayRows && !r.manuallyCorrected && r.status == Late
              case MissingCheckinKey => exists r :: r in dayRows && !r.manuallyCorrected && r.status == MissingCheckin
              case MissingCheckoutKey => exists r :: r in dayRows && !r.manuallyCorrected && r.status == MissingCheckout
              case EarlyCheckoutKey => false
              case DisapprovedLeaveKey => false
  {
    match k
    case LateKey =>
      if r :| r in dayRows && !r.manuallyCorrected && r.status == Late { assert StatusRule(r.status) == Some(k); }
    case MissingCheckinKey =>
      if r :| r in dayRows && !r.manuallyCorrected && r.status == MissingCheckin {
        assert StatusRule(r.status) == Some(k);
      }
    case MissingCheckoutKey =>
      if r :| r in dayRows && !r.manuallyCorrected && r.status == MissingCheckout {
        assert StatusRule(r.status) == Some(k);
      }
    case EarlyCheckoutKey =>
    case DisapprovedLeaveKey =>
  }

  /** The days that are counted are those that break a rule. */
  lemma {:induction false} CountedDays(rows: seq<Row>, cases: seq<Case>, rules: seq<Rule>, recovery: bool, k: RuleKey,
                                       d: int)
    ensures Violates(RowsOn(rows, d), CasesOn(cases, d), TimingKeys(rules), recovery, k)
            <==> Breaks(rows, cases, rules, recovery, k, d)
  {
    FileOf(rows, cases, d);
    FileSays(rows, cases, d, RowsOn(rows, d), CasesOn(cases, d));
    StatusFeeds(RowsOn(rows, d), k);
    TimedKeys(rules, k);
    NeverTimed(rules);
  }

  lemma {:induction false} NeverTimed(rules: seq<Rule>)
    ensures MissingCheckinKey !in TimingKeys(rules) && MissingCheckoutKey !in TimingKeys(rules)
    ensures DisapprovedLeaveKey !in TimingKeys(rules)
  {
  }

  // ---------------------------------------------------------------- how long a day was late or short

  ghost function MinutesFor(r: Row, k: RuleKey): Option<int> {
    if k == LateKey then r.lateMinutes else r.earlyMinutes
  }

  ghost predicate Took(minutes: Option<int>) { minutes.Some? && minutes.value > 0 }

  /** What was recorded on the day calls for a time: its status, the other side of it, half a day, or a case. */
  ghost predicate CallsForTime(r: Row, cases: seq<Case>, k: RuleKey) {
    if k == LateKey then
      || r.status == Late || r.status == HalfDay || (r.status == EarlyCheckout && Took(r.lateMinutes))
      || exists c :: c in cases && c.date == r.date && c.kind == LateCase && c.status != Approved
    else
      || r.status == EarlyCheckout || r.status == HalfDay || (r.status == Late && Took(r.earlyMinutes))
      || exists c :: c in cases && c.date == r.date && c.kind == EarlyCase && c.status != Approved
  }

  /** The row's time is taken: a working day that HR neither corrected, forgave nor priced. */
  ghost predicate TimeTaken(r: Row, cases: seq<Case>, k: RuleKey) {
    && !r.manuallyCorrected && Working(r) && !Forgiven(cases, r.date)
    && !(exists c :: c in cases && c.date == r.date && c.marked && !c.superseded)
    && CallsForTime(r, cases, k)
  }

  /** The last row of the day with a time. */
  ghost predicate LastTime(rows: seq<Row>, cases: seq<Case>, k: RuleKey, d: int, i: nat)
    requires i < |rows|
  {
    && rows[i].date == d && TimeTaken(rows[i], cases, k) && Took(MinutesFor(rows[i], k))
    && forall j :: i < j < |rows| && rows[j].date == d ==>
       !(TimeTaken(rows[j], cases, k) && Took(MinutesFor(rows[j], k)))
  }

  lemma {:induction false} ExaminedIs(r: Row, cases: seq<Case>, dayCases: seq<Case>, k: RuleKey)
    requires forall c :: c in dayCases <==> c in cases && c.date == r.date
    requires k == LateKey || k == EarlyCheckoutKey
    ensures Examined(r, dayCases, k) <==> TimeTaken(r, cases, k)
  {
    assert Excused(dayCases) <==> Forgiven(cases, r.date);
    assert (exists c :: c in dayCases && c.marked && !c.superseded)
           <==> exists c :: c in cases && c.date == r.date && c.marked && !c.superseded;
    assert RecordedIncident(r, dayCases, k) <==> CallsForTime(r, cases, k) by {
      var kind := if k == LateKey then LateCase else EarlyCase;
      assert (exists c :: c in dayCases && c.kind == kind && c.status != Approved)
             <==> exists c :: c in cases && c.date == r.date && c.kind == kind && c.status != Approved;
    }
  }

  /** The row gives the day its time. */
  ghost predicate GivesTime(r: Row, cases: seq<Case>, k: RuleKey, d: int) {
    r.date == d && TimeTaken(r, cases, k) && Took(MinutesFor(r, k))
  }

  /** The day's time against the key is that of its last row that gives one. */
  ghost predicate HasTime(rows: seq<Row>, cases: seq<Case>, k: RuleKey, d: int, minutes: int) {
    exists i: nat :: i < |rows| && LastTime(rows, cases, k, d, i) && MinutesFor(rows[i], k) == Some(minutes)
  }

  lemma {:induction false} MeasuredIs(rows: seq<Row>, cases: seq<Case>, k: RuleKey, d: int)
    requires k == LateKey || k == EarlyCheckoutKey
    ensures var m := Measured(RowsOn(rows, d), CasesOn(cases, d), k);
            && (m.None? ==> forall i :: 0 <= i < |rows| ==> !GivesTime(rows[i], cases, k, d))
            && (m.Some? ==> HasTime(rows, cases, k, d, m.value))
  {
    if |rows| > 0 {
      var front, r := rows[..|rows| - 1], rows[|rows| - 1];
      assert rows == front + [r];
      MeasuredIs(front, cases, k, d);
      MeasuredMovesOn(front, r, cases, k, d);
      TimeMovesOn(front, r, cases, k, d);
    }
  }

  lemma {:induction false} MeasuredMovesOn(front: seq<Row>, r: Row, cases: seq<Case>, k: RuleKey, d: int)
    requires k == LateKey || k == EarlyCheckoutKey
    ensures Measured(RowsOn(front + [r], d), CasesOn(cases, d), k)
            == if GivesTime(r, cases, k, d) then MinutesFor(r, k) else Measured(RowsOn(front, d), CasesOn(cases, d), k)
  {
    var before := RowsOn(front, d);
    assert (front + [r])[..|front|] == front;
    if r.date == d {
      FileOf(front, cases, d);
      ExaminedIs(r, cases, CasesOn(cases, d), k);
      assert (before + [r])[..|before|] == before;
    } else {
      assert before + [] == before;
    }
  }

  lemma {:induction false} TimeMovesOn(front: seq<Row>, r: Row, cases: seq<Case>, k: RuleKey, d: int)
    ensures GivesTime(r, cases, k, d) ==> HasTime(front + [r], cases, k, d, MinutesFor(r, k).value)
    ensures !GivesTime(r, cases, k, d) ==>
              forall m :: HasTime(front, cases, k, d, m) ==> HasTime(front + [r], cases, k, d, m)
  {
    var rows := front + [r];
    if GivesTime(r, cases, k, d) {
      assert LastTime(rows, cases, k, d, |front|);
    } else {
      forall m | HasTime(front, cases, k, d, m) ensures HasTime(rows, cases, k, d, m) {
        var i: nat :| i < |front| && LastTime(front, cases, k, d, i) && MinutesFor(front[i], k) == Some(m);
        assert LastTime(rows, cases, k, d, i);
      }
    }
  }

  lemma {:induction false} OneTime(rows: seq<Row>, cases: seq<Case>, k: RuleKey, d: int, m: int, n: int)
    requires HasTime(rows, cases, k, d, m) && HasTime(rows, cases, k, d, n)
    ensures m == n
  {
    var i: nat :| i < |rows| && LastTime(rows, cases, k, d, i) && MinutesFor(rows[i], k) == Some(m);
    var j: nat :| j < |rows| && LastTime(rows, cases, k, d, j) && MinutesFor(rows[j], k) == Some(n);
  }

  /** The measured days are those of a timed key that have a time, with that time. */
  lemma {:induction false} MeasuredDays(rows: seq<Row>, cases: seq<Case>, rules: seq<Rule>, k: RuleKey, d: int,
                                        minutes: int)
    ensures (k, d) in MeasuredOf(rows, cases, rules) && MeasuredOf(rows, cases, rules)[(k, d)] == minutes
            <==> TimedKey(rules, k) && HasTime(rows, cases, k, d, minutes)
  {
    CountedMembers(rows, cases, rules, false, k, d);
    TimedKeys(rules, k);
    if TimedKey(rules, k) {
      MeasuredIs(rows, cases, k, d);
      var m := Measured(RowsOn(rows, d), CasesOn(cases, d), k);
      if HasTime(rows, cases, k, d, minutes) {
        var i: nat :| i < |rows| && LastTime(rows, cases, k, d, i) && MinutesFor(rows[i], k) == Some(minutes);
        assert GivesTime(rows[i], cases, k, d);
        OneTime(rows, cases, k, d, minutes, m.value);
      }
    }
  }

  /** An incident that a timed rule would price has no time. */
  ghost predicate TimeIsMissing(rows: seq<Row>, cases: seq<Case>, rules: seq<Rule>) {
    exists r, k :: r in rows && TimedKey(rules, k) && TimeTaken(r, cases, k) && MinutesFor(r, k).None?
  }

  lemma {:induction false} MissingTime(rows: seq<Row>, cases: seq<Case>, rules: seq<Rule>)
    ensures Unmeasured(rows, cases, rules) <==> TimeIsMissing(rows, cases, rules)
  {
    forall r: Row, k ensures k in TimingKeys(rules) && Examined(r, CasesOn(cases, r.date), k)
                        <==> TimedKey(rules, k) && TimeTaken(r, cases, k) {
      TimedKeys(rules, k);
      FileOf(rows, cases, r.date);
      if TimedKey(rules, k) {
        ExaminedIs(r, cases, CasesOn(cases, r.date), k);
      }
    }
    if Unmeasured(rows, cases, rules) {
      var r :| r in rows && LacksEvidence(r, cases, TimingKeys(rules));
      var k :| k in TimingKeys(rules) && Examined(r, CasesOn(cases, r.date), k) && Minutes(r, k).None?;
      assert TimeTaken(r, cases, k) && MinutesFor(r, k).None?;
    }
    if TimeIsMissing(rows, cases, rules) {
      var r, k :| r in rows && TimedKey(rules, k) && TimeTaken(r, cases, k) && MinutesFor(r, k).None?;
      assert k in TimingKeys(rules) && Examined(r, CasesOn(cases, r.date), k);
      assert LacksEvidence(r, cases, TimingKeys(rules));
    }
  }

  // ---------------------------------------------------------------- lost credit and refused absences

  /** A working day nobody forgave, with less than a whole day's credit. */
  ghost predicate Loses(r: Row, cases: seq<Case>) {
    r.dayCredit.Some? && 0 <= r.dayCredit.value < 100 && Working(r) && !Forgiven(cases, r.date)
  }

  /** The first row of its day that lost credit. */
  ghost predicate FirstToLose(rows: seq<Row>, cases: seq<Case>, i: nat) {
    i < |rows| && Loses(rows[i], cases)
    && forall j :: 0 <= j < i && rows[j].date == rows[i].date ==> !Loses(rows[j], cases)
  }

  /** What the row lost, charged to its day. */
  ghost function LossOf(r: Row): Entry<int> {
    Entry(r.date, if r.dayCredit.Some? then 100 - r.dayCredit.value else 0)
  }

  ghost predicate ChargesLoss(e: Entry<int>, rows: seq<Row>, cases: seq<Case>) {
    exists i: nat :: FirstToLose(rows, cases, i) && e == LossOf(rows[i])
  }

  ghost predicate EachLoss(entries: seq<Entry<int>>, rows: seq<Row>, cases: seq<Case>) {
    forall i: nat :: FirstToLose(rows, cases, i) ==> LossOf(rows[i]) in entries
  }

  ghost predicate OnlyLosses(entries: seq<Entry<int>>, rows: seq<Row>, cases: seq<Case>) {
    forall e :: e in entries ==> ChargesLoss(e, rows, cases)
  }

  /** One charge for each day that lost credit: what the first row of the day lost. */
  ghost predicate AbsenceCharges(entries: seq<Entry<int>>, rows: seq<Row>, cases: seq<Case>) {
    DistinctKeys(entries) && OnlyLosses(entries, rows, cases) && EachLoss(entries, rows, cases)
  }

  /** An absence was refused on the day, nobody forgave it, and it is not charged yet. */
  ghost predicate RefusedDay(scan: seq<Case>, cases: seq<Case>, absences: seq<Entry<int>>, d: int) {
    RefusedOn(scan, d) && !Forgiven(cases, d) && forall e :: e in absences ==> e.key != d
  }

  /** A whole day for each of those days. */
  ghost predicate RefusalCharges(entries: seq<Entry<int>>, scan: seq<Case>, cases: seq<Case>,
                                 absences: seq<Entry<int>>) {
    && DistinctKeys(entries)
    && (forall e :: e in entries ==> e.amount == 100 && RefusedDay(scan, cases, absences, e.key))
    && (forall d :: RefusedDay(scan, cases, absences, d) ==> Entry(d, 100) in entries)
  }

  lemma {:induction false} LostIs(r: Row, cases: seq<Case>)
    ensures Lost(r, CasesOn(cases, r.date)) > 0 <==> Loses(r, cases)
    ensures Loses(r, cases) ==> Lost(r, CasesOn(cases, r.date)) == 100 - r.dayCredit.value
  {
    FileOf([], cases, r.date);
    assert Excused(CasesOn(cases, r.date)) <==> Forgiven(cases, r.date);
  }

  lemma {:induction false} LossSnoc(front: seq<Row>, r: Row, cases: seq<Case>, i: nat)
    ensures i < |front| ==> (FirstToLose(front + [r], cases, i) <==> FirstToLose(front, cases, i))
    ensures FirstToLose(front + [r], cases, |front|) <==>
              Loses(r, cases) && forall j :: 0 <= j < |front| && front[j].date == r.date ==> !Loses(front[j], cases)
  {
    var rows := front + [r];
    assert forall j :: 0 <= j < |front| ==> rows[j] == front[j];
  }

  /** A day is charged already exactly when an earlier row of it lost credit. */
  lemma {:induction false} ChargedIs(entries: seq<Entry<int>>, rows: seq<Row>, cases: seq<Case>, d: int)
    requires AbsenceCharges(entries, rows, cases)
    ensures Charged(entries, d) <==> exists j :: 0 <= j < |rows| && rows[j].date == d && Loses(rows[j], cases)
  {
    if Charged(entries, d) {
      var e :| e in entries && e.key == d;
      assert ChargesLoss(e, rows, cases);
    }
    if j :| 0 <= j < |rows| && rows[j].date == d && Loses(rows[j], cases) {
      var i := EarliestLoss(rows, cases, d, j);
      assert LossOf(rows[i]) in entries;
    }
  }

  lemma {:induction false} EarliestLoss(rows: seq<Row>, cases: seq<Case>, d: int, j: nat) returns (i: nat)
    requires j < |rows| && rows[j].date == d && Loses(rows[j], cases)
    ensures FirstToLose(rows, cases, i) && rows[i].date == d
    decreases j
  {
    if k :| 0 <= k < j && rows[k].date == d && Loses(rows[k], cases) {
      i := EarliestLoss(rows, cases, d, k);
    } else {
      i := j;
    }
  }

  lemma {:induction false} AbsencesAreCharged(rows: seq<Row>, cases: seq<Case>)
    ensures AbsenceCharges(AbsenceEntries(rows, cases), rows, cases)
  {
    if |rows| > 0 {
      var front, r := rows[..|rows| - 1], rows[|rows| - 1];
      assert rows == front + [r];
      AbsencesAreCharged(front, cases);
      var before := AbsenceEntries(front, cases);
      LostIs(r, cases);
      ChargedIs(before, front, cases, r.date);
      if Charged(before, r.date) || !Loses(r, cases) {
        NoMoreLoss(before, front, r, cases);
      } else {
        OneMoreLoss(before, front, r, cases);
      }
    }
  }

  lemma {:induction false} NoMoreLoss(entries: seq<Entry<int>>, front: seq<Row>, r: Row, cases: seq<Case>)
    requires AbsenceCharges(entries, front, cases)
    requires !Loses(r, cases) || exists j :: 0 <= j < |front| && front[j].date == r.date && Loses(front[j], cases)
    ensures AbsenceCharges(entries, front + [r], cases)
  {
    LossesStay(entries, front, r, cases);
    forall i: nat | FirstToLose(front + [r], cases, i) ensures LossOf((front + [r])[i]) in entries {
      LossSnoc(front, r, cases, i);
      assert i < |front|;
    }
  }

  lemma {:induction false} LossesStay(entries: seq<Entry<int>>, front: seq<Row>, r: Row, cases: seq<Case>)
    requires OnlyLosses(entries, front, cases)
    ensures OnlyLosses(entries, front + [r], cases)
  {
    forall e | e in entries ensures ChargesLoss(e, front + [r], cases) {
      var i: nat :| FirstToLose(front, cases, i) && e == LossOf(front[i]);
      LossSnoc(front, r, cases, i);
      assert (front + [r])[i] == front[i];
    }
  }

  lemma {:induction false} OneMoreLoss(entries: seq<Entry<int>>, front: seq<Row>, r: Row, cases: seq<Case>)
    requires AbsenceCharges(entries, front, cases) && Loses(r, cases) && !Charged(entries, r.date)
    requires forall j :: 0 <= j < |front| && front[j].date == r.date ==> !Loses(front[j], cases)
    ensures AbsenceCharges(entries + [LossOf(r)], front + [r], cases)
  {
    LossSnoc(front, r, cases, |front|);
    LossesStay(entries, front, r, cases);
    OnlyOneMore(entries, front, r, cases);
    EachOneMore(entries, front, r, cases);
    NewDay(entries, LossOf(r));
  }

  lemma {:induction false} NewDay(entries: seq<Entry<int>>, e: Entry<int>)
    requires DistinctKeys(entries) && !Charged(entries, e.key)
    ensures DistinctKeys(entries + [e])
  {
    assert forall i :: 0 <= i < |entries| ==> entries[i] in entries;
  }

  lemma {:induction false} OnlyOneMore(entries: seq<Entry<int>>, front: seq<Row>, r: Row, cases: seq<Case>)
    requires OnlyLosses(entries, front + [r], cases) && FirstToLose(front + [r], cases, |front|)
    ensures OnlyLosses(entries + [LossOf(r)], front + [r], cases)
  {
    assert (front + [r])[|front|] == r;
  }

  lemma {:induction false} EachOneMore(entries: seq<Entry<int>>, front: seq<Row>, r: Row, cases: seq<Case>)
    requires EachLoss(entries, front, cases)
    ensures EachLoss(entries + [LossOf(r)], front + [r], cases)
  {
    var rows, all := front + [r], entries + [LossOf(r)];
    assert LossOf(r) in all;
    forall i: nat | FirstToLose(rows, cases, i) ensures LossOf(rows[i]) in all {
      LossSnoc(front, r, cases, i);
      if i < |front| {
        assert LossOf(front[i]) in entries;
      }
    }
  }

  lemma {:induction false} RefusalsAreCharged(scan: seq<Case>, cases: seq<Case>, absences: seq<Entry<int>>)
    ensures RefusalCharges(RefusedEntries(scan, cases, absences), scan, cases, absences)
  {
    if |scan| > 0 {
      var front, c := scan[..|scan| - 1], scan[|scan| - 1];
      assert scan == front + [c];
      RefusalsAreCharged(front, cases, absences);
      FileOf([], cases, c.date);
      assert Excused(CasesOn(cases, c.date)) <==> Forgiven(cases, c.date);
      OneMoreRefusal(RefusedEntries(front, cases, absences), front, c, cases, absences);
    }
  }

  lemma {:induction false} OneMoreRefusal(entries: seq<Entry<int>>, front: seq<Case>, c: Case, cases: seq<Case>,
                                          absences: seq<Entry<int>>)
    requires RefusalCharges(entries, front, cases, absences)
    ensures var due := c.status == Rejected && c.kind == AbsentCase && !Charged(absences, c.date)
                       && !Charged(entries, c.date) && !Forgiven(cases, c.date);
            RefusalCharges(if due then entries + [Entry(c.date, 100)] else entries, front + [c], cases, absences)
  {
    var scan := front + [c];
    assert c in scan && forall x :: x in front ==> x in scan;
    forall d ensures RefusedOn(scan, d)
      <==> RefusedOn(front, d) || (c.date == d && c.status == Rejected && c.kind == AbsentCase)
    {
      if RefusedOn(front, d) {
        var x :| x in front && x.date == d && x.status == Rejected && x.kind == AbsentCase;
        assert x in scan;
      }
    }
    assert Charged(entries, c.date) <==> Entry(c.date, 100) in entries;
    assert Charged(absences, c.date) <==> !(forall e :: e in absences ==> e.key != c.date);
  }
}
