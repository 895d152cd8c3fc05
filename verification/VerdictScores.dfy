/** The credit and the label of a closed shift before the anomaly rules (src/lib/attendanceEvaluator.js, 334-432). */
module VerdictScores {
  import opened Options
  import opened Arithmetic
  import opened Pairing
  import opened Accounting
  import opened Verdict

  /** Later than grace, by whole minutes. */
  ghost predicate Tardy(checkIn: int, shift: Shift, rules: Rules) {
    shift.start.Some? && (checkIn - shift.start.value) / 60_000 > rules.graceMinutes.GetOr(0)
  }

  /** So late that half the day is lost: by share of the scheduled time where one is set, or else by minutes. */
  ghost predicate Docked(checkIn: int, scheduled: Option<int>, shift: Shift, rules: Rules) {
    && Tardy(checkIn, shift, rules)
    && if rules.halfDayAfterPercentOfShift.Some? && scheduled.Some? && scheduled.value != 0 then
         100 * (checkIn - shift.start.value) >= scheduled.value * rules.halfDayAfterPercentOfShift.value
       else checkIn - shift.start.value >= 60_000 * rules.halfDayAfterMinutes.GetOr(30)
  }

  ghost predicate Early(checkOut: int, shift: Shift, rules: Rules) {
    shift.end.Some? && shift.end.value - checkOut > 60_000 * rules.earlyLeaveGraceMin.GetOr(0)
  }

  /** The credited time reaches the per cent of the scheduled time; without a scheduled time it always does. */
  ghost predicate Fills(v: Verdict, percent: int) {
    v.scheduled.Some? && v.scheduled.value > 0 ==> 100 * v.account.credited >= percent * v.scheduled.value
  }

  ghost predicate FillsDay(v: Verdict, rules: Rules) { Fills(v, rules.fullDayMinPercent.GetOr(90)) }

  ghost predicate FillsHalf(v: Verdict, rules: Rules) {
    FillsDay(v, rules) || Fills(v, rules.halfDayMinPercent.GetOr(50))
  }

  /** Nothing below half a day; half for a docked arrival or less than a day; else the whole day. */
  ghost predicate CreditIs(credit: Option<int>, v: Verdict, checkIn: int, shift: Shift, rules: Rules) {
    && (credit == Some(0) <==> !FillsHalf(v, rules))
    && (credit == Some(50) <==>
          FillsHalf(v, rules) && (Docked(checkIn, v.scheduled, shift, rules) || !FillsDay(v, rules)))
    && (credit == Some(100) <==> FillsDay(v, rules) && !Docked(checkIn, v.scheduled, shift, rules))
  }

  /** Leaving early labels a day that it shortens to half; otherwise the arrival labels it. */
  ghost predicate LabelIs(status: Status, v: Verdict, checkIn: int, checkOut: int, shift: Shift, rules: Rules) {
    var shortened := FillsHalf(v, rules) && !FillsDay(v, rules) && Early(checkOut, shift, rules);
    && (status == Absent <==> !FillsHalf(v, rules))
    && (status == EarlyCheckout <==> shortened)
    && (status == Late <==> FillsHalf(v, rules) && !shortened && Tardy(checkIn, shift, rules))
    && (status == Present <==> FillsHalf(v, rules) && !shortened && !Tardy(checkIn, shift, rules))
  }

  /** The late arrival, then the early departure. */
  ghost predicate NotedAs(facts: seq<Fact>, checkIn: int, checkOut: int, shift: Shift, rules: Rules) {
    facts == (if Tardy(checkIn, shift, rules)
              then [Fact(LateCheckin, shift.start, Some(checkIn), Some(checkIn - shift.start.value), None)] else [])
             + (if Early(checkOut, shift, rules)
                then [Fact(EarlyOut, shift.end, Some(checkOut), Some(shift.end.value - checkOut), None)] else [])
  }

  lemma {:induction false} ShareReaches(credited: int, scheduled: int, percent: int)
    requires scheduled > 0
    ensures credited as real / scheduled as real * 100.0 >= percent as real <==> 100 * credited >= percent * scheduled
  {
    var c, s, p := credited as real, scheduled as real, percent as real;
    assert c / s * 100.0 == 100.0 * c / s;
    assert (100 * credited) as real == 100.0 * c && (percent * scheduled) as real == p * s;
    QuotientReaches(100.0 * c, s, p);
  }

  lemma {:induction false} QuotientReaches(a: real, s: real, p: real)
    requires s > 0.0
    ensures a / s >= p <==> a >= p * s
  {
    assert a == a / s * s;
  }

  lemma {:induction false} FillsIs(v: Verdict, percent: int)
    ensures var share := Share(v.account.credited, v.scheduled);
            Fills(v, percent) <==> share.None? || AtLeast(share.value, percent)
  {
    if v.scheduled.Some? && v.scheduled.value > 0 {
      ShareReaches(v.account.credited, v.scheduled.value, percent);
    }
  }

  /** The scored verdict of a closed shift. */
  lemma {:induction false} ScoredMeans(v: Verdict, checkIn: int, checkOut: int, shift: Shift, rules: Rules)
    ensures var r := Scored(v, checkIn, checkOut, shift, rules);
            && CreditIs(r.dayCredit, v, checkIn, shift, rules)
            && LabelIs(r.status, v, checkIn, checkOut, shift, rules)
            && NotedAs(r.anomalies, checkIn, checkOut, shift, rules)
  {
    FillsIs(v, rules.fullDayMinPercent.GetOr(90));
    FillsIs(v, rules.halfDayMinPercent.GetOr(50));
    DockedIs(v, checkIn, shift, rules);
    DurationIs(v, rules);
  }

  lemma {:induction false} DockedIs(v: Verdict, checkIn: int, shift: Shift, rules: Rules)
    ensures ArrivalCredit(Lateness(Some(checkIn), shift.start), v.scheduled, rules)
            == if Docked(checkIn, v.scheduled, shift, rules) then 50 else 100
  {
  }

  lemma {:induction false} DurationIs(v: Verdict, rules: Rules)
    ensures DurationCredit(Share(v.account.credited, v.scheduled), rules)
            == if FillsDay(v, rules) then 100 else if FillsHalf(v, rules) then 50 else 0
  {
    FillsIs(v, rules.fullDayMinPercent.GetOr(90));
    FillsIs(v, rules.halfDayMinPercent.GetOr(50));
  }
}
