/**
 What a verdict says of its shift: every status, credit, state and fact in terms of the times observed, the shift and
 the grace (src/lib/attendanceEvaluator.js, 137-163 and 176-432, and src/lib/attendanceAnomalyRules.js, 78-165).
 */
module VerdictMeaning {
  import opened Options
  import opened Arithmetic
  import opened Checkout
  import opened Windows
  import opened Pairing
  import opened Accounting
  import opened Verdict

  // ---------------------------------------------------------------- grace, lateness and leaving early

  /** Whole minutes of grace at arrival, and minutes at departure: the resolved ones, or else the policy's. */
  ghost function GraceIn(rules: Rules): int {
    if rules.resolvedGrace.Some? then rules.resolvedGrace.value.checkIn.GetOr(0) else rules.graceMinutes.GetOr(0)
  }

  ghost function GraceOut(rules: Rules): int {
    if rules.resolvedGrace.Some? then rules.resolvedGrace.value.checkOut.GetOr(0) else rules.earlyLeaveGraceMin.GetOr(0)
  }

  /** Time from the start of the shift to the check-in; nothing where one of them is missing. */
  ghost function LateBy(v: Verdict, q: Request): int {
    if v.checkIn.Some? && q.duty.shift.start.Some? then v.checkIn.value - q.duty.shift.start.value else 0
  }

  ghost function ShortBy(v: Verdict, q: Request): int {
    if v.checkOut.Some? && q.duty.shift.end.Some? then q.duty.shift.end.value - v.checkOut.value else 0
  }

  /** Late by a whole minute more than grace. */
  ghost predicate Tardy(v: Verdict, q: Request) { LateBy(v, q) / 60_000 > GraceIn(q.rules) }

  /** Left earlier than grace allows, to the millisecond. */
  ghost predicate Early(v: Verdict, q: Request) { ShortBy(v, q) > GraceOut(q.rules) * 60_000 }

  /** A closed day left early before its half-day mark. */
  ghost predicate LeftSoon(v: Verdict, q: Request) {
    Early(v, q) && !v.inProgress && v.share.Some? && v.share.value < q.rules.halfDayMinPercent.GetOr(50) as real
  }

  /** A punch without direction, or one beyond the latest check-out. */
  ghost predicate Disputed(v: Verdict) { |v.issues| > 0 || |v.outside| > 0 }

  /** A closed day without one of its two ends. */
  ghost predicate Lacks(v: Verdict, checkIn: bool, checkOut: bool) {
    !v.inProgress && v.checkIn.Some? == checkIn && v.checkOut.Some? == checkOut
  }

  ghost predicate Whole(v: Verdict) { v.inProgress || (v.checkIn.Some? && v.checkOut.Some?) }

  // ---------------------------------------------------------------- what the verdict says

  /** The one status of a verdict. */
  ghost predicate StatusSays(v: Verdict, q: Request) {
    && (v.status == Conflict <==> Disputed(v))
    && (v.status == Absent <==> !Disputed(v) && (LeftSoon(v, q) || Lacks(v, false, false)))
    && (v.status == MissingCheckin <==> !Disputed(v) && !LeftSoon(v, q) && Lacks(v, false, true))
    && (v.status == MissingCheckout <==> !Disputed(v) && !LeftSoon(v, q) && Lacks(v, true, false))
    && (v.status == EarlyCheckout <==> !Disputed(v) && !LeftSoon(v, q) && Whole(v) && Early(v, q))
    && (v.status == Late <==> !Disputed(v) && Whole(v) && !Early(v, q) && Tardy(v, q))
    && (v.status == Pending <==>
          !Disputed(v) && v.inProgress && v.checkIn.None? && !Early(v, q) && !Tardy(v, q))
    && (v.status == Present <==>
          !Disputed(v) && Whole(v) && v.checkIn.Some? && !Early(v, q) && !Tardy(v, q))
  }

  /** Nothing is wrong with the day so far. */
  ghost predicate Clean(v: Verdict, q: Request) { !Disputed(v) && Whole(v) && !Early(v, q) && !Tardy(v, q) }

  /** Review, credit and state. */
  ghost predicate CreditSays(v: Verdict, q: Request) {
    && (v.requiresRegularization <==> !Clean(v, q))
    && (v.dayCredit == Some(100) <==> Clean(v, q) && !v.inProgress)
    && (v.dayCredit == None <==> !(Clean(v, q) && !v.inProgress))
    && (v.state == Finalized <==> Clean(v, q) && !v.inProgress)
    && (v.state == StillOpen <==> v.inProgress && |v.outside| == 0)
    && (v.state == NeedsReview <==> |v.outside| > 0 || (!Clean(v, q) && !v.inProgress))
  }

  /** A fact with its time, which is serious beyond half an hour. */
  ghost function Told(kind: FactKind, expected: Option<int>, actual: Option<int>, time: int): Fact {
    Fact(kind, expected, actual, Some(time), Some(if time > 1_800_000 then Major else Minor))
  }

  ghost function Untold(kind: FactKind, expected: Option<int>, actual: Option<int>): Fact {
    Fact(kind, expected, actual, None, None)
  }

  /** The end that a closed day lacks. */
  ghost function LackFacts(v: Verdict, q: Request): seq<Fact> {
    if Lacks(v, false, false) then [Untold(IsAbsent, q.duty.shift.start, None)]
    else if Lacks(v, false, true) then [Untold(NoCheckin, q.duty.shift.start, None)]
    else if Lacks(v, true, false) then [Untold(NoCheckout, q.duty.shift.end, None)]
    else []
  }

  /** The facts in their order; leaving too soon is the only one, and a disputed day tells only why. */
  ghost predicate FactsSay(v: Verdict, q: Request) {
    v.anomalies == if |v.outside| > 0 then []
                   else if |v.issues| > 0 then [Untold(UnknownDirection, None, None)]
                   else if LeftSoon(v, q) then [Untold(IsAbsent, q.duty.shift.start, v.checkOut)]
                   else LackFacts(v, q)
                        + (if Tardy(v, q) then [Told(LateCheckin, q.duty.shift.start, v.checkIn, LateBy(v, q))] else [])
                        + (if Early(v, q) then [Told(EarlyOut, q.duty.shift.end, v.checkOut, ShortBy(v, q))] else [])
  }

  ghost predicate Says(v: Verdict, q: Request) {
    StatusSays(v, q) && CreditSays(v, q) && FactsSay(v, q)
  }

  // ---------------------------------------------------------------- the verdict says it

  lemma {:induction false} GraceIs(rules: Rules)
    ensures ResolvedGrace(rules).checkIn.GetOr(0) == GraceIn(rules)
    ensures ResolvedGrace(rules).checkOut.GetOr(0) == GraceOut(rules)
  {
  }

  /** The conditions of the rules, as conditions on the verdict. */
  lemma {:induction false} ConditionsAre(v: Verdict, q: Request)
    ensures var grace := ResolvedGrace(q.rules);
            && (LateBeyond(v, q.duty.shift, grace) <==> Tardy(v, q))
            && (EarlyBeyond(v, q.duty.shift, grace) <==> Early(v, q))
            && (LeftTooSoon(v, q.duty.shift, grace, q.rules.halfDayMinPercent.GetOr(50)) <==> LeftSoon(v, q))
            && LateTime(v.checkIn, q.duty.shift) == LateBy(v, q)
            && EarlyTime(v.checkOut, q.duty.shift) == ShortBy(v, q)
  {
    GraceIs(q.rules);
  }

  /** The facts that the rules find, as a list. */
  ghost function FactsOf(v: Verdict, q: Request): seq<Fact> {
    if LeftSoon(v, q) then [Untold(IsAbsent, q.duty.shift.start, v.checkOut)]
    else LackFacts(v, q)
         + (if Tardy(v, q) then [Told(LateCheckin, q.duty.shift.start, v.checkIn, LateBy(v, q))] else [])
         + (if Early(v, q) then [Told(EarlyOut, q.duty.shift.end, v.checkOut, ShortBy(v, q))] else [])
  }

  lemma {:induction false} FactsAre(v: Verdict, q: Request)
    ensures Facts(v, q.duty.shift, ResolvedGrace(q.rules), q.rules.halfDayMinPercent.GetOr(50)) == FactsOf(v, q)
  {
    ConditionsAre(v, q);
    assert (if v.inProgress then [] else MissingFacts(v.checkIn, v.checkOut, q.duty.shift)) == LackFacts(v, q);
  }

  lemma {:induction false} HasIn(facts: seq<Fact>, i: nat)
    requires i < |facts|
    ensures Has(facts, facts[i].kind)
  {
  }

  /** Which kinds those are. */
  lemma {:induction false} KindsAre(v: Verdict, q: Request)
    requires !LeftSoon(v, q)
    ensures var facts := FactsOf(v, q);
            && (Has(facts, IsAbsent) <==> Lacks(v, false, false)) && (Has(facts, NoCheckin) <==> Lacks(v, false, true))
            && (Has(facts, NoCheckout) <==> Lacks(v, true, false))
            && (Has(facts, LateCheckin) <==> Tardy(v, q)) && (Has(facts, EarlyOut) <==> Early(v, q))
            && (|facts| == 0 <==> Whole(v) && !Tardy(v, q) && !Early(v, q))
  {
    ConditionsAre(v, q);
    FactsAre(v, q);
    FactsTellTheDay(v, q.duty.shift, ResolvedGrace(q.rules), q.rules.halfDayMinPercent.GetOr(50));
  }

  /** What the rules make of a core verdict, and the cutoff of that. */
  lemma {:induction false} RuledSays(core: Verdict, q: Request, outside: seq<Scan>, due: Option<int>)
    requires core.status == Conflict <==> |core.issues| > 0
    requires core.state == Unset && core.outside == []
    requires core.status == Conflict ==>
               && core.dayCredit == None && core.requiresRegularization && !core.inProgress
               && core.anomalies == [Untold(UnknownDirection, None, None)]
    ensures var v := Finish(ApplyRules(core, q.duty.shift, q.rules), outside, due);
            && v.outside == outside && v.deadline == due && Says(v, q)
  {
    var v := Finish(ApplyRules(core, q.duty.shift, q.rules), outside, due);
    FactsAre(core, q);
    assert LateBy(v, q) == LateBy(core, q) && ShortBy(v, q) == ShortBy(core, q);
    assert LeftSoon(v, q) <==> LeftSoon(core, q);
    if !LeftSoon(core, q) {
      KindsAre(core, q);
    } else {
      SoonIsAbsent(core, q);
    }
  }

  lemma {:induction false} SoonIsAbsent(v: Verdict, q: Request)
    requires LeftSoon(v, q)
    ensures |FactsOf(v, q)| == 1 && Has(FactsOf(v, q), IsAbsent)
  {
    HasIn(FactsOf(v, q), 0);
  }

  // ---------------------------------------------------------------- the times observed

  ghost predicate ArrivesAt(ps: seq<Punch>, i: nat) {
    i < |ps| && ps[i].dir == In && forall j :: 0 <= j < i ==> ps[j].dir != In
  }

  /** The time of the first arrival, if there is one. */
  ghost predicate FirstArrival(ps: seq<Punch>, t: Option<int>) {
    if t.Some? then exists i: nat :: ArrivesAt(ps, i) && ps[i].timestamp == t.value
    else forall i :: 0 <= i < |ps| ==> ps[i].dir != In
  }

  /** A departure, and later than the given time if there is one. */
  ghost predicate Departs(p: Punch, after: Option<int>) {
    p.dir == Out && (after.Some? ==> p.timestamp > after.value)
  }

  ghost predicate LeavesAt(ps: seq<Punch>, after: Option<int>, i: nat) {
    i < |ps| && Departs(ps[i], after) && forall j :: i < j < |ps| ==> !Departs(ps[j], after)
  }

  /** The time of the last such departure, if there is one. */
  ghost predicate LastDeparture(ps: seq<Punch>, after: Option<int>, t: Option<int>) {
    if t.Some? then exists i: nat :: LeavesAt(ps, after, i) && ps[i].timestamp == t.value
    else forall i :: 0 <= i < |ps| ==> !Departs(ps[i], after)
  }

  lemma {:induction false} FirstInIs(ps: seq<Punch>)
    ensures FirstArrival(ps, FirstIn(ps))
  {
    if |ps| > 0 {
      var front := ps[..|ps| - 1];
      FirstInIs(front);
      ArrivesFirst(ps, FirstIn(front));
    }
  }

  lemma {:induction false} ArrivesFirst(ps: seq<Punch>, t: Option<int>)
    requires |ps| > 0 && FirstArrival(ps[..|ps| - 1], t)
    ensures FirstArrival(ps, if t.Some? then t else if ps[|ps| - 1].dir == In then Some(ps[|ps| - 1].timestamp)
            else None)
  {
    var front, n := ps[..|ps| - 1], |ps| - 1;
    assert forall j :: 0 <= j < n ==> ps[j] == front[j];
    if t.Some? {
      var i: nat :| ArrivesAt(front, i) && front[i].timestamp == t.value;
      assert ArrivesAt(ps, i);
    } else if ps[n].dir == In {
      assert ArrivesAt(ps, n);
    }
  }

  lemma {:induction false} LastOutIs(ps: seq<Punch>)
    ensures LastDeparture(ps, None, LastOut(ps))
  {
    if |ps| > 0 {
      var front := ps[..|ps| - 1];
      LastOutIs(front);
      LeavesLast(ps, None, LastOut(front));
    }
  }

  lemma {:induction false} LastOutAfterIs(ps: seq<Punch>, t: int)
    ensures LastDeparture(ps, Some(t), LastOutAfter(ps, t))
  {
    if |ps| > 0 {
      var front := ps[..|ps| - 1];
      LastOutAfterIs(front, t);
      LeavesLast(ps, Some(t), LastOutAfter(front, t));
    }
  }

  lemma {:induction false} LeavesLast(ps: seq<Punch>, after: Option<int>, t: Option<int>)
    requires |ps| > 0 && LastDeparture(ps[..|ps| - 1], after, t)
    ensures LastDeparture(ps, after, if Departs(ps[|ps| - 1], after) then Some(ps[|ps| - 1].timestamp) else t)
  {
    var front, n := ps[..|ps| - 1], |ps| - 1;
    assert forall j :: 0 <= j < n ==> ps[j] == front[j];
    if Departs(ps[n], after) {
      assert LeavesAt(ps, after, n);
    } else if t.Some? {
      var i: nat :| LeavesAt(front, after, i) && front[i].timestamp == t.value;
      assert LeavesAt(ps, after, i);
    }
  }

  /** A last departure that is late enough is the last that is. */
  lemma {:induction false} LateEnough(ps: seq<Punch>, after: int, t: int)
    requires LastDeparture(ps, None, Some(t)) && t > after
    ensures LastDeparture(ps, Some(after), Some(t))
  {
    var i: nat :| LeavesAt(ps, None, i) && ps[i].timestamp == t;
    assert LeavesAt(ps, Some(after), i);
  }

  lemma {:induction false} NoneLateEnough(ps: seq<Punch>, after: int)
    requires LastDeparture(ps, None, None)
    ensures LastDeparture(ps, Some(after), None)
  {
    forall i | 0 <= i < |ps| ensures !Departs(ps[i], Some(after)) {
      assert !Departs(ps[i], None);
    }
  }

  /** On an undisputed day: no departure counts while an arrival is open, nor one before the check-in. */
  ghost predicate TimesTold(ps: seq<Punch>, open: bool, checkIn: Option<int>, checkOut: Option<int>) {
    FirstArrival(ps, checkIn) && if open then checkOut.None? else LastDeparture(ps, checkIn, checkOut)
  }

  lemma {:induction false} SettledIs(ps: seq<Punch>, open: bool)
    requires |ps| > 0 && (FirstIn(ps).Some? || LastOut(ps).Some?)
    ensures var t := SettledTimes(ps, ObservedTimes(ps), open); TimesTold(ps, open, t.checkIn, t.checkOut)
  {
    FirstInIs(ps);
    LastOutIs(ps);
    var checkIn, checkOut := FirstIn(ps), LastOut(ps);
    if checkIn.Some? {
      LastOutAfterIs(ps, checkIn.value);
      if checkOut.None? {
        NoneLateEnough(ps, checkIn.value);
      } else if checkOut.value > checkIn.value {
        LateEnough(ps, checkIn.value, checkOut.value);
      }
    }
  }

  // ---------------------------------------------------------------- what is observed before the rules

  /** The shift's rounded length in milliseconds less the excluded time within it, if it has both ends. */
  ghost predicate ScheduledIs(scheduled: Option<int>, shift: Shift) {
    if shift.start.Some? && shift.end.Some? then
      LengthLess(scheduled, shift.start.value, shift.end.value,
        |Range(shift.start.value, shift.end.value) * Instants(shift.exclusions)|)
    else scheduled == None
  }

  /** The length to the nearest minute, less what is excluded. */
  ghost predicate LengthLess(scheduled: Option<int>, start: int, end: int, excluded: int) {
    var time := (end - start + 30_000) / 60_000 * 60_000;
    scheduled == Some(if time > excluded then time - excluded else 0)
  }

  /** The latest check-out of the shift, where it has an end. */
  ghost predicate DueIs(due: Option<int>, q: Request) {
    if q.duty.shift.end.Some? then
      due == Some(BoundedCheckout(q.duty.shift.end.value, q.duty.checkoutCutoff, q.duty.nextShiftStart,
                                  60_000 * q.rules.checkoutLeniencyMin.GetOr(240),
                                  60_000 * q.rules.checkinWindowMin.GetOr(300)))
    else due == None
  }

  /** The day is open: nothing was scanned yet, or somebody is in, and the time is not up. */
  ghost predicate StillOn(ps: seq<Punch>, issues: seq<int>, checkIn: Option<int>, checkOut: Option<int>,
                          due: Option<int>, now: int) {
    if |ps| == 0 then due.None? || now < due.value
    else |issues| == 0 && checkIn.Some? && checkOut.None?
         && now < if due.Some? then due.value else checkIn.value + 86_400_000
  }

  /** Credited time in per cent of the scheduled time, of a day with both ends; nothing of a day without a scan. */
  ghost predicate ShareIs(share: Option<real>, ps: seq<Punch>, issues: seq<int>, checkIn: Option<int>,
                          checkOut: Option<int>, credited: int, scheduled: Option<int>, inProgress: bool) {
    if |ps| == 0 then share == if inProgress then None else Some(0.0)
    else if |issues| == 0 && checkIn.Some? && checkOut.Some? && scheduled.Some? && scheduled.value > 0 then
      share.Some? && share.value == credited as real / scheduled.value as real * 100.0
    else share == None
  }

  ghost predicate LatenessIs(lateness: Option<int>, issues: seq<int>, checkIn: Option<int>, start: Option<int>) {
    if |issues| == 0 && checkIn.Some? && start.Some? then lateness == Some(checkIn.value - start.value)
    else lateness == None
  }

  /** What a verdict on the cleaned punches reports of them. */
  ghost predicate Observes(v: Verdict, q: Request, ps: seq<Punch>, account: Account, due: Option<int>, now: int) {
    && v.intervals == Pair(ps).intervals && v.issues == Pair(ps).issues && v.marks == Pair(ps).marks
    && v.account == account && ScheduledIs(v.scheduled, q.duty.shift)
    && FirstArrival(ps, v.checkIn)
    && (if |v.issues| > 0 then LastDeparture(ps, None, v.checkOut)
        else TimesTold(ps, Pair(ps).open.Some?, v.checkIn, v.checkOut))
    && (v.inProgress <==> StillOn(ps, v.issues, v.checkIn, v.checkOut, due, now))
    && ShareIs(v.share, ps, v.issues, v.checkIn, v.checkOut, account.credited, v.scheduled, v.inProgress)
    && LatenessIs(v.lateness, v.issues, v.checkIn, q.duty.shift.start)
  }

  lemma {:induction false} ScheduledAs(shift: Shift)
    ensures ScheduledIs(Scheduled(shift), shift)
  {
    if Rostered(shift) {
      IntersectIsSetIntersection([ShiftWindow(shift)], shift.exclusions);
      SingleInstants(ShiftWindow(shift));
      RemainingIs(shift.start.value, shift.end.value, IntersectionTime([ShiftWindow(shift)], shift.exclusions));
    }
  }

  lemma {:induction false} RemainingIs(start: int, end: int, excluded: int)
    ensures LengthLess(Some(Remaining(start, end, excluded)), start, end, excluded)
  {
  }

  lemma {:induction false} DueAs(q: Request)
    ensures DueIs(ShiftDeadline(q.duty, q.rules), q)
  {
  }

  /** The fields of a course before anything is scored. */
  ghost predicate CourseTold(c: Course, ps: seq<Punch>, pairing: Pairing, account: Account, scheduled: Option<int>,
                             start: Option<int>, due: Option<int>, now: int) {
    var v := c.verdict;
    && v.account == account && v.scheduled == scheduled && v.state == Unset && v.outside == []
    && (v.status == Conflict <==> |v.issues| > 0)
    && if |ps| == 0 then
         && c.Settled? && v.checkIn == None && v.checkOut == None && v.intervals == [] && v.issues == []
         && v.marks == []
         && v.lateness == None && (v.inProgress <==> due.None? || now < due.value)
         && v.share == (if v.inProgress then None else Some(0.0))
       else
         && v.intervals == pairing.intervals && v.issues == pairing.issues && v.marks == pairing.marks
         && v.share == None
         && if |pairing.issues| > 0 then
              && c.Settled? && !v.inProgress && v.lateness == None && v.dayCredit == None && v.requiresRegularization
              && v.anomalies == [Untold(UnknownDirection, None, None)]
              && Times(v.checkIn, v.checkOut) == ObservedTimes(ps)
            else UndisputedTold(c, SettledTimes(ps, ObservedTimes(ps), pairing.open.Some?), start, due, now)
  }

  /** The fields that depend on the times of an undisputed day. */
  ghost predicate UndisputedTold(c: Course, t: Times, start: Option<int>, due: Option<int>, now: int) {
    var v := c.verdict;
    && (c.ToScore? <==> t.checkIn.Some? && t.checkOut.Some?)
    && (c.ToScore? ==> t == Times(Some(c.checkIn), Some(c.checkOut)) && !v.inProgress)
    && (c.Settled? ==>
          && Times(v.checkIn, v.checkOut) == t
          && LatenessIs(v.lateness, [], t.checkIn, start)
          && (v.inProgress <==> t.checkIn.Some? && now < if due.Some? then due.value else t.checkIn.value + 86_400_000))
  }

  lemma {:induction false} CourseTells(ps: seq<Punch>, pairing: Pairing, account: Account, scheduled: Option<int>,
                                       start: Option<int>, grace: int, due: Option<int>, now: int)
    ensures CourseTold(CourseOf(ps, pairing, Blank(account, scheduled), start, grace, due, now), ps, pairing, account,
                       scheduled, start, due, now)
  {
  }

  /** Scoring adds the share and the lateness, and settles the times. */
  lemma {:induction false} ScoredTells(c: Course, shift: Shift, rules: Rules)
    requires c.ToScore?
    ensures var v, u := Judge(c, shift, rules), c.verdict;
            && v.checkIn == Some(c.checkIn) && v.checkOut == Some(c.checkOut)
            && v.intervals == u.intervals && v.issues == u.issues && v.marks == u.marks && v.outside == u.outside
            && v.account == u.account && v.scheduled == u.scheduled && v.state == u.state
            && v.inProgress == u.inProgress && v.status != Conflict
            && LatenessIs(v.lateness, [], v.checkIn, shift.start)
            && v.share == Share(u.account.credited, u.scheduled)
  {
  }

  lemma {:induction false} CoreObserves(ps: seq<Punch>, q: Request, account: Account, now: int)
    requires |ps| > 0 ==> FirstIn(ps).Some? || LastOut(ps).Some?
    ensures var v := Decide(ps, Pair(ps), account, q.duty, q.rules, now);
            && Observes(v, q, ps, account, ShiftDeadline(q.duty, q.rules), now)
            && v.state == Unset && v.outside == [] && (v.status == Conflict <==> |v.issues| > 0)
            && (v.status == Conflict ==>
                  && v.dayCredit == None && v.requiresRegularization && !v.inProgress
                  && v.anomalies == [Untold(UnknownDirection, None, None)])
  {
    var due, c := ShiftDeadline(q.duty, q.rules), CourseAt(ps, Pair(ps), account, q.duty, q.rules, now);
    CourseTells(ps, Pair(ps), account, Scheduled(q.duty.shift), q.duty.shift.start, q.rules.graceMinutes.GetOr(0), due,
                now);
    ScheduledAs(q.duty.shift);
    if c.ToScore? {
      ScoredTells(c, q.duty.shift, q.rules);
    }
    if |ps| > 0 {
      SettledIs(ps, Pair(ps).open.Some?);
      FirstInIs(ps);
      LastOutIs(ps);
    }
  }

  /** Rules and cutoff leave alone what was observed. */
  lemma {:induction false} FinishObserves(core: Verdict, q: Request, ps: seq<Punch>, account: Account,
                                          outside: seq<Scan>, due: Option<int>, now: int)
    requires Observes(core, q, ps, account, due, now)
    ensures Observes(Finish(ApplyRules(core, q.duty.shift, q.rules), outside, due), q, ps, account, due, now)
  {
  }

  /** All that a verdict on the given punches reports. */
  ghost predicate Means(v: Verdict, q: Request, ps: seq<Punch>, account: Account, outside: seq<Scan>, now: int) {
    Observes(v, q, ps, account, v.deadline, now) && v.outside == outside && DueIs(v.deadline, q) && Says(v, q)
  }

  lemma {:induction false} MeansOn(q: Request, ps: seq<Punch>, account: Account, outside: seq<Scan>, now: int)
    requires |ps| > 0 ==> FirstIn(ps).Some? || LastOut(ps).Some?
    ensures Means(EvaluateOn(q, ps, account, outside, now), q, ps, account, outside, now)
  {
    var core, due := Decide(ps, Pair(ps), account, q.duty, q.rules, now), ShiftDeadline(q.duty, q.rules);
    CoreObserves(ps, q, account, now);
    DueAs(q);
    FinishObserves(core, q, ps, account, outside, due, now);
    RuledSays(core, q, outside, due);
  }

  /**
   The whole meaning of an evaluation: what it observes of the cleaned punches, and the status, credit, state and facts
   that follow from that.
   */
  lemma {:induction false} VerdictMeans(q: Request, now: int)
    ensures Means(EvaluateShift(q, now), q, Punched(q), Earned(q), Outside(q), now)
  {
    CleanedHasTimes(Inside(q).punches, q.rules);
    MeansOn(q, Punched(q), Earned(q), Outside(q), now);
  }
}
