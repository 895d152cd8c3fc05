/**
 The verdict on one shift (src/lib/attendanceEvaluator.js, 64-80 and 114-432) after the anomaly rules
 (src/lib/attendanceAnomalyRules.js, 78-165), with the check-out deadline of src/lib/shiftCheckout.js, 52-63.
 Times and durations are milliseconds, policy settings are minutes and per cent, credits are hundredths of a day.
 */
module Verdict {
  import opened Options
  import opened Arithmetic
  import opened Checkout
  import opened Sorting
  import opened Windows
  import opened Pairing
  import opened Accounting

  const FULL := 100
  const HALF := 50
  const NONE := 0

  // ---------------------------------------------------------------- inputs

  /** A punch as it reaches the evaluator. */
  datatype Scan = Scan(punch: Punch, sn: int, directionVerified: bool, inferred: bool)

  datatype Grace = Grace(checkIn: Option<int>, checkOut: Option<int>)

  datatype Rules = Rules(
    account: Policy, trustDeviceDirection: bool, resolvedGrace: Option<Grace>,
    graceMinutes: Option<int>, halfDayAfterMinutes: Option<int>, halfDayAfterPercentOfShift: Option<int>,
    earlyLeaveGraceMin: Option<int>, checkoutLeniencyMin: Option<int>, checkinWindowMin: Option<int>,
    fullDayMinPercent: Option<int>, halfDayMinPercent: Option<int>, duplicatePunchWindowMin: Option<int>)

  /** A dated shift with the next rostered start and the latest check-out set on the roster. */
  datatype Duty = Duty(shift: Shift, nextShiftStart: Option<int>, checkoutCutoff: Option<int>)

  datatype Request = Request(punches: seq<Scan>, duty: Duty, rules: Rules, credits: seq<Credit>)

  // ---------------------------------------------------------------- the verdict

  datatype Status = Pending | Absent | Conflict | MissingCheckin | MissingCheckout | EarlyCheckout | Late | Present

  datatype FactKind = IsAbsent | NoCheckin | NoCheckout | LateCheckin | EarlyOut | UnknownDirection

  datatype Severity = Major | Minor

  datatype Fact = Fact(kind: FactKind, expected: Option<int>, actual: Option<int>, time: Option<int>,
                       severity: Option<Severity>)

  datatype State = Unset | StillOpen | NeedsReview | Finalized

  datatype Verdict = Verdict(
    status: Status, dayCredit: Option<int>, requiresRegularization: bool, anomalies: seq<Fact>,
    account: Account, scheduled: Option<int>, share: Option<real>, lateness: Option<int>,
    checkIn: Option<int>, checkOut: Option<int>, inProgress: bool,
    intervals: seq<Interval>, issues: seq<int>, marks: seq<Mark>, outside: seq<Scan>, state: State,
    deadline: Option<int>)

  // ---------------------------------------------------------------- cleaning the punches

  function TimeOf(s: Scan): int { s.punch.timestamp }

  /** Whole minutes from a to b, halves rounded up. */
  function MinutesBetween(a: int, b: int): int { (b - a + MINUTE / 2) / MINUTE }

  predicate Repeats(prev: Scan, s: Scan, window: int) {
    && prev.punch.dir == s.punch.dir && prev.sn == s.sn && prev.punch.siteId == s.punch.siteId
    && MinutesBetween(TimeOf(prev), TimeOf(s)) <= window
  }

  function Collapse(sorted: seq<Scan>, window: int): seq<Scan> {
    if |sorted| == 0 then []
    else
      var kept, s := Collapse(sorted[..|sorted| - 1], window), sorted[|sorted| - 1];
      if |kept| > 0 && Repeats(kept[|kept| - 1], s, window) then kept else kept + [s]
  }

  /** Kept neighbours differ, and every scan is kept or repeats a kept one. */
  ghost predicate Collapsed(sorted: seq<Scan>, out: seq<Scan>, window: int) {
    && (forall j :: 0 < j < |out| ==> !Repeats(out[j - 1], out[j], window))
    && (forall s :: s in out ==> s in sorted)
    && (forall s :: s in sorted ==> Covers(out, s, window))
  }

  ghost predicate Covers(out: seq<Scan>, s: Scan, window: int) {
    exists j :: 0 <= j < |out| && (out[j] == s || Repeats(out[j], s, window))
  }

  lemma {:induction false} CollapseCollapses(sorted: seq<Scan>, window: int)
    ensures Collapsed(sorted, Collapse(sorted, window), window)
  {
    if |sorted| > 0 {
      var front, s := sorted[..|sorted| - 1], sorted[|sorted| - 1];
      CollapseCollapses(front, window);
      assert sorted == front + [s];
      var kept, out := Collapse(front, window), Collapse(sorted, window);
      if out == kept {
        assert Repeats(out[|out| - 1], s, window);
      } else {
        assert out[|out| - 1] == s;
      }
      forall x | x in sorted ensures Covers(out, x, window) {
        if x in front {
          var j :| 0 <= j < |kept| && (kept[j] == x || Repeats(kept[j], x, window));
          assert out[j] == kept[j];
        }
      }
    }
  }

  /** The anti-passback loop. */
  method DedupePunches(punches: seq<Scan>, window: int) returns (out: seq<Scan>)
    ensures out == Collapse(SortBy(punches, TimeOf), window)
    ensures Collapsed(SortBy(punches, TimeOf), out, window)
  {
    var sorted := SortBy(punches, TimeOf);
    out := [];
    for i := 0 to |sorted|
      invariant out == Collapse(sorted[..i], window)
    {
      assert sorted[..i + 1][..i] == sorted[..i];
      if |out| > 0 && Repeats(out[|out| - 1], sorted[i], window) {
        continue;
      }
      out := out + [sorted[i]];
    }
    assert sorted[..|sorted|] == sorted;
    CollapseCollapses(sorted, window);
  }

  /** Unverified directions are dropped when the device is not trusted. */
  function Trusted(punches: seq<Scan>, trust: bool): seq<Scan> {
    seq(|punches|, i requires 0 <= i < |punches| =>
      if trust || punches[i].directionVerified then punches[i]
        else punches[i].(punch := punches[i].punch.(dir := Unknown)))
  }

  function PunchesOf(scans: seq<Scan>): seq<Punch> {
    seq(|scans|, i requires 0 <= i < |scans| => scans[i].punch)
  }

  predicate Untyped(ps: seq<Punch>) {
    |ps| > 0 && forall i :: 0 <= i < |ps| ==> ps[i].dir == Unknown
  }

  function Positional(i: nat, n: nat): Direction {
    if i == 0 then In else if i == n - 1 then Out else Unknown
  }

  /** Only a wholly untyped stream has its first and last punch read as arrival and departure. */
  function Infer(ps: seq<Punch>): seq<Punch> {
    if Untyped(ps) then seq(|ps|, i requires 0 <= i < |ps| => ps[i].(dir := Positional(i, |ps|))) else ps
  }

  function Cleaned(punches: seq<Scan>, rules: Rules): seq<Punch> {
    Infer(PunchesOf(Collapse(SortBy(Trusted(punches, rules.trustDeviceDirection), TimeOf),
                             rules.duplicatePunchWindowMin.GetOr(5))))
  }

  // ---------------------------------------------------------------- times of a shift

  function ShiftDeadline(duty: Duty, rules: Rules): Option<int> {
    if duty.shift.end.None? then None
    else Some(BoundedCheckout(duty.shift.end.value, duty.checkoutCutoff, duty.nextShiftStart,
                              rules.checkoutLeniencyMin.GetOr(240) * MINUTE,
                              rules.checkinWindowMin.GetOr(300) * MINUTE))
  }

  /** The rounded length of a shift without what is excluded of it. */
  function Remaining(start: int, end: int, excluded: int): int {
    Max(MinutesBetween(start, end) * MINUTE - excluded, 0)
  }

  function Scheduled(shift: Shift): Option<int> {
    if Rostered(shift) then
      Some(Remaining(shift.start.value, shift.end.value, IntersectionTime([ShiftWindow(shift)], shift.exclusions)))
    else None
  }

  function FirstIn(ps: seq<Punch>): Option<int> {
    if |ps| == 0 then None
    else
      var earlier := FirstIn(ps[..|ps| - 1]);
      if earlier.Some? then earlier else if ps[|ps| - 1].dir == In then Some(ps[|ps| - 1].timestamp) else None
  }

  function LastOut(ps: seq<Punch>): Option<int> {
    if |ps| == 0 then None
    else if ps[|ps| - 1].dir == Out then Some(ps[|ps| - 1].timestamp)
    else LastOut(ps[..|ps| - 1])
  }

  function LastOutAfter(ps: seq<Punch>, t: int): (r: Option<int>)
    ensures r.Some? ==> r.value > t
  {
    if |ps| == 0 then None
    else if ps[|ps| - 1].dir == Out && ps[|ps| - 1].timestamp > t then Some(ps[|ps| - 1].timestamp)
    else LastOutAfter(ps[..|ps| - 1], t)
  }

  datatype Times = Times(checkIn: Option<int>, checkOut: Option<int>)

  /** First arrival and last departure; without either, the first and last punch. */
  function ObservedTimes(ps: seq<Punch>): Times
    requires |ps| > 0
  {
    var checkIn, checkOut := FirstIn(ps), LastOut(ps);
    if checkIn.None? && checkOut.None? then
      Times(Some(ps[0].timestamp), if |ps| > 1 then Some(ps[|ps| - 1].timestamp) else None)
    else Times(checkIn, checkOut)
  }

  /** The check-out is a departure after the check-in, and none while an arrival is open. */
  function SettledTimes(ps: seq<Punch>, times: Times, open: bool): Times {
    var out := if times.checkIn.Some? && times.checkOut.Some? && times.checkOut.value <= times.checkIn.value
               then LastOutAfter(ps, times.checkIn.value) else times.checkOut;
    Times(times.checkIn, if open then None else out)
  }

  function Lateness(checkIn: Option<int>, start: Option<int>): Option<int> {
    if checkIn.None? || start.None? then None else Some(checkIn.value - start.value)
  }

  // ---------------------------------------------------------------- the core verdict

  function Blank(account: Account, scheduled: Option<int>): Verdict {
    Verdict(Present, None, false, [], account, scheduled, None, None, None, None, false, [], [], [], [], Unset, None)
  }

  function NoScan(blank: Verdict, due: Option<int>, now: int): Verdict {
    if due.None? || now < due.value then
      blank.(status := Pending, inProgress := true)
    else
      blank.(status := Absent, dayCredit := Some(NONE), share := Some(0.0),
             anomalies := [Fact(IsAbsent, None, None, None, None)])
  }

  predicate PastGrace(late: Option<int>, grace: int) {
    late.Some? && late.value / MINUTE > grace
  }

  function Unclosed(v: Verdict, times: Times, late: Option<int>, start: Option<int>, grace: int, due: Option<int>,
                    now: int): Verdict
    requires times.checkIn.Some?
  {
    var cutoff := due.GetOr(times.checkIn.value + DAY);
    var seen := v.(lateness := late, checkIn := times.checkIn);
    if now >= cutoff then
      seen.(status := MissingCheckout, requiresRegularization := true,
            anomalies := [Fact(NoCheckout, None, None, None, None)])
    else
      seen.(status := if PastGrace(late, grace) then Late else Present,
            anomalies := if PastGrace(late, grace) then [Fact(LateCheckin, start, times.checkIn, late, None)] else [],
            inProgress := true)
  }

  predicate HalfDayLate(late: int, scheduled: Option<int>, rules: Rules) {
    if rules.halfDayAfterPercentOfShift.Some? && scheduled.Some? && scheduled.value != 0 then
      100 * late >= scheduled.value * rules.halfDayAfterPercentOfShift.value
    else
      late >= rules.halfDayAfterMinutes.GetOr(30) * MINUTE
  }

  function ArrivalCredit(late: Option<int>, scheduled: Option<int>, rules: Rules): int {
    if PastGrace(late, rules.graceMinutes.GetOr(0)) && HalfDayLate(late.value, scheduled, rules) then HALF else FULL
  }

  predicate AtLeast(share: real, percent: int) { share >= percent as real }

  function DurationCredit(share: Option<real>, rules: Rules): int {
    if share.None? || AtLeast(share.value, rules.fullDayMinPercent.GetOr(90)) then FULL
    else if AtLeast(share.value, rules.halfDayMinPercent.GetOr(50)) then HALF
    else NONE
  }

  function EarlyBy(end: Option<int>, checkOut: int): Option<int> {
    if end.Some? then Some(end.value - checkOut) else None
  }

  predicate LeftEarly(early: Option<int>, grace: int) { early.Some? && early.value > grace * MINUTE }

  /** Credited time in per cent of scheduled time. */
  function Share(credited: int, scheduled: Option<int>): Option<real> {
    if scheduled.Some? && scheduled.value > 0 then Some(credited as real / scheduled.value as real * 100.0) else None
  }

  /** A closed day's label: absent without credit, the check-out's label when that cost credit, else the arrival's. */
  function ScoredStatus(credit: int, late: bool, share: Option<real>, leftEarly: bool, rules: Rules): (s: Status)
    ensures s in {Absent, EarlyCheckout, Late, Present}
  {
    if credit == NONE then Absent
    else if credit < FULL && leftEarly && DurationCredit(share, rules) == HALF then EarlyCheckout
    else if late then Late else Present
  }

  function Scored(v: Verdict, checkIn: int, checkOut: int, shift: Shift, rules: Rules): (r: Verdict)
    ensures r.checkIn == Some(checkIn) && r.checkOut == Some(checkOut)
            && r.dayCredit in {Some(NONE), Some(HALF), Some(FULL)}
    ensures r.account == v.account && r.issues == v.issues && r.intervals == v.intervals && r.marks == v.marks
    ensures r.inProgress == v.inProgress && r.state == v.state && r.status in {Absent, EarlyCheckout, Late, Present}
  {
    var late := Lateness(Some(checkIn), shift.start);
    var isLate := PastGrace(late, rules.graceMinutes.GetOr(0));
    var early := EarlyBy(shift.end, checkOut);
    var leftEarly := LeftEarly(early, rules.earlyLeaveGraceMin.GetOr(0));
    var share := Share(v.account.credited, v.scheduled);
    var credit := Min(ArrivalCredit(late, v.scheduled, rules), DurationCredit(share, rules));
    v.(status := ScoredStatus(credit, isLate, share, leftEarly, rules), dayCredit := Some(credit),
       anomalies := (if isLate then [Fact(LateCheckin, shift.start, Some(checkIn), late, None)] else [])
                    + (if leftEarly then [Fact(EarlyOut, shift.end, Some(checkOut), early, None)] else []),
       share := share, lateness := late, checkIn := Some(checkIn), checkOut := Some(checkOut))
  }

  /** The scoring part of the source, which reassigns its labels and credits and pushes anomalies as it goes. */
  method ScoreShift(v: Verdict, checkIn: int, checkOut: int, shift: Shift, rules: Rules) returns (r: Verdict)
    ensures r == Scored(v, checkIn, checkOut, shift, rules)
  {
    var anomalies: seq<Fact> := [];
    var late := Lateness(Some(checkIn), shift.start);
    var arrivalStatus, arrivalCredit := Present, FULL;
    if late.Some? && late.value / MINUTE > rules.graceMinutes.GetOr(0) {
      arrivalStatus := Late;
      if HalfDayLate(late.value, v.scheduled, rules) { arrivalCredit := HALF; }
      anomalies := anomalies + [Fact(LateCheckin, shift.start, Some(checkIn), late, None)];
    }
    var leftEarlyBeyondGrace := false;
    if shift.end.Some? {
      var early := shift.end.value - checkOut;
      if early > rules.earlyLeaveGraceMin.GetOr(0) * MINUTE {
        leftEarlyBeyondGrace := true;
        anomalies := anomalies + [Fact(EarlyOut, shift.end, Some(checkOut), Some(early), None)];
      }
    }
    var share, durationCredit, durationStatus := ScoreDuration(v.account.credited, v.scheduled, leftEarlyBeyondGrace,
                                                               rules);
    var dayCredit := Min(arrivalCredit, durationCredit);
    var status := if dayCredit == NONE then Absent
                  else if dayCredit < FULL && durationStatus.Some? then durationStatus.value else arrivalStatus;
    r := v.(status := status, dayCredit := Some(dayCredit), anomalies := anomalies, share := share, lateness := late,
            checkIn := Some(checkIn), checkOut := Some(checkOut));
  }

  /** Worked time against scheduled time; an early check-out that still earns half a day has its own label. */
  method ScoreDuration(credited: int, scheduled: Option<int>, leftEarly: bool, rules: Rules)
    returns (share: Option<real>, durationCredit: int, durationStatus: Option<Status>)
    ensures share == Share(credited, scheduled) && durationCredit == DurationCredit(share, rules)
    ensures durationStatus == if leftEarly && durationCredit == HALF then Some(EarlyCheckout) else None
  {
    share, durationCredit, durationStatus := None, FULL, None;
    if scheduled.Some? && scheduled.value > 0 {
      share := Some(credited as real / scheduled.value as real * 100.0);
      if AtLeast(share.value, rules.fullDayMinPercent.GetOr(90)) {
        durationCredit := FULL;
      } else if leftEarly {
        if AtLeast(share.value, rules.halfDayMinPercent.GetOr(50)) {
          durationCredit, durationStatus := HALF, Some(EarlyCheckout);
        } else {
          durationCredit := NONE;
        }
      } else if AtLeast(share.value, rules.halfDayMinPercent.GetOr(50)) {
        durationCredit := HALF;
      } else {
        durationCredit := NONE;
      }
    }
  }

  /** A verdict that is settled before scoring, or a closed shift with the times to score it by. */
  datatype Course = Settled(verdict: Verdict) | ToScore(verdict: Verdict, checkIn: int, checkOut: int)

  /** The branches before scoring, on cleaned punches, their pairing and the account. */
  function CourseOf(ps: seq<Punch>, pairing: Pairing, blank: Verdict, start: Option<int>, grace: int, due: Option<int>,
                    now: int): Course {
    if |ps| == 0 then Settled(NoScan(blank, due, now))
    else
      var v := blank.(intervals := pairing.intervals, issues := pairing.issues, marks := pairing.marks);
      var observed := ObservedTimes(ps);
      if |pairing.issues| > 0 then
        Settled(v.(status := Conflict, requiresRegularization := true, checkIn := observed.checkIn,
                   checkOut := observed.checkOut, anomalies := [Fact(UnknownDirection, None, None, None, None)]))
      else
        var times := SettledTimes(ps, observed, pairing.open.Some?);
        if times.checkIn.None? && times.checkOut.Some? then
          Settled(v.(status := MissingCheckin, requiresRegularization := true, checkOut := times.checkOut,
                     anomalies := [Fact(NoCheckin, None, None, None, None)]))
        else if times.checkIn.Some? && times.checkOut.None? then
          Settled(Unclosed(v, times, Lateness(times.checkIn, start), start, grace, due, now))
        else if times.checkIn.Some? then ToScore(v, times.checkIn.value, times.checkOut.value)
        else Settled(v)
  }

  function Judge(course: Course, shift: Shift, rules: Rules): Verdict {
    match course
    case Settled(v) => v
    case ToScore(v, checkIn, checkOut) => Scored(v, checkIn, checkOut, shift, rules)
  }

  function CourseAt(ps: seq<Punch>, pairing: Pairing, account: Account, duty: Duty, rules: Rules, now: int): Course {
    CourseOf(ps, pairing, Blank(account, Scheduled(duty.shift)), duty.shift.start, rules.graceMinutes.GetOr(0),
             ShiftDeadline(duty, rules), now)
  }

  /** The verdict on cleaned punches, from their pairing and account. */
  function Decide(ps: seq<Punch>, pairing: Pairing, account: Account, duty: Duty, rules: Rules, now: int): Verdict {
    Judge(CourseAt(ps, pairing, account, duty, rules, now), duty.shift, rules)
  }

  function Core(q: Request, now: int): Verdict {
    var ps := Cleaned(q.punches, q.rules);
    Decide(ps, Pair(ps), AccountAttendance(Pair(ps).intervals, q.duty.shift, q.rules.account, q.credits), q.duty,
           q.rules, now)
  }

  // ---------------------------------------------------------------- the anomaly rules

  function ResolvedGrace(rules: Rules): Grace {
    rules.resolvedGrace.GetOr(Grace(Some(rules.graceMinutes.GetOr(0)), Some(rules.earlyLeaveGraceMin.GetOr(0))))
  }

  function Weigh(time: int): Severity { if time > 30 * MINUTE then Major else Minor }

  function TimedFact(kind: FactKind, expected: Option<int>, actual: Option<int>, time: int): Fact {
    Fact(kind, expected, actual, Some(time), Some(Weigh(time)))
  }

  function MissingFacts(checkIn: Option<int>, checkOut: Option<int>, shift: Shift): seq<Fact> {
    if checkIn.None? && checkOut.None? then [Fact(IsAbsent, shift.start, None, None, None)]
    else if checkIn.None? then [Fact(NoCheckin, shift.start, None, None, None)]
    else if checkOut.None? then [Fact(NoCheckout, shift.end, None, None, None)]
    else []
  }

  function LateTime(checkIn: Option<int>, shift: Shift): int {
    if checkIn.Some? && shift.start.Some? then checkIn.value - shift.start.value else 0
  }

  function EarlyTime(checkOut: Option<int>, shift: Shift): int {
    if checkOut.Some? && shift.end.Some? then shift.end.value - checkOut.value else 0
  }

  function Facts(v: Verdict, shift: Shift, grace: Grace, halfDayMinPercent: int): seq<Fact> {
    if LeftTooSoon(v, shift, grace, halfDayMinPercent) then [Fact(IsAbsent, shift.start, v.checkOut, None, None)]
    else if EarlyBeyond(v, shift, grace) then
      ArrivalFacts(v, shift, grace) + [TimedFact(EarlyOut, shift.end, v.checkOut, EarlyTime(v.checkOut, shift))]
    else ArrivalFacts(v, shift, grace)
  }

  predicate LateBeyond(v: Verdict, shift: Shift, grace: Grace) {
    LateTime(v.checkIn, shift) / MINUTE > grace.checkIn.GetOr(0)
  }

  predicate EarlyBeyond(v: Verdict, shift: Shift, grace: Grace) {
    EarlyTime(v.checkOut, shift) > grace.checkOut.GetOr(0) * MINUTE
  }

  /** A closed day that was left beyond grace before its half-day mark. */
  predicate LeftTooSoon(v: Verdict, shift: Shift, grace: Grace, halfDayMinPercent: int) {
    EarlyBeyond(v, shift, grace) && !v.inProgress && v.share.Some? && !AtLeast(v.share.value, halfDayMinPercent)
  }

  /** When the day shows a fact of the kind. */
  predicate Shows(v: Verdict, shift: Shift, grace: Grace, kind: FactKind) {
    match kind
    case IsAbsent => !v.inProgress && v.checkIn.None? && v.checkOut.None?
    case NoCheckin => !v.inProgress && v.checkIn.None? && v.checkOut.Some?
    case NoCheckout => !v.inProgress && v.checkIn.Some? && v.checkOut.None?
    case LateCheckin => LateBeyond(v, shift, grace)
    case EarlyOut => EarlyBeyond(v, shift, grace)
    case UnknownDirection => false
  }

  /** Lateness and early leaving carry the edge, the time, how far apart they are and how serious that is. */
  predicate Measures(f: Fact, v: Verdict, shift: Shift) {
    && (f.kind == LateCheckin ==>
          f.expected == shift.start && f.actual == v.checkIn && f.time == Some(LateTime(v.checkIn, shift)))
    && (f.kind == EarlyOut ==>
          f.expected == shift.end && f.actual == v.checkOut && f.time == Some(EarlyTime(v.checkOut, shift)))
    && (f.time.Some? ==> f.severity == Some(if f.time.value > 30 * MINUTE then Major else Minor))
    && (f.time.Some? <==> f.kind == LateCheckin || f.kind == EarlyOut)
  }

  /** An absence by leaving early stands alone; otherwise each kind is there once, exactly when the day shows it. */
  ghost predicate TellsTheDay(facts: seq<Fact>, v: Verdict, shift: Shift, grace: Grace, halfDayMinPercent: int) {
    && (forall i, j :: 0 <= i < j < |facts| ==> facts[i].kind != facts[j].kind)
    && (forall i :: 0 <= i < |facts| ==> Measures(facts[i], v, shift))
    && if LeftTooSoon(v, shift, grace, halfDayMinPercent)
       then facts == [Fact(IsAbsent, shift.start, v.checkOut, None, None)]
       else forall kind :: Has(facts, kind) <==> Shows(v, shift, grace, kind)
  }

  /** The source's list of facts, grown by pushes and cut short by an absence. */
  method AnomalyFacts(v: Verdict, shift: Shift, grace: Grace, halfDayMinPercent: int) returns (facts: seq<Fact>)
    ensures TellsTheDay(facts, v, shift, grace, halfDayMinPercent)
    ensures facts == Facts(v, shift, grace, halfDayMinPercent)
  {
    facts := [];
    var closed := !v.inProgress;
    if closed {
      if v.checkIn.None? && v.checkOut.None? {
        facts := facts + [Fact(IsAbsent, shift.start, None, None, None)];
      } else if v.checkIn.None? {
        facts := facts + [Fact(NoCheckin, shift.start, None, None, None)];
      } else if v.checkOut.None? {
        facts := facts + [Fact(NoCheckout, shift.end, None, None, None)];
      }
    }
    var late := LateTime(v.checkIn, shift);
    if late / MINUTE > grace.checkIn.GetOr(0) {
      facts := facts + [TimedFact(LateCheckin, shift.start, v.checkIn, late)];
    }
    assert facts == ArrivalFacts(v, shift, grace);
    facts := DepartureFacts(v, shift, grace, halfDayMinPercent, facts);
    FactsTellTheDay(v, shift, grace, halfDayMinPercent);
  }

  method DepartureFacts(v: Verdict, shift: Shift, grace: Grace, halfDayMinPercent: int, soFar: seq<Fact>)
    returns (facts: seq<Fact>)
    requires soFar == ArrivalFacts(v, shift, grace)
    ensures facts == Facts(v, shift, grace, halfDayMinPercent)
  {
    facts := soFar;
    var early := EarlyTime(v.checkOut, shift);
    if early > grace.checkOut.GetOr(0) * MINUTE {
      if !v.inProgress && v.share.Some? && !AtLeast(v.share.value, halfDayMinPercent) {
        return [Fact(IsAbsent, shift.start, v.checkOut, None, None)];
      }
      facts := facts + [TimedFact(EarlyOut, shift.end, v.checkOut, early)];
    }
  }

  lemma {:induction false} HasSnoc(facts: seq<Fact>, f: Fact)
    ensures forall kind :: Has(facts + [f], kind) <==> Has(facts, kind) || f.kind == kind
  {
    var all := facts + [f];
    forall kind ensures Has(all, kind) <==> Has(facts, kind) || f.kind == kind {
      if Has(facts, kind) {
        var i :| 0 <= i < |facts| && facts[i].kind == kind;
        assert all[i] == facts[i];
      }
      if f.kind == kind { assert all[|facts|] == f; }
      if Has(all, kind) {
        var i :| 0 <= i < |all| && all[i].kind == kind;
        assert i < |facts| ==> all[i] == facts[i];
      }
    }
  }

  /** What is true of the facts before the early check-out is looked at. */
  ghost predicate TellsArrival(facts: seq<Fact>, v: Verdict, shift: Shift, grace: Grace) {
    && (forall i, j :: 0 <= i < j < |facts| ==> facts[i].kind != facts[j].kind)
    && (forall i :: 0 <= i < |facts| ==> Measures(facts[i], v, shift))
    && (forall kind :: Has(facts, kind) <==> kind != EarlyOut && Shows(v, shift, grace, kind))
  }

  function ArrivalFacts(v: Verdict, shift: Shift, grace: Grace): seq<Fact> {
    (if v.inProgress then [] else MissingFacts(v.checkIn, v.checkOut, shift))
    + (if LateBeyond(v, shift, grace) then [TimedFact(LateCheckin, shift.start, v.checkIn, LateTime(v.checkIn, shift))]
      else [])
  }

  lemma {:induction false} ArrivalIsTold(v: Verdict, shift: Shift, grace: Grace)
    ensures TellsArrival(ArrivalFacts(v, shift, grace), v, shift, grace)
  {
    var missing := if v.inProgress then [] else MissingFacts(v.checkIn, v.checkOut, shift);
    MissingIsTold(v, shift, grace, missing);
    if LateBeyond(v, shift, grace) {
      HasSnoc(missing, TimedFact(LateCheckin, shift.start, v.checkIn, LateTime(v.checkIn, shift)));
    } else {
      assert missing + [] == missing;
    }
  }

  /** At most one end of a closed day is missing. */
  lemma {:induction false} MissingIsTold(v: Verdict, shift: Shift, grace: Grace, missing: seq<Fact>)
    requires missing == if v.inProgress then [] else MissingFacts(v.checkIn, v.checkOut, shift)
    ensures |missing| <= 1 && (|missing| == 1 ==> missing[0].time.None?)
    ensures forall kind ::
              Has(missing, kind) <==> kind != LateCheckin && kind != EarlyOut && Shows(v, shift, grace, kind)
  {
    if |missing| == 1 {
      OneFact(missing);
    }
  }

  lemma {:induction false} OneFact(facts: seq<Fact>)
    requires |facts| == 1
    ensures forall kind :: Has(facts, kind) <==> facts[0].kind == kind
  {
  }

  lemma {:induction false} FactsTellTheDay(v: Verdict, shift: Shift, grace: Grace, halfDayMinPercent: int)
    ensures TellsTheDay(Facts(v, shift, grace, halfDayMinPercent), v, shift, grace, halfDayMinPercent)
  {
    var soFar := ArrivalFacts(v, shift, grace);
    ArrivalIsTold(v, shift, grace);
    if EarlyBeyond(v, shift, grace) && !LeftTooSoon(v, shift, grace, halfDayMinPercent) {
      var f := TimedFact(EarlyOut, shift.end, v.checkOut, EarlyTime(v.checkOut, shift));
      HasSnoc(soFar, f);
      assert forall i :: 0 <= i < |soFar| ==> Has(soFar, soFar[i].kind);
    }
  }

  predicate Has(facts: seq<Fact>, kind: FactKind) {
    exists i :: 0 <= i < |facts| && facts[i].kind == kind
  }

  function RuledStatus(facts: seq<Fact>, waiting: bool): Status {
    if Has(facts, IsAbsent) then Absent
    else if Has(facts, NoCheckin) then MissingCheckin
    else if Has(facts, NoCheckout) then MissingCheckout
    else if Has(facts, EarlyOut) then EarlyCheckout
    else if Has(facts, LateCheckin) then Late
    else if waiting then Pending else Present
  }

  /** The verdict that the facts leave. */
  function Ruled(v: Verdict, facts: seq<Fact>): Verdict {
    v.(anomalies := facts,
       status := RuledStatus(facts, v.inProgress && v.checkIn.None?),
       dayCredit := if v.inProgress || |facts| > 0 then None else Some(FULL),
       state := if v.inProgress then StillOpen else if |facts| > 0 then NeedsReview else Finalized,
       requiresRegularization := |facts| > 0)
  }

  function ApplyRules(v: Verdict, shift: Shift, rules: Rules): Verdict {
    if v.status == Conflict then v
    else Ruled(v, Facts(v, shift, ResolvedGrace(rules), rules.halfDayMinPercent.GetOr(50)))
  }

  // ---------------------------------------------------------------- the whole evaluation

  /** A chosen check-out counts until the next start, for at most a day, unless the roster sets a latest check-out. */
  predicate ChosenOut(s: Scan, duty: Duty) {
    && s.punch.dir == Out && !s.inferred && duty.shift.end.Some? && duty.checkoutCutoff.None?
    && TimeOf(s) < duty.shift.end.value + DAY
    && (duty.nextShiftStart.Some? ==> TimeOf(s) < duty.nextShiftStart.value)
  }

  predicate IsOutside(s: Scan, duty: Duty, due: Option<int>) {
    due.Some? && TimeOf(s) > due.value && !ChosenOut(s, duty)
  }

  function Filter(punches: seq<Scan>, duty: Duty, due: Option<int>, outside: bool): (r: seq<Scan>)
    ensures forall i :: 0 <= i < |r| ==> IsOutside(r[i], duty, due) == outside
  {
    if |punches| == 0 then []
    else
      var s := punches[|punches| - 1];
      Filter(punches[..|punches| - 1], duty, due, outside) + (if IsOutside(s, duty, due) == outside then [s] else [])
  }

  function Inside(q: Request): Request {
    q.(punches := Filter(q.punches, q.duty, ShiftDeadline(q.duty, q.rules), false))
  }

  function Outside(q: Request): seq<Scan> {
    Filter(q.punches, q.duty, ShiftDeadline(q.duty, q.rules), true)
  }

  function Finish(ruled: Verdict, outside: seq<Scan>, due: Option<int>): Verdict {
    var v := if |outside| > 0 then
               ruled.(status := Conflict, dayCredit := None, requiresRegularization := true, state := NeedsReview,
                      anomalies := [], outside := outside)
             else ruled;
    v.(state := if v.state != Unset then v.state
                else if v.inProgress then StillOpen
                else if v.dayCredit.None? then NeedsReview else Finalized,
       deadline := due)
  }

  /** The evaluation on cleaned punches and their account. */
  function EvaluateOn(q: Request, ps: seq<Punch>, account: Account, outside: seq<Scan>, now: int): Verdict {
    Finish(ApplyRules(Decide(ps, Pair(ps), account, q.duty, q.rules, now), q.duty.shift, q.rules), outside,
           ShiftDeadline(q.duty, q.rules))
  }

  /** The punches that a verdict is reached on. */
  function Punched(q: Request): seq<Punch> { Cleaned(Inside(q).punches, q.rules) }

  function Earned(q: Request): Account {
    AccountAttendance(Pair(Punched(q)).intervals, q.duty.shift, q.rules.account, q.credits)
  }

  function EvaluateShift(q: Request, now: int): Verdict {
    EvaluateOn(q, Punched(q), Earned(q), Outside(q), now)
  }

  /** The source's core: the branches in their order, the last one scored by reassignment. */
  method EvaluateCore(q: Request, now: int) returns (v: Verdict)
    ensures v == Core(q, now)
  {
    var kept := DedupePunches(Trusted(q.punches, q.rules.trustDeviceDirection),
                              q.rules.duplicatePunchWindowMin.GetOr(5));
    var clean := Infer(PunchesOf(kept));
    var pairing := PairAttendance(clean);
    var account := AccountAttendance(pairing.intervals, q.duty.shift, q.rules.account, q.credits);
    v := DecideNow(clean, pairing, account, q.duty, q.rules, now);
  }

  method DecideNow(ps: seq<Punch>, pairing: Pairing, account: Account, duty: Duty, rules: Rules, now: int)
    returns (v: Verdict)
    ensures v == Decide(ps, pairing, account, duty, rules, now)
  {
    var scheduled := ScheduledTime(duty.shift);
    var course := CourseOf(ps, pairing, Blank(account, scheduled), duty.shift.start, rules.graceMinutes.GetOr(0),
                           ShiftDeadline(duty, rules), now);
    v := course.verdict;
    if course.ToScore? {
      v := ScoreShift(v, course.checkIn, course.checkOut, duty.shift, rules);
    }
  }

  method ScheduledTime(shift: Shift) returns (scheduled: Option<int>)
    ensures scheduled == Scheduled(shift)
  {
    scheduled := None;
    if Rostered(shift) {
      var excluded := ExcludedTime(shift.start.value, shift.end.value, shift.exclusions);
      scheduled := Some(Remaining(shift.start.value, shift.end.value, excluded));
    }
  }

  /** The whole evaluation as the source runs it. */
  method EvaluateNow(q: Request, now: int) returns (v: Verdict)
    ensures v == EvaluateShift(q, now)
  {
    v := EvaluateCore(Inside(q), now);
    if v.status != Conflict {
      var facts := AnomalyFacts(v, q.duty.shift, ResolvedGrace(q.rules), q.rules.halfDayMinPercent.GetOr(50));
      v := Ruled(v, facts);
    }
    v := Finish(v, Outside(q), ShiftDeadline(q.duty, q.rules));
  }

  // ---------------------------------------------------------------- verdicts are final

  /** When a shift stops being in progress: it already has, it does at a time, or it never does. */
  datatype Closing = Closed | ClosesAt(time: int) | Never

  function ClosingOf(ps: seq<Punch>, pairing: Pairing, due: Option<int>): Closing {
    if |ps| == 0 then (if due.Some? then ClosesAt(due.value) else Never)
    else
      var times := SettledTimes(ps, ObservedTimes(ps), pairing.open.Some?);
      if |pairing.issues| == 0 && times.checkIn.Some? && times.checkOut.None?
      then ClosesAt(due.GetOr(times.checkIn.value + DAY)) else Closed
  }

  predicate StillWaiting(c: Closing, now: int) {
    c.Never? || (c.ClosesAt? && now < c.time)
  }

  /** Scoring leaves alone what the course settled. */
  lemma {:induction false} JudgeKeeps(course: Course, shift: Shift, rules: Rules)
    ensures var v, u := Judge(course, shift, rules), course.verdict;
            && v.account == u.account && v.issues == u.issues && v.intervals == u.intervals
            && v.inProgress == u.inProgress && v.state == u.state
            && (course.Settled? ==> v == u)
            && (course.ToScore? ==>
               v.checkIn == Some(course.checkIn) && v.checkOut == Some(course.checkOut) && v.status != Conflict)
  {
  }

  /** A verdict before anything was looked at. */
  predicate IsBlank(v: Verdict) {
    && v.status != Conflict && v.issues == [] && !v.inProgress && v.checkIn.None? && v.checkOut.None?
    && v.dayCredit.None?
  }

  /** What the branches before scoring keep. */
  lemma {:induction false} CourseKeeps(ps: seq<Punch>, pairing: Pairing, blank: Verdict, start: Option<int>, grace: int,
                                       due: Option<int>, now: int)
    requires IsBlank(blank)
    ensures var v := CourseOf(ps, pairing, blank, start, grace, due, now).verdict;
            v.account == blank.account && v.state == blank.state
              && v.issues == (if |ps| == 0 then [] else pairing.issues)
  {
  }

  /** What they settle, and what they leave to be scored. */
  lemma {:induction false} CourseSettles(ps: seq<Punch>, pairing: Pairing, blank: Verdict, start: Option<int>,
                                         grace: int, due: Option<int>, now: int)
    requires IsBlank(blank)
    ensures var c := CourseOf(ps, pairing, blank, start, grace, due, now);
            && (c.Settled? ==>
                  && (c.verdict.status == Conflict <==> |c.verdict.issues| > 0)
                  && (c.verdict.status == Conflict ==> c.verdict.dayCredit.None?)
                  && (c.verdict.checkIn.Some? && c.verdict.checkOut.Some? ==> |c.verdict.issues| > 0))
            && (c.ToScore? ==>
                  && |ps| > 0 && c.verdict.issues == [] && c.verdict.intervals == pairing.intervals
                  && Times(Some(c.checkIn), Some(c.checkOut))
                     == SettledTimes(ps, ObservedTimes(ps), pairing.open.Some?))
  {
  }

  lemma {:induction false} CourseHolds(ps: seq<Punch>, pairing: Pairing, account: Account, duty: Duty, rules: Rules,
                                       now: int)
    ensures var c := CourseAt(ps, pairing, account, duty, rules, now);
            && c.verdict.account == account && c.verdict.state == Unset
            && c.verdict.issues == (if |ps| == 0 then [] else pairing.issues)
            && (c.Settled? ==>
                  && (c.verdict.status == Conflict <==> |c.verdict.issues| > 0)
                  && (c.verdict.status == Conflict ==> c.verdict.dayCredit.None?)
                  && (c.verdict.checkIn.Some? && c.verdict.checkOut.Some? ==> |c.verdict.issues| > 0))
            && (c.ToScore? ==>
                  && |ps| > 0 && c.verdict.issues == [] && c.verdict.intervals == pairing.intervals
                  && Times(Some(c.checkIn), Some(c.checkOut))
                     == SettledTimes(ps, ObservedTimes(ps), pairing.open.Some?))
  {
    var blank, due := Blank(account, Scheduled(duty.shift)), ShiftDeadline(duty, rules);
    CourseKeeps(ps, pairing, blank, duty.shift.start, rules.graceMinutes.GetOr(0), due, now);
    CourseSettles(ps, pairing, blank, duty.shift.start, rules.graceMinutes.GetOr(0), due, now);
  }

  lemma {:induction false} CourseWaits(ps: seq<Punch>, pairing: Pairing, blank: Verdict, start: Option<int>, grace: int,
                                       due: Option<int>, now: int)
    requires IsBlank(blank)
    ensures CourseOf(ps, pairing, blank, start, grace, due, now).verdict.inProgress
            <==> StillWaiting(ClosingOf(ps, pairing, due), now)
  {
  }

  lemma {:induction false} CourseIsFinal(ps: seq<Punch>, pairing: Pairing, blank: Verdict, start: Option<int>,
                                         grace: int, due: Option<int>, now: int, later: int)
    requires !blank.inProgress && now <= later
    requires !CourseOf(ps, pairing, blank, start, grace, due, now).verdict.inProgress
    ensures CourseOf(ps, pairing, blank, start, grace, due, later)
            == CourseOf(ps, pairing, blank, start, grace, due, now)
  {
  }

  lemma {:induction false} DecideWaits(ps: seq<Punch>, pairing: Pairing, account: Account, duty: Duty, rules: Rules,
                                       now: int)
    ensures Decide(ps, pairing, account, duty, rules, now).inProgress
            <==> StillWaiting(ClosingOf(ps, pairing, ShiftDeadline(duty, rules)), now)
  {
    JudgeKeeps(CourseAt(ps, pairing, account, duty, rules, now), duty.shift, rules);
    CourseWaits(ps, pairing, Blank(account, Scheduled(duty.shift)), duty.shift.start, rules.graceMinutes.GetOr(0),
      ShiftDeadline(duty, rules), now);
  }

  lemma {:induction false} DecideIsFinal(ps: seq<Punch>, pairing: Pairing, account: Account, duty: Duty, rules: Rules,
                                         now: int, later: int)
    requires now <= later && !Decide(ps, pairing, account, duty, rules, now).inProgress
    ensures Decide(ps, pairing, account, duty, rules, later) == Decide(ps, pairing, account, duty, rules, now)
  {
    JudgeKeeps(CourseAt(ps, pairing, account, duty, rules, now), duty.shift, rules);
    CourseIsFinal(ps, pairing, Blank(account, Scheduled(duty.shift)), duty.shift.start, rules.graceMinutes.GetOr(0),
      ShiftDeadline(duty, rules), now, later);
  }

  /** The rules and the cutoff leave alone what was observed. */
  lemma {:induction false} FinishKeeps(core: Verdict, shift: Shift, rules: Rules, outside: seq<Scan>, due: Option<int>)
    ensures var v := Finish(ApplyRules(core, shift, rules), outside, due);
            && v.checkIn == core.checkIn && v.checkOut == core.checkOut && v.intervals == core.intervals
            && v.issues == core.issues && v.inProgress == core.inProgress && v.account == core.account
  {
  }

  lemma {:induction false} FinalOn(q: Request, ps: seq<Punch>, account: Account, outside: seq<Scan>, now: int,
                                   later: int)
    requires now <= later && !EvaluateOn(q, ps, account, outside, now).inProgress
    ensures EvaluateOn(q, ps, account, outside, later) == EvaluateOn(q, ps, account, outside, now)
  {
    FinishKeeps(Decide(ps, Pair(ps), account, q.duty, q.rules, now), q.duty.shift, q.rules, outside,
                ShiftDeadline(q.duty, q.rules));
    DecideIsFinal(ps, Pair(ps), account, q.duty, q.rules, now, later);
  }

  /** Once a shift is not in progress, every later evaluation gives the same verdict. */
  lemma {:induction false} VerdictIsFinal(q: Request, now: int, later: int)
    requires now <= later && !EvaluateShift(q, now).inProgress
    ensures EvaluateShift(q, later) == EvaluateShift(q, now)
  {
    FinalOn(q, Punched(q), Earned(q), Outside(q), now, later);
  }

  lemma {:induction false} WaitsOn(q: Request, ps: seq<Punch>, account: Account, outside: seq<Scan>, now: int)
    ensures EvaluateOn(q, ps, account, outside, now).inProgress
            <==> StillWaiting(ClosingOf(ps, Pair(ps), ShiftDeadline(q.duty, q.rules)), now)
  {
    FinishKeeps(Decide(ps, Pair(ps), account, q.duty, q.rules, now), q.duty.shift, q.rules, outside,
                ShiftDeadline(q.duty, q.rules));
    DecideWaits(ps, Pair(ps), account, q.duty, q.rules, now);
  }

  /** A shift is in progress exactly before the time its punches leave it open until. */
  lemma {:induction false} InProgressUntilClosing(q: Request, now: int)
    ensures EvaluateShift(q, now).inProgress
            <==> StillWaiting(ClosingOf(Punched(q), Pair(Punched(q)), ShiftDeadline(q.duty, q.rules)), now)
  {
    WaitsOn(q, Punched(q), Earned(q), Outside(q), now);
  }

  // ---------------------------------------------------------------- what the punches say

  lemma {:induction false} SomeIn(ps: seq<Punch>, i: nat)
    requires i < |ps| && ps[i].dir == In
    ensures FirstIn(ps).Some?
  {
    if i < |ps| - 1 {
      SomeIn(ps[..|ps| - 1], i);
    }
  }

  lemma {:induction false} SomeOut(ps: seq<Punch>, i: nat)
    requires i < |ps| && ps[i].dir == Out
    ensures LastOut(ps).Some?
  {
    if i < |ps| - 1 {
      SomeOut(ps[..|ps| - 1], i);
    }
  }

  /** Without an unknown direction, pairing has no issue exactly when every punch is directed. */
  lemma {:induction false} IssuesAreUndirected(ps: seq<Punch>)
    ensures |Pair(ps).issues| == 0 <==> Directed(ps)
  {
    if |ps| > 0 {
      IssuesAreUndirected(ps[..|ps| - 1]);
    }
  }

  /** The fallback for punches without arrival or departure is never taken. */
  lemma {:induction false} PositionalFallbackIsDead(ps: seq<Punch>)
    requires |ps| > 0
    ensures FirstIn(Infer(ps)).Some? || LastOut(Infer(ps)).Some?
  {
    var clean := Infer(ps);
    if Untyped(ps) {
      SomeIn(clean, 0);
    } else {
      var i :| 0 <= i < |ps| && ps[i].dir != Unknown;
      if ps[i].dir == In {
        SomeIn(clean, i);
      } else {
        SomeOut(clean, i);
      }
    }
  }

  /** The first arrival starts the first interval, or the one that is still open. */
  lemma {:induction false} FirstInOpens(ps: seq<Punch>)
    ensures var r := Pair(ps);
            && (FirstIn(ps).None? ==> r.open.None? && |r.intervals| == 0)
            && (FirstIn(ps).Some? && |r.intervals| > 0 ==> r.intervals[0].start == FirstIn(ps).value)
            && (FirstIn(ps).Some? && |r.intervals| == 0 ==> r.open.Some? && r.open.value.timestamp == FirstIn(ps).value)
  {
    if |ps| > 0 {
      FirstInOpens(ps[..|ps| - 1]);
    }
  }

  // ---------------------------------------------------------------- credit is safe

  ghost predicate WithinGrace(v: Verdict, q: Request) {
    var grace := ResolvedGrace(q.rules);
    && LateTime(v.checkIn, q.duty.shift) / MINUTE <= grace.checkIn.GetOr(0)
    && EarlyTime(v.checkOut, q.duty.shift) <= grace.checkOut.GetOr(0) * MINUTE
  }

  lemma {:induction false} NoFacts(v: Verdict, shift: Shift, grace: Grace, halfDayMinPercent: int)
    ensures |Facts(v, shift, grace, halfDayMinPercent)| == 0 <==>
            && (v.inProgress || (v.checkIn.Some? && v.checkOut.Some?))
            && LateTime(v.checkIn, shift) / MINUTE <= grace.checkIn.GetOr(0)
            && EarlyTime(v.checkOut, shift) <= grace.checkOut.GetOr(0) * MINUTE
  {
  }

  /** Credit is a full day or withheld, and it is given exactly to a closed, undisputed shift inside grace. */
  lemma {:induction false} CreditIsFullOrWithheld(q: Request, now: int)
    ensures CreditMeans(EvaluateShift(q, now), q, Outside(q))
  {
    CreditOn(q, Punched(q), Earned(q), Outside(q), now);
  }

  /** Full credit, and what it means. */
  ghost predicate CreditMeans(v: Verdict, q: Request, outside: seq<Scan>) {
    && (v.dayCredit == None || v.dayCredit == Some(FULL))
    && (v.dayCredit == Some(FULL) <==>
        |outside| == 0 && |v.issues| == 0 && !v.inProgress && v.checkIn.Some? && v.checkOut.Some? && WithinGrace(v, q))
    && (v.state == Finalized <==> v.dayCredit == Some(FULL))
    && v.state != Unset
  }

  lemma {:induction false} CreditOn(q: Request, ps: seq<Punch>, account: Account, outside: seq<Scan>, now: int)
    ensures CreditMeans(EvaluateOn(q, ps, account, outside, now), q, outside)
  {
    ConflictIsIssue(ps, Pair(ps), account, q.duty, q.rules, now);
    CreditOfRules(Decide(ps, Pair(ps), account, q.duty, q.rules, now), q, outside, ShiftDeadline(q.duty, q.rules));
  }

  lemma {:induction false} ConflictIsIssue(ps: seq<Punch>, pairing: Pairing, account: Account, duty: Duty, rules: Rules,
                                           now: int)
    ensures var v := Decide(ps, pairing, account, duty, rules, now);
            && (v.status == Conflict <==> |v.issues| > 0)
            && (v.status == Conflict ==> v.dayCredit.None?)
            && v.state == Unset && v.account == account
            && v.issues == (if |ps| == 0 then [] else pairing.issues)
  {
    JudgeKeeps(CourseAt(ps, pairing, account, duty, rules, now), duty.shift, rules);
    CourseHolds(ps, pairing, account, duty, rules, now);
  }

  lemma {:induction false} CreditOfRules(core: Verdict, q: Request, outside: seq<Scan>, due: Option<int>)
    requires core.status == Conflict <==> |core.issues| > 0
    requires core.status == Conflict ==> core.dayCredit.None?
    requires core.state == Unset
    ensures CreditMeans(Finish(ApplyRules(core, q.duty.shift, q.rules), outside, due), q, outside)
  {
    NoFacts(core, q.duty.shift, ResolvedGrace(q.rules), q.rules.halfDayMinPercent.GetOr(50));
  }

  lemma {:induction false} SettledInOrder(ps: seq<Punch>)
    requires |ps| > 0 && (FirstIn(ps).Some? || LastOut(ps).Some?)
    ensures var t := SettledTimes(ps, ObservedTimes(ps), Pair(ps).open.Some?);
            t.checkIn.Some? && t.checkOut.Some? ==>
              && |Pair(ps).intervals| > 0 && Pair(ps).open.None?
              && t.checkIn.value < t.checkOut.value && t.checkIn.value == Pair(ps).intervals[0].start
              && t.checkIn == FirstIn(ps)
              && (t.checkOut == LastOut(ps) || t.checkOut == LastOutAfter(ps, t.checkIn.value))
  {
    FirstInOpens(ps);
  }

  lemma {:induction false} DecideSettles(ps: seq<Punch>, pairing: Pairing, account: Account, duty: Duty, rules: Rules,
                                         now: int)
    ensures var v := Decide(ps, pairing, account, duty, rules, now);
            v.checkIn.Some? && v.checkOut.Some? && |v.issues| == 0 ==>
              && |ps| > 0 && v.intervals == pairing.intervals
              && Times(v.checkIn, v.checkOut) == SettledTimes(ps, ObservedTimes(ps), pairing.open.Some?)
  {
    JudgeKeeps(CourseAt(ps, pairing, account, duty, rules, now), duty.shift, rules);
    CourseHolds(ps, pairing, account, duty, rules, now);
  }

  lemma {:induction false} DecidedTimes(ps: seq<Punch>, account: Account, duty: Duty, rules: Rules, now: int)
    requires |ps| > 0 ==> FirstIn(ps).Some? || LastOut(ps).Some?
    ensures var v := Decide(ps, Pair(ps), account, duty, rules, now);
            v.checkIn.Some? && v.checkOut.Some? && |v.issues| == 0 ==>
              && v.intervals == Pair(ps).intervals && |v.intervals| > 0 && Pair(ps).open.None?
              && v.checkIn.value < v.checkOut.value && v.checkIn.value == v.intervals[0].start
              && v.checkIn == FirstIn(ps)
              && (v.checkOut == LastOut(ps) || v.checkOut == LastOutAfter(ps, v.checkIn.value))
  {
    DecideSettles(ps, Pair(ps), account, duty, rules, now);
    if |ps| > 0 {
      SettledInOrder(ps);
    }
  }

  /** A credited shift has worked intervals, the first of them starting at a check-in before the check-out. */
  lemma {:induction false} CreditedShiftWasWorked(q: Request, now: int)
    requires EvaluateShift(q, now).dayCredit == Some(FULL)
    ensures var v := EvaluateShift(q, now);
            && v.checkIn.Some? && v.checkOut.Some? && v.checkIn.value < v.checkOut.value
            && |v.intervals| > 0 && v.intervals[0].start == v.checkIn.value
  {
    CleanedHasTimes(Inside(q).punches, q.rules);
    WorkedOn(q, Punched(q), Earned(q), Outside(q), now);
  }

  lemma {:induction false} WorkedOn(q: Request, ps: seq<Punch>, account: Account, outside: seq<Scan>, now: int)
    requires |ps| > 0 ==> FirstIn(ps).Some? || LastOut(ps).Some?
    requires EvaluateOn(q, ps, account, outside, now).dayCredit == Some(FULL)
    ensures var v := EvaluateOn(q, ps, account, outside, now);
            && v.checkIn.Some? && v.checkOut.Some? && v.checkIn.value < v.checkOut.value
            && |v.intervals| > 0 && v.intervals[0].start == v.checkIn.value
  {
    FinishKeeps(Decide(ps, Pair(ps), account, q.duty, q.rules, now), q.duty.shift, q.rules, outside,
                ShiftDeadline(q.duty, q.rules));
    CreditOn(q, ps, account, outside, now);
    DecidedTimes(ps, account, q.duty, q.rules, now);
  }

  lemma {:induction false} CleanedHasTimes(punches: seq<Scan>, rules: Rules)
    ensures var ps := Cleaned(punches, rules); |ps| > 0 ==> FirstIn(ps).Some? || LastOut(ps).Some?
  {
    var ps := PunchesOf(Collapse(SortBy(Trusted(punches, rules.trustDeviceDirection), TimeOf),
                                 rules.duplicatePunchWindowMin.GetOr(5)));
    if |ps| > 0 {
      PositionalFallbackIsDead(ps);
    }
  }

  lemma {:induction false} GraceDecides(core: Verdict, other: Verdict, q: Request, r: Request, outside: seq<Scan>,
                                        due: Option<int>)
    requires core.checkIn == other.checkIn && core.checkOut == other.checkOut && core.inProgress == other.inProgress
    requires core.issues == other.issues && q.duty == r.duty && ResolvedGrace(q.rules) == ResolvedGrace(r.rules)
    requires core.status == Conflict <==> |core.issues| > 0
    requires other.status == Conflict <==> |other.issues| > 0
    requires core.status == Conflict ==> core.dayCredit.None? && other.dayCredit.None?
    requires core.state == Unset && other.state == Unset
    ensures Finish(ApplyRules(core, q.duty.shift, q.rules), outside, due).dayCredit
            == Finish(ApplyRules(other, r.duty.shift, r.rules), outside, due).dayCredit
  {
    CreditOfRules(core, q, outside, due);
    CreditOfRules(other, r, outside, due);
  }

  lemma {:induction false} DecidedTimesIgnorePercents(ps: seq<Punch>, pairing: Pairing, account: Account, duty: Duty,
                                                      rules: Rules, now: int, other: Rules)
    requires other == rules.(fullDayMinPercent := other.fullDayMinPercent, halfDayMinPercent := other.halfDayMinPercent,
                            halfDayAfterMinutes := other.halfDayAfterMinutes,
                            halfDayAfterPercentOfShift := other.halfDayAfterPercentOfShift)
    ensures var v, w := Decide(ps, pairing, account, duty, rules, now), Decide(ps, pairing, account, duty, other, now);
            v.checkIn == w.checkIn && v.checkOut == w.checkOut && v.inProgress == w.inProgress && v.issues == w.issues
  {
    var course := CourseAt(ps, pairing, account, duty, rules, now);
    assert course == CourseAt(ps, pairing, account, duty, other, now);
    JudgeKeeps(course, duty.shift, rules);
    JudgeKeeps(course, duty.shift, other);
  }

  /**
   The half and zero credits of the core never reach the verdict: its credit is the same whatever the
   half-day and full-day thresholds are.
   */
  lemma {:induction false} ThresholdsNeverCostCredit(q: Request, now: int, other: Rules)
    requires other == q.rules.(fullDayMinPercent := other.fullDayMinPercent,
                               halfDayMinPercent := other.halfDayMinPercent,
                               halfDayAfterMinutes := other.halfDayAfterMinutes,
                               halfDayAfterPercentOfShift := other.halfDayAfterPercentOfShift)
    ensures EvaluateShift(q.(rules := other), now).dayCredit == EvaluateShift(q, now).dayCredit
  {
    var r := q.(rules := other);
    SameCleaning(q, r);
    var ps := Cleaned(Inside(q).punches, q.rules);
    DecidedCredit(ps, Pair(ps), AccountAttendance(Pair(ps).intervals, q.duty.shift, q.rules.account, q.credits), q, r,
                  now, Outside(q));
  }

  lemma {:induction false} SameCleaning(q: Request, r: Request)
    requires q.punches == r.punches && q.duty == r.duty && q.rules.checkoutLeniencyMin == r.rules.checkoutLeniencyMin
    requires q.rules.checkinWindowMin == r.rules.checkinWindowMin
    requires q.rules.trustDeviceDirection == r.rules.trustDeviceDirection
    requires q.rules.duplicatePunchWindowMin == r.rules.duplicatePunchWindowMin
    ensures ShiftDeadline(q.duty, q.rules) == ShiftDeadline(r.duty, r.rules)
    ensures Outside(q) == Outside(r)
    ensures Cleaned(Inside(q).punches, q.rules) == Cleaned(Inside(r).punches, r.rules)
  {
  }

  lemma {:induction false} DecidedCredit(ps: seq<Punch>, pairing: Pairing, account: Account, q: Request, r: Request,
                                         now: int, outside: seq<Scan>)
    requires r == q.(rules := r.rules)
    requires r.rules == q.rules.(fullDayMinPercent := r.rules.fullDayMinPercent,
                                 halfDayMinPercent := r.rules.halfDayMinPercent,
                                 halfDayAfterMinutes := r.rules.halfDayAfterMinutes,
                                 halfDayAfterPercentOfShift := r.rules.halfDayAfterPercentOfShift)
    ensures var due := ShiftDeadline(q.duty, q.rules);
            Finish(ApplyRules(Decide(ps, pairing, account, q.duty, q.rules, now), q.duty.shift, q.rules), outside,
                   due).dayCredit
            == Finish(ApplyRules(Decide(ps, pairing, account, r.duty, r.rules, now), r.duty.shift, r.rules), outside,
                      due).dayCredit
  {
    DecidedTimesIgnorePercents(ps, pairing, account, q.duty, q.rules, now, r.rules);
    ConflictIsIssue(ps, pairing, account, q.duty, q.rules, now);
    ConflictIsIssue(ps, pairing, account, q.duty, r.rules, now);
    GraceDecides(Decide(ps, pairing, account, q.duty, q.rules, now), Decide(ps, pairing, account, r.duty, r.rules, now),
      q, r, outside, ShiftDeadline(q.duty, q.rules));
  }

  // ---------------------------------------------------------------- from punches to pay

  /** Scans whose instants are their civil times. */
  ghost predicate CivilScans(punches: seq<Scan>) {
    forall i :: 0 <= i < |punches| ==> Instant(punches[i].punch) == TimeOf(punches[i])
  }

  lemma {:induction false} CollapseKeepsOrder(sorted: seq<Scan>, window: int)
    requires SortedBy(sorted, TimeOf)
    ensures SortedBy(Collapse(sorted, window), TimeOf)
    ensures forall s :: s in Collapse(sorted, window) ==> s in sorted
  {
    if |sorted| > 0 {
      var front, s := sorted[..|sorted| - 1], sorted[|sorted| - 1];
      CollapseKeepsOrder(front, window);
      assert sorted == front + [s];
      var kept := Collapse(front, window);
      forall i | 0 <= i < |kept| ensures TimeOf(kept[i]) <= TimeOf(s) {
        assert kept[i] in front;
      }
    }
  }

  /** The scan that a cleaned punch comes from. */
  ghost predicate ComesFrom(p: Punch, punches: seq<Scan>) {
    exists i :: 0 <= i < |punches| && p == punches[i].punch.(dir := p.dir)
  }

  lemma {:induction false} InferKeepsTimes(ps: seq<Punch>)
    ensures |Infer(ps)| == |ps|
    ensures forall i :: 0 <= i < |ps| ==> Infer(ps)[i] == ps[i].(dir := Infer(ps)[i].dir)
  {
  }

  lemma {:induction false} CleanedScans(punches: seq<Scan>, rules: Rules)
    ensures InOrder(Cleaned(punches, rules))
    ensures forall i :: 0 <= i < |Cleaned(punches, rules)| ==> ComesFrom(Cleaned(punches, rules)[i], punches)
  {
    var trusted, window := Trusted(punches, rules.trustDeviceDirection), rules.duplicatePunchWindowMin.GetOr(5);
    var kept := Collapse(SortBy(trusted, TimeOf), window);
    SortedCollapse(trusted, window);
    InferKeepsTimes(PunchesOf(kept));
    KeptScans(punches, trusted, kept, Infer(PunchesOf(kept)));
  }

  lemma {:induction false} SortedCollapse(scans: seq<Scan>, window: int)
    ensures SortedBy(Collapse(SortBy(scans, TimeOf), window), TimeOf)
    ensures forall s :: s in Collapse(SortBy(scans, TimeOf), window) ==> s in scans
  {
    SortBySorts(scans, TimeOf);
    CollapseKeepsOrder(SortBy(scans, TimeOf), window);
  }

  lemma {:induction false} KeptScans(punches: seq<Scan>, trusted: seq<Scan>, kept: seq<Scan>, clean: seq<Punch>)
    requires SortedBy(kept, TimeOf) && forall s :: s in kept ==> s in trusted
    requires |trusted| == |punches|
    requires forall i :: 0 <= i < |punches| ==> trusted[i].punch == punches[i].punch.(dir := trusted[i].punch.dir)
    requires |clean| == |kept|
    requires forall i :: 0 <= i < |kept| ==> clean[i] == kept[i].punch.(dir := clean[i].dir)
    ensures InOrder(clean)
    ensures forall i :: 0 <= i < |clean| ==> ComesFrom(clean[i], punches)
  {
    forall i | 0 <= i < |clean| ensures ComesFrom(clean[i], punches) {
      assert kept[i] in trusted;
      var j :| 0 <= j < |trusted| && trusted[j] == kept[i];
      assert clean[i] == punches[j].punch.(dir := clean[i].dir);
    }
    forall i | 0 <= i < |clean| - 1 ensures clean[i].timestamp <= clean[i + 1].timestamp {
      assert TimeOf(kept[i]) <= TimeOf(kept[i + 1]);
    }
  }

  lemma {:induction false} FilterKeeps(punches: seq<Scan>, duty: Duty, due: Option<int>, outside: bool)
    ensures forall s :: s in Filter(punches, duty, due, outside) ==> s in punches
  {
    if |punches| > 0 {
      FilterKeeps(punches[..|punches| - 1], duty, due, outside);
    }
  }

  /** Whatever was punched, an evaluated rostered shift is never paid more than it is credited. */
  lemma {:induction false} EvaluatedPayIsCovered(q: Request, now: int)
    requires CivilScans(q.punches) && Rostered(q.duty.shift) && q.rules.account.overtimeAfter >= 0
    ensures var a := EvaluateShift(q, now).account;
            a.regular + a.approvedOvertime <= a.worked && a.payable <= a.credited
  {
    PunchedAreCivil(q);
    PairedIntervalsAreSound(Punched(q));
    NoInstantPaidTwice(Pair(Punched(q)).intervals, q.duty.shift, q.rules.account, q.credits);
    AccountOn(q, Punched(q), Earned(q), Outside(q), now);
  }

  lemma {:induction false} AccountOn(q: Request, ps: seq<Punch>, account: Account, outside: seq<Scan>, now: int)
    ensures EvaluateOn(q, ps, account, outside, now).account == account
  {
    FinishKeeps(Decide(ps, Pair(ps), account, q.duty, q.rules, now), q.duty.shift, q.rules, outside,
                ShiftDeadline(q.duty, q.rules));
    ConflictIsIssue(ps, Pair(ps), account, q.duty, q.rules, now);
  }

  lemma {:induction false} PunchedAreCivil(q: Request)
    requires CivilScans(q.punches)
    ensures InOrder(Punched(q)) && Civil(Punched(q))
  {
    var punches := Inside(q).punches;
    FilterKeeps(q.punches, q.duty, ShiftDeadline(q.duty, q.rules), false);
    CleanedScans(punches, q.rules);
    CleanedAreCivil(Punched(q), punches, q.punches);
  }

  lemma {:induction false} CleanedAreCivil(ps: seq<Punch>, inside: seq<Scan>, punches: seq<Scan>)
    requires forall s :: s in inside ==> s in punches
    requires forall i :: 0 <= i < |ps| ==> ComesFrom(ps[i], inside)
    requires CivilScans(punches)
    ensures Civil(ps)
  {
    forall i | 0 <= i < |ps| ensures Instant(ps[i]) == ps[i].timestamp {
      assert ComesFrom(ps[i], inside);
      var j :| 0 <= j < |inside| && ps[i] == inside[j].punch.(dir := ps[i].dir);
      assert inside[j] in punches;
    }
  }

  /** Every OUT so far is no later than the end of the last interval, which is itself an OUT. */
  ghost predicate EndsLast(ps: seq<Punch>, r: Pairing) {
    |r.intervals| > 0 && r.open.None? ==>
      LastOut(ps) == Some(r.intervals[|r.intervals| - 1].end)
  }

  lemma {:induction false} LastIntervalEndsAtLastOut(ps: seq<Punch>)
    requires InOrder(ps) && Civil(ps) && Directed(ps)
    ensures EndsLast(ps, Pair(ps))
    ensures |ps| > 0 ==> Reached(Pair(ps), ps[|ps| - 1].timestamp)
  {
    if |ps| > 0 {
      var front, p := ps[..|ps| - 1], ps[|ps| - 1];
      LastIntervalEndsAtLastOut(front);
      IntervalsAreOrdered(ps);
      CivilElapsed(front);
      assert Instant(p) == p.timestamp;
      var s := Pair(front);
      assert p.dir != Unknown;
      if |front| > 0 {
        assert ps[|front| - 1].timestamp <= ps[|front| - 1 + 1].timestamp;
      }
    }
  }

  /** A credited shift's check-in and check-out are the two ends of its worked intervals. */
  lemma {:induction false} CreditedSpanIsObserved(q: Request, now: int)
    requires CivilScans(q.punches) && EvaluateShift(q, now).dayCredit == Some(FULL)
    ensures var v := EvaluateShift(q, now);
            && v.checkIn.Some? && v.checkOut.Some? && v.checkIn.value < v.checkOut.value
            && ObservedSpan(v.intervals) == [Window(v.checkIn.value, v.checkOut.value)]
  {
    CleanedHasTimes(Inside(q).punches, q.rules);
    PunchedAreCivil(q);
    SpanOn(q, Punched(q), Earned(q), Outside(q), now);
  }

  lemma {:induction false} SpanOn(q: Request, ps: seq<Punch>, account: Account, outside: seq<Scan>, now: int)
    requires |ps| > 0 ==> FirstIn(ps).Some? || LastOut(ps).Some?
    requires InOrder(ps) && Civil(ps) && EvaluateOn(q, ps, account, outside, now).dayCredit == Some(FULL)
    ensures var v := EvaluateOn(q, ps, account, outside, now);
            && v.checkIn.Some? && v.checkOut.Some? && v.checkIn.value < v.checkOut.value
            && ObservedSpan(v.intervals) == [Window(v.checkIn.value, v.checkOut.value)]
  {
    FinishKeeps(Decide(ps, Pair(ps), account, q.duty, q.rules, now), q.duty.shift, q.rules, outside,
                ShiftDeadline(q.duty, q.rules));
    CreditOn(q, ps, account, outside, now);
    DecidedSpan(ps, account, q.duty, q.rules, now);
  }

  lemma {:induction false} DecidedSpan(ps: seq<Punch>, account: Account, duty: Duty, rules: Rules, now: int)
    requires |ps| > 0 ==> FirstIn(ps).Some? || LastOut(ps).Some?
    requires InOrder(ps) && Civil(ps)
    ensures var v := Decide(ps, Pair(ps), account, duty, rules, now);
            v.checkIn.Some? && v.checkOut.Some? && |v.issues| == 0 ==>
              v.checkIn.value < v.checkOut.value
                && ObservedSpan(v.intervals) == [Window(v.checkIn.value, v.checkOut.value)]
  {
    var v := Decide(ps, Pair(ps), account, duty, rules, now);
    if v.checkIn.Some? && v.checkOut.Some? && |v.issues| == 0 {
      DecidedTimes(ps, account, duty, rules, now);
      ConflictIsIssue(ps, Pair(ps), account, duty, rules, now);
      IssuesAreUndirected(ps);
      LastIntervalEndsAtLastOut(ps);
      IntervalsAreOrdered(ps);
      SpanIsPositive(Pair(ps).intervals);
      LastOutIsAfter(ps, v.checkIn.value);
    }
  }

  lemma {:induction false} SpanIsPositive(xs: seq<Interval>)
    requires Ordered(Spans(xs)) && |xs| > 0
    ensures xs[0].start < xs[|xs| - 1].end
  {
    if |xs| > 1 {
      assert Spans(xs)[..|xs| - 1] == Spans(xs[..|xs| - 1]);
      SpanIsPositive(xs[..|xs| - 1]);
      assert Spans(xs)[|xs| - 2] == Window(xs[|xs| - 2].start, xs[|xs| - 2].end);
    }
  }

  lemma {:induction false} LastOutIsAfter(ps: seq<Punch>, t: int)
    requires LastOut(ps).Some? && LastOut(ps).value > t
    ensures LastOutAfter(ps, t) == LastOut(ps)
  {
    if |ps| > 0 && ps[|ps| - 1].dir != Out {
      LastOutIsAfter(ps[..|ps| - 1], t);
    }
  }
}
