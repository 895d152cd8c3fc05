/**
 What one shift's intervals are worth (src/lib/attendanceIntervals.js, 86-187). All durations are in
 milliseconds: the source's minutes are these divided by 60000.
 */
module Accounting {
  import opened Options
  import opened Arithmetic
  import opened Windows
  import opened Pairing

  datatype Shift = Shift(start: Option<int>, end: Option<int>, exclusions: seq<Window>, paidBreaks: seq<Window>)

  datatype Policy = Policy(overtimeAfter: int, overtimeNeedsApproval: bool)

  datatype CreditKind = Travel | Overtime | OtherCredit

  datatype Credit = Credit(kind: CreditKind, paid: bool, window: Window)

  datatype Account = Account(
    presence: int, worked: int, regular: int, unpaidBreak: int, paidBreak: int, travel: int,
    overtime: int, approvedOvertime: int, payable: int, credited: int)

  /** A missing time counts as zero in JavaScript arithmetic. */
  function ShiftWindow(shift: Shift): Window {
    Window(shift.start.GetOr(0), shift.end.GetOr(0))
  }

  predicate Rostered(shift: Shift) {
    shift.start.Some? && shift.end.Some?
  }

  function Elapsed(intervals: seq<Interval>): int {
    if |intervals| == 0 then 0 else Elapsed(intervals[..|intervals| - 1]) + intervals[|intervals| - 1].elapsed
  }

  function CreditWindows(credits: seq<Credit>, kind: CreditKind): seq<Window> {
    if |credits| == 0 then []
    else
      var c := credits[|credits| - 1];
      CreditWindows(credits[..|credits| - 1], kind)
      + (if c.kind == kind && (kind == Travel ==> c.paid) then [c.window] else [])
  }

  function ObservedSpan(intervals: seq<Interval>): seq<Window> {
    if |intervals| == 0 then [] else [Window(intervals[0].start, intervals[|intervals| - 1].end)]
  }

  /** Paid breaks, clipped to the shift. */
  function ClippedBreaks(shift: Shift): seq<Window> {
    MeetAll(ShiftWindow(shift), Union(shift.paidBreaks))
  }

  function PaidBreakBalance(intervals: seq<Interval>, shift: Shift): int {
    IntersectionTime(ClippedBreaks(shift), ObservedSpan(intervals))
    - IntersectionTime(ClippedBreaks(shift), Spans(intervals))
  }

  function TravelBalance(intervals: seq<Interval>, shift: Shift, credits: seq<Credit>): int {
    var travel := Union(CreditWindows(credits, Travel));
    WindowTime(travel)
    - IntersectionTime(travel, Union(Spans(intervals) + Intersect(ClippedBreaks(shift), ObservedSpan(intervals))))
  }

  function RegularBalance(intervals: seq<Interval>, shift: Shift): int {
    (if Rostered(shift) then IntersectionTime(Spans(intervals), [ShiftWindow(shift)]) else Elapsed(intervals))
    - IntersectionTime(Intersect(Spans(intervals), [ShiftWindow(shift)]), shift.exclusions)
  }

  function ApprovedBalance(intervals: seq<Interval>, shift: Shift, approved: seq<Window>): int {
    var seen := Intersect(Spans(intervals), approved);
    IntersectionTime(Spans(intervals), approved)
    - IntersectionTime(Spans(intervals), MeetAll(ShiftWindow(shift), approved))
    - (IntersectionTime(seen, shift.exclusions)
       - IntersectionTime(Intersect(seen, [ShiftWindow(shift)]), shift.exclusions))
  }

  /** The amounts, from the balances of the shift. */
  function Amounts(presence: int, excluded: int, breaks: int, travelled: int, rostered: int, approved: int,
                   policy: Policy): Account {
    var paidBreak, travel, worked, regular := Max(0, breaks), Max(0, travelled), Max(0, presence - excluded),
                                              Max(0, rostered);
    var overtime := Max(0, worked - regular - policy.overtimeAfter);
    var approvedOvertime := if !policy.overtimeNeedsApproval then overtime else Min(overtime, Max(0, approved));
    Account(
      presence, worked, regular, excluded, paidBreak, travel, overtime, approvedOvertime,
      regular + paidBreak + travel + approvedOvertime,
      worked + paidBreak + travel)
  }

  function AccountAttendance(intervals: seq<Interval>, shift: Shift, policy: Policy, credits: seq<Credit>): Account {
    Amounts(
      Elapsed(intervals), IntersectionTime(Spans(intervals), shift.exclusions), PaidBreakBalance(intervals, shift),
      TravelBalance(intervals, shift, credits), RegularBalance(intervals, shift),
      ApprovedBalance(intervals, shift, CreditWindows(credits, Overtime)), policy)
  }

  // ---------------------------------------------------------------- the time sets behind the numbers

  ghost function Present(intervals: seq<Interval>): set<int> {
    Instants(Spans(intervals))
  }

  ghost function OnRoster(shift: Shift): set<int> {
    Range(ShiftWindow(shift).start, ShiftWindow(shift).end)
  }

  /** Presence inside the shift and outside the exclusions. */
  ghost function RegularTime(intervals: seq<Interval>, shift: Shift): set<int> {
    Present(intervals) * OnRoster(shift) - Instants(shift.exclusions)
  }

  /** Paid break inside the shift and the observed span, while not present. */
  ghost function PaidBreakTime(intervals: seq<Interval>, shift: Shift): set<int> {
    OnRoster(shift) * Instants(shift.paidBreaks) * Instants(ObservedSpan(intervals)) - Present(intervals)
  }

  /** Paid travel, while neither present nor on a paid break. */
  ghost function TravelTime(intervals: seq<Interval>, shift: Shift, credits: seq<Credit>): set<int> {
    Instants(CreditWindows(credits, Travel)) - Present(intervals) - PaidBreakTime(intervals, shift)
  }

  /** Presence outside the shift and outside the exclusions. */
  ghost function ExtraTime(intervals: seq<Interval>, shift: Shift): set<int> {
    Present(intervals) - OnRoster(shift) - Instants(shift.exclusions)
  }

  /** Intervals as pairing leaves them when punches are in order and instants are civil times. */
  ghost predicate Sound(intervals: seq<Interval>) {
    && Ordered(Spans(intervals))
    && forall i :: 0 <= i < |intervals| ==> intervals[i].elapsed == Max(0, intervals[i].end - intervals[i].start)
  }

  lemma {:induction false} PairedIntervalsAreSound(ps: seq<Punch>)
    requires InOrder(ps) && Civil(ps)
    ensures Sound(Pair(ps).intervals)
  {
    IntervalsAreOrdered(ps);
    CivilElapsed(ps);
  }

  lemma {:induction false} ElapsedIsTotalLength(intervals: seq<Interval>)
    requires forall i :: 0 <= i < |intervals| ==> intervals[i].elapsed == Max(0, intervals[i].end - intervals[i].start)
    ensures Elapsed(intervals) == TotalLength(Spans(intervals))
  {
    if |intervals| > 0 {
      var n := |intervals| - 1;
      ElapsedIsTotalLength(intervals[..n]);
      assert Spans(intervals)[..n] == Spans(intervals[..n]);
    }
  }

  lemma {:induction false} OrderedStart(ws: seq<Window>)
    requires Ordered(ws) && |ws| > 0
    ensures ws[0].start < ws[|ws| - 1].end
    ensures forall t :: t in Instants(ws) ==> ws[0].start <= t
  {
    if |ws| > 1 {
      OrderedStart(ws[..|ws| - 1]);
    }
  }

  lemma {:induction false} PresenceWithinSpan(intervals: seq<Interval>)
    requires Ordered(Spans(intervals))
    ensures Present(intervals) <= Instants(ObservedSpan(intervals))
  {
    if |intervals| > 0 {
      var ws := Spans(intervals);
      OrderedStart(ws);
      OrderedBound(ws);
      assert Instants(ObservedSpan(intervals)) == Range(intervals[0].start, intervals[|intervals| - 1].end);
    }
  }

  lemma {:induction false} PresenceMeasure(intervals: seq<Interval>)
    requires Sound(intervals)
    ensures Elapsed(intervals) == |Present(intervals)|
  {
    ElapsedIsTotalLength(intervals);
    TotalLengthIsMeasure(Spans(intervals));
  }

  lemma {:induction false} SingleInstants(w: Window)
    ensures Instants([w]) == Range(w.start, w.end)
  {
  }

  lemma {:induction false} PaidBreakMeasure(intervals: seq<Interval>, shift: Shift)
    requires Ordered(Spans(intervals))
    ensures PaidBreakBalance(intervals, shift) == |PaidBreakTime(intervals, shift)|
  {
    MeetAllInstants(ShiftWindow(shift), Union(shift.paidBreaks));
    UnionIsSetUnion(shift.paidBreaks);
    IntersectIsSetIntersection(ClippedBreaks(shift), ObservedSpan(intervals));
    IntersectIsSetIntersection(ClippedBreaks(shift), Spans(intervals));
    PresenceWithinSpan(intervals);
    BreakSets(OnRoster(shift) * Instants(shift.paidBreaks), Instants(ObservedSpan(intervals)), Present(intervals));
  }

  lemma {:induction false} BreakSets(b: set<int>, span: set<int>, p: set<int>)
    requires p <= span
    ensures |b * span| - |b * p| == |b * span - p|
  {
    assert b * span * p == b * p;
    assert |b * span - p| == |b * span| - |b * span * p|;
  }

  lemma {:induction false} TravelMeasure(intervals: seq<Interval>, shift: Shift, credits: seq<Credit>)
    ensures TravelBalance(intervals, shift, credits) == |TravelTime(intervals, shift, credits)|
  {
    var travel, breaks, span := Union(CreditWindows(credits, Travel)), ClippedBreaks(shift), ObservedSpan(intervals);
    MeetAllInstants(ShiftWindow(shift), Union(shift.paidBreaks));
    UnionIsSetUnion(shift.paidBreaks);
    IntersectIsSetIntersection(breaks, span);
    InstantsSplit(Spans(intervals), Intersect(breaks, span));
    UnionIsSetUnion(Spans(intervals) + Intersect(breaks, span));
    UnionIsSetUnion(CreditWindows(credits, Travel));
    WindowTimeIsMeasure(travel);
    IntersectIsSetIntersection(travel, Union(Spans(intervals) + Intersect(breaks, span)));
    TravelSets(Instants(CreditWindows(credits, Travel)), Present(intervals),
               OnRoster(shift) * Instants(shift.paidBreaks) * Instants(span));
  }

  lemma {:induction false} TravelSets(t: set<int>, p: set<int>, b: set<int>)
    ensures |t| - |t * (p + b)| == |t - p - (b - p)|
  {
    assert |t - (p + b)| == |t| - |t * (p + b)|;
    assert t - (p + b) == t - p - (b - p);
  }

  lemma {:induction false} RegularMeasure(intervals: seq<Interval>, shift: Shift)
    requires Rostered(shift)
    ensures RegularBalance(intervals, shift) == |RegularTime(intervals, shift)|
  {
    var worn, rostered := Spans(intervals), [ShiftWindow(shift)];
    SingleInstants(ShiftWindow(shift));
    IntersectIsSetIntersection(worn, rostered);
    IntersectIsSetIntersection(Intersect(worn, rostered), shift.exclusions);
    LessMeasure(Present(intervals) * OnRoster(shift), Instants(shift.exclusions));
  }

  lemma {:induction false} ApprovedMeasure(intervals: seq<Interval>, shift: Shift, approved: seq<Window>)
    ensures ApprovedBalance(intervals, shift, approved) == |ExtraTime(intervals, shift) * Instants(approved)|
  {
    var worn, rostered := Spans(intervals), [ShiftWindow(shift)];
    SingleInstants(ShiftWindow(shift));
    IntersectIsSetIntersection(worn, approved);
    MeetAllInstants(ShiftWindow(shift), approved);
    IntersectIsSetIntersection(worn, MeetAll(ShiftWindow(shift), approved));
    IntersectIsSetIntersection(Intersect(worn, approved), shift.exclusions);
    IntersectIsSetIntersection(Intersect(worn, approved), rostered);
    IntersectIsSetIntersection(Intersect(Intersect(worn, approved), rostered), shift.exclusions);
    ApprovedSets(Present(intervals), Instants(approved), OnRoster(shift), Instants(shift.exclusions));
  }

  lemma {:induction false} LessMeasure(a: set<int>, x: set<int>)
    ensures |a - x| == |a| - |a * x|
  {
  }

  lemma {:induction false} ApprovedSets(p: set<int>, a: set<int>, s: set<int>, x: set<int>)
    ensures |p * a| - |p * (s * a)| - (|p * a * x| - |p * a * s * x|) == |(p - s - x) * a|
  {
    assert p * (s * a) == p * a * s;
    OutsideBoth(p * a, s, x);
    assert p * a - s - x == (p - s - x) * a;
  }

  lemma {:induction false} OutsideBoth(a: set<int>, s: set<int>, x: set<int>)
    ensures |a| - |a * s| - (|a * x| - |a * s * x|) == |a - s - x|
  {
    var b := a - s;
    assert |b| == |a| - |a * s|;
    assert |b - x| == |b| - |b * x|;
    assert b * x == a * x - s;
    assert (a * x) * s == a * s * x;
    assert |a * x - s| == |a * x| - |(a * x) * s|;
  }

  /**
   Every amount of a rostered shift is the measure of a set of instants: the `Math.max(0, ...)` guards
   around regular time, paid break and travel never bite.
   */
  lemma {:induction false} AmountsAreMeasures(intervals: seq<Interval>, shift: Shift, policy: Policy,
                                              credits: seq<Credit>)
    requires Sound(intervals) && Rostered(shift)
    ensures var a := AccountAttendance(intervals, shift, policy, credits);
            && a.presence == |Present(intervals)|
            && a.unpaidBreak == |Present(intervals) * Instants(shift.exclusions)|
            && a.worked == |Present(intervals) - Instants(shift.exclusions)|
            && a.regular == |RegularTime(intervals, shift)|
            && a.paidBreak == |PaidBreakTime(intervals, shift)|
            && a.travel == |TravelTime(intervals, shift, credits)|
            && a.overtime == Max(0, |ExtraTime(intervals, shift)| - policy.overtimeAfter)
            && a.approvedOvertime == (
                 if policy.overtimeNeedsApproval
                 then Min(a.overtime, |ExtraTime(intervals, shift) * Instants(CreditWindows(credits, Overtime))|)
                 else a.overtime)
  {
    WorkedAmounts(intervals, shift, policy, credits);
    OvertimeAmounts(intervals, shift, policy, credits);
    PaidAmounts(intervals, shift, policy, credits);
  }

  lemma {:induction false} PaidAmounts(intervals: seq<Interval>, shift: Shift, policy: Policy, credits: seq<Credit>)
    requires Sound(intervals)
    ensures var a := AccountAttendance(intervals, shift, policy, credits);
            a.paidBreak == |PaidBreakTime(intervals, shift)| && a.travel == |TravelTime(intervals, shift, credits)|
  {
    PaidBreakMeasure(intervals, shift);
    TravelMeasure(intervals, shift, credits);
  }

  lemma {:induction false} WorkedAmounts(intervals: seq<Interval>, shift: Shift, policy: Policy, credits: seq<Credit>)
    requires Sound(intervals) && Rostered(shift)
    ensures var a := AccountAttendance(intervals, shift, policy, credits);
            && a.presence == |Present(intervals)|
            && a.unpaidBreak == |Present(intervals) * Instants(shift.exclusions)|
            && a.worked == |Present(intervals) - Instants(shift.exclusions)|
            && a.regular == |RegularTime(intervals, shift)|
  {
    WorkedMeasure(intervals, shift);
    RegularMeasure(intervals, shift);
  }

  lemma {:induction false} WorkedBalance(intervals: seq<Interval>, shift: Shift)
    requires Sound(intervals) && Rostered(shift)
    ensures Elapsed(intervals) - IntersectionTime(Spans(intervals), shift.exclusions)
            == RegularBalance(intervals, shift) + |ExtraTime(intervals, shift)|
    ensures RegularBalance(intervals, shift) >= 0
  {
    WorkedMeasure(intervals, shift);
    RegularMeasure(intervals, shift);
  }

  lemma {:induction false} OvertimeAmounts(intervals: seq<Interval>, shift: Shift, policy: Policy, credits: seq<Credit>)
    requires Sound(intervals) && Rostered(shift)
    ensures var a := AccountAttendance(intervals, shift, policy, credits);
            && a.overtime == Max(0, |ExtraTime(intervals, shift)| - policy.overtimeAfter)
            && a.approvedOvertime == (
                 if policy.overtimeNeedsApproval
                 then Min(a.overtime, |ExtraTime(intervals, shift) * Instants(CreditWindows(credits, Overtime))|)
                 else a.overtime)
  {
    OvertimeOf(intervals, shift, policy, PaidBreakBalance(intervals, shift), TravelBalance(intervals, shift, credits),
      CreditWindows(credits, Overtime));
  }

  lemma {:induction false} OvertimeOf(intervals: seq<Interval>, shift: Shift, policy: Policy, breaks: int,
                                      travelled: int, approved: seq<Window>)
    requires Sound(intervals) && Rostered(shift)
    ensures var a := Amounts(Elapsed(intervals), IntersectionTime(Spans(intervals), shift.exclusions), breaks,
                             travelled,
                             RegularBalance(intervals, shift), ApprovedBalance(intervals, shift, approved), policy);
            && a.overtime == Max(0, |ExtraTime(intervals, shift)| - policy.overtimeAfter)
            && a.approvedOvertime == (
                 if policy.overtimeNeedsApproval
                 then Min(a.overtime, |ExtraTime(intervals, shift) * Instants(approved)|)
                 else a.overtime)
  {
    WorkedBalance(intervals, shift);
    ApprovedMeasure(intervals, shift, approved);
    AmountsOf(Elapsed(intervals), IntersectionTime(Spans(intervals), shift.exclusions), breaks, travelled,
      RegularBalance(intervals, shift), ApprovedBalance(intervals, shift, approved), policy,
      |ExtraTime(intervals, shift)|);
  }

  /** Balances that are not negative come through unchanged. */
  lemma {:induction false} AmountsOf(presence: int, excluded: int, breaks: int, travelled: int, rostered: int,
                                     approved: int, policy: Policy, extra: int)
    requires rostered >= 0 && approved >= 0 && extra >= 0 && presence - excluded == rostered + extra
    ensures var a := Amounts(presence, excluded, breaks, travelled, rostered, approved, policy);
            && a.overtime == Max(0, extra - policy.overtimeAfter)
            && a.approvedOvertime == (if policy.overtimeNeedsApproval then Min(a.overtime, approved) else a.overtime)
  {
  }

  lemma {:induction false} WorkedMeasure(intervals: seq<Interval>, shift: Shift)
    requires Sound(intervals)
    ensures Elapsed(intervals) == |Present(intervals)|
    ensures IntersectionTime(Spans(intervals), shift.exclusions) == |Present(intervals) * Instants(shift.exclusions)|
    ensures Elapsed(intervals) - IntersectionTime(Spans(intervals), shift.exclusions)
              == |Present(intervals) - Instants(shift.exclusions)|
              == |RegularTime(intervals, shift)| + |ExtraTime(intervals, shift)|
  {
    PresenceMeasure(intervals);
    IntersectIsSetIntersection(Spans(intervals), shift.exclusions);
    LessMeasure(Present(intervals), Instants(shift.exclusions));
    WorkedSplits(Present(intervals), OnRoster(shift), Instants(shift.exclusions));
  }

  lemma {:induction false} WorkedSplits(p: set<int>, s: set<int>, x: set<int>)
    ensures |p - x| == |p * s - x| + |p - s - x|
  {
    assert p - x == (p * s - x) + (p - s - x);
    assert (p * s - x) !! (p - s - x);
  }

  /**
   No instant is paid twice. The paid sets are pairwise disjoint, so what is payable never exceeds
   what is credited, nor the number of instants that were worked, on paid break or travelled.
   */
  lemma {:induction false} NoInstantPaidTwice(intervals: seq<Interval>, shift: Shift, policy: Policy,
                                              credits: seq<Credit>)
    requires Sound(intervals) && Rostered(shift) && policy.overtimeAfter >= 0
    ensures var regular := RegularTime(intervals, shift);
            var extra := ExtraTime(intervals, shift);
            var paidBreak := PaidBreakTime(intervals, shift);
            var travel := TravelTime(intervals, shift, credits);
            var a := AccountAttendance(intervals, shift, policy, credits);
            && regular !! extra !! paidBreak !! travel
            && a.approvedOvertime <= |extra|
            && a.regular + a.approvedOvertime <= a.worked
            && a.payable <= a.credited == |regular + extra + paidBreak + travel|
  {
    AmountsAreMeasures(intervals, shift, policy, credits);
    WorkedMeasure(intervals, shift);
    var extra := ExtraTime(intervals, shift);
    InPart(extra, Instants(CreditWindows(credits, Overtime)));
    PaidSets(RegularTime(intervals, shift), extra, PaidBreakTime(intervals, shift),
             TravelTime(intervals, shift, credits), Present(intervals));
  }

  lemma {:induction false} InPart(a: set<int>, b: set<int>)
    ensures |a * b| <= |a|
  {
    assert |a| == |a * b| + |a - b|;
  }

  lemma {:induction false} PaidSets(regular: set<int>, extra: set<int>, paidBreak: set<int>, travel: set<int>,
                                    present: set<int>)
    requires regular <= present && extra <= present && regular !! extra
    requires paidBreak !! present && travel !! present && travel !! paidBreak
    ensures regular !! extra !! paidBreak !! travel
    ensures |regular + extra + paidBreak + travel| == |regular| + |extra| + |paidBreak| + |travel|
  {
    assert |regular + extra| == |regular| + |extra|;
    assert |regular + extra + paidBreak| == |regular + extra| + |paidBreak|;
    assert |regular + extra + paidBreak + travel| == |regular + extra + paidBreak| + |travel|;
  }

  /**
   Off the roster the promise fails exactly when somebody is present during an exclusion: the
   exclusions leave worked time but not regular time (times are after the epoch).
   */
  lemma {:induction false} UnrosteredPaysExclusions(intervals: seq<Interval>, shift: Shift, policy: Policy,
                                                    credits: seq<Credit>)
    requires Sound(intervals) && policy.overtimeAfter >= 0
    requires shift.start.None? && shift.end.None?
    ensures var a := AccountAttendance(intervals, shift, policy, credits);
            && a.regular == |Present(intervals)|
            && (a.payable <= a.credited <==> Present(intervals) !! Instants(shift.exclusions))
  {
    OffRosterRegular(intervals, shift);
    WorkedMeasure(intervals, shift);
    ExcludedIsLost(Present(intervals), Instants(shift.exclusions));
    OffRosterAmounts(Elapsed(intervals), IntersectionTime(Spans(intervals), shift.exclusions),
                     PaidBreakBalance(intervals, shift),
      TravelBalance(intervals, shift, credits), RegularBalance(intervals, shift),
      ApprovedBalance(intervals, shift, CreditWindows(credits, Overtime)), policy);
  }

  /** Without a shift nothing is taken from regular time. */
  lemma {:induction false} OffRosterRegular(intervals: seq<Interval>, shift: Shift)
    requires Sound(intervals) && shift.start.None? && shift.end.None?
    ensures RegularBalance(intervals, shift) == |Present(intervals)|
  {
    var worn, rostered := Spans(intervals), [ShiftWindow(shift)];
    PresenceMeasure(intervals);
    SingleInstants(ShiftWindow(shift));
    IntersectIsSetIntersection(worn, rostered);
    IntersectIsSetIntersection(Intersect(worn, rostered), shift.exclusions);
    NothingMeets(Present(intervals), OnRoster(shift), Instants(shift.exclusions));
  }

  lemma {:induction false} NothingMeets(p: set<int>, none: set<int>, x: set<int>)
    requires none == {}
    ensures |p * none * x| == 0
  {
    assert forall t :: t in p * none * x ==> t in none;
    assert p * none * x <= none;
  }

  lemma {:induction false} ExcludedIsLost(p: set<int>, x: set<int>)
    ensures |p - x| == |p| - |p * x|
    ensures |p * x| == 0 <==> p !! x
  {
    assert forall t :: t in p && t in x <==> t in p * x;
    assert |p * x| == 0 <==> p * x == {};
  }

  lemma {:induction false} OffRosterAmounts(presence: int, excluded: int, breaks: int, travelled: int, rostered: int,
                                            approved: int, policy: Policy)
    requires rostered == presence && 0 <= excluded <= presence && policy.overtimeAfter >= 0
    ensures var a := Amounts(presence, excluded, breaks, travelled, rostered, approved, policy);
            a.regular == presence && (a.payable <= a.credited <==> excluded == 0)
  {
  }

  /** An off-roster shift from 0 to 20 with an unpaid break from 5 to 10. */
  lemma {:induction false} OffRosterBreakIsPaid(intervals: seq<Interval>, shift: Shift, policy: Policy)
    requires |intervals| == 1 && intervals[0].start == 0 && intervals[0].end == 20 && intervals[0].elapsed == 20
    requires shift == Shift(None, None, [Window(5, 10)], []) && policy.overtimeAfter >= 0
    ensures var a := AccountAttendance(intervals, shift, policy, []);
            a.regular == 20 && a.payable > a.credited
  {
    var ws := Spans(intervals);
    assert ws == [Window(0, 20)];
    assert ws[..0] == [];
    SingleInstants(Window(0, 20));
    SingleInstants(Window(5, 10));
    RangeSize(0, 20);
    assert Tick(5) && 5 in Present(intervals) && 5 in Instants(shift.exclusions);
    UnrosteredPaysExclusions(intervals, shift, policy, []);
  }
}
