/**
 What a shift is worth, for any intervals, said of the instants themselves (src/lib/attendanceIntervals.js, 53-187).
 */
module AccountMeaning {
  import opened Options
  import opened Arithmetic
  import opened Windows
  import opened Pairing
  import opened Accounting

  // ---------------------------------------------------------------- instants

  ghost predicate During(w: Window, t: int) { w.start <= t < w.end }

  /** The set holds exactly the instants of the windows. */
  ghost predicate CoveredBy(s: set<int>, ws: seq<Window>) {
    forall t :: t in s <==> exists i :: 0 <= i < |ws| && During(ws[i], t)
  }

  ghost predicate Attends(x: Interval, t: int) { x.start <= t < x.end }

  /** The instants at which somebody is present. */
  ghost predicate PresentIn(s: set<int>, intervals: seq<Interval>) {
    forall t :: t in s <==> exists i :: 0 <= i < |intervals| && Attends(intervals[i], t)
  }

  /** The instants between the ends of a shift; a missing end is the epoch. */
  ghost predicate RosteredIn(s: set<int>, shift: Shift) {
    forall t :: t in s <==> (if shift.start.Some? then shift.start.value else 0) <= t
                            && t < (if shift.end.Some? then shift.end.value else 0)
  }

  /** The instants from the first arrival to the last departure. */
  ghost predicate SpannedBy(s: set<int>, intervals: seq<Interval>) {
    forall t :: t in s <==> |intervals| > 0 && intervals[0].start <= t < intervals[|intervals| - 1].end
  }

  ghost predicate Travels(c: Credit, t: int) { c.kind == Travel && c.paid && During(c.window, t) }

  ghost predicate Approves(c: Credit, t: int) { c.kind == Overtime && During(c.window, t) }

  /** The instants of paid travel. */
  ghost predicate TravelIn(s: set<int>, credits: seq<Credit>) {
    forall t :: t in s <==> exists i :: 0 <= i < |credits| && Travels(credits[i], t)
  }

  /** The instants of approved overtime, paid or not. */
  ghost predicate ApprovedIn(s: set<int>, credits: seq<Credit>) {
    forall t :: t in s <==> exists i :: 0 <= i < |credits| && Approves(credits[i], t)
  }

  lemma {:induction false} InstantsAre(ws: seq<Window>)
    ensures CoveredBy(Instants(ws), ws)
  {
    forall t ensures t in Instants(ws) <==> exists i :: 0 <= i < |ws| && During(ws[i], t) {
      InstantIs(ws, t);
    }
  }

  lemma {:induction false} InstantIs(ws: seq<Window>, t: int)
    ensures t in Instants(ws) <==> exists i :: 0 <= i < |ws| && During(ws[i], t)
  {
    assert Tick(t);
    if |ws| > 0 {
      var n := |ws| - 1;
      InstantIs(ws[..n], t);
      assert During(ws[n], t) <==> t in Range(ws[n].start, ws[n].end);
      if i :| 0 <= i < n && During(ws[..n][i], t) {
        assert During(ws[i], t);
      }
      if i :| 0 <= i < |ws| && During(ws[i], t) {
        assert i < n ==> During(ws[..n][i], t);
      }
    }
  }

  lemma {:induction false} OneCover(a: set<int>, b: set<int>, ws: seq<Window>)
    requires CoveredBy(a, ws) && CoveredBy(b, ws)
    ensures a == b
  {
    forall t ensures t in a <==> t in b {
      assert t in a <==> exists i :: 0 <= i < |ws| && During(ws[i], t);
    }
  }

  lemma {:induction false} PresentAre(s: set<int>, intervals: seq<Interval>)
    requires PresentIn(s, intervals)
    ensures s == Present(intervals)
  {
    var ws := Spans(intervals);
    InstantsAre(ws);
    forall t ensures t in s <==> t in Instants(ws) {
      if i :| 0 <= i < |intervals| && Attends(intervals[i], t) { assert During(ws[i], t); }
      if i :| 0 <= i < |ws| && During(ws[i], t) { assert Attends(intervals[i], t); }
    }
  }

  lemma {:induction false} RosteredAre(s: set<int>, shift: Shift)
    requires RosteredIn(s, shift)
    ensures s == OnRoster(shift)
  {
    forall t ensures t in s <==> t in OnRoster(shift) {
      assert Tick(t);
    }
  }

  lemma {:induction false} SpanAre(s: set<int>, intervals: seq<Interval>)
    requires SpannedBy(s, intervals)
    ensures s == Instants(ObservedSpan(intervals))
  {
    if |intervals| > 0 {
      SingleInstants(ObservedSpan(intervals)[0]);
    }
    forall t ensures t in s <==> t in Instants(ObservedSpan(intervals)) {
      assert Tick(t);
    }
  }

  lemma {:induction false} CreditsAre(credits: seq<Credit>, kind: CreditKind, t: int)
    ensures t in Instants(CreditWindows(credits, kind)) <==>
              exists i :: 0 <= i < |credits| && credits[i].kind == kind && (kind == Travel ==> credits[i].paid)
                          && During(credits[i].window, t)
  {
    if |credits| > 0 {
      var front, c := credits[..|credits| - 1], credits[|credits| - 1];
      CreditsAre(front, kind, t);
      InstantsSplit(CreditWindows(front, kind), if c.kind == kind && (kind == Travel ==> c.paid) then [c.window]
        else []);
      SingleInstants(c.window);
      assert Tick(t) && (t in Range(c.window.start, c.window.end) <==> During(c.window, t));
      if i :| 0 <= i < |front| && front[i].kind == kind && (kind == Travel ==> front[i].paid)
              && During(front[i].window, t) {
        assert credits[i] == front[i];
      }
    }
  }

  lemma {:induction false} TravelAre(s: set<int>, credits: seq<Credit>)
    requires TravelIn(s, credits)
    ensures s == Instants(CreditWindows(credits, Travel))
  {
    forall t ensures t in s <==> t in Instants(CreditWindows(credits, Travel)) {
      CreditsAre(credits, Travel, t);
      if i :| 0 <= i < |credits| && Travels(credits[i], t) { assert credits[i].kind == Travel && credits[i].paid; }
      if i :| 0 <= i < |credits| && credits[i].kind == Travel && (Travel == Travel ==> credits[i].paid)
              && During(credits[i].window, t) {
        assert Travels(credits[i], t);
      }
    }
  }

  lemma {:induction false} ApprovedAre(s: set<int>, credits: seq<Credit>)
    requires ApprovedIn(s, credits)
    ensures s == Instants(CreditWindows(credits, Overtime))
  {
    forall t ensures t in s <==> t in Instants(CreditWindows(credits, Overtime)) {
      CreditsAre(credits, Overtime, t);
      if i :| 0 <= i < |credits| && Approves(credits[i], t) { assert credits[i].kind == Overtime; }
      if i :| 0 <= i < |credits| && credits[i].kind == Overtime && (Overtime == Travel ==> credits[i].paid)
              && During(credits[i].window, t) {
        assert Approves(credits[i], t);
      }
    }
  }

  // ---------------------------------------------------------------- the amounts

  ghost function TotalElapsed(intervals: seq<Interval>): int {
    if |intervals| == 0 then 0 else intervals[0].elapsed + TotalElapsed(intervals[1..])
  }

  lemma {:induction false} ElapsedIs(intervals: seq<Interval>)
    ensures Elapsed(intervals) == TotalElapsed(intervals)
  {
    if |intervals| == 1 {
      assert intervals[..0] == [] && intervals[1..] == [];
    } else if |intervals| > 1 {
      var n := |intervals| - 1;
      ElapsedIs(intervals[..n]);
      ElapsedIs(intervals[1..n]);
      ElapsedIs(intervals[1..]);
      assert intervals[..n][1..] == intervals[1..n] == intervals[1..][..n - 1];
    }
  }

  /** The time sets of a shift. */
  datatype Sets = Sets(present: set<int>, roster: set<int>, excluded: set<int>, breaks: set<int>, span: set<int>,
                       travel: set<int>, approved: set<int>)

  ghost predicate SetsOf(s: Sets, intervals: seq<Interval>, shift: Shift, credits: seq<Credit>) {
    && PresentIn(s.present, intervals) && RosteredIn(s.roster, shift) && CoveredBy(s.excluded, shift.exclusions)
    && CoveredBy(s.breaks, shift.paidBreaks) && SpannedBy(s.span, intervals)
    && TravelIn(s.travel, credits) && ApprovedIn(s.approved, credits)
  }

  ghost function AtLeast0(n: int): int { if n > 0 then n else 0 }

  /** The amounts, from elapsed time and the sizes of the time sets. */
  ghost predicate Worth(a: Account, presence: int, onRoster: int, s: Sets, policy: Policy) {
    var paidBreaks, extra := s.roster * s.breaks, s.present - s.roster - s.excluded;
    && a.presence == presence
    && a.unpaidBreak == |s.present * s.excluded|
    && a.worked == AtLeast0(presence - |s.present * s.excluded|)
    && a.regular == AtLeast0(onRoster - |s.present * s.roster * s.excluded|)
    && a.paidBreak == AtLeast0(|paidBreaks * s.span| - |paidBreaks * s.present|)
    && a.travel == |s.travel - s.present - paidBreaks * s.span|
    && a.overtime == AtLeast0(a.worked - a.regular - policy.overtimeAfter)
    && a.approvedOvertime == (if policy.overtimeNeedsApproval && |extra * s.approved| < a.overtime
                              then |extra * s.approved| else a.overtime)
    && a.payable == a.regular + a.paidBreak + a.travel + a.approvedOvertime
    && a.credited == a.worked + a.paidBreak + a.travel
  }

  /**
   Every amount of any intervals: presence is elapsed time; what is paid besides is measured on the instants of the
   shift; nothing is less than nothing.
   */
  lemma {:induction false} AmountsAre(intervals: seq<Interval>, shift: Shift, policy: Policy, credits: seq<Credit>,
                                      s: Sets)
    requires SetsOf(s, intervals, shift, credits)
    ensures Worth(AccountAttendance(intervals, shift, policy, credits), TotalElapsed(intervals),
                  if shift.start.Some? && shift.end.Some? then |s.present * s.roster| else TotalElapsed(intervals),
                  s, policy)
  {
    SetsAre(intervals, shift, credits, s);
    ElapsedIs(intervals);
    BalancesAre(intervals, shift, credits, s);
    AmountsFrom(
      Elapsed(intervals), IntersectionTime(Spans(intervals), shift.exclusions), PaidBreakBalance(intervals, shift),
      TravelBalance(intervals, shift, credits), RegularBalance(intervals, shift),
      ApprovedBalance(intervals, shift, CreditWindows(credits, Overtime)), policy,
      if shift.start.Some? && shift.end.Some? then |s.present * s.roster| else Elapsed(intervals), s);
  }

  /** Balances that are the sizes of the sets give what the shift is worth. */
  lemma {:induction false} AmountsFrom(presence: int, excluded: int, breaks: int, travelled: int, rostered: int,
                                       approved: int, policy: Policy, onRoster: int, s: Sets)
    requires excluded == |s.present * s.excluded| && travelled == |s.travel - s.present - s.roster * s.breaks * s.span|
    requires breaks == |s.roster * s.breaks * s.span| - |s.roster * s.breaks * s.present|
    requires rostered == onRoster - |s.present * s.roster * s.excluded|
    requires approved == |(s.present - s.roster - s.excluded) * s.approved|
    ensures Worth(Amounts(presence, excluded, breaks, travelled, rostered, approved, policy), presence, onRoster, s,
                  policy)
  {
  }

  lemma {:induction false} SetsAre(intervals: seq<Interval>, shift: Shift, credits: seq<Credit>, s: Sets)
    requires SetsOf(s, intervals, shift, credits)
    ensures s == Sets(Present(intervals), OnRoster(shift), Instants(shift.exclusions), Instants(shift.paidBreaks),
                      Instants(ObservedSpan(intervals)), Instants(CreditWindows(credits, Travel)),
                      Instants(CreditWindows(credits, Overtime)))
  {
    PresentAre(s.present, intervals);
    RosteredAre(s.roster, shift);
    SpanAre(s.span, intervals);
    TravelAre(s.travel, credits);
    ApprovedAre(s.approved, credits);
    InstantsAre(shift.exclusions);
    OneCover(s.excluded, Instants(shift.exclusions), shift.exclusions);
    InstantsAre(shift.paidBreaks);
    OneCover(s.breaks, Instants(shift.paidBreaks), shift.paidBreaks);
  }

  /** The balances behind the amounts. */
  lemma {:induction false} BalancesAre(intervals: seq<Interval>, shift: Shift, credits: seq<Credit>, s: Sets)
    requires s == Sets(Present(intervals), OnRoster(shift), Instants(shift.exclusions), Instants(shift.paidBreaks),
                       Instants(ObservedSpan(intervals)), Instants(CreditWindows(credits, Travel)),
                       Instants(CreditWindows(credits, Overtime)))
    ensures IntersectionTime(Spans(intervals), shift.exclusions) == |s.present * s.excluded|
    ensures PaidBreakBalance(intervals, shift) == |s.roster * s.breaks * s.span| - |s.roster * s.breaks * s.present|
    ensures TravelBalance(intervals, shift, credits) == |s.travel - s.present - s.roster * s.breaks * s.span|
    ensures RegularBalance(intervals, shift)
            == (if shift.start.Some? && shift.end.Some? then |s.present * s.roster| else Elapsed(intervals))
               - |s.present * s.roster * s.excluded|
    ensures ApprovedBalance(intervals, shift, CreditWindows(credits, Overtime))
            == |(s.present - s.roster - s.excluded) * s.approved|
  {
    IntersectIsSetIntersection(Spans(intervals), shift.exclusions);
    BreaksAre(intervals, shift);
    TravelsAre(intervals, shift, credits);
    RegularIs(intervals, shift);
    ApprovedMeasure(intervals, shift, CreditWindows(credits, Overtime));
  }

  lemma {:induction false} BreaksAre(intervals: seq<Interval>, shift: Shift)
    ensures var paidBreaks := OnRoster(shift) * Instants(shift.paidBreaks);
            PaidBreakBalance(intervals, shift)
            == |paidBreaks * Instants(ObservedSpan(intervals))| - |paidBreaks * Present(intervals)|
  {
    MeetAllInstants(ShiftWindow(shift), Union(shift.paidBreaks));
    UnionIsSetUnion(shift.paidBreaks);
    IntersectIsSetIntersection(ClippedBreaks(shift), ObservedSpan(intervals));
    IntersectIsSetIntersection(ClippedBreaks(shift), Spans(intervals));
  }

  lemma {:induction false} TravelsAre(intervals: seq<Interval>, shift: Shift, credits: seq<Credit>)
    ensures TravelBalance(intervals, shift, credits)
            == |Instants(CreditWindows(credits, Travel)) - Present(intervals)
                - OnRoster(shift) * Instants(shift.paidBreaks) * Instants(ObservedSpan(intervals))|
  {
    TravelMeasure(intervals, shift, credits);
    var t, p := Instants(CreditWindows(credits, Travel)), Present(intervals);
    var b := OnRoster(shift) * Instants(shift.paidBreaks) * Instants(ObservedSpan(intervals));
    assert t - p - (b - p) == t - p - b;
  }

  lemma {:induction false} RegularIs(intervals: seq<Interval>, shift: Shift)
    ensures RegularBalance(intervals, shift)
            == (if Rostered(shift) then |Present(intervals) * OnRoster(shift)| else Elapsed(intervals))
               - |Present(intervals) * OnRoster(shift) * Instants(shift.exclusions)|
  {
    var worn, rostered := Spans(intervals), [ShiftWindow(shift)];
    SingleInstants(ShiftWindow(shift));
    IntersectIsSetIntersection(worn, rostered);
    IntersectIsSetIntersection(Intersect(worn, rostered), shift.exclusions);
  }
}
