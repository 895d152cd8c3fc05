/** Pairing one shift's punches into worked intervals (src/lib/attendanceIntervals.js, 3-51). */
module Pairing {
  import opened Options
  import opened Arithmetic
  import opened Windows

  datatype Direction = In | Out | Unknown

  datatype Punch = Punch(
    dir: Direction,
    timestamp: int,
    occurredAt: Option<int>,
    siteId: Option<int>,
    eventId: Option<int>)

  datatype Interval = Interval(
    start: int, end: int,
    occurredStart: int, occurredEnd: int,
    fromSiteId: Option<int>, toSiteId: Option<int>,
    inEventId: Option<int>, outEventId: Option<int>,
    elapsed: int)

  datatype MarkCode = RepeatedIn | ExtraOut | UnmatchedOut

  datatype Mark = Mark(code: MarkCode, at: int)

  datatype Pairing = Pairing(intervals: seq<Interval>, issues: seq<int>, marks: seq<Mark>, open: Option<Punch>)

  /** The actual instant of a punch, where it is known; otherwise its civil time. */
  function Instant(p: Punch): int {
    p.occurredAt.GetOr(p.timestamp)
  }

  function IntervalOf(arrival: Punch, departure: Punch): Interval {
    Interval(
      arrival.timestamp, departure.timestamp, Instant(arrival), Instant(departure),
      arrival.siteId, departure.siteId, arrival.eventId, departure.eventId,
      Max(0, Instant(departure) - Instant(arrival)))
  }

  function Extend(last: Interval, p: Punch): Interval {
    last.(end := p.timestamp, occurredEnd := Instant(p), toSiteId := p.siteId, outEventId := p.eventId,
          elapsed := Max(0, Instant(p) - last.occurredStart))
  }

  function Step(s: Pairing, p: Punch): Pairing {
    match p.dir
    case In =>
      if s.open.Some? then s.(marks := s.marks + [Mark(RepeatedIn, p.timestamp)]) else s.(open := Some(p))
    case Out =>
      if s.open.None? then
        if |s.intervals| > 0
           && p.timestamp > s.intervals[|s.intervals| - 1].end
           && Instant(p) > s.intervals[|s.intervals| - 1].occurredEnd
        then
          s.(marks := s.marks + [Mark(ExtraOut, p.timestamp)],
             intervals := s.intervals[|s.intervals| - 1 := Extend(s.intervals[|s.intervals| - 1], p)])
        else
          s.(marks := s.marks + [Mark(UnmatchedOut, p.timestamp)])
      else if p.timestamp <= s.open.value.timestamp || Instant(p) <= Instant(s.open.value) then
        s.(marks := s.marks + [Mark(UnmatchedOut, p.timestamp)])
      else
        s.(intervals := s.intervals + [IntervalOf(s.open.value, p)], open := None)
    case Unknown =>
      s.(issues := s.issues + [p.timestamp])
  }

  function Pair(ps: seq<Punch>): Pairing {
    if |ps| == 0 then Pairing([], [], [], None) else Step(Pair(ps[..|ps| - 1]), ps[|ps| - 1])
  }

  /** The source's loop, with its four pieces of running state. */
  method PairAttendance(punches: seq<Punch>) returns (r: Pairing)
    ensures r == Pair(punches)
  {
    var intervals: seq<Interval>, issues: seq<int>, marks: seq<Mark> := [], [], [];
    var open: Option<Punch> := None;
    for i := 0 to |punches|
      invariant Pair(punches[..i]) == Pairing(intervals, issues, marks, open)
    {
      assert punches[..i + 1][..i] == punches[..i];
      var p := punches[i];
      if p.dir == In {
        if open.Some? { marks := marks + [Mark(RepeatedIn, p.timestamp)]; } else { open := Some(p); }
      } else if p.dir == Out {
        if open.None? {
          var n := |intervals|;
          if n > 0 && p.timestamp > intervals[n - 1].end && Instant(p) > intervals[n - 1].occurredEnd {
            marks := marks + [Mark(ExtraOut, p.timestamp)];
            var last := intervals[n - 1];
            last := last.(end := p.timestamp);
            last := last.(occurredEnd := Instant(p));
            last := last.(toSiteId := p.siteId);
            last := last.(outEventId := p.eventId);
            last := last.(elapsed := Max(0, last.occurredEnd - last.occurredStart));
            intervals := intervals[n - 1 := last];
          } else {
            marks := marks + [Mark(UnmatchedOut, p.timestamp)];
          }
        } else if p.timestamp <= open.value.timestamp || Instant(p) <= Instant(open.value) {
          marks := marks + [Mark(UnmatchedOut, p.timestamp)];
        } else {
          intervals := intervals + [IntervalOf(open.value, p)];
          open := None;
        }
      } else {
        issues := issues + [p.timestamp];
      }
    }
    assert punches[..|punches|] == punches;
    r := Pairing(intervals, issues, marks, open);
  }

  // ---------------------------------------------------------------- every punch is accounted for

  function CountDir(ps: seq<Punch>, d: Direction): nat {
    if |ps| == 0 then 0 else CountDir(ps[..|ps| - 1], d) + (if ps[|ps| - 1].dir == d then 1 else 0)
  }

  function CountMarks(ms: seq<Mark>, c: MarkCode): nat {
    if |ms| == 0 then 0 else CountMarks(ms[..|ms| - 1], c) + (if ms[|ms| - 1].code == c then 1 else 0)
  }

  lemma {:induction false} CountMarksSnoc(ms: seq<Mark>, m: Mark)
    ensures forall c :: CountMarks(ms + [m], c) == CountMarks(ms, c) + (if m.code == c then 1 else 0)
  {
    assert (ms + [m])[..|ms|] == ms;
  }

  /** What is kept of arrivals and of departures. */
  function Arrivals(s: Pairing): int {
    |s.intervals| + CountMarks(s.marks, RepeatedIn) + (if s.open.Some? then 1 else 0)
  }

  function Departures(s: Pairing): int {
    |s.intervals| + CountMarks(s.marks, ExtraOut) + CountMarks(s.marks, UnmatchedOut)
  }

  lemma {:induction false} StepConserves(s: Pairing, p: Punch)
    ensures Arrivals(Step(s, p)) == Arrivals(s) + (if p.dir == In then 1 else 0)
    ensures Departures(Step(s, p)) == Departures(s) + (if p.dir == Out then 1 else 0)
    ensures |Step(s, p).issues| == |s.issues| + (if p.dir == Unknown then 1 else 0)
  {
    var ms := Step(s, p).marks;
    if |ms| > |s.marks| {
      CountMarksSnoc(s.marks, ms[|s.marks|]);
    }
  }

  /** Each punch is spent exactly once: on an interval, on a mark, on the open register or on an issue. */
  lemma {:induction false} PairingConservesPunches(ps: seq<Punch>)
    ensures var r := Pair(ps);
            && CountDir(ps, In) == |r.intervals| + CountMarks(r.marks, RepeatedIn) + (if r.open.Some? then 1 else 0)
            && CountDir(ps, Out) == |r.intervals| + CountMarks(r.marks, ExtraOut) + CountMarks(r.marks, UnmatchedOut)
            && CountDir(ps, Unknown) == |r.issues|
  {
    if |ps| > 0 {
      PairingConservesPunches(ps[..|ps| - 1]);
      StepConserves(Pair(ps[..|ps| - 1]), ps[|ps| - 1]);
    }
  }

  // ---------------------------------------------------------------- the intervals are time windows

  function Spans(intervals: seq<Interval>): seq<Window> {
    seq(|intervals|, i requires 0 <= i < |intervals| => Window(intervals[i].start, intervals[i].end))
  }

  /** Punches in civil-time order, ties allowed. */
  ghost predicate InOrder(ps: seq<Punch>) {
    forall i :: 0 <= i < |ps| - 1 ==> ps[i].timestamp <= ps[i + 1].timestamp
  }

  /** Punches whose instants are their civil times. */
  ghost predicate Civil(ps: seq<Punch>) {
    forall i :: 0 <= i < |ps| ==> Instant(ps[i]) == ps[i].timestamp
  }

  lemma {:induction false} SpansSnoc(xs: seq<Interval>, x: Interval)
    ensures Spans(xs + [x]) == Spans(xs) + [Window(x.start, x.end)]
    ensures Spans(xs + [x])[..|xs|] == Spans(xs)
  {
  }

  /** Where the running state can reach after punches up to the time `at`. */
  ghost predicate Reached(s: Pairing, at: int) {
    && (|s.intervals| > 0 ==> s.intervals[|s.intervals| - 1].end <= at)
    && (s.open.Some? ==> s.open.value.timestamp <= at)
    && (s.open.Some? && |s.intervals| > 0 ==> s.intervals[|s.intervals| - 1].end <= s.open.value.timestamp)
  }

  lemma {:induction false} StepKeepsOrder(s: Pairing, p: Punch)
    requires Ordered(Spans(s.intervals)) && Reached(s, p.timestamp)
    ensures Ordered(Spans(Step(s, p).intervals)) && Reached(Step(s, p), p.timestamp)
  {
    var n, t := |s.intervals|, Step(s, p);
    if |t.intervals| == n + 1 {
      SpansSnoc(s.intervals, IntervalOf(s.open.value, p));
    } else if t.intervals != s.intervals {
      assert Spans(t.intervals)[..n - 1] == Spans(s.intervals)[..n - 1];
    }
  }

  /** On time-sorted punches the intervals have positive length, are in order and do not overlap. */
  lemma {:induction false} IntervalsAreOrdered(ps: seq<Punch>)
    requires InOrder(ps)
    ensures Ordered(Spans(Pair(ps).intervals))
    ensures |ps| > 0 ==> Reached(Pair(ps), ps[|ps| - 1].timestamp)
  {
    if |ps| > 0 {
      var front := ps[..|ps| - 1];
      IntervalsAreOrdered(front);
      if |front| > 0 {
        assert ps[|front| - 1].timestamp <= ps[|front| - 1 + 1].timestamp;
      }
      StepKeepsOrder(Pair(front), ps[|ps| - 1]);
    }
  }

  /** When instants are civil times, an interval's elapsed time is the length of its window. */
  ghost predicate ElapsedIsLength(s: Pairing) {
    && (s.open.Some? ==> Instant(s.open.value) == s.open.value.timestamp)
    && forall i :: 0 <= i < |s.intervals| ==>
         && s.intervals[i].occurredStart == s.intervals[i].start
         && s.intervals[i].occurredEnd == s.intervals[i].end
         && s.intervals[i].elapsed == Max(0, s.intervals[i].end - s.intervals[i].start)
  }

  lemma {:induction false} CivilElapsed(ps: seq<Punch>)
    requires Civil(ps)
    ensures ElapsedIsLength(Pair(ps))
  {
    if |ps| > 0 {
      CivilElapsed(ps[..|ps| - 1]);
      assert Instant(ps[|ps| - 1]) == ps[|ps| - 1].timestamp;
    }
  }

  // ---------------------------------------------------------------- what presence means

  ghost predicate Rising(ps: seq<Punch>) {
    forall i, j :: 0 <= i < j < |ps| ==>
      ps[i].timestamp < ps[j].timestamp && Instant(ps[i]) < Instant(ps[j])
  }

  ghost predicate Directed(ps: seq<Punch>) {
    forall i :: 0 <= i < |ps| ==> ps[i].dir != Unknown
  }

  ghost predicate Arrived(ps: seq<Punch>, k: int) {
    exists i :: 0 <= i <= k && i < |ps| && ps[i].dir == In
  }

  ghost predicate Leaves(ps: seq<Punch>, k: int) {
    exists j :: 0 <= j && k < j < |ps| && ps[j].dir == Out
  }

  /**
   Between punches k and k + 1 the employee is on shift: somebody arrived before, somebody leaves
   later, and this is not the gap between a departure and the next arrival.
   */
  ghost predicate OnShift(ps: seq<Punch>, k: nat)
    requires k + 1 < |ps|
  {
    Arrived(ps, k) && Leaves(ps, k) && !(ps[k].dir == Out && ps[k + 1].dir == In)
  }

  /** The instants before punch n at which the employee is on shift. */
  ghost function Presence(ps: seq<Punch>, n: nat): set<int>
    requires n < |ps| || n == 0
  {
    if n == 0 then {}
    else Presence(ps, n - 1) + (if OnShift(ps, n - 1) then Range(ps[n - 1].timestamp, ps[n].timestamp) else {})
  }

  /** Where the trailing run of arrivals begins. */
  ghost function RunStart(ps: seq<Punch>): (m: nat)
    ensures m <= |ps|
    ensures forall i :: m <= i < |ps| ==> ps[i].dir == In
    ensures m > 0 ==> ps[m - 1].dir != In
  {
    if |ps| == 0 || ps[|ps| - 1].dir != In then |ps| else RunStart(ps[..|ps| - 1])
  }

  /** The running state after strictly rising, directed punches. */
  ghost predicate Tracks(ps: seq<Punch>, s: Pairing) {
    && s.open == (if RunStart(ps) == |ps| then None else Some(ps[RunStart(ps)]))
    && (RunStart(ps) == |ps| ==> (|s.intervals| > 0 <==> Arrived(ps, |ps| - 1)))
    && (RunStart(ps) == |ps| && |s.intervals| > 0 ==>
          var last := s.intervals[|s.intervals| - 1];
          |ps| > 0 && last.end == ps[|ps| - 1].timestamp && last.occurredEnd == Instant(ps[|ps| - 1]))
  }

  lemma {:induction false} PresenceBeforeRun(front: seq<Punch>, p: Punch, k: nat)
    requires Directed(front) && k <= RunStart(front) && (k < |front| || k == 0)
    ensures Presence(front + [p], k) == Presence(front, k)
  {
    if k > 0 {
      PresenceBeforeRun(front, p, k - 1);
      var m, ps := RunStart(front), front + [p];
      assert Arrived(ps, k - 1) <==> Arrived(front, k - 1) by {
        if i :| 0 <= i <= k - 1 && ps[i].dir == In { assert front[i].dir == In; }
        if i :| 0 <= i <= k - 1 && front[i].dir == In { assert ps[i].dir == In; }
      }
      if k < m {
        assert front[m - 1].dir == Out && ps[m - 1].dir == Out;
        assert Leaves(front, k - 1) && Leaves(ps, k - 1);
      } else {
        assert ps[k - 1].dir == Out && ps[k].dir == In;
      }
    }
  }

  lemma {:induction false} RangeJoin(a: int, b: int, c: int)
    requires a <= b <= c
    ensures Range(a, b) + Range(b, c) == Range(a, c)
  {
  }

  lemma {:induction false} PresenceInRun(front: seq<Punch>, k: nat)
    requires RunStart(front) <= k < |front|
    ensures Presence(front, k) == Presence(front, RunStart(front))
  {
    if k > RunStart(front) {
      PresenceInRun(front, k - 1);
      assert !Leaves(front, k - 1);
    }
  }

  lemma {:induction false} PresenceOfClosedRun(ps: seq<Punch>, m: nat, k: nat)
    requires m <= k < |ps| && ps[m].dir == In && ps[|ps| - 1].dir == Out
    requires forall i :: m <= i < |ps| - 1 ==> ps[i].dir == In
    requires Rising(ps)
    ensures Presence(ps, k) == Presence(ps, m) + Range(ps[m].timestamp, ps[k].timestamp)
  {
    if k > m {
      PresenceOfClosedRun(ps, m, k - 1);
      assert Arrived(ps, k - 1) && Leaves(ps, k - 1);
      RangeJoin(ps[m].timestamp, ps[k - 1].timestamp, ps[k].timestamp);
    }
  }

  lemma {:induction false} PresenceAfterArrival(front: seq<Punch>, p: Punch, k: nat)
    requires p.dir == In && (k < |front| || k == 0)
    ensures Presence(front + [p], k) == Presence(front, k)
  {
    if k > 0 {
      PresenceAfterArrival(front, p, k - 1);
      var ps := front + [p];
      assert Arrived(ps, k - 1) <==> Arrived(front, k - 1) by {
        if i :| 0 <= i <= k - 1 && ps[i].dir == In { assert front[i].dir == In; }
        if i :| 0 <= i <= k - 1 && front[i].dir == In { assert ps[i].dir == In; }
      }
      assert Leaves(ps, k - 1) <==> Leaves(front, k - 1) by {
        if j :| k - 1 < j < |ps| && ps[j].dir == Out { assert front[j].dir == Out; }
        if j :| k - 1 < j < |front| && front[j].dir == Out { assert ps[j].dir == Out; }
      }
    }
  }

  /** One more arrival. */
  lemma {:induction false} TrackArrival(front: seq<Punch>, p: Punch)
    requires p.dir == In && Tracks(front, Pair(front))
    ensures Tracks(front + [p], Step(Pair(front), p))
    ensures Step(Pair(front), p).intervals == Pair(front).intervals
  {
    assert (front + [p])[..|front|] == front;
  }

  /** A departure that closes the open run. */
  lemma {:induction false} TrackClose(front: seq<Punch>, p: Punch)
    requires p.dir == Out && Directed(front) && Rising(front + [p])
    requires Tracks(front, Pair(front)) && RunStart(front) < |front|
    ensures Tracks(front + [p], Step(Pair(front), p))
    ensures Step(Pair(front), p).intervals == Pair(front).intervals + [IntervalOf(front[RunStart(front)], p)]
  {
    var m, ps := RunStart(front), front + [p];
    assert ps[m] == front[m] && ps[|front|] == p;
    assert Arrived(ps, |ps| - 1) by { assert ps[m].dir == In; }
  }

  /** A departure with nothing open. */
  lemma {:induction false} TrackExtra(front: seq<Punch>, p: Punch)
    requires p.dir == Out && Directed(front) && Rising(front + [p])
    requires Tracks(front, Pair(front)) && RunStart(front) == |front|
    ensures Tracks(front + [p], Step(Pair(front), p))
    ensures |Pair(front).intervals| == 0 ==> Step(Pair(front), p).intervals == []
    ensures var intervals := Pair(front).intervals;
            var last := |intervals| - 1;
            last >= 0 ==> Step(Pair(front), p).intervals == intervals[last := Extend(intervals[last], p)]
  {
    var n, ps := |front|, front + [p];
    if n > 0 {
      assert ps[n - 1] == front[n - 1] && ps[n] == p;
    }
    if i :| 0 <= i <= n - 1 && front[i].dir == In { assert ps[i].dir == In; }
    if i :| 0 <= i <= n && ps[i].dir == In { assert front[i].dir == In; }
  }

  ghost function LastIndex(ps: seq<Punch>): nat {
    if |ps| == 0 then 0 else |ps| - 1
  }

  lemma {:induction false} InstantsOfExtended(xs: seq<Interval>, p: Punch)
    requires |xs| > 0 && Ordered(Spans(xs)) && xs[|xs| - 1].end <= p.timestamp
    ensures Instants(Spans(xs[|xs| - 1 := Extend(xs[|xs| - 1], p)]))
              == Instants(Spans(xs)) + Range(xs[|xs| - 1].end, p.timestamp)
  {
    var n, last := |xs| - 1, xs[|xs| - 1];
    var ys := xs[n := Extend(last, p)];
    assert Spans(ys)[..n] == Spans(xs)[..n];
    assert Spans(xs)[n] == Window(last.start, last.end) && Spans(ys)[n] == Window(last.start, p.timestamp);
    RangeJoin(last.start, last.end, p.timestamp);
  }

  /**
   The worked intervals cover exactly the instants at which the employee is on shift: from the first
   arrival of a run to the last departure before the next arrival, whatever was repeated in between.
   */
  lemma {:induction false} IntervalsAreThePresence(ps: seq<Punch>)
    requires Rising(ps) && Directed(ps)
    ensures Tracks(ps, Pair(ps))
    ensures Instants(Spans(Pair(ps).intervals)) == Presence(ps, LastIndex(ps))
  {
    if |ps| > 0 {
      var front, p := ps[..|ps| - 1], ps[|ps| - 1];
      IntervalsAreThePresence(front);
      assert front + [p] == ps;
      PresenceStep(front, p);
    }
  }

  lemma {:induction false} PresenceStep(front: seq<Punch>, p: Punch)
    requires Rising(front + [p]) && Directed(front) && p.dir != Unknown && Tracks(front, Pair(front))
    requires Instants(Spans(Pair(front).intervals)) == Presence(front, LastIndex(front))
    ensures Tracks(front + [p], Step(Pair(front), p))
    ensures Instants(Spans(Step(Pair(front), p).intervals)) == Presence(front + [p], |front|)
  {
    if p.dir == In {
      PresenceArrived(front, p);
    } else if RunStart(front) < |front| {
      PresenceClosed(front, p);
    } else {
      PresenceExtended(front, p);
    }
  }

  lemma {:induction false} PresenceArrived(front: seq<Punch>, p: Punch)
    requires p.dir == In && Tracks(front, Pair(front))
    requires Instants(Spans(Pair(front).intervals)) == Presence(front, LastIndex(front))
    ensures Tracks(front + [p], Step(Pair(front), p))
    ensures Instants(Spans(Step(Pair(front), p).intervals)) == Presence(front + [p], |front|)
  {
    TrackArrival(front, p);
    if |front| > 0 {
      PresenceAfterArrival(front, p, |front| - 1);
      assert !Leaves(front + [p], |front| - 1);
    }
  }

  lemma {:induction false} PresenceClosed(front: seq<Punch>, p: Punch)
    requires p.dir == Out && Directed(front) && Rising(front + [p])
    requires Tracks(front, Pair(front)) && RunStart(front) < |front|
    requires Instants(Spans(Pair(front).intervals)) == Presence(front, LastIndex(front))
    ensures Tracks(front + [p], Step(Pair(front), p))
    ensures Instants(Spans(Step(Pair(front), p).intervals)) == Presence(front + [p], |front|)
  {
    var m := RunStart(front);
    TrackClose(front, p);
    SpansSnoc(Pair(front).intervals, IntervalOf(front[m], p));
    PresenceOfClosing(front, p);
  }

  lemma {:induction false} PresenceOfClosing(front: seq<Punch>, p: Punch)
    requires p.dir == Out && Directed(front) && Rising(front + [p]) && RunStart(front) < |front|
    ensures Presence(front + [p], |front|)
            == Presence(front, |front| - 1) + Range(front[RunStart(front)].timestamp, p.timestamp)
  {
    var m, ps := RunStart(front), front + [p];
    PresenceInRun(front, |front| - 1);
    PresenceBeforeRun(front, p, m);
    assert ps[m] == front[m] && ps[|front|] == p;
    PresenceOfClosedRun(ps, m, |front|);
  }

  /** After a further departure the time since the last punch counts if anybody has arrived. */
  lemma {:induction false} PresenceOfDeparture(front: seq<Punch>, p: Punch)
    requires p.dir == Out && Directed(front) && |front| > 0 && RunStart(front) == |front|
    ensures Presence(front + [p], |front|)
            == Presence(front, |front| - 1)
               + (if Arrived(front, |front| - 1) then Range(front[|front| - 1].timestamp, p.timestamp) else {})
  {
    var n, ps := |front|, front + [p];
    PresenceBeforeRun(front, p, n - 1);
    assert ps[n].dir == Out && ps[n - 1] == front[n - 1];
    assert Leaves(ps, n - 1);
    assert Arrived(ps, n - 1) <==> Arrived(front, n - 1) by {
      if i :| 0 <= i <= n - 1 && ps[i].dir == In { assert front[i].dir == In; }
      if i :| 0 <= i <= n - 1 && front[i].dir == In { assert ps[i].dir == In; }
    }
  }

  lemma {:induction false} PresenceExtended(front: seq<Punch>, p: Punch)
    requires p.dir == Out && Directed(front) && Rising(front + [p])
    requires Tracks(front, Pair(front)) && RunStart(front) == |front|
    requires Instants(Spans(Pair(front).intervals)) == Presence(front, LastIndex(front))
    ensures Tracks(front + [p], Step(Pair(front), p))
    ensures Instants(Spans(Step(Pair(front), p).intervals)) == Presence(front + [p], |front|)
  {
    TrackExtra(front, p);
    var xs := Pair(front).intervals;
    if |front| > 0 {
      PresenceOfDeparture(front, p);
      if |xs| > 0 {
        IntervalsReach(front, p);
        InstantsOfExtended(xs, p);
      }
    }
  }

  lemma {:induction false} IntervalsReach(front: seq<Punch>, p: Punch)
    requires |front| > 0 && Rising(front + [p])
    ensures Ordered(Spans(Pair(front).intervals)) && front[|front| - 1].timestamp < p.timestamp
  {
    var n, ps := |front|, front + [p];
    assert ps[n - 1].timestamp < ps[n].timestamp;
    assert Rising(front) by {
      forall i, j | 0 <= i < j < n
        ensures front[i].timestamp < front[j].timestamp && Instant(front[i]) < Instant(front[j])
      {
        assert ps[i] == front[i] && ps[j] == front[j];
      }
    }
    RisingIsInOrder(front);
    IntervalsAreOrdered(front);
  }

  lemma {:induction false} RisingIsInOrder(ps: seq<Punch>)
    requires Rising(ps)
    ensures InOrder(ps)
  {
  }
}
