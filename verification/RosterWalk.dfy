/**
 Grouping a punch stream into shifts by walking it against the roster
 (src/lib/attendanceReplay.js, 72-319).
 */
module RosterWalk {
  import opened Options
  import opened Arithmetic
  import opened Checkout
  import opened Sorting
  import opened RosterShifts

  /** One device record; status 1 and 5 are check-outs. */
  datatype Punch = Punch(at: int, sn: int, status: int, directionVerified: bool, trustDirection: Option<bool>)

  /** Durations are milliseconds: check-in tolerance, duplicate window and close window. */
  datatype Settings = Settings(tolerance: int, dedupe: int, close: int, legacyInference: bool)

  /** A session is keyed by its work day, alone, marked out of window, or with the start of a split shift. */
  datatype GroupKey = Day(day: int) | Unassigned(day: int) | Anchored(day: int, start: int)

  /** The shift in progress. */
  datatype Open = Open(day: int, start: int, end: int, deadline: int, closeBound: int)

  datatype Memo = Memo(deadlines: map<int, int>, closeBounds: map<int, int>)

  datatype Walk = Walk(open: Option<Open>, groups: map<GroupKey, seq<Punch>>, memo: Memo)

  function At(p: Punch): int { p.at }

  function Abs(x: int): int { if x < 0 then -x else x }

  predicate IsOut(p: Punch) { p.status == 1 || p.status == 5 }

  /** A check-out the employee chose, or whose device direction the policy trusts. */
  predicate ExplicitOut(cfg: Settings, p: Punch) {
    IsOut(p) && (p.directionVerified || p.trustDirection.GetOr(!cfg.legacyInference))
  }

  predicate HasRoster(roster: Roster) {
    roster.Dated? || (roster.pattern.shift.from.Some? && roster.pattern.shift.to.Some?)
    || |roster.pattern.rotating| > 0 || |roster.pattern.shifts| > 0
  }

  // ---------------------------------------------------------------- one press, one record

  predicate Duplicate(cfg: Settings, prev: Punch, p: Punch) {
    p.at - prev.at <= cfg.dedupe && prev.sn == p.sn
    && (prev.status == p.status || (cfg.legacyInference && !p.directionVerified && !prev.directionVerified))
  }

  function Dedupe(cfg: Settings, ps: seq<Punch>): seq<Punch> {
    if |ps| == 0 then []
    else
      var kept, p := Dedupe(cfg, ps[..|ps| - 1]), ps[|ps| - 1];
      if |kept| > 0 && Duplicate(cfg, kept[|kept| - 1], p) then kept else kept + [p]
  }

  method DedupePunches(cfg: Settings, ordered: seq<Punch>) returns (kept: seq<Punch>)
    ensures kept == Dedupe(cfg, ordered)
  {
    kept := [];
    for i := 0 to |ordered|
      invariant kept == Dedupe(cfg, ordered[..i])
    {
      assert ordered[..i + 1][..i] == ordered[..i];
      if |kept| > 0 && Duplicate(cfg, kept[|kept| - 1], ordered[i]) {
        continue;
      }
      kept := kept + [ordered[i]];
    }
    assert ordered[..|ordered|] == ordered;
  }

  ghost predicate NoNeighbourRepeats(cfg: Settings, ps: seq<Punch>) {
    forall i :: 0 < i < |ps| ==> !Duplicate(cfg, ps[i - 1], ps[i])
  }

  lemma {:induction false} DedupeLeavesNoRepeats(cfg: Settings, ps: seq<Punch>)
    ensures NoNeighbourRepeats(cfg, Dedupe(cfg, ps))
  {
    if |ps| > 0 {
      DedupeLeavesNoRepeats(cfg, ps[..|ps| - 1]);
    }
  }

  lemma {:induction false} NothingToDedupe(cfg: Settings, ps: seq<Punch>)
    requires NoNeighbourRepeats(cfg, ps)
    ensures Dedupe(cfg, ps) == ps
  {
    if |ps| > 0 {
      NothingToDedupe(cfg, ps[..|ps| - 1]);
      assert ps == ps[..|ps| - 1] + [ps[|ps| - 1]];
    }
  }

  /** Removing repeated scans twice is removing them once. */
  lemma {:induction false} DedupeIsIdempotent(cfg: Settings, ps: seq<Punch>)
    ensures Dedupe(cfg, Dedupe(cfg, ps)) == Dedupe(cfg, ps)
  {
    DedupeLeavesNoRepeats(cfg, ps);
    NothingToDedupe(cfg, Dedupe(cfg, ps));
  }

  lemma {:induction false} DedupeKeepsOrder(cfg: Settings, ps: seq<Punch>)
    requires SortedBy(ps, At)
    ensures SortedBy(Dedupe(cfg, ps), At)
    ensures forall p :: p in Dedupe(cfg, ps) ==> p in ps
  {
    if |ps| > 0 {
      var front, p := ps[..|ps| - 1], ps[|ps| - 1];
      DedupeKeepsOrder(cfg, front);
      assert ps == front + [p];
      var kept := Dedupe(cfg, front);
      forall i | 0 <= i < |kept| ensures At(kept[i]) <= At(p) {
        assert kept[i] in front;
      }
    }
  }

  // ---------------------------------------------------------------- the roster around a punch

  function Tagged(day: int, ws: seq<Window>): (r: seq<(int, Window)>)
    ensures forall x :: x in r ==> x.0 == day && x.1 in ws
  {
    seq(|ws|, i requires 0 <= i < |ws| => (day, ws[i]))
  }

  function CandidatesOf(roster: Roster): int -> seq<Window> { day => Candidates(roster, day) }

  /** The windows of the day before, the day itself and the day after, in that order. */
  function ThreeDays(list: int -> seq<Window>, d: int): (r: seq<(int, Window)>)
    ensures forall x :: x in r ==> x.1 in list(x.0)
  {
    Tagged(d - 1, list(d - 1)) + Tagged(d, list(d)) + Tagged(d + 1, list(d + 1))
  }

  function Around(roster: Roster, t: int): (r: seq<(int, Window)>)
    ensures forall x :: x in r ==> x.1 in Candidates(roster, x.0)
  {
    ThreeDays(CandidatesOf(roster), DayOf(t))
  }

  /** Past the rostered end a punch is still nearer that end than to any start around it. */
  predicate NearerThanAnyStart(roster: Roster, t: int, end: int) {
    forall x :: x in Around(roster, t) ==> t - end < Abs(t - x.1.start)
  }

  function LatestEndBefore(ws: seq<Window>, bound: int): Option<int> {
    if |ws| == 0 then None
    else
      var best, w := LatestEndBefore(ws[..|ws| - 1], bound), ws[|ws| - 1];
      if w.end.Some? && w.end.value < bound && (best.None? || w.end.value > best.value) then w.end else best
  }

  /** An arrival nearer the coming start than the end of the last rostered window before it. */
  predicate NearerStartThanPreviousEnd(roster: Roster, start: int, t: int) {
    var prev := LatestEndBefore(DaysUpTo(CandidatesOf(roster), DayOf(start)), start);
    prev.Some? && t > prev.value && start - t < t - prev.value
  }

  /** The windows of the two days before and of the day. */
  function DaysUpTo(list: int -> seq<Window>, d: int): seq<Window> { list(d - 2) + list(d - 1) + list(d) }

  /** A chosen check-out within three hours before a rostered start. */
  predicate ArrivalSoon(roster: Roster, cfg: Settings, p: Punch) {
    ExplicitOut(cfg, p) && StartsWithin(CandidatesOf(roster), DayOf(p.at), p.at)
  }

  predicate StartsWithin(list: int -> seq<Window>, d: int, t: int) {
    exists w :: w in list(d) + list(d + 1) && w.start > t && w.start - t <= 180 * MINUTE
  }

  predicate HasOut(groups: map<GroupKey, seq<Punch>>, day: int) {
    Day(day) in groups && exists q :: q in groups[Day(day)] && IsOut(q)
  }

  // ---------------------------------------------------------------- memoised bounds

  ghost predicate IsDeadline(roster: Roster, cfg: Settings, start: int, d: int) {
    exists w :: w in Candidates(roster, DayOf(start)) && w.start == start && Full(w)
                && Deadline(roster, w, cfg.close) == d
  }

  ghost predicate IsCloseBound(roster: Roster, start: int, b: int) {
    exists w :: w in Candidates(roster, DayOf(start)) && w.start == start && Full(w) && CloseBound(roster, w) == b
  }

  /** Bounds are memoised by window start, so an entry is the bound of a window with that start. */
  ghost predicate MemoHolds(roster: Roster, cfg: Settings, m: Memo) {
    && (forall s :: s in m.deadlines ==> IsDeadline(roster, cfg, s, m.deadlines[s]))
    && (forall s :: s in m.closeBounds ==> IsCloseBound(roster, s, m.closeBounds[s]))
  }

  ghost predicate Extends(m: Memo, n: Memo) {
    && (forall s :: s in m.deadlines ==> s in n.deadlines && n.deadlines[s] == m.deadlines[s])
    && (forall s :: s in m.closeBounds ==> s in n.closeBounds && n.closeBounds[s] == m.closeBounds[s])
  }

  method DeadlineFor(roster: Roster, cfg: Settings, m: Memo, w: Window, ghost day: int) returns (n: Memo, d: int)
    requires MemoHolds(roster, cfg, m) && w in Candidates(roster, day) && Full(w)
    ensures MemoHolds(roster, cfg, n) && Extends(m, n)
    ensures w.start in n.deadlines && n.deadlines[w.start] == d && IsDeadline(roster, cfg, w.start, d)
  {
    CandidateStartsOnDay(roster, day, w);
    n := m;
    if w.start !in m.deadlines {
      n := m.(deadlines := m.deadlines[w.start := Deadline(roster, w, cfg.close)]);
    }
    d := n.deadlines[w.start];
  }

  method CloseBoundFor(roster: Roster, cfg: Settings, m: Memo, w: Window, ghost day: int) returns (n: Memo, b: int)
    requires MemoHolds(roster, cfg, m) && w in Candidates(roster, day) && Full(w)
    ensures MemoHolds(roster, cfg, n) && Extends(m, n)
    ensures w.start in n.closeBounds && n.closeBounds[w.start] == b && IsCloseBound(roster, w.start, b)
  {
    CandidateStartsOnDay(roster, day, w);
    n := m;
    if w.start !in m.closeBounds {
      n := m.(closeBounds := m.closeBounds[w.start := CloseBound(roster, w)]);
    }
    b := n.closeBounds[w.start];
  }

  // ---------------------------------------------------------------- choosing the window a punch opens

  datatype Best = Best(distance: int, open: Open)

  /**
   The punch is still in time for a window of the day: by its deadline, or by its close bound if it is a chosen
   check-out.
   */
  ghost predicate InTime(roster: Roster, cfg: Settings, day: int, p: Punch) {
    exists w :: w in Candidates(roster, day) && Full(w) &&
      (p.at <= Deadline(roster, w, cfg.close) || (ExplicitOut(cfg, p) && p.at <= CloseBound(roster, w)))
  }

  ghost predicate OpenHolds(roster: Roster, cfg: Settings, o: Open) {
    && IsDeadline(roster, cfg, o.start, o.deadline)
    && IsCloseBound(roster, o.start, o.closeBound)
    && o.day == DayOf(o.start)
    && (exists w :: w in Candidates(roster, o.day) && w.start == o.start && w.end == Some(o.end))
  }

  /** What makes a window eligible for a punch, given the memoised bounds. */
  predicate Eligible(roster: Roster, cfg: Settings, groups: map<GroupKey, seq<Punch>>, m: Memo, p: Punch,
                     x: (int, Window)) {
    && Full(x.1)
    && !(ArrivalSoon(roster, cfg, p) && x.1.start < p.at && HasOut(groups, x.0))
    && (p.at >= x.1.start - cfg.tolerance || (!IsOut(p) && NearerStartThanPreviousEnd(roster, x.1.start, p.at)))
    && x.1.start in m.deadlines
    && (p.at <= m.deadlines[x.1.start]
        || (ExplicitOut(cfg, p) && x.1.start in m.closeBounds && p.at <= m.closeBounds[x.1.start]))
  }

  /** An arrival is timed against the start it opens, a chosen check-out against the end it closes. */
  function Distance(cfg: Settings, p: Punch, w: Window): int
    requires Full(w)
  {
    Abs(p.at - (if ExplicitOut(cfg, p) then w.end.value else w.start))
  }

  /** The bounds a window is judged by are already memoised. */
  ghost predicate Settled(roster: Roster, cfg: Settings, groups: map<GroupKey, seq<Punch>>, m: Memo, p: Punch,
                          x: (int, Window)) {
    || (ArrivalSoon(roster, cfg, p) && x.1.start < p.at && HasOut(groups, x.0))
    || (x.1.start in m.deadlines && (ExplicitOut(cfg, p) ==> x.1.start in m.closeBounds))
  }

  lemma {:induction false} SettledStays(roster: Roster, cfg: Settings, groups: map<GroupKey, seq<Punch>>, m: Memo,
                                        n: Memo, p: Punch, x: (int, Window))
    requires Settled(roster, cfg, groups, m, p, x) && Extends(m, n)
    ensures Settled(roster, cfg, groups, n, p, x)
    ensures Eligible(roster, cfg, groups, m, p, x) <==> Eligible(roster, cfg, groups, n, p, x)
  {
  }

  /** The register that a window opens: its times and its memoised bounds. */
  predicate Opened(m: Memo, x: (int, Window), o: Open) {
    && Full(x.1) && x.1.start in m.deadlines && x.1.start in m.closeBounds
    && o == Open(x.0, x.1.start, x.1.end.value, m.deadlines[x.1.start], m.closeBounds[x.1.start])
  }

  predicate Improves(best: Option<Best>, distance: int) {
    best.None? || distance < best.value.distance
  }

  /** A window's deadline, and how late the punch may be for it. */
  method BoundsFor(roster: Roster, cfg: Settings, m: Memo, w: Window, ghost day: int, p: Punch)
    returns (n: Memo, deadline: int, bound: int)
    requires MemoHolds(roster, cfg, m) && w in Candidates(roster, day) && Full(w)
    ensures MemoHolds(roster, cfg, n) && Extends(m, n)
    ensures w.start in n.deadlines && deadline == n.deadlines[w.start]
            && (ExplicitOut(cfg, p) ==> w.start in n.closeBounds)
    ensures p.at <= bound <==>
            p.at <= deadline || (ExplicitOut(cfg, p) && w.start in n.closeBounds && p.at <= n.closeBounds[w.start])
  {
    n, deadline := DeadlineFor(roster, cfg, m, w, day);
    bound := deadline;
    if ExplicitOut(cfg, p) {
      var b: int;
      n, b := CloseBoundFor(roster, cfg, n, w, day);
      bound := Max(deadline, b);
    }
  }

  /** One turn of the search: a nearer eligible window replaces the best one so far. */
  method ExamineWindow(roster: Roster, cfg: Settings, groups: map<GroupKey, seq<Punch>>, m: Memo, p: Punch,
                       soon: bool, x: (int, Window), best: Option<Best>)
    returns (n: Memo, next: Option<Best>)
    requires MemoHolds(roster, cfg, m) && x.1 in Candidates(roster, x.0) && Full(x.1)
    requires soon == ArrivalSoon(roster, cfg, p)
    ensures MemoHolds(roster, cfg, n) && Extends(m, n) && Settled(roster, cfg, groups, n, p, x)
    ensures if Eligible(roster, cfg, groups, n, p, x) && Improves(best, Distance(cfg, p, x.1))
            then next.Some? && next.value.distance == Distance(cfg, p, x.1) && Opened(n, x, next.value.open)
            else next == best
  {
    var day, w := x.0, x.1;
    n, next := m, best;
    if soon && w.start < p.at && HasOut(groups, day) {
      return;
    }
    var deadline, bound: int;
    n, deadline, bound := BoundsFor(roster, cfg, m, w, day, p);
    if p.at < w.start - cfg.tolerance && (IsOut(p) || !NearerStartThanPreviousEnd(roster, w.start, p.at)) {
      return;
    }
    if p.at > bound {
      return;
    }
    var distance := Distance(cfg, p, w);
    if Improves(best, distance) {
      var closeBound: int;
      n, closeBound := CloseBoundFor(roster, cfg, n, w, day);
      next := Some(Best(distance, Open(day, w.start, w.end.value, deadline, closeBound)));
    }
  }

  /** The best window so far: the first of the nearest eligible ones. */
  ghost predicate Nearest(roster: Roster, cfg: Settings, groups: map<GroupKey, seq<Punch>>, m: Memo, p: Punch,
                          xs: seq<(int, Window)>, best: Option<Best>) {
    if best.None? then forall x :: x in xs ==> !Eligible(roster, cfg, groups, m, p, x)
    else exists i: nat :: i < |xs| && IsBest(roster, cfg, groups, m, p, xs, i, best.value)
  }

  ghost predicate IsBest(roster: Roster, cfg: Settings, groups: map<GroupKey, seq<Punch>>, m: Memo, p: Punch,
                         xs: seq<(int, Window)>, i: nat, best: Best)
    requires i < |xs|
  {
    && Eligible(roster, cfg, groups, m, p, xs[i]) && best.distance == Distance(cfg, p, xs[i].1)
    && Opened(m, xs[i], best.open)
    && (forall j :: 0 <= j < |xs| && Eligible(roster, cfg, groups, m, p, xs[j]) ==>
          NotNearer(cfg, p, xs[j].1, best.distance, j < i))
  }

  /** The window is no nearer than that, and farther if it comes earlier. */
  ghost predicate NotNearer(cfg: Settings, p: Punch, w: Window, distance: int, earlier: bool)
    requires Full(w)
  {
    distance <= Distance(cfg, p, w) && (earlier ==> distance < Distance(cfg, p, w))
  }

  ghost predicate AllSettled(roster: Roster, cfg: Settings, groups: map<GroupKey, seq<Punch>>, m: Memo, p: Punch,
                             xs: seq<(int, Window)>) {
    forall x :: x in xs && Full(x.1) ==> Settled(roster, cfg, groups, m, p, x)
  }

  lemma {:induction false} NearestExtends(roster: Roster, cfg: Settings, groups: map<GroupKey, seq<Punch>>, m: Memo,
                                          n: Memo, p: Punch, xs: seq<(int, Window)>, best: Option<Best>)
    requires AllSettled(roster, cfg, groups, m, p, xs) && Extends(m, n) && Nearest(roster, cfg, groups, m, p, xs, best)
    ensures AllSettled(roster, cfg, groups, n, p, xs) && Nearest(roster, cfg, groups, n, p, xs, best)
  {
    forall x | x in xs && Full(x.1)
      ensures Settled(roster, cfg, groups, n, p, x)
      ensures Eligible(roster, cfg, groups, m, p, x) <==> Eligible(roster, cfg, groups, n, p, x)
    {
      SettledStays(roster, cfg, groups, m, n, p, x);
    }
    if best.Some? {
      var i: nat :| i < |xs| && IsBest(roster, cfg, groups, m, p, xs, i, best.value);
      assert xs[i] in xs;
      forall j | 0 <= j < |xs| && Eligible(roster, cfg, groups, n, p, xs[j])
        ensures NotNearer(cfg, p, xs[j].1, best.value.distance, j < i)
      {
        assert xs[j] in xs && Full(xs[j].1);
      }
      assert IsBest(roster, cfg, groups, n, p, xs, i, best.value);
    }
  }

  lemma {:induction false} NearestSkips(roster: Roster, cfg: Settings, groups: map<GroupKey, seq<Punch>>, m: Memo,
                                        p: Punch, xs: seq<(int, Window)>, x: (int, Window), best: Option<Best>)
    requires Nearest(roster, cfg, groups, m, p, xs, best)
    requires Eligible(roster, cfg, groups, m, p, x) ==> !Improves(best, Distance(cfg, p, x.1))
    ensures Nearest(roster, cfg, groups, m, p, xs + [x], best)
  {
    if best.Some? {
      var all := xs + [x];
      var i: nat :| i < |xs| && IsBest(roster, cfg, groups, m, p, xs, i, best.value);
      forall j | 0 <= j < |all| && Eligible(roster, cfg, groups, m, p, all[j])
        ensures NotNearer(cfg, p, all[j].1, best.value.distance, j < i)
      {
        assert j < |xs| ==> all[j] == xs[j];
      }
      assert IsBest(roster, cfg, groups, m, p, all, i, best.value);
    }
  }

  lemma {:induction false} NearestImproves(roster: Roster, cfg: Settings, groups: map<GroupKey, seq<Punch>>, m: Memo,
                                           p: Punch, xs: seq<(int, Window)>, x: (int, Window), best: Option<Best>,
                                           next: Best)
    requires Nearest(roster, cfg, groups, m, p, xs, best)
    requires Eligible(roster, cfg, groups, m, p, x) && next.distance == Distance(cfg, p, x.1) && Opened(m, x, next.open)
    requires Improves(best, Distance(cfg, p, x.1))
    ensures Nearest(roster, cfg, groups, m, p, xs + [x], Some(next))
  {
    var all := xs + [x];
    forall j | 0 <= j < |all| && Eligible(roster, cfg, groups, m, p, all[j])
      ensures NotNearer(cfg, p, all[j].1, next.distance, j < |xs|)
    {
      if j < |xs| {
        assert all[j] == xs[j] && xs[j] in xs;
        FartherThanBest(roster, cfg, groups, m, p, xs, best, j, next.distance);
      }
    }
    assert all[|xs|] == x && IsBest(roster, cfg, groups, m, p, all, |xs|, next);
  }

  lemma {:induction false} FartherThanBest(roster: Roster, cfg: Settings, groups: map<GroupKey, seq<Punch>>, m: Memo,
                                           p: Punch, xs: seq<(int, Window)>, best: Option<Best>, j: nat, distance: int)
    requires Nearest(roster, cfg, groups, m, p, xs, best) && Improves(best, distance)
    requires j < |xs| && Eligible(roster, cfg, groups, m, p, xs[j])
    ensures distance < Distance(cfg, p, xs[j].1)
  {
    assert xs[j] in xs;
    if best.Some? {
      var i: nat :| i < |xs| && IsBest(roster, cfg, groups, m, p, xs, i, best.value);
      assert NotNearer(cfg, p, xs[j].1, best.value.distance, j < i);
    }
  }

  /** What the search keeps: the memo is sound and the best window is the nearest of those done. */
  ghost predicate Searched(roster: Roster, cfg: Settings, groups: map<GroupKey, seq<Punch>>, n: Memo, p: Punch,
                           done: seq<(int, Window)>, best: Option<Best>) {
    && MemoHolds(roster, cfg, n)
    && AllSettled(roster, cfg, groups, n, p, done)
    && Nearest(roster, cfg, groups, n, p, done, best)
  }

  method SearchStep(roster: Roster, cfg: Settings, groups: map<GroupKey, seq<Punch>>, m: Memo, p: Punch, soon: bool,
                    x: (int, Window), best: Option<Best>, ghost done: seq<(int, Window)>)
    returns (n: Memo, next: Option<Best>)
    requires Searched(roster, cfg, groups, m, p, done, best)
    requires x.1 in Candidates(roster, x.0) && soon == ArrivalSoon(roster, cfg, p)
    ensures Searched(roster, cfg, groups, n, p, done + [x], next) && Extends(m, n)
  {
    if !Full(x.1) {
      NearestSkips(roster, cfg, groups, m, p, done, x, best);
      return m, best;
    }
    n, next := ExamineWindow(roster, cfg, groups, m, p, soon, x, best);
    NearestExtends(roster, cfg, groups, m, n, p, done, best);
    if Eligible(roster, cfg, groups, n, p, x) && Improves(best, Distance(cfg, p, x.1)) {
      NearestImproves(roster, cfg, groups, n, p, done, x, best, next.value);
    } else {
      NearestSkips(roster, cfg, groups, n, p, done, x, best);
    }
  }

  method SearchAll(roster: Roster, cfg: Settings, groups: map<GroupKey, seq<Punch>>, m: Memo, p: Punch,
                   xs: seq<(int, Window)>)
    returns (n: Memo, best: Option<Best>)
    requires MemoHolds(roster, cfg, m) && forall x :: x in xs ==> x.1 in Candidates(roster, x.0)
    ensures Searched(roster, cfg, groups, n, p, xs, best)
  {
    var soon := ArrivalSoon(roster, cfg, p);
    n, best := m, None;
    NothingSearched(roster, cfg, groups, m, p, xs);
    for i := 0 to |xs|
      invariant Searched(roster, cfg, groups, n, p, xs[..i], best)
    {
      n, best := SearchNext(roster, cfg, groups, n, p, soon, xs, i, best);
    }
    AllSearched(roster, cfg, groups, n, p, xs, best);
  }

  lemma {:induction false} NothingSearched(roster: Roster, cfg: Settings, groups: map<GroupKey, seq<Punch>>, m: Memo,
                                           p: Punch, xs: seq<(int, Window)>)
    requires MemoHolds(roster, cfg, m)
    ensures Searched(roster, cfg, groups, m, p, xs[..0], None)
  {
  }

  lemma {:induction false} AllSearched(roster: Roster, cfg: Settings, groups: map<GroupKey, seq<Punch>>, m: Memo,
                                       p: Punch, xs: seq<(int, Window)>, best: Option<Best>)
    requires Searched(roster, cfg, groups, m, p, xs[..|xs|], best)
    ensures Searched(roster, cfg, groups, m, p, xs, best)
  {
    assert xs[..|xs|] == xs;
  }

  method SearchNext(roster: Roster, cfg: Settings, groups: map<GroupKey, seq<Punch>>, m: Memo, p: Punch, soon: bool,
                    xs: seq<(int, Window)>, i: nat, best: Option<Best>)
    returns (n: Memo, next: Option<Best>)
    requires i < |xs| && Searched(roster, cfg, groups, m, p, xs[..i], best)
    requires xs[i].1 in Candidates(roster, xs[i].0) && soon == ArrivalSoon(roster, cfg, p)
    ensures Searched(roster, cfg, groups, n, p, xs[..i + 1], next)
  {
    n, next := SearchStep(roster, cfg, groups, m, p, soon, xs[i], best, xs[..i]);
    NextPrefix(xs, i);
  }

  lemma {:induction false} NextPrefix<T>(xs: seq<T>, i: nat)
    requires i < |xs|
    ensures xs[..i] + [xs[i]] == xs[..i + 1]
  {
  }

  /** The window whose start (or, for a chosen check-out, end) is nearest among the eligible ones. */
  method ChooseWindow(roster: Roster, cfg: Settings, groups: map<GroupKey, seq<Punch>>, m: Memo, p: Punch)
    returns (n: Memo, best: Option<Best>)
    requires MemoHolds(roster, cfg, m)
    ensures Searched(roster, cfg, groups, n, p, Around(roster, p.at), best)
  {
    n, best := SearchAll(roster, cfg, groups, m, p, Around(roster, p.at));
  }

  // ---------------------------------------------------------------- assigning one punch

  /** The shift in progress accounts for the punch. */
  predicate Claims(roster: Roster, cfg: Settings, o: Open, p: Punch) {
    var t := p.at;
    var late := t > o.end + cfg.tolerance && t <= o.end + cfg.close && NearerThanAnyStart(roster, t, o.end);
    var closesByDevice := IsOut(p) && t > o.end
                          && ((t <= o.deadline && t <= o.end + cfg.close)
                             || (ExplicitOut(cfg, p) && t <= o.closeBound));
    (t <= o.deadline && ((t >= o.start - cfg.tolerance && t <= o.end + cfg.tolerance) || late)) || closesByDevice
  }

  ghost predicate RosteredDay(roster: Roster, day: int) {
    exists w :: w in Candidates(roster, day) && Full(w)
  }

  /** A punch filed under a rostered day, and not set aside, is in time for a window of that day. */
  ghost predicate WithinCutoff(roster: Roster, cfg: Settings, p: Punch, key: GroupKey) {
    match key
    case Day(d) => RosteredDay(roster, d) ==> InTime(roster, cfg, d, p)
    case Unassigned(d) => d == DayOf(p.at)
    case Anchored(d, s) => InTime(roster, cfg, d, p) && StartsWindow(roster, d, s)
  }

  ghost predicate StartsWindow(roster: Roster, day: int, start: int) {
    exists w :: w in Candidates(roster, day) && w.start == start
  }

  ghost predicate OpenOption(roster: Roster, cfg: Settings, open: Option<Open>) {
    open.Some? ==> OpenHolds(roster, cfg, open.value)
  }

  lemma {:induction false} ClaimedInTime(roster: Roster, cfg: Settings, o: Open, p: Punch)
    requires OpenHolds(roster, cfg, o) && Claims(roster, cfg, o, p)
    ensures InTime(roster, cfg, o.day, p)
  {
    BoundedInTime(roster, cfg, o.start, p, o.deadline, o.closeBound);
  }

  lemma {:induction false} OpenedHolds(roster: Roster, cfg: Settings, m: Memo, x: (int, Window), o: Open)
    requires MemoHolds(roster, cfg, m) && x.1 in Candidates(roster, x.0) && Opened(m, x, o)
    ensures OpenHolds(roster, cfg, o)
  {
    CandidateStartsOnDay(roster, x.0, x.1);
  }

  /** A bound that has not passed means that the punch is in time for the day of the window. */
  lemma {:induction false} BoundedInTime(roster: Roster, cfg: Settings, start: int, p: Punch, deadline: int,
                                         closeBound: int)
    requires IsDeadline(roster, cfg, start, deadline)
             && (ExplicitOut(cfg, p) ==> IsCloseBound(roster, start, closeBound))
    requires p.at <= deadline || (ExplicitOut(cfg, p) && p.at <= closeBound)
    ensures InTime(roster, cfg, DayOf(start), p)
  {
    var w :| w in Candidates(roster, DayOf(start)) && w.start == start && Full(w)
             && Deadline(roster, w, cfg.close) == deadline;
    if ExplicitOut(cfg, p) {
      var v :| v in Candidates(roster, DayOf(start)) && v.start == start && Full(v)
               && CloseBound(roster, v) == closeBound;
      assert p.at <= deadline || p.at <= CloseBound(roster, v);
    }
  }

  lemma {:induction false} FitsInTime(roster: Roster, cfg: Settings, m: Memo, p: Punch, x: (int, Window))
    requires MemoHolds(roster, cfg, m) && x.1 in Candidates(roster, x.0) && x.1.start in m.deadlines
    requires p.at <= m.deadlines[x.1.start]
             || (ExplicitOut(cfg, p) && x.1.start in m.closeBounds && p.at <= m.closeBounds[x.1.start])
    ensures InTime(roster, cfg, x.0, p)
  {
    CandidateStartsOnDay(roster, x.0, x.1);
    var d := m.deadlines[x.1.start];
    assert IsDeadline(roster, cfg, x.1.start, d);
    if p.at <= d {
      var w :| w in Candidates(roster, x.0) && w.start == x.1.start && Full(w) && Deadline(roster, w, cfg.close) == d;
    } else {
      BoundedInTime(roster, cfg, x.1.start, p, d, m.closeBounds[x.1.start]);
    }
  }

  lemma {:induction false} OwnDayIsAround(roster: Roster, t: int, w: Window)
    requires w in Candidates(roster, DayOf(t))
    ensures (DayOf(t), w) in Around(roster, t)
  {
    var d := DayOf(t);
    var ws := Candidates(roster, d);
    var i :| 0 <= i < |ws| && ws[i] == w;
    assert Tagged(d, ws)[i] == (d, w);
  }

  predicate KnownRoster(roster: Roster, t: int) {
    exists x :: x in Around(roster, t) && Full(x.1)
  }

  /** Where one punch goes and what is in progress after it. */
  ghost predicate Turn(roster: Roster, cfg: Settings, w: Walk, p: Punch, open: Option<Open>, memo: Memo,
                       key: GroupKey) {
    if !HasRoster(roster) then key == Day(DayOf(p.at)) && open == w.open
    else if w.open.Some? && Claims(roster, cfg, w.open.value, p) then
      key == Day(w.open.value.day) && open == (if p.at >= w.open.value.end then None else w.open)
    else
      exists best :: Searched(roster, cfg, w.groups, memo, p, Around(roster, p.at), best)
                     && Opens(roster, cfg, p, w.open.Some?, best, key, open)
  }

  /**
   One turn of the walk. A shift in progress keeps the punch if it accounts for it; otherwise the punch
   opens the nearest window; otherwise it is set aside.
   */
  method Assign(roster: Roster, cfg: Settings, w: Walk, p: Punch)
    returns (open: Option<Open>, memo: Memo, key: GroupKey)
    requires MemoHolds(roster, cfg, w.memo) && OpenOption(roster, cfg, w.open)
    ensures MemoHolds(roster, cfg, memo) && OpenOption(roster, cfg, open)
    ensures Turn(roster, cfg, w, p, open, memo, key)
  {
    open, memo, key := w.open, w.memo, Day(DayOf(p.at));
    if !HasRoster(roster) {
      return;
    }
    if w.open.Some? && Claims(roster, cfg, w.open.value, p) {
      key := Day(w.open.value.day);
      if p.at >= w.open.value.end {
        open := None;
      }
      return;
    }
    var best: Option<Best>;
    memo, best := ChooseWindow(roster, cfg, w.groups, w.memo, p);
    if best.Some? {
      key := Day(best.value.open.day);
      open := if ExplicitOut(cfg, p) then None else Some(best.value.open);
    } else {
      if KnownRoster(roster, p.at) && (w.open.Some? || |Candidates(roster, DayOf(p.at))| > 0) {
        key := Unassigned(DayOf(p.at));
      }
      open := None;
    }
    assert Opens(roster, cfg, p, w.open.Some?, best, key, open);
    SearchedOpens(roster, cfg, w.groups, memo, p, best);
  }

  /** What a search finds is a window of its day, and the punch is in time for it. */
  lemma {:induction false} SearchedOpens(roster: Roster, cfg: Settings, groups: map<GroupKey, seq<Punch>>, m: Memo,
                                         p: Punch, best: Option<Best>)
    requires Searched(roster, cfg, groups, m, p, Around(roster, p.at), best)
    ensures best.Some? ==> OpenHolds(roster, cfg, best.value.open) && InTime(roster, cfg, best.value.open.day, p)
  {
    if best.Some? {
      var xs := Around(roster, p.at);
      var i: nat :| i < |xs| && IsBest(roster, cfg, groups, m, p, xs, i, best.value);
      var x := xs[i];
      assert x in xs;
      OpenedHolds(roster, cfg, m, x, best.value.open);
      FitsInTime(roster, cfg, m, p, x);
    }
  }

  /** What a turn does: the punch is in time for its day, and a chosen check-out never opens a shift. */
  lemma {:induction false} TurnHolds(roster: Roster, cfg: Settings, w: Walk, p: Punch, open: Option<Open>, memo: Memo,
                                     key: GroupKey)
    requires OpenOption(roster, cfg, w.open) && Turn(roster, cfg, w, p, open, memo, key)
    ensures OpenOption(roster, cfg, open) && !key.Anchored?
    ensures if HasRoster(roster) then WithinCutoff(roster, cfg, p, key) else key == Day(DayOf(p.at))
    ensures ExplicitOut(cfg, p) ==> open == w.open || open == None
  {
    if HasRoster(roster) {
      if w.open.Some? && Claims(roster, cfg, w.open.value, p) {
        ClaimedInTime(roster, cfg, w.open.value, p);
      } else {
        var best :| Searched(roster, cfg, w.groups, memo, p, Around(roster, p.at), best)
                    && Opens(roster, cfg, p, w.open.Some?, best, key, open);
        SearchedOpens(roster, cfg, w.groups, memo, p, best);
        RosteredDayIsKnown(roster, p.at);
      }
    }
  }

  /**
   A new window is opened by an arrival only; a chosen check-out leaves nothing open. A punch no window
   takes is set aside when a shift was in progress or its own day has windows.
   */
  predicate Opens(roster: Roster, cfg: Settings, p: Punch, wasOpen: bool, best: Option<Best>, key: GroupKey,
                  open: Option<Open>) {
    var own := DayOf(p.at);
    if best.Some? then
      key == Day(best.value.open.day) && open == if ExplicitOut(cfg, p) then None else Some(best.value.open)
    else
      open == None
      && key == if KnownRoster(roster, p.at) && (wasOpen || |Candidates(roster, own)| > 0) then Unassigned(own)
         else Day(own)
  }

  lemma {:induction false} RosteredDayIsKnown(roster: Roster, t: int)
    ensures RosteredDay(roster, DayOf(t)) ==> KnownRoster(roster, t) && |Candidates(roster, DayOf(t))| > 0
  {
    if v :| v in Candidates(roster, DayOf(t)) && Full(v) {
      OwnDayIsAround(roster, t, v);
    }
  }

  // ---------------------------------------------------------------- split shifts

  function SplitDistance(p: Punch, w: Window): int
    requires Full(w)
  {
    Abs(p.at - (if IsOut(p) then w.end.value else w.start))
  }

  /** The punch is in time for the window, by the memoised bounds. */
  predicate SplitFits(cfg: Settings, m: Memo, p: Punch, x: (int, Window)) {
    && Full(x.1) && p.at >= x.1.start - cfg.tolerance && x.1.start in m.deadlines
    && (p.at <= m.deadlines[x.1.start]
        || (ExplicitOut(cfg, p) && x.1.start in m.closeBounds && p.at <= m.closeBounds[x.1.start]))
  }

  ghost predicate SplitSettled(cfg: Settings, m: Memo, p: Punch, x: (int, Window)) {
    Full(x.1) && p.at >= x.1.start - cfg.tolerance ==>
      x.1.start in m.deadlines && (ExplicitOut(cfg, p) ==> x.1.start in m.closeBounds)
  }

  /** The key is that of the first of the nearest fitting windows, or the old one when nothing fits. */
  ghost predicate SplitNearest(cfg: Settings, m: Memo, p: Punch, xs: seq<(int, Window)>, key: GroupKey,
                               nearest: Option<int>, out: GroupKey) {
    if nearest.None? then out == key && forall x :: x in xs ==> !SplitFits(cfg, m, p, x)
    else exists i: nat :: i < |xs| && SplitBest(cfg, m, p, xs, i, nearest.value)
                          && out == Anchored(xs[i].0, xs[i].1.start)
  }

  ghost predicate SplitBest(cfg: Settings, m: Memo, p: Punch, xs: seq<(int, Window)>, i: nat, distance: int)
    requires i < |xs|
  {
    && SplitFits(cfg, m, p, xs[i]) && distance == SplitDistance(p, xs[i].1)
    && (forall j :: 0 <= j < |xs| && SplitFits(cfg, m, p, xs[j]) ==> SplitNotNearer(p, xs[j].1, distance, j < i))
  }

  ghost predicate SplitNotNearer(p: Punch, w: Window, distance: int, earlier: bool)
    requires Full(w)
  {
    distance <= SplitDistance(p, w) && (earlier ==> distance < SplitDistance(p, w))
  }

  ghost predicate SplitSearched(cfg: Settings, m: Memo, p: Punch, xs: seq<(int, Window)>, key: GroupKey,
                                nearest: Option<int>, out: GroupKey) {
    (forall x :: x in xs ==> SplitSettled(cfg, m, p, x)) && SplitNearest(cfg, m, p, xs, key, nearest, out)
  }

  lemma {:induction false} SplitExtends(cfg: Settings, m: Memo, n: Memo, p: Punch, xs: seq<(int, Window)>,
                                        key: GroupKey, nearest: Option<int>, out: GroupKey)
    requires SplitSearched(cfg, m, p, xs, key, nearest, out) && Extends(m, n)
    ensures SplitSearched(cfg, n, p, xs, key, nearest, out)
  {
    forall x | x in xs ensures SplitSettled(cfg, n, p, x) && (SplitFits(cfg, m, p, x) <==> SplitFits(cfg, n, p, x)) {
      assert SplitSettled(cfg, m, p, x);
    }
    if nearest.Some? {
      var i: nat :| i < |xs| && SplitBest(cfg, m, p, xs, i, nearest.value) && out == Anchored(xs[i].0, xs[i].1.start);
      assert forall j :: 0 <= j < |xs| ==> xs[j] in xs;
      assert SplitBest(cfg, n, p, xs, i, nearest.value);
    }
  }

  lemma {:induction false} SplitAdds(cfg: Settings, m: Memo, p: Punch, xs: seq<(int, Window)>, x: (int, Window),
                                     key: GroupKey, nearest: Option<int>, out: GroupKey, next: Option<int>,
                                     moved: GroupKey)
    requires SplitSearched(cfg, m, p, xs, key, nearest, out) && SplitSettled(cfg, m, p, x)
    requires if SplitFits(cfg, m, p, x) && (nearest.None? || SplitDistance(p, x.1) < nearest.value)
             then next == Some(SplitDistance(p, x.1)) && moved == Anchored(x.0, x.1.start)
             else next == nearest && moved == out
    ensures SplitSearched(cfg, m, p, xs + [x], key, next, moved)
  {
    if SplitFits(cfg, m, p, x) && (nearest.None? || SplitDistance(p, x.1) < nearest.value) {
      SplitImproves(cfg, m, p, xs, x, key, nearest, out);
    } else if nearest.Some? {
      SplitSkips(cfg, m, p, xs, x, key, nearest.value, out);
    }
  }

  lemma {:induction false} SplitSkips(cfg: Settings, m: Memo, p: Punch, xs: seq<(int, Window)>, x: (int, Window),
                                      key: GroupKey, nearest: int, out: GroupKey)
    requires SplitNearest(cfg, m, p, xs, key, Some(nearest), out)
    requires SplitFits(cfg, m, p, x) ==> SplitDistance(p, x.1) >= nearest
    ensures SplitNearest(cfg, m, p, xs + [x], key, Some(nearest), out)
  {
    var all := xs + [x];
    var i: nat :| i < |xs| && SplitBest(cfg, m, p, xs, i, nearest) && out == Anchored(xs[i].0, xs[i].1.start);
    forall j | 0 <= j < |all| && SplitFits(cfg, m, p, all[j]) ensures SplitNotNearer(p, all[j].1, nearest, j < i) {
      assert j < |xs| ==> all[j] == xs[j];
    }
    assert all[i] == xs[i] && SplitBest(cfg, m, p, all, i, nearest);
  }

  lemma {:induction false} SplitImproves(cfg: Settings, m: Memo, p: Punch, xs: seq<(int, Window)>, x: (int, Window),
                                         key: GroupKey, nearest: Option<int>, out: GroupKey)
    requires SplitNearest(cfg, m, p, xs, key, nearest, out)
    requires SplitFits(cfg, m, p, x) && (nearest.None? || SplitDistance(p, x.1) < nearest.value)
    ensures SplitNearest(cfg, m, p, xs + [x], key, Some(SplitDistance(p, x.1)), Anchored(x.0, x.1.start))
  {
    var all, d := xs + [x], SplitDistance(p, x.1);
    forall j | 0 <= j < |all| && SplitFits(cfg, m, p, all[j]) ensures SplitNotNearer(p, all[j].1, d, j < |xs|) {
      if j < |xs| {
        assert all[j] == xs[j] && xs[j] in xs;
        SplitFarther(cfg, m, p, xs, key, nearest, out, j, d);
      }
    }
    assert all[|xs|] == x && SplitBest(cfg, m, p, all, |xs|, d);
  }

  lemma {:induction false} SplitFarther(cfg: Settings, m: Memo, p: Punch, xs: seq<(int, Window)>, key: GroupKey,
                                        nearest: Option<int>, out: GroupKey, j: nat, d: int)
    requires SplitNearest(cfg, m, p, xs, key, nearest, out) && (nearest.None? || d < nearest.value)
    requires j < |xs| && SplitFits(cfg, m, p, xs[j])
    ensures d < SplitDistance(p, xs[j].1)
  {
    assert xs[j] in xs;
    if nearest.Some? {
      var i: nat :| i < |xs| && SplitBest(cfg, m, p, xs, i, nearest.value) && out == Anchored(xs[i].0, xs[i].1.start);
      assert SplitNotNearer(p, xs[j].1, nearest.value, j < i);
    }
  }

  /** On a day with several shifts, the punch is filed under the nearest one that can still take it. */
  method Rekey(roster: Roster, cfg: Settings, m: Memo, p: Punch, key: GroupKey) returns (n: Memo, out: GroupKey)
    requires MemoHolds(roster, cfg, m)
    ensures MemoHolds(roster, cfg, n)
    ensures Rekeyed(roster, cfg, n, p, key, out)
  {
    n, out := m, key;
    if |PatternOn(roster, key.day).shifts| > 0 {
      ghost var nearest: Option<int>;
      n, out, nearest := RekeyAmong(roster, cfg, m, p, key, Around(roster, p.at));
    }
  }

  method RekeyAmong(roster: Roster, cfg: Settings, m: Memo, p: Punch, key: GroupKey, xs: seq<(int, Window)>)
    returns (n: Memo, out: GroupKey, ghost found: Option<int>)
    requires MemoHolds(roster, cfg, m)
    requires forall x :: x in xs ==> x.1 in Candidates(roster, x.0)
    ensures Rekeying(roster, cfg, n, p, xs, key, found, out)
  {
    n, out := m, key;
    var nearest: Option<int> := None;
    NothingRekeyed(roster, cfg, n, p, xs, key);
    for i := 0 to |xs|
      invariant Rekeying(roster, cfg, n, p, xs[..i], key, nearest, out)
    {
      n, nearest, out := RekeyAt(roster, cfg, n, p, xs, i, nearest, out, key);
    }
    AllRekeyed(roster, cfg, n, p, xs, key, nearest, out);
    found := nearest;
  }

  method RekeyAt(roster: Roster, cfg: Settings, m: Memo, p: Punch, xs: seq<(int, Window)>, i: nat,
                 nearest: Option<int>, out: GroupKey, ghost key: GroupKey)
    returns (n: Memo, next: Option<int>, moved: GroupKey)
    requires i < |xs| && Rekeying(roster, cfg, m, p, xs[..i], key, nearest, out)
             && xs[i].1 in Candidates(roster, xs[i].0)
    ensures Rekeying(roster, cfg, n, p, xs[..i + 1], key, next, moved)
  {
    n, next, moved := RekeyNext(roster, cfg, m, p, xs[i], nearest, out, key, xs[..i]);
    NextPrefix(xs, i);
  }

  lemma {:induction false} AllRekeyed(roster: Roster, cfg: Settings, m: Memo, p: Punch, xs: seq<(int, Window)>,
                                      key: GroupKey, nearest: Option<int>, out: GroupKey)
    requires Rekeying(roster, cfg, m, p, xs[..|xs|], key, nearest, out)
    ensures Rekeying(roster, cfg, m, p, xs, key, nearest, out)
  {
    assert xs[..|xs|] == xs;
  }

  lemma {:induction false} NothingRekeyed(roster: Roster, cfg: Settings, m: Memo, p: Punch, xs: seq<(int, Window)>,
                                          key: GroupKey)
    requires MemoHolds(roster, cfg, m)
    ensures Rekeying(roster, cfg, m, p, xs[..0], key, None, key)
  {
  }

  /** What re-keying keeps. */
  ghost predicate Rekeying(roster: Roster, cfg: Settings, m: Memo, p: Punch, done: seq<(int, Window)>, key: GroupKey,
                           nearest: Option<int>, out: GroupKey)
  {
    MemoHolds(roster, cfg, m) && SplitSearched(cfg, m, p, done, key, nearest, out)
  }

  method RekeyNext(roster: Roster, cfg: Settings, m: Memo, p: Punch, x: (int, Window), nearest: Option<int>,
                   out: GroupKey, ghost key: GroupKey, ghost done: seq<(int, Window)>)
    returns (n: Memo, next: Option<int>, moved: GroupKey)
    requires Rekeying(roster, cfg, m, p, done, key, nearest, out) && x.1 in Candidates(roster, x.0)
    ensures Rekeying(roster, cfg, n, p, done + [x], key, next, moved)
  {
    n, next, moved := RekeyStep(roster, cfg, m, p, x, nearest, out);
    SplitExtends(cfg, m, n, p, done, key, nearest, out);
    SplitAdds(cfg, n, p, done, x, key, nearest, out, next, moved);
  }

  /** A day without split shifts keeps its key. */
  ghost predicate Rekeyed(roster: Roster, cfg: Settings, m: Memo, p: Punch, key: GroupKey, out: GroupKey) {
    if |PatternOn(roster, key.day).shifts| == 0 then out == key
    else exists nearest :: SplitSearched(cfg, m, p, Around(roster, p.at), key, nearest, out)
  }

  method RekeyStep(roster: Roster, cfg: Settings, m: Memo, p: Punch, x: (int, Window), nearest: Option<int>,
                   key: GroupKey)
    returns (n: Memo, next: Option<int>, out: GroupKey)
    requires MemoHolds(roster, cfg, m) && x.1 in Candidates(roster, x.0)
    ensures MemoHolds(roster, cfg, n) && Extends(m, n) && SplitSettled(cfg, n, p, x)
    ensures if SplitFits(cfg, n, p, x) && (nearest.None? || SplitDistance(p, x.1) < nearest.value)
            then next == Some(SplitDistance(p, x.1)) && out == Anchored(x.0, x.1.start)
            else next == nearest && out == key
  {
    n, next, out := m, nearest, key;
    var w := x.1;
    if !Full(w) || p.at < w.start - cfg.tolerance {
      return;
    }
    var deadline, bound: int;
    n, deadline, bound := BoundsFor(roster, cfg, n, w, x.0, p);
    if p.at <= bound {
      var d := SplitDistance(p, w);
      if nearest.None? || d < nearest.value {
        next, out := Some(d), Anchored(x.0, w.start);
      }
    }
  }

  lemma {:induction false} AnchoredInTime(roster: Roster, cfg: Settings, m: Memo, p: Punch, x: (int, Window))
    requires MemoHolds(roster, cfg, m) && x.1 in Candidates(roster, x.0) && SplitFits(cfg, m, p, x)
    ensures WithinCutoff(roster, cfg, p, Anchored(x.0, x.1.start))
  {
    FitsInTime(roster, cfg, m, p, x);
  }

  /** Re-keying keeps the punch in time. */
  lemma {:induction false} RekeyedHolds(roster: Roster, cfg: Settings, m: Memo, p: Punch, key: GroupKey, out: GroupKey)
    requires MemoHolds(roster, cfg, m) && Rekeyed(roster, cfg, m, p, key, out)
    ensures out == key || WithinCutoff(roster, cfg, p, out)
    ensures |PatternOn(roster, key.day).shifts| == 0 ==> out == key
  {
    if |PatternOn(roster, key.day).shifts| > 0 {
      var nearest :| SplitSearched(cfg, m, p, Around(roster, p.at), key, nearest, out);
      if nearest.Some? {
        var xs := Around(roster, p.at);
        var i: nat :| i < |xs| && SplitBest(cfg, m, p, xs, i, nearest.value) && out == Anchored(xs[i].0, xs[i].1.start);
        assert xs[i] in xs;
        AnchoredInTime(roster, cfg, m, p, xs[i]);
      }
    }
  }

  // ---------------------------------------------------------------- the whole walk

  /** The punches filed under one key, in stream order. */
  function Select(ps: seq<Punch>, keys: seq<GroupKey>, key: GroupKey): seq<Punch>
    requires |ps| == |keys|
  {
    if |ps| == 0 then []
    else
      var n := |ps| - 1;
      Select(ps[..n], keys[..n], key) + (if keys[n] == key then [ps[n]] else [])
  }

  /** The sessions partition the stream: each punch is in the session of its one key, in stream order. */
  ghost predicate Partitioned(groups: map<GroupKey, seq<Punch>>, ps: seq<Punch>, keys: seq<GroupKey>) {
    && |ps| == |keys|
    && (forall k :: k in groups <==> k in keys)
    && (forall k :: k in groups ==> groups[k] == Select(ps, keys, k))
  }

  lemma {:induction false} SelectNone(ps: seq<Punch>, keys: seq<GroupKey>, key: GroupKey)
    requires |ps| == |keys| && key !in keys
    ensures Select(ps, keys, key) == []
  {
    if |ps| > 0 {
      SelectNone(ps[..|ps| - 1], keys[..|ps| - 1], key);
    }
  }

  function Filed(groups: map<GroupKey, seq<Punch>>, key: GroupKey, p: Punch): map<GroupKey, seq<Punch>> {
    groups[key := (if key in groups then groups[key] else []) + [p]]
  }

  lemma {:induction false} FilingKeepsPartition(groups: map<GroupKey, seq<Punch>>, ps: seq<Punch>, keys: seq<GroupKey>,
                                                key: GroupKey, p: Punch)
    requires Partitioned(groups, ps, keys)
    ensures Partitioned(Filed(groups, key, p), ps + [p], keys + [key])
  {
    var n := |ps|;
    assert (ps + [p])[..n] == ps && (keys + [key])[..n] == keys;
    if key !in groups {
      SelectNone(ps, keys, key);
    }
  }

  ghost predicate WalkHolds(roster: Roster, cfg: Settings, w: Walk) {
    MemoHolds(roster, cfg, w.memo) && OpenOption(roster, cfg, w.open)
  }

  /** The step of the walk: a turn, then the re-keying of a split-shift day, then the filing. */
  ghost predicate Placed(roster: Roster, cfg: Settings, w: Walk, p: Punch, next: Walk, key: GroupKey) {
    && next.groups == Filed(w.groups, key, p) && MemoHolds(roster, cfg, next.memo)
    && exists memo, first ::
         Turn(roster, cfg, w, p, next.open, memo, first) && Rekeyed(roster, cfg, next.memo, p, first, key)
  }

  /** The body of the walk: assign the punch, re-key it on a split-shift day, file it. */
  method Place(roster: Roster, cfg: Settings, w: Walk, p: Punch) returns (next: Walk, key: GroupKey)
    requires WalkHolds(roster, cfg, w)
    ensures WalkHolds(roster, cfg, next) && Placed(roster, cfg, w, p, next, key)
  {
    var open, memo, first := Assign(roster, cfg, w, p);
    var final: Memo;
    final, key := Rekey(roster, cfg, memo, p, first);
    next := Walk(open, Filed(w.groups, key, p), final);
    assert Turn(roster, cfg, w, p, next.open, memo, first) && Rekeyed(roster, cfg, next.memo, p, first, key);
  }

  /** What one step does, from what the walk keeps. */
  lemma {:induction false} PlacedHolds(roster: Roster, cfg: Settings, w: Walk, p: Punch, next: Walk, key: GroupKey)
    requires WalkHolds(roster, cfg, w) && Placed(roster, cfg, w, p, next, key)
    ensures WalkHolds(roster, cfg, next)
    ensures if HasRoster(roster) then WithinCutoff(roster, cfg, p, key) else key == Day(DayOf(p.at))
    ensures ExplicitOut(cfg, p) ==> next.open == w.open || next.open == None
  {
    var memo, first :| Turn(roster, cfg, w, p, next.open, memo, first)
                       && Rekeyed(roster, cfg, next.memo, p, first, key);
    TurnHolds(roster, cfg, w, p, next.open, memo, first);
    RekeyedHolds(roster, cfg, next.memo, p, first, key);
  }

  type Relation = (Walk, Punch, Walk, GroupKey) -> bool

  ghost function StepsOf(roster: Roster, cfg: Settings): Relation {
    (w, p, next, key) => Placed(roster, cfg, w, p, next, key)
  }

  /** A whole walk: the states before and after each punch, the key each punch got, every step in the relation. */
  ghost predicate IsWalk(step: Relation, ps: seq<Punch>, keys: seq<GroupKey>, walks: seq<Walk>)
    decreases |ps|
  {
    && |keys| == |ps| && |walks| == |ps| + 1
    && if |ps| == 0 then walks[0] == START
       else
         var n := |ps| - 1;
         IsWalk(step, ps[..n], keys[..n], walks[..n + 1]) && step(walks[n], ps[n], walks[n + 1], keys[n])
  }

  const START := Walk(None, map[], Memo(map[], map[]))

  lemma {:induction false} WalkOn(step: Relation, ps: seq<Punch>, keys: seq<GroupKey>, walks: seq<Walk>, p: Punch,
                                  key: GroupKey, next: Walk)
    requires IsWalk(step, ps, keys, walks) && step(walks[|ps|], p, next, key)
    ensures IsWalk(step, ps + [p], keys + [key], walks + [next])
  {
    var n := |ps|;
    var qs, ks, vs := ps + [p], keys + [key], walks + [next];
    assert qs[..n] == ps && ks[..n] == keys && vs[..n + 1] == walks;
    assert qs[n] == p && ks[n] == key && vs[n] == walks[n] && vs[n + 1] == next;
  }

  lemma {:induction false} WalkStep(step: Relation, ps: seq<Punch>, keys: seq<GroupKey>, walks: seq<Walk>, i: nat)
    requires IsWalk(step, ps, keys, walks) && i < |ps|
    ensures step(walks[i], ps[i], walks[i + 1], keys[i])
    decreases |ps|
  {
    if i < |ps| - 1 {
      WalkStep(step, ps[..|ps| - 1], keys[..|ps| - 1], walks[..|ps|], i);
    }
  }

  /** Sessions that a walk over the stream ends with; they partition it. */
  ghost predicate Sessions(roster: Roster, cfg: Settings, stream: seq<Punch>, groups: map<GroupKey, seq<Punch>>) {
    exists keys, walks :: Session(StepsOf(roster, cfg), stream, groups, keys, walks)
  }

  ghost predicate Session(step: Relation, stream: seq<Punch>, groups: map<GroupKey, seq<Punch>>, keys: seq<GroupKey>,
                          walks: seq<Walk>) {
    && Partitioned(groups, stream, keys)
    && IsWalk(step, stream, keys, walks) && groups == walks[|stream|].groups
  }

  /** Every punch of the sessions is in time for the day it is keyed to. */
  ghost predicate AllWithinCutoff(roster: Roster, cfg: Settings, groups: map<GroupKey, seq<Punch>>) {
    forall k, p :: k in groups && p in groups[k] ==> WithinCutoff(roster, cfg, p, k)
  }

  /** Every punch of the stream is in time for its own calendar day. */
  ghost predicate OnOwnDays(roster: Roster, cfg: Settings, stream: seq<Punch>) {
    forall p :: p in stream ==> WithinCutoff(roster, cfg, p, Day(DayOf(p.at)))
  }

  /**
   The source's walk over the deduplicated stream. Sessions partition it in time order; cutoffs hold for every
   roster the walk recognises, and otherwise exactly when every punch is in time for its own calendar day.
   */
  method SessioniseByRoster(punches: seq<Punch>, roster: Roster, cfg: Settings)
    returns (groups: map<GroupKey, seq<Punch>>)
    ensures Sessions(roster, cfg, Dedupe(cfg, SortBy(punches, At)), groups)
    ensures forall k :: k in groups ==> SortedBy(groups[k], At)
    ensures HasRoster(roster) ==> AllWithinCutoff(roster, cfg, groups)
    ensures AllWithinCutoff(roster, cfg, groups) <==>
            HasRoster(roster) || OnOwnDays(roster, cfg, Dedupe(cfg, SortBy(punches, At)))
  {
    var sorted := DedupePunches(cfg, SortBy(punches, At));
    ghost var keys, walks;
    groups, keys, walks := WalkStream(sorted, roster, cfg, StepsOf(roster, cfg));
    assert Session(StepsOf(roster, cfg), sorted, groups, keys, walks);
    SortBySorts(punches, At);
    DedupeKeepsOrder(cfg, SortBy(punches, At));
    SessionsAreOrdered(groups, sorted, keys);
    CutoffsHoldIff(roster, cfg, sorted, groups, keys, walks);
  }

  /** Every step of the source is in the relation. */
  ghost predicate Admits(roster: Roster, cfg: Settings, step: Relation) {
    forall w, p, next, key {:trigger Placed(roster, cfg, w, p, next, key)} ::
      Placed(roster, cfg, w, p, next, key) ==> step(w, p, next, key)
  }

  method WalkStream(sorted: seq<Punch>, roster: Roster, cfg: Settings, ghost step: Relation)
    returns (groups: map<GroupKey, seq<Punch>>, ghost keys: seq<GroupKey>, ghost walks: seq<Walk>)
    requires Admits(roster, cfg, step)
    ensures Session(step, sorted, groups, keys, walks)
  {
    var walk := START;
    keys, walks := [], [START];
    ghost var seen: seq<Punch> := [];
    for i := 0 to |sorted|
      invariant seen == sorted[..i]
      invariant WalkHolds(roster, cfg, walk)
      invariant Walking(step, seen, keys, walks, walk)
    {
      ghost var key: GroupKey;
      walk, key := StepOn(roster, cfg, walk, sorted[i], step, seen, keys, walks);
      seen, keys, walks := seen + [sorted[i]], keys + [key], walks + [walk];
    }
    assert seen == sorted;
    groups := walk.groups;
  }

  /** What the walk keeps. */
  ghost predicate Walking(step: Relation, ps: seq<Punch>, keys: seq<GroupKey>, walks: seq<Walk>, walk: Walk) {
    Session(step, ps, walk.groups, keys, walks) && walk == walks[|ps|]
  }

  method StepOn(roster: Roster, cfg: Settings, walk: Walk, p: Punch, ghost step: Relation,
                ghost seen: seq<Punch>, ghost keys: seq<GroupKey>, ghost walks: seq<Walk>)
    returns (next: Walk, ghost filed: GroupKey)
    requires Admits(roster, cfg, step) && WalkHolds(roster, cfg, walk) && Walking(step, seen, keys, walks, walk)
    ensures WalkHolds(roster, cfg, next) && Walking(step, seen + [p], keys + [filed], walks + [next], next)
  {
    var key: GroupKey;
    next, key := Place(roster, cfg, walk, p);
    filed := key;
    FilingKeepsPartition(walk.groups, seen, keys, key, p);
    WalkOn(step, seen, keys, walks, p, key, next);
  }

  lemma {:induction false} SessionsAreOrdered(groups: map<GroupKey, seq<Punch>>, stream: seq<Punch>,
                                              keys: seq<GroupKey>)
    requires Partitioned(groups, stream, keys) && SortedBy(stream, At)
    ensures forall k :: k in groups ==> SortedBy(groups[k], At)
  {
    forall k | k in groups ensures SortedBy(groups[k], At) {
      SessionsInOrder(stream, keys, k);
    }
  }

  /** The invariant of the walk holds in every state of it. */
  lemma {:induction false} WalkHoldsAt(roster: Roster, cfg: Settings, ps: seq<Punch>, keys: seq<GroupKey>,
                                       walks: seq<Walk>, i: nat)
    requires IsWalk(StepsOf(roster, cfg), ps, keys, walks) && i <= |ps|
    ensures WalkHolds(roster, cfg, walks[i])
  {
    if i == 0 {
      WalkStart(StepsOf(roster, cfg), ps, keys, walks);
    } else {
      WalkHoldsAt(roster, cfg, ps, keys, walks, i - 1);
      WalkStep(StepsOf(roster, cfg), ps, keys, walks, i - 1);
      PlacedHolds(roster, cfg, walks[i - 1], ps[i - 1], walks[i], keys[i - 1]);
    }
  }

  lemma {:induction false} WalkStart(step: Relation, ps: seq<Punch>, keys: seq<GroupKey>, walks: seq<Walk>)
    requires IsWalk(step, ps, keys, walks)
    ensures walks[0] == START
    decreases |ps|
  {
    if |ps| > 0 {
      WalkStart(step, ps[..|ps| - 1], keys[..|ps| - 1], walks[..|ps|]);
    }
  }

  /**
   Whatever the stream, a punch keyed by a recognised roster is not too late for every window of its day, without
   one it is keyed to its calendar day, and a chosen check-out never opens a shift.
   */
  lemma {:induction false} SessionsRespectCutoffs(roster: Roster, cfg: Settings, stream: seq<Punch>,
                                                  keys: seq<GroupKey>, walks: seq<Walk>, i: nat)
    requires IsWalk(StepsOf(roster, cfg), stream, keys, walks) && i < |stream|
    ensures if HasRoster(roster) then WithinCutoff(roster, cfg, stream[i], keys[i])
            else keys[i] == Day(DayOf(stream[i].at))
    ensures ExplicitOut(cfg, stream[i]) ==> walks[i + 1].open == walks[i].open || walks[i + 1].open == None
  {
    WalkHoldsAt(roster, cfg, stream, keys, walks, i);
    WalkStep(StepsOf(roster, cfg), stream, keys, walks, i);
    PlacedHolds(roster, cfg, walks[i], stream[i], walks[i + 1], keys[i]);
  }

  lemma {:induction false} CutoffsHoldIff(roster: Roster, cfg: Settings, stream: seq<Punch>,
                                          groups: map<GroupKey, seq<Punch>>, keys: seq<GroupKey>, walks: seq<Walk>)
    requires Session(StepsOf(roster, cfg), stream, groups, keys, walks)
    ensures AllWithinCutoff(roster, cfg, groups) <==> HasRoster(roster) || OnOwnDays(roster, cfg, stream)
  {
    if HasRoster(roster) || OnOwnDays(roster, cfg, stream) {
      forall k, p | k in groups && p in groups[k] ensures WithinCutoff(roster, cfg, p, k) {
        var i := FiledFrom(stream, keys, k, p);
        SessionsRespectCutoffs(roster, cfg, stream, keys, walks, i);
      }
    }
    if AllWithinCutoff(roster, cfg, groups) && !HasRoster(roster) {
      forall p | p in stream ensures WithinCutoff(roster, cfg, p, Day(DayOf(p.at))) {
        var i :| 0 <= i < |stream| && stream[i] == p;
        SessionsRespectCutoffs(roster, cfg, stream, keys, walks, i);
        IsFiled(stream, keys, i);
      }
    }
  }

  lemma {:induction false} FiledFrom(ps: seq<Punch>, keys: seq<GroupKey>, key: GroupKey, p: Punch) returns (i: nat)
    requires |ps| == |keys| && p in Select(ps, keys, key)
    ensures i < |ps| && ps[i] == p && keys[i] == key
  {
    var n := |ps| - 1;
    if keys[n] == key && ps[n] == p {
      i := n;
    } else {
      i := FiledFrom(ps[..n], keys[..n], key, p);
    }
  }

  lemma {:induction false} IsFiled(ps: seq<Punch>, keys: seq<GroupKey>, i: nat)
    requires |ps| == |keys| && i < |ps|
    ensures ps[i] in Select(ps, keys, keys[i])
  {
    var n := |ps| - 1;
    if i < n {
      IsFiled(ps[..n], keys[..n], i);
    }
  }

  /** Every session is in time order. */
  lemma {:induction false} SessionsInOrder(ps: seq<Punch>, keys: seq<GroupKey>, key: GroupKey)
    requires |ps| == |keys| && SortedBy(ps, At)
    ensures SortedBy(Select(ps, keys, key), At)
    ensures forall p :: p in Select(ps, keys, key) ==> p in ps
  {
    if |ps| > 0 {
      var n := |ps| - 1;
      SessionsInOrder(ps[..n], keys[..n], key);
      var before := Select(ps[..n], keys[..n], key);
      assert ps == ps[..n] + [ps[n]];
      forall i | 0 <= i < |before| ensures At(before[i]) <= At(ps[n]) {
        assert before[i] in ps[..n];
      }
    }
  }

  // ---------------------------------------------------------------- a roster the walk does not recognise

  const NO_SHIFT := RawShift(None, None, None, None)

  /** Thursdays from midnight to one, with a latest check-out at two, and nothing else. */
  const THURSDAYS := Always(
    Pattern([], [], None, map[4 := RawShift(Some(0), Some(60), Some(120), None)], NO_SHIFT, None, {}))

  const THURSDAY_WINDOW := Window(0, Some(60 * MINUTE), Some(120 * MINUTE))

  lemma {:induction false} ThursdayWindows()
    ensures Candidates(THURSDAYS, 0) == [THURSDAY_WINDOW]
  {
    var raws := [RawShift(Some(0), Some(60), Some(120), None)];
    assert raws[..|raws| - 1] == [];
    assert BuildAll(raws, 0, true) == [THURSDAY_WINDOW];
  }

  /** A latest check-out bounds the deadline. */
  lemma {:induction false} TooLateForOnly(roster: Roster, cfg: Settings, day: int, w: Window, p: Punch)
    requires Candidates(roster, day) == [w] && Full(w) && w.cutoff.Some? && p.at > w.cutoff.value
             && !ExplicitOut(cfg, p)
    ensures RosteredDay(roster, day) && !InTime(roster, cfg, day, p)
  {
    assert w in Candidates(roster, day);
  }

  lemma {:induction false} UnrecognisedMisses(roster: Roster, cfg: Settings, p: Punch,
                                              groups: map<GroupKey, seq<Punch>>)
    requires !HasRoster(roster) && Sessions(roster, cfg, [p], groups) && !WithinCutoff(roster, cfg, p, Day(DayOf(p.at)))
    ensures !AllWithinCutoff(roster, cfg, groups)
  {
    var keys, walks :| Session(StepsOf(roster, cfg), [p], groups, keys, walks);
    CutoffsHoldIff(roster, cfg, [p], groups, keys, walks);
    assert p in [p];
  }

  /**
   A roster with only per-weekday shifts is not recognised: an arrival at ten on such a Thursday is filed under that
   rostered day eight hours after its latest check-out.
   */
  lemma {:induction false} WeekdayRosterMissesCutoff(roster: Roster, cfg: Settings, p: Punch,
                                                     groups: map<GroupKey, seq<Punch>>)
    requires roster == THURSDAYS && p.at == 600 * MINUTE && !IsOut(p) && Sessions(roster, cfg, [p], groups)
    ensures !HasRoster(roster) && RosteredDay(roster, DayOf(p.at)) && !InTime(roster, cfg, DayOf(p.at), p)
    ensures !AllWithinCutoff(roster, cfg, groups)
  {
    ThursdayWindows();
    DayOfStart(p.at, 0);
    TooLateForOnly(roster, cfg, DayOf(p.at), THURSDAY_WINDOW, p);
    UnrecognisedMisses(roster, cfg, p, groups);
  }
}
