/**
 What the walk does with one punch, and with every punch of a stream,
 written out (src/lib/attendanceReplay.js, 110-319).
 */
module RosterTurns {
  import opened Options
  import opened Arithmetic
  import opened Checkout
  import opened Sorting
  import opened StableSort
  import opened Subsequences
  import opened RosterShifts
  import opened RosterWindows
  import opened RosterWalk

  // ---------------------------------------------------------------- the punch

  ghost predicate Departs(p: Punch) { p.status == 1 || p.status == 5 }

  /**
   A check-out the employee verified, or whose device is trusted; where nobody says, unless directions are inferred.
   */
  ghost predicate Chosen(cfg: Settings, p: Punch) {
    Departs(p) && (p.directionVerified
                   || if p.trustDirection.Some? then p.trustDirection.value else !cfg.legacyInference)
  }

  ghost function DayNo(t: int): int { t / 86_400_000 }

  ghost function Apart(a: int, b: int): int { if a < b then b - a else a - b }

  /** The roster is one the walk goes by. */
  ghost predicate Recognised(roster: Roster) {
    match roster
    case Dated(_) => true
    case Always(p) =>
      (p.shift.from.Some? && p.shift.to.Some?) || |p.rotating| > 0 || |p.shifts| > 0
  }

  /** A window of the day of the time, the day before or the day after. */
  ghost predicate NearBy(roster: Roster, t: int, day: int, w: Window) {
    DayNo(t) - 1 <= day <= DayNo(t) + 1 && w in Candidates(roster, day)
  }

  // ---------------------------------------------------------------- the shift in progress

  /** Around its own hours, by its deadline. */
  ghost predicate OnTime(cfg: Settings, o: Open, p: Punch) {
    p.at <= o.deadline && o.start - cfg.tolerance <= p.at <= o.end + cfg.tolerance
  }

  /** Later than that, but nearer its end than any rostered start around. */
  ghost predicate Lingers(roster: Roster, cfg: Settings, o: Open, p: Punch) {
    && p.at <= o.deadline && o.end + cfg.tolerance < p.at <= o.end + cfg.close
    && forall day, w :: NearBy(roster, p.at, day, w) ==> p.at - o.end < Apart(p.at, w.start)
  }

  /** A check-out after its end: soon enough, or chosen and not too late. */
  ghost predicate ChecksOut(cfg: Settings, o: Open, p: Punch) {
    && Departs(p) && p.at > o.end
    && ((p.at <= o.deadline && p.at <= o.end + cfg.close) || (Chosen(cfg, p) && p.at <= o.closeBound))
  }

  ghost predicate Belongs(roster: Roster, cfg: Settings, o: Open, p: Punch) {
    OnTime(cfg, o, p) || Lingers(roster, cfg, o, p) || ChecksOut(cfg, o, p)
  }

  // ---------------------------------------------------------------- the search

  /** A chosen check-out within three hours before a start of its day or the next. */
  ghost predicate StartsSoon(roster: Roster, cfg: Settings, p: Punch) {
    Chosen(cfg, p) && exists day :: day in {DayNo(p.at), DayNo(p.at) + 1} && SoonOn(roster, day, p.at)
  }

  ghost predicate SoonOn(roster: Roster, day: int, t: int) {
    exists w :: w in Candidates(roster, day) && t < w.start <= t + 10_800_000
  }

  ghost predicate HasLeft(groups: map<GroupKey, seq<Punch>>, day: int) {
    Day(day) in groups && exists q :: q in groups[Day(day)] && Departs(q)
  }

  /** A window of the two days before the start or of its day ends then, before the start. */
  ghost predicate EndsBefore(roster: Roster, start: int, end: int) {
    end < start && exists day :: DayNo(start) - 2 <= day <= DayNo(start) && EndsOn(roster, day, end)
  }

  ghost predicate EndsOn(roster: Roster, day: int, end: int) {
    exists w :: w in Candidates(roster, day) && w.end == Some(end)
  }

  /** Between the last end before the start and the start, and nearer the start. */
  ghost predicate NearerStart(roster: Roster, start: int, t: int) {
    exists end :: EndsBefore(roster, start, end) && (forall other :: EndsBefore(roster, start, other) ==> other <= end)
                  && t > end && start - t < t - end
  }

  /** The bounds that are used are those of windows with the same start. */
  ghost predicate Bounds(roster: Roster, cfg: Settings, m: Memo) {
    && (forall s :: s in m.deadlines ==> StartBy(roster, cfg, s, m.deadlines[s]))
    && (forall s :: s in m.closeBounds ==> CloseBy(roster, s, m.closeBounds[s]))
  }

  /** A window with that start has the deadline. */
  ghost predicate StartBy(roster: Roster, cfg: Settings, start: int, d: int) {
    exists w :: IsAt(roster, start, w) && DeadlineOf(roster, w, cfg.close, d)
  }

  ghost predicate CloseBy(roster: Roster, start: int, b: int) {
    exists w :: IsAt(roster, start, w) && CloseBoundOf(roster, w, b)
  }

  /** The bounds of the window are among those used. */
  ghost predicate Timed(cfg: Settings, m: Memo, p: Punch, w: Window) {
    w.start in m.deadlines && (Chosen(cfg, p) ==> w.start in m.closeBounds)
  }

  ghost predicate IsAt(roster: Roster, start: int, w: Window) {
    w in Candidates(roster, DayNo(start)) && w.start == start && w.end.Some?
  }

  /** The punch is not too late for the window. */
  ghost predicate NotLate(cfg: Settings, m: Memo, p: Punch, w: Window) {
    && w.start in m.deadlines
    && (p.at <= m.deadlines[w.start]
        || (Chosen(cfg, p) && w.start in m.closeBounds && p.at <= m.closeBounds[w.start]))
  }

  /** The punch announces the next shift, and the window has begun and has its check-out. */
  ghost predicate LeftOut(roster: Roster, cfg: Settings, groups: map<GroupKey, seq<Punch>>, p: Punch,
                          x: (int, Window)) {
    StartsSoon(roster, cfg, p) && x.1.start < p.at && HasLeft(groups, x.0)
  }

  /**
   A window the punch may open: whole, not already left when the punch announces the next shift, with the punch no
   earlier than its tolerance, or an arrival that is nearer this start than the end before it, and not too late.
   */
  ghost predicate MayOpen(roster: Roster, cfg: Settings, groups: map<GroupKey, seq<Punch>>, m: Memo, p: Punch,
                          x: (int, Window)) {
    && x.1.end.Some?
    && !LeftOut(roster, cfg, groups, p, x)
    && (p.at >= x.1.start - cfg.tolerance || (!Departs(p) && NearerStart(roster, x.1.start, p.at)))
    && NotLate(cfg, m, p, x.1)
  }

  /** How far the punch is from the edge it would stand at. */
  ghost function Far(cfg: Settings, p: Punch, w: Window): int
    requires w.end.Some?
  {
    Apart(p.at, if Chosen(cfg, p) then w.end.value else w.start)
  }

  /** The windows of the day before, of the day and of the day after, in that order. */
  ghost predicate Listed(xs: seq<(int, Window)>, roster: Roster, t: int) {
    ListedAs(xs, DayNo(t), day => Candidates(roster, day))
  }

  ghost predicate ListedAs(xs: seq<(int, Window)>, d: int, list: int -> seq<Window>) {
    var a, b, c := list(d - 1), list(d), list(d + 1);
    && |xs| == |a| + |b| + |c|
    && (forall i :: 0 <= i < |a| ==> xs[i] == (d - 1, a[i]))
    && (forall i :: |a| <= i < |a| + |b| ==> xs[i] == (d, b[i - |a|]))
    && (forall i :: |a| + |b| <= i < |xs| ==> xs[i] == (d + 1, c[i - |a| - |b|]))
  }

  /** The i-th window is the first of the nearest that the punch may open. */
  ghost predicate Picks(roster: Roster, cfg: Settings, groups: map<GroupKey, seq<Punch>>, m: Memo, p: Punch,
                        xs: seq<(int, Window)>, i: nat) {
    && i < |xs| && MayOpen(roster, cfg, groups, m, p, xs[i])
    && forall j :: 0 <= j < |xs| && MayOpen(roster, cfg, groups, m, p, xs[j]) ==>
         && Far(cfg, p, xs[i].1) <= Far(cfg, p, xs[j].1)
         && (j < i ==> Far(cfg, p, xs[i].1) < Far(cfg, p, xs[j].1))
  }

  /** The register of the window, with its bounds. */
  ghost predicate OpensAs(o: Open, x: (int, Window), m: Memo) {
    && x.1.end.Some? && o.day == x.0 && o.start == x.1.start && o.end == x.1.end.value
    && o.start in m.deadlines && o.deadline == m.deadlines[o.start]
    && o.start in m.closeBounds && o.closeBound == m.closeBounds[o.start]
  }

  /** The punch stands at the window it picks, and leaves it open unless it is a chosen check-out. */
  ghost predicate OpensPicked(roster: Roster, cfg: Settings, w: Walk, m: Memo, p: Punch, xs: seq<(int, Window)>, i: nat,
                              open: Option<Open>, key: GroupKey) {
    && Picks(roster, cfg, w.groups, m, p, xs, i) && key == Day(xs[i].0)
    && if Chosen(cfg, p) then open == None else open.Some? && OpensAs(open.value, xs[i], m)
  }

  /**
   Nothing takes the punch: it is set aside where a roster is known and a shift was in progress or its day has
   windows.
   */
  ghost predicate SetAside(roster: Roster, cfg: Settings, w: Walk, m: Memo, p: Punch, xs: seq<(int, Window)>,
                           open: Option<Open>, key: GroupKey) {
    && (forall j :: 0 <= j < |xs| ==> !MayOpen(roster, cfg, w.groups, m, p, xs[j]))
    && open == None
    && key == if (exists j :: 0 <= j < |xs| && xs[j].1.end.Some?)
                 && (w.open.Some? || |Candidates(roster, DayNo(p.at))| > 0)
              then GroupKey.Unassigned(DayNo(p.at))
              else Day(DayNo(p.at))
  }

  /** The windows around the punch, and bounds for each that is not left out for its check-out. */
  ghost predicate Looked(roster: Roster, cfg: Settings, groups: map<GroupKey, seq<Punch>>, m: Memo, p: Punch,
                         xs: seq<(int, Window)>) {
    && Bounds(roster, cfg, m) && Listed(xs, roster, p.at)
    && forall j :: 0 <= j < |xs| && xs[j].1.end.Some? ==>
       LeftOut(roster, cfg, groups, p, xs[j]) || Timed(cfg, m, p, xs[j].1)
  }

  /** Where a punch goes before split shifts are told apart, and what is in progress after it. */
  ghost predicate Goes(roster: Roster, cfg: Settings, w: Walk, p: Punch, open: Option<Open>, key: GroupKey) {
    if !Recognised(roster) then key == Day(DayNo(p.at)) && open == w.open
    else if w.open.Some? && Belongs(roster, cfg, w.open.value, p) then
      key == Day(w.open.value.day) && open == if p.at >= w.open.value.end then None else w.open
    else Searches(roster, cfg, w, p, open, key)
  }

  ghost predicate Searches(roster: Roster, cfg: Settings, w: Walk, p: Punch, open: Option<Open>, key: GroupKey) {
    exists m: Memo, xs :: SearchEnds(roster, cfg, w, m, p, xs, open, key)
  }

  ghost predicate SearchEnds(roster: Roster, cfg: Settings, w: Walk, m: Memo, p: Punch, xs: seq<(int, Window)>,
                             open: Option<Open>, key: GroupKey) {
    && Looked(roster, cfg, w.groups, m, p, xs)
    && (SetAside(roster, cfg, w, m, p, xs, open, key)
        || exists i: nat :: OpensPicked(roster, cfg, w, m, p, xs, i, open, key))
  }

  // ---------------------------------------------------------------- split shifts

  /** A window of a split shift that may take the punch: begun or about to begin, and not too late. */
  ghost predicate MayTake(cfg: Settings, m: Memo, p: Punch, w: Window) {
    w.end.Some? && p.at >= w.start - cfg.tolerance && NotLate(cfg, m, p, w)
  }

  /** How far the punch is from the edge of its direction. */
  ghost function FarFrom(p: Punch, w: Window): int
    requires w.end.Some?
  {
    Apart(p.at, if Departs(p) then w.end.value else w.start)
  }

  /** The i-th window is the first of the nearest that may take the punch. */
  ghost predicate Takes(cfg: Settings, m: Memo, p: Punch, xs: seq<(int, Window)>, i: nat) {
    && i < |xs| && MayTake(cfg, m, p, xs[i].1)
    && forall j :: 0 <= j < |xs| && MayTake(cfg, m, p, xs[j].1) ==>
         FarFrom(p, xs[i].1) <= FarFrom(p, xs[j].1) && (j < i ==> FarFrom(p, xs[i].1) < FarFrom(p, xs[j].1))
  }

  ghost predicate SplitLooked(roster: Roster, cfg: Settings, m: Memo, p: Punch, xs: seq<(int, Window)>) {
    && Bounds(roster, cfg, m) && Listed(xs, roster, p.at)
    && forall j :: 0 <= j < |xs| && xs[j].1.end.Some? && p.at >= xs[j].1.start - cfg.tolerance ==>
         Timed(cfg, m, p, xs[j].1)
  }

  /** The key names the window that takes the punch; where none does, it is kept. */
  ghost predicate SplitEnds(roster: Roster, cfg: Settings, m: Memo, p: Punch, xs: seq<(int, Window)>, first: GroupKey,
                            key: GroupKey) {
    && SplitLooked(roster, cfg, m, p, xs)
    && ((key == first && forall j :: 0 <= j < |xs| ==> !MayTake(cfg, m, p, xs[j].1))
        || exists i: nat :: Takes(cfg, m, p, xs, i) && key == Anchored(xs[i].0, xs[i].1.start))
  }

  /** The key of a punch, from the day it goes to: a day without split shifts keeps it. */
  ghost predicate SplitGoes(roster: Roster, cfg: Settings, p: Punch, first: GroupKey, key: GroupKey) {
    if |PatternFor(roster, first.day).shifts| == 0 then key == first
    else exists m: Memo, xs :: SplitEnds(roster, cfg, m, p, xs, first, key)
  }

  // ---------------------------------------------------------------- one step

  /** The punch is added to its session, and no other session changes. */
  ghost predicate FiledUnder(before: map<GroupKey, seq<Punch>>, after: map<GroupKey, seq<Punch>>, key: GroupKey,
                             p: Punch) {
    && (forall k :: k in after <==> k in before || k == key)
    && (forall k :: k in before && k != key ==> after[k] == before[k])
    && after[key] == (if key in before then before[key] else []) + [p]
  }

  /** The shift in progress is a window of its day, with the bounds of a window with its start. */
  ghost predicate Registered(roster: Roster, cfg: Settings, o: Open) {
    && o.day == DayNo(o.start)
    && (exists w :: w in Candidates(roster, o.day) && w.start == o.start && w.end == Some(o.end))
    && StartBy(roster, cfg, o.start, o.deadline) && CloseBy(roster, o.start, o.closeBound)
  }

  ghost predicate Step(roster: Roster, cfg: Settings, w: Walk, p: Punch, next: Walk, key: GroupKey) {
    && (next.open.Some? ==> Registered(roster, cfg, next.open.value))
    && FiledUnder(w.groups, next.groups, key, p)
    && exists first :: Goes(roster, cfg, w, p, next.open, first) && SplitGoes(roster, cfg, p, first, key)
  }

  // ---------------------------------------------------------------- the predicates of the walk, written out

  lemma {:induction false} PunchIs(cfg: Settings, p: Punch)
    ensures IsOut(p) <==> Departs(p)
    ensures ExplicitOut(cfg, p) <==> Chosen(cfg, p)
  {
  }

  lemma {:induction false} RosterIs(roster: Roster)
    ensures HasRoster(roster) <==> Recognised(roster)
  {
  }

  lemma {:induction false} DayIs(t: int)
    ensures DayOf(t) == DayNo(t)
  {
  }

  lemma {:induction false} AroundListed(roster: Roster, t: int)
    ensures Listed(Around(roster, t), roster, t)
  {
    DayIs(t);
    ThreeListed(CandidatesOf(roster), DayNo(t), Around(roster, t));
  }

  lemma {:induction false} InAround(roster: Roster, t: int, day: int, w: Window)
    ensures (day, w) in Around(roster, t) <==> NearBy(roster, t, day, w)
  {
    DayIs(t);
    InThreeDays(CandidatesOf(roster), DayNo(t), Around(roster, t), day, w);
  }

  lemma {:induction false} ThreeListed(list: int -> seq<Window>, d: int, xs: seq<(int, Window)>)
    requires xs == ThreeDays(list, d)
    ensures ListedAs(xs, d, list)
  {
  }

  lemma {:induction false} InThreeDays(list: int -> seq<Window>, d: int, xs: seq<(int, Window)>, day: int, w: Window)
    requires xs == ThreeDays(list, d)
    ensures (day, w) in xs <==> d - 1 <= day <= d + 1 && w in list(day)
  {
    InTagged(d - 1, list(d - 1), day, w);
    InTagged(d, list(d), day, w);
    InTagged(d + 1, list(d + 1), day, w);
    InThree(Tagged(d - 1, list(d - 1)), Tagged(d, list(d)), Tagged(d + 1, list(d + 1)), (day, w));
  }

  lemma {:induction false} InTagged(d: int, ws: seq<Window>, day: int, w: Window)
    ensures (day, w) in Tagged(d, ws) <==> day == d && w in ws
  {
    if w in ws && day == d {
      var i :| 0 <= i < |ws| && ws[i] == w;
      assert Tagged(d, ws)[i] == (day, w);
    }
  }

  lemma {:induction false} InThree<T>(a: seq<T>, b: seq<T>, c: seq<T>, x: T)
    ensures x in a + b + c <==> x in a || x in b || x in c
  {
  }

  lemma {:induction false} ClaimIs(roster: Roster, cfg: Settings, o: Open, p: Punch)
    ensures Claims(roster, cfg, o, p) <==> Belongs(roster, cfg, o, p)
  {
    PunchIs(cfg, p);
    NearestIs(roster, p.at, o.end);
  }

  lemma {:induction false} NearestIs(roster: Roster, t: int, end: int)
    ensures NearerThanAnyStart(roster, t, end)
            <==> forall day, w :: NearBy(roster, t, day, w) ==> t - end < Apart(t, w.start)
  {
    if NearerThanAnyStart(roster, t, end) {
      forall day, w | NearBy(roster, t, day, w) ensures t - end < Apart(t, w.start) {
        InAround(roster, t, day, w);
        assert (day, w) in Around(roster, t);
      }
    }
    if forall day, w :: NearBy(roster, t, day, w) ==> t - end < Apart(t, w.start) {
      forall x | x in Around(roster, t) ensures t - end < Abs(t - x.1.start) {
        assert x == (x.0, x.1);
        InAround(roster, t, x.0, x.1);
      }
    }
  }

  // ---------------------------------------------------------------- the search, written out

  lemma {:induction false} SoonIs(roster: Roster, cfg: Settings, p: Punch)
    ensures ArrivalSoon(roster, cfg, p) <==> StartsSoon(roster, cfg, p)
  {
    var list, d, t := CandidatesOf(roster), DayNo(p.at), p.at;
    PunchIs(cfg, p);
    DayIs(t);
    forall day ensures SoonOn(roster, day, t) <==> SoonIn(list(day), t) {
      SoonOnIs(roster, day, t);
    }
    SoonAmong(list, d, t);
  }

  ghost predicate SoonIn(ws: seq<Window>, t: int) { exists w :: w in ws && t < w.start <= t + 10_800_000 }

  lemma {:induction false} SoonOnIs(roster: Roster, day: int, t: int)
    ensures SoonOn(roster, day, t) <==> SoonIn(CandidatesOf(roster)(day), t)
  {
  }

  lemma {:induction false} SoonAmong(list: int -> seq<Window>, d: int, t: int)
    ensures StartsWithin(list, d, t) <==> exists day :: day in {d, d + 1} && SoonIn(list(day), t)
  {
    if day :| day in {d, d + 1} && SoonIn(list(day), t) {
      var w :| w in list(day) && t < w.start <= t + 10_800_000;
      assert w in list(d) + list(d + 1);
    }
    if StartsWithin(list, d, t) {
      var w :| w in list(d) + list(d + 1) && w.start > t && w.start - t <= 180 * MINUTE;
      var day := if w in list(d) then d else d + 1;
      assert day in {d, d + 1} && SoonIn(list(day), t);
    }
  }

  lemma {:induction false} LeftIs(groups: map<GroupKey, seq<Punch>>, day: int)
    ensures HasOut(groups, day) <==> HasLeft(groups, day)
  {
    if HasOut(groups, day) {
      var q :| q in groups[Day(day)] && IsOut(q);
      assert Departs(q);
    }
    if HasLeft(groups, day) {
      var q :| q in groups[Day(day)] && Departs(q);
      assert IsOut(q);
    }
  }

  /** Some window of the list ends then, before the bound. */
  ghost predicate Ends(ws: seq<Window>, bound: int, end: int) {
    end < bound && exists w :: w in ws && w.end == Some(end)
  }

  ghost predicate LastEnd(ws: seq<Window>, bound: int, best: Option<int>) {
    if best.None? then forall e :: !Ends(ws, bound, e)
    else Ends(ws, bound, best.value) && forall e :: Ends(ws, bound, e) ==> e <= best.value
  }

  lemma {:induction false} LatestEndIs(ws: seq<Window>, bound: int)
    ensures LastEnd(ws, bound, LatestEndBefore(ws, bound))
  {
    if |ws| > 0 {
      var front, w := ws[..|ws| - 1], ws[|ws| - 1];
      LatestEndIs(front, bound);
      assert ws == front + [w];
      LastEndAdds(front, w, bound, LatestEndBefore(front, bound), LatestEndBefore(ws, bound));
    }
  }

  lemma {:induction false} LastEndAdds(front: seq<Window>, w: Window, bound: int, best: Option<int>, next: Option<int>)
    requires LastEnd(front, bound, best)
    requires next == if w.end.Some? && w.end.value < bound && (best.None? || w.end.value > best.value) then w.end
             else best
    ensures LastEnd(front + [w], bound, next)
  {
    forall e ensures Ends(front + [w], bound, e) <==> Ends(front, bound, e) || (e < bound && w.end == Some(e)) {
      EndsAdds(front, w, bound, e);
    }
  }

  lemma {:induction false} EndsAdds(front: seq<Window>, w: Window, bound: int, e: int)
    ensures Ends(front + [w], bound, e) <==> Ends(front, bound, e) || (e < bound && w.end == Some(e))
  {
    if Ends(front, bound, e) {
      var v :| v in front && v.end == Some(e);
      assert v in front + [w];
    }
    assert w in front + [w];
  }

  lemma {:induction false} EndsIs(roster: Roster, start: int, end: int)
    ensures EndsBefore(roster, start, end) <==> Ends(DaysUpTo(CandidatesOf(roster), DayNo(start)), start, end)
  {
    var list, d := CandidatesOf(roster), DayNo(start);
    forall day ensures EndsOn(roster, day, end) <==> EndsIn(list(day), end) {
      EndsOnIs(roster, day, end);
    }
    EndsAmong(list, d, start, end);
  }

  ghost predicate EndsIn(ws: seq<Window>, end: int) { exists w :: w in ws && w.end == Some(end) }

  lemma {:induction false} EndsOnIs(roster: Roster, day: int, end: int)
    ensures EndsOn(roster, day, end) <==> EndsIn(CandidatesOf(roster)(day), end)
  {
  }

  lemma {:induction false} EndsAmong(list: int -> seq<Window>, d: int, start: int, end: int)
    ensures (end < start && exists day :: d - 2 <= day <= d && EndsIn(list(day), end))
            <==> Ends(DaysUpTo(list, d), start, end)
  {
    var ws := DaysUpTo(list, d);
    if day :| d - 2 <= day <= d && EndsIn(list(day), end) {
      var w :| w in list(day) && w.end == Some(end);
      InThree(list(d - 2), list(d - 1), list(d), w);
      assert w in ws;
    }
    if w :| w in ws && w.end == Some(end) {
      var day := if w in list(d - 2) then d - 2 else if w in list(d - 1) then d - 1 else d;
      InThree(list(d - 2), list(d - 1), list(d), w);
      assert w in list(day);
    }
  }

  lemma {:induction false} NearerIs(roster: Roster, start: int, t: int)
    ensures NearerStartThanPreviousEnd(roster, start, t) <==> NearerStart(roster, start, t)
  {
    var ws := DaysUpTo(CandidatesOf(roster), DayNo(start));
    DayIs(start);
    LatestEndIs(ws, start);
    forall e ensures EndsBefore(roster, start, e) <==> Ends(ws, start, e) {
      EndsIs(roster, start, e);
    }
    NearerAmong(roster, ws, start, t, LatestEndBefore(ws, start));
  }

  lemma {:induction false} NearerAmong(roster: Roster, ws: seq<Window>, start: int, t: int, prev: Option<int>)
    requires LastEnd(ws, start, prev) && forall e :: EndsBefore(roster, start, e) <==> Ends(ws, start, e)
    ensures prev.Some? && t > prev.value && start - t < t - prev.value <==> NearerStart(roster, start, t)
  {
    if NearerStart(roster, start, t) {
      var end :| EndsBefore(roster, start, end) && (forall o :: EndsBefore(roster, start, o) ==> o <= end)
                 && t > end && start - t < t - end;
      assert Ends(ws, start, end);
      assert prev.Some? && EndsBefore(roster, start, prev.value) && prev.value == end;
    }
    if prev.Some? && t > prev.value && start - t < t - prev.value {
      assert EndsBefore(roster, start, prev.value);
    }
  }

  lemma {:induction false} LeftOutIs(roster: Roster, cfg: Settings, groups: map<GroupKey, seq<Punch>>, p: Punch,
                                     x: (int, Window))
    ensures ArrivalSoon(roster, cfg, p) && x.1.start < p.at && HasOut(groups, x.0)
            <==> LeftOut(roster, cfg, groups, p, x)
  {
    SoonIs(roster, cfg, p);
    LeftIs(groups, x.0);
  }

  lemma {:induction false} MayOpenIs(roster: Roster, cfg: Settings, groups: map<GroupKey, seq<Punch>>, m: Memo,
                                     p: Punch, x: (int, Window))
    ensures Eligible(roster, cfg, groups, m, p, x) <==> MayOpen(roster, cfg, groups, m, p, x)
  {
    PunchIs(cfg, p);
    LeftOutIs(roster, cfg, groups, p, x);
    NearerIs(roster, x.1.start, p.at);
  }

  lemma {:induction false} FarIs(cfg: Settings, p: Punch, w: Window)
    requires w.end.Some?
    ensures Distance(cfg, p, w) == Far(cfg, p, w)
  {
    PunchIs(cfg, p);
  }

  lemma {:induction false} BoundsHold(roster: Roster, cfg: Settings, m: Memo)
    requires MemoHolds(roster, cfg, m)
    ensures Bounds(roster, cfg, m)
  {
    forall s | s in m.deadlines ensures StartBy(roster, cfg, s, m.deadlines[s]) {
      DeadlineIs(roster, cfg, s, m.deadlines[s]);
    }
    forall s | s in m.closeBounds ensures CloseBy(roster, s, m.closeBounds[s]) {
      CloseBoundIs(roster, s, m.closeBounds[s]);
    }
  }

  lemma {:induction false} DeadlineIs(roster: Roster, cfg: Settings, start: int, d: int)
    requires IsDeadline(roster, cfg, start, d)
    ensures StartBy(roster, cfg, start, d)
  {
    DayIs(start);
    var w :| w in Candidates(roster, DayOf(start)) && w.start == start && Full(w)
             && Deadline(roster, w, cfg.close) == d;
    BoundsAre(roster, w, cfg.close);
    assert IsAt(roster, start, w);
  }

  lemma {:induction false} CloseBoundIs(roster: Roster, start: int, b: int)
    requires IsCloseBound(roster, start, b)
    ensures CloseBy(roster, start, b)
  {
    DayIs(start);
    var w :| w in Candidates(roster, DayOf(start)) && w.start == start && Full(w) && CloseBound(roster, w) == b;
    BoundsAre(roster, w, 0);
    assert IsAt(roster, start, w);
  }

  lemma {:induction false} LookedIs(roster: Roster, cfg: Settings, groups: map<GroupKey, seq<Punch>>, m: Memo, p: Punch,
                                    xs: seq<(int, Window)>)
    requires MemoHolds(roster, cfg, m) && AllSettled(roster, cfg, groups, m, p, xs) && Listed(xs, roster, p.at)
    ensures Looked(roster, cfg, groups, m, p, xs)
  {
    BoundsHold(roster, cfg, m);
    PunchIs(cfg, p);
    forall j | 0 <= j < |xs| && xs[j].1.end.Some?
      ensures LeftOut(roster, cfg, groups, p, xs[j]) || Timed(cfg, m, p, xs[j].1)
    {
      assert xs[j] in xs;
      LeftOutIs(roster, cfg, groups, p, xs[j]);
    }
  }

  lemma {:induction false} PicksIs(roster: Roster, cfg: Settings, groups: map<GroupKey, seq<Punch>>, m: Memo, p: Punch,
                                   xs: seq<(int, Window)>, i: nat, best: Best)
    requires i < |xs| && IsBest(roster, cfg, groups, m, p, xs, i, best)
    ensures Picks(roster, cfg, groups, m, p, xs, i) && OpensAs(best.open, xs[i], m)
  {
    MayOpenIs(roster, cfg, groups, m, p, xs[i]);
    FarIs(cfg, p, xs[i].1);
    forall j | 0 <= j < |xs| && MayOpen(roster, cfg, groups, m, p, xs[j])
      ensures Far(cfg, p, xs[i].1) <= Far(cfg, p, xs[j].1) && (j < i ==> Far(cfg, p, xs[i].1) < Far(cfg, p, xs[j].1))
    {
      MayOpenIs(roster, cfg, groups, m, p, xs[j]);
      FarIs(cfg, p, xs[j].1);
      assert NotNearer(cfg, p, xs[j].1, best.distance, j < i);
    }
  }

  lemma {:induction false} NoneOpens(roster: Roster, cfg: Settings, groups: map<GroupKey, seq<Punch>>, m: Memo,
                                     p: Punch, xs: seq<(int, Window)>)
    requires Nearest(roster, cfg, groups, m, p, xs, None)
    ensures forall j :: 0 <= j < |xs| ==> !MayOpen(roster, cfg, groups, m, p, xs[j])
  {
    forall j | 0 <= j < |xs| ensures !MayOpen(roster, cfg, groups, m, p, xs[j]) {
      assert xs[j] in xs;
      MayOpenIs(roster, cfg, groups, m, p, xs[j]);
    }
  }

  lemma {:induction false} KnownIs(xs: seq<(int, Window)>)
    ensures (exists x :: x in xs && Full(x.1)) <==> exists j :: 0 <= j < |xs| && xs[j].1.end.Some?
  {
    if j :| 0 <= j < |xs| && xs[j].1.end.Some? {
      assert xs[j] in xs && Full(xs[j].1);
    }
  }

  lemma {:induction false} SearchIs(roster: Roster, cfg: Settings, w: Walk, m: Memo, p: Punch, best: Option<Best>,
                                    open: Option<Open>, key: GroupKey)
    requires Searched(roster, cfg, w.groups, m, p, Around(roster, p.at), best)
    requires Opens(roster, cfg, p, w.open.Some?, best, key, open)
    ensures SearchEnds(roster, cfg, w, m, p, Around(roster, p.at), open, key)
  {
    var xs := Around(roster, p.at);
    AroundListed(roster, p.at);
    LookedIs(roster, cfg, w.groups, m, p, xs);
    DayIs(p.at);
    PunchIs(cfg, p);
    if best.Some? {
      var i: nat :| i < |xs| && IsBest(roster, cfg, w.groups, m, p, xs, i, best.value);
      PicksIs(roster, cfg, w.groups, m, p, xs, i, best.value);
      assert OpensPicked(roster, cfg, w, m, p, xs, i, open, key);
    } else {
      NoneOpens(roster, cfg, w.groups, m, p, xs);
      KnownIs(xs);
    }
  }

  lemma {:induction false} TurnIs(roster: Roster, cfg: Settings, w: Walk, p: Punch, open: Option<Open>, memo: Memo,
                                  key: GroupKey)
    requires Turn(roster, cfg, w, p, open, memo, key)
    ensures Goes(roster, cfg, w, p, open, key)
  {
    RosterIs(roster);
    DayIs(p.at);
    if w.open.Some? {
      ClaimIs(roster, cfg, w.open.value, p);
    }
    if HasRoster(roster) && !(w.open.Some? && Claims(roster, cfg, w.open.value, p)) {
      var best :| Searched(roster, cfg, w.groups, memo, p, Around(roster, p.at), best)
                  && Opens(roster, cfg, p, w.open.Some?, best, key, open);
      SearchIs(roster, cfg, w, memo, p, best, open, key);
    }
  }

  // ---------------------------------------------------------------- re-keying, written out

  lemma {:induction false} TakeIs(cfg: Settings, m: Memo, p: Punch, x: (int, Window))
    ensures SplitFits(cfg, m, p, x) <==> MayTake(cfg, m, p, x.1)
    ensures SplitSettled(cfg, m, p, x) <==>
            (x.1.end.Some? && p.at >= x.1.start - cfg.tolerance ==> Timed(cfg, m, p, x.1))
    ensures Full(x.1) ==> SplitDistance(p, x.1) == FarFrom(p, x.1)
  {
    PunchIs(cfg, p);
  }

  lemma {:induction false} TakesIs(cfg: Settings, m: Memo, p: Punch, xs: seq<(int, Window)>, i: nat, distance: int)
    requires i < |xs| && SplitBest(cfg, m, p, xs, i, distance)
    ensures Takes(cfg, m, p, xs, i)
  {
    TakeIs(cfg, m, p, xs[i]);
    forall j | 0 <= j < |xs| && MayTake(cfg, m, p, xs[j].1)
      ensures FarFrom(p, xs[i].1) <= FarFrom(p, xs[j].1) && (j < i ==> FarFrom(p, xs[i].1) < FarFrom(p, xs[j].1))
    {
      TakeIs(cfg, m, p, xs[j]);
      assert SplitNotNearer(p, xs[j].1, distance, j < i);
    }
  }

  lemma {:induction false} SplitLookedIs(roster: Roster, cfg: Settings, m: Memo, p: Punch, xs: seq<(int, Window)>)
    requires MemoHolds(roster, cfg, m) && Listed(xs, roster, p.at) && forall x :: x in xs ==> SplitSettled(cfg, m, p, x)
    ensures SplitLooked(roster, cfg, m, p, xs)
  {
    BoundsHold(roster, cfg, m);
    forall j | 0 <= j < |xs| && xs[j].1.end.Some? && p.at >= xs[j].1.start - cfg.tolerance
      ensures Timed(cfg, m, p, xs[j].1)
    {
      assert xs[j] in xs;
      TakeIs(cfg, m, p, xs[j]);
    }
  }

  lemma {:induction false} SplitEndsIs(roster: Roster, cfg: Settings, m: Memo, p: Punch, xs: seq<(int, Window)>,
                                       first: GroupKey, nearest: Option<int>, key: GroupKey)
    requires MemoHolds(roster, cfg, m) && Listed(xs, roster, p.at)
    requires SplitSearched(cfg, m, p, xs, first, nearest, key)
    ensures SplitEnds(roster, cfg, m, p, xs, first, key)
  {
    SplitLookedIs(roster, cfg, m, p, xs);
    if nearest.Some? {
      var i: nat :| i < |xs| && SplitBest(cfg, m, p, xs, i, nearest.value) && key == Anchored(xs[i].0, xs[i].1.start);
      TakesIs(cfg, m, p, xs, i, nearest.value);
    } else {
      forall j | 0 <= j < |xs| ensures !MayTake(cfg, m, p, xs[j].1) {
        assert xs[j] in xs;
        TakeIs(cfg, m, p, xs[j]);
      }
    }
  }

  lemma {:induction false} RekeyIs(roster: Roster, cfg: Settings, m: Memo, p: Punch, first: GroupKey, key: GroupKey)
    requires MemoHolds(roster, cfg, m) && Rekeyed(roster, cfg, m, p, first, key)
    ensures SplitGoes(roster, cfg, p, first, key)
  {
    assert PatternOn(roster, first.day) == PatternFor(roster, first.day);
    if |PatternFor(roster, first.day).shifts| > 0 {
      var nearest :| SplitSearched(cfg, m, p, Around(roster, p.at), first, nearest, key);
      AroundListed(roster, p.at);
      SplitEndsIs(roster, cfg, m, p, Around(roster, p.at), first, nearest, key);
    }
  }

  // ---------------------------------------------------------------- one step and a whole walk

  lemma {:induction false} RegisterIs(roster: Roster, cfg: Settings, o: Open)
    requires OpenHolds(roster, cfg, o)
    ensures Registered(roster, cfg, o)
  {
    DayIs(o.start);
    DeadlineIs(roster, cfg, o.start, o.deadline);
    CloseBoundIs(roster, o.start, o.closeBound);
  }

  /** What `Place` does with one punch. */
  lemma {:induction false} PlaceIsStep(roster: Roster, cfg: Settings, w: Walk, p: Punch, next: Walk, key: GroupKey)
    requires WalkHolds(roster, cfg, w) && Placed(roster, cfg, w, p, next, key)
    ensures Step(roster, cfg, w, p, next, key)
  {
    PlacedHolds(roster, cfg, w, p, next, key);
    if next.open.Some? {
      RegisterIs(roster, cfg, next.open.value);
    }
    var memo, first :| Turn(roster, cfg, w, p, next.open, memo, first)
                       && Rekeyed(roster, cfg, next.memo, p, first, key);
    TurnIs(roster, cfg, w, p, next.open, memo, first);
    RekeyIs(roster, cfg, next.memo, p, first, key);
  }

  /**
   With no split shifts on the day of the shift in progress, the shift keeps the punches that belong to it, and is
   over exactly from its end on; every other punch is searched for.
   */
  lemma {:induction false} OpenShiftDecides(roster: Roster, cfg: Settings, w: Walk, p: Punch, next: Walk, key: GroupKey)
    requires WalkHolds(roster, cfg, w) && Placed(roster, cfg, w, p, next, key)
    requires Recognised(roster) && w.open.Some?
    requires |PatternFor(roster, w.open.value.day).shifts| == 0
    ensures Belongs(roster, cfg, w.open.value, p) ==>
              key == Day(w.open.value.day) && (next.open == None <==> p.at >= w.open.value.end)
              && (next.open.Some? ==> next.open == w.open)
    ensures !Belongs(roster, cfg, w.open.value, p) ==>
              exists first :: Searches(roster, cfg, w, p, next.open, first) && SplitGoes(roster, cfg, p, first, key)
  {
    PlaceIsStep(roster, cfg, w, p, next, key);
    var first :| Goes(roster, cfg, w, p, next.open, first) && SplitGoes(roster, cfg, p, first, key);
  }

  ghost predicate Steps(roster: Roster, cfg: Settings, ps: seq<Punch>, keys: seq<GroupKey>, walks: seq<Walk>) {
    && |keys| == |ps| && |walks| == |ps| + 1 && walks[0].open == None && walks[0].groups == map[]
    && forall i :: 0 <= i < |ps| ==> Step(roster, cfg, walks[i], ps[i], walks[i + 1], keys[i])
  }

  lemma {:induction false} WalkIsSteps(roster: Roster, cfg: Settings, ps: seq<Punch>, keys: seq<GroupKey>,
                                       walks: seq<Walk>)
    requires IsWalk(StepsOf(roster, cfg), ps, keys, walks)
    ensures Steps(roster, cfg, ps, keys, walks)
  {
    WalkStart(StepsOf(roster, cfg), ps, keys, walks);
    forall i | 0 <= i < |ps| ensures Step(roster, cfg, walks[i], ps[i], walks[i + 1], keys[i]) {
      WalkHoldsAt(roster, cfg, ps, keys, walks, i);
      WalkStep(StepsOf(roster, cfg), ps, keys, walks, i);
      PlaceIsStep(roster, cfg, walks[i], ps[i], walks[i + 1], keys[i]);
    }
  }

  // ---------------------------------------------------------------- the stream

  /** One press twice: the same device within the window, in the same direction or where directions are inferred. */
  ghost predicate Again(cfg: Settings, a: Punch, b: Punch) {
    && b.at <= a.at + cfg.dedupe && a.sn == b.sn
    && (a.status == b.status || (cfg.legacyInference && !a.directionVerified && !b.directionVerified))
  }

  ghost function AgainBy(cfg: Settings): (Punch, Punch) -> bool { (a, b) => Again(cfg, a, b) }

  lemma {:induction false} DedupeIs(cfg: Settings, ps: seq<Punch>) returns (places: seq<nat>)
    ensures Kept(Dedupe(cfg, ps), places, ps, AgainBy(cfg))
  {
    places := [];
    if |ps| > 0 {
      var n, front := |ps| - 1, ps[..|ps| - 1];
      assert ps == front + [ps[n]];
      var kept := Dedupe(cfg, front);
      places := DedupeIs(cfg, front);
      if |kept| > 0 && Again(cfg, kept[|kept| - 1], ps[n]) {
        KeptSkip(kept, places, front, ps[n], AgainBy(cfg));
      } else {
        KeptNext(kept, places, front, ps[n], AgainBy(cfg));
        places := places + [n];
      }
    }
  }

  /** The stream: the punches in time order, those of one time in their order, without repetitions. */
  ghost predicate StreamOf(stream: seq<Punch>, sorted: seq<Punch>, order: seq<nat>, places: seq<nat>, cfg: Settings,
                           punches: seq<Punch>) {
    && |order| == |sorted| == |punches|
    && (forall i :: 0 <= i < |sorted| ==> order[i] < |punches| && sorted[i] == punches[order[i]])
    && (forall i, j :: 0 <= i < j < |sorted| ==>
       order[i] != order[j] && Before(sorted[i], order[i], sorted[j], order[j]))
    && Kept(stream, places, sorted, AgainBy(cfg))
  }

  ghost predicate Before(a: Punch, i: nat, b: Punch, j: nat) { a.at < b.at || (a.at == b.at && i < j) }

  lemma {:induction false} StreamIs(cfg: Settings, punches: seq<Punch>) returns (order: seq<nat>, places: seq<nat>)
    ensures StreamOf(Dedupe(cfg, SortBy(punches, At)), SortBy(punches, At), order, places, cfg, punches)
  {
    order := SortIsStable(punches, At);
    places := DedupeIs(cfg, SortBy(punches, At));
    var sorted := SortBy(punches, At);
    forall i, j | 0 <= i < j < |sorted| ensures Before(sorted[i], order[i], sorted[j], order[j]) {
      assert At(sorted[i]) < At(sorted[j]) || (At(sorted[i]) == At(sorted[j]) && order[i] < order[j]);
    }
  }

  /** The sessions of a stream are those of a walk whose every step is one of the above. */
  lemma {:induction false} SessionsAreWalked(roster: Roster, cfg: Settings, stream: seq<Punch>,
                                             groups: map<GroupKey, seq<Punch>>)
      returns (keys: seq<GroupKey>, walks: seq<Walk>)
    requires Sessions(roster, cfg, stream, groups)
    ensures Steps(roster, cfg, stream, keys, walks) && walks[|stream|].groups == groups
    ensures Partitioned(groups, stream, keys)
  {
    keys, walks :| Session(StepsOf(roster, cfg), stream, groups, keys, walks);
    WalkIsSteps(roster, cfg, stream, keys, walks);
  }
}
