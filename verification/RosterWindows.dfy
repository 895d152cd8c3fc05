/**
 The windows of a roster, the next start after a window and the bounds that follow from it, said of clock times
 (src/lib/attendanceShift.js, 4-58 and 83-105, and src/lib/shiftCheckout.js, 10-20 and 54-65).
 */
module RosterWindows {
  import opened Options
  import opened Arithmetic
  import opened Sorting
  import opened StableSort
  import opened Checkout
  import opened RosterShifts

  // ---------------------------------------------------------------- one window

  /** Milliseconds of a clock time of a day. */
  ghost function TimeOn(day: int, clock: Clock): int { day * 86_400_000 + clock * 60_000 }

  /** The end is at the clock time of the same day, or of the next day unless that is after the start. */
  ghost predicate EndIs(end: Option<int>, raw: RawShift, day: int)
    requires raw.from.Some?
  {
    if raw.to.None? then end == None
    else end == Some(TimeOn(if raw.to.value > raw.from.value then day else day + 1, raw.to.value))
  }

  /**
   The latest check-out: on the day of its offset, or else at the first such time after the start; no other offset
   counts.
   */
  ghost predicate CutoffIs(cutoff: Option<int>, raw: RawShift, day: int)
    requires raw.from.Some?
  {
    if raw.cutoffTime.None? then cutoff == None
    else
      match raw.cutoffDayOffset
      case None =>
        cutoff == Some(TimeOn(if raw.cutoffTime.value > raw.from.value then day else day + 1, raw.cutoffTime.value))
      case Some(n) => cutoff == if n == 0 || n == 1 then Some(TimeOn(day + n, raw.cutoffTime.value)) else None
  }

  ghost predicate WindowOf(w: Window, raw: RawShift, day: int) {
    raw.from.Some? && w.start == TimeOn(day, raw.from.value) && EndIs(w.end, raw, day) && CutoffIs(w.cutoff, raw, day)
  }

  /** A shift that gives a window: it has a start, and an end where one is asked for. */
  ghost predicate Gives(raw: RawShift, full: bool) { raw.from.Some? && (full ==> raw.to.Some?) }

  /** The windows of the shifts that give one, in their order. */
  ghost predicate WindowsOf(ws: seq<Window>, places: seq<nat>, raws: seq<RawShift>, day: int, full: bool) {
    && |places| == |ws| && (forall i, j :: 0 <= i < j < |places| ==> places[i] < places[j])
    && (forall k :: 0 <= k < |ws| ==> places[k] < |raws| && WindowOf(ws[k], raws[places[k]], day))
    && (forall i: nat :: i in places <==> i < |raws| && Gives(raws[i], full))
  }

  lemma {:induction false} BuildIs(raw: RawShift, day: int)
    ensures Build(raw, day).Some? <==> raw.from.Some?
    ensures raw.from.Some? ==> WindowOf(Build(raw, day).value, raw, day)
    ensures raw.from.Some? ==> (Build(raw, day).value.end.Some? <==> raw.to.Some?)
  {
    if raw.from.Some? && raw.to.Some? {
      ClockOrder(day, raw.to.value, raw.from.value);
    }
  }

  lemma {:induction false} ClockOrder(day: int, a: Clock, b: Clock)
    ensures day * DAY + a * MINUTE <= day * DAY + b * MINUTE <==> a <= b
    ensures TimeOn(day + 1, a) == day * DAY + a * MINUTE + DAY
  {
  }

  lemma {:induction false} BuildAllIs(raws: seq<RawShift>, day: int, full: bool) returns (places: seq<nat>)
    ensures WindowsOf(BuildAll(raws, day, full), places, raws, day, full)
  {
    places := [];
    if |raws| > 0 {
      var n, front := |raws| - 1, raws[..|raws| - 1];
      assert raws == front + [raws[n]];
      var ws := BuildAll(front, day, full);
      places := BuildAllIs(front, day, full);
      BuildIs(raws[n], day);
      if Gives(raws[n], full) {
        WindowsNext(ws, places, front, raws[n], day, full, Build(raws[n], day).value);
        places := places + [n];
      } else {
        assert ws + [] == ws;
        WindowsSkip(ws, places, front, raws[n], day, full);
      }
    }
  }

  lemma {:induction false} WindowsNext(ws: seq<Window>, places: seq<nat>, front: seq<RawShift>, raw: RawShift, day: int,
                                       full: bool, w: Window)
    requires WindowsOf(ws, places, front, day, full) && Gives(raw, full) && WindowOf(w, raw, day)
    ensures WindowsOf(ws + [w], places + [|front|], front + [raw], day, full)
  {
    var all, raws := places + [|front|], front + [raw];
    assert forall k :: 0 <= k < |places| ==> places[k] in places;
    forall i: nat ensures i in all <==> i < |raws| && Gives(raws[i], full) {
      assert i in all <==> i in places || i == |front|;
    }
  }

  lemma {:induction false} WindowsSkip(ws: seq<Window>, places: seq<nat>, front: seq<RawShift>, raw: RawShift, day: int,
                                       full: bool)
    requires WindowsOf(ws, places, front, day, full) && !Gives(raw, full)
    ensures WindowsOf(ws, places, front + [raw], day, full)
  {
    assert forall k :: 0 <= k < |places| ==> places[k] in places;
  }

  // ---------------------------------------------------------------- the windows of a day

  /** The pattern of the roster on the day. */
  ghost function PatternFor(roster: Roster, day: int): Pattern {
    match roster
    case Always(p) => p
    case Dated(at) => at(day)
  }

  /** By start, and windows of one start in their order. */
  ghost predicate ByStart(sorted: seq<Window>, order: seq<nat>, ws: seq<Window>) {
    && |order| == |sorted| == |ws|
    && (forall i :: 0 <= i < |sorted| ==> order[i] < |ws| && sorted[i] == ws[order[i]])
    && (forall i, j :: 0 <= i < j < |sorted| ==>
          && order[i] != order[j]
          && (sorted[i].start < sorted[j].start || (sorted[i].start == sorted[j].start && order[i] < order[j])))
  }

  /** The rotation's shift of the day, if there is one. */
  ghost predicate TurnsTo(p: Pattern, day: int, k: nat) {
    && p.cycle.Some? && p.cycle.value.sequence.Some? && p.cycle.value.days > 0 && k < |p.rotating|
    && (exists i: nat, round: int ::
          InRound(p.cycle.value, day, round, i) && i < |p.cycle.value.sequence.value|
          && p.cycle.value.sequence.value[i] == Some(k))
  }

  /** The day is the i-th of a round of the rotation, counted from its anchor. */
  ghost predicate InRound(cycle: Cycle, day: int, round: int, i: nat) {
    i < cycle.days && day - cycle.anchor == round * cycle.days + i
  }

  /** Monday is 1, Sunday 7. */
  ghost predicate WeekdayIs(day: int, weekday: int) {
    1 <= weekday <= 7 && exists week: int :: day == 7 * week + weekday - 4
  }

  datatype Listing = Listing(unsorted: seq<Window>, places: seq<nat>, order: seq<nat>, shift: Option<nat>)

  /**
   Several shifts of a day come by start; a rotation gives its shift of the day; else the weekday's or the one shift.
   */
  ghost predicate WindowsOn(ws: seq<Window>, p: Pattern, day: int, l: Listing) {
    if |p.shifts| > 0 then WindowsOf(l.unsorted, l.places, p.shifts, day, true) && ByStart(ws, l.order, l.unsorted)
    else if |p.rotating| > 0 then
      if p.cycle.Some? && p.cycle.value.sequence.Some? then
        if l.shift.Some? then
          TurnsTo(p, day, l.shift.value) && WindowsOf(ws, l.places, [p.rotating[l.shift.value]], day, true)
        else ws == [] && forall k: nat :: !TurnsTo(p, day, k)
      else WindowsOf(ws, l.places, p.rotating, day, false)
    else
      exists weekday :: WeekdayIs(day, weekday) &&
        if weekday in p.shiftByDay && Gives(p.shiftByDay[weekday], true)
        then WindowsOf(ws, l.places, [p.shiftByDay[weekday]], day, true)
        else WindowsOf(ws, l.places, [p.shift], day, false)
  }

  lemma {:induction false} WeekdayOf(day: int)
    ensures WeekdayIs(day, IsoWeekday(day))
  {
    assert day == 7 * ((day + 3) / 7) + IsoWeekday(day) - 4;
  }

  lemma {:induction false} SameDivision(n: int, a: int, i: int, b: int, j: int)
    requires n > 0 && 0 <= i < n && 0 <= j < n && a * n + i == b * n + j
    ensures i == j
  {
    assert (a - b) * n == j - i;
    NoSmallMultiple(a - b, n);
  }

  lemma {:induction false} RotationIs(p: Pattern, day: int, k: nat)
    requires p.cycle.Some? && p.cycle.value.sequence.Some? && p.cycle.value.days > 0
    ensures var i := CycleIndex(p.cycle.value, day);
            TurnsTo(p, day, k) <==>
              i < |p.cycle.value.sequence.value| && p.cycle.value.sequence.value[i] == Some(k) && k < |p.rotating|
  {
    var n, t := p.cycle.value.days, day - p.cycle.value.anchor;
    var i := CycleIndex(p.cycle.value, day);
    assert t == (t / n) * n + i;
    assert InRound(p.cycle.value, day, t / n, i);
    if TurnsTo(p, day, k) {
      var x: nat, round: int :| InRound(p.cycle.value, day, round, x) && x < |p.cycle.value.sequence.value|
                                && p.cycle.value.sequence.value[x] == Some(k);
      SameDivision(n, t / n, i, round, x);
    }
  }

  lemma {:induction false} RotationOn(p: Pattern, day: int) returns (l: Listing)
    requires |p.shifts| == 0 && |p.rotating| > 0 && p.cycle.Some? && p.cycle.value.sequence.Some?
    ensures WindowsOn(ShiftCandidates(p, day), p, day, l)
  {
    l := Listing([], [], [], None);
    var cycle, sequence := p.cycle.value, p.cycle.value.sequence.value;
    if cycle.days > 0 {
      var index := CycleIndex(cycle, day);
      forall k: nat
        ensures TurnsTo(p, day, k) <==> index < |sequence| && sequence[index] == Some(k) && k < |p.rotating|
      {
        RotationIs(p, day, k);
      }
      if index < |sequence| && sequence[index].Some? && sequence[index].value < |p.rotating| {
        var places := BuildAllIs([p.rotating[sequence[index].value]], day, true);
        l := Listing([], places, [], sequence[index]);
      }
    }
  }

  lemma {:induction false} OneWindow(raw: RawShift, day: int, full: bool)
    ensures |BuildAll([raw], day, full)| > 0 <==> Gives(raw, full)
  {
    var raws := [raw];
    assert raws[..|raws| - 1] == [];
    BuildIs(raw, day);
  }

  /** The windows of a day are those of the roster's pattern. */
  lemma {:induction false} CandidatesAre(roster: Roster, day: int) returns (l: Listing)
    ensures WindowsOn(Candidates(roster, day), PatternFor(roster, day), day, l)
  {
    var p := PatternFor(roster, day);
    assert PatternOn(roster, day) == p;
    if |p.shifts| > 0 {
      l := SplitOn(p, day);
    } else if |p.rotating| > 0 && p.cycle.Some? && p.cycle.value.sequence.Some? {
      l := RotationOn(p, day);
    } else if |p.rotating| > 0 {
      var places := BuildAllIs(p.rotating, day, false);
      l := Listing([], places, [], None);
    } else {
      l := SingleOn(p, day);
    }
  }

  lemma {:induction false} SplitOn(p: Pattern, day: int) returns (l: Listing)
    requires |p.shifts| > 0
    ensures WindowsOn(ShiftCandidates(p, day), p, day, l)
  {
    var unsorted := BuildAll(p.shifts, day, true);
    var places := BuildAllIs(p.shifts, day, true);
    var order := SortIsStable(unsorted, StartOf);
    var sorted := SortBy(unsorted, StartOf);
    forall i, j | 0 <= i < j < |sorted|
      ensures sorted[i].start < sorted[j].start || (sorted[i].start == sorted[j].start && order[i] < order[j])
    {
      assert StartOf(sorted[i]) < StartOf(sorted[j])
             || (StartOf(sorted[i]) == StartOf(sorted[j]) && order[i] < order[j]);
    }
    l := Listing(unsorted, places, order, None);
  }

  lemma {:induction false} SingleOn(p: Pattern, day: int) returns (l: Listing)
    requires |p.shifts| == 0 && |p.rotating| == 0
    ensures WindowsOn(ShiftCandidates(p, day), p, day, l)
  {
    var weekday := IsoWeekday(day);
    WeekdayOf(day);
    if weekday in p.shiftByDay {
      OneWindow(p.shiftByDay[weekday], day, true);
    }
    if weekday in p.shiftByDay && Gives(p.shiftByDay[weekday], true) {
      var places := BuildAllIs([p.shiftByDay[weekday]], day, true);
      l := Listing([], places, [], None);
    } else {
      var places := BuildAllIs([p.shift], day, false);
      l := Listing([], places, [], None);
    }
  }

  // ---------------------------------------------------------------- the next start and the bounds of a window

  /** The pattern gives the employee the day off. */
  ghost predicate OffOn(p: Pattern, day: int) {
    || p.scheduled == Some(false)
    || (p.scheduled != Some(true) && exists weekday :: WeekdayIs(day, weekday) && weekday in p.offDays)
    || (p.scheduled != Some(true) && p.cycle.Some? && p.cycle.value.sequence.None? && p.cycle.value.days > 0
        && exists i: nat, round: int :: InRound(p.cycle.value, day, round, i) && i in p.cycle.value.offIndex)
  }

  /** Alternatives that no rotation tells apart assign no shift. */
  ghost predicate Unassigned(p: Pattern) {
    |p.rotating| > 0 && (p.cycle.None? || p.cycle.value.sequence.None?)
  }

  /** The day has a scheduled start after the given one. */
  ghost predicate StartsOn(roster: Roster, day: int, after: int, start: int) {
    start > after && !OffOn(PatternFor(roster, day), day)
    && exists w :: w in Candidates(roster, day) && w.start == start
  }

  /** Nothing starts on the day, and the search may go on. */
  ghost predicate Idle(roster: Roster, day: int, after: int) {
    !Unassigned(PatternFor(roster, day)) && forall s :: !StartsOn(roster, day, after, s)
  }

  /** Nothing starts on the days before the given one, and the search goes on. */
  ghost predicate IdleUntil(roster: Roster, from: int, to: int, after: int) {
    forall day :: from <= day < to ==> Idle(roster, day, after)
  }

  /**
   The first scheduled start after the given one, looking from one day to another, and not beyond a day without an
   assigned shift.
   */
  ghost predicate NextIs(roster: Roster, after: int, from: int, last: int, next: Option<int>) {
    if next.Some? then
      exists day :: from <= day <= last && FirstOn(roster, day, after, next.value)
        && IdleUntil(roster, from, day, after)
    else
      || IdleUntil(roster, from, last + 1, after)
      || exists day :: from <= day <= last && Unassigned(PatternFor(roster, day)) && IdleUntil(roster, from, day, after)
  }

  /** Looking from the day of the start, 370 days ahead. */
  ghost predicate NextShift(roster: Roster, start: int, next: Option<int>) {
    NextIs(roster, start, start / 86_400_000, start / 86_400_000 + 370, next)
  }

  /** The earliest start of an assigned day. */
  ghost predicate FirstOn(roster: Roster, day: int, after: int, next: int) {
    && !Unassigned(PatternFor(roster, day)) && StartsOn(roster, day, after, next)
    && forall s :: StartsOn(roster, day, after, s) ==> next <= s
  }

  lemma {:induction false} OffIs(p: Pattern, day: int)
    ensures OffOn(p, day) ==> ScheduledShifts(p, day) == []
    ensures !OffOn(p, day) ==> ScheduledShifts(p, day) == ShiftCandidates(p, day)
  {
    WeekdayOf(day);
    forall weekday | WeekdayIs(day, weekday) ensures weekday == IsoWeekday(day) {
      OneWeekday(day, weekday);
    }
    if p.cycle.Some? && p.cycle.value.days > 0 {
      var n, t, i := p.cycle.value.days, day - p.cycle.value.anchor, CycleIndex(p.cycle.value, day);
      assert t == (t / n) * n + i;
      assert InRound(p.cycle.value, day, t / n, i);
      forall x: nat, round: int | InRound(p.cycle.value, day, round, x) ensures x == i {
        SameDivision(n, t / n, i, round, x);
      }
    }
  }

  lemma {:induction false} OneWeekday(day: int, weekday: int)
    requires WeekdayIs(day, weekday)
    ensures weekday == IsoWeekday(day)
  {
  }

  lemma {:induction false} AfterIs(ws: seq<Window>, start: int)
    ensures forall w :: w in After(ws, start) <==> w in ws && w.start > start
  {
    if |ws| > 0 {
      AfterIs(ws[..|ws| - 1], start);
      assert ws == ws[..|ws| - 1] + [ws[|ws| - 1]];
    }
  }

  /** The scheduled starts of a day, sorted. */
  lemma {:induction false} StartsAre(roster: Roster, day: int, after: int)
    ensures var next := SortBy(After(ScheduledShifts(PatternOn(roster, day), day), after), StartOf);
            && (|next| == 0 <==> forall s :: !StartsOn(roster, day, after, s))
            && (|next| > 0 ==> StartsOn(roster, day, after, next[0].start)
                               && forall s :: StartsOn(roster, day, after, s) ==> next[0].start <= s)
  {
    var p := PatternOn(roster, day);
    assert p == PatternFor(roster, day);
    OffIs(p, day);
    var scheduled := ScheduledShifts(p, day);
    var next := SortBy(After(scheduled, after), StartOf);
    AfterIs(scheduled, after);
    SortBySorts(After(scheduled, after), StartOf);
    StartsMembers(roster, day, after, next);
  }

  lemma {:induction false} StartsMembers(roster: Roster, day: int, after: int, next: seq<Window>)
    requires SortedBy(next, StartOf)
    requires forall w :: w in next <==>
               !OffOn(PatternFor(roster, day), day) && w in Candidates(roster, day) && w.start > after
    ensures |next| == 0 <==> forall s :: !StartsOn(roster, day, after, s)
    ensures |next| > 0 ==> StartsOn(roster, day, after, next[0].start)
                           && forall s :: StartsOn(roster, day, after, s) ==> next[0].start <= s
  {
    if |next| > 0 {
      assert next[0] in next;
      assert StartsOn(roster, day, after, next[0].start);
    }
    forall s | StartsOn(roster, day, after, s) ensures |next| > 0 && next[0].start <= s {
      var w :| w in Candidates(roster, day) && w.start == s;
      assert w in next;
      var i :| 0 <= i < |next| && next[i] == w;
      assert StartOf(next[0]) <= StartOf(next[i]);
    }
  }

  /** What is found on a day is what starts on it. */
  lemma {:induction false} LookIs(roster: Roster, day: int, after: int)
    ensures match LookOn(roster, day, after)
            case NotAssigned => Unassigned(PatternFor(roster, day))
            case Starts(at) => FirstOn(roster, day, after, at)
            case Nothing => Idle(roster, day, after)
  {
    StartsAre(roster, day, after);
    assert PatternOn(roster, day) == PatternFor(roster, day);
  }

  ghost predicate Looks(look: int -> Look, roster: Roster, after: int) {
    forall day :: match look(day)
                  case NotAssigned => Unassigned(PatternFor(roster, day))
                  case Starts(at) => FirstOn(roster, day, after, at)
                  case Nothing => Idle(roster, day, after)
  }

  lemma {:induction false} FirstStartIs(look: int -> Look, roster: Roster, after: int, day: int, last: int)
    requires Looks(look, roster, after)
    ensures NextIs(roster, after, day, last, FirstStart(look, day, last))
    decreases last - day
  {
    if day > last {
      NothingAfter(roster, after, day, last);
    } else {
      match look(day)
      case NotAssigned => NextBlocked(roster, after, day, last);
      case Starts(at) => NextFound(roster, after, day, last, at);
      case Nothing =>
        FirstStartIs(look, roster, after, day + 1, last);
        LaterNext(roster, after, day, last, FirstStart(look, day + 1, last));
    }
  }

  lemma {:induction false} NextShiftIs(roster: Roster, start: int)
    ensures NextShift(roster, start, NextShiftStart(roster, start))
  {
    var look := day => LookOn(roster, day, start);
    forall day
      ensures match look(day)
              case NotAssigned => Unassigned(PatternFor(roster, day))
              case Starts(at) => FirstOn(roster, day, start, at)
              case Nothing => Idle(roster, day, start)
    {
      LookIs(roster, day, start);
    }
    FirstStartIs(look, roster, start, DayOf(start), DayOf(start) + 370);
  }

  lemma {:induction false} NothingAfter(roster: Roster, after: int, day: int, last: int)
    requires day > last
    ensures NextIs(roster, after, day, last, None)
  {
  }

  lemma {:induction false} NextBlocked(roster: Roster, after: int, day: int, last: int)
    requires day <= last && Unassigned(PatternFor(roster, day))
    ensures NextIs(roster, after, day, last, None)
  {
    assert IdleUntil(roster, day, day, after);
  }

  lemma {:induction false} NextFound(roster: Roster, after: int, day: int, last: int, s: int)
    requires day <= last && FirstOn(roster, day, after, s)
    ensures NextIs(roster, after, day, last, Some(s))
  {
    assert IdleUntil(roster, day, day, after);
  }

  lemma {:induction false} IdleFrom(roster: Roster, day: int, to: int, after: int)
    requires Idle(roster, day, after) && IdleUntil(roster, day + 1, to, after)
    ensures IdleUntil(roster, day, to, after)
  {
  }

  lemma {:induction false} LaterNext(roster: Roster, after: int, day: int, last: int, next: Option<int>)
    requires Idle(roster, day, after) && NextIs(roster, after, day + 1, last, next)
    ensures NextIs(roster, after, day, last, next)
  {
    if next.Some? {
      var n :| day + 1 <= n <= last && FirstOn(roster, n, after, next.value) && IdleUntil(roster, day + 1, n, after);
      IdleFrom(roster, day, n, after);
    } else if IdleUntil(roster, day + 1, last + 1, after) {
      IdleFrom(roster, day, last + 1, after);
    } else {
      var n :| day + 1 <= n <= last && Unassigned(PatternFor(roster, n)) && IdleUntil(roster, day + 1, n, after);
      IdleFrom(roster, day, n, after);
    }
  }

  /** What bounds a punch of the window: its latest check-out, the next shift, and the time allowed after its end. */
  ghost predicate DeadlineOf(roster: Roster, w: Window, leniency: int, d: int)
    requires w.end.Some?
  {
    exists next :: NextShift(roster, w.start, next)
      && d == BoundedCheckout(w.end.value, w.cutoff, next, leniency, 18_000_000)
  }

  /** How late a chosen check-out may be: the latest check-out, or until the next start and for a day at most. */
  ghost predicate CloseBoundOf(roster: Roster, w: Window, b: int)
    requires w.end.Some?
  {
    exists next :: NextShift(roster, w.start, next) &&
      if w.cutoff.Some? then b == w.cutoff.value
      else if next.Some? && next.value - 1 < w.end.value + 86_400_000 then b == next.value - 1
      else b == w.end.value + 86_400_000
  }

  lemma {:induction false} BoundsAre(roster: Roster, w: Window, leniency: int)
    requires w.end.Some?
    ensures DeadlineOf(roster, w, leniency, Deadline(roster, w, leniency))
    ensures CloseBoundOf(roster, w, CloseBound(roster, w))
  {
    NextShiftIs(roster, w.start);
  }
}
