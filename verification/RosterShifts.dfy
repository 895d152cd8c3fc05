/**
 The shift windows a roster puts on a day (src/lib/attendanceShift.js, 4-58 and 83-105) and the latest
 check-out of a window (src/lib/shiftCheckout.js, 10-63). Times are milliseconds, days are day numbers
 since the epoch, clock times are minutes of a day as roster validation admits them.
 */
module RosterShifts {
  import opened Options
  import opened Sorting
  import opened Arithmetic
  import opened Checkout

  type Clock = m: int | 0 <= m < 1440

  datatype RawShift = RawShift(from: Option<Clock>, to: Option<Clock>, cutoffTime: Option<Clock>,
                               cutoffDayOffset: Option<int>)

  /** A rotation: its anchor day, its length, which shift each day takes, and its rest days. */
  datatype Cycle = Cycle(anchor: int, days: nat, sequence: Option<seq<Option<nat>>>, offIndex: set<int>)

  datatype Pattern = Pattern(
    shifts: seq<RawShift>, rotating: seq<RawShift>, cycle: Option<Cycle>, shiftByDay: map<int, RawShift>,
    shift: RawShift, scheduled: Option<bool>, offDays: set<int>)

  /** One pattern for every day, or a dated roster. */
  datatype Roster = Always(pattern: Pattern) | Dated(at: int -> Pattern)

  datatype Window = Window(start: int, end: Option<int>, cutoff: Option<int>)

  function PatternOn(roster: Roster, day: int): Pattern {
    if roster.Always? then roster.pattern else (roster.at)(day)
  }

  function DayOf(t: int): int { t / DAY }

  /** Monday is 1 and Sunday is 7; day 0 is a Thursday. */
  function IsoWeekday(day: int): int { (day + 3) % 7 + 1 }

  /** The latest check-out set on the roster; without a day offset it is the first such time after the start. */
  function CheckoutAt(raw: RawShift, day: int): Option<int> {
    if raw.cutoffTime.None? then None
    else
      var minutes: int := raw.cutoffTime.value;
      var start: int := if raw.from.Some? then raw.from.value else 0;
      var offset := raw.cutoffDayOffset.GetOr(if minutes <= start then 1 else 0);
      if offset != 0 && offset != 1 then None else Some((day + offset) * DAY + minutes * MINUTE)
  }

  function Build(raw: RawShift, day: int): Option<Window> {
    if raw.from.None? then None
    else
      var start := day * DAY + raw.from.value * MINUTE;
      var end :=
        if raw.to.None? then None
        else
          var e := day * DAY + raw.to.value * MINUTE;
          Some(if e <= start then e + DAY else e);
      Some(Window(start, end, CheckoutAt(raw, day)))
  }

  /** Windows of a list of raw shifts; those without a start, or if `full` without an end, drop out. */
  function BuildAll(raws: seq<RawShift>, day: int, full: bool): seq<Window> {
    if |raws| == 0 then []
    else
      var w := Build(raws[|raws| - 1], day);
      BuildAll(raws[..|raws| - 1], day, full) + (if w.Some? && (full ==> w.value.end.Some?) then [w.value] else [])
  }

  function StartOf(w: Window): int { w.start }

  function CycleIndex(cycle: Cycle, day: int): int
    requires cycle.days > 0
  {
    (day - cycle.anchor) % cycle.days
  }

  /** Every window the pattern can put on the day. */
  function ShiftCandidates(p: Pattern, day: int): seq<Window> {
    if |p.shifts| > 0 then
      SortBy(BuildAll(p.shifts, day, true), StartOf)
    else if |p.rotating| > 0 && p.cycle.Some? && p.cycle.value.sequence.Some? then
      var cycle, sequence := p.cycle.value, p.cycle.value.sequence.value;
      if cycle.days == 0 then []
      else
        var index := CycleIndex(cycle, day);
        if index >= |sequence| || sequence[index].None? || sequence[index].value >= |p.rotating| then []
        else BuildAll([p.rotating[sequence[index].value]], day, true)
    else if |p.rotating| > 0 then
      BuildAll(p.rotating, day, false)
    else
      var perDay := if IsoWeekday(day) in p.shiftByDay then BuildAll([p.shiftByDay[IsoWeekday(day)]], day, true)
                    else [];
      if |perDay| > 0 then perDay else BuildAll([p.shift], day, false)
  }

  function Candidates(roster: Roster, day: int): seq<Window> {
    ShiftCandidates(PatternOn(roster, day), day)
  }

  /** The windows actually scheduled: none on an off day or a rest day of the rotation. */
  function ScheduledShifts(p: Pattern, day: int): seq<Window> {
    if p.scheduled == Some(false) then []
    else if p.scheduled != Some(true) && IsoWeekday(day) in p.offDays then []
    else if p.scheduled != Some(true) && p.cycle.Some? && p.cycle.value.sequence.None? && p.cycle.value.days > 0
            && CycleIndex(p.cycle.value, day) in p.cycle.value.offIndex then []
    else ShiftCandidates(p, day)
  }

  function After(ws: seq<Window>, start: int): seq<Window> {
    if |ws| == 0 then []
    else After(ws[..|ws| - 1], start) + (if ws[|ws| - 1].start > start then [ws[|ws| - 1]] else [])
  }

  /** What the search for the next start finds on a day. */
  datatype Look = NotAssigned | Starts(at: int) | Nothing

  function LookOn(roster: Roster, day: int, start: int): Look {
    var p := PatternOn(roster, day);
    if |p.rotating| > 0 && (p.cycle.None? || p.cycle.value.sequence.None?) then NotAssigned
    else
      var next := SortBy(After(ScheduledShifts(p, day), start), StartOf);
      if |next| > 0 then Starts(next[0].start) else Nothing
  }

  /** The first start that is found, unless a day without an assigned shift comes before it. */
  function FirstStart(look: int -> Look, day: int, last: int): Option<int>
    decreases last - day
  {
    if day > last then None
    else match look(day)
         case NotAssigned => None
         case Starts(at) => Some(at)
         case Nothing => FirstStart(look, day + 1, last)
  }

  /** The first scheduled start after the given one, looking up to 370 days ahead. */
  function NextShiftStart(roster: Roster, start: int): Option<int> {
    FirstStart(day => LookOn(roster, day, start), DayOf(start), DayOf(start) + 370)
  }

  predicate Full(w: Window) { w.end.Some? }

  /** The latest moment a punch still belongs to the window; `leniency` applies when no later shift is rostered. */
  function Deadline(roster: Roster, w: Window, leniency: int): int
    requires Full(w)
  {
    BoundedCheckout(w.end.value, w.cutoff, NextShiftStart(roster, w.start), leniency, 300 * MINUTE)
  }

  /** How late a chosen check-out still closes the window. */
  function CloseBound(roster: Roster, w: Window): int
    requires Full(w)
  {
    var next := NextShiftStart(roster, w.start);
    if w.cutoff.Some? then w.cutoff.value
    else if next.Some? then Min(w.end.value + DAY, next.value - 1)
    else w.end.value + DAY
  }

  // ---------------------------------------------------------------- windows belong to their day

  lemma {:induction false} BuildAllStarts(raws: seq<RawShift>, day: int, full: bool, w: Window)
    requires w in BuildAll(raws, day, full)
    ensures day * DAY <= w.start < (day + 1) * DAY
    ensures w.end.Some? ==> w.start < w.end.value
  {
    if |raws| > 0 {
      var last := Build(raws[|raws| - 1], day);
      if w in BuildAll(raws[..|raws| - 1], day, full) {
        BuildAllStarts(raws[..|raws| - 1], day, full, w);
      }
    }
  }

  /** A window starts on the day it is listed for and has positive length. */
  lemma {:induction false} CandidateStartsOnDay(roster: Roster, day: int, w: Window)
    requires w in Candidates(roster, day)
    ensures DayOf(w.start) == day
    ensures w.end.Some? ==> w.start < w.end.value
  {
    var p := PatternOn(roster, day);
    if |p.shifts| > 0 {
      SortBySorts(BuildAll(p.shifts, day, true), StartOf);
      BuildAllStarts(p.shifts, day, true, w);
    } else if |p.rotating| > 0 && p.cycle.Some? && p.cycle.value.sequence.Some? {
      var sequence := p.cycle.value.sequence.value;
      var index := CycleIndex(p.cycle.value, day);
      BuildAllStarts([p.rotating[sequence[index].value]], day, true, w);
    } else if |p.rotating| > 0 {
      BuildAllStarts(p.rotating, day, false, w);
    } else if IsoWeekday(day) in p.shiftByDay && |BuildAll([p.shiftByDay[IsoWeekday(day)]], day, true)| > 0 {
      BuildAllStarts([p.shiftByDay[IsoWeekday(day)]], day, true, w);
    } else {
      BuildAllStarts([p.shift], day, false, w);
    }
    DayOfStart(w.start, day);
  }

  lemma {:induction false} DayOfStart(t: int, day: int)
    requires day * DAY <= t < (day + 1) * DAY
    ensures DayOf(t) == day
  {
  }
}
