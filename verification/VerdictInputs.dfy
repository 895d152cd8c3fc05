/**
 Which scans a verdict is reached on, and in what form (src/lib/attendanceEvaluator.js, 64-80, 137-151 and 204-217).
 */
module VerdictInputs {
  import opened Options
  import opened Arithmetic
  import opened Checkout
  import opened Sorting
  import opened StableSort
  import opened Subsequences
  import opened Pairing
  import opened Verdict

  // ---------------------------------------------------------------- the latest check-out

  /**
   Chosen by the employee, before the next start, within a day of the end, and with no latest check-out on the roster.
   */
  ghost predicate Chosen(s: Scan, q: Request) {
    && s.punch.dir == Out && !s.inferred && q.duty.shift.end.Some? && q.duty.checkoutCutoff == None
    && s.punch.timestamp < q.duty.shift.end.value + 86_400_000
    && (q.duty.nextShiftStart.Some? ==> s.punch.timestamp < q.duty.nextShiftStart.value)
  }

  /** After the latest check-out, and not chosen. */
  ghost predicate Beyond(s: Scan, q: Request, due: Option<int>) {
    due.Some? && s.punch.timestamp > due.value && !Chosen(s, q)
  }

  ghost function OnSide(q: Request, due: Option<int>, beyond: bool): Scan -> bool {
    s => Beyond(s, q, due) == beyond
  }

  /** The scans on one side of the latest check-out, in their order. */
  ghost predicate SideOf(part: seq<Scan>, places: seq<nat>, q: Request, due: Option<int>, beyond: bool) {
    Sifted(part, places, q.punches, OnSide(q, due, beyond))
  }

  lemma {:induction false} OutsideIs(s: Scan, q: Request, due: Option<int>)
    ensures IsOutside(s, q.duty, due) <==> Beyond(s, q, due)
  {
  }

  lemma {:induction false} FilterIs(q: Request, punches: seq<Scan>, due: Option<int>, beyond: bool)
      returns (places: seq<nat>)
    ensures Sifted(Filter(punches, q.duty, due, beyond), places, punches, OnSide(q, due, beyond))
  {
    places := [];
    if |punches| > 0 {
      var n := |punches| - 1;
      places := FilterIs(q, punches[..n], due, beyond);
      OutsideIs(punches[n], q, due);
      assert punches == punches[..n] + [punches[n]];
      var part := Filter(punches[..n], q.duty, due, beyond);
      assert part + [] == part;
      SiftedNext(part, places, punches[..n], punches[n], OnSide(q, due, beyond));
      if Beyond(punches[n], q, due) == beyond {
        places := places + [n];
      }
    }
  }

  // ---------------------------------------------------------------- directions and order

  /** A direction counts if the device is trusted or the employee verified it. */
  ghost predicate Trusts(trusted: seq<Scan>, scans: seq<Scan>, rules: Rules) {
    && |trusted| == |scans|
    && forall i :: 0 <= i < |scans| ==>
         trusted[i] == if rules.trustDeviceDirection || scans[i].directionVerified then scans[i]
                       else scans[i].(punch := scans[i].punch.(dir := Unknown))
  }

  /** By time, and scans of one time in the order in which they came. */
  ghost predicate InTime(sorted: seq<Scan>, places: seq<nat>, scans: seq<Scan>) {
    && |places| == |sorted| == |scans|
    && (forall i :: 0 <= i < |sorted| ==> places[i] < |scans| && sorted[i] == scans[places[i]])
    && (forall i, j :: 0 <= i < j < |sorted| ==>
          && places[i] != places[j]
          && (sorted[i].punch.timestamp < sorted[j].punch.timestamp
              || (sorted[i].punch.timestamp == sorted[j].punch.timestamp && places[i] < places[j])))
  }

  /** The same direction, device and site, within the window to the nearest minute. */
  ghost predicate Same(a: Scan, b: Scan, window: int) {
    && a.punch.dir == b.punch.dir && a.sn == b.sn && a.punch.siteId == b.punch.siteId
    && b.punch.timestamp - a.punch.timestamp < window * 60_000 + 30_000
  }

  ghost function SameWithin(window: int): (Scan, Scan) -> bool { (a, b) => Same(a, b, window) }

  lemma {:induction false} SameIs(a: Scan, b: Scan, window: int)
    ensures Repeats(a, b, window) <==> Same(a, b, window)
  {
    var d := TimeOf(b) - TimeOf(a);
    assert (d + MINUTE / 2) / MINUTE <= window <==> d + MINUTE / 2 < (window + 1) * MINUTE;
  }

  lemma {:induction false} CollapseIs(sorted: seq<Scan>, window: int) returns (places: seq<nat>)
    ensures Kept(Collapse(sorted, window), places, sorted, SameWithin(window))
  {
    places := [];
    if |sorted| > 0 {
      var n, front := |sorted| - 1, sorted[..|sorted| - 1];
      assert sorted == front + [sorted[n]];
      var kept := Collapse(front, window);
      places := CollapseIs(front, window);
      if |kept| > 0 { SameIs(kept[|kept| - 1], sorted[n], window); }
      if |kept| > 0 && Same(kept[|kept| - 1], sorted[n], window) {
        KeptSkip(kept, places, front, sorted[n], SameWithin(window));
      } else {
        KeptNext(kept, places, front, sorted[n], SameWithin(window));
        places := places + [n];
      }
    }
  }

  /**
   Directions as they are, unless there is none at all: then the first scan is an arrival and the last a departure.
   */
  ghost predicate Directs(ps: seq<Punch>, kept: seq<Scan>) {
    && |ps| == |kept|
    && if exists i :: 0 <= i < |kept| && kept[i].punch.dir != Unknown then
         forall i :: 0 <= i < |ps| ==> ps[i] == kept[i].punch
       else
         forall i :: 0 <= i < |ps| ==>
           ps[i] == kept[i].punch.(dir := if i == 0 then In else if i == |ps| - 1 then Out else Unknown)
  }

  lemma {:induction false} InferIs(kept: seq<Scan>)
    ensures Directs(Infer(PunchesOf(kept)), kept)
  {
    var ps := PunchesOf(kept);
    assert forall i :: 0 <= i < |kept| ==> ps[i] == kept[i].punch;
    if i :| 0 <= i < |kept| && kept[i].punch.dir != Unknown {
      assert ps[i].dir != Unknown;
    }
  }

  // ---------------------------------------------------------------- from scans to punches

  datatype Cleaning = Cleaning(inside: seq<Scan>, trusted: seq<Scan>, sorted: seq<Scan>, kept: seq<Scan>,
                               sides: seq<nat>, order: seq<nat>, places: seq<nat>)

  /** The punches are the scans before the latest check-out, trusted, in order, without repetitions, directed. */
  ghost predicate Cleans(ps: seq<Punch>, c: Cleaning, q: Request, due: Option<int>) {
    && SideOf(c.inside, c.sides, q, due, false) && Trusts(c.trusted, c.inside, q.rules)
    && InTime(c.sorted, c.order, c.trusted)
    && Kept(c.kept, c.places, c.sorted, SameWithin(q.rules.duplicatePunchWindowMin.GetOr(5))) && Directs(ps, c.kept)
  }

  lemma {:induction false} SortedInTime(scans: seq<Scan>) returns (order: seq<nat>)
    ensures InTime(SortBy(scans, TimeOf), order, scans)
  {
    order := SortIsStable(scans, TimeOf);
    var sorted := SortBy(scans, TimeOf);
    forall i, j | 0 <= i < j < |sorted|
      ensures sorted[i].punch.timestamp < sorted[j].punch.timestamp
              || (sorted[i].punch.timestamp == sorted[j].punch.timestamp && order[i] < order[j])
    {
      assert TimeOf(sorted[i]) < TimeOf(sorted[j]) || (TimeOf(sorted[i]) == TimeOf(sorted[j]) && order[i] < order[j]);
    }
  }

  /** A verdict is reached on the cleaned scans, and keeps the ones beyond the latest check-out. */
  lemma {:induction false} PunchesAreCleaned(q: Request) returns (c: Cleaning, beyond: seq<nat>)
    ensures Cleans(Punched(q), c, q, ShiftDeadline(q.duty, q.rules))
    ensures SideOf(Outside(q), beyond, q, ShiftDeadline(q.duty, q.rules), true)
  {
    var due := ShiftDeadline(q.duty, q.rules);
    var inside := Filter(q.punches, q.duty, due, false);
    var sides := FilterIs(q, q.punches, due, false);
    beyond := FilterIs(q, q.punches, due, true);
    c := InsideIsCleaned(inside, q.rules);
    c := c.(sides := sides);
  }

  lemma {:induction false} InsideIsCleaned(inside: seq<Scan>, rules: Rules) returns (c: Cleaning)
    ensures c.inside == inside && Trusts(c.trusted, c.inside, rules) && InTime(c.sorted, c.order, c.trusted)
    ensures Kept(c.kept, c.places, c.sorted, SameWithin(rules.duplicatePunchWindowMin.GetOr(5)))
    ensures Directs(Cleaned(inside, rules), c.kept)
  {
    var trusted := Trusted(inside, rules.trustDeviceDirection);
    var sorted := SortBy(trusted, TimeOf);
    var order := SortedInTime(trusted);
    var window := rules.duplicatePunchWindowMin.GetOr(5);
    var places := CollapseIs(sorted, window);
    InferIs(Collapse(sorted, window));
    c := Cleaning(inside, trusted, sorted, Collapse(sorted, window), [], order, places);
  }
}
