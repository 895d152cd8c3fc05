/**
 The part every punch plays in its shift, and the pairing that follows from the parts (src/lib/attendanceIntervals.js,
 12-51).
 */
module PairingRoles {
  import opened Options
  import opened Arithmetic
  import opened Pairing

  datatype Role = Opens | Repeats | Closes | Extends | Unmatched | Undirected

  // ---------------------------------------------------------------- the parts

  ghost function InstantOf(p: Punch): int { if p.occurredAt.Some? then p.occurredAt.value else p.timestamp }

  /** b is later than a, on the clock and in fact. */
  ghost predicate Later(a: Punch, b: Punch) { b.timestamp > a.timestamp && InstantOf(b) > InstantOf(a) }

  ghost predicate Departs(r: Role) { r == Closes || r == Extends }

  /** The arrival at k is open before i. */
  ghost predicate OpenFrom(roles: seq<Role>, i: nat, k: nat) {
    k < i <= |roles| && roles[k] == Opens && forall j :: k < j < i ==> roles[j] != Closes && roles[j] != Opens
  }

  ghost predicate IsOpen(roles: seq<Role>, i: nat) { exists k: nat :: OpenFrom(roles, i, k) }

  /** The departure at e is the last one before i. */
  ghost predicate LeftAt(roles: seq<Role>, i: nat, e: nat) {
    e < i <= |roles| && Departs(roles[e]) && forall j :: e < j < i ==> !Departs(roles[j])
  }

  /** An arrival opens the shift or is a repetition; a departure closes it, further it, or has nothing to match. */
  ghost predicate PlaysPart(ps: seq<Punch>, roles: seq<Role>, i: nat)
    requires i < |ps| && i <= |roles|
  {
    i < |roles| &&
    match ps[i].dir
    case Unknown => roles[i] == Undirected
    case In => roles[i] == if IsOpen(roles, i) then Repeats else Opens
    case Out =>
      if IsOpen(roles, i) then
        exists k: nat :: OpenFrom(roles, i, k) && k < |ps| && roles[i] == if Later(ps[k], ps[i]) then Closes
          else Unmatched
      else roles[i] == if ExtendsLast(ps, roles, i) then Extends else Unmatched
  }

  ghost predicate ExtendsLast(ps: seq<Punch>, roles: seq<Role>, i: nat)
    requires i < |ps|
  {
    exists e: nat :: LeftAt(roles, i, e) && Later(ps[e], ps[i])
  }

  ghost predicate Parts(ps: seq<Punch>, roles: seq<Role>) {
    |roles| == |ps| && forall i :: 0 <= i < |ps| ==> PlaysPart(ps, roles, i)
  }

  // ---------------------------------------------------------------- the pairing of the parts

  /** The mark that a part leaves. */
  ghost function MarkOf(r: Role, p: Punch): seq<Mark> {
    match r
    case Repeats => [Mark(RepeatedIn, p.timestamp)]
    case Extends => [Mark(ExtraOut, p.timestamp)]
    case Unmatched => [Mark(UnmatchedOut, p.timestamp)]
    case _ => []
  }

  ghost function MarksOf(ps: seq<Punch>, roles: seq<Role>): seq<Mark>
    requires |roles| == |ps|
  {
    if |ps| == 0 then []
    else MarksOf(ps[..|ps| - 1], roles[..|ps| - 1]) + MarkOf(roles[|ps| - 1], ps[|ps| - 1])
  }

  ghost function IssuesOf(ps: seq<Punch>, roles: seq<Role>): seq<int>
    requires |roles| == |ps|
  {
    if |ps| == 0 then []
    else IssuesOf(ps[..|ps| - 1], roles[..|ps| - 1])
         + (if roles[|ps| - 1] == Undirected then [ps[|ps| - 1].timestamp] else [])
  }

  /** The interval from an arrival to a departure, with the sites and events of both. */
  ghost predicate Between(x: Interval, a: Punch, b: Punch) {
    && x.start == a.timestamp && x.end == b.timestamp
    && x.occurredStart == InstantOf(a) && x.occurredEnd == InstantOf(b)
    && x.fromSiteId == a.siteId && x.toSiteId == b.siteId && x.inEventId == a.eventId && x.outEventId == b.eventId
    && x.elapsed == (if InstantOf(b) > InstantOf(a) then InstantOf(b) - InstantOf(a) else 0)
  }

  /** Each interval reaches from an arrival that opened a shift to the last departure of that shift. */
  ghost predicate Stretches(intervals: seq<Interval>, ps: seq<Punch>, roles: seq<Role>, opens: seq<nat>, ends: seq<nat>)
    requires |roles| == |ps|
  {
    && |opens| == |ends| == |intervals| && AllReach(intervals, ps, roles, opens, ends) && InTurn(opens, ends)
    && AllWithin(roles, opens, ends) && AllOpened(roles, opens)
  }

  ghost predicate AllReach(intervals: seq<Interval>, ps: seq<Punch>, roles: seq<Role>, opens: seq<nat>, ends: seq<nat>)
    requires |roles| == |ps| && |opens| == |ends| == |intervals|
  {
    forall j :: 0 <= j < |intervals| ==> Reaches(intervals[j], ps, roles, opens[j], ends[j])
  }

  ghost predicate InTurn(opens: seq<nat>, ends: seq<nat>)
    requires |opens| == |ends|
  {
    forall j :: 0 < j < |opens| ==> ends[j - 1] < opens[j]
  }

  ghost predicate Reaches(x: Interval, ps: seq<Punch>, roles: seq<Role>, o: nat, e: nat)
    requires |roles| == |ps|
  {
    o < e < |ps| && roles[o] == Opens && Departs(roles[e]) && Between(x, ps[o], ps[e])
  }

  /** Every departure belongs to an interval. */
  ghost predicate AllWithin(roles: seq<Role>, opens: seq<nat>, ends: seq<nat>)
    requires |opens| == |ends|
  {
    forall x: nat :: x < |roles| && Departs(roles[x]) ==> Within(x, opens, ends)
  }

  /** Every arrival that opened a shift starts an interval or is still open. */
  ghost predicate AllOpened(roles: seq<Role>, opens: seq<nat>) {
    forall x: nat :: x < |roles| && roles[x] == Opens ==> x in opens || OpenFrom(roles, |roles|, x)
  }

  ghost predicate Within(x: nat, opens: seq<nat>, ends: seq<nat>)
    requires |opens| == |ends|
  {
    exists j :: 0 <= j < |opens| && opens[j] < x <= ends[j]
  }

  ghost predicate OpenIs(open: Option<Punch>, ps: seq<Punch>, roles: seq<Role>)
    requires |roles| == |ps|
  {
    if open.Some? then exists k: nat :: OpenFrom(roles, |ps|, k) && open == Some(ps[k]) else !IsOpen(roles, |ps|)
  }

  /** The last interval ends with the last departure. */
  ghost predicate EndIs(intervals: seq<Interval>, roles: seq<Role>, ends: seq<nat>) {
    if |intervals| > 0 then |ends| == |intervals| && LeftAt(roles, |roles|, ends[|ends| - 1])
    else forall e :: 0 <= e < |roles| ==> !Departs(roles[e])
  }

  ghost predicate PairingOf(r: Pairing, ps: seq<Punch>, roles: seq<Role>, opens: seq<nat>, ends: seq<nat>)
    requires |roles| == |ps|
  {
    && r.marks == MarksOf(ps, roles) && r.issues == IssuesOf(ps, roles)
    && Stretches(r.intervals, ps, roles, opens, ends) && OpenIs(r.open, ps, roles) && EndIs(r.intervals, roles, ends)
  }

  // ---------------------------------------------------------------- one more punch

  lemma {:induction false} OpenSnoc(roles: seq<Role>, r: Role, k: nat)
    ensures OpenFrom(roles + [r], |roles| + 1, k) <==>
              (k == |roles| && r == Opens) || (OpenFrom(roles, |roles|, k) && r != Closes && r != Opens)
  {
    var all := roles + [r];
    assert all[|roles|] == r && forall j :: 0 <= j < |roles| ==> all[j] == roles[j];
  }

  lemma {:induction false} LeftSnoc(roles: seq<Role>, r: Role, e: nat)
    ensures LeftAt(roles + [r], |roles| + 1, e) <==>
              (e == |roles| && Departs(r)) || (LeftAt(roles, |roles|, e) && !Departs(r))
  {
    var all := roles + [r];
    assert all[|roles|] == r && forall j :: 0 <= j < |roles| ==> all[j] == roles[j];
  }

  lemma {:induction false} PartsBefore(roles: seq<Role>, r: Role, i: nat, k: nat)
    requires i <= |roles|
    ensures OpenFrom(roles + [r], i, k) <==> OpenFrom(roles, i, k)
    ensures LeftAt(roles + [r], i, k) <==> LeftAt(roles, i, k)
  {
    assert forall j :: 0 <= j < |roles| ==> (roles + [r])[j] == roles[j];
  }

  lemma {:induction false} PartsSnoc(ps: seq<Punch>, roles: seq<Role>, p: Punch, r: Role)
    requires Parts(ps, roles) && PlaysPart(ps + [p], roles + [r], |ps|)
    ensures Parts(ps + [p], roles + [r])
  {
    forall i | 0 <= i < |ps| + 1 ensures PlaysPart(ps + [p], roles + [r], i) {
      if i < |ps| {
        StillPlays(ps, roles, p, r, i);
      }
    }
  }

  lemma {:induction false} StillPlays(ps: seq<Punch>, roles: seq<Role>, p: Punch, r: Role, i: nat)
    requires |roles| == |ps| && i < |ps| && PlaysPart(ps, roles, i)
    ensures PlaysPart(ps + [p], roles + [r], i)
  {
    forall k: nat
      ensures OpenFrom(roles + [r], i, k) <==> OpenFrom(roles, i, k)
      ensures LeftAt(roles + [r], i, k) <==> LeftAt(roles, i, k)
    {
      PartsBefore(roles, r, i, k);
    }
    assert IsOpen(roles + [r], i) <==> IsOpen(roles, i);
    assert forall j :: 0 <= j < |ps| ==> (ps + [p])[j] == ps[j];
    if ps[i].dir == Out && IsOpen(roles, i) {
      var k: nat :| OpenFrom(roles, i, k) && k < |ps| && roles[i] == if Later(ps[k], ps[i]) then Closes else Unmatched;
      assert OpenFrom(roles + [r], i, k);
    } else if ps[i].dir == Out {
      SameExtension(ps, roles, p, r, i);
    }
  }

  lemma {:induction false} SameExtension(ps: seq<Punch>, roles: seq<Role>, p: Punch, r: Role, i: nat)
    requires |roles| == |ps| && i < |ps|
    ensures ExtendsLast(ps + [p], roles + [r], i) <==> ExtendsLast(ps, roles, i)
  {
    assert forall j :: 0 <= j < |ps| ==> (ps + [p])[j] == ps[j];
    forall e: nat ensures LeftAt(roles + [r], i, e) <==> LeftAt(roles, i, e) {
      PartsBefore(roles, r, i, e);
    }
    if ExtendsLast(ps, roles, i) {
      var e: nat :| LeftAt(roles, i, e) && Later(ps[e], ps[i]);
      assert LeftAt(roles + [r], i, e);
    }
  }

  lemma {:induction false} NotesSnoc(ps: seq<Punch>, roles: seq<Role>, p: Punch, r: Role)
    requires |roles| == |ps|
    ensures MarksOf(ps + [p], roles + [r]) == MarksOf(ps, roles) + MarkOf(r, p)
    ensures IssuesOf(ps + [p], roles + [r]) == IssuesOf(ps, roles) + (if r == Undirected then [p.timestamp] else [])
  {
    assert (ps + [p])[..|ps|] == ps && (roles + [r])[..|roles|] == roles;
  }

  /** No departure counts while an arrival is open. */
  ghost predicate OpenLast(roles: seq<Role>, ends: seq<nat>) {
    forall k: nat :: OpenFrom(roles, |roles|, k) && |ends| > 0 ==> ends[|ends| - 1] < k
  }

  ghost predicate Shaped(intervals: seq<Interval>, open: Option<Punch>, ps: seq<Punch>, roles: seq<Role>,
                         opens: seq<nat>, ends: seq<nat>) {
    && |roles| == |ps| && Stretches(intervals, ps, roles, opens, ends) && OpenIs(open, ps, roles)
    && EndIs(intervals, roles, ends) && OpenLast(roles, ends)
  }

  lemma {:induction false} OneOpen(roles: seq<Role>, i: nat, k: nat, x: nat)
    requires OpenFrom(roles, i, k) && OpenFrom(roles, i, x)
    ensures k == x
  {
  }

  lemma {:induction false} OneLeft(roles: seq<Role>, i: nat, e: nat, x: nat)
    requires LeftAt(roles, i, e) && LeftAt(roles, i, x)
    ensures e == x
  {
  }

  lemma {:induction false} ReachesOn(x: Interval, ps: seq<Punch>, roles: seq<Role>, o: nat, e: nat, p: Punch, r: Role)
    requires |roles| == |ps| && Reaches(x, ps, roles, o, e)
    ensures Reaches(x, ps + [p], roles + [r], o, e)
  {
    assert (ps + [p])[o] == ps[o] && (ps + [p])[e] == ps[e];
    assert (roles + [r])[o] == roles[o] && (roles + [r])[e] == roles[e];
  }

  lemma {:induction false} AllReachOn(intervals: seq<Interval>, ps: seq<Punch>, roles: seq<Role>, opens: seq<nat>,
                                      ends: seq<nat>, p: Punch, r: Role)
    requires |roles| == |ps| && |opens| == |ends| == |intervals| && AllReach(intervals, ps, roles, opens, ends)
    ensures AllReach(intervals, ps + [p], roles + [r], opens, ends)
  {
    forall j | 0 <= j < |intervals| ensures Reaches(intervals[j], ps + [p], roles + [r], opens[j], ends[j]) {
      ReachesOn(intervals[j], ps, roles, opens[j], ends[j], p, r);
    }
  }

  lemma {:induction false} AllReachMore(intervals: seq<Interval>, ps: seq<Punch>, roles: seq<Role>, opens: seq<nat>,
                                        ends: seq<nat>, x: Interval, o: nat, e: nat)
    requires |roles| == |ps| && |opens| == |ends| == |intervals| && AllReach(intervals, ps, roles, opens, ends)
    requires Reaches(x, ps, roles, o, e)
    ensures AllReach(intervals + [x], ps, roles, opens + [o], ends + [e])
  {
  }

  lemma {:induction false} AllReachWith(intervals: seq<Interval>, ps: seq<Punch>, roles: seq<Role>, opens: seq<nat>,
                                        ends: seq<nat>, n: nat, x: Interval, e: nat)
    requires |roles| == |ps| && |opens| == |ends| == |intervals| && AllReach(intervals, ps, roles, opens, ends)
    requires n < |intervals| && Reaches(x, ps, roles, opens[n], e)
    ensures AllReach(intervals[n := x], ps, roles, opens, ends[n := e])
  {
  }

  lemma {:induction false} WithinOn(roles: seq<Role>, opens: seq<nat>, ends: seq<nat>, r: Role)
    requires |opens| == |ends| && AllWithin(roles, opens, ends) && !Departs(r)
    ensures AllWithin(roles + [r], opens, ends)
  {
    assert forall j :: 0 <= j < |roles| ==> (roles + [r])[j] == roles[j];
  }

  lemma {:induction false} OpenedOn(roles: seq<Role>, opens: seq<nat>, r: Role)
    requires AllOpened(roles, opens) && (r == Opens || r == Closes ==> !IsOpen(roles, |roles|))
    ensures AllOpened(roles + [r], opens)
  {
    var all := roles + [r];
    assert forall j :: 0 <= j < |roles| ==> all[j] == roles[j];
    forall x: nat | x < |all| && all[x] == Opens ensures x in opens || OpenFrom(all, |all|, x) {
      OpenSnoc(roles, r, x);
    }
  }

  /** Intervals that are there stay as they are, whatever comes after them. */
  lemma {:induction false} StretchesQuiet(intervals: seq<Interval>, ps: seq<Punch>, roles: seq<Role>, opens: seq<nat>,
                                          ends: seq<nat>, p: Punch, r: Role)
    requires |roles| == |ps| && Stretches(intervals, ps, roles, opens, ends) && !Departs(r)
    requires r == Opens ==> !IsOpen(roles, |roles|)
    ensures Stretches(intervals, ps + [p], roles + [r], opens, ends)
  {
    AllReachOn(intervals, ps, roles, opens, ends, p, r);
    WithinOn(roles, opens, ends, r);
    OpenedOn(roles, opens, r);
  }

  lemma {:induction false} OpenQuiet(open: Option<Punch>, ps: seq<Punch>, roles: seq<Role>, ends: seq<nat>, p: Punch,
                                     r: Role)
    requires |roles| == |ps| && OpenIs(open, ps, roles) && OpenLast(roles, ends) && r != Opens && r != Closes
    ensures OpenIs(open, ps + [p], roles + [r]) && OpenLast(roles + [r], ends)
  {
    var qs, all := ps + [p], roles + [r];
    forall k: nat ensures OpenFrom(all, |all|, k) <==> OpenFrom(roles, |roles|, k) {
      OpenSnoc(roles, r, k);
    }
    if open.Some? {
      var k: nat :| OpenFrom(roles, |ps|, k) && open == Some(ps[k]);
      assert OpenFrom(all, |qs|, k) && qs[k] == ps[k];
    }
  }

  lemma {:induction false} EndQuiet(intervals: seq<Interval>, roles: seq<Role>, ends: seq<nat>, r: Role)
    requires EndIs(intervals, roles, ends) && !Departs(r)
    ensures EndIs(intervals, roles + [r], ends)
  {
    var all := roles + [r];
    assert forall j :: 0 <= j < |roles| ==> all[j] == roles[j];
    if |intervals| > 0 {
      LeftSnoc(roles, r, ends[|ends| - 1]);
    }
  }

  /** A punch that is only noted. */
  lemma {:induction false} ShapedQuiet(intervals: seq<Interval>, open: Option<Punch>, ps: seq<Punch>, roles: seq<Role>,
                                       opens: seq<nat>, ends: seq<nat>, p: Punch, r: Role)
    requires Shaped(intervals, open, ps, roles, opens, ends) && (r == Repeats || r == Unmatched || r == Undirected)
    ensures Shaped(intervals, open, ps + [p], roles + [r], opens, ends)
  {
    StretchesQuiet(intervals, ps, roles, opens, ends, p, r);
    OpenQuiet(open, ps, roles, ends, p, r);
    EndQuiet(intervals, roles, ends, r);
  }

  lemma {:induction false} OpenNew(ps: seq<Punch>, roles: seq<Role>, ends: seq<nat>, p: Punch)
    requires |roles| == |ps| && forall j :: 0 <= j < |ends| ==> ends[j] < |ps|
    ensures OpenIs(Some(p), ps + [p], roles + [Opens]) && OpenLast(roles + [Opens], ends)
  {
    var qs, all := ps + [p], roles + [Opens];
    OpenSnoc(roles, Opens, |ps|);
    assert OpenFrom(all, |qs|, |ps|) && qs[|ps|] == p;
    forall k: nat | OpenFrom(all, |all|, k) ensures k == |ps| {
      OpenSnoc(roles, Opens, k);
    }
  }

  lemma {:induction false} EndsBelow(intervals: seq<Interval>, ps: seq<Punch>, roles: seq<Role>, opens: seq<nat>,
                                     ends: seq<nat>)
    requires |roles| == |ps| && Stretches(intervals, ps, roles, opens, ends)
    ensures forall j :: 0 <= j < |ends| ==> ends[j] < |ps|
  {
    forall j | 0 <= j < |ends| ensures ends[j] < |ps| {
      assert Reaches(intervals[j], ps, roles, opens[j], ends[j]);
    }
  }

  /** An arrival that opens the shift. */
  lemma {:induction false} ShapedOpens(intervals: seq<Interval>, open: Option<Punch>, ps: seq<Punch>, roles: seq<Role>,
                                       opens: seq<nat>, ends: seq<nat>, p: Punch)
    requires Shaped(intervals, open, ps, roles, opens, ends) && !IsOpen(roles, |roles|)
    ensures Shaped(intervals, Some(p), ps + [p], roles + [Opens], opens, ends)
  {
    StretchesQuiet(intervals, ps, roles, opens, ends, p, Opens);
    EndQuiet(intervals, roles, ends, Opens);
    EndsBelow(intervals, ps, roles, opens, ends);
    OpenNew(ps, roles, ends, p);
  }

  lemma {:induction false} NoneOpen(ps: seq<Punch>, roles: seq<Role>, p: Punch, ends: seq<nat>)
    requires |roles| == |ps|
    ensures OpenIs(None, ps + [p], roles + [Closes]) && OpenLast(roles + [Closes], ends)
  {
    var all := roles + [Closes];
    forall k: nat ensures !OpenFrom(all, |all|, k) {
      OpenSnoc(roles, Closes, k);
    }
  }

  lemma {:induction false} EndNew(intervals: seq<Interval>, roles: seq<Role>, ends: seq<nat>, r: Role)
    requires |ends| == |intervals| > 0 && Departs(r) && ends[|ends| - 1] == |roles|
    ensures EndIs(intervals, roles + [r], ends)
  {
    LeftSnoc(roles, r, |roles|);
  }

  lemma {:induction false} WithinMore(roles: seq<Role>, opens: seq<nat>, ends: seq<nat>, k: nat)
    requires |opens| == |ends| && AllWithin(roles, opens, ends) && k < |roles|
    ensures AllWithin(roles + [Closes], opens + [k], ends + [|roles|])
  {
    var all, os, es := roles + [Closes], opens + [k], ends + [|roles|];
    assert forall j :: 0 <= j < |roles| ==> all[j] == roles[j];
    forall y: nat | y < |all| && Departs(all[y]) ensures Within(y, os, es) {
      if y < |roles| {
        assert Within(y, opens, ends);
        var j :| 0 <= j < |opens| && opens[j] < y <= ends[j];
        assert os[j] < y <= es[j];
      } else {
        assert os[|opens|] < y <= es[|opens|];
      }
    }
  }

  lemma {:induction false} OpenedMore(roles: seq<Role>, opens: seq<nat>, k: nat)
    requires AllOpened(roles, opens) && OpenFrom(roles, |roles|, k)
    ensures AllOpened(roles + [Closes], opens + [k])
  {
    var all, os := roles + [Closes], opens + [k];
    assert forall j :: 0 <= j < |roles| ==> all[j] == roles[j];
    forall y: nat | y < |all| && all[y] == Opens ensures y in os {
      assert os[|opens|] == k;
      if y !in opens {
        OneOpen(roles, |roles|, k, y);
      } else {
        InMore(opens, k, y);
      }
    }
  }

  lemma {:induction false} StretchesCloses(intervals: seq<Interval>, ps: seq<Punch>, roles: seq<Role>, opens: seq<nat>,
                                           ends: seq<nat>, p: Punch, k: nat, x: Interval)
    requires |roles| == |ps| && Stretches(intervals, ps, roles, opens, ends) && OpenFrom(roles, |roles|, k)
    requires OpenLast(roles, ends) && Between(x, ps[k], p)
    ensures Stretches(intervals + [x], ps + [p], roles + [Closes], opens + [k], ends + [|ps|])
  {
    AllReachOn(intervals, ps, roles, opens, ends, p, Closes);
    assert (ps + [p])[k] == ps[k] && (roles + [Closes])[k] == roles[k];
    AllReachMore(intervals, ps + [p], roles + [Closes], opens, ends, x, k, |ps|);
    WithinMore(roles, opens, ends, k);
    OpenedMore(roles, opens, k);
  }

  lemma {:induction false} InMore(xs: seq<nat>, k: nat, y: nat)
    requires y in xs
    ensures y in xs + [k]
  {
  }

  /** A departure that closes the shift. */
  lemma {:induction false} ShapedCloses(intervals: seq<Interval>, open: Option<Punch>, ps: seq<Punch>, roles: seq<Role>,
                                        opens: seq<nat>, ends: seq<nat>, p: Punch, k: nat, x: Interval)
    requires Shaped(intervals, open, ps, roles, opens, ends)
    requires OpenFrom(roles, |roles|, k) && Between(x, ps[k], p)
    ensures Shaped(intervals + [x], None, ps + [p], roles + [Closes], opens + [k], ends + [|ps|])
  {
    StretchesCloses(intervals, ps, roles, opens, ends, p, k, x);
    NoneOpen(ps, roles, p, ends + [|ps|]);
    EndNew(intervals + [x], roles, ends + [|ps|], Closes);
  }

  lemma {:induction false} WithinFurther(roles: seq<Role>, opens: seq<nat>, ends: seq<nat>)
    requires |opens| == |ends| > 0 && AllWithin(roles, opens, ends)
    requires opens[|opens| - 1] < ends[|ends| - 1] < |roles|
    ensures AllWithin(roles + [Extends], opens, ends[|ends| - 1 := |roles|])
  {
    var n := |ends| - 1;
    var all, es := roles + [Extends], ends[n := |roles|];
    assert forall j :: 0 <= j < |roles| ==> all[j] == roles[j];
    forall y: nat | y < |all| && Departs(all[y]) ensures Within(y, opens, es) {
      if y < |roles| {
        assert Within(y, opens, ends);
        var j :| 0 <= j < |opens| && opens[j] < y <= ends[j];
        assert opens[j] < y <= es[j];
      } else {
        assert opens[n] < y <= es[n];
      }
    }
  }

  lemma {:induction false} ReachesFurther(x: Interval, ps: seq<Punch>, roles: seq<Role>, o: nat, e: nat, p: Punch)
    requires |roles| == |ps| && Reaches(x, ps, roles, o, e)
    ensures Reaches(Extend(x, p), ps + [p], roles + [Extends], o, |ps|)
  {
    assert (ps + [p])[o] == ps[o] && (roles + [Extends])[o] == roles[o];
  }

  lemma {:induction false} StretchesExtends(intervals: seq<Interval>, ps: seq<Punch>, roles: seq<Role>,
                                            opens: seq<nat>, ends: seq<nat>, p: Punch)
    requires |roles| == |ps| && Stretches(intervals, ps, roles, opens, ends) && |intervals| > 0
    requires !IsOpen(roles, |roles|)
    ensures var n := |intervals| - 1;
            Stretches(intervals[n := Extend(intervals[n], p)], ps + [p], roles + [Extends], opens, ends[n := |ps|])
  {
    var n := |intervals| - 1;
    assert Reaches(intervals[n], ps, roles, opens[n], ends[n]);
    ReachesFurther(intervals[n], ps, roles, opens[n], ends[n], p);
    AllReachOn(intervals, ps, roles, opens, ends, p, Extends);
    AllReachWith(intervals, ps + [p], roles + [Extends], opens, ends, n, Extend(intervals[n], p), |ps|);
    WithinFurther(roles, opens, ends);
    OpenedOn(roles, opens, Extends);
  }

  lemma {:induction false} OpenNone(ps: seq<Punch>, roles: seq<Role>, p: Punch, ends: seq<nat>)
    requires |roles| == |ps| && !IsOpen(roles, |roles|)
    ensures OpenIs(None, ps + [p], roles + [Extends]) && OpenLast(roles + [Extends], ends)
  {
    var all := roles + [Extends];
    forall k: nat ensures !OpenFrom(all, |all|, k) {
      OpenSnoc(roles, Extends, k);
    }
  }

  /** A departure after the shift was closed. */
  lemma {:induction false} ShapedExtends(intervals: seq<Interval>, ps: seq<Punch>, roles: seq<Role>, opens: seq<nat>,
                                         ends: seq<nat>, p: Punch)
    requires Shaped(intervals, None, ps, roles, opens, ends) && |intervals| > 0
    ensures var n := |intervals| - 1;
            Shaped(intervals[n := Extend(intervals[n], p)], None, ps + [p], roles + [Extends], opens, ends[n := |ps|])
  {
    var n := |intervals| - 1;
    StretchesExtends(intervals, ps, roles, opens, ends, p);
    OpenNone(ps, roles, p, ends[n := |ps|]);
    EndNew(intervals[n := Extend(intervals[n], p)], roles, ends[n := |ps|], Extends);
  }

  lemma {:induction false} OpenBefore(ps: seq<Punch>, roles: seq<Role>, p: Punch, r: Role)
    requires |roles| == |ps|
    ensures IsOpen(roles + [r], |ps|) <==> IsOpen(roles, |ps|)
    ensures forall k: nat :: OpenFrom(roles + [r], |ps|, k) <==> OpenFrom(roles, |ps|, k)
    ensures ExtendsLast(ps + [p], roles + [r], |ps|) <==>
              exists e: nat :: LeftAt(roles, |roles|, e) && Later(ps[e], p)
  {
    forall k: nat
      ensures OpenFrom(roles + [r], |ps|, k) <==> OpenFrom(roles, |ps|, k)
      ensures LeftAt(roles + [r], |ps|, k) <==> LeftAt(roles, |ps|, k)
    {
      PartsBefore(roles, r, |ps|, k);
    }
    var qs := ps + [p];
    assert forall j :: 0 <= j < |ps| ==> qs[j] == ps[j];
    if e: nat :| LeftAt(roles, |roles|, e) && Later(ps[e], p) {
      assert LeftAt(roles + [r], |ps|, e) && Later(qs[e], qs[|ps|]);
    }
  }

  /** The part of a departure while somebody is in. */
  lemma {:induction false} OutWhileIn(ps: seq<Punch>, roles: seq<Role>, p: Punch, k: nat, r: Role)
    requires |roles| == |ps| && p.dir == Out && OpenFrom(roles, |roles|, k)
    requires r == if Later(ps[k], p) then Closes else Unmatched
    ensures PlaysPart(ps + [p], roles + [r], |ps|)
  {
    OpenBefore(ps, roles, p, r);
    assert OpenFrom(roles + [r], |ps|, k) && (ps + [p])[k] == ps[k];
  }

  /** The part of a departure while nobody is in. */
  lemma {:induction false} OutWhileOut(ps: seq<Punch>, roles: seq<Role>, p: Punch, further: bool, r: Role)
    requires |roles| == |ps| && p.dir == Out && !IsOpen(roles, |roles|)
    requires further <==> exists e: nat :: LeftAt(roles, |roles|, e) && Later(ps[e], p)
    requires r == if further then Extends else Unmatched
    ensures PlaysPart(ps + [p], roles + [r], |ps|)
  {
    OpenBefore(ps, roles, p, r);
  }

  lemma {:induction false} InPlays(ps: seq<Punch>, roles: seq<Role>, p: Punch, r: Role)
    requires |roles| == |ps| && p.dir != Out
    requires r == if p.dir == Unknown then Undirected else if IsOpen(roles, |roles|) then Repeats else Opens
    ensures PlaysPart(ps + [p], roles + [r], |ps|)
  {
    OpenBefore(ps, roles, p, r);
  }

  lemma {:induction false} CanExtend(intervals: seq<Interval>, open: Option<Punch>, ps: seq<Punch>, roles: seq<Role>,
                                     opens: seq<nat>, ends: seq<nat>, p: Punch)
    requires Shaped(intervals, open, ps, roles, opens, ends)
    ensures (exists e: nat :: LeftAt(roles, |roles|, e) && Later(ps[e], p)) <==>
              && |intervals| > 0 && p.timestamp > intervals[|intervals| - 1].end
              && Instant(p) > intervals[|intervals| - 1].occurredEnd
  {
    if |intervals| > 0 {
      var n := |intervals| - 1;
      var e := ends[n];
      assert LeftAt(roles, |roles|, e) && Reaches(intervals[n], ps, roles, opens[n], ends[n]);
      forall x: nat | LeftAt(roles, |roles|, x) ensures x == e {
        OneLeft(roles, |roles|, e, x);
      }
    }
  }

  /** What a step of the pairing adds for a part. */
  ghost predicate Notes(s: Pairing, t: Pairing, p: Punch, r: Role) {
    t.marks == s.marks + MarkOf(r, p) && t.issues == s.issues + (if r == Undirected then [p.timestamp] else [])
  }

  /** What the pairing makes of the next punch when it plays the part. */
  ghost predicate Made(s: Pairing, t: Pairing, ps: seq<Punch>, roles: seq<Role>, p: Punch, r: Role, opens: seq<nat>,
                       ends: seq<nat>) {
    Shaped(t.intervals, t.open, ps + [p], roles + [r], opens, ends) && Notes(s, t, p, r)
  }

  lemma {:induction false} OpenTold(open: Option<Punch>, ps: seq<Punch>, roles: seq<Role>)
    requires |roles| == |ps| && OpenIs(open, ps, roles)
    ensures open.Some? <==> IsOpen(roles, |roles|)
  {
  }

  lemma {:induction false} MadeArrival(s: Pairing, ps: seq<Punch>, roles: seq<Role>, opens: seq<nat>, ends: seq<nat>,
                                       p: Punch, r: Role)
    requires Shaped(s.intervals, s.open, ps, roles, opens, ends) && p.dir != Out
    requires r == if p.dir == Unknown then Undirected else if s.open.Some? then Repeats else Opens
    ensures Made(s, Step(s, p), ps, roles, p, r, opens, ends)
  {
    NothingAdded(s);
    if r == Opens {
      OpenTold(s.open, ps, roles);
      ShapedOpens(s.intervals, s.open, ps, roles, opens, ends, p);
    } else {
      ShapedQuiet(s.intervals, s.open, ps, roles, opens, ends, p, r);
    }
  }

  lemma {:induction false} NothingAdded(s: Pairing)
    ensures s.marks + [] == s.marks && s.issues + [] == s.issues
  {
  }

  /** The departure has an open arrival before it to close. */
  ghost predicate CanClose(s: Pairing, p: Punch) { s.open.Some? && Later(s.open.value, p) }

  /** The departure comes after the last interval, while nobody is in. */
  ghost predicate CanPush(s: Pairing, p: Punch) {
    && s.open.None? && |s.intervals| > 0 && p.timestamp > s.intervals[|s.intervals| - 1].end
    && Instant(p) > s.intervals[|s.intervals| - 1].occurredEnd
  }

  lemma {:induction false} StepOut(s: Pairing, p: Punch)
    requires p.dir == Out
    ensures Step(s, p).issues == s.issues
    ensures CanClose(s, p) ==>
              && Step(s, p).intervals == s.intervals + [IntervalOf(s.open.value, p)] && Step(s, p).open.None?
              && Step(s, p).marks == s.marks
    ensures CanPush(s, p) ==>
              var n := |s.intervals| - 1;
              && Step(s, p).intervals == s.intervals[n := Extend(s.intervals[n], p)] && Step(s, p).open.None?
              && Step(s, p).marks == s.marks + [Mark(ExtraOut, p.timestamp)]
    ensures !CanClose(s, p) && !CanPush(s, p) ==>
              && Step(s, p).intervals == s.intervals && Step(s, p).open == s.open
              && Step(s, p).marks == s.marks + [Mark(UnmatchedOut, p.timestamp)]
  {
  }

  lemma {:induction false} MadeClosing(s: Pairing, ps: seq<Punch>, roles: seq<Role>, opens: seq<nat>, ends: seq<nat>,
                                       p: Punch, k: nat)
    requires Shaped(s.intervals, s.open, ps, roles, opens, ends)
    requires p.dir == Out && OpenFrom(roles, |roles|, k) && s.open == Some(ps[k]) && Later(ps[k], p)
    ensures Made(s, Step(s, p), ps, roles, p, Closes, opens + [k], ends + [|ps|])
  {
    NothingAdded(s);
    StepOut(s, p);
    ShapedCloses(s.intervals, s.open, ps, roles, opens, ends, p, k, IntervalOf(ps[k], p));
  }

  lemma {:induction false} MadeUnmatched(s: Pairing, t: Pairing, ps: seq<Punch>, roles: seq<Role>, opens: seq<nat>,
                                         ends: seq<nat>, p: Punch)
    requires Shaped(s.intervals, s.open, ps, roles, opens, ends)
    requires t == s.(marks := s.marks + [Mark(UnmatchedOut, p.timestamp)])
    ensures Made(s, t, ps, roles, p, Unmatched, opens, ends)
  {
    NothingAdded(s);
    ShapedQuiet(s.intervals, s.open, ps, roles, opens, ends, p, Unmatched);
  }

  lemma {:induction false} OutUnmatched(s: Pairing, ps: seq<Punch>, roles: seq<Role>, opens: seq<nat>, ends: seq<nat>,
                                        p: Punch)
    requires Shaped(s.intervals, s.open, ps, roles, opens, ends)
    requires p.dir == Out && !CanClose(s, p) && !CanPush(s, p)
    ensures Made(s, Step(s, p), ps, roles, p, Unmatched, opens, ends)
  {
    StepOut(s, p);
    MadeUnmatched(s, Step(s, p), ps, roles, opens, ends, p);
  }

  lemma {:induction false} MadeFurther(s: Pairing, ps: seq<Punch>, roles: seq<Role>, opens: seq<nat>, ends: seq<nat>,
                                       p: Punch)
    requires Shaped(s.intervals, s.open, ps, roles, opens, ends) && p.dir == Out && CanPush(s, p)
    ensures Made(s, Step(s, p), ps, roles, p, Extends, opens, ends[|s.intervals| - 1 := |ps|])
  {
    NothingAdded(s);
    StepOut(s, p);
    ShapedExtends(s.intervals, ps, roles, opens, ends, p);
  }

  lemma {:induction false} NextClosing(s: Pairing, ps: seq<Punch>, roles: seq<Role>, opens: seq<nat>, ends: seq<nat>,
                                       p: Punch, k: nat)
      returns (r: Role, os: seq<nat>, es: seq<nat>)
    requires Shaped(s.intervals, s.open, ps, roles, opens, ends)
    requires p.dir == Out && OpenFrom(roles, |roles|, k) && s.open == Some(ps[k])
    ensures Made(s, Step(s, p), ps, roles, p, r, os, es) && r == if Later(ps[k], p) then Closes else Unmatched
  {
    if Later(ps[k], p) {
      r, os, es := Closes, opens + [k], ends + [|ps|];
      MadeClosing(s, ps, roles, opens, ends, p, k);
    } else {
      r, os, es := Unmatched, opens, ends;
      NotClosing(s, ps, roles, opens, ends, p, k);
    }
  }

  lemma {:induction false} NotClosing(s: Pairing, ps: seq<Punch>, roles: seq<Role>, opens: seq<nat>, ends: seq<nat>,
                                      p: Punch, k: nat)
    requires Shaped(s.intervals, s.open, ps, roles, opens, ends)
    requires p.dir == Out && OpenFrom(roles, |roles|, k) && s.open == Some(ps[k]) && !Later(ps[k], p)
    ensures Made(s, Step(s, p), ps, roles, p, Unmatched, opens, ends)
  {
    OutUnmatched(s, ps, roles, opens, ends, p);
  }

  lemma {:induction false} NextAfter(s: Pairing, ps: seq<Punch>, roles: seq<Role>, opens: seq<nat>, ends: seq<nat>,
                                     p: Punch)
      returns (r: Role, es: seq<nat>)
    requires Shaped(s.intervals, s.open, ps, roles, opens, ends) && p.dir == Out && s.open.None?
    ensures Made(s, Step(s, p), ps, roles, p, r, opens, es) && r == if CanPush(s, p) then Extends else Unmatched
  {
    r, es := if CanPush(s, p) then Extends else Unmatched, ends;
    if CanPush(s, p) {
      MadeFurther(s, ps, roles, opens, ends, p);
      es := ends[|s.intervals| - 1 := |ps|];
    } else {
      OutUnmatched(s, ps, roles, opens, ends, p);
    }
  }

  lemma {:induction false} AfterPlays(s: Pairing, ps: seq<Punch>, roles: seq<Role>, opens: seq<nat>, ends: seq<nat>,
                                      p: Punch)
    requires Shaped(s.intervals, s.open, ps, roles, opens, ends) && p.dir == Out && s.open.None?
    ensures PlaysPart(ps + [p], roles + [if CanPush(s, p) then Extends else Unmatched], |ps|)
  {
    OpenTold(s.open, ps, roles);
    CanExtend(s.intervals, s.open, ps, roles, opens, ends, p);
    OutWhileOut(ps, roles, p, CanPush(s, p), if CanPush(s, p) then Extends else Unmatched);
  }

  lemma {:induction false} NextPart(s: Pairing, ps: seq<Punch>, roles: seq<Role>, opens: seq<nat>, ends: seq<nat>,
                                    p: Punch)
      returns (r: Role, os: seq<nat>, es: seq<nat>)
    requires Shaped(s.intervals, s.open, ps, roles, opens, ends)
    ensures Made(s, Step(s, p), ps, roles, p, r, os, es) && PlaysPart(ps + [p], roles + [r], |ps|)
  {
    os, es := opens, ends;
    if p.dir != Out {
      r := if p.dir == Unknown then Undirected else if s.open.Some? then Repeats else Opens;
      OpenTold(s.open, ps, roles);
      InPlays(ps, roles, p, r);
      MadeArrival(s, ps, roles, opens, ends, p, r);
    } else if s.open.Some? {
      var k: nat :| OpenFrom(roles, |ps|, k) && s.open == Some(ps[k]);
      r, os, es := NextClosing(s, ps, roles, opens, ends, p, k);
      OutWhileIn(ps, roles, p, k, r);
    } else {
      AfterPlays(s, ps, roles, opens, ends, p);
      r, es := NextAfter(s, ps, roles, opens, ends, p);
    }
  }

  /** Every punch plays its part, and the pairing is that of the parts. */
  lemma {:induction false} PairingTellsParts(ps: seq<Punch>)
      returns (roles: seq<Role>, opens: seq<nat>, ends: seq<nat>)
    ensures Parts(ps, roles) && PairingOf(Pair(ps), ps, roles, opens, ends)
    ensures OpenLast(roles, ends)
  {
    if |ps| == 0 {
      roles, opens, ends := [], [], [];
    } else {
      var front, p := ps[..|ps| - 1], ps[|ps| - 1];
      assert ps == front + [p];
      var before, r;
      before, opens, ends := PairingTellsParts(front);
      r, opens, ends := NextPart(Pair(front), front, before, opens, ends, p);
      roles := before + [r];
      PartsSnoc(front, before, p, r);
      NotesSnoc(front, before, p, r);
    }
  }

  /** The parts are determined by the punches. */
  lemma {:induction false} OnePart(ps: seq<Punch>, a: seq<Role>, b: seq<Role>)
    requires Parts(ps, a) && Parts(ps, b)
    ensures a == b
  {
    if |ps| > 0 {
      var n := |ps| - 1;
      FrontParts(ps, a);
      FrontParts(ps, b);
      OnePart(ps[..n], a[..n], b[..n]);
      assert a == a[..n] + [a[n]] && b == b[..n] + [b[n]];
      assert PlaysPart(ps, a, n) && PlaysPart(ps, b, n);
      SamePart(ps, a[..n], a[n], b[n]);
    }
  }

  lemma {:induction false} FrontParts(ps: seq<Punch>, roles: seq<Role>)
    requires Parts(ps, roles) && |ps| > 0
    ensures Parts(ps[..|ps| - 1], roles[..|ps| - 1])
  {
    var n := |ps| - 1;
    var qs, front := ps[..n], roles[..n];
    assert ps == qs + [ps[n]] && roles == front + [roles[n]];
    forall i | 0 <= i < n ensures PlaysPart(qs, front, i) {
      assert PlaysPart(ps, roles, i);
      PlayedBefore(qs, front, ps[n], roles[n], i);
    }
  }

  lemma {:induction false} PlayedBefore(ps: seq<Punch>, roles: seq<Role>, p: Punch, r: Role, i: nat)
    requires |roles| == |ps| && i < |ps| && PlaysPart(ps + [p], roles + [r], i)
    ensures PlaysPart(ps, roles, i)
  {
    forall k: nat
      ensures OpenFrom(roles + [r], i, k) <==> OpenFrom(roles, i, k)
    {
      PartsBefore(roles, r, i, k);
    }
    assert forall j :: 0 <= j < |ps| ==> (ps + [p])[j] == ps[j];
    SameExtension(ps, roles, p, r, i);
    if ps[i].dir == Out && IsOpen(roles, i) {
      var k: nat :| OpenFrom(roles + [r], i, k) && k < |ps| + 1
                    && roles[i] == if Later((ps + [p])[k], ps[i]) then Closes else Unmatched;
      assert OpenFrom(roles, i, k);
    }
  }

  lemma {:induction false} SamePart(ps: seq<Punch>, roles: seq<Role>, r: Role, q: Role)
    requires |ps| == |roles| + 1
    requires PlaysPart(ps, roles + [r], |roles|) && PlaysPart(ps, roles + [q], |roles|)
    ensures r == q
  {
    var n, qs, p := |roles|, ps[..|roles|], ps[|roles|];
    assert ps == qs + [p];
    OpenBefore(qs, roles, p, r);
    OpenBefore(qs, roles, p, q);
    if p.dir == Out && IsOpen(roles, n) {
      var k: nat :| OpenFrom(roles + [r], n, k) && k < |ps| && r == if Later(ps[k], p) then Closes else Unmatched;
      var x: nat :| OpenFrom(roles + [q], n, x) && x < |ps| && q == if Later(ps[x], p) then Closes else Unmatched;
      OneOpen(roles, n, k, x);
    }
  }
}
