/**
 Time windows as half-open sets of integer milliseconds (src/lib/attendanceIntervals.js, 53-85,
 and the separate merge loop of src/lib/attendanceEvaluator.js, 51-57).
 */
module Windows {
  import opened Sorting
  import opened Arithmetic

  datatype Window = Window(start: int, end: int)

  function StartOf(w: Window): int { w.start }

  /** The instants a list of windows covers: what a list of windows means. */
  ghost function Instants(ws: seq<Window>): set<int> {
    if |ws| == 0 then {}
    else Instants(ws[..|ws| - 1]) + Range(ws[|ws| - 1].start, ws[|ws| - 1].end)
  }

  predicate Tick(t: int) { true }

  /** The instants from a up to, and not including, b. */
  ghost function Range(a: int, b: int): set<int> {
    set t | a <= t < b && Tick(t)
  }

  lemma {:induction false} RangeSize(a: int, b: int)
    ensures |Range(a, b)| == Max(0, b - a)
    decreases b - a
  {
    if b <= a {
      assert Range(a, b) == {};
    } else {
      RangeSize(a, b - 1);
      assert Range(a, b) == Range(a, b - 1) + {b - 1};
    }
  }

  /** An instant is covered exactly when some window of the list holds it. */
  lemma {:induction false} InstantsMembers(ws: seq<Window>, t: int)
    ensures t in Instants(ws) <==> exists i :: 0 <= i < |ws| && ws[i].start <= t < ws[i].end
  {
    if |ws| > 0 {
      var n := |ws| - 1;
      InstantsMembers(ws[..n], t);
      if t in Instants(ws[..n]) {
        var i :| 0 <= i < n && ws[..n][i].start <= t < ws[..n][i].end;
        assert ws[i].start <= t < ws[i].end;
      }
      if i :| 0 <= i < |ws| && ws[i].start <= t < ws[i].end {
        assert i < n ==> ws[..n][i].start <= t < ws[..n][i].end;
      }
    }
  }

  /** Positive-length windows, each ending no later than the next one starts. */
  ghost predicate Ordered(ws: seq<Window>) {
    |ws| == 0 || (
      var front, last := ws[..|ws| - 1], ws[|ws| - 1];
      Ordered(front) && last.start < last.end && (|front| > 0 ==> front[|front| - 1].end <= last.start))
  }

  /** Positive-length windows in time order with a gap between any two neighbours. */
  ghost predicate Canonical(ws: seq<Window>) {
    |ws| == 0 || (
      var front, last := ws[..|ws| - 1], ws[|ws| - 1];
      Canonical(front) && last.start < last.end && (|front| > 0 ==> front[|front| - 1].end < last.start))
  }

  lemma {:induction false} OrderedBound(ws: seq<Window>)
    requires Ordered(ws) && |ws| > 0
    ensures forall t :: t in Instants(ws) ==> t < ws[|ws| - 1].end
  {
    if |ws| > 1 {
      OrderedBound(ws[..|ws| - 1]);
    }
  }

  lemma {:induction false} CanonicalIsOrdered(ws: seq<Window>)
    requires Canonical(ws)
    ensures Ordered(ws)
  {
    if |ws| > 0 {
      CanonicalIsOrdered(ws[..|ws| - 1]);
    }
  }

  /** Canonical windows are strictly separated, whatever two of them are compared. */
  lemma {:induction false} CanonicalSeparates(ws: seq<Window>, i: nat, j: nat)
    requires Canonical(ws) && i < j < |ws|
    ensures ws[i].start < ws[i].end < ws[j].start < ws[j].end
  {
    var front := ws[..|ws| - 1];
    if j < |front| {
      CanonicalSeparates(front, i, j);
    } else if i < |front| - 1 {
      CanonicalSeparates(front, i, |front| - 1);
    }
  }

  // ---------------------------------------------------------------- union

  function Proper(ws: seq<Window>): seq<Window> {
    if |ws| == 0 then []
    else Proper(ws[..|ws| - 1]) + (if ws[|ws| - 1].end > ws[|ws| - 1].start then [ws[|ws| - 1]] else [])
  }

  function MergeStep(acc: seq<Window>, w: Window): seq<Window> {
    if |acc| > 0 && w.start <= acc[|acc| - 1].end then
      acc[|acc| - 1 := Window(acc[|acc| - 1].start, Max(acc[|acc| - 1].end, w.end))]
    else
      acc + [w]
  }

  function MergeAll(sorted: seq<Window>): seq<Window> {
    if |sorted| == 0 then [] else MergeStep(MergeAll(sorted[..|sorted| - 1]), sorted[|sorted| - 1])
  }

  function Union(ws: seq<Window>): seq<Window> {
    MergeAll(SortBy(Proper(ws), StartOf))
  }

  lemma {:induction false} MergeNext(sorted: seq<Window>, i: nat)
    requires i < |sorted|
    ensures MergeAll(sorted[..i + 1]) == MergeStep(MergeAll(sorted[..i]), sorted[i])
  {
    assert sorted[..i + 1][..i] == sorted[..i];
  }

  /** The source's loop: walk the sorted windows, growing the last result window or pushing a new one. */
  method UnionWindows(ws: seq<Window>) returns (result: seq<Window>)
    ensures result == Union(ws)
    ensures Canonical(result)
    ensures Instants(result) == Instants(ws)
  {
    var sorted := SortBy(Proper(ws), StartOf);
    result := [];
    for i := 0 to |sorted|
      invariant result == MergeAll(sorted[..i])
    {
      MergeNext(sorted, i);
      var w := sorted[i];
      if |result| > 0 && w.start <= result[|result| - 1].end {
        var last := result[|result| - 1];
        result := result[|result| - 1 := last.(end := Max(last.end, w.end))];
      } else {
        result := result + [w];
      }
    }
    assert sorted[..|sorted|] == sorted;
    UnionIsSetUnion(ws);
  }

  lemma {:induction false} InstantsSplit(a: seq<Window>, b: seq<Window>)
    ensures Instants(a + b) == Instants(a) + Instants(b)
  {
    if |b| == 0 {
      assert a + b == a;
    } else {
      InstantsSplit(a, b[..|b| - 1]);
      assert (a + b)[..|a + b| - 1] == a + b[..|b| - 1];
    }
  }

  lemma {:induction false} InstantsOfSame(a: seq<Window>, b: seq<Window>)
    requires forall w :: w in a <==> w in b
    ensures Instants(a) == Instants(b)
  {
    forall t ensures t in Instants(a) <==> t in Instants(b) {
      InstantsMembers(a, t);
      InstantsMembers(b, t);
      if i :| 0 <= i < |a| && a[i].start <= t < a[i].end { assert a[i] in b; }
      if i :| 0 <= i < |b| && b[i].start <= t < b[i].end { assert b[i] in a; }
    }
  }

  lemma {:induction false} InstantsSnoc(ws: seq<Window>, w: Window)
    ensures Instants(ws + [w]) == Instants(ws) + Range(w.start, w.end)
  {
    assert (ws + [w])[..|ws|] == ws;
  }

  lemma {:induction false} ProperKeepsInstants(ws: seq<Window>)
    ensures forall w :: w in Proper(ws) ==> w.start < w.end
    ensures Instants(Proper(ws)) == Instants(ws)
  {
    if |ws| > 0 {
      var front, last := ws[..|ws| - 1], ws[|ws| - 1];
      ProperKeepsInstants(front);
      if last.end > last.start {
        InstantsSnoc(Proper(front), last);
      } else {
        assert Proper(ws) == Proper(front);
        assert Range(last.start, last.end) == {};
      }
    }
  }

  lemma {:induction false} MergeStepSpec(acc: seq<Window>, w: Window)
    requires Canonical(acc) && w.start < w.end
    requires |acc| > 0 ==> acc[|acc| - 1].start <= w.start
    ensures Canonical(MergeStep(acc, w))
    ensures Instants(MergeStep(acc, w)) == Instants(acc) + Range(w.start, w.end)
    ensures |MergeStep(acc, w)| > 0 && MergeStep(acc, w)[|MergeStep(acc, w)| - 1].start <= w.start
  {
    if |acc| > 0 && w.start <= acc[|acc| - 1].end {
      var front, last := acc[..|acc| - 1], acc[|acc| - 1];
      var grown := Window(last.start, Max(last.end, w.end));
      assert MergeStep(acc, w) == front + [grown];
      assert (front + [grown])[..|front|] == front;
      InstantsSnoc(front, grown);
    } else {
      assert (acc + [w])[..|acc|] == acc;
      InstantsSnoc(acc, w);
    }
  }

  lemma {:induction false} MergeAllSpec(s: seq<Window>)
    requires SortedBy(s, StartOf)
    requires forall w :: w in s ==> w.start < w.end
    ensures Canonical(MergeAll(s))
    ensures Instants(MergeAll(s)) == Instants(s)
    ensures |s| > 0 ==> |MergeAll(s)| > 0 && MergeAll(s)[|MergeAll(s)| - 1].start <= s[|s| - 1].start
  {
    if |s| > 0 {
      var front := s[..|s| - 1];
      MergeAllSpec(front);
      assert |s| > 1 ==> front[|front| - 1] == s[|s| - 2];
      MergeStepSpec(MergeAll(front), s[|s| - 1]);
    }
  }

  /** Union yields the canonical windows of exactly the same instants. */
  lemma {:induction false} UnionIsSetUnion(ws: seq<Window>)
    ensures Canonical(Union(ws))
    ensures Instants(Union(ws)) == Instants(ws)
  {
    var p := Proper(ws);
    var s := SortBy(p, StartOf);
    ProperKeepsInstants(ws);
    SortBySorts(p, StartOf);
    MergeAllSpec(s);
    InstantsOfSame(s, p);
  }

  lemma {:induction false} LastWindow(a: seq<Window>)
    requires Canonical(a) && |a| > 0
    ensures var w := a[|a| - 1];
            && w.start - 1 !in Instants(a)
            && (forall t :: w.start <= t < w.end ==> t in Instants(a))
            && (forall t :: t in Instants(a) ==> t < w.end)
            && w.start < w.end
            && Instants(a[..|a| - 1]) == Instants(a) - Range(w.start, w.end)
  {
    CanonicalIsOrdered(a);
    OrderedBound(a);
    if |a| > 1 {
      OrderedBound(a[..|a| - 1]);
    }
  }

  lemma {:induction false} SameLastWindow(a: seq<Window>, b: seq<Window>)
    requires Canonical(a) && Canonical(b) && |a| > 0
    requires Instants(a) == Instants(b)
    ensures |b| > 0 && a[|a| - 1] == b[|b| - 1]
    ensures Instants(a[..|a| - 1]) == Instants(b[..|b| - 1])
  {
    LastWindow(a);
    var w := a[|a| - 1];
    assert w.end - 1 in Instants(b);
    LastWindow(b);
    assert b[|b| - 1].end - 1 in Instants(a);
  }

  /** A set of instants has only one canonical list of windows. */
  lemma {:induction false} CanonicalIsUnique(a: seq<Window>, b: seq<Window>)
    requires Canonical(a) && Canonical(b)
    requires Instants(a) == Instants(b)
    ensures a == b
    decreases |a|
  {
    if |a| > 0 {
      SameLastWindow(a, b);
      CanonicalIsUnique(a[..|a| - 1], b[..|b| - 1]);
      assert a == a[..|a| - 1] + [a[|a| - 1]];
    } else if |b| > 0 {
      HoldsInstants(b);
    }
  }

  lemma {:induction false} HoldsInstants(a: seq<Window>)
    requires Canonical(a) && |a| > 0
    ensures Instants(a) != {}
  {
    LastWindow(a);
    assert a[|a| - 1].start in Instants(a);
  }

  /** Union depends on nothing but the instants: not on order, repetition or fragmentation. */
  lemma {:induction false} UnionDependsOnInstantsOnly(a: seq<Window>, b: seq<Window>)
    ensures Union(a) == Union(b) <==> Instants(a) == Instants(b)
  {
    UnionIsSetUnion(a);
    UnionIsSetUnion(b);
    if Instants(a) == Instants(b) {
      CanonicalIsUnique(Union(a), Union(b));
    }
  }

  // ---------------------------------------------------------------- measure

  /** Sum of the window lengths, in milliseconds. */
  function TotalLength(ws: seq<Window>): int {
    if |ws| == 0 then 0
    else TotalLength(ws[..|ws| - 1]) + Max(0, ws[|ws| - 1].end - ws[|ws| - 1].start)
  }

  function WindowTime(ws: seq<Window>): int {
    TotalLength(Union(ws))
  }

  lemma {:induction false} TotalLengthIsMeasure(ws: seq<Window>)
    requires Ordered(ws)
    ensures TotalLength(ws) == |Instants(ws)|
  {
    if |ws| > 0 {
      var front, last := ws[..|ws| - 1], ws[|ws| - 1];
      TotalLengthIsMeasure(front);
      if |front| > 0 {
        OrderedBound(front);
      }
      assert Instants(front) !! Range(last.start, last.end);
      RangeSize(last.start, last.end);
    }
  }

  /** windowMinutes is the measure of the instants covered. */
  lemma {:induction false} WindowTimeIsMeasure(ws: seq<Window>)
    ensures WindowTime(ws) == |Instants(ws)|
  {
    UnionIsSetUnion(ws);
    CanonicalIsOrdered(Union(ws));
    TotalLengthIsMeasure(Union(ws));
  }

  // ---------------------------------------------------------------- intersection

  function Meet(x: Window, y: Window): Window {
    Window(Max(x.start, y.start), Min(x.end, y.end))
  }

  function MeetAll(x: Window, b: seq<Window>): seq<Window> {
    seq(|b|, i requires 0 <= i < |b| => Meet(x, b[i]))
  }

  function Cross(a: seq<Window>, b: seq<Window>): seq<Window> {
    if |a| == 0 then [] else Cross(a[..|a| - 1], b) + MeetAll(a[|a| - 1], b)
  }

  function Intersect(a: seq<Window>, b: seq<Window>): seq<Window> {
    Union(Cross(a, b))
  }

  function IntersectionTime(a: seq<Window>, b: seq<Window>): int {
    WindowTime(Intersect(a, b))
  }

  lemma {:induction false} MeetAllInstants(x: Window, b: seq<Window>)
    ensures Instants(MeetAll(x, b)) == Range(x.start, x.end) * Instants(b)
  {
    if |b| > 0 {
      MeetAllInstants(x, b[..|b| - 1]);
      assert MeetAll(x, b)[..|b| - 1] == MeetAll(x, b[..|b| - 1]);
    }
  }

  lemma {:induction false} CrossInstants(a: seq<Window>, b: seq<Window>)
    ensures Instants(Cross(a, b)) == Instants(a) * Instants(b)
  {
    if |a| > 0 {
      var front, last := a[..|a| - 1], a[|a| - 1];
      CrossInstants(front, b);
      InstantsSplit(Cross(front, b), MeetAll(last, b));
      MeetAllInstants(last, b);
    }
  }

  /** Intersection yields the canonical windows of the common instants, and its time is their measure. */
  lemma {:induction false} IntersectIsSetIntersection(a: seq<Window>, b: seq<Window>)
    ensures Canonical(Intersect(a, b))
    ensures Instants(Intersect(a, b)) == Instants(a) * Instants(b)
    ensures IntersectionTime(a, b) == |Instants(a) * Instants(b)|
  {
    CrossInstants(a, b);
    UnionIsSetUnion(Cross(a, b));
    WindowTimeIsMeasure(Intersect(a, b));
  }

  // ---------------------------------------------------------------- the evaluator's own merge loop

  /**
   Excluded time inside [start, end): a second, separately written merge with three running
   variables. It agrees with the window algebra above.
   */
  method ExcludedTime(start: int, end: int, exclusions: seq<Window>) returns (excluded: int)
    ensures excluded == IntersectionTime([Window(start, end)], exclusions)
    ensures excluded == |Range(start, end) * Instants(exclusions)|
  {
    var span := Window(start, end);
    var ranges := SortBy(Proper(MeetAll(span, exclusions)), StartOf);
    SortedProper(MeetAll(span, exclusions), ranges);
    var total, left, right, some := 0, 0, 0, false;
    for i := 0 to |ranges|
      invariant some <==> |MergeAll(ranges[..i])| > 0
      invariant some ==> left < right && Last(MergeAll(ranges[..i])) == Window(left, right)
      invariant TotalLength(MergeAll(ranges[..i])) == total + (if some then right - left else 0)
    {
      var w := ranges[i];
      assert w.start < w.end;
      MergeAllSnoc(ranges, i);
      MergeStepLength(MergeAll(ranges[..i]), w);
      if !some {
        left, right, some := w.start, w.end, true;
      } else if w.start <= right {
        right := Max(right, w.end);
      } else {
        total := total + (right - left);
        left, right := w.start, w.end;
      }
    }
    assert ranges[..|ranges|] == ranges;
    excluded := total + (if !some then 0 else right - left);
    MergedExclusions(start, end, exclusions);
  }

  ghost function Last(ws: seq<Window>): Window
    requires |ws| > 0
  {
    ws[|ws| - 1]
  }

  lemma {:induction false} MergeStepLength(m: seq<Window>, w: Window)
    requires w.start < w.end
    requires |m| > 0 ==> Last(m).start < Last(m).end
    ensures |MergeStep(m, w)| > 0
    ensures if |m| > 0 && w.start <= Last(m).end
            then && Last(MergeStep(m, w)) == Window(Last(m).start, Max(Last(m).end, w.end))
                 && TotalLength(MergeStep(m, w)) == TotalLength(m) + Max(Last(m).end, w.end) - Last(m).end
            else && Last(MergeStep(m, w)) == w
                 && TotalLength(MergeStep(m, w)) == TotalLength(m) + w.end - w.start
  {
    var r := MergeStep(m, w);
    if |m| > 0 && w.start <= Last(m).end {
      assert r[..|r| - 1] == m[..|m| - 1];
    } else {
      assert r[..|r| - 1] == m;
    }
  }

  lemma {:induction false} SortedProper(ws: seq<Window>, s: seq<Window>)
    requires s == SortBy(Proper(ws), StartOf)
    ensures forall i :: 0 <= i < |s| ==> s[i].start < s[i].end
  {
    ProperKeepsInstants(ws);
    SortBySorts(Proper(ws), StartOf);
  }

  lemma {:induction false} MergeAllSnoc(s: seq<Window>, i: nat)
    requires i < |s|
    ensures MergeAll(s[..i + 1]) == MergeStep(MergeAll(s[..i]), s[i])
  {
    assert s[..i + 1][..i] == s[..i];
  }

  lemma {:induction false} MergedExclusions(start: int, end: int, exclusions: seq<Window>)
    ensures WindowTime(MeetAll(Window(start, end), exclusions)) == |Range(start, end) * Instants(exclusions)|
    ensures IntersectionTime([Window(start, end)], exclusions) == |Range(start, end) * Instants(exclusions)|
  {
    var span := Window(start, end);
    WindowTimeIsMeasure(MeetAll(span, exclusions));
    MeetAllInstants(span, exclusions);
    IntersectIsSetIntersection([span], exclusions);
    assert Instants([span]) == Range(start, end);
  }
}
