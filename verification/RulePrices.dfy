/**
 What every case costs under the deduction rules, said of the cases themselves
 (src/lib/attendanceAnomalyRules.js, 218-356).
 */
module RulePrices {
  import opened Options
  import opened Arithmetic
  import opened Sequences
  import opened RuleDeductions
  import opened RuleDeductionLaws

  // ---------------------------------------------------------------- which cases are charged

  /** Management rejected the case and put a deduction on its day. */
  ghost predicate MarksDay(c: Case) {
    c.version == 2 && c.status == Rejected && c.byManagement && c.active && c.manual.Some?
  }

  ghost predicate Within(p: Period, date: int) {
    (p.from.Some? ==> p.from.value <= date) && (p.to.Some? ==> date <= p.to.value)
  }

  ghost predicate SameDay(a: Case, b: Case) { a.employee == b.employee && a.date == b.date }

  /** Rejected by Management or lapsed, in the period, on a day nobody approved and Management did not mark. */
  ghost predicate Charged(c: Case, cases: seq<Case>, p: Period) {
    && c.version == 2 && c.active && Within(p, c.date)
    && ((c.status == Rejected && c.byManagement) || (c.status == Pending && c.lapsed))
    && forall x :: x in cases && SameDay(x, c) ==> x.status != Approved && !MarksDay(x)
  }

  ghost predicate SameFact(a: Case, b: Case) { SameDay(a, b) && a.session == b.session && a.kind == b.kind }

  /** The first charged case of every incident, by date and then by identifier. */
  ghost predicate FirstCases(cs: seq<Case>, cases: seq<Case>, p: Period) {
    && (forall c :: c in cs ==> c in cases && Charged(c, cases, p))
    && (forall i, j :: 0 <= i < j < |cs| ==>
          && !SameFact(cs[i], cs[j])
          && (cs[i].date < cs[j].date || (cs[i].date == cs[j].date && cs[i].id <= cs[j].id)))
    && (forall c :: c in cases && Charged(c, cases, p) ==> HasFirst(cs, c))
  }

  ghost predicate HasFirst(cs: seq<Case>, c: Case) {
    exists k :: k in cs && SameFact(k, c) && k.id <= c.id
  }

  // ---------------------------------------------------------------- what kind of case it is

  ghost function TimeOr0(t: Option<int>): int { if t.Some? then t.value else 0 }

  /** How long the employee was late or left early: as measured, or else from the two times. */
  ghost function OffBy(c: Case): int {
    if c.measured.Some? then c.measured.value
    else if c.kind == LateIn then TimeOr0(c.actual) - TimeOr0(c.expected)
    else TimeOr0(c.expected) - TimeOr0(c.actual)
  }

  ghost predicate Timed(c: Case) { c.kind == LateIn || c.kind == EarlyOut }

  ghost predicate Absence(c: Case) { c.kind == AbsentKind }

  ghost predicate Long(c: Case, r: Rules) { Timed(c) && OffBy(c) > r.majorThreshold }

  ghost predicate Short(c: Case, r: Rules) { Timed(c) && OffBy(c) <= r.majorThreshold }

  ghost predicate MissingPunch(c: Case) { c.kind == MissingIn || c.kind == MissingOut }

  ghost function Absences(cs: seq<Case>): nat {
    if |cs| == 0 then 0 else Absences(cs[..|cs| - 1]) + (if Absence(cs[|cs| - 1]) then 1 else 0)
  }

  ghost function Longs(cs: seq<Case>, r: Rules): nat {
    if |cs| == 0 then 0 else Longs(cs[..|cs| - 1], r) + (if Long(cs[|cs| - 1], r) then 1 else 0)
  }

  /** One employee's missing punches, in order. */
  ghost function MissingOf(cs: seq<Case>, e: int): seq<Case> {
    if |cs| == 0 then []
    else
      var c := cs[|cs| - 1];
      MissingOf(cs[..|cs| - 1], e) + (if MissingPunch(c) && c.employee == e then [c] else [])
  }

  /** One employee's shorter timings, in order. */
  ghost function ShortOf(cs: seq<Case>, r: Rules, e: int): seq<Case> {
    if |cs| == 0 then []
    else
      var c := cs[|cs| - 1];
      ShortOf(cs[..|cs| - 1], r, e) + (if Short(c, r) && c.employee == e then [c] else [])
  }

  lemma {:induction false} CategoryIs(c: Case, r: Rules)
    ensures CategoryOf(r, c) == AbsentCat <==> Absence(c)
    ensures CategoryOf(r, c) == MajorCat <==> Long(c, r)
    ensures CategoryOf(r, c) == MinorCat <==> Short(c, r)
    ensures CategoryOf(r, c) == MissingCat <==> MissingPunch(c)
    ensures IsTiming(c) <==> Timed(c)
    ensures Timed(c) ==> Measure(c) == OffBy(c)
  {
  }

  // ---------------------------------------------------------------- the incidents

  lemma {:induction false} AutomaticIsCharged(cases: seq<Case>, p: Period, c: Case)
    ensures Automatic(cases, p, c) <==> Charged(c, cases, p)
  {
    forall x ensures MarksShift(x) <==> MarksDay(x) {
    }
    assert InPeriod(p, c.date) <==> Within(p, c.date);
    if Automatic(cases, p, c) {
      forall x | x in cases && SameDay(x, c) ensures x.status != Approved && !MarksDay(x) {
        assert ShiftOf(x) == ShiftOf(c);
      }
    }
  }

  ghost predicate Apart(cs: seq<Case>) {
    forall i, j :: 0 <= i < j < |cs| ==> !SameFact(cs[i], cs[j])
  }

  ghost predicate AllHaveFirst(cs: seq<Case>, scan: seq<Case>, cases: seq<Case>, p: Period) {
    forall c :: c in scan && Charged(c, cases, p) ==> HasFirst(cs, c)
  }

  ghost predicate AllCharged(cs: seq<Case>, scan: seq<Case>, cases: seq<Case>, p: Period) {
    forall c :: c in cs ==> c in scan && Charged(c, cases, p)
  }

  ghost predicate FirstOnes(cs: seq<Case>, scan: seq<Case>, cases: seq<Case>, p: Period) {
    InOrder(cs) && AllCharged(cs, scan, cases, p) && Apart(cs) && AllHaveFirst(cs, scan, cases, p)
  }

  lemma {:induction false} IncidentsAreFirst(s: seq<Case>, cases: seq<Case>, p: Period)
    requires InOrder(s)
    ensures FirstOnes(Incidents(s, cases, p), s, cases, p)
  {
    if |s| > 0 {
      var front, c := s[..|s| - 1], s[|s| - 1];
      assert s == front + [c];
      IncidentsAreFirst(front, cases, p);
      IncidentsNext(s, cases, p);
      LastIncident(front, c, Incidents(front, cases, p), Incidents(s, cases, p), cases, p);
    }
  }

  lemma {:induction false} IncidentsNext(s: seq<Case>, cases: seq<Case>, p: Period)
    requires |s| > 0
    ensures var c, before := s[|s| - 1], Incidents(s[..|s| - 1], cases, p);
            Incidents(s, cases, p)
            == if Charged(c, cases, p) && !(exists k :: k in before && SameIncident(k, c)) then before + [c] else before
  {
    AutomaticIsCharged(cases, p, s[|s| - 1]);
  }

  lemma {:induction false} LastIncident(front: seq<Case>, c: Case, before: seq<Case>, cs: seq<Case>, cases: seq<Case>,
                                        p: Period)
    requires InOrder(front + [c]) && FirstOnes(before, front, cases, p)
    requires cs == if Charged(c, cases, p) && !(exists k :: k in before && SameIncident(k, c)) then before + [c]
             else before
    ensures FirstOnes(cs, front + [c], cases, p)
  {
    KeptApart(before, c, cs);
    AllPrecede(front, c, before);
    OrderedOn(before, c, cs);
    AllFirst(front, c, before, cs, cases, p);
  }

  lemma {:induction false} AllFirst(front: seq<Case>, c: Case, before: seq<Case>, cs: seq<Case>, cases: seq<Case>,
                                    p: Period)
    requires AllHaveFirst(before, front, cases, p) && forall k :: k in before ==> Precedes(k, c)
    requires cs == if Charged(c, cases, p) && !(exists k :: k in before && SameIncident(k, c)) then before + [c]
             else before
    ensures AllHaveFirst(cs, front + [c], cases, p)
  {
    forall k | k in front + [c] && Charged(k, cases, p) ensures HasFirst(cs, k) {
      if k in front {
        KeepsFirst(before, cs, k);
      } else {
        FirstOfLast(before, c, cs);
      }
    }
  }

  lemma {:induction false} AllPrecede(front: seq<Case>, c: Case, before: seq<Case>)
    requires InOrder(front + [c]) && forall k :: k in before ==> k in front
    ensures forall k :: k in before ==> Precedes(k, c)
  {
    var s := front + [c];
    forall k | k in before ensures Precedes(k, c) {
      var i :| 0 <= i < |front| && front[i] == k;
      assert s[i] == k && s[|front|] == c;
    }
  }

  lemma {:induction false} OrderedOn(before: seq<Case>, c: Case, cs: seq<Case>)
    requires InOrder(before) && (cs == before || cs == before + [c]) && forall k :: k in before ==> Precedes(k, c)
    ensures InOrder(cs)
  {
    forall i, j | 0 <= i < j < |cs| ensures Precedes(cs[i], cs[j]) {
      assert j == |before| ==> before[i] in before;
    }
  }

  lemma {:induction false} KeepsFirst(before: seq<Case>, cs: seq<Case>, k: Case)
    requires HasFirst(before, k) && forall x :: x in before ==> x in cs
    ensures HasFirst(cs, k)
  {
    var x :| x in before && SameFact(x, k) && x.id <= k.id;
    assert x in cs;
  }

  lemma {:induction false} FirstOfLast(before: seq<Case>, c: Case, cs: seq<Case>)
    requires forall k :: k in before ==> Precedes(k, c)
    requires cs == if exists k :: k in before && SameIncident(k, c) then before else before + [c]
    ensures HasFirst(cs, c)
  {
    if x :| x in before && SameIncident(x, c) {
      assert Precedes(x, c) && x in cs && SameFact(x, c);
    } else {
      assert c in cs && SameFact(c, c);
    }
  }

  lemma {:induction false} KeptApart(before: seq<Case>, c: Case, cs: seq<Case>)
    requires Apart(before)
    requires cs == before || (cs == before + [c] && !(exists k :: k in before && SameIncident(k, c)))
    ensures Apart(cs)
  {
    forall i, j | 0 <= i < j < |cs| ensures !SameFact(cs[i], cs[j]) {
      if j == |before| {
        assert before[i] in before && !SameIncident(before[i], c);
      }
    }
  }

  /** What is charged is the first case of each incident. */
  lemma {:induction false} ChargedCases(cases: seq<Case>, p: Period)
    ensures FirstCases(Incidents(SortCases(cases), cases, p), cases, p)
  {
    SortedInOrder(cases);
    SameMembers(SortCases(cases), cases);
    IncidentsAreFirst(SortCases(cases), cases, p);
    var cs := Incidents(SortCases(cases), cases, p);
    forall i, j | 0 <= i < j < |cs|
      ensures cs[i].date < cs[j].date || (cs[i].date == cs[j].date && cs[i].id <= cs[j].id)
    {
      assert Precedes(cs[i], cs[j]);
    }
  }

  lemma {:induction false} FirstIsMember(a: seq<Case>, b: seq<Case>, cases: seq<Case>, p: Period, c: Case)
    requires FirstCases(a, cases, p) && FirstCases(b, cases, p) && c in a
    requires forall x, y :: x in cases && y in cases && x.id == y.id ==> x == y
    ensures c in b
  {
    assert HasFirst(b, c);
    var k :| k in b && SameFact(k, c) && k.id <= c.id;
    assert HasFirst(a, k);
    var x :| x in a && SameFact(x, k) && x.id <= k.id;
    var i :| 0 <= i < |a| && a[i] == c;
    var j :| 0 <= j < |a| && a[j] == x;
    assert SameFact(a[i], a[j]) && SameFact(a[j], a[i]);
    assert i == j;
  }

  lemma {:induction false} OncePerMember(s: seq<Case>, x: Case)
    requires Distinct(s)
    ensures multiset(s)[x] == if x in s then 1 else 0
  {
    if |s| > 0 {
      var front, last := s[..|s| - 1], s[|s| - 1];
      assert s == front + [last];
      OncePerMember(front, x);
      assert forall i :: 0 <= i < |front| ==> front[i] == s[i] != last;
    }
  }

  lemma {:induction false} FirstCasesAreDistinct(cs: seq<Case>, cases: seq<Case>, p: Period)
    requires FirstCases(cs, cases, p)
    ensures Distinct(cs) && InOrder(cs)
  {
    forall i, j | 0 <= i < j < |cs| ensures cs[i] != cs[j] && Precedes(cs[i], cs[j]) {
      assert !SameFact(cs[i], cs[j]);
    }
  }

  /** With distinct identifiers there is one such list. */
  lemma {:induction false} FirstCasesAreUnique(a: seq<Case>, b: seq<Case>, cases: seq<Case>, p: Period)
    requires FirstCases(a, cases, p) && FirstCases(b, cases, p)
    requires forall x, y :: x in cases && y in cases && x.id == y.id ==> x == y
    ensures a == b
  {
    FirstCasesAreDistinct(a, cases, p);
    FirstCasesAreDistinct(b, cases, p);
    forall x ensures multiset(a)[x] == multiset(b)[x] {
      OncePerMember(a, x);
      OncePerMember(b, x);
      if x in a { FirstIsMember(a, b, cases, p, x); }
      if x in b { FirstIsMember(b, a, cases, p, x); }
    }
    assert multiset(a) == multiset(b);
    OrderIsUnique(a, b);
  }

  // ---------------------------------------------------------------- lines of their own

  /** The line of one case: an absence at its price, or a long timing at its own. */
  ghost predicate Alone(l: Line, c: Case, r: Rules) {
    && l.kind == SingleLine && l.ids == [c.id] && l.date == c.date
    && ((Absence(c) && l.days == r.absentDays) || (Long(c, r) && l.days == r.majorDays))
  }

  /** Every line is that of an absence or a long timing. */
  ghost predicate AllAlone(lines: seq<Line>, cs: seq<Case>, r: Rules) {
    forall l :: l in lines ==> IsAlone(l, cs, r)
  }

  ghost predicate IsAlone(l: Line, cs: seq<Case>, r: Rules) { exists c :: c in cs && Alone(l, c, r) }

  /** Every absence and every long timing has its line. */
  ghost predicate EachAlone(lines: seq<Line>, cs: seq<Case>, r: Rules) {
    forall c :: c in cs && (Absence(c) || Long(c, r)) ==> HasAlone(lines, c, r)
  }

  ghost predicate HasAlone(lines: seq<Line>, c: Case, r: Rules) { exists l :: l in lines && Alone(l, c, r) }

  ghost predicate SinglesHold(lines: seq<Line>, cs: seq<Case>, r: Rules) {
    && AllAlone(lines, cs, r) && EachAlone(lines, cs, r) && |lines| == Absences(cs) + Longs(cs, r)
    && DaysTotal(lines) == Absences(cs) * r.absentDays + Longs(cs, r) * r.majorDays
  }

  lemma {:induction false} SingleIsAlone(c: Case, r: Rules)
    ensures (Absence(c) || Long(c, r)) ==> |SingleOf(c, r)| == 1 && Alone(SingleOf(c, r)[0], c, r)
    ensures !(Absence(c) || Long(c, r)) ==> SingleOf(c, r) == []
  {
    CategoryIs(c, r);
  }

  lemma {:induction false} SinglesAreHeld(cs: seq<Case>, r: Rules)
    ensures SinglesHold(SingleLines(cs, r), cs, r)
  {
    if |cs| > 0 {
      var front, c := cs[..|cs| - 1], cs[|cs| - 1];
      assert cs == front + [c];
      SinglesAreHeld(front, r);
      SingleIsAlone(c, r);
      if Absence(c) || Long(c, r) {
        OneMoreSingle(SingleLines(front, r), SingleOf(c, r)[0], front, c, r);
        assert SingleOf(c, r) == [SingleOf(c, r)[0]];
      } else {
        NoMoreSingle(SingleLines(front, r), front, c, r);
        assert SingleLines(front, r) + [] == SingleLines(front, r);
      }
    }
  }

  lemma {:induction false} NoMoreSingle(lines: seq<Line>, cs: seq<Case>, c: Case, r: Rules)
    requires SinglesHold(lines, cs, r) && !Absence(c) && !Long(c, r)
    ensures SinglesHold(lines, cs + [c], r)
  {
    assert (cs + [c])[..|cs|] == cs;
    forall x | x in lines ensures IsAlone(x, cs + [c], r) {
      assert IsAlone(x, cs, r);
      var y :| y in cs && Alone(x, y, r);
      assert y in cs + [c];
    }
  }

  lemma {:induction false} OneMoreSingle(lines: seq<Line>, l: Line, cs: seq<Case>, c: Case, r: Rules)
    requires SinglesHold(lines, cs, r) && Alone(l, c, r)
    ensures SinglesHold(lines + [l], cs + [c], r)
  {
    MoreAlone(lines, l, cs, c, r);
    MoreCost(lines, l, cs, c, r);
  }

  lemma {:induction false} MoreAlone(lines: seq<Line>, l: Line, cs: seq<Case>, c: Case, r: Rules)
    requires AllAlone(lines, cs, r) && EachAlone(lines, cs, r) && Alone(l, c, r)
    ensures AllAlone(lines + [l], cs + [c], r) && EachAlone(lines + [l], cs + [c], r)
  {
    var all, more := lines + [l], cs + [c];
    assert l in all && c in more;
    forall x | x in all ensures IsAlone(x, more, r) {
      if x in lines {
        assert IsAlone(x, cs, r);
        var y :| y in cs && Alone(x, y, r);
        assert y in more;
      }
    }
    forall y | y in more && (Absence(y) || Long(y, r)) ensures HasAlone(all, y, r) {
      if y in cs {
        assert HasAlone(lines, y, r);
        var x :| x in lines && Alone(x, y, r);
        assert x in all;
      }
    }
  }

  lemma {:induction false} MoreCost(lines: seq<Line>, l: Line, cs: seq<Case>, c: Case, r: Rules)
    requires Alone(l, c, r) && |lines| == Absences(cs) + Longs(cs, r)
    requires DaysTotal(lines) == Absences(cs) * r.absentDays + Longs(cs, r) * r.majorDays
    ensures var more := cs + [c];
            && |lines + [l]| == Absences(more) + Longs(more, r)
            && DaysTotal(lines + [l]) == Absences(more) * r.absentDays + Longs(more, r) * r.majorDays
  {
    assert (cs + [c])[..|cs|] == cs && (lines + [l])[..|lines|] == lines;
    Times(Absences(cs), r.absentDays);
    Times(Longs(cs, r), r.majorDays);
  }

  lemma {:induction false} Times(n: nat, days: int)
    ensures (n + 1) * days == n * days + days
  {
  }

  // ---------------------------------------------------------------- pools

  /** The line of one whole pool: the given cases in order, dated by the last of them. */
  ghost predicate PoolOf(l: Line, pool: seq<Case>, days: int) {
    && |pool| > 0 && l.kind == PooledLine && l.days == days && l.date == pool[|pool| - 1].date
    && |l.ids| == |pool| && forall i :: 0 <= i < |pool| ==> l.ids[i] == pool[i].id
  }

  lemma {:induction false} OwnMissing(cs: seq<Case>, r: Rules, e: int)
    ensures Own(Only(cs, r, MissingCat), e) == MissingOf(cs, e)
  {
    if |cs| > 0 {
      var front, c := cs[..|cs| - 1], cs[|cs| - 1];
      OwnMissing(front, r, e);
      CategoryIs(c, r);
      OwnSnoc(Only(front, r, MissingCat), c, e);
    }
  }

  lemma {:induction false} OwnShort(cs: seq<Case>, r: Rules, e: int)
    ensures Own(Only(cs, r, MinorCat), e) == ShortOf(cs, r, e)
  {
    if |cs| > 0 {
      var front, c := cs[..|cs| - 1], cs[|cs| - 1];
      OwnShort(front, r, e);
      CategoryIs(c, r);
      OwnSnoc(Only(front, r, MinorCat), c, e);
    }
  }

  lemma {:induction false} OwnSnoc(cs: seq<Case>, c: Case, e: int)
    ensures Own(cs + [c], e) == Own(cs, e) + (if c.employee == e then [c] else [])
    ensures Own(cs + [], e) == Own(cs, e)
  {
    assert (cs + [c])[..|cs|] == cs && cs + [] == cs;
  }

  /** The k-th chunk of a list is its k-th whole pool. */
  lemma {:induction false} ChunkIs(own: seq<Case>, size: int, days: int, k: nat)
    requires size >= 1 && k < |Chunks(own, size, days)|
    ensures 0 <= k * size && k * size + size <= |own|
    ensures PoolOf(Chunks(own, size, days)[k], own[k * size..k * size + size], days)
    decreases |own|
  {
    if k > 0 {
      var rest := own[size..];
      ChunkIs(rest, size, days, k - 1);
      Times(k - 1, size);
      assert rest[(k - 1) * size..(k - 1) * size + size] == own[k * size..k * size + size];
    }
  }

  lemma {:induction false} ChunksNumber(own: seq<Case>, size: int, days: int)
    requires size >= 1
    ensures |Chunks(own, size, days)| == |own| / size
    decreases |own|
  {
    if |own| < size {
      DivIs(|own|, size, 0, |own|);
    } else {
      ChunksNumber(own[size..], size, days);
      DivStep(|own|, size);
    }
  }

  /** Lines of whole pools of some employee's list, all of them. */
  ghost predicate PoolsHold(lines: seq<Line>, es: seq<int>, cs: seq<Case>, size: int, days: int)
    requires size >= 1
  {
    && (forall l :: l in lines ==> exists e, k: nat :: e in es && IsPool(l, Own(cs, e), size, days, k))
    && (forall e, k: nat :: e in es && k < |Own(cs, e)| / size ==> HasPool(lines, Own(cs, e), size, days, k))
  }

  /** The line is the k-th pool of the list. */
  ghost predicate IsPool(l: Line, own: seq<Case>, size: int, days: int, k: nat)
    requires size >= 1
  {
    0 <= k * size && k * size + size <= |own| && PoolOf(l, own[k * size..k * size + size], days)
  }

  ghost predicate HasPool(lines: seq<Line>, own: seq<Case>, size: int, days: int, k: nat)
    requires size >= 1
  {
    exists l :: l in lines && IsPool(l, own, size, days, k)
  }

  lemma {:induction false} PoolsAreHeld(es: seq<int>, cs: seq<Case>, size: int, days: int)
    requires size >= 1
    ensures PoolsHold(PoolLines(es, cs, size, days), es, cs, size, days)
  {
    if |es| > 0 {
      var front, e := es[..|es| - 1], es[|es| - 1];
      assert es == front + [e];
      PoolsAreHeld(front, cs, size, days);
      OneMoreEmployee(PoolLines(front, cs, size, days), front, e, cs, size, days);
    }
  }

  lemma {:induction false} OneMoreEmployee(lines: seq<Line>, es: seq<int>, e: int, cs: seq<Case>, size: int, days: int)
    requires size >= 1 && PoolsHold(lines, es, cs, size, days)
    ensures PoolsHold(lines + Chunks(Own(cs, e), size, days), es + [e], cs, size, days)
  {
    var own := Own(cs, e);
    var chunks := Chunks(own, size, days);
    var all := lines + chunks;
    forall l | l in all ensures exists x, k: nat :: x in es + [e] && IsPool(l, Own(cs, x), size, days, k) {
      if l in lines {
        var x, k: nat :| x in es && IsPool(l, Own(cs, x), size, days, k);
        assert x in es + [e];
      } else {
        var k :| 0 <= k < |chunks| && chunks[k] == l;
        ChunkIs(own, size, days, k);
        assert e in es + [e] && IsPool(l, own, size, days, k);
      }
    }
    forall x, k: nat | x in es + [e] && k < |Own(cs, x)| / size ensures HasPool(all, Own(cs, x), size, days, k) {
      if x in es {
        assert HasPool(lines, Own(cs, x), size, days, k);
        var l :| l in lines && IsPool(l, Own(cs, x), size, days, k);
        assert l in all;
      } else {
        ChunksNumber(own, size, days);
        ChunkIs(own, size, days, k);
        assert chunks[k] in all && IsPool(chunks[k], own, size, days, k);
      }
    }
  }

  // ---------------------------------------------------------------- pools of missing punches and of short timings

  /** The whole pools of every employee's missing punches, in order, each at its price, and none else. */
  ghost predicate MissingHold(lines: seq<Line>, cs: seq<Case>, r: Rules)
    requires r.missingPoolSize >= 1
  {
    && (forall l :: l in lines ==>
          exists e, k: nat :: IsPool(l, MissingOf(cs, e), r.missingPoolSize, r.missingDays, k))
    && (forall e, k: nat :: k < |MissingOf(cs, e)| / r.missingPoolSize ==>
          HasPool(lines, MissingOf(cs, e), r.missingPoolSize, r.missingDays, k))
  }

  /** The same of the shorter timings. */
  ghost predicate ShortHold(lines: seq<Line>, cs: seq<Case>, r: Rules)
    requires r.poolSize >= 1
  {
    && (forall l :: l in lines ==> exists e, k: nat :: IsPool(l, ShortOf(cs, r, e), r.poolSize, r.pooledMinorDays, k))
    && (forall e, k: nat :: k < |ShortOf(cs, r, e)| / r.poolSize ==>
          HasPool(lines, ShortOf(cs, r, e), r.poolSize, r.pooledMinorDays, k))
  }

  ghost function MissingDays(es: seq<int>, cs: seq<Case>, r: Rules): int
    requires r.missingPoolSize >= 1
  {
    if |es| == 0 then 0
    else MissingDays(es[..|es| - 1], cs, r) + (|MissingOf(cs, es[|es| - 1])| / r.missingPoolSize) * r.missingDays
  }

  ghost function ShortDays(es: seq<int>, cs: seq<Case>, r: Rules): int
    requires r.poolSize >= 1
  {
    if |es| == 0 then 0
    else ShortDays(es[..|es| - 1], cs, r) + (|ShortOf(cs, r, es[|es| - 1])| / r.poolSize) * r.pooledMinorDays
  }

  ghost function MissingRest(es: seq<int>, cs: seq<Case>, r: Rules): int
    requires r.missingPoolSize >= 1
  {
    if |es| == 0 then 0
    else MissingRest(es[..|es| - 1], cs, r) + |MissingOf(cs, es[|es| - 1])| % r.missingPoolSize
  }

  ghost function ShortRest(es: seq<int>, cs: seq<Case>, r: Rules): int
    requires r.poolSize >= 1
  {
    if |es| == 0 then 0 else ShortRest(es[..|es| - 1], cs, r) + |ShortOf(cs, r, es[|es| - 1])| % r.poolSize
  }

  lemma {:induction false} NoPool(cs: seq<Case>, e: int, size: int)
    requires size >= 1 && e !in Employees(cs)
    ensures |Own(cs, e)| / size == 0
  {
    OwnNone(cs, e);
  }

  lemma {:induction false} MissingAreHeld(cs: seq<Case>, r: Rules)
    requires r.missingPoolSize >= 1
    ensures var missing := Only(cs, r, MissingCat);
            MissingHold(PoolLines(Employees(missing), missing, r.missingPoolSize, r.missingDays), cs, r)
  {
    var missing, size, days := Only(cs, r, MissingCat), r.missingPoolSize, r.missingDays;
    var es := Employees(missing);
    var lines := PoolLines(es, missing, size, days);
    PoolsAreHeld(es, missing, size, days);
    forall e ensures Own(missing, e) == MissingOf(cs, e) { OwnMissing(cs, r, e); }
    forall l | l in lines ensures exists e, k: nat :: IsPool(l, MissingOf(cs, e), size, days, k) {
      var e, k: nat :| e in es && IsPool(l, Own(missing, e), size, days, k);
      assert IsPool(l, MissingOf(cs, e), size, days, k);
    }
    forall e, k: nat | k < |MissingOf(cs, e)| / size ensures HasPool(lines, MissingOf(cs, e), size, days, k) {
      if e !in es { NoPool(missing, e, size); }
      assert HasPool(lines, Own(missing, e), size, days, k);
    }
  }

  lemma {:induction false} ShortAreHeld(cs: seq<Case>, r: Rules)
    requires r.poolSize >= 1
    ensures var minors := Only(cs, r, MinorCat);
            ShortHold(PoolLines(Employees(minors), minors, r.poolSize, r.pooledMinorDays), cs, r)
  {
    var minors, size, days := Only(cs, r, MinorCat), r.poolSize, r.pooledMinorDays;
    var es := Employees(minors);
    var lines := PoolLines(es, minors, size, days);
    PoolsAreHeld(es, minors, size, days);
    forall e ensures Own(minors, e) == ShortOf(cs, r, e) { OwnShort(cs, r, e); }
    forall l | l in lines ensures exists e, k: nat :: IsPool(l, ShortOf(cs, r, e), size, days, k) {
      var e, k: nat :| e in es && IsPool(l, Own(minors, e), size, days, k);
      assert IsPool(l, ShortOf(cs, r, e), size, days, k);
    }
    forall e, k: nat | k < |ShortOf(cs, r, e)| / size ensures HasPool(lines, ShortOf(cs, r, e), size, days, k) {
      if e !in es { NoPool(minors, e, size); }
      assert HasPool(lines, Own(minors, e), size, days, k);
    }
  }

  lemma {:induction false} MissingAddUp(es: seq<int>, cs: seq<Case>, r: Rules)
    requires r.missingPoolSize >= 1
    ensures var missing := Only(cs, r, MissingCat);
            && DaysTotal(PoolLines(es, missing, r.missingPoolSize, r.missingDays)) == MissingDays(es, cs, r)
            && Leftover(es, missing, r.missingPoolSize) == MissingRest(es, cs, r)
  {
    if |es| > 0 {
      var front, e, missing := es[..|es| - 1], es[|es| - 1], Only(cs, r, MissingCat);
      MissingAddUp(front, cs, r);
      OwnMissing(cs, r, e);
      ChunksTotal(Own(missing, e), r.missingPoolSize, r.missingDays);
      DaysSplit(PoolLines(front, missing, r.missingPoolSize, r.missingDays),
                Chunks(Own(missing, e), r.missingPoolSize, r.missingDays));
    }
  }

  lemma {:induction false} ShortAddUp(es: seq<int>, cs: seq<Case>, r: Rules)
    requires r.poolSize >= 1
    ensures var minors := Only(cs, r, MinorCat);
            && DaysTotal(PoolLines(es, minors, r.poolSize, r.pooledMinorDays)) == ShortDays(es, cs, r)
            && Leftover(es, minors, r.poolSize) == ShortRest(es, cs, r)
  {
    if |es| > 0 {
      var front, e, minors := es[..|es| - 1], es[|es| - 1], Only(cs, r, MinorCat);
      ShortAddUp(front, cs, r);
      OwnShort(cs, r, e);
      ChunksTotal(Own(minors, e), r.poolSize, r.pooledMinorDays);
      DaysSplit(PoolLines(front, minors, r.poolSize, r.pooledMinorDays),
                Chunks(Own(minors, e), r.poolSize, r.pooledMinorDays));
    }
  }

  // ---------------------------------------------------------------- marked days

  ghost predicate MarksShiftOf(c: Case, shift: (int, int)) { MarksDay(c) && (c.employee, c.date) == shift }

  /** The line of a marked day: the highest of its marks, for exactly the cases that mark it. */
  ghost predicate Manual(l: Line, shift: (int, int), cases: seq<Case>) {
    && l.kind == ManualLine && l.date == shift.1
    && (exists c :: c in cases && MarksShiftOf(c, shift) && c.manual.value == l.days)
    && (forall c :: c in cases && MarksShiftOf(c, shift) ==> c.manual.value <= l.days)
    && (forall id :: id in l.ids <==> exists c :: c in cases && MarksShiftOf(c, shift) && c.id == id)
  }

  /** One such line for every marked day of the period. */
  ghost predicate ManualHold(lines: seq<Line>, shifts: seq<(int, int)>, cases: seq<Case>, p: Period) {
    && |lines| == |shifts| && Distinct(shifts)
    && (forall i :: 0 <= i < |lines| ==> Manual(lines[i], shifts[i], cases) && Within(p, shifts[i].1))
    && (forall c :: c in cases && MarksDay(c) && Within(p, c.date) ==> (c.employee, c.date) in shifts)
  }

  /** What a mark's identifiers are made of so far. */
  ghost predicate IdsHold(m: Mark, cases: seq<Case>) {
    forall id :: id in m.ids <==> exists c :: c in cases && MarksShift(c) && ShiftOf(c) == m.shift && c.id == id
  }

  lemma {:induction false} MarkIdsHold(cases: seq<Case>, p: Period, i: nat)
    requires ValidMarks(cases, p) && i < |MarksIn(cases, p)|
    ensures IdsHold(MarksIn(cases, p)[i], cases)
  {
    var front, c := cases[..|cases| - 1], cases[|cases| - 1];
    var before := MarksIn(front, p);
    assert cases == front + [c];
    MarksInHold(front, p);
    if i < |before| {
      MarkIdsHold(front, p, i);
      if MarksShift(c) && InPeriod(p, c.date) { Unmoved(before, c, i); }
      OneMoreCase(before[i], MarksIn(cases, p)[i], front, c, p);
    } else {
      FirstMark(before, front, c, p);
    }
  }

  lemma {:induction false} Unmoved(before: seq<Mark>, c: Case, i: nat)
    requires i < |before| && c.manual.Some?
    requires forall j, k :: 0 <= j < k < |before| ==> before[j].shift != before[k].shift
    ensures AddMark(before, c)[i] == if ShiftOf(c) == before[i].shift then Raise(before[i], c) else before[i]
  {
  }

  lemma {:induction false} FirstMark(before: seq<Mark>, cases: seq<Case>, c: Case, p: Period)
    requires HoldsMarks(before, cases, p) && MarksShift(c) && InPeriod(p, c.date)
    requires MarkIndex(before, ShiftOf(c)) == |before|
    ensures IdsHold(Mark(ShiftOf(c), c.manual.value, [c.id]), cases + [c])
  {
    assert !Marked(cases, ShiftOf(c));
    forall x | x in cases + [c] && MarksShift(x) && ShiftOf(x) == ShiftOf(c) ensures x == c {
    }
    assert c in cases + [c];
  }

  lemma {:induction false} OneMoreCase(m: Mark, n: Mark, cases: seq<Case>, c: Case, p: Period)
    requires IdsHold(m, cases) && InPeriod(p, m.shift.1)
    requires n == if MarksShift(c) && InPeriod(p, c.date) && ShiftOf(c) == m.shift then Raise(m, c) else m
    ensures IdsHold(n, cases + [c])
  {
    forall id ensures id in n.ids
      <==> exists x :: x in cases + [c] && MarksShift(x) && ShiftOf(x) == n.shift && x.id == id
    {
      if x :| x in cases && MarksShift(x) && ShiftOf(x) == n.shift && x.id == id {
        assert x in cases + [c];
      }
      assert c in cases + [c];
    }
  }

  lemma {:induction false} MarkIsManual(cases: seq<Case>, p: Period, i: nat)
    requires ValidMarks(cases, p) && i < |MarksIn(cases, p)|
    ensures var m := MarksIn(cases, p)[i]; Manual(MarkLine(m), m.shift, cases) && Within(p, m.shift.1)
  {
    var m := MarksIn(cases, p)[i];
    MarksInHold(cases, p);
    MarkIdsHold(cases, p, i);
    HighestIs(cases, m.shift);
    forall c ensures MarksShift(c) && ShiftOf(c) == m.shift <==> MarksShiftOf(c, m.shift) {
    }
    var c :| c in cases && MarksShift(c) && ShiftOf(c) == m.shift;
    assert ValidMark(c.manual.value);
  }

  lemma {:induction false} MarksAreManual(cases: seq<Case>, p: Period) returns (shifts: seq<(int, int)>)
    requires ValidMarks(cases, p)
    ensures ManualHold(MarkLines(MarksIn(cases, p)), shifts, cases, p)
  {
    var marks := MarksIn(cases, p);
    shifts := seq(|marks|, i requires 0 <= i < |marks| => marks[i].shift);
    MarksInHold(cases, p);
    forall i | 0 <= i < |marks| ensures Manual(MarkLines(marks)[i], shifts[i], cases) && Within(p, shifts[i].1) {
      MarkIsManual(cases, p, i);
    }
    forall c | c in cases && MarksDay(c) && Within(p, c.date) ensures (c.employee, c.date) in shifts {
      assert MarksShift(c) && Marked(cases, ShiftOf(c));
      assert shifts[MarkIndex(marks, ShiftOf(c))] == ShiftOf(c);
    }
  }

  // ---------------------------------------------------------------- the whole period

  /** A mark of the period that is none of half a day, a day and two days. */
  ghost predicate WrongMark(cases: seq<Case>, p: Period) {
    exists c :: c in cases && MarksDay(c) && Within(p, c.date) && c.manual.value !in {50, 100, 200}
  }

  /** A timing that is charged without evidence of any time. */
  ghost predicate NoEvidence(cs: seq<Case>) {
    exists c :: c in cs && Timed(c) && OffBy(c) <= 0
  }

  /** Employees, each once, among them everyone with a missing punch. */
  ghost predicate CoverMissing(es: seq<int>, cs: seq<Case>) {
    Distinct(es) && forall c :: c in cs && MissingPunch(c) ==> c.employee in es
  }

  ghost predicate CoverShort(es: seq<int>, cs: seq<Case>, r: Rules) {
    Distinct(es) && forall c :: c in cs && Short(c, r) ==> c.employee in es
  }

  datatype Parts = Parts(
    manual: seq<Line>, single: seq<Line>, missing: seq<Line>, short: seq<Line>,
    shifts: seq<(int, int)>, missers: seq<int>, lates: seq<int>)

  /** The marked days of the period, and the charged cases at their prices. */
  ghost predicate LinesHold(parts: Parts, cs: seq<Case>, cases: seq<Case>, p: Period, r: Rules)
    requires r.poolSize >= 1 && r.missingPoolSize >= 1
  {
    && ManualHold(parts.manual, parts.shifts, cases, p)
    && SinglesHold(parts.single, cs, r) && MissingHold(parts.missing, cs, r) && ShortHold(parts.short, cs, r)
    && CoverMissing(parts.missers, cs) && CoverShort(parts.lates, cs, r)
  }

  ghost function Shorts(cs: seq<Case>, r: Rules): nat {
    if |cs| == 0 then 0 else Shorts(cs[..|cs| - 1], r) + (if Short(cs[|cs| - 1], r) then 1 else 0)
  }

  ghost function Missings(cs: seq<Case>): nat {
    if |cs| == 0 then 0 else Missings(cs[..|cs| - 1]) + (if MissingPunch(cs[|cs| - 1]) then 1 else 0)
  }

  lemma {:induction false} CountsAre(cs: seq<Case>, r: Rules)
    ensures |Only(cs, r, MinorCat)| == Shorts(cs, r) && |Only(cs, r, MissingCat)| == Missings(cs)
  {
    if |cs| > 0 {
      CountsAre(cs[..|cs| - 1], r);
      CategoryIs(cs[|cs| - 1], r);
    }
  }

  lemma {:induction false} Covers(cs: seq<Case>, r: Rules)
    ensures CoverMissing(Employees(Only(cs, r, MissingCat)), cs)
    ensures CoverShort(Employees(Only(cs, r, MinorCat)), cs, r)
  {
    EmployeesDistinct(Only(cs, r, MissingCat));
    EmployeesDistinct(Only(cs, r, MinorCat));
    forall c | c in cs
      ensures MissingPunch(c) ==> c in Only(cs, r, MissingCat)
      ensures Short(c, r) ==> c in Only(cs, r, MinorCat)
    {
      CategoryIs(c, r);
      OnlyKeeps(cs, r, CategoryOf(r, c), c);
    }
  }

  lemma {:induction false} OnlyKeeps(cs: seq<Case>, r: Rules, cat: Category, c: Case)
    requires c in cs && CategoryOf(r, c) == cat
    ensures c in Only(cs, r, cat)
  {
    if c != cs[|cs| - 1] {
      assert c in cs[..|cs| - 1];
      OnlyKeeps(cs[..|cs| - 1], r, cat, c);
    }
  }

  /** Pricing fails exactly for a wrong mark of the period or a charged timing without evidence. */
  lemma {:induction false} PricingThrowsIff(cases: seq<Case>, p: Period, r: Rules)
    requires r.poolSize >= 1 && r.missingPoolSize >= 1
    ensures var cs := Incidents(SortCases(cases), cases, p);
            FirstCases(cs, cases, p) && (Priced(cases, p, r).Thrown? <==> WrongMark(cases, p) || NoEvidence(cs))
  {
    var cs := Incidents(SortCases(cases), cases, p);
    ChargedCases(cases, p);
    forall c | c in cs ensures IsTiming(c) && Measure(c) <= 0 <==> Timed(c) && OffBy(c) <= 0 {
      CategoryIs(c, r);
    }
    forall c ensures MarksShift(c) && InPeriod(p, c.date) <==> MarksDay(c) && Within(p, c.date) {
    }
  }

  /** Every line is one of these, and every such line is there. */
  lemma {:induction false} LinesArePriced(cases: seq<Case>, p: Period, r: Rules) returns (parts: Parts)
    requires r.poolSize >= 1 && r.missingPoolSize >= 1 && Priced(cases, p, r).Ok?
    ensures var cs := Incidents(SortCases(cases), cases, p);
            && FirstCases(cs, cases, p) && LinesHold(parts, cs, cases, p, r)
            && Priced(cases, p, r).value == parts.manual + (parts.single + parts.missing + parts.short)
            && parts.missers == Employees(Only(cs, r, MissingCat)) && parts.lates == Employees(Only(cs, r, MinorCat))
            && parts.missing == PoolLines(parts.missers, Only(cs, r, MissingCat), r.missingPoolSize, r.missingDays)
            && parts.short == PoolLines(parts.lates, Only(cs, r, MinorCat), r.poolSize, r.pooledMinorDays)
  {
    var cs := Incidents(SortCases(cases), cases, p);
    var missing, minors := Only(cs, r, MissingCat), Only(cs, r, MinorCat);
    ChargedCases(cases, p);
    assert ValidMarks(cases, p);
    var shifts := MarksAreManual(cases, p);
    SinglesAreHeld(cs, r);
    MissingAreHeld(cs, r);
    ShortAreHeld(cs, r);
    Covers(cs, r);
    parts := Parts(MarkLines(MarksIn(cases, p)), SingleLines(cs, r),
                   PoolLines(Employees(missing), missing, r.missingPoolSize, r.missingDays),
                   PoolLines(Employees(minors), minors, r.poolSize, r.pooledMinorDays),
                   shifts, Employees(missing), Employees(minors));
  }

  ghost function Summed(lines: seq<Line>): int {
    if |lines| == 0 then 0 else lines[0].days + Summed(lines[1..])
  }

  lemma {:induction false} DaysAreSummed(lines: seq<Line>)
    ensures DaysTotal(lines) == Summed(lines)
  {
    if |lines| > 0 {
      DaysAreSummed(lines[1..]);
      DaysSplit([lines[0]], lines[1..]);
      OneLine(lines[0]);
      assert [lines[0]] + lines[1..] == lines;
    }
  }

  /**
   What a priced period costs: its marked days, a price for every absence and for every long timing, and a price for
   every whole pool of an employee's missing punches and of an employee's shorter timings; the counts and remainders
   are those of the same cases.
   */
  lemma {:induction false} DaysAreCounted(cases: seq<Case>, p: Period, r: Rules, s: Summary) returns (parts: Parts)
    requires r.poolSize >= 1 && r.missingPoolSize >= 1 && Priced(cases, p, r) == Ok(s.lines)
    requires s.days == DaysTotal(s.lines)
    ensures var cs := Incidents(SortCases(cases), cases, p);
            && FirstCases(cs, cases, p) && LinesHold(parts, cs, cases, p, r)
            && s.lines == parts.manual + (parts.single + parts.missing + parts.short)
            && s.days == Summed(parts.manual) + Absences(cs) * r.absentDays + Longs(cs, r) * r.majorDays
                         + MissingDays(parts.missers, cs, r) + ShortDays(parts.lates, cs, r)
  {
    var cs := Incidents(SortCases(cases), cases, p);
    parts := LinesArePriced(cases, p, r);
    MissingAddUp(parts.missers, cs, r);
    ShortAddUp(parts.lates, cs, r);
    DaysSplit(parts.single, parts.missing);
    DaysSplit(parts.single + parts.missing, parts.short);
    DaysSplit(parts.manual, parts.single + parts.missing + parts.short);
    DaysAreSummed(parts.manual);
  }

  /** The counts and remainders of a summary. */
  lemma {:induction false} CountsAreTold(cs: seq<Case>, r: Rules)
    requires r.poolSize >= 1 && r.missingPoolSize >= 1
    ensures var missing, minors := Only(cs, r, MissingCat), Only(cs, r, MinorCat);
            && |minors| == Shorts(cs, r) && |missing| == Missings(cs)
            && Leftover(Employees(minors), minors, r.poolSize) == ShortRest(Employees(minors), cs, r)
            && Leftover(Employees(missing), missing, r.missingPoolSize) == MissingRest(Employees(missing), cs, r)
            && CoverMissing(Employees(missing), cs) && CoverShort(Employees(minors), cs, r)
  {
    CountsAre(cs, r);
    Covers(cs, r);
    MissingAddUp(Employees(Only(cs, r, MissingCat)), cs, r);
    ShortAddUp(Employees(Only(cs, r, MinorCat)), cs, r);
  }
}
