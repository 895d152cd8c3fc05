/** What holds of every priced period. */
module RuleDeductionLaws {
  import opened Options
  import opened Arithmetic
  import opened Sequences
  import opened Sums
  import opened RuleDeductions

  // ---------------------------------------------------------------- totals of lines

  lemma {:induction false} DaysSplit(a: seq<Line>, b: seq<Line>)
    ensures DaysTotal(a + b) == DaysTotal(a) + DaysTotal(b)
  {
    if |b| == 0 {
      assert a + b == a;
    } else {
      DaysSplit(a, b[..|b| - 1]);
      assert (a + b)[..|a + b| - 1] == a + b[..|b| - 1];
    }
  }

  lemma {:induction false} OneLine(line: Line)
    ensures DaysTotal([line]) == line.days
  {
    var lines := [line];
    assert lines[..|lines| - 1] == [];
  }

  lemma {:induction false} ChunkStep(n: int, size: int, days: int)
    requires size >= 1
    ensures 0 <= n < size ==> (n / size) * days == 0
    ensures days + ((n - size) / size) * days == (n / size) * days
  {
    if 0 <= n < size {
      DivIs(n, size, 0, n);
    }
    DivStep(n, size);
    assert ((n - size) / size + 1) * days == ((n - size) / size) * days + days;
  }

  lemma {:induction false} ChunksTotal(own: seq<Case>, size: int, days: int)
    requires size >= 1
    ensures DaysTotal(Chunks(own, size, days)) == (|own| / size) * days
    decreases |own|
  {
    ChunkStep(|own|, size, days);
    if |own| >= size {
      var line, rest := PoolLine(own[..size], days), own[size..];
      ChunksTotal(rest, size, days);
      DaysSplit([line], Chunks(rest, size, days));
      OneLine(line);
    }
  }

  function Amount(cs: seq<Case>, e: int, size: int, days: int): int
    requires size >= 1
  {
    (|Own(cs, e)| / size) * days
  }

  function PoolEntries(es: seq<int>, cs: seq<Case>, size: int, days: int): seq<Entry<int>>
    requires size >= 1
  {
    seq(|es|, i requires 0 <= i < |es| => Entry(es[i], Amount(cs, es[i], size, days)))
  }

  lemma {:induction false} PoolLinesTotal(es: seq<int>, cs: seq<Case>, size: int, days: int)
    requires size >= 1
    ensures DaysTotal(PoolLines(es, cs, size, days)) == Total(PoolEntries(es, cs, size, days))
  {
    if |es| > 0 {
      var n := |es| - 1;
      PoolLinesTotal(es[..n], cs, size, days);
      ChunksTotal(Own(cs, es[n]), size, days);
      DaysSplit(PoolLines(es[..n], cs, size, days), Chunks(Own(cs, es[n]), size, days));
      assert PoolEntries(es, cs, size, days)[..n] == PoolEntries(es[..n], cs, size, days);
    }
  }

  // ---------------------------------------------------------------- pools of two adjacent lists

  lemma {:induction false} OwnSplit(a: seq<Case>, b: seq<Case>, e: int)
    ensures Own(a + b, e) == Own(a, e) + Own(b, e)
  {
    if |b| == 0 {
      assert a + b == a;
    } else {
      OwnSplit(a, b[..|b| - 1], e);
      assert (a + b)[..|a + b| - 1] == a + b[..|b| - 1];
    }
  }

  lemma {:induction false} OwnNone(cs: seq<Case>, e: int)
    requires forall c :: c in cs ==> c.employee != e
    ensures Own(cs, e) == []
  {
    if |cs| > 0 {
      assert cs[|cs| - 1] in cs;
      OwnNone(cs[..|cs| - 1], e);
    }
  }

  lemma {:induction false} EmployeesDistinct(cs: seq<Case>)
    ensures Distinct(Employees(cs))
  {
    if |cs| > 0 {
      EmployeesDistinct(cs[..|cs| - 1]);
    }
  }

  lemma {:induction false} PoolAmount(n: nat, size: int, days: int)
    requires size >= 1 && days >= 0
    ensures (n / size) * days >= 0
    ensures n == 0 ==> (n / size) * days == 0
  {
    assert n / size >= 0;
  }

  /** Employees without a case add nothing, so any distinct list that has the others will do. */
  lemma {:induction false} PoolOverMore(es: seq<int>, cs: seq<Case>, size: int, days: int)
    requires size >= 1 && days >= 0 && Distinct(es)
    requires forall e :: e in Employees(cs) ==> e in es
    ensures Total(PoolEntries(Employees(cs), cs, size, days)) == Total(PoolEntries(es, cs, size, days))
  {
    var few, many := PoolEntries(Employees(cs), cs, size, days), PoolEntries(es, cs, size, days);
    EmployeesDistinct(cs);
    forall i | 0 <= i < |few| ensures few[i].amount >= 0 && Covered(few[i], many) {
      PoolAmount(|Own(cs, Employees(cs)[i])|, size, days);
      assert Employees(cs)[i] in Employees(cs);
      var j :| 0 <= j < |es| && es[j] == Employees(cs)[i];
      assert many[j].key == few[i].key;
    }
    forall j | 0 <= j < |many| ensures many[j].amount >= 0 && (many[j].amount > 0 ==> Covered(many[j], few)) {
      PoolAmount(|Own(cs, es[j])|, size, days);
      if es[j] in Employees(cs) {
        var i :| 0 <= i < |few| && Employees(cs)[i] == es[j];
        assert few[i].key == many[j].key;
      } else {
        OwnNone(cs, es[j]);
      }
    }
    SameEntriesSameTotal(few, many);
  }

  lemma {:induction false} SharesSplit(x: int, y: int, size: int, days: int)
    requires size >= 1 && days >= 0
    ensures (x / size) * days + (y / size) * days <= ((x + y) / size) * days
            <= (x / size) * days + (y / size) * days + days
  {
    DivSplit(x, y, size);
    var q, s, k := x / size, y / size, (x + y) / size;
    SumTimes(q, s, days);
    MulGrows(q + s, k, days);
    MulGrows(k, q + s + 1, days);
  }

  lemma {:induction false} SumTimes(q: int, s: int, days: int)
    ensures (q + s) * days == q * days + s * days
    ensures (q + s + 1) * days == q * days + s * days + days
  {
  }

  lemma {:induction false} AmountSplit(a: seq<Case>, b: seq<Case>, e: int, size: int, days: int)
    requires size >= 1 && days >= 0
    ensures Amount(a, e, size, days) + Amount(b, e, size, days) <= Amount(a + b, e, size, days)
    ensures Amount(a + b, e, size, days) <= Amount(a, e, size, days) + Amount(b, e, size, days) + days
  {
    OwnSplit(a, b, e);
    SharesSplit(|Own(a, e)|, |Own(b, e)|, size, days);
  }

  lemma {:induction false} TimesStep(n: nat, days: int)
    ensures (n + 1) * days == n * days + days
  {
  }

  lemma {:induction false} PoolEntriesSnoc(es: seq<int>, cs: seq<Case>, size: int, days: int)
    requires size >= 1 && |es| > 0
    ensures var n := |es| - 1;
            Total(PoolEntries(es, cs, size, days))
              == Total(PoolEntries(es[..n], cs, size, days)) + Amount(cs, es[n], size, days)
  {
    var n := |es| - 1;
    assert PoolEntries(es, cs, size, days)[..n] == PoolEntries(es[..n], cs, size, days);
  }

  /** Pooling two lists together costs at least as much as pooling each, and at most one pool per employee more. */
  lemma {:induction false} PoolsSplit(es: seq<int>, a: seq<Case>, b: seq<Case>, size: int, days: int)
    requires size >= 1 && days >= 0
    ensures Total(PoolEntries(es, a, size, days)) + Total(PoolEntries(es, b, size, days))
              <= Total(PoolEntries(es, a + b, size, days))
    ensures Total(PoolEntries(es, a + b, size, days))
              <= Total(PoolEntries(es, a, size, days)) + Total(PoolEntries(es, b, size, days)) + |es| * days
  {
    if |es| > 0 {
      var n := |es| - 1;
      PoolsSplit(es[..n], a, b, size, days);
      AmountSplit(a, b, es[n], size, days);
      PoolEntriesSnoc(es, a, size, days);
      PoolEntriesSnoc(es, b, size, days);
      PoolEntriesSnoc(es, a + b, size, days);
      TimesStep(n, days);
    }
  }

  function PoolDays(cs: seq<Case>, size: int, days: int): int
    requires size >= 1
  {
    DaysTotal(PoolLines(Employees(cs), cs, size, days))
  }

  lemma {:induction false} PoolDaysSplit(a: seq<Case>, b: seq<Case>, size: int, days: int)
    requires size >= 1 && days >= 0
    ensures PoolDays(a, size, days) + PoolDays(b, size, days) <= PoolDays(a + b, size, days)
    ensures PoolDays(a + b, size, days) <= PoolDays(a, size, days) + PoolDays(b, size, days) + |Employees(a + b)| * days
  {
    var es := Employees(a + b);
    EmployeesDistinct(a + b);
    forall e | e in Employees(a) || e in Employees(b) ensures e in es {
      if e in Employees(a) {
        var c :| c in a && c.employee == e;
        assert c in a + b;
      } else {
        var c :| c in b && c.employee == e;
        assert c in a + b;
      }
    }
    PoolOverMore(es, a, size, days);
    PoolOverMore(es, b, size, days);
    PoolsSplit(es, a, b, size, days);
    PoolLinesTotal(Employees(a), a, size, days);
    PoolLinesTotal(Employees(b), b, size, days);
    PoolLinesTotal(es, a + b, size, days);
  }

  // ---------------------------------------------------------------- manual marks

  function Highest(cases: seq<Case>, shift: (int, int)): int {
    if |cases| == 0 then 0
    else
      var before, c := Highest(cases[..|cases| - 1], shift), cases[|cases| - 1];
      if MarksShift(c) && ShiftOf(c) == shift && c.manual.value > before then c.manual.value else before
  }

  ghost predicate ValidMarks(cases: seq<Case>, p: Period) {
    forall c :: c in cases && MarksShift(c) && InPeriod(p, c.date) ==> ValidMark(c.manual.value)
  }

  /** One mark per marked shift of the period, at the highest marking. */
  ghost predicate HoldsMarks(marks: seq<Mark>, cases: seq<Case>, p: Period) {
    && (forall i, j :: 0 <= i < j < |marks| ==> marks[i].shift != marks[j].shift)
    && (forall i :: 0 <= i < |marks| ==>
          marks[i].days == Highest(cases, marks[i].shift) >= 0 && Marked(cases, marks[i].shift)
            && InPeriod(p, marks[i].shift.1))
    && (forall shift: (int, int) :: Marked(cases, shift) && InPeriod(p, shift.1) ==> MarkIndex(marks, shift) < |marks|)
  }

  lemma {:induction false} MarkedSnoc(cases: seq<Case>, c: Case, shift: (int, int))
    ensures Marked(cases + [c], shift) <==> Marked(cases, shift) || (MarksShift(c) && ShiftOf(c) == shift)
    ensures Highest(cases + [c], shift) ==
              (if MarksShift(c) && ShiftOf(c) == shift && c.manual.value > Highest(cases, shift) then c.manual.value
               else Highest(cases, shift))
  {
    assert (cases + [c])[..|cases|] == cases;
    assert c in cases + [c];
    if Marked(cases, shift) {
      var x :| x in cases && MarksShift(x) && ShiftOf(x) == shift;
      assert x in cases + [c];
    }
  }

  lemma {:induction false} UnmarkedHighest(cases: seq<Case>, shift: (int, int))
    requires !Marked(cases, shift)
    ensures Highest(cases, shift) == 0
  {
    if |cases| > 0 {
      assert cases[|cases| - 1] in cases;
      UnmarkedHighest(cases[..|cases| - 1], shift);
    }
  }

  lemma {:induction false} SkipMark(marks: seq<Mark>, cases: seq<Case>, c: Case, p: Period)
    requires HoldsMarks(marks, cases, p) && !(MarksShift(c) && InPeriod(p, c.date))
    ensures HoldsMarks(marks, cases + [c], p)
  {
    forall shift: (int, int) | InPeriod(p, shift.1)
      ensures Marked(cases + [c], shift) <==> Marked(cases, shift)
      ensures Highest(cases + [c], shift) == Highest(cases, shift)
    {
      MarkedSnoc(cases, c, shift);
    }
  }

  lemma {:induction false} StillIndexed(marks: seq<Mark>, c: Case, shift: (int, int))
    requires MarksShift(c) && (shift == ShiftOf(c) || MarkIndex(marks, shift) < |marks|)
    ensures MarkIndex(AddMark(marks, c), shift) < |AddMark(marks, c)|
  {
    var out, k := AddMark(marks, c), MarkIndex(marks, ShiftOf(c));
    if shift == ShiftOf(c) {
      assert out[k].shift == shift;
    } else {
      assert out[MarkIndex(marks, shift)].shift == shift;
    }
  }

  /** Each mark of the list after one more case. */
  lemma {:induction false} AddedMark(marks: seq<Mark>, cases: seq<Case>, c: Case, p: Period, i: nat)
    requires HoldsMarks(marks, cases, p) && MarksShift(c) && InPeriod(p, c.date) && c.manual.value >= 0
    requires i < |AddMark(marks, c)|
    ensures var m := AddMark(marks, c)[i];
            m.days == Highest(cases + [c], m.shift) >= 0 && Marked(cases + [c], m.shift) && InPeriod(p, m.shift.1)
  {
    MarkedSnoc(cases, c, AddMark(marks, c)[i].shift);
    if MarkIndex(marks, ShiftOf(c)) == |marks| {
      UnmarkedHighest(cases, ShiftOf(c));
    }
  }

  lemma {:induction false} TakeMark(marks: seq<Mark>, cases: seq<Case>, c: Case, p: Period)
    requires HoldsMarks(marks, cases, p) && MarksShift(c) && InPeriod(p, c.date) && c.manual.value >= 0
    ensures HoldsMarks(AddMark(marks, c), cases + [c], p)
  {
    var out := AddMark(marks, c);
    forall i | 0 <= i < |out|
      ensures out[i].days == Highest(cases + [c], out[i].shift) >= 0 && Marked(cases + [c], out[i].shift)
              && InPeriod(p, out[i].shift.1)
    {
      AddedMark(marks, cases, c, p, i);
    }
    forall shift: (int, int) | Marked(cases + [c], shift) && InPeriod(p, shift.1)
      ensures MarkIndex(out, shift) < |out|
    {
      MarkedSnoc(cases, c, shift);
      StillIndexed(marks, c, shift);
    }
  }

  lemma {:induction false} MarksInHold(cases: seq<Case>, p: Period)
    requires ValidMarks(cases, p)
    ensures HoldsMarks(MarksIn(cases, p), cases, p)
  {
    if |cases| > 0 {
      var front, c := cases[..|cases| - 1], cases[|cases| - 1];
      assert cases == front + [c];
      MarksInHold(front, p);
      if MarksShift(c) && InPeriod(p, c.date) {
        assert c in cases;
        TakeMark(MarksIn(front, p), front, c, p);
      } else {
        SkipMark(MarksIn(front, p), front, c, p);
      }
    }
  }

  function MarkEntries(marks: seq<Mark>): seq<Entry<(int, int)>> {
    seq(|marks|, i requires 0 <= i < |marks| => Entry(marks[i].shift, marks[i].days))
  }

  lemma {:induction false} MarkLinesTotal(marks: seq<Mark>)
    ensures DaysTotal(MarkLines(marks)) == Total(MarkEntries(marks))
  {
    if |marks| > 0 {
      var n := |marks| - 1;
      MarkLinesTotal(marks[..n]);
      assert MarkLines(marks)[..n] == MarkLines(marks[..n]);
      assert MarkEntries(marks)[..n] == MarkEntries(marks[..n]);
    }
  }

  /** A mark of one list is found in another that holds the same shift at the same marking. */
  lemma {:induction false} MarkCovered(marks: seq<Mark>, others: seq<Mark>, cases: seq<Case>, more: seq<Case>,
                                       p: Period, q: Period, i: nat)
    requires HoldsMarks(marks, cases, p) && HoldsMarks(others, more, q) && i < |marks|
    requires Marked(more, marks[i].shift) && InPeriod(q, marks[i].shift.1)
    requires Highest(more, marks[i].shift) == Highest(cases, marks[i].shift)
    ensures Covered(MarkEntries(marks)[i], MarkEntries(others))
  {
    var j := MarkIndex(others, marks[i].shift);
    assert MarkEntries(others)[j].key == marks[i].shift;
  }

  // ---------------------------------------------------------------- cutting a period in two

  ghost predicate Cuts(p: Period, m: int) {
    (p.from.Some? ==> p.from.value <= m + 1) && (p.to.Some? ==> m <= p.to.value)
  }

  function Before(p: Period, m: int): Period { Period(p.from, Some(m)) }

  function After(p: Period, m: int): Period { Period(Some(m + 1), p.to) }

  lemma {:induction false} MarksSplit(cases: seq<Case>, p: Period, m: int)
    requires Cuts(p, m) && ValidMarks(cases, p)
    ensures DaysTotal(MarkLines(MarksIn(cases, p)))
              == DaysTotal(MarkLines(MarksIn(cases, Before(p, m)))) + DaysTotal(MarkLines(MarksIn(cases, After(p, m))))
  {
    MarksInHold(cases, p);
    MarksInHold(cases, Before(p, m));
    MarksInHold(cases, After(p, m));
    MarkEntriesSplit(MarksIn(cases, p), MarksIn(cases, Before(p, m)), MarksIn(cases, After(p, m)), cases, p, m);
    MarkLinesTotal(MarksIn(cases, p));
    MarkLinesTotal(MarksIn(cases, Before(p, m)));
    MarkLinesTotal(MarksIn(cases, After(p, m)));
  }

  lemma {:induction false} MarkEntriesSplit(all: seq<Mark>, a: seq<Mark>, b: seq<Mark>, cases: seq<Case>, p: Period,
                                            m: int)
    requires Cuts(p, m) && HoldsMarks(all, cases, p)
    requires HoldsMarks(a, cases, Before(p, m)) && HoldsMarks(b, cases, After(p, m))
    ensures Total(MarkEntries(all)) == Total(MarkEntries(a)) + Total(MarkEntries(b))
  {
    var ys := MarkEntries(a) + MarkEntries(b);
    TotalSplit(MarkEntries(a), MarkEntries(b));
    WholeCovered(all, a, b, cases, p, m);
    HalvesCovered(all, a, b, cases, p, m);
    HalvesDistinct(a, b, cases, p, m);
    MarksDistinct(all, cases, p);
    SameEntriesSameTotal(MarkEntries(all), ys);
  }

  lemma {:induction false} MarksDistinct(marks: seq<Mark>, cases: seq<Case>, p: Period)
    requires HoldsMarks(marks, cases, p)
    ensures DistinctKeys(MarkEntries(marks))
  {
  }

  lemma {:induction false} HalvesDistinct(a: seq<Mark>, b: seq<Mark>, cases: seq<Case>, p: Period, m: int)
    requires HoldsMarks(a, cases, Before(p, m)) && HoldsMarks(b, cases, After(p, m))
    ensures DistinctKeys(MarkEntries(a) + MarkEntries(b))
  {
    var ys := MarkEntries(a) + MarkEntries(b);
    forall i, j | 0 <= i < j < |ys| ensures ys[i].key != ys[j].key {
      if i < |a| <= j {
        assert a[i].shift.1 <= m < b[j - |a|].shift.1;
      }
    }
  }

  lemma {:induction false} WholeCovered(all: seq<Mark>, a: seq<Mark>, b: seq<Mark>, cases: seq<Case>, p: Period, m: int)
    requires Cuts(p, m) && HoldsMarks(all, cases, p)
    requires HoldsMarks(a, cases, Before(p, m)) && HoldsMarks(b, cases, After(p, m))
    ensures Dominated(MarkEntries(all), MarkEntries(a) + MarkEntries(b))
  {
    forall i | 0 <= i < |all| ensures Covered(MarkEntries(all)[i], MarkEntries(a) + MarkEntries(b)) {
      if InPeriod(Before(p, m), all[i].shift.1) {
        MarkCovered(all, a, cases, cases, p, Before(p, m), i);
        CoveredLeft(MarkEntries(all)[i], MarkEntries(a), MarkEntries(b));
      } else {
        MarkCovered(all, b, cases, cases, p, After(p, m), i);
        CoveredRight(MarkEntries(all)[i], MarkEntries(a), MarkEntries(b));
      }
    }
  }

  lemma {:induction false} HalvesCovered(all: seq<Mark>, a: seq<Mark>, b: seq<Mark>, cases: seq<Case>, p: Period,
                                         m: int)
    requires Cuts(p, m) && HoldsMarks(all, cases, p)
    requires HoldsMarks(a, cases, Before(p, m)) && HoldsMarks(b, cases, After(p, m))
    ensures Dominated(MarkEntries(a) + MarkEntries(b), MarkEntries(all))
  {
    var ys := MarkEntries(a) + MarkEntries(b);
    forall i | 0 <= i < |ys| ensures Covered(ys[i], MarkEntries(all)) {
      if i < |a| {
        MarkCovered(a, all, cases, cases, Before(p, m), p, i);
      } else {
        MarkCovered(b, all, cases, cases, After(p, m), p, i - |a|);
      }
    }
  }

  lemma {:induction false} CoveredLeft(x: Entry<(int, int)>, a: seq<Entry<(int, int)>>, b: seq<Entry<(int, int)>>)
    requires Covered(x, a)
    ensures Covered(x, a + b)
  {
    var j :| 0 <= j < |a| && a[j].key == x.key && x.amount <= a[j].amount;
    assert (a + b)[j] == a[j];
  }

  lemma {:induction false} CoveredRight(x: Entry<(int, int)>, a: seq<Entry<(int, int)>>, b: seq<Entry<(int, int)>>)
    requires Covered(x, b)
    ensures Covered(x, a + b)
  {
    var j :| 0 <= j < |b| && b[j].key == x.key && x.amount <= b[j].amount;
    assert (a + b)[|a| + j] == b[j];
  }

  lemma {:induction false} IncidentsFrom(s: seq<Case>, cases: seq<Case>, p: Period)
    ensures forall c :: c in Incidents(s, cases, p) ==> c in s && Automatic(cases, p, c)
  {
    if |s| > 0 {
      assert s == s[..|s| - 1] + [s[|s| - 1]];
      IncidentsFrom(s[..|s| - 1], cases, p);
    }
  }

  lemma {:induction false} NothingAfter(front: seq<Case>, c: Case, b: seq<Case>, m: int)
    requires InOrder(front + [c]) && c.date <= m && forall k :: k in b ==> k in front && k.date > m
    ensures b == []
  {
    if |b| > 0 {
      assert b[0] in b;
      var i :| 0 <= i < |front| && front[i] == b[0];
      PrecedesLast(front, c, i);
    }
  }

  lemma {:induction false} PrecedesLast(front: seq<Case>, c: Case, i: nat)
    requires InOrder(front + [c]) && i < |front|
    ensures front[i].date <= c.date
  {
    var s := front + [c];
    assert Precedes(s[i], s[|front|]);
  }

  lemma {:induction false} KeepEarly(a: seq<Case>, cases: seq<Case>, p: Period, m: int, c: Case)
    requires Cuts(p, m) && c.date <= m
    ensures KeepIncident(a, cases, p, c) == KeepIncident(a, cases, Before(p, m), c)
    ensures KeepIncident([], cases, After(p, m), c) == []
  {
  }

  lemma {:induction false} KeepLate(a: seq<Case>, b: seq<Case>, cases: seq<Case>, p: Period, m: int, c: Case)
    requires Cuts(p, m) && c.date > m && forall k :: k in a ==> k.date <= m
    ensures KeepIncident(a + b, cases, p, c) == a + KeepIncident(b, cases, After(p, m), c)
    ensures KeepIncident(a, cases, Before(p, m), c) == a
  {
    assert (exists k :: k in a + b && SameIncident(k, c)) <==> (exists k :: k in b && SameIncident(k, c));
    assert a + b + [c] == a + (b + [c]);
  }

  /** In date order, the incidents of a period are those before the cut followed by those after it. */
  lemma {:induction false} IncidentsSplit(s: seq<Case>, cases: seq<Case>, p: Period, m: int)
    requires InOrder(s) && Cuts(p, m)
    ensures Incidents(s, cases, p) == Incidents(s, cases, Before(p, m)) + Incidents(s, cases, After(p, m))
  {
    if |s| > 0 {
      var front, c := s[..|s| - 1], s[|s| - 1];
      assert s == front + [c];
      IncidentsSplit(front, cases, p, m);
      var a, b := Incidents(front, cases, Before(p, m)), Incidents(front, cases, After(p, m));
      IncidentsFrom(front, cases, Before(p, m));
      IncidentsFrom(front, cases, After(p, m));
      if c.date <= m {
        NothingAfter(front, c, b, m);
        assert a + b == a;
        KeepEarly(a, cases, p, m, c);
        assert KeepIncident(a, cases, p, c) + [] == KeepIncident(a, cases, p, c);
      } else {
        KeepLate(a, b, cases, p, m, c);
      }
    }
  }

  lemma {:induction false} OnlySplit(a: seq<Case>, b: seq<Case>, r: Rules, cat: Category)
    ensures Only(a + b, r, cat) == Only(a, r, cat) + Only(b, r, cat)
  {
    if |b| == 0 {
      assert a + b == a;
    } else {
      OnlySplit(a, b[..|b| - 1], r, cat);
      assert (a + b)[..|a + b| - 1] == a + b[..|b| - 1];
    }
  }

  lemma {:induction false} SinglesSplit(a: seq<Case>, b: seq<Case>, r: Rules)
    ensures SingleLines(a + b, r) == SingleLines(a, r) + SingleLines(b, r)
  {
    if |b| == 0 {
      assert a + b == a;
    } else {
      var f := b[..|b| - 1];
      SinglesSplit(a, f, r);
      assert (a + b)[..|a + b| - 1] == a + f;
      Regroup(SingleLines(a, r), SingleLines(f, r), SingleOf(b[|b| - 1], r));
    }
  }

  lemma {:induction false} Regroup(x: seq<Line>, y: seq<Line>, z: seq<Line>)
    ensures (x + y) + z == x + (y + z)
  {
  }

  lemma {:induction false} AutomaticTotal(cs: seq<Case>, r: Rules)
    requires Usable(r)
    ensures DaysTotal(AutomaticLines(cs, r)) ==
              DaysTotal(SingleLines(cs, r)) + PoolDays(Only(cs, r, MissingCat), r.missingPoolSize, r.missingDays)
              + PoolDays(Only(cs, r, MinorCat), r.poolSize, r.pooledMinorDays)
  {
    var missing, minors := Only(cs, r, MissingCat), Only(cs, r, MinorCat);
    var x := PoolLines(Employees(missing), missing, r.missingPoolSize, r.missingDays);
    var y := PoolLines(Employees(minors), minors, r.poolSize, r.pooledMinorDays);
    DaysSplit(SingleLines(cs, r), x);
    DaysSplit(SingleLines(cs, r) + x, y);
  }

  lemma {:induction false} AutomaticSplit(a: seq<Case>, b: seq<Case>, r: Rules)
    requires Usable(r)
    ensures var whole := DaysTotal(AutomaticLines(a + b, r));
            var halves := DaysTotal(AutomaticLines(a, r)) + DaysTotal(AutomaticLines(b, r));
            halves <= whole <= halves + |Employees(Only(a + b, r, MissingCat))| * r.missingDays
                                      + |Employees(Only(a + b, r, MinorCat))| * r.pooledMinorDays
  {
    AutomaticTotal(a, r);
    AutomaticTotal(b, r);
    AutomaticTotal(a + b, r);
    OnlySplit(a, b, r, MissingCat);
    OnlySplit(a, b, r, MinorCat);
    SinglesSplit(a, b, r);
    DaysSplit(SingleLines(a, r), SingleLines(b, r));
    PoolDaysSplit(Only(a, r, MissingCat), Only(b, r, MissingCat), r.missingPoolSize, r.missingDays);
    PoolDaysSplit(Only(a, r, MinorCat), Only(b, r, MinorCat), r.poolSize, r.pooledMinorDays);
  }

  /**
   Cutting a pricing period never raises the deduction, and lowers it by at most one minor pool and one
   missing-punch pool per employee that has such cases.
   */
  lemma {:induction false} SplittingNeverRaises(cases: seq<Case>, p: Period, m: int, r: Rules)
    requires Usable(r) && Cuts(p, m) && Priced(cases, p, r).Ok?
    ensures Priced(cases, Before(p, m), r).Ok? && Priced(cases, After(p, m), r).Ok?
    ensures var whole := DaysTotal(Priced(cases, p, r).value);
            var halves := DaysTotal(Priced(cases, Before(p, m), r).value)
                          + DaysTotal(Priced(cases, After(p, m), r).value);
            var cs := Incidents(SortCases(cases), cases, p);
            halves <= whole <= halves + |Employees(Only(cs, r, MissingCat))| * r.missingDays
                                      + |Employees(Only(cs, r, MinorCat))| * r.pooledMinorDays
  {
    SortedInOrder(cases);
    var s := SortCases(cases);
    IncidentsSplit(s, cases, p, m);
    var a, b := Incidents(s, cases, Before(p, m)), Incidents(s, cases, After(p, m));
    assert forall c :: c in a || c in b ==> c in a + b;
    assert !BadTiming(a) && !BadTiming(b);
    assert !BadMark(cases, Before(p, m)) && !BadMark(cases, After(p, m));
    assert ValidMarks(cases, p);
    MarksSplit(cases, p, m);
    AutomaticSplit(a, b, r);
    DaysSplit(MarkLines(MarksIn(cases, p)), AutomaticLines(a + b, r));
    DaysSplit(MarkLines(MarksIn(cases, Before(p, m))), AutomaticLines(a, r));
    DaysSplit(MarkLines(MarksIn(cases, After(p, m))), AutomaticLines(b, r));
  }

  // ---------------------------------------------------------------- input order does not matter

  lemma {:induction false} HighestIs(cases: seq<Case>, shift: (int, int))
    ensures forall c :: c in cases && MarksShift(c) && ShiftOf(c) == shift ==> c.manual.value <= Highest(cases, shift)
    ensures Highest(cases, shift) == 0
            || exists c :: c in cases && MarksShift(c) && ShiftOf(c) == shift && c.manual.value == Highest(cases, shift)
    ensures Highest(cases, shift) >= 0
  {
    if |cases| > 0 {
      var front, c := cases[..|cases| - 1], cases[|cases| - 1];
      assert cases == front + [c];
      HighestIs(front, shift);
      if Highest(cases, shift) == Highest(front, shift) != 0 {
        var x :| x in front && MarksShift(x) && ShiftOf(x) == shift && x.manual.value == Highest(front, shift);
        assert x in cases;
      }
    }
  }

  lemma {:induction false} SameHighest(a: seq<Case>, b: seq<Case>, shift: (int, int))
    requires forall c :: c in a <==> c in b
    ensures Highest(a, shift) == Highest(b, shift)
  {
    HighestIs(a, shift);
    HighestIs(b, shift);
  }

  lemma {:induction false} SameIncidents(s: seq<Case>, a: seq<Case>, b: seq<Case>, p: Period)
    requires forall c :: c in a <==> c in b
    ensures Incidents(s, a, p) == Incidents(s, b, p)
  {
    if |s| > 0 {
      SameIncidents(s[..|s| - 1], a, b, p);
      var c := s[|s| - 1];
      assert Marked(a, ShiftOf(c)) <==> Marked(b, ShiftOf(c));
      assert Excused(a, ShiftOf(c)) <==> Excused(b, ShiftOf(c));
    }
  }

  lemma {:induction false} SameMarksTotal(a: seq<Case>, b: seq<Case>, p: Period)
    requires (forall c :: c in a <==> c in b) && ValidMarks(a, p)
    ensures DaysTotal(MarkLines(MarksIn(a, p))) == DaysTotal(MarkLines(MarksIn(b, p)))
  {
    MarksInHold(a, p);
    MarksInHold(b, p);
    MarksDominate(MarksIn(a, p), MarksIn(b, p), a, b, p);
    MarksDominate(MarksIn(b, p), MarksIn(a, p), b, a, p);
    SameEntriesSameTotal(MarkEntries(MarksIn(a, p)), MarkEntries(MarksIn(b, p)));
    MarkLinesTotal(MarksIn(a, p));
    MarkLinesTotal(MarksIn(b, p));
  }

  lemma {:induction false} MarksDominate(xs: seq<Mark>, ys: seq<Mark>, a: seq<Case>, b: seq<Case>, p: Period)
    requires (forall c :: c in a <==> c in b) && HoldsMarks(xs, a, p) && HoldsMarks(ys, b, p)
    ensures Dominated(MarkEntries(xs), MarkEntries(ys))
  {
    forall i | 0 <= i < |xs| ensures Covered(MarkEntries(xs)[i], MarkEntries(ys)) {
      SameHighest(a, b, xs[i].shift);
      var c :| c in a && MarksShift(c) && ShiftOf(c) == xs[i].shift;
      assert c in b;
      MarkCovered(xs, ys, a, b, p, p, i);
    }
  }

  /** With distinct identifiers the total does not depend on the order the cases come in. */
  lemma {:induction false} OrderDoesNotMatter(a: seq<Case>, b: seq<Case>, p: Period, r: Rules)
    requires Usable(r) && multiset(a) == multiset(b)
    requires forall x, y :: x in a && y in a && x.id == y.id ==> x == y
    ensures Priced(a, p, r).Ok? <==> Priced(b, p, r).Ok?
    ensures Priced(a, p, r).Ok? ==> DaysTotal(Priced(a, p, r).value) == DaysTotal(Priced(b, p, r).value)
  {
    SameMembers(a, b);
    SameSorted(a, b);
    SameIncidents(SortCases(a), a, b, p);
    if Priced(a, p, r).Ok? {
      assert ValidMarks(a, p);
      SameMarksTotal(a, b, p);
      SameLinesTotal(MarksIn(a, p), MarksIn(b, p), Incidents(SortCases(a), a, p), r);
    }
  }

  lemma {:induction false} SameSorted(a: seq<Case>, b: seq<Case>)
    requires multiset(a) == multiset(b) && forall x, y :: x in a && y in a && x.id == y.id ==> x == y
    ensures SortCases(a) == SortCases(b)
  {
    SortedInOrder(a);
    SortedInOrder(b);
    SameMembers(SortCases(a), a);
    OrderIsUnique(SortCases(a), SortCases(b));
  }

  lemma {:induction false} SameLinesTotal(xs: seq<Mark>, ys: seq<Mark>, cs: seq<Case>, r: Rules)
    requires Usable(r) && DaysTotal(MarkLines(xs)) == DaysTotal(MarkLines(ys))
    ensures DaysTotal(MarkLines(xs) + AutomaticLines(cs, r)) == DaysTotal(MarkLines(ys) + AutomaticLines(cs, r))
  {
    DaysSplit(MarkLines(xs), AutomaticLines(cs, r));
    DaysSplit(MarkLines(ys), AutomaticLines(cs, r));
  }

  // ---------------------------------------------------------------- each case is charged once

  /** How often an identifier occurs. */
  function Count(ids: seq<int>, id: int): nat {
    if |ids| == 0 then 0 else Count(ids[..|ids| - 1], id) + (if ids[|ids| - 1] == id then 1 else 0)
  }

  /** How often an identifier is charged. */
  function Charges(lines: seq<Line>, id: int): nat {
    if |lines| == 0 then 0 else Charges(lines[..|lines| - 1], id) + Count(lines[|lines| - 1].ids, id)
  }

  /** How many of the cases carry an identifier. */
  function Carries(cs: seq<Case>, id: int): nat {
    if |cs| == 0 then 0 else Carries(cs[..|cs| - 1], id) + One(cs[|cs| - 1], id)
  }

  function One(c: Case, id: int): nat { if c.id == id then 1 else 0 }

  lemma {:induction false} ChargesSnoc(lines: seq<Line>, l: Line, id: int)
    ensures Charges(lines + [l], id) == Charges(lines, id) + Count(l.ids, id)
  {
    assert (lines + [l])[..|lines|] == lines;
  }

  lemma {:induction false} ChargesSplit(a: seq<Line>, b: seq<Line>, id: int)
    ensures Charges(a + b, id) == Charges(a, id) + Charges(b, id)
  {
    if |b| == 0 {
      assert a + b == a;
    } else {
      ChargesSplit(a, b[..|b| - 1], id);
      assert (a + b)[..|a + b| - 1] == a + b[..|b| - 1];
    }
  }

  lemma {:induction false} CarriesSnoc(cs: seq<Case>, c: Case, id: int)
    ensures Carries(cs + [c], id) == Carries(cs, id) + One(c, id)
    ensures cs + [] == cs
  {
    assert (cs + [c])[..|cs|] == cs;
  }

  lemma {:induction false} CarriesSplit(a: seq<Case>, b: seq<Case>, id: int)
    ensures Carries(a + b, id) == Carries(a, id) + Carries(b, id)
  {
    if |b| == 0 {
      assert a + b == a;
    } else {
      CarriesSplit(a, b[..|b| - 1], id);
      assert (a + b)[..|a + b| - 1] == a + b[..|b| - 1];
    }
  }

  lemma {:induction false} CountIds(cs: seq<Case>, id: int)
    ensures Count(Ids(cs), id) == Carries(cs, id)
  {
    if |cs| > 0 {
      CountIds(cs[..|cs| - 1], id);
      assert Ids(cs)[..|cs| - 1] == Ids(cs[..|cs| - 1]);
    }
  }

  lemma {:induction false} CountOne(x: int, id: int)
    ensures Count([x], id) == if x == id then 1 else 0
  {
    var ids := [x];
    assert ids[..|ids| - 1] == [];
  }

  lemma {:induction false} OneLineCharges(line: Line, id: int)
    ensures Charges([line], id) == Count(line.ids, id)
  {
    var lines := [line];
    assert lines[..|lines| - 1] == [];
  }

  lemma {:induction false} ChunkIds(own: seq<Case>, size: int, days: int, id: int)
    requires size >= 1
    ensures Charges(Chunks(own, size, days), id) <= Carries(own, id)
    decreases |own|
  {
    if |own| >= size {
      var pool, rest := own[..size], own[size..];
      ChunkIds(rest, size, days, id);
      ChargesSplit([PoolLine(pool, days)], Chunks(rest, size, days), id);
      OneLineCharges(PoolLine(pool, days), id);
      CountIds(pool, id);
      CarriesSplit(pool, rest, id);
      assert pool + rest == own;
    }
  }

  /** The cases of the given employees. */
  function Among(cs: seq<Case>, es: seq<int>): seq<Case> {
    if |cs| == 0 then []
    else Among(cs[..|cs| - 1], es) + (if cs[|cs| - 1].employee in es then [cs[|cs| - 1]] else [])
  }

  lemma {:induction false} AmongSnoc(cs: seq<Case>, es: seq<int>, e: int, id: int)
    requires e !in es
    ensures Carries(Among(cs, es + [e]), id) == Carries(Among(cs, es), id) + Carries(Own(cs, e), id)
  {
    if |cs| > 0 {
      var front, c := cs[..|cs| - 1], cs[|cs| - 1];
      AmongSnoc(front, es, e, id);
      CarriesSnoc(Among(front, es + [e]), c, id);
      CarriesSnoc(Among(front, es), c, id);
      CarriesSnoc(Own(front, e), c, id);
    }
  }

  lemma {:induction false} AmongIsPart(cs: seq<Case>, es: seq<int>, id: int)
    ensures Carries(Among(cs, es), id) <= Carries(cs, id)
  {
    if |cs| > 0 {
      AmongIsPart(cs[..|cs| - 1], es, id);
      CarriesSnoc(Among(cs[..|cs| - 1], es), cs[|cs| - 1], id);
    }
  }

  lemma {:induction false} PoolIds(es: seq<int>, cs: seq<Case>, size: int, days: int, id: int)
    requires size >= 1 && Distinct(es)
    ensures Charges(PoolLines(es, cs, size, days), id) <= Carries(Among(cs, es), id)
  {
    if |es| > 0 {
      var front, e := es[..|es| - 1], es[|es| - 1];
      PoolIds(front, cs, size, days, id);
      ChunkIds(Own(cs, e), size, days, id);
      ChargesSplit(PoolLines(front, cs, size, days), Chunks(Own(cs, e), size, days), id);
      AmongSnoc(cs, front, e, id);
      assert front + [e] == es;
    }
  }

  lemma {:induction false} PooledIds(cs: seq<Case>, size: int, days: int, id: int)
    requires size >= 1
    ensures Charges(PoolLines(Employees(cs), cs, size, days), id) <= Carries(cs, id)
  {
    EmployeesDistinct(cs);
    PoolIds(Employees(cs), cs, size, days, id);
    AmongIsPart(cs, Employees(cs), id);
  }

  /** Single lines, missing punches and minor timings share no case. */
  lemma {:induction false} CategoriesArePart(cs: seq<Case>, r: Rules, id: int)
    ensures Charges(SingleLines(cs, r), id) + Carries(Only(cs, r, MissingCat), id) + Carries(Only(cs, r, MinorCat), id)
            <= Carries(cs, id)
  {
    if |cs| > 0 {
      var front, c := cs[..|cs| - 1], cs[|cs| - 1];
      CategoriesArePart(front, r, id);
      SingleStep(SingleLines(front, r), c, r, id);
      CarriesSnoc(Only(front, r, MissingCat), c, id);
      CarriesSnoc(Only(front, r, MinorCat), c, id);
    }
  }

  lemma {:induction false} SingleStep(singles: seq<Line>, c: Case, r: Rules, id: int)
    ensures Charges(singles + SingleOf(c, r), id)
            == Charges(singles, id)
               + (if CategoryOf(r, c) == AbsentCat || CategoryOf(r, c) == MajorCat then One(c, id) else 0)
  {
    CountOne(c.id, id);
    match CategoryOf(r, c)
    case AbsentCat => ChargesSnoc(singles, Line([c.id], r.absentDays, c.date, SingleLine), id);
    case MajorCat => ChargesSnoc(singles, Line([c.id], r.majorDays, c.date, SingleLine), id);
    case _ => assert singles + [] == singles;
  }

  /** The automatic lines charge no case twice. */
  lemma {:induction false} AutomaticIds(cs: seq<Case>, r: Rules, id: int)
    requires r.poolSize >= 1 && r.missingPoolSize >= 1
    ensures Charges(AutomaticLines(cs, r), id) <= Carries(cs, id)
  {
    var missing, minors := Only(cs, r, MissingCat), Only(cs, r, MinorCat);
    var x := PoolLines(Employees(missing), missing, r.missingPoolSize, r.missingDays);
    var y := PoolLines(Employees(minors), minors, r.poolSize, r.pooledMinorDays);
    ChargesSplit(SingleLines(cs, r), x, id);
    ChargesSplit(SingleLines(cs, r) + x, y, id);
    PooledIds(missing, r.missingPoolSize, r.missingDays, id);
    PooledIds(minors, r.poolSize, r.pooledMinorDays, id);
    CategoriesArePart(cs, r, id);
  }

  lemma {:induction false} ChargesUpdate(lines: seq<Line>, k: nat, l: Line, id: int)
    requires k < |lines|
    ensures Charges(lines[k := l], id) + Count(lines[k].ids, id) == Charges(lines, id) + Count(l.ids, id)
  {
    var n := |lines| - 1;
    if k == n {
      assert lines[k := l][..n] == lines[..n];
    } else {
      ChargesUpdate(lines[..n], k, l, id);
      assert lines[k := l][..n] == lines[..n][k := l];
    }
  }

  lemma {:induction false} RaiseCounts(m: Mark, c: Case, id: int)
    requires c.manual.Some?
    ensures Count(Raise(m, c).ids, id) <= Count(m.ids, id) + One(c, id)
  {
    assert (m.ids + [c.id])[..|m.ids|] == m.ids;
  }

  lemma {:induction false} AddMarkIds(marks: seq<Mark>, c: Case, id: int)
    requires c.manual.Some?
    ensures Charges(MarkLines(AddMark(marks, c)), id) <= Charges(MarkLines(marks), id) + One(c, id)
  {
    var k := MarkIndex(marks, ShiftOf(c));
    if k < |marks| {
      var line := MarkLine(Raise(marks[k], c));
      ChargesUpdate(MarkLines(marks), k, line, id);
      RaiseCounts(marks[k], c, id);
      assert MarkLines(AddMark(marks, c)) == MarkLines(marks)[k := line];
    } else {
      var line := MarkLine(Mark(ShiftOf(c), c.manual.value, [c.id]));
      ChargesSnoc(MarkLines(marks), line, id);
      CountOne(c.id, id);
      assert MarkLines(AddMark(marks, c)) == MarkLines(marks) + [line];
    }
  }

  // Cases that mark a shift and cases that may feed the automatic lines are told apart by their shift.

  function CarriesMarks(scan: seq<Case>, id: int): nat {
    if |scan| == 0 then 0
    else CarriesMarks(scan[..|scan| - 1], id) + (if MarksShift(scan[|scan| - 1]) then One(scan[|scan| - 1], id) else 0)
  }

  function CarriesUnmarked(scan: seq<Case>, cases: seq<Case>, id: int): nat {
    if |scan| == 0 then 0
    else
      var c := scan[|scan| - 1];
      CarriesUnmarked(scan[..|scan| - 1], cases, id) + (if Marked(cases, ShiftOf(c)) then 0 else One(c, id))
  }

  lemma {:induction false} MarkIds(cases: seq<Case>, p: Period, id: int)
    ensures Charges(MarkLines(MarksIn(cases, p)), id) <= CarriesMarks(cases, id)
  {
    if |cases| > 0 {
      var front, c := cases[..|cases| - 1], cases[|cases| - 1];
      MarkIds(front, p, id);
      if MarksShift(c) && InPeriod(p, c.date) {
        AddMarkIds(MarksIn(front, p), c, id);
      }
    }
  }

  lemma {:induction false} IncidentIds(s: seq<Case>, cases: seq<Case>, p: Period, id: int)
    ensures Carries(Incidents(s, cases, p), id) <= CarriesUnmarked(s, cases, id)
  {
    if |s| > 0 {
      IncidentIds(s[..|s| - 1], cases, p, id);
      CarriesSnoc(Incidents(s[..|s| - 1], cases, p), s[|s| - 1], id);
    }
  }

  lemma {:induction false} UnmarkedSnoc(scan: seq<Case>, c: Case, cases: seq<Case>, id: int)
    ensures CarriesUnmarked(scan + [c], cases, id)
            == CarriesUnmarked(scan, cases, id) + (if Marked(cases, ShiftOf(c)) then 0 else One(c, id))
  {
    assert (scan + [c])[..|scan|] == scan;
  }

  lemma {:induction false} InsertKeepsUnmarked(s: seq<Case>, c: Case, cases: seq<Case>, id: int)
    ensures CarriesUnmarked(InsertCase(s, c), cases, id)
            == CarriesUnmarked(s, cases, id) + (if Marked(cases, ShiftOf(c)) then 0 else One(c, id))
  {
    if |s| == 0 || Precedes(s[|s| - 1], c) {
      UnmarkedSnoc(s, c, cases, id);
    } else {
      InsertKeepsUnmarked(s[..|s| - 1], c, cases, id);
      UnmarkedSnoc(InsertCase(s[..|s| - 1], c), s[|s| - 1], cases, id);
    }
  }

  lemma {:induction false} SortKeepsUnmarked(scan: seq<Case>, cases: seq<Case>, id: int)
    ensures CarriesUnmarked(SortCases(scan), cases, id) == CarriesUnmarked(scan, cases, id)
  {
    if |scan| > 0 {
      SortKeepsUnmarked(scan[..|scan| - 1], cases, id);
      InsertKeepsUnmarked(SortCases(scan[..|scan| - 1]), scan[|scan| - 1], cases, id);
    }
  }

  lemma {:induction false} MarkedOrNot(scan: seq<Case>, cases: seq<Case>, id: int)
    requires forall c :: c in scan ==> c in cases
    ensures CarriesMarks(scan, id) + CarriesUnmarked(scan, cases, id) <= Carries(scan, id)
  {
    if |scan| > 0 {
      var c := scan[|scan| - 1];
      assert c in scan;
      assert MarksShift(c) ==> Marked(cases, ShiftOf(c));
      MarkedOrNot(scan[..|scan| - 1], cases, id);
    }
  }

  /** With distinct identifiers each case is charged in at most one line. */
  lemma {:induction false} ChargedAtMostOnce(cases: seq<Case>, p: Period, r: Rules, id: int)
    requires r.poolSize >= 1 && r.missingPoolSize >= 1 && Priced(cases, p, r).Ok?
    ensures Charges(Priced(cases, p, r).value, id) <= Carries(cases, id)
    ensures Carries(cases, id) <= 1 ==> Charges(Priced(cases, p, r).value, id) <= 1
  {
    var cs := Incidents(SortCases(cases), cases, p);
    ChargesSplit(MarkLines(MarksIn(cases, p)), AutomaticLines(cs, r), id);
    MarkIds(cases, p, id);
    AutomaticIds(cs, r, id);
    IncidentIds(SortCases(cases), cases, p, id);
    SortKeepsUnmarked(cases, cases, id);
    MarkedOrNot(cases, cases, id);
  }

  lemma {:induction false} CarriedBySome(cs: seq<Case>, id: int) returns (c: Case)
    requires Carries(cs, id) > 0
    ensures c in cs && c.id == id
  {
    if cs[|cs| - 1].id == id {
      c := cs[|cs| - 1];
    } else {
      c := CarriedBySome(cs[..|cs| - 1], id);
    }
  }

  /** Every case behind an automatic line is on a day that is neither approved nor manually marked. */
  lemma {:induction false} ExcusedDaysAreNeverCharged(cases: seq<Case>, p: Period, r: Rules, id: int)
    requires r.poolSize >= 1 && r.missingPoolSize >= 1
    requires Charges(AutomaticLines(Incidents(SortCases(cases), cases, p), r), id) > 0
    ensures exists c :: c in cases && c.id == id && Priceable(c) && InPeriod(p, c.date)
                        && !Excused(cases, ShiftOf(c)) && !Marked(cases, ShiftOf(c))
  {
    var cs := Incidents(SortCases(cases), cases, p);
    AutomaticIds(cs, r, id);
    var c := CarriedBySome(cs, id);
    IncidentsFrom(SortCases(cases), cases, p);
    SameMembers(SortCases(cases), cases);
    assert c in cases && Automatic(cases, p, c);
  }

  // ---------------------------------------------------------------- pools and leftovers

  lemma {:induction false} ChunkCount(own: seq<Case>, size: int, days: int)
    requires size >= 1
    ensures |own| == size * |Chunks(own, size, days)| + |own| % size
    decreases |own|
  {
    if |own| < size {
      DivIs(|own|, size, 0, |own|);
    } else {
      ChunkCount(own[size..], size, days);
      DivStep(|own|, size);
      var k := |Chunks(own[size..], size, days)|;
      assert size * (k + 1) == size * k + size;
    }
  }

  lemma {:induction false} PoolCount(es: seq<int>, cs: seq<Case>, size: int, days: int)
    requires size >= 1 && Distinct(es)
    ensures |Among(cs, es)| == size * |PoolLines(es, cs, size, days)| + Leftover(es, cs, size)
  {
    if |es| == 0 {
      NoneAmong(cs);
    } else {
      var front, e := es[..|es| - 1], es[|es| - 1];
      assert es == front + [e];
      PoolCount(front, cs, size, days);
      ChunkCount(Own(cs, e), size, days);
      AmongSizes(cs, front, e);
      Distribute(size, |PoolLines(front, cs, size, days)|, |Chunks(Own(cs, e), size, days)|);
    }
  }

  lemma {:induction false} AmongSizes(cs: seq<Case>, es: seq<int>, e: int)
    requires e !in es
    ensures |Among(cs, es + [e])| == |Among(cs, es)| + |Own(cs, e)|
  {
    if |cs| > 0 {
      AmongSizes(cs[..|cs| - 1], es, e);
    }
  }

  lemma {:induction false} Distribute(a: int, x: int, y: int)
    ensures a * (x + y) == a * x + a * y
  {
  }

  lemma {:induction false} NoneAmong(cs: seq<Case>)
    ensures Among(cs, []) == []
  {
    if |cs| > 0 {
      NoneAmong(cs[..|cs| - 1]);
    }
  }

  lemma {:induction false} AllAmong(cs: seq<Case>, es: seq<int>)
    requires forall c :: c in cs ==> c.employee in es
    ensures Among(cs, es) == cs
  {
    if |cs| > 0 {
      assert cs[|cs| - 1] in cs;
      AllAmong(cs[..|cs| - 1], es);
      assert cs == cs[..|cs| - 1] + [cs[|cs| - 1]];
    }
  }

  /** Every pooled case is in a whole pool or left over. */
  lemma {:induction false} PoolsConserveCases(cs: seq<Case>, size: int, days: int)
    requires size >= 1
    ensures |cs| == size * |PoolLines(Employees(cs), cs, size, days)| + Leftover(Employees(cs), cs, size)
  {
    EmployeesDistinct(cs);
    PoolCount(Employees(cs), cs, size, days);
    AllAmong(cs, Employees(cs));
  }
}
