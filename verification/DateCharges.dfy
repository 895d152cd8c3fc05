/** What each date of a record is charged, and why (src/lib/anomalyPayroll.js, 15-31 and 102-144). */
module DateCharges {
  import opened Options
  import opened Violations
  import opened Attribution
  import opened Monotone
  import opened Telescoping
  import opened CounterPrices
  import opened PeriodCosts
  import opened PeriodBills

  // ---------------------------------------------------------------- the marks of a record

  ghost predicate Carries(a: Anomaly, d: int) { a.manual.Some? && a.date == Some(d) }

  /** The first dated mark of its anomaly; marks without an identifier all count. */
  ghost predicate FirstMark(anomalies: seq<Anomaly>, i: nat)
    requires i < |anomalies|
  {
    anomalies[i].id.Some? ==>
      forall j :: 0 <= j < i && anomalies[j].id == anomalies[i].id ==>
        anomalies[j].manual.None? || anomalies[j].date.None?
  }

  ghost predicate MarkOn(anomalies: seq<Anomaly>, i: nat, d: int) {
    i < |anomalies| && Carries(anomalies[i], d) && FirstMark(anomalies, i)
  }

  /** Each marked date has the highest of its marks. */
  ghost predicate DayMarks(marks: map<int, int>, anomalies: seq<Anomaly>) {
    && (forall d :: d in marks ==> exists i: nat :: MarkOn(anomalies, i, d) && anomalies[i].manual == Some(marks[d]))
    && (forall d, i: nat :: MarkOn(anomalies, i, d) ==> d in marks && anomalies[i].manual.value <= marks[d])
  }

  /** A dated mark that is none of half a day, a day and two days. */
  ghost predicate WrongMark(anomalies: seq<Anomaly>) {
    exists a :: a in anomalies && a.manual.Some? && a.date.Some? && a.manual.value !in {50, 100, 200}
  }

  lemma {:induction false} MarkIs(anomalies: seq<Anomaly>, i: nat, d: int)
    requires i < |anomalies|
    ensures MarksDate(anomalies, i, d) <==> MarkOn(anomalies, i, d)
  {
    if Carries(anomalies[i], d) && anomalies[i].id.Some? {
      var id := anomalies[i].id.value;
      assert MarkedBefore(anomalies, i, id) <==>
        exists j :: 0 <= j < i && anomalies[j].manual.Some? && anomalies[j].date.Some? && anomalies[j].id == Some(id);
    }
  }

  lemma {:induction false} MarksAre(marks: map<int, int>, anomalies: seq<Anomaly>)
    ensures HighestMarks(marks, anomalies) <==> DayMarks(marks, anomalies)
    ensures BadMark(anomalies) <==> WrongMark(anomalies)
  {
    forall i: nat, d | i < |anomalies| ensures MarksDate(anomalies, i, d) <==> MarkOn(anomalies, i, d) {
      MarkIs(anomalies, i, d);
    }
    if HighestMarks(marks, anomalies) {
      forall d | d in marks ensures exists i: nat :: MarkOn(anomalies, i, d) && anomalies[i].manual == Some(marks[d]) {
        var i :| 0 <= i < |anomalies| && MarksDate(anomalies, i, d) && anomalies[i].manual == Some(marks[d]);
        assert MarkOn(anomalies, i, d);
      }
    }
    if DayMarks(marks, anomalies) {
      forall d | d in marks
        ensures exists i :: 0 <= i < |anomalies| && MarksDate(anomalies, i, d) && anomalies[i].manual == Some(marks[d])
      {
        var i: nat :| MarkOn(anomalies, i, d) && anomalies[i].manual == Some(marks[d]);
        assert MarksDate(anomalies, i, d);
      }
    }
    BadIsWrong(anomalies);
  }

  lemma {:induction false} BadIsWrong(anomalies: seq<Anomaly>)
    ensures BadMark(anomalies) <==> WrongMark(anomalies)
  {
    if BadMark(anomalies) {
      var a :| a in anomalies && Marks(a) && !ValidMark(a.manual.value);
      assert a.manual.value !in {50, 100, 200};
    }
    if WrongMark(anomalies) {
      var a :| a in anomalies && a.manual.Some? && a.date.Some? && a.manual.value !in {50, 100, 200};
      assert Marks(a) && !ValidMark(a.manual.value);
    }
  }

  // ---------------------------------------------------------------- the record up to a date

  ghost predicate Rises(places: seq<nat>) {
    forall i, j :: 0 <= i < j < |places| ==> places[i] < places[j]
  }

  /** The rows of unmarked dates up to the given one, in their order. */
  ghost predicate RowsBy(part: seq<Row>, places: seq<nat>, rows: seq<Row>, upTo: int, marked: set<int>) {
    && |places| == |part| && Rises(places)
    && (forall k :: 0 <= k < |part| ==> places[k] < |rows| && part[k] == rows[places[k]])
    && (forall i: nat :: i in places <==> i < |rows| && rows[i].date <= upTo && rows[i].date !in marked)
  }

  /** The dated anomalies of unmarked dates up to the given one, as cases. */
  ghost predicate CasesBy(part: seq<Case>, places: seq<nat>, anomalies: seq<Anomaly>, upTo: int, marked: set<int>) {
    && |places| == |part| && Rises(places)
    && (forall k :: 0 <= k < |part| ==> places[k] < |anomalies| && IsCaseOf(part[k], anomalies[places[k]]))
    && (forall i: nat :: i in places <==>
          i < |anomalies| && anomalies[i].date.Some? && anomalies[i].date.value <= upTo
          && anomalies[i].date.value !in marked)
  }

  ghost predicate IsCaseOf(c: Case, a: Anomaly) {
    && a.date == Some(c.date) && c.kind == a.kind && c.status == a.status && c.superseded == a.superseded
    && (c.marked <==> a.manual.Some?)
  }

  lemma {:induction false} RowsUpToAre(rows: seq<Row>, upTo: int, marked: set<int>) returns (places: seq<nat>)
    ensures RowsBy(RowsUpTo(rows, upTo, marked), places, rows, upTo, marked)
  {
    places := [];
    if |rows| > 0 {
      var n, r := |rows| - 1, rows[|rows| - 1];
      places := RowsUpToAre(rows[..n], upTo, marked);
      if r.date <= upTo && r.date !in marked {
        RowsByNext(RowsUpTo(rows[..n], upTo, marked), places, rows, upTo, marked);
        places := places + [n];
      } else {
        assert RowsUpTo(rows[..n], upTo, marked) + [] == RowsUpTo(rows[..n], upTo, marked);
        RowsBySkip(RowsUpTo(rows[..n], upTo, marked), places, rows, upTo, marked);
      }
    }
  }

  lemma {:induction false} RowsByNext(part: seq<Row>, places: seq<nat>, rows: seq<Row>, upTo: int, marked: set<int>)
    requires |rows| > 0 && RowsBy(part, places, rows[..|rows| - 1], upTo, marked)
    requires rows[|rows| - 1].date <= upTo && rows[|rows| - 1].date !in marked
    ensures RowsBy(part + [rows[|rows| - 1]], places + [|rows| - 1], rows, upTo, marked)
  {
    var n, all := |rows| - 1, places + [|rows| - 1];
    assert forall k :: 0 <= k < |places| ==> places[k] in places;
    forall i: nat ensures i in all <==> i < |rows| && rows[i].date <= upTo && rows[i].date !in marked {
      assert i in all <==> i in places || i == n;
    }
  }

  lemma {:induction false} RowsBySkip(part: seq<Row>, places: seq<nat>, rows: seq<Row>, upTo: int, marked: set<int>)
    requires |rows| > 0 && RowsBy(part, places, rows[..|rows| - 1], upTo, marked)
    requires !(rows[|rows| - 1].date <= upTo && rows[|rows| - 1].date !in marked)
    ensures RowsBy(part, places, rows, upTo, marked)
  {
  }

  lemma {:induction false} CasesUpToAre(anomalies: seq<Anomaly>, upTo: int, marked: set<int>) returns (places: seq<nat>)
    ensures CasesBy(CasesUpTo(anomalies, upTo, marked), places, anomalies, upTo, marked)
  {
    places := [];
    if |anomalies| > 0 {
      var n, a := |anomalies| - 1, anomalies[|anomalies| - 1];
      var before := CasesUpTo(anomalies[..n], upTo, marked);
      places := CasesUpToAre(anomalies[..n], upTo, marked);
      if a.date.Some? && a.date.value <= upTo && a.date.value !in marked {
        CasesByNext(before, places, anomalies, upTo, marked, CaseOf(a));
        places := places + [n];
      } else {
        assert before + [] == before;
        CasesBySkip(before, places, anomalies, upTo, marked);
      }
    }
  }

  lemma {:induction false} CasesByNext(part: seq<Case>, places: seq<nat>, anomalies: seq<Anomaly>, upTo: int,
                                       marked: set<int>, c: Case)
    requires |anomalies| > 0 && CasesBy(part, places, anomalies[..|anomalies| - 1], upTo, marked)
    requires IsCaseOf(c, anomalies[|anomalies| - 1]) && c.date <= upTo && c.date !in marked
    ensures CasesBy(part + [c], places + [|anomalies| - 1], anomalies, upTo, marked)
  {
    var n, all := |anomalies| - 1, places + [|anomalies| - 1];
    assert forall k :: 0 <= k < |places| ==> places[k] in places;
    forall i: nat
      ensures i in all <==> i < |anomalies| && anomalies[i].date.Some? && anomalies[i].date.value <= upTo
                            && anomalies[i].date.value !in marked
    {
      assert i in all <==> i in places || i == n;
    }
  }

  lemma {:induction false} CasesBySkip(part: seq<Case>, places: seq<nat>, anomalies: seq<Anomaly>, upTo: int,
                                       marked: set<int>)
    requires |anomalies| > 0 && CasesBy(part, places, anomalies[..|anomalies| - 1], upTo, marked)
    requires var a := anomalies[|anomalies| - 1]; !(a.date.Some? && a.date.value <= upTo && a.date.value !in marked)
    ensures CasesBy(part, places, anomalies, upTo, marked)
  {
  }

  // ---------------------------------------------------------------- the lines

  /** What the unmarked dates up to the given one cost: the total of their bill. */
  ghost predicate CostsBy(total: int, upTo: int, rows: seq<Row>, anomalies: seq<Anomaly>, marked: set<int>,
                          rules: seq<Rule>, config: Config) {
    exists part: seq<Row>, cases: seq<Case>, bill: Bill ::
      IsPart(part, cases, upTo, rows, anomalies, marked) && Billed(bill, total, part, cases, rules, config)
  }

  ghost predicate IsPart(part: seq<Row>, cases: seq<Case>, upTo: int, rows: seq<Row>, anomalies: seq<Anomaly>,
                         marked: set<int>) {
    && (exists places :: RowsBy(part, places, rows, upTo, marked))
    && (exists places :: CasesBy(cases, places, anomalies, upTo, marked))
  }

  ghost predicate Appears(d: int, rows: seq<Row>, anomalies: seq<Anomaly>) {
    (exists r :: r in rows && r.date == d) || (exists a :: a in anomalies && a.date == Some(d))
  }

  /** The dates of the record, each once, in order. */
  ghost predicate DatesOf(dates: seq<int>, rows: seq<Row>, anomalies: seq<Anomaly>) {
    && (forall i, j :: 0 <= i < j < |dates| ==> dates[i] < dates[j])
    && (forall d :: d in dates <==> Appears(d, rows, anomalies))
  }

  /**
   The charge of a date: its mark, or else what the record cost more than by the date before, and never less than
   nothing.
   */
  ghost predicate ChargeOf(l: DateLine, date: int, before: int, after: int, marks: map<int, int>) {
    && l.date == date && l.automatic == (if after > before then after - before else 0)
    && l.manual == (if date in marks then marks[date] else 0)
    && l.days == (if date in marks then marks[date] else l.automatic)
  }

  ghost predicate ChargeAt(l: DateLine, i: nat, dates: seq<int>, totals: seq<int>, marks: map<int, int>)
    requires i < |dates| == |totals|
  {
    ChargeOf(l, dates[i], if i == 0 then 0 else totals[i - 1], totals[i], marks)
  }

  /** The dates with a charge have their lines, in order; the others have none. */
  ghost predicate LinesOfDates(lines: seq<DateLine>, places: seq<nat>, n: nat, dates: seq<int>, totals: seq<int>,
                               marks: map<int, int>)
    requires n <= |dates| == |totals|
  {
    && |places| == |lines| && Rises(places)
    && (forall k :: 0 <= k < |lines| ==> places[k] < n && IsCharged(lines[k], places[k], dates, totals, marks))
    && (forall i: nat :: i < n && i !in places ==> IsFree(i, dates, totals, marks))
  }

  ghost predicate IsCharged(l: DateLine, i: nat, dates: seq<int>, totals: seq<int>, marks: map<int, int>)
    requires i < |dates| == |totals|
  {
    ChargeAt(l, i, dates, totals, marks) && l.days > 0
  }

  ghost predicate IsFree(i: nat, dates: seq<int>, totals: seq<int>, marks: map<int, int>)
    requires i < |dates| == |totals|
  {
    exists l :: ChargeAt(l, i, dates, totals, marks) && l.days <= 0
  }

  lemma {:induction false} LinesForAre(dates: seq<int>, totals: seq<int>, marks: map<int, int>, n: nat)
      returns (places: seq<nat>)
    requires n <= |dates| == |totals|
    ensures LinesOfDates(LinesFor(dates, totals, marks, n), places, n, dates, totals, marks)
  {
    places := [];
    if n > 0 {
      var line, before := LineOn(dates[n - 1], Prior(totals, n - 1), totals[n - 1], marks),
                          LinesFor(dates, totals, marks, n - 1);
      places := LinesForAre(dates, totals, marks, n - 1);
      LineNext(before, places, n - 1, dates, totals, marks, line);
      if line.days > 0 {
        places := places + [n - 1];
      } else {
        assert before + [] == before;
      }
    }
  }

  lemma {:induction false} LineNext(lines: seq<DateLine>, places: seq<nat>, n: nat, dates: seq<int>, totals: seq<int>,
                                    marks: map<int, int>, l: DateLine)
    requires n < |dates| == |totals| && LinesOfDates(lines, places, n, dates, totals, marks)
    requires ChargeAt(l, n, dates, totals, marks)
    ensures LinesOfDates(if l.days > 0 then lines + [l] else lines, if l.days > 0 then places + [n] else places, n + 1,
                         dates, totals, marks)
  {
    if l.days > 0 {
      LineAdded(lines, places, n, dates, totals, marks, l);
    } else {
      assert IsFree(n, dates, totals, marks);
    }
  }

  lemma {:induction false} LineAdded(lines: seq<DateLine>, places: seq<nat>, n: nat, dates: seq<int>,
                                     totals: seq<int>, marks: map<int, int>, l: DateLine)
    requires n < |dates| == |totals| && LinesOfDates(lines, places, n, dates, totals, marks)
    requires IsCharged(l, n, dates, totals, marks)
    ensures LinesOfDates(lines + [l], places + [n], n + 1, dates, totals, marks)
  {
    var all := places + [n];
    assert all[|places|] == n;
    forall i: nat | i < n + 1 && i !in all ensures IsFree(i, dates, totals, marks) {
      NotBefore(places, n, i);
    }
  }

  lemma {:induction false} NotBefore(places: seq<nat>, n: nat, i: nat)
    requires i !in places + [n]
    ensures i !in places && i != n
  {
    assert (places + [n])[|places|] == n;
    assert i in places ==> i in places + [n];
  }

  lemma {:induction false} RecordDatesAre(rows: seq<Row>, anomalies: seq<Anomaly>)
    ensures DatesOf(RecordDates(rows, anomalies), rows, anomalies)
  {
    RecordDatesSpec(rows, anomalies);
    forall d | d in RecordDates(rows, anomalies)
      ensures (exists r :: r in rows && r.date == d) || (exists a :: a in anomalies && a.date == Some(d))
    {
      DateComesFrom(rows, anomalies, d);
    }
  }

  lemma {:induction false} DateComesFrom(rows: seq<Row>, anomalies: seq<Anomaly>, d: int)
    requires d in RecordDates(rows, anomalies)
    ensures (exists r :: r in rows && r.date == d) || (exists a :: a in anomalies && a.date == Some(d))
  {
    if |anomalies| > 0 {
      var front, a := anomalies[..|anomalies| - 1], anomalies[|anomalies| - 1];
      assert anomalies == front + [a];
      if d in RecordDates(rows, front) {
        DateComesFrom(rows, front, d);
      }
    } else if |rows| > 0 {
      var front, r := rows[..|rows| - 1], rows[|rows| - 1];
      assert rows == front + [r];
      if d in RowDates(front) {
        DateComesFrom(front, anomalies, d);
      }
    }
  }

  lemma {:induction false} PrefixIsBilled(upTo: int, rows: seq<Row>, anomalies: seq<Anomaly>, marked: set<int>,
                                          rules: seq<Rule>, config: Config, total: int)
    requires PrefixTotal(rows, anomalies, upTo, marked, rules, config) == Ok(total)
    ensures CostsBy(total, upTo, rows, anomalies, marked, rules, config)
  {
    var part, cases := RowsUpTo(rows, upTo, marked), CasesUpTo(anomalies, upTo, marked);
    var x := RowsUpToAre(rows, upTo, marked);
    var y := CasesUpToAre(anomalies, upTo, marked);
    assert IsPart(part, cases, upTo, rows, anomalies, marked);
    var bill := TotalIsBilled(part, cases, rules, config);
  }

  /**
   What the combined deductions of a record are: of every date its mark, or the growth of what the unmarked dates up to
   it cost, where that is more than nothing.
   */
  lemma {:induction false} DatesAreCharged(lines: seq<DateLine>, rows: seq<Row>, anomalies: seq<Anomaly>,
                                           rules: seq<Rule>, config: Config)
      returns (marks: map<int, int>, dates: seq<int>, totals: seq<int>, places: seq<nat>)
    requires Combines(Ok(lines), rows, anomalies, rules, config)
    ensures DayMarks(marks, anomalies) && DatesOf(dates, rows, anomalies) && |totals| == |dates|
    ensures forall i :: 0 <= i < |dates| ==> CostsBy(totals[i], dates[i], rows, anomalies, marks.Keys, rules, config)
    ensures LinesOfDates(lines, places, |dates|, dates, totals, marks)
  {
    dates := RecordDates(rows, anomalies);
    marks :| MarksOf(marks, anomalies) && AttributesDates(Ok(lines), dates, rows, anomalies, marks, rules, config);
    totals :| PrefixTotals(totals, dates, rows, anomalies, marks.Keys, rules, config)
              && lines == LinesFor(dates, totals, marks, |totals|);
    MarksAre(marks, anomalies);
    RecordDatesAre(rows, anomalies);
    forall i | 0 <= i < |dates| ensures CostsBy(totals[i], dates[i], rows, anomalies, marks.Keys, rules, config) {
      PrefixIsBilled(dates[i], rows, anomalies, marks.Keys, rules, config, totals[i]);
    }
    places := LinesForAre(dates, totals, marks, |dates|);
  }

  /** They fail exactly for a wrong mark, or when the cost of the dates up to some date cannot be told. */
  lemma {:induction false} CombiningThrows(rows: seq<Row>, anomalies: seq<Anomaly>, rules: seq<Rule>, config: Config)
    requires Combines(Thrown, rows, anomalies, rules, config)
    ensures exists d, part: seq<Row>, cases: seq<Case>, marks: map<int, int> ::
              IsPart(part, cases, d, rows, anomalies, marks.Keys) && DayMarks(marks, anomalies)
              && (TimeIsMissing(part, cases, rules) || Disputed(rules))
  {
    var dates := RecordDates(rows, anomalies);
    var marks :| MarksOf(marks, anomalies)
                 && AttributesDates(Thrown, dates, rows, anomalies, marks, rules, config);
    var i :| 0 <= i < |dates| && PrefixTotal(rows, anomalies, dates[i], marks.Keys, rules, config).Thrown?;
    MarksAre(marks, anomalies);
    var part, cases := RowsUpTo(rows, dates[i], marks.Keys), CasesUpTo(anomalies, dates[i], marks.Keys);
    var x := RowsUpToAre(rows, dates[i], marks.Keys);
    var y := CasesUpToAre(anomalies, dates[i], marks.Keys);
    assert IsPart(part, cases, dates[i], rows, anomalies, marks.Keys);
    TotalThrowsIff(part, cases, rules, config);
  }
}
