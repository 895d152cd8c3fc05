/** Per-date attribution sums back to the whole-period total (src/lib/anomalyPayroll.js, 15-31 and 102-144). */
module Telescoping {
  import opened Options
  import opened Violations
  import opened Attribution
  import opened Monotone

  /** One anomaly record as stored: its date and its identifier may be missing. */
  datatype Anomaly = Anomaly(
    id: Option<int>, date: Option<int>, kind: CaseKind, status: CaseStatus, manual: Option<int>, superseded: bool)

  datatype DateLine = DateLine(date: int, automatic: int, manual: int, days: int)

  // ---------------------------------------------------------------- manual marks

  predicate Marks(a: Anomaly) {
    a.manual.Some? && a.date.Some?
  }

  predicate ValidMark(days: int) {
    days == 50 || days == 100 || days == 200
  }

  /** An anomaly repeats an earlier one when its identifier was already marked. */
  predicate Repeats(anomalies: seq<Anomaly>, i: nat)
    requires i < |anomalies|
  {
    anomalies[i].id.Some? && MarkedBefore(anomalies, i, anomalies[i].id.value)
  }

  predicate MarkedBefore(anomalies: seq<Anomaly>, i: nat, id: int)
    requires i <= |anomalies|
  {
    exists j :: 0 <= j < i && Marks(anomalies[j]) && anomalies[j].id == Some(id)
  }

  /** Marks that count towards date d: those of distinct anomalies. */
  predicate MarksDate(anomalies: seq<Anomaly>, i: nat, d: int)
    requires i < |anomalies|
  {
    Marks(anomalies[i]) && anomalies[i].date == Some(d) && !Repeats(anomalies, i)
  }

  /** The marking of each date is the highest mark of its distinct anomalies. */
  ghost predicate HighestMarks(marks: map<int, int>, anomalies: seq<Anomaly>) {
    && (forall d :: d in marks ==>
       exists i :: 0 <= i < |anomalies| && MarksDate(anomalies, i, d) && anomalies[i].manual == Some(marks[d]))
    && (forall i, d :: 0 <= i < |anomalies| && MarksDate(anomalies, i, d) ==>
       d in marks && anomalies[i].manual.value <= marks[d])
  }

  method ManualDeductionsByShift(anomalies: seq<Anomaly>) returns (res: Result<map<int, int>>)
    ensures res.Thrown? <==> exists a :: a in anomalies && Marks(a) && !ValidMark(a.manual.value)
    ensures res.Ok? ==> HighestMarks(res.value, anomalies)
    ensures res.Ok? ==> forall d :: d in res.value ==> ValidMark(res.value[d])
  {
    var grouped: map<int, int> := map[];
    var seen: set<int> := {};
    for i := 0 to |anomalies|
      invariant forall j :: 0 <= j < i && Marks(anomalies[j]) ==> ValidMark(anomalies[j].manual.value)
      invariant forall x :: x in seen <==> MarkedBefore(anomalies, i, x)
      invariant forall d :: d in grouped ==>
                  exists j :: 0 <= j < i && MarksDate(anomalies, j, d) && anomalies[j].manual == Some(grouped[d])
      invariant forall j, d :: 0 <= j < i && MarksDate(anomalies, j, d) ==>
                d in grouped && anomalies[j].manual.value <= grouped[d]
    {
      var a := anomalies[i];
      if !Marks(a) {
        continue;
      }
      if !ValidMark(a.manual.value) {
        assert a in anomalies;
        return Thrown;
      }
      if a.id.Some? && a.id.value in seen {
        assert Repeats(anomalies, i);
        continue;
      }
      assert !Repeats(anomalies, i);
      if a.id.Some? {
        seen := seen + {a.id.value};
      }
      var d := a.date.value;
      assert MarksDate(anomalies, i, d);
      var prior := if d in grouped then grouped[d] else 0;
      grouped := grouped[d := if prior > a.manual.value then prior else a.manual.value];
    }
    return Ok(grouped);
  }

  // ---------------------------------------------------------------- the record of one period

  function CaseOf(a: Anomaly): Case
    requires a.date.Some?
  {
    Case(a.date.value, a.kind, a.status, a.manual.Some?, a.superseded)
  }

  /** Rows of unmarked dates up to and including the given one. */
  function RowsUpTo(rows: seq<Row>, upTo: int, marked: set<int>): seq<Row> {
    if |rows| == 0 then []
    else
      var r := rows[|rows| - 1];
      RowsUpTo(rows[..|rows| - 1], upTo, marked) + (if r.date <= upTo && r.date !in marked then [r] else [])
  }

  function CasesUpTo(anomalies: seq<Anomaly>, upTo: int, marked: set<int>): seq<Case> {
    if |anomalies| == 0 then []
    else
      var a := anomalies[|anomalies| - 1];
      CasesUpTo(anomalies[..|anomalies| - 1], upTo, marked)
      + (if a.date.Some? && a.date.value <= upTo && a.date.value !in marked then [CaseOf(a)] else [])
  }

  function UnmarkedRows(rows: seq<Row>, marked: set<int>): seq<Row> {
    if |rows| == 0 then []
    else
      UnmarkedRows(rows[..|rows| - 1], marked)
      + (if rows[|rows| - 1].date !in marked then [rows[|rows| - 1]] else [])
  }

  function UnmarkedCases(anomalies: seq<Anomaly>, marked: set<int>): seq<Case> {
    if |anomalies| == 0 then []
    else
      var a := anomalies[|anomalies| - 1];
      UnmarkedCases(anomalies[..|anomalies| - 1], marked)
      + (if a.date.Some? && a.date.value !in marked then [CaseOf(a)] else [])
  }

  // ---------------------------------------------------------------- dates in order

  ghost predicate Rising(dates: seq<int>) {
    forall i, j :: 0 <= i < j < |dates| ==> dates[i] < dates[j]
  }

  function InsertDate(dates: seq<int>, d: int): (r: seq<int>)
    ensures forall x :: x in r <==> x in dates || x == d
  {
    if |dates| == 0 then [d]
    else
      var n := |dates| - 1;
      assert dates == dates[..n] + [dates[n]];
      if dates[n] < d then dates + [d]
      else if dates[n] == d then dates
      else InsertDate(dates[..n], d) + [dates[n]]
  }

  function RowDates(rows: seq<Row>): seq<int> {
    if |rows| == 0 then [] else InsertDate(RowDates(rows[..|rows| - 1]), rows[|rows| - 1].date)
  }

  /** The distinct dates of a record, sorted. */
  function RecordDates(rows: seq<Row>, anomalies: seq<Anomaly>): seq<int> {
    if |anomalies| == 0 then RowDates(rows)
    else
      var a, before := anomalies[|anomalies| - 1], RecordDates(rows, anomalies[..|anomalies| - 1]);
      if a.date.Some? then InsertDate(before, a.date.value) else before
  }

  lemma {:induction false} InsertDateRises(dates: seq<int>, d: int)
    requires Rising(dates)
    ensures Rising(InsertDate(dates, d))
  {
    if |dates| > 0 && d < dates[|dates| - 1] {
      var front := dates[..|dates| - 1];
      InsertDateRises(front, d);
      var r := InsertDate(front, d);
      forall i | 0 <= i < |r| ensures r[i] < dates[|dates| - 1] {
        assert r[i] in r;
      }
    }
  }

  lemma {:induction false} RowDatesSpec(rows: seq<Row>)
    ensures Rising(RowDates(rows))
    ensures forall r :: r in rows ==> r.date in RowDates(rows)
  {
    if |rows| > 0 {
      RowDatesSpec(rows[..|rows| - 1]);
      InsertDateRises(RowDates(rows[..|rows| - 1]), rows[|rows| - 1].date);
      assert rows == rows[..|rows| - 1] + [rows[|rows| - 1]];
    }
  }

  lemma {:induction false} RecordDatesSpec(rows: seq<Row>, anomalies: seq<Anomaly>)
    ensures Rising(RecordDates(rows, anomalies))
    ensures forall r :: r in rows ==> r.date in RecordDates(rows, anomalies)
    ensures forall a :: a in anomalies && a.date.Some? ==> a.date.value in RecordDates(rows, anomalies)
  {
    if |anomalies| == 0 {
      RowDatesSpec(rows);
    } else {
      var front, a := anomalies[..|anomalies| - 1], anomalies[|anomalies| - 1];
      RecordDatesSpec(rows, front);
      assert anomalies == front + [a];
      if a.date.Some? {
        InsertDateRises(RecordDates(rows, front), a.date.value);
      }
    }
  }

  // ---------------------------------------------------------------- the attribution

  /** What the automatic policy charges for the unmarked dates up to the given one. */
  ghost function PrefixTotal(rows: seq<Row>, anomalies: seq<Anomaly>, upTo: int, marked: set<int>,
                             rules: seq<Rule>, config: Config): Result<int> {
    TotalOf(RowsUpTo(rows, upTo, marked), CasesUpTo(anomalies, upTo, marked), rules, config)
  }

  function DaysTotal(lines: seq<DateLine>): int {
    if |lines| == 0 then 0 else DaysTotal(lines[..|lines| - 1]) + lines[|lines| - 1].days
  }

  ghost function MarksTotal(dates: seq<int>, marks: map<int, int>, n: nat): int
    requires n <= |dates|
  {
    if n == 0 then 0
    else MarksTotal(dates, marks, n - 1) + (if dates[n - 1] in marks then marks[dates[n - 1]] else 0)
  }

  /** The totals are those of the unmarked dates up to each date. */
  ghost predicate PrefixTotals(totals: seq<int>, dates: seq<int>, rows: seq<Row>, anomalies: seq<Anomaly>,
                               marked: set<int>, rules: seq<Rule>, config: Config) {
    && |totals| == |dates|
    && forall i :: 0 <= i < |dates| ==> PrefixTotal(rows, anomalies, dates[i], marked, rules, config) == Ok(totals[i])
  }

  /** The total carried into the i-th date. */
  function Prior(totals: seq<int>, i: nat): int
    requires i <= |totals|
  {
    if i == 0 then 0 else totals[i - 1]
  }

  function LineOn(date: int, prior: int, total: int, marks: map<int, int>): DateLine {
    var automatic := if total - prior > 0 then total - prior else 0;
    var manual := if date in marks then marks[date] else 0;
    DateLine(date, automatic, manual, if date in marks then manual else automatic)
  }

  /** One line per date that costs anything: its manual mark, or what the automatic total grew by. */
  function LinesFor(dates: seq<int>, totals: seq<int>, marks: map<int, int>, n: nat): seq<DateLine>
    requires n <= |totals| && n <= |dates|
  {
    if n == 0 then []
    else
      var line := LineOn(dates[n - 1], Prior(totals, n - 1), totals[n - 1], marks);
      LinesFor(dates, totals, marks, n - 1) + (if line.days > 0 then [line] else [])
  }

  method PriceUpTo(rows: seq<Row>, anomalies: seq<Anomaly>, date: int, marked: set<int>, rules: seq<Rule>,
                   config: Config)
    returns (total: Result<int>)
    ensures total == PrefixTotal(rows, anomalies, date, marked, rules, config)
  {
    total := AutomaticTotal(RowsUpTo(rows, date, marked), CasesUpTo(anomalies, date, marked), rules, config);
  }

  /** What the loop over dates has done by the i-th date. */
  ghost predicate Attributed(dates: seq<int>, i: nat, rows: seq<Row>, anomalies: seq<Anomaly>, marks: map<int, int>,
                             rules: seq<Rule>, config: Config, lines: seq<DateLine>, prior: int, totals: seq<int>)
  {
    && i == |totals| && i <= |dates|
    && PrefixTotals(totals, dates[..i], rows, anomalies, marks.Keys, rules, config)
    && lines == LinesFor(dates, totals, marks, i)
    && prior == Prior(totals, i)
  }

  lemma {:induction false} AttributedNext(dates: seq<int>, i: nat, rows: seq<Row>, anomalies: seq<Anomaly>,
                                          marks: map<int, int>,
                                          rules: seq<Rule>, config: Config, lines: seq<DateLine>, prior: int,
                                          totals: seq<int>, total: int)
    requires i < |dates| && Attributed(dates, i, rows, anomalies, marks, rules, config, lines, prior, totals)
    requires PrefixTotal(rows, anomalies, dates[i], marks.Keys, rules, config) == Ok(total)
    ensures var line := LineOn(dates[i], prior, total, marks);
            Attributed(dates, i + 1, rows, anomalies, marks, rules, config,
              if line.days > 0 then lines + [line] else lines, total, totals + [total])
  {
    LinesNext(dates, totals, total, marks, i);
    PrefixTotalsSnoc(totals, total, dates, i, rows, anomalies, marks.Keys, rules, config);
  }

  /** The lines are those of the prefix totals of the dates; an error means that some prefix cannot be priced. */
  ghost predicate AttributesDates(res: Result<seq<DateLine>>, dates: seq<int>, rows: seq<Row>, anomalies: seq<Anomaly>,
                                  marks: map<int, int>, rules: seq<Rule>, config: Config)
  {
    if res.Thrown? then
      exists i :: 0 <= i < |dates| && PrefixTotal(rows, anomalies, dates[i], marks.Keys, rules, config).Thrown?
    else
      exists totals :: PrefixTotals(totals, dates, rows, anomalies, marks.Keys, rules, config)
                       && res.value == LinesFor(dates, totals, marks, |totals|)
  }

  /** The source's loop over dates, carrying the previous total. */
  method AttributeDates(dates: seq<int>, rows: seq<Row>, anomalies: seq<Anomaly>, marks: map<int, int>,
                        rules: seq<Rule>, config: Config)
    returns (res: Result<seq<DateLine>>)
    ensures AttributesDates(res, dates, rows, anomalies, marks, rules, config)
  {
    ghost var totals: seq<int> := [];
    var lines: seq<DateLine> := [];
    var prior := 0;
    for i := 0 to |dates|
      invariant Attributed(dates, i, rows, anomalies, marks, rules, config, lines, prior, totals)
    {
      var automatic := PriceUpTo(rows, anomalies, dates[i], marks.Keys, rules, config);
      if automatic.Thrown? {
        return Thrown;
      }
      AttributedNext(dates, i, rows, anomalies, marks, rules, config, lines, prior, totals, automatic.value);
      var line := LineOn(dates[i], prior, automatic.value, marks);
      if line.days > 0 {
        lines := lines + [line];
      }
      prior := automatic.value;
      totals := totals + [automatic.value];
    }
    AllAttributed(dates, rows, anomalies, marks, rules, config, lines, prior, totals);
    return Ok(lines);
  }

  lemma {:induction false} AllAttributed(dates: seq<int>, rows: seq<Row>, anomalies: seq<Anomaly>, marks: map<int, int>,
                                         rules: seq<Rule>, config: Config, lines: seq<DateLine>, prior: int,
                                         totals: seq<int>)
    requires Attributed(dates, |dates|, rows, anomalies, marks, rules, config, lines, prior, totals)
    ensures AttributesDates(Ok(lines), dates, rows, anomalies, marks, rules, config)
  {
    assert dates[..|dates|] == dates;
  }

  /** The marks of a record: the highest of each date, all of them valid. */
  ghost predicate MarksOf(marks: map<int, int>, anomalies: seq<Anomaly>) {
    HighestMarks(marks, anomalies) && forall d :: d in marks ==> ValidMark(marks[d])
  }

  ghost predicate BadMark(anomalies: seq<Anomaly>) {
    exists a :: a in anomalies && Marks(a) && !ValidMark(a.manual.value)
  }

  ghost predicate Combines(res: Result<seq<DateLine>>, rows: seq<Row>, anomalies: seq<Anomaly>, rules: seq<Rule>,
                           config: Config) {
    exists marks :: MarksOf(marks, anomalies)
      && AttributesDates(res, RecordDates(rows, anomalies), rows, anomalies, marks, rules, config)
  }

  /** Whatever the record, the lines sum to its manual marks plus the automatic total of its unmarked dates. */
  ghost predicate SumsUp(lines: seq<DateLine>, rows: seq<Row>, anomalies: seq<Anomaly>, rules: seq<Rule>,
                         config: Config) {
    exists marks :: MarksOf(marks, anomalies) && SumsTo(lines, marks, rows, anomalies, rules, config)
  }

  ghost predicate SumsTo(lines: seq<DateLine>, marks: map<int, int>, rows: seq<Row>, anomalies: seq<Anomaly>,
                         rules: seq<Rule>, config: Config) {
    var dates := RecordDates(rows, anomalies);
    var unmarked := TotalOf(UnmarkedRows(rows, marks.Keys), UnmarkedCases(anomalies, marks.Keys), rules, config);
    unmarked.Ok? && DaysTotal(lines) == MarksTotal(dates, marks, |dates|) + unmarked.value
  }

  /** Each prefix of the record costs at least as much as the one before it. */
  ghost predicate NeverDrops(rows: seq<Row>, anomalies: seq<Anomaly>, marks: map<int, int>, rules: seq<Rule>,
                             config: Config) {
    exists totals :: PrefixTotals(totals, RecordDates(rows, anomalies), rows, anomalies, marks.Keys, rules, config)
      && Grow(totals)
  }

  ghost predicate Grow(totals: seq<int>) {
    forall i :: 0 <= i < |totals| ==> Prior(totals, i) <= totals[i]
  }

  ghost predicate PrefixesNeverDrop(rows: seq<Row>, anomalies: seq<Anomaly>, rules: seq<Rule>, config: Config) {
    exists marks :: MarksOf(marks, anomalies) && NeverDrops(rows, anomalies, marks, rules, config)
  }

  /** The lines sum to the marks and the total of the unmarked dates exactly when no prefix total drops. */
  method CombinedAttendanceDeductions(rows: seq<Row>, anomalies: seq<Anomaly>, rules: seq<Rule>, config: Config)
    returns (res: Result<seq<DateLine>>)
    ensures BadMark(anomalies) ==> res.Thrown?
    ensures !BadMark(anomalies) ==> Combines(res, rows, anomalies, rules, config)
    ensures res.Ok? && Payable(rules) && |RecordDates(rows, anomalies)| > 0 ==>
              (SumsUp(res.value, rows, anomalies, rules, config) <==> PrefixesNeverDrop(rows, anomalies, rules, config))
    ensures res.Ok? && Payable(rules) && Coherent(rules, config) && |RecordDates(rows, anomalies)| > 0 ==>
              SumsUp(res.value, rows, anomalies, rules, config)
  {
    var manual := ManualDeductionsByShift(anomalies);
    if manual.Thrown? {
      return Thrown;
    }
    res := AttributeDates(RecordDates(rows, anomalies), rows, anomalies, manual.value, rules, config);
    assert MarksOf(manual.value, anomalies);
    if res.Ok? && Payable(rules) && |RecordDates(rows, anomalies)| > 0 {
      LinesSumUpIff(res.value, manual.value, rows, anomalies, rules, config);
      if Coherent(rules, config) {
        LinesSumUp(res.value, manual.value, rows, anomalies, rules, config);
      }
    }
  }

  /** The marks of a record are determined by it. */
  lemma {:induction false} MarksAreUnique(a: map<int, int>, b: map<int, int>, anomalies: seq<Anomaly>)
    requires HighestMarks(a, anomalies) && HighestMarks(b, anomalies)
    ensures a == b
  {
    forall d ensures d in a <==> d in b {
      if d in a { MarkCarries(a, b, anomalies, d); }
      if d in b { MarkCarries(b, a, anomalies, d); }
    }
    forall d | d in a ensures a[d] == b[d] {
      MarkCarries(a, b, anomalies, d);
      MarkCarries(b, a, anomalies, d);
    }
  }

  lemma {:induction false} MarkCarries(a: map<int, int>, b: map<int, int>, anomalies: seq<Anomaly>, d: int)
    requires HighestMarks(a, anomalies) && HighestMarks(b, anomalies) && d in a
    ensures d in b && a[d] <= b[d]
  {
    var i :| 0 <= i < |anomalies| && MarksDate(anomalies, i, d) && anomalies[i].manual == Some(a[d]);
  }

  /** Totals of prefixes are determined by the record. */
  lemma {:induction false} TotalsAreUnique(s: seq<int>, t: seq<int>, dates: seq<int>, rows: seq<Row>,
                                           anomalies: seq<Anomaly>, marked: set<int>, rules: seq<Rule>, config: Config)
    requires PrefixTotals(s, dates, rows, anomalies, marked, rules, config)
    requires PrefixTotals(t, dates, rows, anomalies, marked, rules, config)
    ensures s == t
  {
    forall i | 0 <= i < |dates| ensures s[i] == t[i] {
      assert PrefixTotal(rows, anomalies, dates[i], marked, rules, config) == Ok(s[i]);
    }
  }

  lemma {:induction false} LinesSumUpIff(lines: seq<DateLine>, marks: map<int, int>, rows: seq<Row>,
                                         anomalies: seq<Anomaly>, rules: seq<Rule>, config: Config)
    requires Payable(rules) && |RecordDates(rows, anomalies)| > 0 && MarksOf(marks, anomalies)
    requires AttributesDates(Ok(lines), RecordDates(rows, anomalies), rows, anomalies, marks, rules, config)
    ensures SumsUp(lines, rows, anomalies, rules, config) <==> PrefixesNeverDrop(rows, anomalies, rules, config)
  {
    OneMarking(lines, marks, rows, anomalies, rules, config);
    SumsToIff(lines, marks, rows, anomalies, rules, config);
  }

  lemma {:induction false} OneMarking(lines: seq<DateLine>, marks: map<int, int>, rows: seq<Row>,
                                      anomalies: seq<Anomaly>, rules: seq<Rule>, config: Config)
    requires MarksOf(marks, anomalies)
    ensures SumsUp(lines, rows, anomalies, rules, config) <==> SumsTo(lines, marks, rows, anomalies, rules, config)
    ensures PrefixesNeverDrop(rows, anomalies, rules, config) <==> NeverDrops(rows, anomalies, marks, rules, config)
  {
    forall other | MarksOf(other, anomalies) ensures other == marks {
      MarksAreUnique(other, marks, anomalies);
    }
  }

  lemma {:induction false} SumsToIff(lines: seq<DateLine>, marks: map<int, int>, rows: seq<Row>,
                                     anomalies: seq<Anomaly>, rules: seq<Rule>, config: Config)
    requires Payable(rules) && |RecordDates(rows, anomalies)| > 0 && MarksOf(marks, anomalies)
    requires AttributesDates(Ok(lines), RecordDates(rows, anomalies), rows, anomalies, marks, rules, config)
    ensures SumsTo(lines, marks, rows, anomalies, rules, config) <==> NeverDrops(rows, anomalies, marks, rules, config)
  {
    var totals :| PrefixTotals(totals, RecordDates(rows, anomalies), rows, anomalies, marks.Keys, rules, config)
                  && lines == LinesFor(RecordDates(rows, anomalies), totals, marks, |totals|);
    SumsFrom(totals, lines, marks, rows, anomalies, rules, config);
    GrowthIsDetermined(totals, marks, rows, anomalies, rules, config);
  }

  lemma {:induction false} SumsFrom(totals: seq<int>, lines: seq<DateLine>, marks: map<int, int>, rows: seq<Row>,
                                    anomalies: seq<Anomaly>, rules: seq<Rule>, config: Config)
    requires Payable(rules) && |RecordDates(rows, anomalies)| > 0 && MarksOf(marks, anomalies)
    requires PrefixTotals(totals, RecordDates(rows, anomalies), rows, anomalies, marks.Keys, rules, config)
    requires lines == LinesFor(RecordDates(rows, anomalies), totals, marks, |totals|)
    ensures SumsTo(lines, marks, rows, anomalies, rules, config) <==> Grow(totals)
  {
    RecordDatesSpec(rows, anomalies);
    SumsOver(RecordDates(rows, anomalies), rows, anomalies, marks, rules, config, totals);
  }

  lemma {:induction false} GrowthIsDetermined(totals: seq<int>, marks: map<int, int>, rows: seq<Row>,
                                              anomalies: seq<Anomaly>, rules: seq<Rule>, config: Config)
    requires PrefixTotals(totals, RecordDates(rows, anomalies), rows, anomalies, marks.Keys, rules, config)
    ensures NeverDrops(rows, anomalies, marks, rules, config) <==> Grow(totals)
  {
    if NeverDrops(rows, anomalies, marks, rules, config) {
      var dates := RecordDates(rows, anomalies);
      var other :| PrefixTotals(other, dates, rows, anomalies, marks.Keys, rules, config) && Grow(other);
      TotalsAreUnique(totals, other, dates, rows, anomalies, marks.Keys, rules, config);
    }
  }

  lemma {:induction false} LinesSumUp(lines: seq<DateLine>, marks: map<int, int>, rows: seq<Row>,
                                      anomalies: seq<Anomaly>, rules: seq<Rule>, config: Config)
    requires Payable(rules) && Coherent(rules, config) && |RecordDates(rows, anomalies)| > 0
             && MarksOf(marks, anomalies)
    requires AttributesDates(Ok(lines), RecordDates(rows, anomalies), rows, anomalies, marks, rules, config)
    ensures SumsTo(lines, marks, rows, anomalies, rules, config)
  {
    var totals :| PrefixTotals(totals, RecordDates(rows, anomalies), rows, anomalies, marks.Keys, rules, config)
                  && lines == LinesFor(RecordDates(rows, anomalies), totals, marks, |totals|);
    AttributionTelescopes(rows, anomalies, marks, rules, config, totals);
  }

  lemma {:induction false} PrefixTotalsSnoc(totals: seq<int>, total: int, dates: seq<int>, i: nat, rows: seq<Row>,
                                            anomalies: seq<Anomaly>, marked: set<int>, rules: seq<Rule>, config: Config)
    requires i < |dates| && PrefixTotals(totals, dates[..i], rows, anomalies, marked, rules, config)
    requires PrefixTotal(rows, anomalies, dates[i], marked, rules, config) == Ok(total)
    ensures PrefixTotals(totals + [total], dates[..i + 1], rows, anomalies, marked, rules, config)
  {
    forall j | 0 <= j < i + 1
      ensures PrefixTotal(rows, anomalies, dates[..i + 1][j], marked, rules, config) == Ok((totals + [total])[j])
    {
      if j < i {
        assert dates[..i][j] == dates[j];
      }
    }
  }

  lemma {:induction false} LinesNext(dates: seq<int>, totals: seq<int>, total: int, marks: map<int, int>, i: nat)
    requires i == |totals| < |dates|
    ensures var line := LineOn(dates[i], Prior(totals, i), total, marks);
            var before := LinesFor(dates, totals, marks, i);
            LinesFor(dates, totals + [total], marks, i + 1) == if line.days > 0 then before + [line] else before
    ensures Prior(totals + [total], i + 1) == total
  {
    LinesKept(dates, totals, total, marks, i);
  }

  lemma {:induction false} LinesKept(dates: seq<int>, totals: seq<int>, total: int, marks: map<int, int>, n: nat)
    requires n <= |totals| && n <= |dates|
    ensures LinesFor(dates, totals + [total], marks, n) == LinesFor(dates, totals, marks, n)
  {
    if n > 0 {
      LinesKept(dates, totals, total, marks, n - 1);
    }
  }

  // ---------------------------------------------------------------- prefixes grow by whole days

  function AnomaliesOn(anomalies: seq<Anomaly>, d: int): seq<Case> {
    if |anomalies| == 0 then []
    else
      var a := anomalies[|anomalies| - 1];
      AnomaliesOn(anomalies[..|anomalies| - 1], d) + (if a.date == Some(d) then [CaseOf(a)] else [])
  }

  lemma {:induction false} CasesOnSnoc(cases: seq<Case>, c: Case, d: int)
    ensures CasesOn(cases + [c], d) == if c.date == d then CasesOn(cases, d) + [c] else CasesOn(cases, d)
  {
    assert (cases + [c])[..|cases|] == cases;
  }

  lemma {:induction false} DayOfPrefixRows(rows: seq<Row>, upTo: int, marked: set<int>, d: int)
    ensures RowsOn(RowsUpTo(rows, upTo, marked), d) == if d <= upTo && d !in marked then RowsOn(rows, d) else []
  {
    if |rows| > 0 {
      var front, r := rows[..|rows| - 1], rows[|rows| - 1];
      DayOfPrefixRows(front, upTo, marked, d);
      RowsOnSnoc(RowsUpTo(front, upTo, marked), r, d);
      assert RowsUpTo(front, upTo, marked) + [] == RowsUpTo(front, upTo, marked);
    }
  }

  lemma {:induction false} DayOfPrefixCases(anomalies: seq<Anomaly>, upTo: int, marked: set<int>, d: int)
    ensures CasesOn(CasesUpTo(anomalies, upTo, marked), d)
              == if d <= upTo && d !in marked then AnomaliesOn(anomalies, d) else []
  {
    if |anomalies| > 0 {
      var front, a := anomalies[..|anomalies| - 1], anomalies[|anomalies| - 1];
      DayOfPrefixCases(front, upTo, marked, d);
      var before := CasesUpTo(front, upTo, marked);
      if a.date.Some? {
        CasesOnSnoc(before, CaseOf(a), d);
      }
      assert before + [] == before;
    }
  }

  lemma {:induction false} PrefixesAreDayWise(rows: seq<Row>, anomalies: seq<Anomaly>, u: int, w: int, marked: set<int>)
    requires u <= w
    ensures DayWise(RowsUpTo(rows, u, marked), CasesUpTo(anomalies, u, marked),
                    RowsUpTo(rows, w, marked), CasesUpTo(anomalies, w, marked))
  {
    forall d ensures SameDay(RowsUpTo(rows, u, marked), CasesUpTo(anomalies, u, marked),
                             RowsUpTo(rows, w, marked), CasesUpTo(anomalies, w, marked), d)
                     || NoDay(RowsUpTo(rows, u, marked), CasesUpTo(anomalies, u, marked), d)
    {
      DayOfPrefixRows(rows, u, marked, d);
      DayOfPrefixRows(rows, w, marked, d);
      DayOfPrefixCases(anomalies, u, marked, d);
      DayOfPrefixCases(anomalies, w, marked, d);
    }
  }

  /** Prefixes that differ only in marked dates are the same record. */
  lemma {:induction false} SamePrefixRows(rows: seq<Row>, u: int, w: int, marked: set<int>)
    requires u <= w && forall r :: r in rows && u < r.date <= w ==> r.date in marked
    ensures RowsUpTo(rows, u, marked) == RowsUpTo(rows, w, marked)
  {
    if |rows| > 0 {
      assert rows[|rows| - 1] in rows;
      SamePrefixRows(rows[..|rows| - 1], u, w, marked);
    }
  }

  lemma {:induction false} SamePrefixCases(anomalies: seq<Anomaly>, u: int, w: int, marked: set<int>)
    requires u <= w && forall a :: a in anomalies && a.date.Some? && u < a.date.value <= w ==> a.date.value in marked
    ensures CasesUpTo(anomalies, u, marked) == CasesUpTo(anomalies, w, marked)
  {
    if |anomalies| > 0 {
      assert anomalies[|anomalies| - 1] in anomalies;
      SamePrefixCases(anomalies[..|anomalies| - 1], u, w, marked);
    }
  }

  lemma {:induction false} WholeRows(rows: seq<Row>, w: int, marked: set<int>)
    requires forall r :: r in rows ==> r.date <= w
    ensures RowsUpTo(rows, w, marked) == UnmarkedRows(rows, marked)
  {
    if |rows| > 0 {
      assert rows[|rows| - 1] in rows;
      WholeRows(rows[..|rows| - 1], w, marked);
    }
  }

  lemma {:induction false} WholeCases(anomalies: seq<Anomaly>, w: int, marked: set<int>)
    requires forall a :: a in anomalies && a.date.Some? ==> a.date.value <= w
    ensures CasesUpTo(anomalies, w, marked) == UnmarkedCases(anomalies, marked)
  {
    if |anomalies| > 0 {
      assert anomalies[|anomalies| - 1] in anomalies;
      WholeCases(anomalies[..|anomalies| - 1], w, marked);
    }
  }

  lemma {:induction false} EmptyRows(rows: seq<Row>, u: int, marked: set<int>)
    requires forall r :: r in rows ==> u < r.date
    ensures RowsUpTo(rows, u, marked) == []
  {
    if |rows| > 0 {
      assert rows[|rows| - 1] in rows;
      EmptyRows(rows[..|rows| - 1], u, marked);
    }
  }

  lemma {:induction false} EmptyCases(anomalies: seq<Anomaly>, u: int, marked: set<int>)
    requires forall a :: a in anomalies && a.date.Some? ==> u < a.date.value
    ensures CasesUpTo(anomalies, u, marked) == []
  {
    if |anomalies| > 0 {
      assert anomalies[|anomalies| - 1] in anomalies;
      EmptyCases(anomalies[..|anomalies| - 1], u, marked);
    }
  }

  /** Dates in order that include every date of the record. */
  ghost predicate DatesCover(dates: seq<int>, rows: seq<Row>, anomalies: seq<Anomaly>) {
    && Rising(dates)
    && (forall r :: r in rows ==> r.date in dates)
    && (forall a :: a in anomalies && a.date.Some? ==> a.date.value in dates)
  }

  /** The date before which everything carried into the i-th date was settled. */
  ghost function DateBefore(dates: seq<int>, i: nat): int
    requires i < |dates|
  {
    if i == 0 then dates[0] - 1 else dates[i - 1]
  }

  lemma {:induction false} DatesBound(dates: seq<int>, d: int)
    requires Rising(dates) && d in dates
    ensures dates[0] <= d <= dates[|dates| - 1]
    ensures forall i :: 0 <= i < |dates| && DateBefore(dates, i) < d <= dates[i] ==> d == dates[i]
  {
    var k :| 0 <= k < |dates| && dates[k] == d;
  }

  lemma {:induction false} TotalBefore(dates: seq<int>, rows: seq<Row>, anomalies: seq<Anomaly>, marked: set<int>,
                                       rules: seq<Rule>, config: Config, totals: seq<int>, i: nat)
    requires Payable(rules) && i < |dates| && DatesCover(dates, rows, anomalies)
    requires PrefixTotals(totals, dates, rows, anomalies, marked, rules, config)
    requires PrefixTotal(rows, anomalies, DateBefore(dates, i), marked, rules, config).Ok?
    ensures PrefixTotal(rows, anomalies, DateBefore(dates, i), marked, rules, config) == Ok(Prior(totals, i))
  {
    if i == 0 {
      TotalBeforeFirst(dates, rows, anomalies, marked, rules, config);
    }
  }

  /** Before the first date there is nothing to charge. */
  lemma {:induction false} TotalBeforeFirst(dates: seq<int>, rows: seq<Row>, anomalies: seq<Anomaly>, marked: set<int>,
                                            rules: seq<Rule>, config: Config)
    requires Payable(rules) && |dates| > 0 && DatesCover(dates, rows, anomalies)
    requires PrefixTotal(rows, anomalies, dates[0] - 1, marked, rules, config).Ok?
    ensures PrefixTotal(rows, anomalies, dates[0] - 1, marked, rules, config) == Ok(0)
  {
    NothingBefore(dates, rows, anomalies);
    NothingToTotal(rows, anomalies, dates[0] - 1, marked, rules, config);
  }

  lemma {:induction false} NothingBefore(dates: seq<int>, rows: seq<Row>, anomalies: seq<Anomaly>)
    requires |dates| > 0 && DatesCover(dates, rows, anomalies)
    ensures forall r :: r in rows ==> dates[0] - 1 < r.date
    ensures forall a :: a in anomalies && a.date.Some? ==> dates[0] - 1 < a.date.value
  {
    forall r | r in rows ensures dates[0] <= r.date { DatesBound(dates, r.date); }
    forall a | a in anomalies && a.date.Some? ensures dates[0] <= a.date.value { DatesBound(dates, a.date.value); }
  }

  lemma {:induction false} NothingToTotal(rows: seq<Row>, anomalies: seq<Anomaly>, u: int, marked: set<int>,
                                          rules: seq<Rule>, config: Config)
    requires Payable(rules) && PrefixTotal(rows, anomalies, u, marked, rules, config).Ok?
    requires forall r :: r in rows ==> u < r.date
    requires forall a :: a in anomalies && a.date.Some? ==> u < a.date.value
    ensures PrefixTotal(rows, anomalies, u, marked, rules, config) == Ok(0)
  {
    EmptyRows(rows, u, marked);
    EmptyCases(anomalies, u, marked);
    EmptyTotal(rules, config);
  }

  lemma {:induction false} MarkedDateAddsNothing(dates: seq<int>, rows: seq<Row>, anomalies: seq<Anomaly>,
                                                 marked: set<int>, i: nat)
    requires i < |dates| && DatesCover(dates, rows, anomalies) && dates[i] in marked
    ensures RowsUpTo(rows, DateBefore(dates, i), marked) == RowsUpTo(rows, dates[i], marked)
    ensures CasesUpTo(anomalies, DateBefore(dates, i), marked) == CasesUpTo(anomalies, dates[i], marked)
  {
    var u, w := DateBefore(dates, i), dates[i];
    forall r | r in rows && u < r.date <= w ensures r.date in marked { DatesBound(dates, r.date); }
    forall a | a in anomalies && a.date.Some? && u < a.date.value <= w ensures a.date.value in marked {
      DatesBound(dates, a.date.value);
    }
    SamePrefixRows(rows, u, w, marked);
    SamePrefixCases(anomalies, u, w, marked);
  }

  /** From one date to the next the automatic total does not drop. */
  lemma {:induction false} TotalStep(dates: seq<int>, rows: seq<Row>, anomalies: seq<Anomaly>, marked: set<int>,
                                     rules: seq<Rule>,
                                     config: Config, totals: seq<int>, i: nat)
    requires Payable(rules) && Coherent(rules, config) && i < |dates| && DatesCover(dates, rows, anomalies)
    requires PrefixTotals(totals, dates, rows, anomalies, marked, rules, config)
    ensures Prior(totals, i) <= totals[i]
  {
    var u, w := DateBefore(dates, i), dates[i];
    assert PrefixTotal(rows, anomalies, w, marked, rules, config) == Ok(totals[i]);
    PrefixesAreDayWise(rows, anomalies, u, w, marked);
    TotalGrows(RowsUpTo(rows, u, marked), CasesUpTo(anomalies, u, marked),
               RowsUpTo(rows, w, marked), CasesUpTo(anomalies, w, marked), rules, config);
    TotalBefore(dates, rows, anomalies, marked, rules, config, totals, i);
  }

  lemma {:induction false} DaysTotalSnoc(lines: seq<DateLine>, l: DateLine)
    ensures DaysTotal(lines + [l]) == DaysTotal(lines) + l.days
  {
    assert (lines + [l])[..|lines|] == lines;
  }

  /** How much the totals fall, where they fall. */
  function Drops(totals: seq<int>, n: nat): int
    requires n <= |totals|
  {
    if n == 0 then 0
    else
      var drop := Prior(totals, n - 1) - totals[n - 1];
      Drops(totals, n - 1) + (if drop > 0 then drop else 0)
  }

  lemma {:induction false} DropsZeroIff(totals: seq<int>, n: nat)
    requires n <= |totals|
    ensures Drops(totals, n) >= 0
    ensures Drops(totals, n) == 0 <==> forall i :: 0 <= i < n ==> Prior(totals, i) <= totals[i]
  {
    if n > 0 {
      DropsZeroIff(totals, n - 1);
    }
  }

  /** The lines sum to the marks, the last total and whatever the totals dropped; a marked date adds its mark alone. */
  lemma {:induction false} Telescope(dates: seq<int>, totals: seq<int>, marks: map<int, int>, n: nat)
    requires n <= |totals| == |dates|
    requires forall d :: d in marks ==> marks[d] >= 0
    requires forall i :: 0 <= i < |dates| && dates[i] in marks ==> Prior(totals, i) == totals[i]
    ensures DaysTotal(LinesFor(dates, totals, marks, n))
            == MarksTotal(dates, marks, n) + Prior(totals, n) + Drops(totals, n)
  {
    if n > 0 {
      Telescope(dates, totals, marks, n - 1);
      var line := LineOn(dates[n - 1], Prior(totals, n - 1), totals[n - 1], marks);
      var before := LinesFor(dates, totals, marks, n - 1);
      DaysTotalSnoc(before, line);
      assert before + [] == before;
      assert dates[n - 1] in marks ==> Prior(totals, n - 1) == totals[n - 1];
    }
  }

  lemma {:induction false} MarkedTotalStays(dates: seq<int>, rows: seq<Row>, anomalies: seq<Anomaly>, marked: set<int>,
                                            rules: seq<Rule>, config: Config, totals: seq<int>, i: nat)
    requires Payable(rules) && i < |dates| && DatesCover(dates, rows, anomalies) && dates[i] in marked
    requires PrefixTotals(totals, dates, rows, anomalies, marked, rules, config)
    ensures Prior(totals, i) == totals[i]
  {
    assert PrefixTotal(rows, anomalies, dates[i], marked, rules, config) == Ok(totals[i]);
    MarkedDateAddsNothing(dates, rows, anomalies, marked, i);
    TotalBefore(dates, rows, anomalies, marked, rules, config, totals, i);
  }

  lemma {:induction false} LastTotal(dates: seq<int>, rows: seq<Row>, anomalies: seq<Anomaly>, marked: set<int>,
                                     rules: seq<Rule>, config: Config, totals: seq<int>)
    requires |dates| > 0 && DatesCover(dates, rows, anomalies)
    requires PrefixTotals(totals, dates, rows, anomalies, marked, rules, config)
    ensures TotalOf(UnmarkedRows(rows, marked), UnmarkedCases(anomalies, marked), rules, config)
            == Ok(Prior(totals, |totals|))
  {
    var w := dates[|dates| - 1];
    assert PrefixTotal(rows, anomalies, w, marked, rules, config) == Ok(totals[|totals| - 1]);
    forall r | r in rows ensures r.date <= w { DatesBound(dates, r.date); }
    forall a | a in anomalies && a.date.Some? ensures a.date.value <= w { DatesBound(dates, a.date.value); }
    WholeRows(rows, w, marked);
    WholeCases(anomalies, w, marked);
  }

  /** What the lines of a record sum to, under any payable rules. */
  lemma {:induction false} SumsOver(dates: seq<int>, rows: seq<Row>, anomalies: seq<Anomaly>, marks: map<int, int>,
                                    rules: seq<Rule>, config: Config, totals: seq<int>)
    requires Payable(rules) && |dates| > 0 && DatesCover(dates, rows, anomalies)
    requires forall d :: d in marks ==> marks[d] >= 0
    requires PrefixTotals(totals, dates, rows, anomalies, marks.Keys, rules, config)
    ensures TotalOf(UnmarkedRows(rows, marks.Keys), UnmarkedCases(anomalies, marks.Keys), rules, config)
              == Ok(Prior(totals, |totals|))
    ensures DaysTotal(LinesFor(dates, totals, marks, |totals|))
            == MarksTotal(dates, marks, |dates|) + Prior(totals, |totals|)
            <==> Grow(totals)
  {
    forall i | 0 <= i < |dates| && dates[i] in marks ensures Prior(totals, i) == totals[i] {
      MarkedTotalStays(dates, rows, anomalies, marks.Keys, rules, config, totals, i);
    }
    Telescope(dates, totals, marks, |totals|);
    DropsZeroIff(totals, |totals|);
    LastTotal(dates, rows, anomalies, marks.Keys, rules, config, totals);
  }

  /**
   Attribution telescopes: through floors, caps and pooling, the per-date lines sum exactly to the
   manual marks plus the automatic total of all unmarked dates.
   */
  lemma {:induction false} AttributionTelescopes(rows: seq<Row>, anomalies: seq<Anomaly>, marks: map<int, int>,
                                                 rules: seq<Rule>, config: Config, totals: seq<int>)
    requires Payable(rules) && Coherent(rules, config) && |RecordDates(rows, anomalies)| > 0
    requires forall d :: d in marks ==> marks[d] >= 0
    requires PrefixTotals(totals, RecordDates(rows, anomalies), rows, anomalies, marks.Keys, rules, config)
    ensures var dates := RecordDates(rows, anomalies);
            var unmarked := TotalOf(UnmarkedRows(rows, marks.Keys), UnmarkedCases(anomalies, marks.Keys), rules,
                                    config);
            && unmarked.Ok?
            && DaysTotal(LinesFor(dates, totals, marks, |totals|)) == MarksTotal(dates, marks, |dates|) + unmarked.value
  {
    var dates := RecordDates(rows, anomalies);
    RecordDatesSpec(rows, anomalies);
    forall i | 0 <= i < |totals| ensures Prior(totals, i) <= totals[i] {
      TotalStep(dates, rows, anomalies, marks.Keys, rules, config, totals, i);
    }
    SumsOver(dates, rows, anomalies, marks, rules, config, totals);
  }
}
