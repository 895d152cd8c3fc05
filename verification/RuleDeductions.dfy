/**
 Pricing disapproved and lapsed attendance cases over a period
 (src/lib/attendanceAnomalyRules.js, 166-356). Days are hundredths; the timing threshold and measured
 durations are milliseconds.
 */
module RuleDeductions {
  import opened Options

  datatype Kind = AbsentKind | MissingIn | MissingOut | LateIn | EarlyOut | OtherKind

  datatype Status = Approved | Rejected | Pending | Resolved

  datatype Case = Case(
    id: int, employee: int, date: int, session: int, kind: Kind, status: Status, byManagement: bool,
    lapsed: bool, active: bool, version: int, manual: Option<int>,
    measured: Option<int>, actual: Option<int>, expected: Option<int>)

  datatype Rules = Rules(
    majorThreshold: int, poolSize: int, absentDays: int, missingDays: int, missingPoolSize: int,
    majorDays: int, pooledMinorDays: int)

  /** An open end is None. */
  datatype Period = Period(from: Option<int>, to: Option<int>)

  datatype LineKind = ManualLine | SingleLine | PooledLine

  /** A charge for some cases, on the date of its shift or of the case that completes its pool. */
  datatype Line = Line(ids: seq<int>, days: int, date: int, kind: LineKind)

  // ---------------------------------------------------------------- the policy's rules

  const DEFAULT_RULES := Rules(1_800_000, 3, 100, 100, 3, 50, 100)

  predicate Settable(value: Option<int>, least: int) { value.Some? && value.value >= least }

  function Configured(value: Option<int>, default: int): int {
    if value.Some? && value.value >= 0 then value.value else default
  }

  function ConfiguredSize(value: Option<int>, default: int): int {
    if value.Some? && value.value >= 1 then value.value else default
  }

  datatype PolicyRow = PolicyRow(
    majorThreshold: Option<int>, poolSize: Option<int>, absentDays: Option<int>, missingDays: Option<int>,
    missingPoolSize: Option<int>, majorDays: Option<int>, pooledMinorDays: Option<int>)

  ghost predicate Usable(r: Rules) {
    && r.poolSize >= 1 && r.missingPoolSize >= 1
    && r.absentDays >= 0 && r.missingDays >= 0 && r.majorDays >= 0 && r.pooledMinorDays >= 0
  }

  /** Values outside the editor's limits fall back to the defaults, so the rules are always usable. */
  function RulesFromPolicy(p: PolicyRow): (r: Rules)
    ensures Usable(r)
    ensures r.majorThreshold == (if Settable(p.majorThreshold, 0) then p.majorThreshold.value else 1_800_000)
    ensures r.poolSize == (if Settable(p.poolSize, 1) then p.poolSize.value else 3)
    ensures r.missingPoolSize == (if Settable(p.missingPoolSize, 1) then p.missingPoolSize.value else 3)
    ensures r.absentDays == (if Settable(p.absentDays, 0) then p.absentDays.value else 100)
    ensures r.missingDays == (if Settable(p.missingDays, 0) then p.missingDays.value else 100)
    ensures r.majorDays == (if Settable(p.majorDays, 0) then p.majorDays.value else 50)
    ensures r.pooledMinorDays == (if Settable(p.pooledMinorDays, 0) then p.pooledMinorDays.value else 100)
  {
    Rules(
      Configured(p.majorThreshold, DEFAULT_RULES.majorThreshold), ConfiguredSize(p.poolSize, DEFAULT_RULES.poolSize),
      Configured(p.absentDays, DEFAULT_RULES.absentDays), Configured(p.missingDays, DEFAULT_RULES.missingDays),
      ConfiguredSize(p.missingPoolSize, DEFAULT_RULES.missingPoolSize),
      Configured(p.majorDays, DEFAULT_RULES.majorDays), Configured(p.pooledMinorDays, DEFAULT_RULES.pooledMinorDays))
  }

  // ---------------------------------------------------------------- which cases count

  predicate InPeriod(p: Period, date: int) {
    !(p.from.Some? && date < p.from.value) && !(p.to.Some? && date > p.to.value)
  }

  function ShiftOf(c: Case): (int, int) { (c.employee, c.date) }

  predicate Disapproved(c: Case) { c.status == Rejected && c.byManagement }

  predicate Priceable(c: Case) {
    c.version == 2 && (Disapproved(c) || (c.status == Pending && c.lapsed)) && c.active
  }

  /** A case that carries a manual marking. */
  predicate MarksShift(c: Case) {
    c.version == 2 && Disapproved(c) && c.active && c.manual.Some?
  }

  predicate ValidMark(days: int) { days == 50 || days == 100 || days == 200 }

  predicate Marked(cases: seq<Case>, shift: (int, int)) {
    exists c :: c in cases && MarksShift(c) && ShiftOf(c) == shift
  }

  /** An approved case excuses its employee's whole day. */
  predicate Excused(cases: seq<Case>, shift: (int, int)) {
    exists c :: c in cases && c.status == Approved && ShiftOf(c) == shift
  }

  predicate Automatic(cases: seq<Case>, p: Period, c: Case) {
    Priceable(c) && InPeriod(p, c.date) && !Marked(cases, ShiftOf(c)) && !Excused(cases, ShiftOf(c))
  }

  predicate SameIncident(a: Case, b: Case) {
    a.employee == b.employee && a.date == b.date && a.session == b.session && a.kind == b.kind
  }

  // ---------------------------------------------------------------- the order of pricing

  predicate Precedes(a: Case, b: Case) {
    a.date < b.date || (a.date == b.date && a.id <= b.id)
  }

  function InsertCase(s: seq<Case>, c: Case): (r: seq<Case>)
    ensures multiset(r) == multiset(s) + multiset{c}
  {
    if |s| == 0 || Precedes(s[|s| - 1], c) then s + [c]
    else
      assert s == s[..|s| - 1] + [s[|s| - 1]];
      InsertCase(s[..|s| - 1], c) + [s[|s| - 1]]
  }

  /** By date, then by identifier. */
  function SortCases(s: seq<Case>): (r: seq<Case>)
    ensures multiset(r) == multiset(s)
  {
    if |s| == 0 then []
    else
      assert s == s[..|s| - 1] + [s[|s| - 1]];
      InsertCase(SortCases(s[..|s| - 1]), s[|s| - 1])
  }

  ghost predicate InOrder(s: seq<Case>) {
    forall i, j :: 0 <= i < j < |s| ==> Precedes(s[i], s[j])
  }

  lemma {:induction false} SameMembers(a: seq<Case>, b: seq<Case>)
    requires multiset(a) == multiset(b)
    ensures forall c :: c in a <==> c in b
  {
    forall c ensures c in a <==> c in b {
      assert c in a <==> c in multiset(a);
      assert c in b <==> c in multiset(b);
    }
  }

  lemma {:induction false} InsertKeepsOrder(s: seq<Case>, c: Case)
    requires InOrder(s)
    ensures InOrder(InsertCase(s, c))
  {
    if |s| == 0 || Precedes(s[|s| - 1], c) {
    } else {
      var front, last := s[..|s| - 1], s[|s| - 1];
      InsertKeepsOrder(front, c);
      var r := InsertCase(front, c);
      forall i | 0 <= i < |r| ensures Precedes(r[i], last) {
        assert r[i] in multiset(r);
        assert r[i] in front || r[i] == c;
      }
    }
  }

  lemma {:induction false} SortedInOrder(s: seq<Case>)
    ensures InOrder(SortCases(s))
  {
    if |s| > 0 {
      SortedInOrder(s[..|s| - 1]);
      InsertKeepsOrder(SortCases(s[..|s| - 1]), s[|s| - 1]);
    }
  }

  lemma {:induction false} LastIsGreatest(a: seq<Case>, b: seq<Case>)
    requires InOrder(a) && InOrder(b) && multiset(a) == multiset(b) && |a| > 0
    requires forall x, y :: x in a && y in a && x.id == y.id ==> x == y
    ensures |b| > 0 && a[|a| - 1] == b[|b| - 1]
  {
    SameMembers(a, b);
    assert a[|a| - 1] in b;
    assert b[|b| - 1] in a;
    var i :| 0 <= i < |b| && b[i] == a[|a| - 1];
    var j :| 0 <= j < |a| && a[j] == b[|b| - 1];
  }

  lemma {:induction false} WithoutLast(a: seq<Case>)
    requires |a| > 0
    ensures multiset(a[..|a| - 1]) == multiset(a) - multiset{a[|a| - 1]}
    ensures a == a[..|a| - 1] + [a[|a| - 1]]
    ensures forall c :: c in a[..|a| - 1] ==> c in a
  {
    assert a == a[..|a| - 1] + [a[|a| - 1]];
  }

  /** With distinct identifiers, sorting forgets the input order. */
  lemma {:induction false} OrderIsUnique(a: seq<Case>, b: seq<Case>)
    requires InOrder(a) && InOrder(b) && multiset(a) == multiset(b)
    requires forall x, y :: x in a && y in a && x.id == y.id ==> x == y
    ensures a == b
    decreases |a|
  {
    if |a| > 0 {
      LastIsGreatest(a, b);
      WithoutLast(a);
      WithoutLast(b);
      OrderIsUnique(a[..|a| - 1], b[..|b| - 1]);
    } else {
      assert |multiset(b)| == 0;
    }
  }

  // ---------------------------------------------------------------- incidents and their categories

  /** The automatic cases in pricing order, one per incident. */
  function Incidents(sorted: seq<Case>, cases: seq<Case>, p: Period): seq<Case> {
    if |sorted| == 0 then []
    else
      KeepIncident(Incidents(sorted[..|sorted| - 1], cases, p), cases, p, sorted[|sorted| - 1])
  }

  function KeepIncident(kept: seq<Case>, cases: seq<Case>, p: Period, c: Case): seq<Case> {
    if Automatic(cases, p, c) && !(exists k :: k in kept && SameIncident(k, c)) then kept + [c] else kept
  }

  datatype Category = AbsentCat | MissingCat | MajorCat | MinorCat | NoCat

  predicate IsTiming(c: Case) { c.kind == LateIn || c.kind == EarlyOut }

  /** How late or early, in milliseconds; a missing time counts as the epoch. */
  function Measure(c: Case): int {
    c.measured.GetOr((if c.kind == LateIn then 1 else -1) * (c.actual.GetOr(0) - c.expected.GetOr(0)))
  }

  function CategoryOf(r: Rules, c: Case): Category {
    match c.kind
    case AbsentKind => AbsentCat
    case MissingIn => MissingCat
    case MissingOut => MissingCat
    case OtherKind => NoCat
    case _ => if Measure(c) > r.majorThreshold then MajorCat else MinorCat
  }

  function Only(cs: seq<Case>, r: Rules, cat: Category): seq<Case> {
    if |cs| == 0 then []
    else Only(cs[..|cs| - 1], r, cat) + (if CategoryOf(r, cs[|cs| - 1]) == cat then [cs[|cs| - 1]] else [])
  }

  function Own(cs: seq<Case>, e: int): seq<Case> {
    if |cs| == 0 then []
    else Own(cs[..|cs| - 1], e) + (if cs[|cs| - 1].employee == e then [cs[|cs| - 1]] else [])
  }

  /** The employees of a list of cases, in order of first appearance. */
  function Employees(cs: seq<Case>): (es: seq<int>)
    ensures forall e :: e in es <==> exists c :: c in cs && c.employee == e
  {
    if |cs| == 0 then []
    else
      var before, c := Employees(cs[..|cs| - 1]), cs[|cs| - 1];
      assert cs == cs[..|cs| - 1] + [c];
      if c.employee in before then before else before + [c.employee]
  }

  function Ids(cs: seq<Case>): seq<int> {
    seq(|cs|, i requires 0 <= i < |cs| => cs[i].id)
  }

  // ---------------------------------------------------------------- lines

  /** The line a case is charged on its own, if any. */
  function SingleOf(c: Case, r: Rules): seq<Line> {
    match CategoryOf(r, c)
    case AbsentCat => [Line([c.id], r.absentDays, c.date, SingleLine)]
    case MajorCat => [Line([c.id], r.majorDays, c.date, SingleLine)]
    case _ => []
  }

  function SingleLines(cs: seq<Case>, r: Rules): seq<Line> {
    if |cs| == 0 then []
    else
      var c := cs[|cs| - 1];
      SingleLines(cs[..|cs| - 1], r) + SingleOf(c, r)
  }

  /** One whole pool, dated by its last case. */
  function PoolLine(pool: seq<Case>, days: int): Line
    requires |pool| > 0
  {
    Line(Ids(pool), days, pool[|pool| - 1].date, PooledLine)
  }

  /** Every `size` of one employee's cases cost `days`; the rest cost nothing. */
  function Chunks(own: seq<Case>, size: int, days: int): seq<Line>
    requires size >= 1
  {
    if |own| < size then []
    else [PoolLine(own[..size], days)] + Chunks(own[size..], size, days)
  }

  function PoolLines(es: seq<int>, cs: seq<Case>, size: int, days: int): seq<Line>
    requires size >= 1
  {
    if |es| == 0 then []
    else PoolLines(es[..|es| - 1], cs, size, days) + Chunks(Own(cs, es[|es| - 1]), size, days)
  }

  /** One marking per shift: the highest of its cases. */
  datatype Mark = Mark(shift: (int, int), days: int, ids: seq<int>)

  function MarkIndex(marks: seq<Mark>, shift: (int, int)): (i: nat)
    ensures i <= |marks|
    ensures i < |marks| ==> marks[i].shift == shift
    ensures forall j :: 0 <= j < i ==> marks[j].shift != shift
  {
    if |marks| == 0 then 0
    else
      var n := |marks| - 1;
      var i := MarkIndex(marks[..n], shift);
      if i < n || marks[n].shift == shift then i else n + 1
  }

  function Raise(m: Mark, c: Case): Mark
    requires c.manual.Some?
  {
    m.(days := if m.days > c.manual.value then m.days else c.manual.value,
       ids := if c.id in m.ids then m.ids else m.ids + [c.id])
  }

  function AddMark(marks: seq<Mark>, c: Case): seq<Mark>
    requires c.manual.Some?
  {
    var i := MarkIndex(marks, ShiftOf(c));
    if i < |marks| then marks[i := Raise(marks[i], c)] else marks + [Mark(ShiftOf(c), c.manual.value, [c.id])]
  }

  function MarksIn(cases: seq<Case>, p: Period): seq<Mark> {
    if |cases| == 0 then []
    else
      var c, before := cases[|cases| - 1], MarksIn(cases[..|cases| - 1], p);
      if MarksShift(c) && InPeriod(p, c.date) then AddMark(before, c) else before
  }

  function MarkLine(m: Mark): Line { Line(m.ids, m.days, m.shift.1, ManualLine) }

  function MarkLines(marks: seq<Mark>): seq<Line> {
    seq(|marks|, i requires 0 <= i < |marks| => MarkLine(marks[i]))
  }

  function DaysTotal(lines: seq<Line>): int {
    if |lines| == 0 then 0 else DaysTotal(lines[..|lines| - 1]) + lines[|lines| - 1].days
  }

  ghost predicate BadMark(cases: seq<Case>, p: Period) {
    exists c :: c in cases && MarksShift(c) && InPeriod(p, c.date) && !ValidMark(c.manual.value)
  }

  ghost predicate BadTiming(cs: seq<Case>) {
    exists c :: c in cs && IsTiming(c) && Measure(c) <= 0
  }

  function AutomaticLines(cs: seq<Case>, r: Rules): seq<Line>
    requires r.poolSize >= 1 && r.missingPoolSize >= 1
  {
    var missing, minors := Only(cs, r, MissingCat), Only(cs, r, MinorCat);
    SingleLines(cs, r)
    + PoolLines(Employees(missing), missing, r.missingPoolSize, r.missingDays)
    + PoolLines(Employees(minors), minors, r.poolSize, r.pooledMinorDays)
  }

  ghost function Priced(cases: seq<Case>, p: Period, r: Rules): Result<seq<Line>>
    requires r.poolSize >= 1 && r.missingPoolSize >= 1
  {
    var cs := Incidents(SortCases(cases), cases, p);
    if BadMark(cases, p) || BadTiming(cs) then Thrown
    else Ok(MarkLines(MarksIn(cases, p)) + AutomaticLines(cs, r))
  }

  // ---------------------------------------------------------------- the source's loops

  method CollectMarks(cases: seq<Case>, p: Period) returns (res: Result<seq<Mark>>)
    ensures res.Thrown? <==> BadMark(cases, p)
    ensures res.Ok? ==> res.value == MarksIn(cases, p)
  {
    var marks: seq<Mark> := [];
    for i := 0 to |cases|
      invariant marks == MarksIn(cases[..i], p)
      invariant forall c :: c in cases[..i] && MarksShift(c) && InPeriod(p, c.date) ==> ValidMark(c.manual.value)
    {
      var c := cases[i];
      assert cases[..i + 1][..i] == cases[..i];
      assert cases[..i + 1] == cases[..i] + [c];
      if MarksShift(c) && InPeriod(p, c.date) {
        if !ValidMark(c.manual.value) {
          return Thrown;
        }
        var k := MarkIndex(marks, ShiftOf(c));
        if k < |marks| {
          marks := marks[k := Raise(marks[k], c)];
        } else {
          marks := marks + [Mark(ShiftOf(c), c.manual.value, [c.id])];
        }
      }
    }
    assert cases[..|cases|] == cases;
    return Ok(marks);
  }

  /** What one pass has made of a prefix of the sorted cases. */
  ghost predicate Scanned(prefix: seq<Case>, cases: seq<Case>, p: Period, r: Rules, seen: seq<Case>, lines: seq<Line>,
                          missing: seq<Case>, minors: seq<Case>)
  {
    && seen == Incidents(prefix, cases, p) && !BadTiming(seen)
    && lines == SingleLines(seen, r) && missing == Only(seen, r, MissingCat) && minors == Only(seen, r, MinorCat)
  }

  predicate Skipped(seen: seq<Case>, cases: seq<Case>, p: Period, c: Case) {
    !Automatic(cases, p, c) || exists k :: k in seen && SameIncident(k, c)
  }

  lemma {:induction false} ScannedSkip(prefix: seq<Case>, cases: seq<Case>, p: Period, c: Case)
    ensures var seen := Incidents(prefix, cases, p);
            Incidents(prefix + [c], cases, p) == if Skipped(seen, cases, p, c) then seen else seen + [c]
  {
    assert (prefix + [c])[..|prefix|] == prefix;
  }

  lemma {:induction false} LinesNext(seen: seq<Case>, c: Case, r: Rules)
    ensures SingleLines(seen + [c], r) == SingleLines(seen, r) + SingleOf(c, r)
    ensures forall cat :: Only(seen + [c], r, cat) == Only(seen, r, cat) + (if CategoryOf(r, c) == cat then [c] else [])
    ensures BadTiming(seen + [c]) <==> BadTiming(seen) || (IsTiming(c) && Measure(c) <= 0)
  {
    var next := seen + [c];
    assert next[..|seen|] == seen;
    if BadTiming(seen) {
      var k :| k in seen && IsTiming(k) && Measure(k) <= 0;
      assert k in next;
    }
    assert c in next;
  }

  /** A case that counts goes to its own line or to one of the two lists that are pooled afterwards. */
  method TakeCase(c: Case, r: Rules, lines: seq<Line>, missing: seq<Case>, minors: seq<Case>)
    returns (lines2: seq<Line>, missing2: seq<Case>, minors2: seq<Case>)
    ensures lines2 == lines + SingleOf(c, r)
    ensures missing2 == missing + (if CategoryOf(r, c) == MissingCat then [c] else [])
    ensures minors2 == minors + (if CategoryOf(r, c) == MinorCat then [c] else [])
  {
    lines2, missing2, minors2 := lines, missing, minors;
    match CategoryOf(r, c) {
      case AbsentCat => lines2 := lines + [Line([c.id], r.absentDays, c.date, SingleLine)];
      case MajorCat => lines2 := lines + [Line([c.id], r.majorDays, c.date, SingleLine)];
      case MissingCat => missing2 := missing + [c];
      case MinorCat => minors2 := minors + [c];
      case NoCat =>
    }
  }

  /** One pass over the sorted cases: single lines, and the two lists that are pooled afterwards. */
  method ScanCases(sorted: seq<Case>, cases: seq<Case>, p: Period, r: Rules)
    returns (res: Result<(seq<Line>, seq<Case>, seq<Case>)>)
    ensures res.Thrown? <==> BadTiming(Incidents(sorted, cases, p))
    ensures res.Ok? ==>
              var cs := Incidents(sorted, cases, p);
              res.value == (SingleLines(cs, r), Only(cs, r, MissingCat), Only(cs, r, MinorCat))
  {
    var seen: seq<Case>, lines: seq<Line>, missing: seq<Case>, minors: seq<Case> := [], [], [], [];
    for i := 0 to |sorted|
      invariant Scanned(sorted[..i], cases, p, r, seen, lines, missing, minors)
    {
      var c := sorted[i];
      assert sorted[..i + 1] == sorted[..i] + [c];
      ScannedSkip(sorted[..i], cases, p, c);
      if Skipped(seen, cases, p, c) {
        continue;
      }
      LinesNext(seen, c, r);
      if IsTiming(c) && Measure(c) <= 0 {
        StaysBad(sorted, i + 1, cases, p);
        return Thrown;
      }
      lines, missing, minors := TakeCase(c, r, lines, missing, minors);
      seen := seen + [c];
    }
    assert sorted[..|sorted|] == sorted;
    return Ok((lines, missing, minors));
  }

  lemma {:induction false} StaysBad(sorted: seq<Case>, i: nat, cases: seq<Case>, p: Period)
    requires i <= |sorted| && BadTiming(Incidents(sorted[..i], cases, p))
    ensures BadTiming(Incidents(sorted, cases, p))
    decreases |sorted|
  {
    if i == |sorted| {
      assert sorted[..i] == sorted;
    } else {
      var front := sorted[..|sorted| - 1];
      assert front[..i] == sorted[..i];
      StaysBad(front, i, cases, p);
      var c :| c in Incidents(front, cases, p) && IsTiming(c) && Measure(c) <= 0;
      assert c in Incidents(sorted, cases, p);
    }
  }

  method ChunkLines(own: seq<Case>, size: int, days: int) returns (lines: seq<Line>)
    requires size >= 1
    ensures lines == Chunks(own, size, days)
  {
    lines := [];
    var i := 0;
    ghost var rest := Chunks(own, size, days);
    assert own[0..] == own;
    while i + size <= |own|
      invariant 0 <= i <= |own|
      invariant rest == Chunks(own[i..], size, days) && lines + rest == Chunks(own, size, days)
    {
      var chunk := PoolLine(own[i..i + size], days);
      NextChunk(own, i, size, days);
      rest := Chunks(own[i + size..], size, days);
      Shift(lines, chunk, rest);
      lines := lines + [chunk];
      i := i + size;
    }
    assert rest == [] && lines + [] == lines;
  }

  lemma {:induction false} NextChunk(own: seq<Case>, i: nat, size: int, days: int)
    requires size >= 1 && i + size <= |own|
    ensures Chunks(own[i..], size, days) == [PoolLine(own[i..i + size], days)] + Chunks(own[i + size..], size, days)
  {
    assert own[i..][..size] == own[i..i + size] && own[i..][size..] == own[i + size..];
  }

  lemma {:induction false} Shift(lines: seq<Line>, chunk: Line, rest: seq<Line>)
    ensures lines + ([chunk] + rest) == lines + [chunk] + rest
  {
  }

  /** What is left over of each employee's cases after whole pools. */
  function Leftover(es: seq<int>, cs: seq<Case>, size: int): int
    requires size >= 1
  {
    if |es| == 0 then 0 else Leftover(es[..|es| - 1], cs, size) + |Own(cs, es[|es| - 1])| % size
  }

  method PoolCases(cs: seq<Case>, size: int, days: int) returns (lines: seq<Line>, remainder: int)
    requires size >= 1
    ensures lines == PoolLines(Employees(cs), cs, size, days) && remainder == Leftover(Employees(cs), cs, size)
  {
    var es := Employees(cs);
    lines, remainder := [], 0;
    for i := 0 to |es|
      invariant lines == PoolLines(es[..i], cs, size, days) && remainder == Leftover(es[..i], cs, size)
    {
      assert es[..i + 1][..i] == es[..i];
      var own := Own(cs, es[i]);
      var chunks := ChunkLines(own, size, days);
      lines := lines + chunks;
      remainder := remainder + |own| % size;
    }
    assert es[..|es|] == es;
  }

  datatype Summary = Summary(days: int, minorCount: nat, minorRemainder: int, missingCount: nat, missingRemainder: int,
                             lines: seq<Line>)

  method RuleDeductions(cases: seq<Case>, p: Period, r: Rules) returns (res: Result<Summary>)
    requires r.poolSize >= 1 && r.missingPoolSize >= 1
    ensures res.Thrown? <==> Priced(cases, p, r).Thrown?
    ensures res.Ok? ==>
              var cs := Incidents(SortCases(cases), cases, p);
              var missing, minors := Only(cs, r, MissingCat), Only(cs, r, MinorCat);
              && Priced(cases, p, r) == Ok(res.value.lines) && res.value.days == DaysTotal(res.value.lines)
              && res.value.minorCount == |minors|
              && res.value.minorRemainder == Leftover(Employees(minors), minors, r.poolSize)
              && res.value.missingCount == |missing|
              && res.value.missingRemainder == Leftover(Employees(missing), missing, r.missingPoolSize)
  {
    var marks := CollectMarks(cases, p);
    if marks.Thrown? {
      return Thrown;
    }
    var scan := ScanCases(SortCases(cases), cases, p, r);
    if scan.Thrown? {
      return Thrown;
    }
    var (singles, missing, minors) := scan.value;
    var missingLines, missingRemainder := PoolCases(missing, r.missingPoolSize, r.missingDays);
    var minorLines, minorRemainder := PoolCases(minors, r.poolSize, r.pooledMinorDays);
    var lines := MarkLines(marks.value) + (singles + missingLines + minorLines);
    return Ok(Summary(DaysTotal(lines), |minors|, minorRemainder, |missing|, missingRemainder, lines));
  }
}
