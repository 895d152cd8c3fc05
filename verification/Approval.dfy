/**
 The approval matrix (src/lib/approvalMatrix.js, 57-183): validating a published route, sealing it for one
 request and walking the sealed levels. Levels arrive already typed; a code is the empty string when missing.
 */
module Approval {
  import opened Options
  import opened Trimming

  type Code = string

  datatype Kind = Attendance | Payroll | OtherKind

  datatype Action = Recommend | Verify | Approve

  datatype Mode = Named | EmployeeManager

  datatype Level = Level(
    name: string, action: Action, required: bool, paused: bool, mode: Mode, approverIds: seq<int>,
    canReject: bool, canReturn: bool, satisfiedByInitiator: bool, allowSelf: bool, threshold: Option<int>)

  datatype Skip = NotSkipped | Paused | BelowThreshold | NoApprover

  datatype Sealed = Sealed(
    index: nat, name: string, action: Action, required: bool, canReject: bool, canReturn: bool, allowSelf: bool,
    approverCodes: seq<Code>, viaManager: bool, engaged: bool, auto: bool, skipped: Skip)

  datatype Submission = Submission(kind: Kind, initiator: Code, subject: Code, amount: int)

  const MAX_LEVELS := 8
  const MAX_APPROVERS := 20

  // ---------------------------------------------------------------- lists without repetition

  /** First occurrences, in order. */
  function Unique<T(==,!new)>(s: seq<T>): (r: seq<T>)
    ensures forall x :: x in r <==> x in s
    ensures forall i, j :: 0 <= i < j < |r| ==> r[i] != r[j]
  {
    if |s| == 0 then []
    else
      assert s == s[..|s| - 1] + [s[|s| - 1]];
      var front := Unique(s[..|s| - 1]);
      if s[|s| - 1] in front then front else front + [s[|s| - 1]]
  }

  function Without(s: seq<Code>, gone: seq<Code>): (r: seq<Code>)
    ensures forall c :: c in r <==> c in s && c !in gone
  {
    if |s| == 0 then []
    else
      assert s == s[..|s| - 1] + [s[|s| - 1]];
      Without(s[..|s| - 1], gone) + (if s[|s| - 1] in gone then [] else [s[|s| - 1]])
  }

  // ---------------------------------------------------------------- validating a route

  predicate SchemaHolds(raw: seq<Level>) {
    1 <= |raw| <= MAX_LEVELS
    && forall i :: 0 <= i < |raw| ==> LevelShape(raw[i])
  }

  predicate LevelShape(l: Level) {
    1 <= |Trim(l.name, JsBlank)| <= 60 && |l.approverIds| <= MAX_APPROVERS
      && (l.threshold.Some? ==> l.threshold.value >= 0)
    && forall i :: 0 <= i < |l.approverIds| ==> l.approverIds[i] > 0
  }

  /** What the source demands of one level of a route. */
  predicate LevelHolds(kind: Kind, l: Level, last: bool) {
    && (last <==> l.action == Approve)
    && (last ==> !l.paused && l.required)
    && (l.mode == Named && l.approverIds == [] ==> l.paused)
    && (l.mode == EmployeeManager ==> l.approverIds == [])
    && (l.allowSelf ==> l.action == Verify && l.mode == Named)
    && (l.action == Approve ==> !l.satisfiedByInitiator && (l.canReject || l.canReturn))
    && (l.threshold.Some? ==> kind == Payroll && !l.required)
  }

  function Normalised(raw: seq<Level>): seq<Level> {
    seq(|raw|, i requires 0 <= i < |raw| =>
      raw[i].(name := Trim(raw[i].name, JsBlank), approverIds := Unique(raw[i].approverIds)))
  }

  ghost predicate RouteHolds(kind: Kind, levels: seq<Level>) {
    && |levels| >= 1
    && forall i :: 0 <= i < |levels| ==> LevelHolds(kind, levels[i], i == |levels| - 1)
  }

  /** The source's checks: the schema, then one level after the other. */
  method ParseLevels(kind: Kind, raw: seq<Level>) returns (r: Result<seq<Level>>)
    ensures r == Ok(Normalised(raw)) || r == Thrown
    ensures r.Ok? <==> kind != OtherKind && SchemaHolds(raw) && RouteHolds(kind, Normalised(raw))
  {
    if kind == OtherKind || !SchemaHolds(raw) { return Thrown; }
    var levels := Normalised(raw);
    var refused := RefuseRoute(kind, levels);
    r := if refused then Thrown else Ok(levels);
  }

  method RefuseRoute(kind: Kind, levels: seq<Level>) returns (refused: bool)
    requires |levels| >= 1
    ensures refused <==> !RouteHolds(kind, levels)
  {
    for i := 0 to |levels|
      invariant forall k :: 0 <= k < i ==> LevelHolds(kind, levels[k], k == |levels| - 1)
    {
      refused := RefuseLevel(kind, levels[i], i == |levels| - 1);
      if refused { return; }
    }
    refused := false;
  }

  method RefuseLevel(kind: Kind, l: Level, last: bool) returns (refused: bool)
    ensures refused <==> !LevelHolds(kind, l, last)
  {
    if l.action == Approve && !last { return true; }
    if last && l.action != Approve { return true; }
    if last && l.paused { return true; }
    if l.mode == Named && l.approverIds == [] && !l.paused { return true; }
    if l.mode == EmployeeManager && l.approverIds != [] { return true; }
    if l.allowSelf && l.action != Verify { return true; }
    if l.allowSelf && l.mode != Named { return true; }
    if l.action == Approve && l.satisfiedByInitiator { return true; }
    if l.action == Approve && !l.canReject && !l.canReturn { return true; }
    if l.threshold.Some? {
      if kind != Payroll { return true; }
      if l.required { return true; }
    }
    if last && !l.required { return true; }
    return false;
  }

  // ---------------------------------------------------------------- sealing a route

  function Assigned(approvers: Level -> seq<Code>, l: Level): seq<Code> {
    Unique(Without(approvers(l), [""]))
  }

  function Eligible(l: Level, people: seq<Code>, sub: Submission): seq<Code> {
    if l.allowSelf then people else Without(people, [sub.initiator, sub.subject])
  }

  /** The initiator's raising the request counts as the level. */
  predicate DoneByInitiator(l: Level, people: seq<Code>, sub: Submission) {
    && (l.satisfiedByInitiator || (l.allowSelf && sub.initiator == sub.subject))
    && l.action != Approve && sub.initiator in people
    && (sub.kind == Payroll || sub.initiator != sub.subject || l.allowSelf)
  }

  predicate Below(l: Level, sub: Submission) { l.threshold.Some? && sub.amount < l.threshold.value }

  function SealLevel(l: Level, i: nat, people: seq<Code>, sub: Submission): Result<Sealed> {
    var eligible := Eligible(l, people, sub);
    var open := Sealed(i, l.name, l.action, l.required, l.canReject, l.canReturn, l.allowSelf, eligible,
                       l.mode == EmployeeManager, true, false, NotSkipped);
    if l.paused then Ok(open.(allowSelf := false, approverCodes := [], engaged := false, skipped := Paused))
    else if Below(l, sub) then Ok(open.(engaged := false, skipped := BelowThreshold))
    else if DoneByInitiator(l, people, sub) then Ok(open.(auto := true))
    else if eligible == [] then
      if l.required then Thrown else Ok(open.(engaged := false, skipped := NoApprover))
    else Ok(open)
  }

  function SealAll(levels: seq<Level>, sub: Submission, approvers: Level -> seq<Code>): (r: Result<seq<Sealed>>)
    ensures r.Ok? ==> |r.value| == |levels|
  {
    if |levels| == 0 then Ok([])
    else
      var n := |levels| - 1;
      var front := SealAll(levels[..n], sub, approvers);
      if front.Thrown? then Thrown
      else
        var l := SealLevel(levels[n], n, Assigned(approvers, levels[n]), sub);
        if l.Thrown? then Thrown else Ok(front.value + [l.value])
  }

  /** The sealed levels of a request, or an error; an empty route never gets past validation. */
  function BuildRoute(levels: seq<Level>, sub: Submission, approvers: Level -> seq<Code>): Result<seq<Sealed>> {
    var sealed := SealAll(levels, sub, approvers);
    if sealed.Thrown? || |sealed.value| == 0 then Thrown
    else
      var decision := sealed.value[|sealed.value| - 1];
      if !decision.engaged || decision.action != Approve then Thrown else sealed
  }

  lemma {:induction false} SealedAt(levels: seq<Level>, sub: Submission, approvers: Level -> seq<Code>, i: nat)
    requires SealAll(levels, sub, approvers).Ok? && i < |levels|
    ensures SealLevel(levels[i], i, Assigned(approvers, levels[i]), sub) == Ok(SealAll(levels, sub, approvers).value[i])
  {
    if i < |levels| - 1 {
      SealedAt(levels[..|levels| - 1], sub, approvers, i);
    }
  }

  /** A required level with nobody left to act on it. */
  ghost predicate Deserted(l: Level, sub: Submission, approvers: Level -> seq<Code>) {
    var people := Assigned(approvers, l);
    l.required && !l.paused && !Below(l, sub) && !DoneByInitiator(l, people, sub) && Eligible(l, people, sub) == []
  }

  ghost predicate SomeDeserted(levels: seq<Level>, sub: Submission, approvers: Level -> seq<Code>) {
    exists i :: 0 <= i < |levels| && Deserted(levels[i], sub, approvers)
  }

  lemma {:induction false} DesertedSplit(levels: seq<Level>, l: Level, sub: Submission, approvers: Level -> seq<Code>)
    ensures SomeDeserted(levels + [l], sub, approvers)
            <==> SomeDeserted(levels, sub, approvers) || Deserted(l, sub, approvers)
  {
    var all := levels + [l];
    if SomeDeserted(levels, sub, approvers) {
      var i :| 0 <= i < |levels| && Deserted(levels[i], sub, approvers);
      assert all[i] == levels[i];
    }
    if Deserted(l, sub, approvers) {
      assert all[|levels|] == l;
    }
    if SomeDeserted(all, sub, approvers) {
      var i :| 0 <= i < |all| && Deserted(all[i], sub, approvers);
      assert i < |levels| ==> all[i] == levels[i];
    }
  }

  lemma {:induction false} SealLevelThrows(l: Level, i: nat, sub: Submission, approvers: Level -> seq<Code>)
    ensures SealLevel(l, i, Assigned(approvers, l), sub).Thrown? <==> Deserted(l, sub, approvers)
  {
  }

  lemma {:induction false} SealingThrows(levels: seq<Level>, sub: Submission, approvers: Level -> seq<Code>)
    ensures SealAll(levels, sub, approvers).Thrown? <==> SomeDeserted(levels, sub, approvers)
  {
    var n := |levels| - 1;
    if n >= 0 {
      SealingThrows(levels[..n], sub, approvers);
      SealLevelThrows(levels[n], n, sub, approvers);
      DesertedSplit(levels[..n], levels[n], sub, approvers);
      assert levels == levels[..n] + [levels[n]];
    }
  }

  /** A sealed route that a request can be walked along. */
  ghost predicate Sound(route: seq<Sealed>, sub: Submission) {
    && |route| >= 1
    && (forall i :: 0 <= i < |route| ==> SealedHolds(route[i], sub))
    && route[|route| - 1].action == Approve && route[|route| - 1].engaged && !route[|route| - 1].auto
    && route[|route| - 1].required
  }

  ghost predicate SealedHolds(l: Sealed, sub: Submission) {
    && (l.engaged && !l.auto ==> l.approverCodes != [])
    && "" !in l.approverCodes
    && (!l.allowSelf ==> sub.initiator !in l.approverCodes && sub.subject !in l.approverCodes)
    && (l.allowSelf ==> l.action == Verify)
  }

  lemma {:induction false} SealLevelHolds(l: Level, i: nat, people: seq<Code>, sub: Submission)
    requires SealLevel(l, i, people, sub).Ok? && (l.allowSelf ==> l.action == Verify) && "" !in people
    ensures SealedHolds(SealLevel(l, i, people, sub).value, sub)
  {
    var eligible := Eligible(l, people, sub);
    assert "" !in eligible && (!l.allowSelf ==> sub.initiator !in eligible && sub.subject !in eligible);
  }

  /**
   A validated route fails to seal only because a required level is deserted; the final guard of the source
   never fires, and what is sealed ends in an engaged decision that nobody has taken yet.
   */
  lemma {:induction false} FinalGuardIsUnreachable(levels: seq<Level>, sub: Submission, approvers: Level -> seq<Code>)
    requires RouteHolds(sub.kind, levels)
    ensures BuildRoute(levels, sub, approvers) == SealAll(levels, sub, approvers)
    ensures BuildRoute(levels, sub, approvers).Thrown? <==> SomeDeserted(levels, sub, approvers)
    ensures BuildRoute(levels, sub, approvers).Ok? ==> Sound(BuildRoute(levels, sub, approvers).value, sub)
  {
    SealingThrows(levels, sub, approvers);
    var r := SealAll(levels, sub, approvers);
    if r.Ok? {
      forall i | 0 <= i < |levels| ensures SealedHolds(r.value[i], sub) {
        SealedAt(levels, sub, approvers, i);
        assert LevelHolds(sub.kind, levels[i], i == |levels| - 1);
        SealLevelHolds(levels[i], i, Assigned(approvers, levels[i]), sub);
      }
      SealedAt(levels, sub, approvers, |levels| - 1);
      assert LevelHolds(sub.kind, levels[|levels| - 1], true);
    }
  }

  // ---------------------------------------------------------------- who acts next

  datatype Turn = Nobody | Raised | Found(index: nat, codes: seq<Code>)

  predicate Open(l: Sealed) { l.engaged && !l.auto }

  function NextActionable(route: seq<Sealed>, from: nat, acted: seq<Code>): (r: Turn)
    ensures r.Found? ==> from <= r.index < |route|
    decreases |route| - from
  {
    if from >= |route| then Nobody
    else
      var l := route[from];
      if !Open(l) then NextActionable(route, from + 1, acted)
      else if Without(l.approverCodes, acted) != [] then Found(from, Without(l.approverCodes, acted))
      else if l.required then Raised
      else NextActionable(route, from + 1, acted)
  }

  method FindNext(route: seq<Sealed>, from: nat, acted: seq<Code>) returns (r: Turn)
    ensures r == NextActionable(route, from, acted)
  {
    var i := from;
    while i < |route|
      invariant NextActionable(route, from, acted) == NextActionable(route, i, acted)
    {
      var l := route[i];
      if !l.engaged || l.auto {
        i := i + 1;
        continue;
      }
      var eligible := Without(l.approverCodes, acted);
      if eligible != [] { return Found(i, eligible); }
      if l.required { return Raised; }
      i := i + 1;
    }
    r := Nobody;
  }

  function PreviousActionable(route: seq<Sealed>, from: nat): (r: Option<nat>)
    requires from <= |route|
    ensures r.Some? ==> r.value < from && Open(route[r.value])
    ensures forall k :: (if r.Some? then r.value + 1 else 0) <= k < from ==> !Open(route[k])
  {
    if from == 0 then None
    else if Open(route[from - 1]) then Some(from - 1)
    else PreviousActionable(route, from - 1)
  }

  method FindPrevious(route: seq<Sealed>, from: nat) returns (r: Option<nat>)
    requires from <= |route|
    ensures r == PreviousActionable(route, from)
  {
    var i := from - 1;
    while i >= 0
      invariant -1 <= i < from
      invariant PreviousActionable(route, from) == PreviousActionable(route, i + 1)
    {
      if route[i].engaged && !route[i].auto { return Some(i); }
      i := i - 1;
    }
    r := None;
  }

  /** Why a level was passed over. */
  predicate Passed(l: Sealed, acted: seq<Code>) {
    Open(l) ==> !l.required && Without(l.approverCodes, acted) == []
  }

  /** The answer is the first level that cannot be passed over. */
  lemma {:induction false} NextIsFirst(route: seq<Sealed>, from: nat, acted: seq<Code>)
    ensures var r := NextActionable(route, from, acted);
            && (r.Found? ==> from <= r.index < |route| && Open(route[r.index]) && r.codes != []
                             && r.codes == Without(route[r.index].approverCodes, acted)
                             && forall k :: from <= k < r.index ==> Passed(route[k], acted))
            && (r.Nobody? ==> forall k :: from <= k < |route| ==> Passed(route[k], acted))
            && (r.Raised? ==> exists k :: from <= k < |route| && Open(route[k]) && route[k].required
                                          && Without(route[k].approverCodes, acted) == [])
    decreases |route| - from
  {
    if from < |route| {
      NextIsFirst(route, from + 1, acted);
    }
  }

  lemma {:induction false} PreviousIs(route: seq<Sealed>, at: nat, from: nat)
    requires at < from <= |route| && Open(route[at])
    requires forall k :: at < k < from ==> !Open(route[k])
    ensures PreviousActionable(route, from) == Some(at)
  {
    if at < from - 1 {
      PreviousIs(route, at, from - 1);
    }
  }

  lemma {:induction false} NextIs(route: seq<Sealed>, from: nat, at: nat)
    requires from <= at < |route| && Open(route[at]) && Without(route[at].approverCodes, []) != []
    requires forall k :: from <= k < at ==> !Open(route[k])
    ensures NextActionable(route, from, []) == Found(at, Without(route[at].approverCodes, []))
    decreases at - from
  {
    if from < at {
      NextIs(route, from + 1, at);
    }
  }

  lemma {:induction false} OpenHasPeople(route: seq<Sealed>, sub: Submission, k: nat)
    requires Sound(route, sub) && k < |route| && Open(route[k])
    ensures Without(route[k].approverCodes, []) != []
  {
    assert SealedHolds(route[k], sub);
    assert route[k].approverCodes[0] in Without(route[k].approverCodes, []);
  }

  /** With nobody acted yet, going back from the next level leads to where one came from. */
  lemma {:induction false} PreviousUndoesNext(route: seq<Sealed>, sub: Submission, at: nat)
    requires Sound(route, sub) && at < |route| && Open(route[at])
    ensures var r := NextActionable(route, at + 1, []);
            && !r.Raised?
            && (r.Found? ==> PreviousActionable(route, r.index) == Some(at))
            && (r.Nobody? <==> at == |route| - 1)
  {
    NobodyActed(route, sub, at + 1);
    var r := NextActionable(route, at + 1, []);
    if r.Found? {
      PreviousIs(route, at, r.index);
    }
  }

  /** And going forward from the previous level leads back. */
  lemma {:induction false} NextUndoesPrevious(route: seq<Sealed>, sub: Submission, at: nat)
    requires Sound(route, sub) && at < |route| && Open(route[at])
    ensures var p := PreviousActionable(route, at);
            NextActionable(route, if p.Some? then p.value + 1 else 0, [])
              == Found(at, Without(route[at].approverCodes, []))
  {
    var p := PreviousActionable(route, at);
    OpenHasPeople(route, sub, at);
    NextIs(route, if p.Some? then p.value + 1 else 0, at);
  }

  /** With nobody acted yet every open level has somebody to act. */
  lemma {:induction false} NobodyActed(route: seq<Sealed>, sub: Submission, from: nat)
    requires Sound(route, sub) && from <= |route|
    ensures var r := NextActionable(route, from, []);
            && !r.Raised? && (r.Nobody? ==> from == |route|)
            && (r.Found? ==> from <= r.index < |route| && Open(route[r.index])
                             && r.codes == Without(route[r.index].approverCodes, [])
                             && forall k :: from <= k < r.index ==> !Open(route[k]))
  {
    NextIsFirst(route, from, []);
    forall k | 0 <= k < |route| && Open(route[k]) ensures Without(route[k].approverCodes, []) != [] {
      OpenHasPeople(route, sub, k);
    }
  }

  // ---------------------------------------------------------------- whole walks

  /** Somebody acted on a level. */
  datatype Visit = Visit(index: nat, actor: Code)

  function Actors(walk: seq<Visit>): seq<Code> {
    if |walk| == 0 then [] else Actors(walk[..|walk| - 1]) + [walk[|walk| - 1].actor]
  }

  function After(walk: seq<Visit>): nat {
    if |walk| == 0 then 0 else walk[|walk| - 1].index + 1
  }

  /** Each actor is one of those whose turn it was, given everybody who acted before. */
  ghost predicate IsWalk(route: seq<Sealed>, walk: seq<Visit>) {
    |walk| == 0 || (
      var front, v := walk[..|walk| - 1], walk[|walk| - 1];
      var turn := NextActionable(route, After(front), Actors(front));
      IsWalk(route, front) && turn.Found? && turn.index == v.index && v.actor in turn.codes)
  }

  lemma {:induction false} ActorAt(walk: seq<Visit>, i: nat)
    requires i < |walk|
    ensures |Actors(walk)| == |walk| && Actors(walk)[i] == walk[i].actor
  {
    if |walk| > 1 {
      ActorAt(walk[..|walk| - 1], if i < |walk| - 1 then i else 0);
    }
  }

  ghost predicate Visited(walk: seq<Visit>, k: nat) {
    exists i :: 0 <= i < |walk| && walk[i].index == k
  }

  /** Levels behind the walk were visited, were not open, or were optional with all their people spent. */
  ghost predicate Covered(route: seq<Sealed>, walk: seq<Visit>) {
    forall k :: 0 <= k < After(walk) && k < |route| ==> Visited(walk, k) || Passed(route[k], Actors(walk))
  }

  lemma {:induction false} PassedLater(l: Sealed, acted: seq<Code>, more: Code)
    requires Passed(l, acted)
    ensures Passed(l, acted + [more])
  {
    if Open(l) {
      var late := Without(l.approverCodes, acted + [more]);
      if late != [] {
        SomeMember(late);
      }
    }
  }

  lemma {:induction false} SomeMember(s: seq<Code>)
    requires s != []
    ensures exists c :: c in s
  {
    assert s[0] in s;
  }

  ghost predicate VisitHolds(route: seq<Sealed>, v: Visit) {
    v.index < |route| && Open(route[v.index]) && v.actor in route[v.index].approverCodes
  }

  /** A walk visits open levels in strictly rising order, each by somebody assigned to it who had not acted. */
  lemma {:induction false} WalkRises(route: seq<Sealed>, walk: seq<Visit>)
    requires IsWalk(route, walk)
    ensures After(walk) <= |route|
    ensures forall i, j :: 0 <= i < j < |walk| ==> walk[i].index < walk[j].index && walk[i].actor != walk[j].actor
    ensures forall i :: 0 <= i < |walk| ==> VisitHolds(route, walk[i])
  {
    if |walk| > 0 {
      var n := |walk| - 1;
      var front := walk[..n];
      WalkRises(route, front);
      NextIsFirst(route, After(front), Actors(front));
      NewVisitRises(front, walk[n]);
      assert walk == front + [walk[n]];
    }
  }

  lemma {:induction false} NewVisitRises(front: seq<Visit>, v: Visit)
    requires forall i, j :: 0 <= i < j < |front| ==> front[i].index < front[j].index && front[i].actor != front[j].actor
    requires After(front) <= v.index && v.actor !in Actors(front)
    ensures forall i :: 0 <= i < |front| ==> front[i].index < v.index && front[i].actor != v.actor
  {
    forall i | 0 <= i < |front| ensures front[i].index < v.index && front[i].actor != v.actor {
      ActorAt(front, i);
      assert Actors(front)[i] in Actors(front);
      if i < |front| - 1 {
        assert front[i].index < front[|front| - 1].index;
      }
    }
  }

  lemma {:induction false} WalkCovers(route: seq<Sealed>, walk: seq<Visit>)
    requires IsWalk(route, walk)
    ensures Covered(route, walk)
  {
    if |walk| > 0 {
      var n := |walk| - 1;
      var front := walk[..n];
      WalkCovers(route, front);
      NextIsFirst(route, After(front), Actors(front));
      forall k | 0 <= k < After(walk) && k < |route| ensures Visited(walk, k) || Passed(route[k], Actors(walk)) {
        if k == walk[n].index {
          assert Visited(walk, k);
        } else if k < After(front) && Visited(front, k) {
          var i :| 0 <= i < |front| && front[i].index == k;
          assert walk[i].index == k;
        } else {
          PassedLater(route[k], Actors(front), walk[n].actor);
        }
      }
    }
  }

  /** A walk never runs out before the decision: it stops there, has a next level, or raises. */
  lemma {:induction false} WalkEndsAtDecision(route: seq<Sealed>, sub: Submission, walk: seq<Visit>)
    requires Sound(route, sub) && IsWalk(route, walk)
    ensures NextActionable(route, After(walk), Actors(walk)).Nobody? <==> After(walk) == |route|
    ensures After(walk) == |route| <==> Visited(walk, |route| - 1)
  {
    WalkRises(route, walk);
    NextIsFirst(route, After(walk), Actors(walk));
    if Visited(walk, |route| - 1) {
      var i :| 0 <= i < |walk| && walk[i].index == |route| - 1;
    }
    if After(walk) == |route| {
      assert walk[|walk| - 1].index == |route| - 1;
    }
  }

  /**
   Separation of duties: whoever decides is neither the initiator nor the subject, has not acted before on the
   request, and every required open level was acted on first.
   */
  lemma {:induction false} DeciderIsIndependent(route: seq<Sealed>, sub: Submission, walk: seq<Visit>)
    requires Sound(route, sub) && IsWalk(route, walk) && After(walk) == |route|
    ensures |walk| > 0
    ensures var decider := walk[|walk| - 1].actor;
            && route[walk[|walk| - 1].index].action == Approve
            && decider != sub.initiator && decider != sub.subject && decider != ""
            && forall i :: 0 <= i < |walk| - 1 ==> walk[i].actor != decider
    ensures forall k :: 0 <= k < |route| && Open(route[k]) && route[k].required ==> Visited(walk, k)
  {
    WalkRises(route, walk);
    WalkCovers(route, walk);
    assert SealedHolds(route[|route| - 1], sub);
  }

  /** From the published matrix to the decision. */
  lemma {:induction false} MatrixSeparatesDuties(levels: seq<Level>, sub: Submission, approvers: Level -> seq<Code>,
                                                 walk: seq<Visit>)
    requires RouteHolds(sub.kind, levels) && BuildRoute(levels, sub, approvers).Ok?
    requires IsWalk(BuildRoute(levels, sub, approvers).value, walk) && After(walk) == |levels|
    ensures |walk| > 0
    ensures var decider := walk[|walk| - 1].actor;
            && decider != sub.initiator && decider != sub.subject
            && decider in Assigned(approvers, levels[|levels| - 1])
            && forall i :: 0 <= i < |walk| - 1 ==> walk[i].actor != decider
  {
    FinalGuardIsUnreachable(levels, sub, approvers);
    var route := BuildRoute(levels, sub, approvers).value;
    DeciderIsIndependent(route, sub, walk);
    WalkRises(route, walk);
    SealedAt(levels, sub, approvers, |levels| - 1);
    assert walk[|walk| - 1].index == |levels| - 1;
  }
}
