/**
 Which routes are accepted, what a sealed level says of its level, and whose turn it is, written out
 (src/lib/approvalMatrix.js, 18-50, 65-150 and 152-173).
 */
module RouteMeaning {
  import opened Options
  import opened Trimming
  import opened Subsequences
  import opened Approval

  // ---------------------------------------------------------------- accepting a route

  /** Sizes and amounts. */
  ghost predicate InRange(l: Level) {
    && 1 <= |Trim(l.name, JsBlank)| <= 60 && |l.approverIds| <= 20 && (forall n :: n in l.approverIds ==> n > 0)
    && (l.threshold.Some? ==> l.threshold.value >= 0)
  }

  /** The last level decides, and only the last; it is required, not paused, and can turn a request down. */
  ghost predicate Decides(l: Level, last: bool) {
    && (l.action == Approve <==> last)
    && (last ==> l.required && !l.paused && !l.satisfiedByInitiator && (l.canReject || l.canReturn))
  }

  /** Named approvers are there unless the level is paused, and a manager's level names none. */
  ghost predicate HasApprovers(l: Level) {
    match l.mode
    case Named => |l.approverIds| > 0 || l.paused
    case EmployeeManager => |l.approverIds| == 0
  }

  ghost predicate AdmitsSelf(l: Level) { l.action == Verify && l.mode == Named }

  ghost predicate Accepts(kind: Kind, raw: seq<Level>) {
    && kind != OtherKind && 1 <= |raw| <= 8
    && forall i :: 0 <= i < |raw| ==> AcceptsLevel(kind, raw[i], i == |raw| - 1)
  }

  ghost predicate AcceptsLevel(kind: Kind, l: Level, last: bool) {
    InRange(l) && Conditions(kind, l, last)
  }

  /** What is asked of a level besides sizes and amounts. */
  ghost predicate Conditions(kind: Kind, l: Level, last: bool) {
    && Decides(l, last) && HasApprovers(l)
    && (l.allowSelf ==> AdmitsSelf(l))
    && (l.threshold.Some? ==> kind == Payroll && !l.required)
  }

  /** x comes up before y does. */
  ghost predicate SeenBefore<T(!new)>(s: seq<T>, x: T, y: T) {
    exists a :: 0 <= a < |s| && s[a] == x && forall b :: 0 <= b <= a ==> s[b] != y
  }

  ghost predicate InOrderOf<T(!new)>(r: seq<T>, s: seq<T>) {
    forall i, j :: 0 <= i < j < |r| ==> SeenBefore(s, r[i], r[j])
  }

  /** The level with its name trimmed and each approver once, in the order of first mention. */
  ghost predicate Tidied(l: Level, raw: Level) {
    && l == raw.(name := l.name, approverIds := l.approverIds) && l.name == Trim(raw.name, JsBlank)
    && (forall n :: n in l.approverIds <==> n in raw.approverIds) && InOrderOf(l.approverIds, raw.approverIds)
  }

  lemma {:induction false} SeenLater<T(!new)>(s: seq<T>, x: T, y: T, z: T)
    requires SeenBefore(s, x, y)
    ensures SeenBefore(s + [z], x, y)
  {
    var a :| 0 <= a < |s| && s[a] == x && forall b :: 0 <= b <= a ==> s[b] != y;
    assert (s + [z])[a] == x;
  }

  lemma {:induction false} SeenLast<T(!new)>(s: seq<T>, x: T, z: T)
    requires x in s && z !in s
    ensures SeenBefore(s + [z], x, z)
  {
    var a :| 0 <= a < |s| && s[a] == x;
    assert (s + [z])[a] == x;
  }

  lemma {:induction false} UniqueOrder<T(!new)>(s: seq<T>)
    ensures InOrderOf(Unique(s), s)
  {
    if |s| > 0 {
      var front, z := s[..|s| - 1], s[|s| - 1];
      assert s == front + [z];
      UniqueOrder(front);
      var r := Unique(s);
      forall i, j | 0 <= i < j < |r| ensures SeenBefore(s, r[i], r[j]) {
        if z !in Unique(front) && j == |r| - 1 {
          assert r[i] in Unique(front);
          SeenLast(front, r[i], z);
        } else {
          SeenLater(front, r[i], r[j], z);
        }
      }
    }
  }

  lemma {:induction false} Accepted(kind: Kind, raw: seq<Level>)
    ensures kind != OtherKind && SchemaHolds(raw) && RouteHolds(kind, Normalised(raw)) <==> Accepts(kind, raw)
    ensures forall i :: 0 <= i < |raw| ==> Tidied(Normalised(raw)[i], raw[i])
  {
    var levels := Normalised(raw);
    forall i | 0 <= i < |raw|
      ensures LevelShape(raw[i]) && LevelHolds(kind, levels[i], i == |levels| - 1)
              <==> AcceptsLevel(kind, raw[i], i == |raw| - 1)
      ensures Tidied(levels[i], raw[i])
    {
      SameEmptiness(raw[i].approverIds);
      ShapeIs(raw[i]);
      LevelAccepted(kind, raw[i], levels[i], i == |raw| - 1);
      UniqueOrder(raw[i].approverIds);
    }
  }

  lemma {:induction false} SameEmptiness(ids: seq<int>)
    ensures Unique(ids) == [] <==> ids == []
  {
    if ids != [] { assert ids[0] in Unique(ids); }
    if Unique(ids) != [] { assert Unique(ids)[0] in ids; }
  }

  lemma {:induction false} LevelAccepted(kind: Kind, raw: Level, l: Level, last: bool)
    requires l == raw.(name := l.name, approverIds := l.approverIds) && (l.approverIds == [] <==> raw.approverIds == [])
    requires LevelShape(raw) <==> InRange(raw)
    ensures LevelShape(raw) && LevelHolds(kind, l, last) <==> AcceptsLevel(kind, raw, last)
  {
    assert LevelHolds(kind, l, last) <==> Conditions(kind, raw, last);
  }

  lemma {:induction false} ShapeIs(raw: Level)
    ensures LevelShape(raw) <==> InRange(raw)
  {
    AllPositive(raw.approverIds);
  }

  lemma {:induction false} AllPositive(ids: seq<int>)
    ensures (forall i :: 0 <= i < |ids| ==> ids[i] > 0) <==> forall n :: n in ids ==> n > 0
  {
    assert forall i :: 0 <= i < |ids| ==> ids[i] in ids;
  }

  // ---------------------------------------------------------------- sealing a level

  /** Somebody who may act: the initiator and the subject only where the level admits them. */
  ghost predicate MayAct(l: Level, sub: Submission, c: Code) {
    c != "" && (l.allowSelf || (c != sub.initiator && c != sub.subject))
  }

  /** The amount stays below the threshold. */
  ghost predicate Small(l: Level, sub: Submission) { l.threshold.Some? && sub.amount < l.threshold.value }

  /** Raising the request was the level's action. */
  ghost predicate Raises(l: Level, sub: Submission, people: seq<Code>) {
    && l.action != Approve && sub.initiator != "" && sub.initiator in people
    && (l.satisfiedByInitiator || (l.allowSelf && sub.initiator == sub.subject))
    && (sub.kind == Payroll || l.allowSelf || sub.initiator != sub.subject)
  }

  /** Nobody can act on the level, which neither a pause, a small amount nor the initiator excuses. */
  ghost predicate Empty(l: Level, sub: Submission, people: seq<Code>) {
    && !l.paused && !Small(l, sub) && !Raises(l, sub, people)
    && forall c :: c in people ==> !MayAct(l, sub, c)
  }

  /** The people of a sealed level: those who may act, once each, in the order in which they were named. */
  ghost predicate PeopleAre(codes: seq<Code>, l: Level, sub: Submission, people: seq<Code>) {
    && (forall c :: c in codes <==> c in people && MayAct(l, sub, c))
    && InOrderOf(codes, people)
  }

  ghost predicate SealedAs(s: Sealed, l: Level, i: nat, sub: Submission, people: seq<Code>) {
    && s.index == i && s.name == l.name && s.action == l.action && s.required == l.required
    && s.canReject == l.canReject && s.canReturn == l.canReturn && (s.viaManager <==> l.mode == EmployeeManager)
    && (s.allowSelf <==> l.allowSelf && !l.paused)
    && (if l.paused then s.approverCodes == [] else PeopleAre(s.approverCodes, l, sub, people))
    && (s.skipped == Paused <==> l.paused)
    && (s.skipped == BelowThreshold <==> !l.paused && Small(l, sub))
    && (s.skipped == NoApprover <==> Empty(l, sub, people))
    && (s.engaged <==> s.skipped == NotSkipped)
    && (s.auto <==> !l.paused && !Small(l, sub) && Raises(l, sub, people))
  }

  lemma {:induction false} WithoutOrder(s: seq<Code>, gone: seq<Code>, x: Code, y: Code)
    requires SeenBefore(Without(s, gone), x, y) && y !in gone
    ensures SeenBefore(s, x, y)
  {
    var front, z := s[..|s| - 1], s[|s| - 1];
    var r := Without(front, gone);
    assert s == front + [z];
    var t := Without(s, gone);
    var a :| 0 <= a < |t| && t[a] == x && forall b :: 0 <= b <= a ==> t[b] != y;
    if a < |r| {
      assert r[a] == x && forall b :: 0 <= b <= a ==> r[b] != y by {
        assert forall b :: 0 <= b <= a ==> r[b] == t[b];
      }
      WithoutOrder(front, gone, x, y);
      SeenLater(front, x, y, z);
    } else {
      assert y !in r && x == z && z != y by {
        assert forall b :: 0 <= b < |r| ==> r[b] == t[b];
      }
      assert s[|s| - 1] == x;
      assert y !in front;
    }
  }

  lemma {:induction false} StillInOrder(r: seq<Code>, gone: seq<Code>, s: seq<Code>)
    requires InOrderOf(r, s)
    ensures InOrderOf(Without(r, gone), s)
  {
    if |r| > 0 {
      var front, z := r[..|r| - 1], r[|r| - 1];
      assert r == front + [z];
      StillInOrder(front, gone, s);
      var t := Without(r, gone);
      forall i, j | 0 <= i < j < |t| ensures SeenBefore(s, t[i], t[j]) {
        if j == |Without(front, gone)| {
          assert t[i] in Without(front, gone);
          var a :| 0 <= a < |front| && front[a] == t[i];
          assert SeenBefore(s, r[a], r[|r| - 1]);
        }
      }
    }
  }

  lemma {:induction false} AssignedOrder(people: seq<Code>)
    ensures InOrderOf(Unique(Without(people, [""])), people)
  {
    var named := Without(people, [""]);
    UniqueOrder(named);
    var r := Unique(named);
    forall i, j | 0 <= i < j < |r| ensures SeenBefore(people, r[i], r[j]) {
      assert r[j] in named;
      WithoutOrder(people, [""], r[i], r[j]);
    }
  }

  lemma {:induction false} EligibleAre(l: Level, sub: Submission, approvers: Level -> seq<Code>)
    ensures PeopleAre(Approval.Eligible(l, Assigned(approvers, l), sub), l, sub, approvers(l))
  {
    AssignedOrder(approvers(l));
    StillInOrder(Assigned(approvers, l), [sub.initiator, sub.subject], approvers(l));
  }

  lemma {:induction false} EmptyIs(l: Level, sub: Submission, approvers: Level -> seq<Code>)
    ensures var people := Assigned(approvers, l);
            Empty(l, sub, approvers(l)) <==>
            !l.paused && !Below(l, sub) && !DoneByInitiator(l, people, sub) && Approval.Eligible(l, people, sub) == []
  {
    EligibleAre(l, sub, approvers);
    var eligible := Approval.Eligible(l, Assigned(approvers, l), sub);
    if eligible != [] {
      assert eligible[0] in eligible;
    }
  }

  lemma {:induction false} LevelIsSealed(l: Level, i: nat, sub: Submission, approvers: Level -> seq<Code>)
    ensures var r := SealLevel(l, i, Assigned(approvers, l), sub);
            && (r.Thrown? <==> l.required && Empty(l, sub, approvers(l)))
            && (r.Ok? ==> SealedAs(r.value, l, i, sub, approvers(l)))
  {
    EligibleAre(l, sub, approvers);
    EmptyIs(l, sub, approvers);
  }

  /** A published route is sealed level by level, and throws exactly if a required level is empty. */
  lemma {:induction false} RouteIsSealed(levels: seq<Level>, sub: Submission, approvers: Level -> seq<Code>)
    requires Accepts(sub.kind, levels)
    ensures var r := BuildRoute(levels, sub, approvers);
            && (r.Thrown? <==>
                exists i :: 0 <= i < |levels| && levels[i].required && Empty(levels[i], sub, approvers(levels[i])))
            && (r.Ok? ==> |r.value| == |levels| && forall i :: 0 <= i < |levels| ==>
                  SealedAs(r.value[i], levels[i], i, sub, approvers(levels[i])))
  {
    forall i | 0 <= i < |levels| ensures LevelHolds(sub.kind, levels[i], i == |levels| - 1) {
      assert AcceptsLevel(sub.kind, levels[i], i == |levels| - 1);
    }
    FinalGuardIsUnreachable(levels, sub, approvers);
    var r := SealAll(levels, sub, approvers);
    forall i | 0 <= i < |levels|
      ensures Deserted(levels[i], sub, approvers) <==> levels[i].required && Empty(levels[i], sub, approvers(levels[i]))
    {
      EmptyIs(levels[i], sub, approvers);
    }
    if r.Ok? {
      forall i | 0 <= i < |levels| ensures SealedAs(r.value[i], levels[i], i, sub, approvers(levels[i])) {
        SealedAt(levels, sub, approvers, i);
        LevelIsSealed(levels[i], i, sub, approvers);
      }
    }
  }

  // ---------------------------------------------------------------- whose turn it is

  /** Somebody of the level is still to act. */
  ghost predicate Waits(l: Sealed, acted: seq<Code>) {
    l.engaged && !l.auto && exists c :: c in l.approverCodes && c !in acted
  }

  /** Everybody has acted already, and the level cannot be passed over. */
  ghost predicate Stuck(l: Sealed, acted: seq<Code>) {
    l.engaged && !l.auto && l.required && forall c :: c in l.approverCodes ==> c in acted
  }

  ghost predicate NoneBefore(route: seq<Sealed>, from: nat, to: nat, acted: seq<Code>) {
    to <= |route| && forall k :: from <= k < to ==> !Waits(route[k], acted) && !Stuck(route[k], acted)
  }

  /** Those still to act, in their order. */
  ghost predicate StillToAct(codes: seq<Code>, places: seq<nat>, all: seq<Code>, acted: seq<Code>) {
    Sifted(codes, places, all, c => c !in acted)
  }

  lemma {:induction false} WithoutIs(all: seq<Code>, acted: seq<Code>) returns (places: seq<nat>)
    ensures StillToAct(Without(all, acted), places, all, acted)
  {
    places := [];
    if |all| > 0 {
      var n := |all| - 1;
      places := WithoutIs(all[..n], acted);
      assert all == all[..n] + [all[n]];
      SiftedNext(Without(all[..n], acted), places, all[..n], all[n], c => c !in acted);
      if all[n] !in acted {
        places := places + [n];
      }
    }
  }

  ghost predicate FirstStuck(route: seq<Sealed>, from: nat, acted: seq<Code>) {
    exists i :: from <= i < |route| && Stuck(route[i], acted) && NoneBefore(route, from, i, acted)
  }

  ghost predicate FirstWaits(route: seq<Sealed>, from: nat, acted: seq<Code>, i: nat, codes: seq<Code>,
                             places: seq<nat>) {
    && from <= i < |route| && Waits(route[i], acted) && NoneBefore(route, from, i, acted)
    && StillToAct(codes, places, route[i].approverCodes, acted)
  }

  lemma {:induction false} PassOver(route: seq<Sealed>, from: nat, to: nat, acted: seq<Code>)
    requires from < |route| && !Waits(route[from], acted) && !Stuck(route[from], acted)
    requires NoneBefore(route, from + 1, to, acted)
    ensures NoneBefore(route, from, to, acted)
  {
  }

  /** The first level that waits, or is stuck. */
  lemma {:induction false} TurnIs(route: seq<Sealed>, from: nat, acted: seq<Code>) returns (places: seq<nat>)
    ensures match NextActionable(route, from, acted)
            case Found(i, codes) => FirstWaits(route, from, acted, i, codes, places)
            case Raised => FirstStuck(route, from, acted)
            case Nobody => NoneBefore(route, from, |route|, acted) || from >= |route|
    decreases |route| - from
  {
    places := [];
    if from < |route| {
      var l := route[from];
      WaitsIs(l, acted);
      assert NoneBefore(route, from, from, acted);
      if Waits(l, acted) {
        places := WithoutIs(l.approverCodes, acted);
      } else if !Stuck(l, acted) {
        places := TurnIs(route, from + 1, acted);
        LaterTurn(route, from, acted, NextActionable(route, from, acted), places);
      }
    }
  }

  lemma {:induction false} LaterTurn(route: seq<Sealed>, from: nat, acted: seq<Code>, turn: Turn, places: seq<nat>)
    requires from < |route| && !Waits(route[from], acted) && !Stuck(route[from], acted)
    requires turn.Found? ==> FirstWaits(route, from + 1, acted, turn.index, turn.codes, places)
    requires turn.Raised? ==> FirstStuck(route, from + 1, acted)
    ensures turn.Found? ==> FirstWaits(route, from, acted, turn.index, turn.codes, places)
    ensures turn.Raised? ==> FirstStuck(route, from, acted)
    ensures NoneBefore(route, from + 1, |route|, acted) ==> NoneBefore(route, from, |route|, acted)
  {
    if turn.Found? {
      PassOver(route, from, turn.index, acted);
    } else if turn.Raised? {
      var i :| from + 1 <= i < |route| && Stuck(route[i], acted) && NoneBefore(route, from + 1, i, acted);
      PassOver(route, from, i, acted);
    }
  }

  lemma {:induction false} WaitsIs(l: Sealed, acted: seq<Code>)
    ensures Waits(l, acted) <==> l.engaged && !l.auto && Without(l.approverCodes, acted) != []
    ensures Stuck(l, acted) <==> l.engaged && !l.auto && l.required && Without(l.approverCodes, acted) == []
  {
    var left := Without(l.approverCodes, acted);
    if left != [] {
      assert left[0] in left;
    }
  }

  /** The last level before it on which somebody acts. */
  lemma {:induction false} PreviousTurnIs(route: seq<Sealed>, from: nat)
    requires from <= |route|
    ensures match PreviousActionable(route, from)
            case Some(i) => i < from && route[i].engaged && !route[i].auto
                            && forall k :: i < k < from ==> !route[k].engaged || route[k].auto
            case None => forall k :: 0 <= k < from ==> !route[k].engaged || route[k].auto
  {
  }
}
