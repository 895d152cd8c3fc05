/** Parts of a list in its order: what passes a test, and what does not repeat the last one kept. */
module Subsequences {

  ghost predicate Rises(places: seq<nat>) {
    forall i, j :: 0 <= i < j < |places| ==> places[i] < places[j]
  }

  /** Those that pass the test, in their order. */
  ghost predicate Sifted<T(!new)>(r: seq<T>, places: seq<nat>, s: seq<T>, keep: T -> bool) {
    && |places| == |r| && Rises(places)
    && (forall k :: 0 <= k < |r| ==> places[k] < |s| && r[k] == s[places[k]])
    && (forall i: nat :: i in places <==> i < |s| && keep(s[i]))
  }

  lemma {:induction false} SiftedNext<T(!new)>(r: seq<T>, places: seq<nat>, front: seq<T>, x: T, keep: T -> bool)
    requires Sifted(r, places, front, keep)
    ensures keep(x) ==> Sifted(r + [x], places + [|front|], front + [x], keep)
    ensures !keep(x) ==> Sifted(r, places, front + [x], keep)
  {
    var s, more := front + [x], places + [|front|];
    assert forall k :: 0 <= k < |places| ==> places[k] in places;
    forall i: nat ensures i in more <==> i in places || i == |front| {
      if i == |front| { assert more[|places|] == i; }
    }
    forall i: nat ensures i in places <==> i < |front| && keep(s[i]) {
      assert i < |front| ==> s[i] == front[i];
    }
  }

  /** One answer for each that passes the test, in their order. */
  ghost predicate Answered<S(!new), T(!new)>(r: seq<S>, places: seq<nat>, s: seq<T>, keep: T -> bool,
                                             answers: (S, T) -> bool) {
    && |places| == |r| && Rises(places)
    && (forall k :: 0 <= k < |r| ==> places[k] < |s| && answers(r[k], s[places[k]]))
    && (forall i: nat :: i in places <==> i < |s| && keep(s[i]))
  }

  lemma {:induction false} AnsweredNext<S(!new), T(!new)>(r: seq<S>, places: seq<nat>, front: seq<T>, x: T, y: S,
                                                          keep: T -> bool, answers: (S, T) -> bool)
    requires Answered(r, places, front, keep, answers)
    ensures keep(x) && answers(y, x) ==> Answered(r + [y], places + [|front|], front + [x], keep, answers)
    ensures !keep(x) ==> Answered(r, places, front + [x], keep, answers)
  {
    var s, more := front + [x], places + [|front|];
    assert forall k :: 0 <= k < |places| ==> places[k] in places;
    forall i: nat ensures i in more <==> i in places || i == |front| {
      if i == |front| { assert more[|places|] == i; }
    }
    forall i: nat ensures i in places <==> i < |front| && keep(s[i]) {
      assert i < |front| ==> s[i] == front[i];
    }
  }

  /** The one at i repeats the last one that was kept before it. */
  ghost predicate Dropped<T(!new)>(s: seq<T>, places: seq<nat>, i: nat, same: (T, T) -> bool)
    requires i < |s|
  {
    exists k :: 0 <= k < |places| && places[k] < i && places[k] < |s| && same(s[places[k]], s[i])
                && forall m :: k < m < |places| ==> places[m] > i
  }

  /** What is kept: none repeats the one kept before it, and every other does. */
  ghost predicate Kept<T(!new)>(kept: seq<T>, places: seq<nat>, s: seq<T>, same: (T, T) -> bool) {
    && |places| == |kept| && Rises(places)
    && (forall k :: 0 <= k < |kept| ==> places[k] < |s| && kept[k] == s[places[k]])
    && (forall k :: 0 < k < |kept| ==> !same(kept[k - 1], kept[k]))
    && (forall i: nat :: i < |s| && i !in places ==> Dropped(s, places, i, same))
  }

  lemma {:induction false} StillDropped<T(!new)>(s: seq<T>, places: seq<nat>, more: seq<nat>, x: T, i: nat,
                                                 same: (T, T) -> bool)
    requires i < |s| && Dropped(s, places, i, same)
    requires more == places || more == places + [|s|]
    ensures Dropped(s + [x], more, i, same)
  {
    var k :| 0 <= k < |places| && places[k] < i && places[k] < |s| && same(s[places[k]], s[i])
             && forall m :: k < m < |places| ==> places[m] > i;
    assert more[k] == places[k] && (s + [x])[places[k]] == s[places[k]] && (s + [x])[i] == s[i];
  }

  lemma {:induction false} KeptSkip<T(!new)>(kept: seq<T>, places: seq<nat>, front: seq<T>, x: T, same: (T, T) -> bool)
    requires Kept(kept, places, front, same) && |kept| > 0 && same(kept[|kept| - 1], x)
    ensures Kept(kept, places, front + [x], same)
  {
    var s := front + [x];
    forall i: nat | i < |s| && i !in places ensures Dropped(s, places, i, same) {
      if i < |front| {
        StillDropped(front, places, places, x, i, same);
      } else {
        assert s[places[|places| - 1]] == kept[|kept| - 1];
      }
    }
  }

  lemma {:induction false} KeptNext<T(!new)>(kept: seq<T>, places: seq<nat>, front: seq<T>, x: T, same: (T, T) -> bool)
    requires Kept(kept, places, front, same) && (|kept| > 0 ==> !same(kept[|kept| - 1], x))
    ensures Kept(kept + [x], places + [|front|], front + [x], same)
  {
    var s, all := front + [x], places + [|front|];
    forall i: nat | i < |s| && i !in all ensures Dropped(s, all, i, same) {
      assert all[|places|] == |front|;
      assert i in places ==> i in all;
      StillDropped(front, places, all, x, i, same);
    }
  }
}
