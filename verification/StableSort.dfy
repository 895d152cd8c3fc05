/** Sorting by an integer key keeps every element once and equal keys in their order. */
module StableSort {
  import opened Sorting

  /** Each position of the result holds one position of the input, in order of key and then of position. */
  ghost predicate Arranges<T(!new)>(places: seq<nat>, s: seq<T>, r: seq<T>, key: T -> int) {
    && |places| == |r| == |s|
    && (forall i :: 0 <= i < |r| ==> places[i] < |s| && r[i] == s[places[i]])
    && (forall i, j :: 0 <= i < j < |r| ==> places[i] != places[j])
    && (forall i, j :: 0 <= i < j < |r| ==>
          key(r[i]) < key(r[j]) || (key(r[i]) == key(r[j]) && places[i] < places[j]))
  }

  /** Where a key belongs: after the keys that are no greater. */
  ghost predicate Belongs<T(!new)>(s: seq<T>, k: int, key: T -> int, p: nat) {
    p <= |s| && (forall i :: 0 <= i < p ==> key(s[i]) <= k) && (forall i :: p <= i < |s| ==> k < key(s[i]))
  }

  lemma {:induction false} InsertedBefore<T(!new)>(front: seq<T>, last: T, x: T, p: nat)
    requires p <= |front|
    ensures front[..p] + [x] + front[p..] + [last] == (front + [last])[..p] + [x] + (front + [last])[p..]
  {
  }

  lemma {:induction false} InsertAt<T(!new)>(s: seq<T>, x: T, key: T -> int) returns (p: nat)
    requires SortedBy(s, key)
    ensures Belongs(s, key(x), key, p) && InsertBy(s, x, key) == s[..p] + [x] + s[p..]
  {
    if |s| == 0 || key(s[|s| - 1]) <= key(x) {
      p := |s|;
    } else {
      var front, last := s[..|s| - 1], s[|s| - 1];
      p := InsertAt(front, x, key);
      InsertedBefore(front, last, x, p);
      assert s == front + [last];
    }
  }

  lemma {:induction false} ArrangesSorts<T(!new)>(places: seq<nat>, s: seq<T>, r: seq<T>, key: T -> int)
    requires Arranges(places, s, r, key)
    ensures SortedBy(r, key)
  {
  }

  lemma {:induction false} InsertArranges<T(!new)>(places: seq<nat>, front: seq<T>, r: seq<T>, x: T, key: T -> int,
                                                   p: nat)
    requires Arranges(places, front, r, key) && Belongs(r, key(x), key, p)
    ensures Arranges(places[..p] + [|front|] + places[p..], front + [x], r[..p] + [x] + r[p..], key)
  {
    var qs, out, all := places[..p] + [|front|] + places[p..], r[..p] + [x] + r[p..], front + [x];
    forall i | 0 <= i < |out| ensures qs[i] < |all| && out[i] == all[qs[i]] {
      if i < p {
        assert qs[i] == places[i] && out[i] == r[i];
      } else if i > p {
        assert qs[i] == places[i - 1] && out[i] == r[i - 1];
      }
    }
    forall i, j | 0 <= i < j < |out|
      ensures qs[i] != qs[j]
      ensures key(out[i]) < key(out[j]) || (key(out[i]) == key(out[j]) && qs[i] < qs[j])
    {
      var a, b := if i <= p then i else i - 1, if j <= p then j else j - 1;
      if i != p { assert qs[i] == places[a] && out[i] == r[a]; }
      if j != p { assert qs[j] == places[b] && out[j] == r[b]; }
    }
  }

  lemma {:induction false} InsertIsStable<T(!new)>(places: seq<nat>, front: seq<T>, r: seq<T>, x: T, key: T -> int)
      returns (more: seq<nat>)
    requires Arranges(places, front, r, key)
    ensures Arranges(more, front + [x], InsertBy(r, x, key), key)
  {
    ArrangesSorts(places, front, r, key);
    var p := InsertAt(r, x, key);
    InsertArranges(places, front, r, x, key, p);
    more := places[..p] + [|front|] + places[p..];
  }

  /** Sorting is a stable arrangement. */
  lemma {:induction false} SortIsStable<T(!new)>(s: seq<T>, key: T -> int) returns (places: seq<nat>)
    ensures Arranges(places, s, SortBy(s, key), key)
  {
    places := [];
    if |s| > 0 {
      var front, x := s[..|s| - 1], s[|s| - 1];
      assert s == front + [x];
      var before := SortIsStable(front, key);
      places := InsertIsStable(before, front, SortBy(front, key), x, key);
    }
  }
}
