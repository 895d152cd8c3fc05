/**
 What each call answers and leaves in the store, slot by slot (src/lib/idempotency-store.js, 28-70).
 */
module StoreCalls {
  import opened Options
  import opened Subsequences
  import opened IdempotencyStore

  /** The store holds the key with the entry. */
  ghost predicate Holds(c: Cache, k: Key, e: Entry) {
    exists i :: 0 <= i < |c| && c[i] == Slot(k, e)
  }

  ghost predicate Has(c: Cache, k: Key) { exists i :: 0 <= i < |c| && c[i].key == k }

  /** The key is held, and its time is not over. */
  ghost predicate Running(c: Cache, k: Key, e: Entry, now: int) { Holds(c, k, e) && now < e.expiresAt }

  ghost predicate Idle(c: Cache, k: Key, now: int) { forall e :: Holds(c, k, e) ==> e.expiresAt <= now }

  /** A commit still runs, a reservation does, or neither. */
  ghost predicate Replies(c: Cache, k: Key, now: int, answer: Answer) {
    match answer
    case Replay(v) => exists e :: Running(c, k, e, now) && e.Completed? && e.value == v
    case InFlight => exists e :: Running(c, k, e, now) && e.Pending?
    case Reserved => Idle(c, k, now)
  }

  /** The other slots, in their order. */
  ghost predicate Dropped(c: Cache, next: Cache, places: seq<nat>, k: Key) {
    Sifted(next, places, c, (s: Slot) => s.key != k)
  }

  /** The slot comes last, and the oldest goes when there is no room. */
  ghost predicate Appended(c: Cache, next: Cache, s: Slot, max: nat) {
    |next| > 0 && next[|next| - 1] == s
    && if |c| < max || |c| == 0 then |next| == |c| + 1 && (forall i :: 0 <= i < |c| ==> next[i] == c[i])
       else |next| == |c| && forall i :: 0 < i < |c| ==> next[i - 1] == c[i]
  }

  /** The slot of the key is replaced in its place. */
  ghost predicate Replaced(c: Cache, next: Cache, s: Slot) {
    |next| == |c| && forall i :: 0 <= i < |c| ==> next[i] == if c[i].key == s.key then s else c[i]
  }

  ghost predicate Puts(c: Cache, next: Cache, s: Slot, max: nat) {
    if Has(c, s.key) then Replaced(c, next, s) else Appended(c, next, s, max)
  }

  /** A key that idles is dropped and put in anew for its time; any other reservation changes nothing. */
  ghost predicate Reserves(c: Cache, next: Cache, k: Key, now: int, ttl: int, max: nat) {
    if Idle(c, k, now) then
      exists rest: Cache, places: seq<nat> :: Dropped(c, rest, places, k)
        && Appended(rest, next, Slot(k, Pending(now + ttl)), max)
    else next == c
  }

  // ---------------------------------------------------------------- the calls

  lemma {:induction false} HeldIs(c: Cache, k: Key, e: Entry)
    requires Distinct(c)
    ensures Holds(c, k, e) <==> Find(c, k) == Some(e)
  {
    if Find(c, k) == Some(e) {
      var i := FoundSomewhere(c, k);
    }
    if i :| 0 <= i < |c| && c[i] == Slot(k, e) {
      FindAt(c, i);
    }
  }

  lemma {:induction false} HasIs(c: Cache, k: Key)
    ensures Has(c, k) <==> Find(c, k).Some?
  {
    NotFound(c, k);
  }

  lemma {:induction false} IdleIs(c: Cache, k: Key, now: int)
    requires Distinct(c)
    ensures Idle(c, k, now) <==> Find(c, k).None? || Expired(c, k, now)
  {
    forall e ensures Holds(c, k, e) <==> Find(c, k) == Some(e) {
      HeldIs(c, k, e);
    }
  }

  /** The answer is the one of what the store holds. */
  lemma {:induction false} AnswerIs(c: Cache, k: Key, now: int)
    requires Distinct(c)
    ensures Replies(c, k, now, Answers(c, k, now))
  {
    IdleIs(c, k, now);
    if !Idle(c, k, now) {
      HeldIs(c, k, Find(c, k).value);
      assert Running(c, k, Find(c, k).value, now);
    }
  }

  /** No other answer is. */
  lemma {:induction false} OneAnswer(c: Cache, k: Key, now: int, a: Answer, b: Answer)
    requires Distinct(c) && Replies(c, k, now, a) && Replies(c, k, now, b)
    ensures a == b
  {
    forall e ensures Holds(c, k, e) <==> Find(c, k) == Some(e) {
      HeldIs(c, k, e);
    }
  }

  lemma {:induction false} RemoveIs(c: Cache, k: Key) returns (places: seq<nat>)
    ensures Dropped(c, Remove(c, k), places, k)
  {
    places := [];
    if |c| > 0 {
      var n := |c| - 1;
      places := RemoveIs(c[..n], k);
      assert c == c[..n] + [c[n]];
      var rest := Remove(c[..n], k);
      assert rest + [] == rest;
      SiftedNext(rest, places, c[..n], c[n], (s: Slot) => s.key != k);
      if c[n].key != k {
        places := places + [n];
      }
    }
  }

  lemma {:induction false} PutIs(c: Cache, k: Key, e: Entry, max: nat)
    ensures Puts(c, Put(c, k, e, max), Slot(k, e), max)
  {
    HasIs(c, k);
  }

  lemma {:induction false} NothingDropped(c: Cache, k: Key) returns (places: seq<nat>)
    requires !Has(c, k)
    ensures Dropped(c, c, places, k)
  {
    places := seq(|c|, i => i);
    forall i: nat ensures i in places <==> i < |c| && c[i].key != k {
      if i < |c| { assert places[i] == i; }
    }
  }

  lemma {:induction false} SweptIs(c: Cache, k: Key, now: int) returns (places: seq<nat>)
    requires Distinct(c) && Idle(c, k, now)
    ensures Dropped(c, Swept(c, k, now), places, k) && !Has(Swept(c, k, now), k)
  {
    IdleIs(c, k, now);
    SweptHolds(c, k, now, k);
    HasIs(c, k);
    HasIs(Swept(c, k, now), k);
    if Expired(c, k, now) { places := RemoveIs(c, k); } else { places := NothingDropped(c, k); }
  }

  lemma {:induction false} ReserveIs(c: Cache, k: Key, now: int, ttl: int, max: nat)
    requires Distinct(c)
    ensures Reserves(c, Step(c, ReserveOp(k, now), ttl, max), k, now, ttl, max)
  {
    IdleIs(c, k, now);
    if Idle(c, k, now) {
      var places := SweptIs(c, k, now);
      PutIs(Swept(c, k, now), k, Pending(now + ttl), max);
      ReservedIs(c, k, now, ttl, max);
    }
  }

  lemma {:induction false} ReservedIs(c: Cache, k: Key, now: int, ttl: int, max: nat)
    requires Distinct(c) && Idle(c, k, now)
    ensures Step(c, ReserveOp(k, now), ttl, max) == Put(Swept(c, k, now), k, Pending(now + ttl), max)
  {
    IdleIs(c, k, now);
  }

  /** What a call leaves. */
  ghost predicate Leaves(c: Cache, next: Cache, op: Op, ttl: int, max: nat) {
    match op
    case ReserveOp(k, now) => Reserves(c, next, k, now, ttl, max)
    case CommitOp(k, v, now) => Puts(c, next, Slot(k, Completed(v, now + ttl)), max)
    case ReleaseOp(k) => exists places: seq<nat> :: Dropped(c, next, places, k)
  }

  lemma {:induction false} CallIs(c: Cache, op: Op, ttl: int, max: nat)
    requires Distinct(c)
    ensures Leaves(c, Step(c, op, ttl, max), op, ttl, max)
  {
    match op
    case ReserveOp(k, now) => ReserveIs(c, k, now, ttl, max);
    case CommitOp(k, v, now) => PutIs(c, k, Completed(v, now + ttl), max);
    case ReleaseOp(k) => var places := RemoveIs(c, k);
  }

  /** Over any calls, what the next one leaves. */
  lemma {:induction false} CallsAre(ops: seq<Op>, op: Op, ttl: int, max: nat)
    ensures Leaves(After([], ops, ttl, max), After([], ops + [op], ttl, max), op, ttl, max)
  {
    SizeIsBounded(ops, ttl, max);
    assert (ops + [op])[..|ops|] == ops;
    CallIs(After([], ops, ttl, max), op, ttl, max);
  }
}
