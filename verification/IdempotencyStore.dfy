/**
 The in-memory idempotency store (src/lib/idempotency-store.js, 28-70): a map in insertion order whose entries
 expire lazily and whose oldest insertion goes first when it is full.
 */
module IdempotencyStore {
  import opened Options

  type Key = string
  type Value = string

  datatype Entry = Pending(expiresAt: int) | Completed(value: Value, expiresAt: int)

  datatype Slot = Slot(key: Key, entry: Entry)

  type Cache = seq<Slot>

  datatype Answer = Reserved | InFlight | Replay(value: Value)

  // ---------------------------------------------------------------- the insertion-ordered map

  function Find(c: Cache, k: Key): Option<Entry> {
    if |c| == 0 then None
    else if c[|c| - 1].key == k then Some(c[|c| - 1].entry)
    else Find(c[..|c| - 1], k)
  }

  function Remove(c: Cache, k: Key): (r: Cache)
    ensures |r| <= |c|
  {
    if |c| == 0 then []
    else Remove(c[..|c| - 1], k) + (if c[|c| - 1].key == k then [] else [c[|c| - 1]])
  }

  /** Setting a key that is present keeps its place. */
  function Overwrite(c: Cache, k: Key, e: Entry): Cache {
    seq(|c|, i requires 0 <= i < |c| => if c[i].key == k then Slot(k, e) else c[i])
  }

  /** Room for one more: the oldest insertion goes when the cache is full. */
  function MakeRoom(c: Cache, max: nat): Cache {
    if |c| >= max && |c| > 0 then c[1..] else c
  }

  function Put(c: Cache, k: Key, e: Entry, max: nat): Cache {
    if Find(c, k).Some? then Overwrite(c, k, e) else MakeRoom(c, max) + [Slot(k, e)]
  }

  predicate Expired(c: Cache, k: Key, now: int) {
    Find(c, k).Some? && Find(c, k).value.expiresAt <= now
  }

  /** What reading a key leaves of the cache. */
  function Swept(c: Cache, k: Key, now: int): Cache {
    if Expired(c, k, now) then Remove(c, k) else c
  }

  function AnswerOf(found: Option<Entry>): Answer {
    if found.None? then Reserved else if found.value.Completed? then Replay(found.value.value) else InFlight
  }

  // ---------------------------------------------------------------- the store

  class MemoryStore {
    const ttl: int
    const max: nat
    var cache: Cache

    constructor (ttl: int, max: nat)
      ensures this.ttl == ttl && this.max == max && cache == []
    {
      this.ttl, this.max, cache := ttl, max, [];
    }

    /** The entry of a key, dropped when its time is over. */
    method Live(key: Key, now: int) returns (found: Option<Entry>)
      modifies this
      ensures cache == Swept(old(cache), key, now)
      ensures found == if Expired(old(cache), key, now) then None else Find(old(cache), key)
    {
      found := Find(cache, key);
      if found.Some? && found.value.expiresAt <= now {
        cache := Remove(cache, key);
        found := None;
      }
    }

    method PutEntry(key: Key, entry: Entry)
      modifies this
      ensures cache == Put(old(cache), key, entry, max)
    {
      if Find(cache, key).None? && |cache| >= max {
        if |cache| > 0 {
          cache := cache[1..];
        }
        cache := cache + [Slot(key, entry)];
      } else if Find(cache, key).None? {
        cache := cache + [Slot(key, entry)];
      } else {
        cache := Overwrite(cache, key, entry);
      }
    }

    method Reserve(key: Key, now: int) returns (answer: Answer)
      modifies this
      ensures cache == Step(old(cache), ReserveOp(key, now), ttl, max)
      ensures answer == Answers(old(cache), key, now)
    {
      var existing := Live(key, now);
      if existing.Some? {
        return if existing.value.Completed? then Replay(existing.value.value) else InFlight;
      }
      PutEntry(key, Pending(now + ttl));
      return Reserved;
    }

    method Commit(key: Key, value: Value, now: int)
      modifies this
      ensures cache == Step(old(cache), CommitOp(key, value, now), ttl, max)
    {
      PutEntry(key, Completed(value, now + ttl));
    }

    method Release(key: Key)
      modifies this
      ensures cache == Step(old(cache), ReleaseOp(key), ttl, max)
    {
      cache := Remove(cache, key);
    }
  }

  // ---------------------------------------------------------------- calls

  datatype Op = ReserveOp(key: Key, now: int) | CommitOp(key: Key, value: Value, now: int) | ReleaseOp(key: Key)

  /** What reserving a key answers. */
  function Answers(c: Cache, key: Key, now: int): Answer {
    if Expired(c, key, now) then Reserved else AnswerOf(Find(c, key))
  }

  function Step(c: Cache, op: Op, ttl: int, max: nat): Cache {
    match op
    case ReserveOp(key, now) =>
      if Answers(c, key, now).Reserved? then Put(Swept(c, key, now), key, Pending(now + ttl), max) else c
    case CommitOp(key, value, now) => Put(c, key, Completed(value, now + ttl), max)
    case ReleaseOp(key) => Remove(c, key)
  }

  function After(c: Cache, ops: seq<Op>, ttl: int, max: nat): Cache {
    if |ops| == 0 then c else Step(After(c, ops[..|ops| - 1], ttl, max), ops[|ops| - 1], ttl, max)
  }

  // ---------------------------------------------------------------- laws of the map

  ghost predicate Distinct(c: Cache) {
    forall i, j :: 0 <= i < j < |c| ==> c[i].key != c[j].key
  }

  lemma {:induction false} FindAt(c: Cache, i: nat)
    requires Distinct(c) && i < |c|
    ensures Find(c, c[i].key) == Some(c[i].entry)
  {
    if i < |c| - 1 {
      FindAt(c[..|c| - 1], i);
    }
  }

  lemma {:induction false} FoundSomewhere(c: Cache, k: Key) returns (i: nat)
    requires Find(c, k).Some?
    ensures i < |c| && c[i] == Slot(k, Find(c, k).value)
  {
    if c[|c| - 1].key == k {
      i := |c| - 1;
    } else {
      i := FoundSomewhere(c[..|c| - 1], k);
    }
  }

  lemma {:induction false} NotFound(c: Cache, k: Key)
    ensures Find(c, k).None? <==> forall i :: 0 <= i < |c| ==> c[i].key != k
  {
    if |c| > 0 {
      NotFound(c[..|c| - 1], k);
    }
  }

  lemma {:induction false} FindRemoved(c: Cache, k: Key, other: Key)
    ensures Find(Remove(c, k), other) == if other == k then None else Find(c, other)
  {
    if |c| > 0 {
      var front := Remove(c[..|c| - 1], k);
      FindRemoved(c[..|c| - 1], k, other);
      assert (front + [c[|c| - 1]])[..|front|] == front;
      assert front + [] == front;
    }
  }

  lemma {:induction false} FindOverwritten(c: Cache, k: Key, e: Entry, other: Key)
    ensures Find(Overwrite(c, k, e), other) == if other == k && Find(c, k).Some? then Some(e) else Find(c, other)
  {
    if |c| > 0 {
      FindOverwritten(c[..|c| - 1], k, e, other);
      assert Overwrite(c, k, e)[..|c| - 1] == Overwrite(c[..|c| - 1], k, e);
    }
  }

  lemma {:induction false} FindLast(c: Cache, s: Slot, other: Key)
    ensures Find(c + [s], other) == if other == s.key then Some(s.entry) else Find(c, other)
  {
    assert (c + [s])[..|c|] == c;
  }

  /** Dropping the oldest slot hides only its key. */
  lemma {:induction false} FindAfterDrop(c: Cache, other: Key)
    requires Distinct(c) && |c| > 0
    ensures Find(c[1..], other) == if other == c[0].key then None else Find(c, other)
  {
    NotFound(c, other);
    NotFound(c[1..], other);
    if Find(c[1..], other).Some? {
      var i := FoundSomewhere(c[1..], other);
      FindAt(c, i + 1);
    } else if Find(c, other).Some? {
      var i := FoundSomewhere(c, other);
      if i > 0 {
        StillThere(c, i);
      }
    }
  }

  lemma {:induction false} StillThere(c: Cache, i: nat)
    requires 0 < i < |c|
    ensures Find(c[1..], c[i].key).Some?
  {
    var rest := c[1..];
    NotFound(rest, c[i].key);
    assert rest[i - 1] == c[i];
  }

  lemma {:induction false} RemoveKeeps(c: Cache, k: Key)
    requires Distinct(c)
    ensures Distinct(Remove(c, k)) && forall s :: s in Remove(c, k) ==> s in c
  {
    if |c| > 0 {
      var front, last := Remove(c[..|c| - 1], k), c[|c| - 1];
      RemoveKeeps(c[..|c| - 1], k);
      forall i | 0 <= i < |front| ensures front[i].key != last.key {
        assert front[i] in c[..|c| - 1];
      }
    }
  }

  ghost predicate Bounded(c: Cache, max: nat) {
    |c| <= max || (max == 0 && |c| <= 1)
  }

  lemma {:induction false} PutKeeps(c: Cache, k: Key, e: Entry, max: nat)
    requires Distinct(c) && Bounded(c, max)
    ensures Distinct(Put(c, k, e, max)) && Bounded(Put(c, k, e, max), max)
  {
    NotFound(c, k);
  }

  lemma {:induction false} SweptKeeps(c: Cache, key: Key, now: int, max: nat)
    requires Distinct(c) && Bounded(c, max)
    ensures Distinct(Swept(c, key, now)) && Bounded(Swept(c, key, now), max)
  {
    RemoveKeeps(c, key);
  }

  lemma {:induction false} ReserveKeeps(c: Cache, key: Key, now: int, ttl: int, max: nat)
    requires Distinct(c) && Bounded(c, max)
    ensures var next := Step(c, ReserveOp(key, now), ttl, max); Distinct(next) && Bounded(next, max)
  {
    var swept := Swept(c, key, now);
    SweptKeeps(c, key, now, max);
    PutKeeps(swept, key, Pending(now + ttl), max);
  }

  lemma {:induction false} StepKeeps(c: Cache, op: Op, ttl: int, max: nat)
    requires Distinct(c) && Bounded(c, max)
    ensures Distinct(Step(c, op, ttl, max)) && Bounded(Step(c, op, ttl, max), max)
  {
    match op
    case ReserveOp(key, now) => ReserveKeeps(c, key, now, ttl, max);
    case CommitOp(key, value, now) => PutKeeps(c, key, Completed(value, now + ttl), max);
    case ReleaseOp(key) => RemoveKeeps(c, key);
  }

  /** Over any calls the store never holds more than its limit (one entry when the limit is zero), each key once. */
  lemma {:induction false} SizeIsBounded(ops: seq<Op>, ttl: int, max: nat)
    ensures Distinct(After([], ops, ttl, max)) && Bounded(After([], ops, ttl, max), max)
    ensures max >= 1 ==> |After([], ops, ttl, max)| <= max
  {
    if |ops| > 0 {
      SizeIsBounded(ops[..|ops| - 1], ttl, max);
      StepKeeps(After([], ops[..|ops| - 1], ttl, max), ops[|ops| - 1], ttl, max);
    }
  }

  // ---------------------------------------------------------------- a key that stays

  lemma {:induction false} FindPut(c: Cache, k: Key, e: Entry, max: nat, other: Key)
    requires Distinct(c)
    ensures Find(Put(c, k, e, max), k) == Some(e)
    ensures other != k && Find(Put(c, k, e, max), other).Some? ==> Find(Put(c, k, e, max), other) == Find(c, other)
    ensures other != k && Find(Put(c, k, e, max), other).None? ==>
              Find(c, other).None? || (|c| > 0 && |c| >= max && Find(c, k).None? && other == c[0].key)
  {
    FindOverwritten(c, k, e, k);
    FindOverwritten(c, k, e, other);
    FindLast(MakeRoom(c, max), Slot(k, e), k);
    FindLast(MakeRoom(c, max), Slot(k, e), other);
    if |c| > 0 {
      FindAfterDrop(c, other);
    }
  }

  /** The call leaves the key alone: no release of it, no reserve of it after its time, no eviction of it. */
  ghost predicate Spares(c: Cache, op: Op, k: Key, ttl: int, max: nat) {
    && op != ReleaseOp(k)
    && (op.ReserveOp? && op.key == k ==> !Expired(c, k, op.now))
    && Find(Step(c, op, ttl, max), k).Some?
  }

  function Committed(op: Op, k: Key, before: Option<Value>): Option<Value> {
    if op.CommitOp? && op.key == k then Some(op.value) else before
  }

  function ValueOf(e: Entry): Option<Value> {
    if e.Completed? then Some(e.value) else None
  }

  /** Sweeping a key drops only that key. */
  lemma {:induction false} SweptHolds(c: Cache, key: Key, now: int, other: Key)
    requires Distinct(c)
    ensures Distinct(Swept(c, key, now))
    ensures Answers(c, key, now).Reserved? <==> Find(Swept(c, key, now), key).None?
    ensures other != key ==> Find(Swept(c, key, now), other) == Find(c, other)
  {
    RemoveKeeps(c, key);
    FindRemoved(c, key, key);
    FindRemoved(c, key, other);
  }

  lemma {:induction false} PutSpares(c: Cache, swept: Cache, key: Key, e: Entry, k: Key, max: nat)
    requires Distinct(swept) && k != key && Find(swept, k) == Find(c, k) && Find(Put(swept, key, e, max), k).Some?
    ensures Find(Put(swept, key, e, max), k) == Find(c, k)
  {
    FindPut(swept, key, e, max, k);
  }

  lemma {:induction false} ReserveSpares(c: Cache, key: Key, now: int, k: Key, ttl: int, max: nat)
    requires Distinct(c) && Find(c, k).Some? && Spares(c, ReserveOp(key, now), k, ttl, max)
    ensures Find(Step(c, ReserveOp(key, now), ttl, max), k) == Find(c, k)
  {
    SweptHolds(c, key, now, k);
    if key != k && Answers(c, key, now).Reserved? {
      PutSpares(c, Swept(c, key, now), key, Pending(now + ttl), k, max);
    }
  }

  lemma {:induction false} StepSpares(c: Cache, op: Op, k: Key, ttl: int, max: nat)
    requires Distinct(c) && Find(c, k).Some? && Spares(c, op, k, ttl, max)
    ensures ValueOf(Find(Step(c, op, ttl, max), k).value) == Committed(op, k, ValueOf(Find(c, k).value))
  {
    match op
    case ReserveOp(key, now) => ReserveSpares(c, key, now, k, ttl, max);
    case CommitOp(key, value, now) => FindPut(c, key, Completed(value, now + ttl), max, k);
    case ReleaseOp(key) => FindRemoved(c, key, k);
  }

  ghost predicate SparesAll(c: Cache, ops: seq<Op>, k: Key, ttl: int, max: nat) {
    |ops| == 0 || (
      SparesAll(c, ops[..|ops| - 1], k, ttl, max)
      && Spares(After(c, ops[..|ops| - 1], ttl, max), ops[|ops| - 1], k, ttl, max))
  }

  /** The value of the last commit of a key, if any. */
  function LastCommit(ops: seq<Op>, k: Key, before: Option<Value>): Option<Value> {
    if |ops| == 0 then before else Committed(ops[|ops| - 1], k, LastCommit(ops[..|ops| - 1], k, before))
  }

  lemma {:induction false} KeyStays(c: Cache, ops: seq<Op>, k: Key, ttl: int, max: nat)
    requires Distinct(c) && Bounded(c, max) && Find(c, k).Some? && SparesAll(c, ops, k, ttl, max)
    ensures Distinct(After(c, ops, ttl, max)) && Bounded(After(c, ops, ttl, max), max)
    ensures Find(After(c, ops, ttl, max), k).Some?
    ensures ValueOf(Find(After(c, ops, ttl, max), k).value) == LastCommit(ops, k, ValueOf(Find(c, k).value))
  {
    if |ops| > 0 {
      var before, op := After(c, ops[..|ops| - 1], ttl, max), ops[|ops| - 1];
      KeyStays(c, ops[..|ops| - 1], k, ttl, max);
      StepKeeps(before, op, ttl, max);
      StepSpares(before, op, k, ttl, max);
    }
  }

  function Expected(committed: Option<Value>): Answer {
    if committed.Some? then Replay(committed.value) else InFlight
  }

  /**
   After a key was reserved, and until it is released, expires or is evicted, every further reserve answers that
   it is in flight or, once committed, replays exactly the last committed value; it is never reserved twice.
   */
  lemma {:induction false} ReservedOnce(c: Cache, k: Key, at: int, ops: seq<Op>, now: int, ttl: int, max: nat)
    requires Distinct(c) && Bounded(c, max) && Answers(c, k, at).Reserved?
    requires var held := Step(c, ReserveOp(k, at), ttl, max);
             SparesAll(held, ops, k, ttl, max) && !Expired(After(held, ops, ttl, max), k, now)
    ensures var held := Step(c, ReserveOp(k, at), ttl, max);
            Answers(After(held, ops, ttl, max), k, now) == Expected(LastCommit(ops, k, None))
  {
    var held := Step(c, ReserveOp(k, at), ttl, max);
    StepKeeps(c, ReserveOp(k, at), ttl, max);
    ReserveTakes(c, k, at, ttl, max);
    KeyStays(held, ops, k, ttl, max);
  }

  lemma {:induction false} PutFinds(c: Cache, k: Key, e: Entry, max: nat)
    requires Distinct(c)
    ensures Find(Put(c, k, e, max), k) == Some(e)
  {
    FindPut(c, k, e, max, k);
  }

  lemma {:induction false} ReserveTakes(c: Cache, k: Key, at: int, ttl: int, max: nat)
    requires Distinct(c) && Answers(c, k, at).Reserved?
    ensures Find(Step(c, ReserveOp(k, at), ttl, max), k) == Some(Pending(at + ttl))
  {
    var swept, entry := Swept(c, k, at), Pending(at + ttl);
    SweptIsDistinct(c, k, at);
    assert Step(c, ReserveOp(k, at), ttl, max) == Put(swept, k, entry, max);
    PutFinds(swept, k, entry, max);
  }

  lemma {:induction false} SweptIsDistinct(c: Cache, k: Key, at: int)
    requires Distinct(c)
    ensures Distinct(Swept(c, k, at))
  {
    RemoveKeeps(c, k);
  }

  /** After a commit, and until then, a reserve replays the last committed value. */
  lemma {:induction false} CommitIsReplayed(c: Cache, k: Key, v: Value, at: int, ops: seq<Op>, now: int, ttl: int,
                                            max: nat)
    requires Distinct(c) && Bounded(c, max)
    requires var held := Step(c, CommitOp(k, v, at), ttl, max);
             SparesAll(held, ops, k, ttl, max) && !Expired(After(held, ops, ttl, max), k, now)
    ensures var held := Step(c, CommitOp(k, v, at), ttl, max);
            Answers(After(held, ops, ttl, max), k, now) == Replay(LastCommit(ops, k, Some(v)).GetOr(v))
  {
    var held := Step(c, CommitOp(k, v, at), ttl, max);
    StepKeeps(c, CommitOp(k, v, at), ttl, max);
    FindPut(c, k, Completed(v, at + ttl), max, k);
    KeyStays(held, ops, k, ttl, max);
    StillCommitted(ops, k, v);
  }

  lemma {:induction false} StillCommitted(ops: seq<Op>, k: Key, v: Value)
    ensures LastCommit(ops, k, Some(v)).Some?
  {
    if |ops| > 0 {
      StillCommitted(ops[..|ops| - 1], k, v);
    }
  }

  // ---------------------------------------------------------------- oldest first

  /** The call after which the key was last put in while absent. */
  ghost function Born(ops: seq<Op>, k: Key, ttl: int, max: nat): nat {
    if |ops| == 0 then 0
    else
      var front, op := ops[..|ops| - 1], ops[|ops| - 1];
      if Inserts(After([], front, ttl, max), op, k) then |ops| else Born(front, k, ttl, max)
  }

  ghost predicate Inserts(c: Cache, op: Op, k: Key) {
    && op.key == k && !op.ReleaseOp?
    && (Find(c, k).None? || (op.ReserveOp? && Expired(c, k, op.now)))
  }

  lemma {:induction false} BornBefore(ops: seq<Op>, k: Key, ttl: int, max: nat)
    ensures Born(ops, k, ttl, max) <= |ops|
  {
    if |ops| > 0 {
      BornBefore(ops[..|ops| - 1], k, ttl, max);
    }
  }

  /** Slots in the order of their ages. */
  ghost predicate Aged(c: Cache, age: Key -> int) {
    forall i, j :: 0 <= i < j < |c| ==> age(c[i].key) < age(c[j].key)
  }

  lemma {:induction false} AgedRemove(c: Cache, k: Key, age: Key -> int)
    requires Aged(c, age)
    ensures Aged(Remove(c, k), age)
    ensures forall s :: s in Remove(c, k) ==> s in c && s.key != k
  {
    if |c| > 0 {
      var front, last := Remove(c[..|c| - 1], k), c[|c| - 1];
      AgedRemove(c[..|c| - 1], k, age);
      forall i | 0 <= i < |front| ensures age(front[i].key) < age(last.key) {
        assert front[i] in c[..|c| - 1];
      }
    }
  }

  /** Other keys keep their age, and a key that is put in is younger than all of them. */
  ghost predicate Ages(age: Key -> int, next: Key -> int, k: Key, inserted: bool) {
    && (forall x :: x != k || !inserted ==> next(x) == age(x))
    && (inserted ==> forall x :: x != k ==> age(x) < next(k))
  }

  lemma {:induction false} AgedPut(c: Cache, k: Key, e: Entry, max: nat, age: Key -> int, next: Key -> int)
    requires Aged(c, age) && Ages(age, next, k, Find(c, k).None?)
    ensures Aged(Put(c, k, e, max), next)
  {
    NotFound(c, k);
  }

  lemma {:induction false} AgedSwept(c: Cache, key: Key, now: int, age: Key -> int)
    requires Aged(c, age)
    ensures Aged(Swept(c, key, now), age)
  {
    AgedRemove(c, key, age);
  }

  lemma {:induction false} ReserveInserts(c: Cache, key: Key, now: int)
    ensures Inserts(c, ReserveOp(key, now), key) <==> Answers(c, key, now).Reserved?
  {
  }

  lemma {:induction false} AgedInsert(swept: Cache, key: Key, e: Entry, max: nat, age: Key -> int, next: Key -> int)
    requires Aged(swept, age) && Find(swept, key).None? && Ages(age, next, key, true)
    ensures Aged(Put(swept, key, e, max), next)
  {
    AgedPut(swept, key, e, max, age, next);
  }

  lemma {:induction false} AgedAfter(c: Cache, swept: Cache, key: Key, now: int, ttl: int, max: nat, age: Key -> int,
                                     next: Key -> int)
    requires swept == Swept(c, key, now) && Answers(c, key, now).Reserved?
    requires Aged(swept, age) && Find(swept, key).None? && Ages(age, next, key, true)
    ensures Aged(Step(c, ReserveOp(key, now), ttl, max), next)
  {
    var after := Put(swept, key, Pending(now + ttl), max);
    AgedInsert(swept, key, Pending(now + ttl), max, age, next);
    assert Step(c, ReserveOp(key, now), ttl, max) == after;
  }

  lemma {:induction false} AgedReserve(c: Cache, key: Key, now: int, ttl: int, max: nat, age: Key -> int,
                                       next: Key -> int)
    requires Distinct(c) && Aged(c, age) && Ages(age, next, key, Answers(c, key, now).Reserved?)
    ensures Aged(Step(c, ReserveOp(key, now), ttl, max), next)
  {
    if Answers(c, key, now).Reserved? {
      SweptHolds(c, key, now, key);
      AgedSwept(c, key, now, age);
      AgedAfter(c, Swept(c, key, now), key, now, ttl, max, age, next);
    } else {
      SameAges(c, age, next);
    }
  }

  lemma {:induction false} SameAges(c: Cache, age: Key -> int, next: Key -> int)
    requires Aged(c, age) && forall x :: next(x) == age(x)
    ensures Aged(c, next)
  {
  }

  lemma {:induction false} AgedStep(c: Cache, op: Op, ttl: int, max: nat, age: Key -> int, next: Key -> int)
    requires Distinct(c) && Aged(c, age) && Ages(age, next, op.key, Inserts(c, op, op.key))
    ensures Aged(Step(c, op, ttl, max), next)
  {
    match op
    case ReserveOp(key, now) =>
      ReserveInserts(c, key, now);
      AgedReserve(c, key, now, ttl, max, age, next);
    case CommitOp(key, value, now) => AgedPut(c, key, Completed(value, now + ttl), max, age, next);
    case ReleaseOp(key) =>
      AgedRemove(c, key, age);
      SameAges(Remove(c, key), age, next);
  }

  ghost function Birth(ops: seq<Op>, ttl: int, max: nat): Key -> int {
    k => Born(ops, k, ttl, max)
  }

  /** Whatever was called, the slots stand in the order in which their keys were put in. */
  lemma {:induction false} OldestFirst(ops: seq<Op>, ttl: int, max: nat)
    ensures Aged(After([], ops, ttl, max), Birth(ops, ttl, max))
  {
    if |ops| > 0 {
      var front, op := ops[..|ops| - 1], ops[|ops| - 1];
      OldestFirst(front, ttl, max);
      SizeIsBounded(front, ttl, max);
      forall x ensures Birth(front, ttl, max)(x) < |ops| {
        BornBefore(front, x, ttl, max);
      }
      AgedStep(After([], front, ttl, max), op, ttl, max, Birth(front, ttl, max), Birth(ops, ttl, max));
    }
  }

  /** Where a call that puts a key in puts it. */
  ghost function Room(c: Cache, op: Op): Cache {
    if op.ReserveOp? then Swept(c, op.key, op.now) else c
  }

  lemma {:induction false} PutLoses(c: Cache, key: Key, e: Entry, lost: Key, max: nat)
    requires Distinct(c) && Find(c, lost).Some? && lost != key && Find(Put(c, key, e, max), lost).None?
    ensures |c| > 0 && |c| >= max && lost == c[0].key && Find(Put(c, key, e, max), key).Some?
  {
    FindPut(c, key, e, max, lost);
  }

  lemma {:induction false} LostOnReserve(c: Cache, key: Key, now: int, lost: Key, ttl: int, max: nat)
    requires Distinct(c) && Find(c, lost).Some? && lost != key
    requires Find(Step(c, ReserveOp(key, now), ttl, max), lost).None?
    ensures var swept := Swept(c, key, now); |swept| > 0 && |swept| >= max && lost == swept[0].key
    ensures Find(Step(c, ReserveOp(key, now), ttl, max), key).Some?
  {
    SweptHolds(c, key, now, lost);
    var swept, e := Swept(c, key, now), Pending(now + ttl);
    if Answers(c, key, now).Reserved? {
      assert Step(c, ReserveOp(key, now), ttl, max) == Put(swept, key, e, max);
      PutLoses(swept, key, e, lost, max);
    }
  }

  lemma {:induction false} LostKey(c: Cache, op: Op, lost: Key, ttl: int, max: nat)
    requires Distinct(c) && Find(c, lost).Some? && lost != op.key && Find(Step(c, op, ttl, max), lost).None?
    ensures |Room(c, op)| > 0 && |Room(c, op)| >= max && lost == Room(c, op)[0].key
    ensures Find(Step(c, op, ttl, max), op.key).Some?
  {
    match op
    case ReserveOp(key, now) => LostOnReserve(c, key, now, lost, ttl, max);
    case CommitOp(key, value, now) => PutLoses(c, key, Completed(value, now + ttl), lost, max);
    case ReleaseOp(key) => FindRemoved(c, key, lost);
  }

  /**
   A key that disappears without being named by the call was evicted from a full store in favour of a new key,
   and it was put in before every other key of the store.
   */
  lemma {:induction false} EvictionTakesOldest(ops: seq<Op>, op: Op, lost: Key, other: Key, ttl: int, max: nat)
    requires var c := After([], ops, ttl, max);
             && Find(c, lost).Some? && lost != op.key && Find(Step(c, op, ttl, max), lost).None?
             && Find(c, other).Some? && other != lost && other != op.key
    ensures |After([], ops, ttl, max)| >= max
    ensures Find(Step(After([], ops, ttl, max), op, ttl, max), op.key).Some?
    ensures Born(ops, lost, ttl, max) < Born(ops, other, ttl, max)
  {
    var c := After([], ops, ttl, max);
    SizeIsBounded(ops, ttl, max);
    OldestFirst(ops, ttl, max);
    LostKey(c, op, lost, ttl, max);
    RoomHolds(c, op, other, Birth(ops, ttl, max));
    FirstIsOldest(Room(c, op), other, Birth(ops, ttl, max));
  }

  lemma {:induction false} RoomHolds(c: Cache, op: Op, other: Key, age: Key -> int)
    requires Distinct(c) && Aged(c, age) && other != op.key
    ensures Aged(Room(c, op), age) && Find(Room(c, op), other) == Find(c, other) && |Room(c, op)| <= |c|
  {
    if op.ReserveOp? {
      AgedSwept(c, op.key, op.now, age);
      SweptHolds(c, op.key, op.now, other);
    }
  }

  lemma {:induction false} FirstIsOldest(room: Cache, other: Key, age: Key -> int)
    requires Aged(room, age) && |room| > 0 && Find(room, other).Some? && other != room[0].key
    ensures age(room[0].key) < age(other)
  {
    var i := FoundSomewhere(room, other);
    assert age(room[0].key) < age(room[i].key);
  }

}
