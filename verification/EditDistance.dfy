/** Fuzzy matching of imported names (src/lib/employeeImportTaxonomy.js, 299-326). */
module EditDistance {
  import opened Options
  import opened Arithmetic

  // ---------------------------------------------------------------- what the distance is

  ghost predicate Inserts(a: string, b: string, i: nat) {
    i <= |a| && |b| == |a| + 1 && b[..i] == a[..i] && b[i + 1..] == a[i..]
  }

  ghost predicate Substitutes(a: string, b: string, i: nat) {
    i < |a| && |b| == |a| && b[..i] == a[..i] && b[i + 1..] == a[i + 1..]
  }

  /** One insertion, deletion or substitution of a character. */
  ghost predicate OneEdit(a: string, b: string) {
    exists i: nat :: Inserts(a, b, i) || Inserts(b, a, i) || Substitutes(a, b, i)
  }

  /** b is reached from a by n edits. */
  ghost predicate Reaches(a: string, b: string, n: nat)
    decreases n
  {
    if n == 0 then a == b else exists m :: OneEdit(a, m) && Reaches(m, b, n - 1)
  }

  /** The recursive minimum over insert, delete and substitute, on the last characters. */
  function Dist(a: string, b: string): nat
    decreases |a| + |b|
  {
    if |a| == 0 then |b|
    else if |b| == 0 then |a|
    else
      var i, j := |a| - 1, |b| - 1;
      Min(Min(Dist(a[..i], b) + 1, Dist(a, b[..j]) + 1), Dist(a[..i], b[..j]) + (if a[i] == b[j] then 0 else 1))
  }

  // ---------------------------------------------------------------- the in-place row

  /** The distance of two prefixes, by their lengths. */
  ghost function Cell(a: string, b: string, i: nat, j: nat): nat
    requires i <= |a| && j <= |b|
  {
    Dist(a[..i], b[..j])
  }

  /** The source's nested loops: one array of length |b| + 1, overwritten row by row. */
  method Levenshtein(a: string, b: string) returns (d: nat)
    ensures d == Dist(a, b)
  {
    var m, n := |a|, |b|;
    if m == 0 { return n; }
    if n == 0 { return m; }
    var dp := new nat[n + 1](i => i);
    for i := 1 to m + 1
      invariant forall j :: 0 <= j <= n ==> dp[j] == Cell(a, b, i - 1, j)
    {
      OverwriteRow(dp, a, b, i);
    }
    assert a[..m] == a && b[..n] == b;
    return dp[n];
  }

  /** The inner loop: `prev` keeps the value that the last write covered up. */
  method OverwriteRow(dp: array<nat>, a: string, b: string, i: nat)
    requires dp.Length == |b| + 1 && 1 <= i <= |a|
    requires forall j :: 0 <= j <= |b| ==> dp[j] == Cell(a, b, i - 1, j)
    modifies dp
    ensures forall j :: 0 <= j <= |b| ==> dp[j] == Cell(a, b, i, j)
  {
    var n := |b|;
    var prev := dp[0];
    dp[0] := i;
    for j := 1 to n + 1
      invariant prev == Cell(a, b, i - 1, j - 1)
      invariant forall k :: 0 <= k < j ==> dp[k] == Cell(a, b, i, k)
      invariant forall k :: j <= k <= n ==> dp[k] == Cell(a, b, i - 1, k)
    {
      var tmp := dp[j];
      CellStep(a, b, i, j, dp[j], dp[j - 1], prev);
      dp[j] := Min(Min(dp[j] + 1, dp[j - 1] + 1), prev + (if a[i - 1] == b[j - 1] then 0 else 1));
      prev := tmp;
    }
  }

  lemma {:induction false} CellStep(a: string, b: string, i: nat, j: nat, up: nat, left: nat, corner: nat)
    requires 1 <= i <= |a| && 1 <= j <= |b|
    requires up == Cell(a, b, i - 1, j) && left == Cell(a, b, i, j - 1) && corner == Cell(a, b, i - 1, j - 1)
    ensures Cell(a, b, i, j) == Min(Min(up + 1, left + 1), corner + (if a[i - 1] == b[j - 1] then 0 else 1))
  {
    var p, q := a[..i], b[..j];
    assert p[..i - 1] == a[..i - 1] && q[..j - 1] == b[..j - 1];
    DistUnfolds(p, q, a[..i - 1], b[..j - 1]);
  }

  lemma {:induction false} DistUnfolds(p: string, q: string, x: string, y: string)
    requires |p| > 0 && |q| > 0 && x == p[..|p| - 1] && y == q[..|q| - 1]
    ensures Dist(p, q)
            == Min(Min(Dist(x, q) + 1, Dist(p, y) + 1), Dist(x, y) + (if p[|p| - 1] == q[|q| - 1] then 0 else 1))
  {
  }

  // ---------------------------------------------------------------- the distance is attained

  lemma {:induction false} EditsAppend(a: string, b: string, c: char)
    requires OneEdit(a, b)
    ensures OneEdit(a + [c], b + [c])
  {
    var i: nat :| Inserts(a, b, i) || Inserts(b, a, i) || Substitutes(a, b, i);
    var x, y := a + [c], b + [c];
    if Inserts(a, b, i) {
      assert y[i + 1..] == b[i + 1..] + [c] && x[i..] == a[i..] + [c];
      assert Inserts(x, y, i);
    } else if Inserts(b, a, i) {
      assert x[i + 1..] == a[i + 1..] + [c] && y[i..] == b[i..] + [c];
      assert Inserts(y, x, i);
    } else {
      assert y[i + 1..] == b[i + 1..] + [c] && x[i + 1..] == a[i + 1..] + [c];
      assert Substitutes(x, y, i);
    }
  }

  lemma {:induction false} ReachesAppend(a: string, b: string, c: char, n: nat)
    requires Reaches(a, b, n)
    ensures Reaches(a + [c], b + [c], n)
    decreases n
  {
    if n > 0 {
      var m :| OneEdit(a, m) && Reaches(m, b, n - 1);
      EditsAppend(a, m, c);
      ReachesAppend(m, b, c, n - 1);
    }
  }

  lemma {:induction false} ReachesCompose(a: string, b: string, c: string, n: nat, k: nat)
    requires Reaches(a, b, n) && Reaches(b, c, k)
    ensures Reaches(a, c, n + k)
    decreases n
  {
    if n > 0 {
      var m := FirstEdit(a, b, n);
      ReachesCompose(m, b, c, n - 1, k);
      ReachesFirst(a, m, c, n + k);
    }
  }

  lemma {:induction false} FirstEdit(a: string, b: string, n: nat) returns (m: string)
    requires n > 0 && Reaches(a, b, n)
    ensures OneEdit(a, m) && Reaches(m, b, n - 1)
  {
    m :| OneEdit(a, m) && Reaches(m, b, n - 1);
  }

  lemma {:induction false} ReachesFirst(a: string, m: string, c: string, n: nat)
    requires n > 0 && OneEdit(a, m) && Reaches(m, c, n - 1)
    ensures Reaches(a, c, n)
  {
  }

  lemma {:induction false} ReachesOne(a: string, b: string)
    requires OneEdit(a, b)
    ensures Reaches(a, b, 1)
  {
    assert Reaches(b, b, 0);
  }

  lemma {:induction false} DropLast(a: string)
    requires |a| > 0
    ensures OneEdit(a, a[..|a| - 1]) && OneEdit(a[..|a| - 1], a)
  {
    assert Inserts(a[..|a| - 1], a, |a| - 1);
  }

  lemma {:induction false} ChangeLast(a: string, c: char, d: char)
    ensures OneEdit(a + [c], a + [d])
  {
    assert Substitutes(a + [c], a + [d], |a|);
  }

  lemma {:induction false} DeletedIsReached(a: string, b: string, n: nat)
    requires |a| > 0 && Reaches(a[..|a| - 1], b, n)
    ensures Reaches(a, b, n + 1)
  {
    DropLast(a);
  }

  lemma {:induction false} InsertedIsReached(a: string, b: string, n: nat)
    requires |b| > 0 && Reaches(a, b[..|b| - 1], n)
    ensures Reaches(a, b, n + 1)
  {
    var front := b[..|b| - 1];
    DropLast(b);
    ReachesOne(front, b);
    ReachesCompose(a, front, b, n, 1);
  }

  lemma {:induction false} DistIsReached(a: string, b: string)
    ensures Reaches(a, b, Dist(a, b))
    decreases |a| + |b|
  {
    var i, j := |a| - 1, |b| - 1;
    if |a| == 0 && |b| == 0 {
    } else if |b| > 0 && (|a| == 0 || Dist(a, b) == Dist(a, b[..j]) + 1) {
      DistIsReached(a, b[..j]);
      InsertedIsReached(a, b, Dist(a, b[..j]));
    } else if |b| == 0 || Dist(a, b) == Dist(a[..i], b) + 1 {
      DistIsReached(a[..i], b);
      DeletedIsReached(a, b, Dist(a[..i], b));
    } else {
      DistIsReached(a[..i], b[..j]);
      KeptIsReached(a, b, Dist(a[..i], b[..j]));
    }
  }

  lemma {:induction false} KeptIsReached(a: string, b: string, n: nat)
    requires |a| > 0 && |b| > 0 && Reaches(a[..|a| - 1], b[..|b| - 1], n)
    ensures Reaches(a, b, if a[|a| - 1] == b[|b| - 1] then n else n + 1)
  {
    var i, j := |a| - 1, |b| - 1;
    LastIsReached(a[..i], a[i], b[..j], b[j], n);
    assert a == a[..i] + [a[i]] && b == b[..j] + [b[j]];
  }

  lemma {:induction false} LastIsReached(x: string, c: char, y: string, d: char, n: nat)
    requires Reaches(x, y, n)
    ensures Reaches(x + [c], y + [d], if c == d then n else n + 1)
  {
    ReachesAppend(x, y, c, n);
    if c != d {
      ChangeLast(y, c, d);
      ReachesOne(y + [c], y + [d]);
      ReachesCompose(x + [c], y + [c], y + [d], n, 1);
    }
  }

  // ---------------------------------------------------------------- no shorter way exists

  lemma {:induction false} DistSnoc(x: string, c: char, y: string, d: char)
    ensures Dist(x + [c], y + [d]) ==
              Min(Min(Dist(x, y + [d]) + 1, Dist(x + [c], y) + 1), Dist(x, y) + (if c == d then 0 else 1))
  {
    assert (x + [c])[..|x|] == x && (y + [d])[..|y|] == y;
  }

  lemma {:induction false} DistSelf(a: string)
    ensures Dist(a, a) == 0
  {
    if |a| > 0 {
      DistSelf(a[..|a| - 1]);
    }
  }

  /** The distance is symmetric. */
  lemma {:induction false} DistIsSymmetric(a: string, b: string)
    ensures Dist(a, b) == Dist(b, a)
    decreases |a| + |b|
  {
    if |a| > 0 && |b| > 0 {
      var i, j := |a| - 1, |b| - 1;
      DistIsSymmetric(a[..i], b);
      DistIsSymmetric(a, b[..j]);
      DistIsSymmetric(a[..i], b[..j]);
    }
  }

  /** One more character at the end changes the distance by at most one. */
  lemma {:induction false} LastInserted(x: string, c: char, b: string)
    ensures Dist(x, b) <= 1 + Dist(x + [c], b)
    ensures Dist(x + [c], b) <= 1 + Dist(x, b)
    decreases |b|
  {
    if |b| > 0 {
      var y, d := b[..|b| - 1], b[|b| - 1];
      assert b == y + [d];
      LastInserted(x, c, y);
      DistSnoc(x, c, y, d);
      AppendedOther(x, y, d);
    }
  }

  lemma {:induction false} AppendedOther(x: string, y: string, d: char)
    ensures Dist(x, y + [d]) <= Dist(x, y) + 1
  {
    assert (y + [d])[..|y|] == y;
    if |x| > 0 {
      assert x == x[..|x| - 1] + [x[|x| - 1]];
    }
  }

  lemma {:induction false} LastSubstituted(x: string, c: char, e: char, b: string)
    ensures Dist(x + [c], b) <= 1 + Dist(x + [e], b)
    decreases |b|
  {
    if |b| > 0 {
      var y, d := b[..|b| - 1], b[|b| - 1];
      assert b == y + [d];
      LastSubstituted(x, c, e, y);
      DistSnoc(x, c, y, d);
      DistSnoc(x, e, y, d);
    }
  }

  /** Equal last characters carry a bound on shorter strings over to longer ones. */
  lemma {:induction false} LastEqual(x: string, m: string, c: char, y: string, d: char)
    requires Dist(x, y + [d]) <= 1 + Dist(m, y + [d]) && Dist(x + [c], y) <= 1 + Dist(m + [c], y)
    requires Dist(x, y) <= 1 + Dist(m, y)
    ensures Dist(x + [c], y + [d]) <= 1 + Dist(m + [c], y + [d])
  {
    DistSnoc(x, c, y, d);
    DistSnoc(m, c, y, d);
  }

  lemma {:induction false} EditsBeforeLast(a: string, m: string, i: nat)
    requires |a| > 0 && |m| > 0
    requires (Inserts(a, m, i) && i < |a|) || (Inserts(m, a, i) && i < |m|) || (Substitutes(a, m, i) && i < |a| - 1)
    ensures a[|a| - 1] == m[|m| - 1] && OneEdit(a[..|a| - 1], m[..|m| - 1])
  {
    var x, y := a[..|a| - 1], m[..|m| - 1];
    if Inserts(a, m, i) {
      assert m[i + 1..][|a| - i - 1] == a[i..][|a| - i - 1];
      assert y[i + 1..] == m[i + 1..][..|a| - 1 - i] && x[i..] == a[i..][..|a| - 1 - i];
      assert y[..i] == m[..i] && x[..i] == a[..i];
      assert Inserts(x, y, i);
    } else if Inserts(m, a, i) {
      assert a[i + 1..][|m| - i - 1] == m[i..][|m| - i - 1];
      assert x[i + 1..] == a[i + 1..][..|m| - 1 - i] && y[i..] == m[i..][..|m| - 1 - i];
      assert y[..i] == m[..i] && x[..i] == a[..i];
      assert Inserts(y, x, i);
    } else {
      assert a[i + 1..][|a| - i - 2] == m[i + 1..][|a| - i - 2];
      assert y[i + 1..] == m[i + 1..][..|a| - 2 - i] && x[i + 1..] == a[i + 1..][..|a| - 2 - i];
      assert y[..i] == m[..i] && x[..i] == a[..i];
      assert Substitutes(x, y, i);
    }
  }

  /** An edit at the end of the longer string. */
  lemma {:induction false} EditAtEnd(a: string, m: string, i: nat, b: string)
    requires (Inserts(a, m, i) && i == |a|) || (Inserts(m, a, i) && i == |m|) || (Substitutes(a, m, i) && i == |a| - 1)
    ensures Dist(a, b) <= 1 + Dist(m, b)
  {
    if Inserts(a, m, i) && i == |a| {
      assert a + [m[|a|]] == m;
      LastInserted(a, m[|a|], b);
    } else if Inserts(m, a, i) && i == |m| {
      assert m + [a[|m|]] == a;
      LastInserted(m, a[|m|], b);
    } else {
      assert a[..i] + [a[i]] == a && a[..i] + [m[i]] == m;
      LastSubstituted(a[..i], a[i], m[i], b);
    }
  }

  /** An edit before equal last characters. */
  lemma {:induction false} EditBefore(x: string, y: string, c: char, z: string, d: char)
    requires OneEdit(x, y)
    ensures Dist(x + [c], z + [d]) <= 1 + Dist(y + [c], z + [d])
    decreases |x| + 1 + |z| + 1, 0
  {
    EditsAppend(x, y, c);
    OneEditOneCloser(x, y, z + [d]);
    OneEditOneCloser(x + [c], y + [c], z);
    OneEditOneCloser(x, y, z);
    LastEqual(x, y, c, z, d);
  }

  /** One edit changes the distance to any string by at most one. */
  lemma {:induction false} OneEditOneCloser(a: string, m: string, b: string)
    requires OneEdit(a, m)
    ensures Dist(a, b) <= 1 + Dist(m, b)
    decreases |a| + |b|, 1
  {
    var i: nat :| Inserts(a, m, i) || Inserts(m, a, i) || Substitutes(a, m, i);
    if (Inserts(a, m, i) && i == |a|) || (Inserts(m, a, i) && i == |m|) || (Substitutes(a, m, i) && i == |a| - 1) {
      EditAtEnd(a, m, i, b);
    } else {
      EditsBeforeLast(a, m, i);
      if |b| > 0 {
        var x, y, c := a[..|a| - 1], m[..|m| - 1], a[|a| - 1];
        assert x + [c] == a && y + [c] == m && b[..|b| - 1] + [b[|b| - 1]] == b;
        EditBefore(x, y, c, b[..|b| - 1], b[|b| - 1]);
      }
    }
  }

  lemma {:induction false} NoShorterWay(a: string, b: string, n: nat)
    requires Reaches(a, b, n)
    ensures Dist(a, b) <= n
    decreases n
  {
    if n == 0 {
      DistSelf(a);
    } else {
      var m :| OneEdit(a, m) && Reaches(m, b, n - 1);
      NoShorterWay(m, b, n - 1);
      OneEditOneCloser(a, m, b);
    }
  }

  /** The recursion is the true edit distance: the least number of edits from one string to the other. */
  lemma {:induction false} DistIsEditDistance(a: string, b: string)
    ensures Reaches(a, b, Dist(a, b))
    ensures forall n: nat :: Reaches(a, b, n) ==> Dist(a, b) <= n
  {
    DistIsReached(a, b);
    forall n: nat | Reaches(a, b, n) ensures Dist(a, b) <= n {
      NoShorterWay(a, b, n);
    }
  }

  lemma {:induction false} TriangleInequality(a: string, b: string, c: string)
    ensures Dist(a, c) <= Dist(a, b) + Dist(b, c)
  {
    DistIsReached(a, b);
    DistIsReached(b, c);
    ReachesCompose(a, b, c, Dist(a, b), Dist(b, c));
    NoShorterWay(a, c, Dist(a, b) + Dist(b, c));
  }

  lemma {:induction false} DistZeroMeansEqual(a: string, b: string)
    ensures Dist(a, b) == 0 <==> a == b
  {
    DistIsReached(a, b);
    DistSelf(a);
  }

  // ---------------------------------------------------------------- the nearest candidate

  /** The distance after case folding, whatever the folding is. */
  function Gap(fold: string -> string, a: string, b: string): nat {
    Dist(fold(a), fold(b))
  }

  /** Two, or two fifths of the longer length rounded up. */
  function Threshold(input: string, best: string): int {
    var longest := if |input| > |best| then |input| else |best|;
    var share := (2 * longest + 4) / 5;
    if share > 2 then share else 2
  }

  /** Close enough: two edits, or less than one edit more than two fifths of the longer length. */
  lemma {:induction false} WithinThreshold(input: string, best: string, gap: nat)
    ensures gap <= Threshold(input, best) <==> gap <= 2 || 5 * (gap - 1) < 2 * |input| || 5 * (gap - 1) < 2 * |best|
  {
    var longest := if |input| > |best| then |input| else |best|;
    assert 2 * longest >= 2 * |input| && 2 * longest >= 2 * |best|;
    FifthsUp(2 * longest, gap);
  }

  lemma {:induction false} FifthsUp(n: int, gap: int)
    ensures gap <= (n + 4) / 5 <==> 5 * (gap - 1) < n
  {
  }

  /** Candidates without a name are skipped. */
  predicate Named(candidates: seq<Option<string>>, i: nat)
    requires i < |candidates|
  {
    candidates[i].Some? && candidates[i].value != ""
  }

  /** The first candidate among the first n at the least distance. */
  ghost predicate Closest(fold: string -> string, input: string, candidates: seq<Option<string>>, i: nat, n: nat)
    requires i < n <= |candidates|
  {
    && Named(candidates, i)
    && (forall k :: 0 <= k < n && Named(candidates, k) ==>
       Gap(fold, input, candidates[i].value) <= Gap(fold, input, candidates[k].value))
    && (forall k :: 0 <= k < i && Named(candidates, k) ==>
       Gap(fold, input, candidates[i].value) < Gap(fold, input, candidates[k].value))
  }

  ghost predicate Suggested(fold: string -> string, input: string, candidates: seq<Option<string>>, i: nat)
    requires i < |candidates|
  {
    Closest(fold, input, candidates, i, |candidates|)
      && Gap(fold, input, candidates[i].value) <= Threshold(input, candidates[i].value)
  }

  lemma {:induction false} ClosestIsUnique(fold: string -> string, input: string, candidates: seq<Option<string>>,
                                           i: nat, j: nat)
    requires i < |candidates| && j < |candidates|
    requires Closest(fold, input, candidates, i, |candidates|) && Closest(fold, input, candidates, j, |candidates|)
    ensures i == j
  {
  }

  /** The first of the closest named candidates, if it is close enough; otherwise nothing. */
  method Nearest(fold: string -> string, input: string, candidates: seq<Option<string>>) returns (r: Option<string>)
    ensures r.None? ==> forall i :: 0 <= i < |candidates| ==> !Suggested(fold, input, candidates, i)
    ensures r.Some? ==> exists i :: 0 <= i < |candidates| && Suggested(fold, input, candidates, i) && r == candidates[i]
  {
    var best: Option<nat>, bestD := None, 0;
    for i := 0 to |candidates|
      invariant best.None? ==> forall k :: 0 <= k < i ==> !Named(candidates, k)
      invariant best.Some? ==> best.value < i && Closest(fold, input, candidates, best.value, i)
      invariant best.Some? ==> bestD == Gap(fold, input, candidates[best.value].value)
    {
      if !Named(candidates, i) {
        continue;
      }
      var d := Levenshtein(fold(input), fold(candidates[i].value));
      if best.None? || d < bestD {
        best, bestD := Some(i), d;
      }
    }
    if best.Some? && bestD <= Threshold(input, candidates[best.value].value) {
      assert Suggested(fold, input, candidates, best.value);
      return candidates[best.value];
    }
    forall i | 0 <= i < |candidates| ensures !Suggested(fold, input, candidates, i) {
      if best.Some? && Suggested(fold, input, candidates, i) {
        ClosestIsUnique(fold, input, candidates, i, best.value);
      }
    }
    return None;
  }
}
