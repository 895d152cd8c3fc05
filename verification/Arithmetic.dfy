/** Whole-number division and multiplication, where the solver needs a hand. */
module Arithmetic {

  function Max(a: int, b: int): int { if a > b then a else b }

  function Min(a: int, b: int): int { if a < b then a else b }

  lemma {:induction false} MulGrows(a: int, b: int, d: int)
    requires a <= b && d >= 0
    ensures a * d <= b * d
  {
  }

  lemma {:induction false} NoSmallMultiple(x: int, size: int)
    requires size >= 1 && -size < x * size < size
    ensures x == 0
  {
    if x >= 1 {
      MulGrows(1, x, size);
    } else if x <= -1 {
      MulGrows(x, -1, size);
    }
  }

  /** Quotient and remainder are unique. */
  lemma {:induction false} DivIs(n: int, size: int, q: int, rest: int)
    requires size >= 1 && 0 <= rest < size && n == q * size + rest
    ensures n / size == q && n % size == rest
  {
    var k := n / size;
    assert n == k * size + n % size;
    assert (k - q) * size == k * size - q * size;
    NoSmallMultiple(k - q, size);
  }

  lemma {:induction false} DivGrows(a: int, b: int, t: int)
    requires a <= b && t >= 1
    ensures a / t <= b / t
  {
    var x, s := a / t, a % t + (b - a);
    assert a == x * t + a % t && s == (s / t) * t + s % t;
    assert (x + s / t) * t == x * t + (s / t) * t;
    DivIs(b, t, x + s / t, s % t);
  }

  lemma {:induction false} DivStep(n: int, size: int)
    requires size >= 1
    ensures n / size == (n - size) / size + 1 && n % size == (n - size) % size
  {
    var q, rest := (n - size) / size, (n - size) % size;
    assert n - size == q * size + rest;
    assert (q + 1) * size == q * size + size;
    DivIs(n, size, q + 1, rest);
  }

  /** Dividing a sum loses at most one against dividing its parts. */
  lemma {:induction false} DivSplit(x: int, y: int, size: int)
    requires size >= 1
    ensures x / size + y / size <= (x + y) / size <= x / size + y / size + 1
  {
    var q, r, s, t := x / size, x % size, y / size, y % size;
    assert x == q * size + r && y == s * size + t;
    assert (q + s) * size == q * size + s * size;
    assert (q + s + 1) * size == (q + s) * size + size;
    if r + t < size {
      DivIs(x + y, size, q + s, r + t);
    } else {
      DivIs(x + y, size, q + s + 1, r + t - size);
    }
  }
}
