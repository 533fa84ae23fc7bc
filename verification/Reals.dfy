/** The cast to an integer, and what products of reals the other modules need. */
module Reals {
  /** Towards zero, as a cast does. */
  function Cast(x: real): (n: int)
    ensures x >= 0.0 ==> 0.0 <= n as real <= x < n as real + 1.0
    ensures x <= 0.0 ==> n as real - 1.0 < x <= n as real <= 0.0
  {
    if x >= 0.0 then x.Floor else -(-x).Floor
  }

  lemma Less(m: real, x: real)
    requires m >= 0.0 && 0.0 <= x <= 1.0
    ensures 0.0 <= m * x <= m
  {
    assert m * (1.0 - x) >= 0.0;
  }

  lemma Product(a: real, b: real) returns (c: real)
    requires b > 0.0
    ensures c == a * b && (a >= 0.0 ==> c >= 0.0) && (a > 0.0 ==> c > 0.0)
  {
    c := a * b;
  }

  lemma Differ(a: real, b: real, step: real, d: real, p: real, q: real)
    requires d == (a - b) * step && p == a * step && q == b * step
    ensures d == p - q
  {
  }

  lemma Scaled(n: real, x: real, step: real, p: real, q: real)
    requires step > 0.0 && n <= x < n + 1.0 && p == n * step && q == x * step
    ensures p <= q && q < p + step
  {
    var d := Product(x - n, step);
    Differ(x, n, step, d, q, p);
    var e := Product(n + 1.0 - x, step);
    var r := (n + 1.0) * step;
    Differ(n + 1.0, x, step, e, r, q);
    Differ(n + 1.0, 1.0, step, p, r, step);
  }

  lemma Shared(a: real, b: real, step: real)
    ensures (a + b) * step == a * step + b * step
  {
  }
}
