/** Products and floor division of non-negative integers, the bigint arithmetic of every payout and quote. */
module Arithmetic {
  function Min(a: int, b: int): int { if a < b then a else b }
  function Max(a: int, b: int): int { if a > b then a else b }

  lemma MulMono(a: int, b: int, d: int)
    requires a <= b && d >= 0
    ensures a * d <= b * d
  {
    assert (b - a) * d >= 0;
  }

  lemma LessFromProduct(a: int, b: int, d: int)
    requires d > 0 && a * d < b * d
    ensures a < b
  {
    if b <= a {
      MulMono(b, a, d);
    }
  }

  lemma AtMostFromProduct(a: int, b: int, d: int)
    requires d > 0 && a * d <= b * d
    ensures a <= b
  {
    if b < a {
      MulMono(b + 1, a, d);
    }
  }

  /** The quotient q is the one integer with q * d <= x < (q + 1) * d. */
  lemma FloorBounds(x: int, d: int)
    requires d > 0 && x >= 0
    ensures x / d >= 0 && (x / d) * d <= x < (x / d + 1) * d
  {
    assert (x / d + 1) * d == (x / d) * d + d;
  }

  lemma FloorUnique(x: int, d: int, q: int)
    requires d > 0 && x >= 0 && q * d <= x < (q + 1) * d
    ensures x / d == q
  {
    FloorBounds(x, d);
    LessFromProduct(q, x / d + 1, d);
    LessFromProduct(x / d, q + 1, d);
  }

  /** Galois connection of floor division. */
  lemma FloorGalois(x: int, d: int, q: int)
    requires d > 0 && x >= 0
    ensures q <= x / d <==> q * d <= x
  {
    FloorBounds(x, d);
    if q <= x / d {
      MulMono(q, x / d, d);
    } else {
      MulMono(x / d + 1, q, d);
    }
  }

  lemma FloorMono(x: int, y: int, d: int)
    requires d > 0 && 0 <= x <= y
    ensures x / d <= y / d
  {
    FloorBounds(x, d);
    FloorGalois(y, d, x / d);
  }

  /** Adding before the floor gains at most one. */
  lemma FloorAdd(x: int, y: int, d: int)
    requires d > 0 && x >= 0 && y >= 0
    ensures x / d + y / d <= (x + y) / d <= x / d + y / d + 1
  {
    FloorBounds(x, d);
    FloorBounds(y, d);
    var q := x / d + y / d;
    assert q * d == (x / d) * d + (y / d) * d;
    assert (q + 1) * d == q * d + d && (q + 2) * d == q * d + 2 * d;
    FloorGalois(x + y, d, q);
    FloorGalois(x + y, d, q + 2);
  }

  /** Adding at most k times the divisor gains at most k. */
  lemma FloorShift(x: int, y: int, d: int, k: int)
    requires d > 0 && x >= 0 && y >= 0 && y <= k * d
    ensures (x + y) / d <= x / d + k
  {
    FloorBounds(x, d);
    FloorBounds(x + y, d);
    assert (x / d + k + 1) * d == (x / d + 1) * d + k * d;
    LessFromProduct((x + y) / d, x / d + k + 1, d);
  }

  /** Division of JavaScript bigints, which rounds toward zero. */
  function Trunc(x: int, d: int): int
    requires d > 0
  {
    if x >= 0 then x / d else -(-x / d)
  }

  function CeilDiv(x: int, d: int): int
    requires d > 0
  {
    (x + d - 1) / d
  }

  /** Galois connection of rounding up. */
  lemma CeilGalois(x: int, d: int, q: int)
    requires d > 0 && x >= 0
    ensures CeilDiv(x, d) <= q <==> x <= q * d
  {
    var y := x + d - 1;
    FloorBounds(y, d);
    assert (y / d + 1) * d == (y / d) * d + d;
    if y / d <= q {
      MulMono(y / d, q, d);
    } else {
      MulMono(q + 1, y / d, d);
      assert (q + 1) * d == q * d + d;
    }
  }

  /** Snapping down to a grid gives the largest multiple of the step. */
  lemma SnapDown(x: int, step: int, m: int)
    requires step > 0 && x >= 0 && m % step == 0 && m <= x
    ensures m <= (x / step) * step <= x && ((x / step) * step) % step == 0
  {
    FloorBounds(x, step);
    MultipleMod(x / step, step);
    var q := m / step;
    assert m == q * step;
    if q >= 0 {
      FloorGalois(x, step, q);
      MulMono(q, x / step, step);
    } else {
      MulMono(q, 0, step);
      MulMono(0, x / step, step);
    }
  }

  lemma MultipleMod(k: int, d: int)
    requires d > 0
    ensures (k * d) % d == 0
    decreases if k >= 0 then k else -k
  {
    if k > 0 {
      MultipleMod(k - 1, d);
      assert k * d == (k - 1) * d + d;
      AddStep((k - 1) * d, d);
    } else if k < 0 {
      MultipleMod(k + 1, d);
      assert (k + 1) * d == k * d + d;
      AddStep(k * d, d);
    }
  }

  lemma AddStep(x: int, d: int)
    requires d > 0
    ensures (x + d) % d == x % d
  {
    var q, r := x / d, x % d;
    assert x == q * d + r;
    assert x + d == (q + 1) * d + r;
    var q', r' := (x + d) / d, (x + d) % d;
    assert x + d == q' * d + r';
    var k := q + 1 - q';
    assert k * d == r' - r;
    if k > 0 { MulMono(1, k, d); }
    if k < 0 { MulMono(k, -1, d); }
  }
}
