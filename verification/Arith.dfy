/** Integer facts that need a hint: products, and division by a clock resolution. */
module Arith {
  import opened Basics

  lemma MulMono(a: int, b: int, k: int)
    requires a <= b && 0 <= k
    ensures a * k <= b * k && k * a <= k * b
  {}

  lemma Distribute(a: int, b: int, k: int)
    ensures (a + b) * k == a * k + b * k && k * (a + b) == k * a + k * b
  {}

  lemma Reorder(a: int, b: int, c: int)
    ensures a * (b * c) == c * (b * a)
  {}

  lemma HalfRate(k: nat, ticks: pos, rate: nat, passed: int)
    requires passed < 2 * (k * ticks)
    ensures rate * passed <= 2 * (ticks * (k * rate))
  {
    MulMono(passed, 2 * (k * ticks), rate);
    var covered := k * ticks;
    assert rate * (2 * covered) == 2 * (rate * covered);
    Reorder(rate, k, ticks);
  }

  lemma DivBounds(x: int, d: pos)
    ensures (x / d) * d <= x < (x / d) * d + d
  {}

  lemma DivRemainder(x: int, d: pos)
    ensures x == (x / d) * d + x % d
  {}

  lemma CancelLess(a: int, b: int, d: pos)
    requires a * d < b * d
    ensures a < b
  {
    if b <= a {
      MulMono(b, a, d);
    }
  }

  /** c whole units fit into x. */
  lemma FitsInto(c: int, x: int, d: pos)
    requires c * d <= x
    ensures c <= x / d
  {
    DivBounds(x, d);
    Distribute(x / d, 1, d);
    CancelLess(c, x / d + 1, d);
  }

  lemma DivExact(k: int, d: pos)
    ensures (k * d) / d == k
  {
    FitsInto(k, k * d, d);
    DivBounds(k * d, d);
    Distribute(k, 1, d);
    CancelLess((k * d) / d, k + 1, d);
  }

  lemma DivMono(x: int, y: int, d: pos)
    requires x <= y
    ensures x / d <= y / d
  {
    DivBounds(x, d);
    FitsInto(x / d, y, d);
  }

  function CeilDiv(x: int, d: pos): int {
    (x + d - 1) / d
  }

  /** `duration_cast<seconds>(to - from).count()`: C++ truncates toward zero. */
  function ElapsedSeconds(ticks: pos, from: int, to: int): int {
    if from <= to then (to - from) / ticks else -((from - to) / ticks)
  }

  lemma ElapsedBounds(ticks: pos, from: int, to: int)
    ensures var e := ElapsedSeconds(ticks, from, to);
      if from <= to then 0 <= e && e * ticks <= to - from < e * ticks + ticks else e <= 0
  {
    if from <= to {
      DivBounds(to - from, ticks);
    } else {
      DivBounds(from - to, ticks);
    }
  }
}
