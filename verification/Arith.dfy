/** Facts about multiplication and powers of two that the solver does not find on its own. */
module Arith {

  lemma MulLe(x: nat, y: nat, d: nat)
    requires x <= y
    ensures x * d <= y * d
  {
    assert y * d == x * d + (y - x) * d;
  }

  /** Different multiples of d are at least d apart. */
  lemma Spread(x: nat, y: nat, d: nat)
    requires x < y
    ensures y * d >= x * d + d
  {
    MulLe(x + 1, y, d);
    assert (x + 1) * d == x * d + d;
  }

  lemma DivideIs(v: nat, d: nat, q: nat, r: nat)
    requires d >= 1 && v == q * d + r && r < d
    ensures v / d == q && v % d == r
  {
    var q', r' := v / d, v % d;
    assert v == q' * d + r';
    if q' < q { Spread(q', q, d); } else if q' > q { Spread(q, q', d); }
  }

  lemma Multiple(q: int, m: int)
    requires m > 0
    ensures (m * q) % m == 0
  {
    var d, r := m * q / m, m * q % m;
    assert m * q == m * d + r;
    assert m * (q - d) == m * q - m * d;
    Near(q - d, 0, m);
  }

  /** Only -1 and 0 times m bring a residue near zero. */
  lemma Near(j: int, r: int, m: int)
    requires 0 <= r < m && -m <= m * j + r < m
    ensures j == 0 || j == -1
  {
    if j >= 1 { MulLe(1, j, m); }
    if j <= -2 { MulLe(2, -j, m); }
  }

  function Pow2(k: nat): (r: nat)
    ensures r >= 1
  {
    if k == 0 then 1 else 2 * Pow2(k - 1)
  }

  /** x & ~mask */
  function AndNot(x: nat, mask: nat): nat {
    if x == 0 then 0 else 2 * AndNot(x / 2, mask / 2) + if mask % 2 == 1 then 0 else x % 2
  }

  lemma {:induction false} AndNotZero(x: nat)
    ensures AndNot(x, 0) == x
  {
    if x == 0 {
    } else {
      AndNotZero(x / 2);
    }
  }

  /** Clearing the low k bits rounds down to a multiple of 2^k. */
  lemma {:induction false} AndNotRounds(x: nat, k: nat)
    ensures AndNot(x, Pow2(k) - 1) == x / Pow2(k) * Pow2(k)
  {
    hide AndNot;
    if k == 0 {
      AndNotZero(x);
    } else {
      var p := Pow2(k - 1);
      var q := x / 2 / p;
      AndNotRounds(x / 2, k - 1);
      HalvedQuotient(x, p);
      AndNotStep(x, p);
      Doubled(q, p);
    }
  }

  lemma AndNotStep(x: nat, p: nat)
    requires p >= 1
    ensures AndNot(x, 2 * p - 1) == 2 * AndNot(x / 2, p - 1)
  {
    assert (2 * p - 1) % 2 == 1 && (2 * p - 1) / 2 == p - 1;
  }

  lemma Doubled(q: nat, p: nat)
    ensures q * (2 * p) == 2 * (q * p)
  {
  }

  lemma HalvedQuotient(x: nat, p: nat)
    requires p >= 1
    ensures x / (2 * p) == x / 2 / p
  {
    var h := x / 2;
    var q, r := h / p, h % p;
    assert h == q * p + r;
    Doubled(q, p);
    DivideIs(x, 2 * p, q, 2 * r + x % 2);
  }
}
