/** The bit operations of machine words, on the binary digits of natural numbers. */
module Bits {
  function Pow2(k: nat): (p: nat)
    ensures p > 0
  {
    if k == 0 then 1 else 2 * Pow2(k - 1)
  }

  function And(a: nat, b: nat): nat {
    if a == 0 || b == 0 then 0 else 2 * And(a / 2, b / 2) + if a % 2 == 1 && b % 2 == 1 then 1 else 0
  }

  function Or(a: nat, b: nat): nat {
    if a == 0 then b else if b == 0 then a
    else 2 * Or(a / 2, b / 2) + if a % 2 == 1 || b % 2 == 1 then 1 else 0
  }

  /** All `w` digits turned over. */
  function Not(a: nat, w: nat): nat {
    if w == 0 then 0 else 2 * Not(a / 2, w - 1) + 1 - a % 2
  }

  /** The lowest `w` digits. */
  function Low(a: nat, w: nat): nat { if w == 0 then 0 else 2 * Low(a / 2, w - 1) + a % 2 }

  function ShiftLeft(a: nat, k: nat): nat { if k == 0 then a else 2 * ShiftLeft(a, k - 1) }

  function ShiftRight(a: nat, k: nat): nat { if k == 0 then a else ShiftRight(a / 2, k - 1) }

  // ----- as arithmetic -----

  lemma {:induction false} LowIsMod(a: nat, w: nat)
    ensures Low(a, w) == a % Pow2(w)
  {
    if w > 0 {
      LowIsMod(a / 2, w - 1);
      Halved(a, Pow2(w - 1));
    }
  }

  lemma {:induction false} Halved(a: nat, p: nat)
    requires p > 0
    ensures a % (2 * p) == 2 * (a / 2 % p) + a % 2 && a / (2 * p) == a / 2 / p
  {
    var q, r := a / 2 / p, a / 2 % p;
    assert a / 2 == p * q + r;
    assert a == (2 * p) * q + (2 * r + a % 2);
    Remainder(a, 2 * p, q, 2 * r + a % 2);
  }

  lemma {:induction false} Remainder(a: nat, m: nat, q: nat, r: nat)
    requires a == m * q + r && r < m
    ensures a % m == r && a / m == q
  {
    var d: int := a / m - q;
    assert a == m * (a / m) + a % m;
    assert m * (a / m - q) == m * (a / m) - m * q;
    Multiple(m, d);
  }

  /** The only multiple below `m` either way is 0. */
  lemma {:induction false} Multiple(m: nat, d: int)
    ensures d > 0 ==> m * d >= m
    ensures d < 0 ==> m * d + m <= 0
  {
    if d > 0 { Times(1, d, m); }
    if d < 0 { Times(1, -d, m); }
  }

  lemma {:induction false} Times(a: int, b: int, m: nat)
    requires a <= b
    ensures a * m <= b * m
  {}

  lemma {:induction false} Pow2Sum(a: nat, b: nat)
    ensures Pow2(a + b) == Pow2(a) * Pow2(b)
  {
    if a > 0 { Pow2Sum(a - 1, b); }
  }

  lemma {:induction false} NotIs(a: nat, w: nat)
    requires a < Pow2(w)
    ensures Not(a, w) == Pow2(w) - 1 - a
  {
    if w > 0 { NotIs(a / 2, w - 1); }
  }

  lemma {:induction false} ShiftLeftIs(a: nat, k: nat)
    ensures ShiftLeft(a, k) == a * Pow2(k)
  {
    if k > 0 { ShiftLeftIs(a, k - 1); }
  }

  lemma {:induction false} ShiftRightIs(a: nat, k: nat)
    ensures ShiftRight(a, k) == a / Pow2(k)
  {
    if k > 0 {
      ShiftRightIs(a / 2, k - 1);
      Halved(a, Pow2(k - 1));
    }
  }

  lemma {:induction false} OneDigit(a: nat)
    ensures ShiftLeft(a, 1) == 2 * a && ShiftRight(a, 1) == a / 2 && And(a, 1) == a % 2
  {
    assert ShiftLeft(a, 0) == a && ShiftRight(a / 2, 0) == a / 2 && And(a / 2, 0) == 0;
  }

  /** Digits that do not meet are added by an or. */
  lemma {:induction false} OrIsPlus(a: nat, b: nat, k: nat)
    requires a < Pow2(k)
    ensures Or(a, ShiftLeft(b, k)) == a + ShiftLeft(b, k)
  {
    if k > 0 { OrIsPlus(a / 2, b, k - 1); }
  }

  lemma {:induction false} AndMask(a: nat, k: nat)
    ensures And(a, Pow2(k) - 1) == Low(a, k)
  {
    if k > 0 {
      assert (Pow2(k) - 1) / 2 == Pow2(k - 1) - 1;
      AndMask(a / 2, k - 1);
      if a == 0 { LowIsMod(0, k); }
    }
  }

  /** Setting the digit above `k` others. */
  lemma {:induction false} OrTop(a: nat, k: nat)
    requires a < 2 * Pow2(k)
    ensures Or(a, Pow2(k)) == a % Pow2(k) + Pow2(k)
  {
    if k > 0 {
      OrTop(a / 2, k - 1);
      Halved(a, Pow2(k - 1));
    }
  }
}
