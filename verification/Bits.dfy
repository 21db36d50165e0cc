/** `u32` words: bitwise operators on unsigned integers, and words as sets of bits. */
module Bits {

  type u32 = x: int | 0 <= x < 0x1_0000_0000

  const ALL_ONES: u32 := 0xFFFF_FFFF

  function And(m: nat, n: nat): nat {
    if m == 0 || n == 0 then 0
    else 2 * And(m / 2, n / 2) + (if m % 2 == 1 && n % 2 == 1 then 1 else 0)
  }

  function Or(m: nat, n: nat): nat
    decreases m + n
  {
    if m == 0 && n == 0 then 0
    else 2 * Or(m / 2, n / 2) + (if m % 2 == 1 || n % 2 == 1 then 1 else 0)
  }

  /** `1 << i`. */
  function Pow2(i: nat): (r: nat)
    ensures r > 0
  {
    if i == 0 then 1 else 2 * Pow2(i - 1)
  }

  predicate HasBit(m: nat, i: nat) {
    if i == 0 then m % 2 == 1 else HasBit(m / 2, i - 1)
  }

  lemma HalveQuotient(m: nat, p: nat)
    requires p > 0
    ensures m / (2 * p) == m / 2 / p
  {
    var q, r := m / 2 / p, m / 2 % p;
    assert m / 2 == p * q + r;
    assert m == (2 * p) * q + (2 * r + m % 2) && 0 <= 2 * r + m % 2 < 2 * p;
    QuotientUnique(m, 2 * p, q, 2 * r + m % 2);
  }

  lemma TimesMonotone(d: nat, a: int, b: int)
    requires a <= b
    ensures d * a <= d * b
  {
  }

  lemma QuotientUnique(m: nat, d: nat, q: nat, r: nat)
    requires m == d * q + r && r < d
    ensures m / d == q
  {
    var q' := m / d;
    assert m == d * q' + m % d;
    assert d * (q' + 1) == d * q' + d && d * (q + 1) == d * q + d;
    if q' < q { TimesMonotone(d, q' + 1, q); }
    if q < q' { TimesMonotone(d, q + 1, q'); }
  }

  /** Bit `i` is the digit of weight 2^i. */
  lemma {:induction false} HasBitIsDigit(m: nat, i: nat)
    ensures HasBit(m, i) <==> m / Pow2(i) % 2 == 1
  {
    if i > 0 {
      HasBitIsDigit(m / 2, i - 1);
      HalveQuotient(m, Pow2(i - 1));
    }
  }

  /** Every bit of `m` is a bit of `n`. */
  ghost predicate SubMask(m: nat, n: nat) {
    forall i: nat :: HasBit(m, i) ==> HasBit(n, i)
  }

  lemma {:induction false} HasBitZero(i: nat)
    ensures !HasBit(0, i)
  {
    if i > 0 { HasBitZero(i - 1); }
  }

  lemma AndHalves(m: nat, n: nat)
    ensures And(m, n) / 2 == And(m / 2, n / 2)
    ensures And(m, n) % 2 == 1 <==> m % 2 == 1 && n % 2 == 1
  {
  }

  lemma OrHalves(m: nat, n: nat)
    ensures Or(m, n) / 2 == Or(m / 2, n / 2)
    ensures Or(m, n) % 2 == 1 <==> m % 2 == 1 || n % 2 == 1
  {
  }

  lemma {:induction false} HasBitAnd(m: nat, n: nat, i: nat)
    ensures HasBit(And(m, n), i) <==> HasBit(m, i) && HasBit(n, i)
  {
    AndHalves(m, n);
    if i > 0 { HasBitAnd(m / 2, n / 2, i - 1); }
  }

  lemma {:induction false} HasBitOr(m: nat, n: nat, i: nat)
    ensures HasBit(Or(m, n), i) <==> HasBit(m, i) || HasBit(n, i)
  {
    OrHalves(m, n);
    if i > 0 { HasBitOr(m / 2, n / 2, i - 1); }
  }

  lemma {:induction false} HasBitPow2(j: nat, i: nat)
    ensures HasBit(Pow2(j), i) <==> i == j
  {
    if j == 0 {
      if i > 0 { HasBitZero(i - 1); }
    } else if i > 0 {
      HasBitPow2(j - 1, i - 1);
    }
  }

  /** The source's test `word & (1 << i) != 0`. */
  lemma {:induction false} TestBit(m: nat, i: nat)
    ensures And(m, Pow2(i)) != 0 <==> HasBit(m, i)
  {
    if i == 0 {
      assert And(m / 2, 0) == 0;
    } else {
      TestBit(m / 2, i - 1);
    }
  }

  lemma {:induction false} HasBitOnes(k: nat, i: nat)
    ensures HasBit(Pow2(k) - 1, i) <==> i < k
  {
    if k == 0 { HasBitZero(i); } else if i > 0 { HasBitOnes(k - 1, i - 1); }
  }

  lemma HasBitAllOnes(i: nat)
    ensures HasBit(ALL_ONES, i) <==> i < 32
  {
    HasBitOnes(32, i);
    Pow2Of32();
  }

  lemma Pow2Of32()
    ensures Pow2(32) == 0x1_0000_0000
  {
    assert Pow2(8) == 0x100;
    assert Pow2(16) == 0x1_0000;
    assert Pow2(24) == 0x100_0000;
  }

  /** A word below 2^k has no bit at `k` or above. */
  lemma {:induction false} HighBitsClear(m: nat, k: nat, i: nat)
    requires m < Pow2(k) && k <= i
    ensures !HasBit(m, i)
  {
    if k == 0 { HasBitZero(i); } else { HighBitsClear(m / 2, k - 1, i - 1); }
  }

  lemma {:induction false} OrBound(m: nat, n: nat, k: nat)
    requires m < Pow2(k) && n < Pow2(k)
    ensures Or(m, n) < Pow2(k)
  {
    if k > 0 { OrBound(m / 2, n / 2, k - 1); }
  }

  lemma {:induction false} AndBound(m: nat, n: nat)
    ensures And(m, n) <= m
  {
    if m != 0 && n != 0 { AndBound(m / 2, n / 2); }
  }

  lemma {:induction false} Pow2Monotone(i: nat, k: nat)
    requires i <= k
    ensures Pow2(i) <= Pow2(k)
  {
    if i < k { Pow2Monotone(i, k - 1); }
  }

  /** A word is determined by its set of bits. */
  lemma {:induction false} MaskExtensional(m: nat, n: nat)
    requires forall i: nat :: HasBit(m, i) <==> HasBit(n, i)
    ensures m == n
    decreases m + n
  {
    assert HasBit(m, 0) <==> HasBit(n, 0);
    if m + n > 0 {
      forall i: nat ensures HasBit(m / 2, i) <==> HasBit(n / 2, i) {
        assert HasBit(m, i + 1) <==> HasBit(n, i + 1);
      }
      MaskExtensional(m / 2, n / 2);
    }
  }
}
