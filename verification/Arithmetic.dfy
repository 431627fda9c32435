/** Facts about division that the solver does not find by itself. */
module Arithmetic {

  lemma NextMod(m: int, every: nat)
    requires every > 0 && m >= 0 && (m + 1) % every != 0
    ensures (m + 1) % every == m % every + 1
  {
    var q, r := m / every, m % every;
    assert m == q * every + r;
    if r + 1 == every {
      assert m + 1 == (q + 1) * every;
      ModZero(q + 1, every);
    } else {
      assert m + 1 == q * every + (r + 1);
      ModOf(q, r + 1, every);
    }
  }

  lemma ModZero(q: int, d: nat)
    requires d > 0
    ensures (q * d) % d == 0
  {
    ModOf(q, 0, d);
  }

  lemma ModOf(q: int, r: int, d: nat)
    requires 0 <= r < d
    ensures (q * d + r) % d == r
  {
    var x := q * d + r;
    assert (q - x / d) * d == x % d - r;
    MulBound(q - x / d, d);
  }

  lemma MulBound(k: int, d: int)
    requires d > 0
    ensures k >= 1 ==> k * d >= d
    ensures k <= -1 ==> k * d <= -d
  {
  }

  lemma DivOf(q: int, r: int, d: nat)
    requires 0 <= r < d
    ensures (q * d + r) / d == q
  {
    var x := q * d + r;
    ModOf(q, r, d);
    assert (q - x / d) * d == 0;
    MulBound(q - x / d, d);
  }

  /** `q` times `w`, by repeated addition. */
  function Offset(q: nat, w: int): int {
    if q == 0 then 0 else Offset(q - 1, w) + w
  }

  lemma {:induction false} OffsetIsProduct(q: nat, w: int)
    ensures Offset(q, w) == q * w
  {
    if q > 0 {
      OffsetIsProduct(q - 1, w);
      assert q * w == (q - 1) * w + w;
    }
  }

  lemma {:induction false} OffsetNonNegative(q: nat, w: int)
    requires w >= 0
    ensures Offset(q, w) >= 0
  {
    if q > 0 {
      OffsetNonNegative(q - 1, w);
    }
  }

  /** Quotient and remainder by repeated subtraction. */
  function Quot(k: nat, r: nat): nat
    requires r > 0
    decreases k
  {
    if k < r then 0 else Quot(k - r, r) + 1
  }

  function Rem(k: nat, r: nat): (p: nat)
    requires r > 0
    ensures p < r
    decreases k
  {
    if k < r then k else Rem(k - r, r)
  }

  lemma {:induction false} QuotRem(k: nat, r: nat)
    requires r > 0
    ensures k == Quot(k, r) * r + Rem(k, r)
    decreases k
  {
    if k >= r {
      QuotRem(k - r, r);
      assert (Quot(k - r, r) + 1) * r == Quot(k - r, r) * r + r;
    }
  }

  lemma QuotRemAreDivMod(k: nat, r: nat)
    requires r > 0
    ensures Quot(k, r) == k / r && Rem(k, r) == k % r
  {
    QuotRem(k, r);
    DivOf(Quot(k, r), Rem(k, r), r);
    ModOf(Quot(k, r), Rem(k, r), r);
  }

  /** One more row either stays in the cycle or opens the next. */
  lemma {:induction false} NextIndex(k: nat, r: nat)
    requires r > 0
    ensures Rem(k, r) + 1 < r ==> Quot(k + 1, r) == Quot(k, r) && Rem(k + 1, r) == Rem(k, r) + 1
    ensures Rem(k, r) + 1 == r ==> Quot(k + 1, r) == Quot(k, r) + 1 && Rem(k + 1, r) == 0
    decreases k
  {
    if k >= r {
      NextIndex(k - r, r);
    }
  }

  /** From the start of a cycle, `j` rows on is row `j`, and a whole cycle on is a start again. */
  lemma {:induction false} CycleStart(start: nat, j: nat, r: nat)
    requires j <= r && r > 0 && Rem(start, r) == 0
    ensures j < r ==> Rem(start + j, r) == j
    ensures j == r ==> Rem(start + j, r) == 0
    decreases start
  {
    if start >= r {
      CycleStart(start - r, j, r);
    }
  }
}
