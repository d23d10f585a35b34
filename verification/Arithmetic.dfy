/** Whole-number arithmetic. */
module Arithmetic {

  function CeilDiv(a: nat, b: nat): nat
    requires b > 0
  {
    (a + b - 1) / b
  }

  lemma DivBound(a: nat, m: nat, b: nat)
    requires b > 0 && a < m * b
    ensures a / b < m
  {
    if a / b >= m {
      MulMonotone(m, a / b, b);
    }
  }

  lemma MulMonotone(a: nat, b: nat, k: nat)
    requires a <= b
    ensures a * k <= b * k
  {}

  lemma DivBelow(a: nat, m: nat, b: nat)
    requires b > 0
    ensures a / b < m <==> a < m * b
  {
    if a < m * b {
      DivBound(a, m, b);
    } else {
      DivModStep(m, a - m * b, b);
    }
  }

  /** Division of `q * b + r`. */
  lemma DivModStep(q: nat, r: nat, b: nat)
    requires b > 0
    ensures (q * b + r) / b == q + r / b && (q * b + r) % b == r % b
  {
    var a := q * b + r;
    assert a == (q + r / b) * b + r % b;
    var d := a / b - (q + r / b);
    assert d * b == r % b - a % b;
    assert d == 0 by {
      if d >= 1 { MulMonotone(1, d, b); }
    }
  }

  lemma BelowCeilDiv(n: nat, a: nat, b: nat)
    requires b > 0
    ensures n < CeilDiv(a, b) <==> n * b < a
  {
    var q := CeilDiv(a, b);
    assert q * b <= a + b - 1 < q * b + b;
    if n < q { MulMonotone(n + 1, q, b); } else { MulMonotone(q, n, b); }
  }

  lemma CeilDivMonotone(a: nat, a': nat, b: nat)
    requires b > 0 && a <= a'
    ensures CeilDiv(a, b) <= CeilDiv(a', b)
  {
    if CeilDiv(a', b) < CeilDiv(a, b) {
      BelowCeilDiv(CeilDiv(a', b), a, b);
      BelowCeilDiv(CeilDiv(a', b), a', b);
    }
  }

  lemma CeilDivZero(b: nat)
    requires b > 0
    ensures CeilDiv(0, b) == 0
  {}

  lemma CeilDivSum(a: nat, d: nat, b: nat)
    requires b > 0
    ensures CeilDiv(a + d, b) <= CeilDiv(a, b) + CeilDiv(d, b)
  {
    var (p, q) := (CeilDiv(a, b), CeilDiv(d, b));
    BelowCeilDiv(p + q, a + d, b);
    BelowCeilDiv(p, a, b);
    BelowCeilDiv(q, d, b);
    assert (p + q) * b == p * b + q * b;
  }

  lemma ModUnique(a: nat, n: nat, q: nat, r: nat)
    requires n > 0 && a == q * n + r && r < n
    ensures a / n == q && a % n == r
  {
    DivModStep(q, r, n);
  }

  /** Position `a`'s slot in a ring of `n`. */
  function Slot(a: nat, n: nat): (s: nat)
    requires n > 0
    ensures s < n
  {
    a % n
  }

  lemma NextSlot(a: nat, n: nat)
    requires n > 0
    ensures Slot(Slot(a, n) + 1, n) == Slot(a + 1, n)
  {
    DivModStep(a / n, a % n + 1, n);
  }

  /** Positions less than a capacity apart never share a slot. */
  lemma SlotsDiffer(a: nat, b: nat, n: nat)
    requires a < b < a + n
    ensures Slot(a, n) != Slot(b, n)
  {
    if a % n == b % n {
      var d := b / n - a / n;
      assert b - a == d * n;
      assert 0 < d * n < n;
      if d >= 1 { MulMonotone(1, d, n); }
    }
  }
}
