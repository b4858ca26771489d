/** The few facts about multiplication and Euclidean division the proofs lean on. */
module Arith {

  function Min(a: int, b: int): int { if a < b then a else b }

  lemma MulMonotone(x: int, y: int, d: int)
    requires d >= 0 && x <= y
    ensures d * x <= d * y
  {
  }

  lemma MulDistributes(d: int, x: int, y: int)
    ensures d * (x + y) == d * x + d * y
  {
  }

  /** a / d is the largest q with d * q <= a. */
  lemma LeDiv(q: int, a: int, d: int)
    requires d > 0 && d * q <= a
    ensures q <= a / d
  {
    if q >= a / d + 1 {
      MulMonotone(a / d + 1, q, d);
    }
  }

  lemma DivMonotone(a: int, b: int, d: int)
    requires d > 0 && a <= b
    ensures a / d <= b / d
  {
    LeDiv(a / d, b, d);
  }

  lemma DivUnique(a: int, q: int, d: int)
    requires d > 0 && d * q <= a < d * q + d
    ensures a / d == q
  {
    LeDiv(q, a, d);
    if a / d >= q + 1 {
      MulMonotone(q + 1, a / d, d);
    }
  }

  function CeilDiv(a: int, d: int): int
    requires d > 0
  {
    -((-a) / d)
  }

  /** CeilDiv(a, d) is the smallest q with a <= d * q. */
  lemma CeilDivLe(a: int, q: int, d: int)
    requires d > 0 && a <= d * q
    ensures CeilDiv(a, d) <= q
  {
    assert d * (-q) == -(d * q);
    LeDiv(-q, -a, d);
  }

  lemma CeilDivBounds(a: int, d: int)
    requires d > 0
    ensures d * CeilDiv(a, d) - d < a <= d * CeilDiv(a, d)
  {
    assert d * CeilDiv(a, d) == -(d * ((-a) / d));
  }

  lemma LeCeilDiv(a: int, q: int, d: int)
    requires d > 0 && d * q - d < a
    ensures q <= CeilDiv(a, d)
  {
    CeilDivBounds(a, d);
    if CeilDiv(a, d) <= q - 1 {
      MulMonotone(CeilDiv(a, d), q - 1, d);
      MulDistributes(d, q, -1);
    }
  }

  lemma CeilDivIs(a: int, d: int)
    requires d > 0
    ensures CeilDiv(a, d) == a / d + if a % d == 0 then 0 else 1
  {
    hide CeilDiv;
    var q := a / d;
    MulDistributes(d, q, 1);
    if a % d == 0 {
      CeilDivLe(a, q, d);
      LeCeilDiv(a, q, d);
    } else {
      CeilDivLe(a, q + 1, d);
      LeCeilDiv(a, q + 1, d);
    }
  }

  lemma CeilDivNat(a: nat, d: int)
    requires d > 0
    ensures CeilDiv(a, d) >= 0
  {
    LeCeilDiv(a, 0, d);
  }

  lemma BelowCeilDiv(a: int, q: int, d: int)
    requires d > 0
    ensures d * q < a <==> q < CeilDiv(a, d)
  {
    if d * q < a {
      MulDistributes(d, q, 1);
      LeCeilDiv(a, q + 1, d);
    } else {
      CeilDivLe(a, q, d);
    }
  }

  lemma DivSuper(a: int, b: int, d: int)
    requires d > 0
    ensures a / d + b / d <= (a + b) / d
    ensures CeilDiv(a, d) + b / d <= CeilDiv(a + b, d)
  {
    MulDistributes(d, a / d, b / d);
    LeDiv(a / d + b / d, a + b, d);
    CeilDivBounds(a, d);
    MulDistributes(d, CeilDiv(a, d), b / d);
    LeCeilDiv(a + b, CeilDiv(a, d) + b / d, d);
  }
}
