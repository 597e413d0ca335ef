/** Multiples of a positive unit. */
module Multiples {

  predicate IsMultiple(n: int, unit: nat)
    requires unit > 0
  {
    n % unit == 0
  }

  lemma MultipleSign(d: int, unit: nat)
    requires unit > 0
    ensures d >= 1 ==> d * unit >= unit
    ensures d <= -1 ==> d * unit + unit <= 0
  {
    if d >= 1 {
      assert d * unit == unit + (d - 1) * unit;
    }
    if d <= -1 {
      assert d * unit + unit == -((-d - 1) * unit);
    }
  }

  lemma MultipleOrder(a: int, b: int, unit: nat)
    requires unit > 0
    ensures a <= b <==> a * unit <= b * unit
    ensures a < b ==> a * unit + unit <= b * unit
  {
    assert (b - a) * unit == b * unit - a * unit;
    MultipleSign(b - a, unit);
  }

  lemma MultipleMod(q: int, unit: nat)
    requires unit > 0
    ensures (q * unit) % unit == 0 && (q * unit) / unit == q
  {
    var p := (q * unit) / unit;
    assert q * unit == p * unit + (q * unit) % unit;
    MultipleOrder(p, q, unit);
    MultipleOrder(q, p, unit);
  }

  lemma MultipleSum(n: int, m: int, unit: nat)
    requires unit > 0 && n % unit == 0 && m % unit == 0
    ensures (n - m) % unit == 0 && (n + m) % unit == 0
  {
    var a, b := n / unit, m / unit;
    assert n - m == (a - b) * unit && n + m == (a + b) * unit;
    MultipleMod(a - b, unit);
    MultipleMod(a + b, unit);
  }

  /** Between two neighbouring multiples there is no third. */
  lemma MultipleStep(n: int, m: int, unit: nat)
    requires unit > 0 && n % unit == 0 && m % unit == 0 && n > m - unit
    ensures n >= m
  {
    MultipleOrder(n / unit, m / unit, unit);
  }
}
