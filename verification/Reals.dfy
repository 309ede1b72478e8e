// Facts about real arithmetic that several models share.
module Reals {

  function Power(f: real, n: nat): real { if n == 0 then 1.0 else f * Power(f, n - 1) }

  // Scaling by a non-negative factor keeps order.
  lemma Scaled(k: real, a: real, b: real)
    requires k >= 0.0 && a <= b
    ensures k * a <= k * b && a * k <= b * k
  {
    assert k * (b - a) >= 0.0;
    assert k * (b - a) == k * b - k * a;
    assert a * k == k * a && b * k == k * b;
  }
}
