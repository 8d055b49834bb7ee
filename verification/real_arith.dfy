/** Small facts about real multiplication and division that the solver does
    not find on its own inside larger proofs. */
module RealArith {

  lemma MulNonneg(a: real, b: real)
    requires a >= 0.0 && b >= 0.0
    ensures a * b >= 0.0
  {
  }

  lemma MulPos(a: real, b: real)
    requires a > 0.0 && b > 0.0
    ensures a * b > 0.0
  {
  }

  lemma MulLeMono(a: real, b: real, c: real)
    requires a <= b && c >= 0.0
    ensures a * c <= b * c
  {
    MulNonneg(b - a, c);
  }

  lemma MulLtMono(a: real, b: real, c: real)
    requires a < b && c > 0.0
    ensures a * c < b * c
  {
    MulPos(b - a, c);
  }

  lemma MulLeMonoLeft(c: real, a: real, b: real)
    requires a <= b && c >= 0.0
    ensures c * a <= c * b
  {
    MulNonneg(c, b - a);
    assert c * (b - a) == c * b - c * a;
  }

  /** `(1 / w) * w == 1` for positive `w`. */
  lemma InverseCancels(w: real)
    requires w > 0.0
    ensures 1.0 / w > 0.0 && (1.0 / w) * w == 1.0
  {
  }

  lemma MulLeOne(a: real, b: real)
    requires a <= 1.0 && b >= 0.0
    ensures a * b <= b && b * a <= b
  {
    MulNonneg(1.0 - a, b);
    assert (1.0 - a) * b == b - a * b;
  }

  lemma MulLtOne(q: real, w: real)
    requires q < 1.0 && w > 0.0
    ensures q * w < w
  {
    MulPos(1.0 - q, w);
    assert (1.0 - q) * w == w - q * w;
  }

  lemma Cancel(a: real, b: real, c: real)
    requires c != 0.0 && a * c == b * c
    ensures a == b
  {
    assert (a - b) * c == 0.0;
  }

  lemma DivLeMono(a: real, b: real, w: real)
    requires a <= b && w > 0.0
    ensures a / w <= b / w
  {
    var qa, qb := a / w, b / w;
    assert qa * w == a && qb * w == b;
    if qa > qb {
      MulLtMono(qb, qa, w);
    }
  }

  /** Sign facts about a quotient `n / w`, used for the clamping branches of
      `smoothstep`. */
  lemma QuotientBounds(n: real, w: real)
    requires w != 0.0
    ensures w > 0.0 && n <= 0.0 ==> n / w <= 0.0
    ensures w > 0.0 && n >= w ==> n / w >= 1.0
    ensures w < 0.0 && n >= 0.0 ==> n / w <= 0.0
    ensures w < 0.0 && n <= w ==> n / w >= 1.0
  {
    var q := n / w;
    assert q * w == n;
    if w > 0.0 {
      if q > 0.0 {
        MulPos(q, w);
      }
      if q < 1.0 {
        MulLtOne(q, w);
      }
    } else {
      var v := -w;
      assert q * v == -n;
      if q > 0.0 {
        MulPos(q, v);
      }
      if q < 1.0 {
        MulLtOne(q, v);
      }
    }
  }

  lemma ReflectCore(a: real, b: real, u: real, n: real)
    requires u != 0.0 && a * u == n - u && b * u == n
    ensures a == b - 1.0
  {
    assert (b - 1.0) * u == b * u - u;
    Cancel(a, b - 1.0, u);
  }

  lemma NegQuotient(n: real, w: real)
    requires w != 0.0
    ensures (n - w) / (-w) == -((n - w) / w)
  {
  }

  /** Measuring `x` from the other edge reflects the position: the fraction of
      the way from `e1` to `e0` is one minus the fraction from `e0` to `e1`. */
  lemma QuotientReflect(x: real, e0: real, e1: real)
    requires e0 != e1
    ensures (x - e1) / (e0 - e1) == 1.0 - (x - e0) / (e1 - e0)
  {
    var a := (x - e1) / (e0 - e1);
    var b := (x - e0) / (e1 - e0);
    NegQuotient(x - e0, e1 - e0);
    ReflectCore(-a, b, e1 - e0, x - e0);
  }
}
