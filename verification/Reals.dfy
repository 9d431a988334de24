/** Products of reals behind a name, so that the solver compares them as terms, and the few
    facts about them that the scoring proofs lean on. */
module Reals {

  function Times(x: real, y: real): real { x * y }

  lemma Scale(k: real, x: real, y: real)
    requires k >= 0.0 && x <= y
    ensures Times(k, x) <= Times(k, y)
  {
  }

  lemma ScaleStrictly(k: real, x: real, y: real)
    requires k > 0.0 && x < y
    ensures Times(k, x) < Times(k, y)
  {
  }

  lemma Cancel(k: real, x: real, y: real)
    requires k > 0.0 && Times(k, x) <= Times(k, y)
    ensures x <= y
  {
    if y < x {
      ScaleStrictly(k, y, x);
    }
  }

  lemma CancelStrictly(k: real, x: real, y: real)
    requires k > 0.0 && Times(k, x) < Times(k, y)
    ensures x < y
  {
    if y <= x {
      Scale(k, y, x);
    }
  }

  lemma CancelRight(k: real, x: real, y: real)
    requires k > 0.0 && Times(x, k) < Times(y, k)
    ensures x < y
  {
    Reorder(k, x, 0.0);
    Reorder(k, y, 0.0);
    CancelStrictly(k, x, y);
  }

  lemma QuotientTimes(s: real, n: real)
    requires n > 0.0
    ensures Times(s / n, n) == s
  {
  }

  lemma SquareNonNegative(x: real)
    ensures Times(x, x) >= 0.0
  {
  }

  lemma Distribute(x: real, u: real, w: real)
    ensures Times(x, u + w) == Times(x, u) + Times(x, w)
    ensures Times(u + w, x) == Times(u, x) + Times(w, x)
  {
  }

  lemma Reorder(x: real, y: real, z: real)
    ensures Times(x, y) == Times(y, x)
    ensures Times(x, Times(y, z)) == Times(y, Times(x, z))
  {
  }

  /** The weighted mean of larger values is larger. */
  lemma BlendMonotone(u: real, w: real, x: real, y: real, x': real, y': real)
    requires u >= 0.0 && w >= 0.0 && x <= x' && y <= y'
    ensures Times(u, x) + Times(w, y) <= Times(u, x') + Times(w, y')
  {
    Scale(u, x, x');
    Scale(w, y, y');
  }

  /** A weighted mean of two values lies between any bounds on them. */
  lemma Blend(u: real, w: real, x: real, y: real, lo: real, hi: real)
    requires u >= 0.0 && w >= 0.0 && lo <= x <= hi && lo <= y <= hi
    ensures Times(u + w, lo) <= Times(u, x) + Times(w, y) <= Times(u + w, hi)
  {
    BlendMonotone(u, w, lo, lo, x, y);
    BlendMonotone(u, w, x, y, hi, hi);
    Distribute(lo, u, w);
    Distribute(hi, u, w);
  }

  /** A position between 0 and 1 on an interval stays inside it. */
  lemma Fraction(p: real, width: real)
    requires width >= 0.0 && 0.0 <= p <= 1.0
    ensures 0.0 <= Times(p, width) <= width
  {
    Scale(width, 0.0, p);
    Scale(width, p, 1.0);
  }

  lemma LargerFraction(p: real, q: real, width: real)
    requires width >= 0.0 && p < q
    ensures Times(p, width) <= Times(q, width)
    ensures width > 0.0 ==> Times(p, width) < Times(q, width)
  {
    Scale(width, p, q);
    if width > 0.0 {
      ScaleStrictly(width, p, q);
    }
  }

  lemma InterpolateMonotone(p: real, low: real, high: real, low': real, high': real)
    requires 0.0 <= p <= 1.0 && low <= low' && high <= high'
    ensures low + Times(p, high - low) <= low' + Times(p, high' - low')
  {
    BlendMonotone(1.0 - p, p, low, high, low', high');
  }
}
