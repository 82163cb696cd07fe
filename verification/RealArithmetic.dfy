/** Small facts about products and quotients of reals. Products are passed by
    name so that the solver treats them as plain numbers. */
module RealArithmetic {

  lemma ProductPositive(x: real, y: real, q: real)
    requires q == x * y
    requires (x > 0.0 && y > 0.0) || (x < 0.0 && y < 0.0)
    ensures q > 0.0
  {}

  lemma ProductNonNegative(x: real, y: real, q: real)
    requires q == x * y && x >= 0.0 && y >= 0.0
    ensures q >= 0.0
  {}

  lemma SquareSign(x: real, q: real)
    requires q == x * x
    ensures if x == 0.0 then q == 0.0 else q > 0.0
  {
    if x != 0.0 {
      ProductPositive(x, x, q);
    }
  }

  lemma Distribute(x: real, y: real, w: real)
    ensures (y - x) * w == y * w - x * w
    ensures (y + x) * w == y * w + x * w
  {}

  lemma MulMonotone(x: real, y: real, w: real)
    requires x <= y && w >= 0.0
    ensures x * w <= y * w
  {
    Distribute(x, y, w);
    ProductNonNegative(y - x, w, (y - x) * w);
  }

  lemma MulStrict(x: real, y: real, w: real)
    requires x < y && w > 0.0
    ensures x * w < y * w
  {
    Distribute(x, y, w);
    ProductPositive(y - x, w, (y - x) * w);
  }

  lemma SquareBelow(x: real, w: real, xx: real, ww: real)
    requires 0.0 <= x < w && xx == x * x && ww == w * w
    ensures xx < ww
  {
    ProductPositive(w - x, w + x, ww - xx);
  }

  /** A common positive factor cancels, in equations and in comparisons. */
  lemma CancelPositive(x: real, y: real, w: real)
    requires w > 0.0
    ensures x * w == y * w ==> x == y
    ensures x * w < y * w ==> x < y
    ensures x * w <= y * w ==> x <= y
  {
    if x < y { MulStrict(x, y, w); }
    if y < x { MulStrict(y, x, w); }
  }

  lemma CancelFactor(t: real, q: real, n: real)
    requires q != 0.0 && n == t * q
    ensures n / q == t
  {}

  lemma Quotient(d: real, w: real) returns (q: real)
    requires w > 0.0
    ensures q == d / w && q * w == d
  {
    q := d / w;
  }

  lemma FloorTimes(q: real, w: real, d: real)
    requires w > 0.0 && q * w == d
    ensures q.Floor as real * w <= d < (q.Floor + 1) as real * w
  {
    var lo, hi := q.Floor as real, (q.Floor + 1) as real;
    assert lo <= q < hi;
    MulMonotone(lo, q, w);
    MulStrict(q, hi, w);
    assert d < hi * w;
  }

  /** A quotient against zero and one, through the product it comes from. */
  lemma QuotientSigns(q: real, w: real, d: real)
    requires w > 0.0 && q * w == d
    ensures d >= 0.0 ==> q >= 0.0
    ensures d >= w <==> q >= 1.0
  {
    if q < 0.0 { MulStrict(q, 0.0, w); }
    if q < 1.0 { MulStrict(q, 1.0, w); } else { MulMonotone(1.0, q, w); }
  }

  lemma FloorSigns(q: real)
    ensures q >= 0.0 ==> q.Floor >= 0
    ensures q >= 1.0 <==> q.Floor >= 1
  {}

  /** Floor division of a non-negative length by a positive step. */
  lemma FloorOfQuotient(d: real, w: real)
    requires d >= 0.0 && w > 0.0
    ensures (d / w).Floor >= 0
    ensures (d / w).Floor as real * w <= d < ((d / w).Floor + 1) as real * w
    ensures d >= w <==> (d / w).Floor >= 1
  {
    var q := Quotient(d, w);
    QuotientSigns(q, w, d);
    FloorSigns(q);
    FloorTimes(q, w, d);
  }

  lemma FractionBounds(t: real, len: real)
    requires 0.0 <= t <= 1.0 && len >= 0.0
    ensures 0.0 <= t * len <= len
  {
    MulMonotone(0.0, t, len);
    MulMonotone(t, 1.0, len);
  }
}
