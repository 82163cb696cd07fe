/** Points, segments and rounding shared by the area partitioners. */
module Geometry {

  datatype Point = Point(x: real, y: real)

  /** A directed segment; the source's two-point line strings. */
  datatype Segment = Segment(a: Point, b: Point)

  function Sq(x: real): real { x * x }

  function Minus(p: Point, q: Point): Point {
    Point(p.x - q.x, p.y - q.y)
  }

  function Dot(p: Point, q: Point): real {
    p.x * q.x + p.y * q.y
  }

  function DistSq(p: Point, q: Point): real {
    Dot(Minus(p, q), Minus(p, q))
  }

  /** The point a fraction `t` of the way from `s.a` to `s.b`. */
  function At(s: Segment, t: real): Point {
    Point(s.a.x + t * (s.b.x - s.a.x), s.a.y + t * (s.b.y - s.a.y))
  }

  /** `At(s, t)` is the foot of the perpendicular from `p`, strictly inside `s`. */
  ghost predicate FootInside(s: Segment, p: Point, t: real) {
    0.0 < t < 1.0 && Dot(Minus(p, At(s, t)), Minus(s.b, s.a)) == 0.0
  }

  // ----- rounding -----

  /** Python's `round` to an integer: nearest, ties to even. */
  function RoundHalfEven(x: real): int {
    var f := x.Floor;
    var d := x - f as real;
    if d < 0.5 then f
    else if d > 0.5 then f + 1
    else if f % 2 == 0 then f
    else f + 1
  }

  /** `n` is nearest to `x`; of two integers equally near, the even one. */
  ghost predicate IsNearest(x: real, n: int) {
    -0.5 <= n as real - x <= 0.5 && (n as real - x == 0.5 || n as real - x == -0.5 ==> n % 2 == 0)
  }

  lemma RoundIsNearest(x: real, n: int)
    ensures n == RoundHalfEven(x) <==> IsNearest(x, n)
  {
    var f := x.Floor;
    assert IsNearest(x, n) ==> n == f || n == f + 1;
  }

  function Pow10(n: nat): (k: int)
    ensures k >= 1
  {
    if n == 0 then 1 else 10 * Pow10(n - 1)
  }

  function RoundXY(p: Point, decimals: nat): Point {
    var k := Pow10(decimals) as real;
    Point(RoundHalfEven(p.x * k) as real / k, RoundHalfEven(p.y * k) as real / k)
  }

  /** `w` is a whole number of thousandths, the one nearest to `v`, and so at most
      0.0005 away. */
  ghost predicate NearestThousandth(w: real, v: real) {
    && (w * 1000.0).Floor as real == w * 1000.0 && IsNearest(v * 1000.0, (w * 1000.0).Floor)
    && -0.0005 <= w - v <= 0.0005
  }

  lemma ThousandthIsNearest(v: real, n: int)
    requires n == RoundHalfEven(v * 1000.0)
    ensures NearestThousandth(n as real / 1000.0, v)
  {
    var w := n as real / 1000.0;
    assert w * 1000.0 == n as real;
    RoundIsNearest(v * 1000.0, n);
  }

  lemma NearestThousandthIsUnique(w: real, v: real)
    requires NearestThousandth(w, v)
    ensures w == RoundHalfEven(v * 1000.0) as real / 1000.0
  {
    RoundIsNearest(v * 1000.0, (w * 1000.0).Floor);
  }

  /** `q` is `p` rounded to three places. */
  ghost predicate Near(q: Point, p: Point) {
    NearestThousandth(q.x, p.x) && NearestThousandth(q.y, p.y)
  }

  lemma ThreePlaces(p: Point)
    ensures RoundXY(p, 3)
         == Point(RoundHalfEven(p.x * 1000.0) as real / 1000.0, RoundHalfEven(p.y * 1000.0) as real / 1000.0)
  {
    assert Pow10(1) == 10 && Pow10(2) == 100 && Pow10(3) == 1000;
  }

  /** Rounding to three places gives the nearest thousandths, ties to even, and nothing
      else is that. */
  lemma RoundXYClose(p: Point)
    ensures forall q :: Near(q, p) <==> q == RoundXY(p, 3)
  {
    ThreePlaces(p);
    ThousandthIsNearest(p.x, RoundHalfEven(p.x * 1000.0));
    ThousandthIsNearest(p.y, RoundHalfEven(p.y * 1000.0));
    forall q | Near(q, p) ensures q == RoundXY(p, 3) {
      NearestThousandthIsUnique(q.x, p.x);
      NearestThousandthIsUnique(q.y, p.y);
    }
  }
}
