/** Parallel transect lines laid over a bounding box at any angle. The angle is
    given by its cosine `c` and sine `s`. */
module Transects {
  import opened Geometry
  import opened RealArithmetic

  datatype Box = Box(minX: real, minY: real, maxX: real, maxY: real) {
    ghost predicate Valid() { minX <= maxX && minY <= maxY }
    ghost predicate Contains(p: Point) { minX <= p.x <= maxX && minY <= p.y <= maxY }
    function Width(): real { maxX - minX }
    function Height(): real { maxY - minY }
    function MaxLen(): real { (if Width() >= Height() then Width() else Height()) + 100.0 }
    function Center(): Point { Point((minX + maxX) / 2.0, (minY + maxY) / 2.0) }
    function StartX(): real { minX - MaxLen() }
    function EndX(): real { maxX + MaxLen() }
  }

  /** Counter-clockwise rotation about `o` by the angle with cosine `c` and sine `s`. */
  function Rotate(p: Point, o: Point, c: real, s: real): Point {
    var d := Minus(p, o);
    Point(o.x + c * d.x - s * d.y, o.y + s * d.x + c * d.y)
  }

  function RotateSegment(v: Segment, o: Point, c: real, s: real): Segment {
    Segment(Rotate(v.a, o, c, s), Rotate(v.b, o, c, s))
  }

  function VerticalAt(box: Box, x: real): Segment {
    Segment(Point(x, box.minY - box.MaxLen()), Point(x, box.maxY + box.MaxLen()))
  }

  /** The abscissa of the `k`-th vertical before rotation. */
  function TransectX(box: Box, spacing: real, k: nat): real {
    box.StartX() + k as real * spacing
  }

  function TransectAt(box: Box, spacing: real, c: real, s: real, k: nat): Segment {
    RotateSegment(VerticalAt(box, TransectX(box, spacing, k)), box.Center(), c, s)
  }

  /** How many verticals fit: the last one at or before `EndX`. */
  function TransectCount(box: Box, spacing: real): (n: nat)
    requires box.Valid() && spacing > 0.0
    ensures n >= 1
    ensures TransectX(box, spacing, n - 1) <= box.EndX() < TransectX(box, spacing, n)
  {
    var q := (box.EndX() - box.StartX()) / spacing;
    FloorOfQuotient(box.EndX() - box.StartX(), spacing);
    q.Floor + 1
  }

  function Transects(box: Box, spacing: real, c: real, s: real): seq<Segment>
    requires box.Valid() && spacing > 0.0
  {
    seq(TransectCount(box, spacing), k requires 0 <= k => TransectAt(box, spacing, c, s, k))
  }

  lemma StepsPast(box: Box, spacing: real, n: nat, m: nat)
    requires spacing > 0.0 && n <= m
    ensures TransectX(box, spacing, n) <= TransectX(box, spacing, m)
  {
    MulMonotone(n as real, m as real, spacing);
  }

  /** The two loops of the source: lay verticals left to right, then rotate each. */
  method RotatedInfiniteTransects(box: Box, spacing: real, c: real, s: real) returns (lines: seq<Segment>)
    requires box.Valid() && spacing > 0.0
    ensures lines == Transects(box, spacing, c, s)
  {
    var x := box.StartX();
    var verticals: seq<Segment> := [];
    ghost var n := TransectCount(box, spacing);
    while x <= box.EndX()
      invariant |verticals| <= n
      invariant x == TransectX(box, spacing, |verticals|)
      invariant forall k :: 0 <= k < |verticals| ==> verticals[k] == VerticalAt(box, TransectX(box, spacing, k))
      decreases n - |verticals|
    {
      if |verticals| == n {
        assert false;
      }
      verticals := verticals + [VerticalAt(box, x)];
      x := x + spacing;
    }
    if |verticals| < n {
      StepsPast(box, spacing, |verticals|, n - 1);
      assert false;
    }
    lines := [];
    for i := 0 to |verticals|
      invariant |lines| == i
      invariant forall k :: 0 <= k < i ==> lines[k] == TransectAt(box, spacing, c, s, k)
    {
      lines := lines + [RotateSegment(verticals[i], box.Center(), c, s)];
    }
  }

  // ----- coverage -----

  /** Undoing the rotation takes a point of the box to one well inside the grid. */
  lemma UnrotatedStaysClose(box: Box, c: real, s: real, p: Point) returns (q: Point)
    requires box.Valid() && box.Contains(p) && c * c + s * s == 1.0
    ensures Rotate(q, box.Center(), c, s) == p
    ensures box.Center().x - (box.MaxLen() - 100.0) <= q.x <= box.Center().x + (box.MaxLen() - 100.0)
    ensures box.Center().y - (box.MaxLen() - 100.0) <= q.y <= box.Center().y + (box.MaxLen() - 100.0)
  {
    var o := box.Center();
    var r := (box.MaxLen() - 100.0) / 2.0;
    q := Rotate(p, o, c, -s);
    RotateBack(p, o, c, s);
    RotateBounded(p, o, c, -s, r);
  }

  lemma RotateBounded(p: Point, o: Point, c: real, s: real, r: real)
    requires c * c + s * s == 1.0
    requires -r <= p.x - o.x <= r && -r <= p.y - o.y <= r
    ensures -2.0 * r <= Rotate(p, o, c, s).x - o.x <= 2.0 * r
    ensures -2.0 * r <= Rotate(p, o, c, s).y - o.y <= 2.0 * r
  {
    TurnBounded(c, s, p.x - o.x, p.y - o.y, r);
  }

  lemma TurnBounded(c: real, s: real, x: real, y: real, r: real)
    requires c * c + s * s == 1.0
    requires -r <= x <= r && -r <= y <= r
    ensures -2.0 * r <= c * x - s * y <= 2.0 * r
    ensures -2.0 * r <= s * x + c * y <= 2.0 * r
  {
    UnitBounded(c, s);
    UnitBounded(s, c);
    ProductBounded(c, x, r);
    ProductBounded(s, y, r);
    ProductBounded(s, x, r);
    ProductBounded(c, y, r);
  }

  lemma UnitBounded(c: real, s: real)
    requires c * c + s * s == 1.0
    ensures -1.0 <= c <= 1.0
  {
    assert s * s >= 0.0;
    assert c > 1.0 ==> c * c > 1.0;
    assert c < -1.0 ==> c * c > 1.0;
  }

  lemma ProductBounded(u: real, v: real, r: real)
    requires -1.0 <= u <= 1.0 && -r <= v <= r
    ensures -r <= u * v <= r
  {
    ProductNonNegative(1.0 - u, r - v, (1.0 - u) * (r - v));
    ProductNonNegative(1.0 + u, r + v, (1.0 + u) * (r + v));
    ProductNonNegative(1.0 - u, r + v, (1.0 - u) * (r + v));
    ProductNonNegative(1.0 + u, r - v, (1.0 + u) * (r - v));
    assert (1.0 - u) * (r - v) + (1.0 + u) * (r + v) == 2.0 * r + 2.0 * (u * v);
    assert (1.0 - u) * (r + v) + (1.0 + u) * (r - v) == 2.0 * r - 2.0 * (u * v);
  }

  /** The algebra behind rotating back: the two mixed terms cancel. */
  lemma UnitCancels(c: real, s: real, x: real, y: real)
    requires c * c + s * s == 1.0
    ensures c * (c * x + s * y) - s * (c * y - s * x) == x
    ensures s * (c * x + s * y) + c * (c * y - s * x) == y
  {
    assert c * (c * x + s * y) - s * (c * y - s * x) == (c * c + s * s) * x;
    assert s * (c * x + s * y) + c * (c * y - s * x) == (c * c + s * s) * y;
  }

  lemma RotateBack(p: Point, o: Point, c: real, s: real)
    requires c * c + s * s == 1.0
    ensures Rotate(Rotate(p, o, c, -s), o, c, s) == p
  {
    var d := Minus(p, o);
    var e := Minus(Rotate(p, o, c, -s), o);
    assert -s * d.x + c * d.y == c * d.y - s * d.x;
    assert e == Point(c * d.x + s * d.y, c * d.y - s * d.x);
    UnitCancels(c, s, d.x, d.y);
  }

  /** A rotated point in coordinates relative to the centre. */
  lemma RotatedPoint(p: Point, o: Point, c: real, s: real, d: real, y: real)
    requires d == p.x - o.x && y == p.y - o.y
    ensures Rotate(p, o, c, s) == Point(o.x + c * d - s * y, o.y + s * d + c * y)
  {
    var m := Minus(p, o);
    assert m == Point(d, y);
    assert Rotate(p, o, c, s) == Point(o.x + c * m.x - s * m.y, o.y + s * m.x + c * m.y);
  }

  /** Rotating commutes with taking a point of a vertical segment. */
  lemma RotatedAt(v: Segment, o: Point, c: real, s: real, t: real)
    requires v.a.x == v.b.x
    ensures At(RotateSegment(v, o, c, s), t) == Rotate(At(v, t), o, c, s)
  {
    var d, y, z := v.a.x - o.x, v.a.y - o.y, v.b.y - o.y;
    var f := y + t * (z - y);
    RotatedPoint(v.a, o, c, s, d, y);
    RotatedPoint(v.b, o, c, s, d, z);
    HeightOf(v, t, o.y, y, z, f);
    RotatedPoint(At(v, t), o, c, s, d, f);
    RotatedHeight(o, c, s, d, y, z, f, t);
  }

  lemma HeightOf(v: Segment, t: real, o: real, y: real, z: real, f: real)
    requires v.a.x == v.b.x && y == v.a.y - o && z == v.b.y - o && f == y + t * (z - y)
    ensures At(v, t) == Point(v.a.x, f + o)
  {
    LevelWith(v, t, f + o);
  }

  /** The same in coordinates relative to the centre of the rotation. */
  lemma RotatedHeight(o: Point, c: real, s: real, d: real, y: real, z: real, f: real, t: real)
    requires f == y + t * (z - y)
    ensures At(Segment(Point(o.x + c * d - s * y, o.y + s * d + c * y),
            Point(o.x + c * d - s * z, o.y + s * d + c * z)), t)
         == Point(o.x + c * d - s * f, o.y + s * d + c * f)
  {
    LinearInHeight(o.x + c * d, -s, y, z, t, f);
    LinearInHeight(o.y + s * d, c, y, z, t, f);
  }

  /** A linear function of the height interpolates. */
  lemma LinearInHeight(u: real, w: real, y: real, z: real, t: real, f: real)
    requires f == y + t * (z - y)
    ensures (u + w * y) + t * ((u + w * z) - (u + w * y)) == u + w * f
  {
    assert t * (w * z - w * y) == w * (t * (z - y));
  }

  /** Rotation keeps a horizontal offset square to a vertical, and keeps its length. */
  lemma OffsetIsSquare(c: real, s: real, e: real, len: real)
    requires c * c + s * s == 1.0
    ensures (c * e) * (-(s * len)) + (s * e) * (c * len) == 0.0
    ensures (c * e) * (c * e) + (s * e) * (s * e) == e * e
  {
    assert (c * e) * (s * len) == (s * e) * (c * len);
    assert (c * e) * (c * e) + (s * e) * (s * e) == (c * c + s * s) * (e * e);
  }

  /** The fraction of the way up a vertical at which height `y` is met. */
  lemma HeightFraction(y: real, lo: real, hi: real) returns (t: real)
    requires lo < y < hi
    ensures 0.0 < t < 1.0 && lo + t * (hi - lo) == y
  {
    t := (y - lo) / (hi - lo);
    assert t * (hi - lo) == y - lo;
    assert t >= 1.0 ==> t * (hi - lo) >= hi - lo;
    assert t <= 0.0 ==> t * (hi - lo) <= 0.0;
  }

  /** Seen from the unrotated point `q`, the foot on the rotated vertical at `x`
      is level with `q`, and the distance is the difference in abscissa. */
  lemma FootOnTransect(v: Segment, o: Point, c: real, s: real, q: Point) returns (t: real)
    requires c * c + s * s == 1.0
    requires v.a.x == v.b.x && v.a.y < q.y < v.b.y
    ensures FootInside(RotateSegment(v, o, c, s), Rotate(q, o, c, s), t)
    ensures DistSq(Rotate(q, o, c, s), At(RotateSegment(v, o, c, s), t)) == Sq(q.x - v.a.x)
  {
    t := HeightFraction(q.y, v.a.y, v.b.y);
    RotatedAt(v, o, c, s, t);
    LevelWith(v, t, q.y);
    LevelOffset(v, o, c, s, q);
  }

  lemma LevelWith(v: Segment, t: real, y: real)
    requires v.a.x == v.b.x && v.a.y + t * (v.b.y - v.a.y) == y
    ensures At(v, t) == Point(v.a.x, y)
  {
    assert t * (v.b.x - v.a.x) == 0.0;
  }

  lemma LevelOffset(v: Segment, o: Point, c: real, s: real, q: Point)
    requires c * c + s * s == 1.0 && v.a.x == v.b.x
    ensures Dot(Minus(Rotate(q, o, c, s), Rotate(Point(v.a.x, q.y), o, c, s)),
            Minus(Rotate(v.b, o, c, s), Rotate(v.a, o, c, s))) == 0.0
    ensures DistSq(Rotate(q, o, c, s), Rotate(Point(v.a.x, q.y), o, c, s)) == Sq(q.x - v.a.x)
  {
    var e, len := q.x - v.a.x, v.b.y - v.a.y;
    AcrossRotated(q, Point(v.a.x, q.y), o, c, s, e);
    AlongRotated(v.b, v.a, o, c, s, len);
    SquareOffset(Rotate(q, o, c, s), Rotate(Point(v.a.x, q.y), o, c, s), Rotate(v.b, o, c, s), Rotate(v.a, o, c, s),
      c, s, e, len);
  }

  /** A horizontal offset after the rotation. */
  lemma AcrossRotated(p: Point, q: Point, o: Point, c: real, s: real, e: real)
    requires p.y == q.y && e == p.x - q.x
    ensures Minus(Rotate(p, o, c, s), Rotate(q, o, c, s)) == Point(c * e, s * e)
  {
    OffsetOfRotated(p, q, o, c, s);
  }

  /** A vertical offset after the rotation. */
  lemma AlongRotated(p: Point, q: Point, o: Point, c: real, s: real, len: real)
    requires p.x == q.x && len == p.y - q.y
    ensures Minus(Rotate(p, o, c, s), Rotate(q, o, c, s)) == Point(-(s * len), c * len)
  {
    OffsetOfRotated(p, q, o, c, s);
  }

  lemma SquareOffset(p: Point, foot: Point, b: Point, a: Point, c: real, s: real, e: real, len: real)
    requires c * c + s * s == 1.0
    requires Minus(p, foot) == Point(c * e, s * e) && Minus(b, a) == Point(-(s * len), c * len)
    ensures Dot(Minus(p, foot), Minus(b, a)) == 0.0
    ensures DistSq(p, foot) == Sq(e)
  {
    OffsetIsSquare(c, s, e, len);
  }

  lemma OffsetOfRotated(p: Point, q: Point, o: Point, c: real, s: real)
    ensures var d := Minus(p, q);
            Minus(Rotate(p, o, c, s), Rotate(q, o, c, s)) == Point(c * d.x - s * d.y, s * d.x + c * d.y)
  {}

  /** The unrotated point lies between two consecutive abscissas, the left one of
      which carries a transect; so does the right one if it is needed. */
  lemma Bracket(box: Box, spacing: real, x: real) returns (k: nat)
    requires box.Valid() && spacing > 0.0
    requires box.Center().x - (box.MaxLen() - 100.0) <= x <= box.Center().x + (box.MaxLen() - 100.0)
    ensures k < TransectCount(box, spacing)
    ensures TransectX(box, spacing, k) <= x < TransectX(box, spacing, k) + spacing
    ensures spacing <= 200.0 + box.Width() && x - TransectX(box, spacing, k) > spacing / 2.0 ==>
      k + 1 < TransectCount(box, spacing)
  {
    var n := TransectCount(box, spacing);
    var d := x - box.StartX();
    FloorOfQuotient(d, spacing);
    k := (d / spacing).Floor;
    assert TransectX(box, spacing, k + 1) == TransectX(box, spacing, k) + spacing;
    if k >= n {
      StepsPast(box, spacing, n, k);
    }
    assert box.EndX() - x >= 100.0 + box.Width() / 2.0;
    if n <= k + 1 {
      StepsPast(box, spacing, n, k + 1);
    }
  }

  lemma SquareMonotone(x: real, y: real)
    requires -y <= x <= y
    ensures Sq(x) <= Sq(y)
    ensures -y < x < y ==> Sq(x) < Sq(y)
  {
    assert (y - x) * (y + x) == Sq(y) - Sq(x);
  }

  /** `p` is reached by transect `k`, square to it, from a point inside it. */
  ghost predicate ReachedBy(lines: seq<Segment>, k: nat, p: Point, t: real) {
    k < |lines| && FootInside(lines[k], p, t)
  }

  lemma TransectReaches(box: Box, spacing: real, c: real, s: real, q: Point, k: nat) returns (t: real)
    requires box.Valid() && spacing > 0.0 && c * c + s * s == 1.0
    requires k < TransectCount(box, spacing)
    requires box.Center().y - (box.MaxLen() - 100.0) <= q.y <= box.Center().y + (box.MaxLen() - 100.0)
    ensures var lines := Transects(box, spacing, c, s);
            var p := Rotate(q, box.Center(), c, s);
            ReachedBy(lines, k, p, t) && DistSq(p, At(lines[k], t)) == Sq(q.x - TransectX(box, spacing, k))
  {
    t := FootOnTransect(VerticalAt(box, TransectX(box, spacing, k)), box.Center(), c, s, q);
  }

  // ----- where the transects lie -----

  lemma DirectionAt(box: Box, x: real, c: real, s: real, len: real)
    requires len == box.maxY - box.minY + 2.0 * box.MaxLen()
    ensures var l := RotateSegment(VerticalAt(box, x), box.Center(), c, s);
            Minus(l.b, l.a) == Point(-(s * len), c * len)
  {
    var v := VerticalAt(box, x);
    AlongRotated(v.b, v.a, box.Center(), c, s, len);
  }

  lemma StepAt(box: Box, x: real, y: real, c: real, s: real, spacing: real)
    requires y == x + spacing
    ensures Minus(RotateSegment(VerticalAt(box, y), box.Center(), c, s).a,
                  RotateSegment(VerticalAt(box, x), box.Center(), c, s).a) == Point(c * spacing, s * spacing)
  {
    AcrossRotated(VerticalAt(box, y).a, VerticalAt(box, x).a, box.Center(), c, s, spacing);
  }

  /** The transects run in the direction of the turned ordinate and are equally long. */
  lemma TransectsAreParallel(box: Box, spacing: real, c: real, s: real, k: nat, len: real)
    requires box.Valid() && spacing > 0.0 && k < |Transects(box, spacing, c, s)|
    requires len == box.maxY - box.minY + 2.0 * Margin(box)
    ensures var l := Transects(box, spacing, c, s)[k]; Minus(l.b, l.a) == Point(-(s * len), c * len)
  {
    assert Margin(box) == box.MaxLen();
    DirectionAt(box, TransectX(box, spacing, k), c, s, len);
  }

  /** Each is one spacing further along the turned abscissa. */
  lemma TransectsAreSpaced(box: Box, spacing: real, c: real, s: real, k: nat)
    requires box.Valid() && spacing > 0.0 && k + 1 < |Transects(box, spacing, c, s)|
    ensures var lines := Transects(box, spacing, c, s);
            Minus(lines[k + 1].a, lines[k].a) == Point(c * spacing, s * spacing)
  {
    NextTransectX(box, spacing, k);
    StepAt(box, TransectX(box, spacing, k), TransectX(box, spacing, k + 1), c, s, spacing);
  }

  lemma NextTransectX(box: Box, spacing: real, k: nat)
    ensures TransectX(box, spacing, k + 1) == TransectX(box, spacing, k) + spacing
  {}

  /** How far the lines reach past the box before they are turned. */
  ghost function Margin(box: Box): real {
    100.0 + if box.maxX - box.minX >= box.maxY - box.minY then box.maxX - box.minX else box.maxY - box.minY
  }

  /** Without a turn the first line is at the left end of the range. */
  lemma FirstTransectUnturned(box: Box, spacing: real)
    requires box.Valid() && spacing > 0.0
    ensures var m, first := Margin(box), Transects(box, spacing, 1.0, 0.0)[0];
            first == Segment(Point(box.minX - m, box.minY - m), Point(box.minX - m, box.maxY + m))
  {
    var v := VerticalAt(box, box.minX - Margin(box));
    NoTurn(v.a, box.Center());
    NoTurn(v.b, box.Center());
  }

  /** And the last line is the last to fit before the right end of the range. */
  lemma TransectsFillTheRange(box: Box, spacing: real, c: real, s: real)
    requires box.Valid() && spacing > 0.0
    ensures var m, n := Margin(box), |Transects(box, spacing, c, s)|;
            && n >= 1
            && box.minX - m + (n - 1) as real * spacing <= box.maxX + m < box.minX - m + n as real * spacing
  {
    assert Margin(box) == box.MaxLen();
  }

  lemma NoTurn(p: Point, o: Point)
    ensures Rotate(p, o, 1.0, 0.0) == p
  {}

  /** The turn is about the centre of the box. */
  lemma TurnIsAboutTheCenter(box: Box, spacing: real, c: real, s: real, k: nat)
    requires box.Valid() && spacing > 0.0 && c * c + s * s == 1.0 && k < |Transects(box, spacing, c, s)|
    ensures var o := Point((box.minX + box.maxX) / 2.0, (box.minY + box.maxY) / 2.0);
            var turned, plain := Transects(box, spacing, c, s)[k], Transects(box, spacing, 1.0, 0.0)[k];
            DistSq(turned.a, o) == DistSq(plain.a, o) && DistSq(turned.b, o) == DistSq(plain.b, o)
  {
    var v := VerticalAt(box, TransectX(box, spacing, k));
    NoTurn(v.a, box.Center());
    NoTurn(v.b, box.Center());
    TurnKeepsDistance(v.a, box.Center(), c, s);
    TurnKeepsDistance(v.b, box.Center(), c, s);
  }

  lemma TurnKeepsDistance(p: Point, o: Point, c: real, s: real)
    requires c * c + s * s == 1.0
    ensures DistSq(Rotate(p, o, c, s), o) == DistSq(p, o)
  {
    var d := Minus(p, o);
    assert Minus(Rotate(p, o, c, s), o) == Point(c * d.x - s * d.y, s * d.x + c * d.y);
    TurnedSquare(c, s, d.x, d.y, d.x * d.x, d.y * d.y);
  }

  lemma TurnedSquare(c: real, s: real, x: real, y: real, xx: real, yy: real)
    requires c * c + s * s == 1.0 && xx == x * x && yy == y * y
    ensures (c * x - s * y) * (c * x - s * y) + (s * x + c * y) * (s * x + c * y) == xx + yy
  {
    assert (c * x - s * y) * (c * x - s * y) + (s * x + c * y) * (s * x + c * y) == (c * c + s * s) * (xx + yy);
  }

  /** The closer of the two neighbours, when the spacing is not extreme. */
  lemma Nearest(box: Box, spacing: real, x: real) returns (k: nat)
    requires box.Valid() && 0.0 < spacing <= 200.0 + box.Width()
    requires box.Center().x - (box.MaxLen() - 100.0) <= x <= box.Center().x + (box.MaxLen() - 100.0)
    ensures k < TransectCount(box, spacing)
    ensures -(spacing / 2.0) <= x - TransectX(box, spacing, k) <= spacing / 2.0
  {
    k := Bracket(box, spacing, x);
    assert TransectX(box, spacing, k + 1) == TransectX(box, spacing, k) + spacing;
    if x - TransectX(box, spacing, k) > spacing / 2.0 {
      k := k + 1;
    }
  }

  /** Main result: every point of the box is closer than `spacing` to some
      transect, measured to a point strictly inside that finite line. */
  lemma BoxIsCovered(box: Box, spacing: real, c: real, s: real, p: Point)
    requires box.Valid() && box.Contains(p) && spacing > 0.0 && c * c + s * s == 1.0
    ensures var lines := Transects(box, spacing, c, s);
            exists k: nat, t: real :: ReachedBy(lines, k, p, t) && DistSq(p, At(lines[k], t)) < Sq(spacing)
  {
    var q := UnrotatedStaysClose(box, c, s, p);
    var k := Bracket(box, spacing, q.x);
    var t := TransectReaches(box, spacing, c, s, q, k);
    SquareMonotone(q.x - TransectX(box, spacing, k), spacing);
  }

  /** Main result: up to a spacing of 200 plus the width of the box (so in
      particular up to 100), half the spacing is enough. */
  lemma BoxIsCoveredTightly(box: Box, spacing: real, c: real, s: real, p: Point)
    requires box.Valid() && box.Contains(p) && c * c + s * s == 1.0
    requires 0.0 < spacing <= 200.0 + box.Width()
    ensures var lines := Transects(box, spacing, c, s);
            exists k: nat, t: real :: ReachedBy(lines, k, p, t) && DistSq(p, At(lines[k], t)) <= Sq(spacing / 2.0)
  {
    var q := UnrotatedStaysClose(box, c, s, p);
    var k := Nearest(box, spacing, q.x);
    var t := TransectReaches(box, spacing, c, s, q, k);
    SquareMonotone(q.x - TransectX(box, spacing, k), spacing / 2.0);
  }
}
