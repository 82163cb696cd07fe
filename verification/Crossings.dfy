/** Where a transect line crosses a polygon: the raw crossings are deduplicated,
    sorted along the line and paired into segments. */
module Crossings {
  import opened Geometry
  import opened KeyedLists
  import opened RealArithmetic

  /** Two crossings with the same key count as one. */
  function Key(p: Point): Point {
    RoundXY(p, 6)
  }

  /** The position of `p` along the line, as a multiple of the line's own length. */
  function TParam(line: Segment, p: Point): real {
    var d := Minus(line.b, line.a);
    var denom := if Dot(d, d) == 0.0 then 1.0 else Dot(d, d);
    Dot(Minus(p, line.a), d) / denom
  }

  function Along(line: Segment): Point -> real {
    (p: Point) => TParam(line, p)
  }

  ghost function Crossings(line: Segment, pts: seq<Point>): seq<Point> {
    SortBy(Along(line), FirstsBy(Key, pts))
  }

  /** Deduplicate, then sort. `pts` are the raw crossings. */
  method LinePolygonIntersectionPoints(line: Segment, pts: seq<Point>) returns (out: seq<Point>)
    ensures out == Crossings(line, pts)
  {
    out := KeepFirsts(Key, pts);
    out := SortBy(Along(line), out);
  }

  /** Main result: what comes out is exactly the first point of each rounded
      key, in order along the line. */
  lemma CrossingsAreFirstsInOrder(line: Segment, pts: seq<Point>)
    ensures ExactlyFirsts(Key, pts, Crossings(line, pts))
    ensures SortedBy(Along(line), Crossings(line, pts))
  {
    SortedFirsts(Key, Along(line), pts);
  }

  // ----- what counts as one crossing -----

  /** `n` millionths is nearest to `v`. */
  ghost predicate NearestMillionth(v: real, n: int) {
    IsNearest(v * 1000000.0, n)
  }

  ghost predicate SameMillionth(v: real, w: real) {
    exists n :: NearestMillionth(v, n) && NearestMillionth(w, n)
  }

  lemma SameMillionthIff(v: real, w: real)
    ensures SameMillionth(v, w) <==> RoundHalfEven(v * 1000000.0) == RoundHalfEven(w * 1000000.0)
    ensures SameMillionth(v, w) ==> -0.000001 <= v - w <= 0.000001
  {
    var n := RoundHalfEven(v * 1000000.0);
    RoundIsNearest(v * 1000000.0, n);
    RoundIsNearest(w * 1000000.0, n);
    assert NearestMillionth(v, n);
    if SameMillionth(v, w) {
      var m :| NearestMillionth(v, m) && NearestMillionth(w, m);
      RoundIsNearest(v * 1000000.0, m);
      RoundIsNearest(w * 1000000.0, m);
    }
  }

  lemma SixPlaces(p: Point)
    ensures Key(p)
         == Point(RoundHalfEven(p.x * 1000000.0) as real / 1000000.0,
           RoundHalfEven(p.y * 1000000.0) as real / 1000000.0)
  {
    assert Pow10(1) == 10 && Pow10(2) == 100 && Pow10(3) == 1000;
    assert Pow10(4) == 10000 && Pow10(5) == 100000 && Pow10(6) == 1000000;
  }

  ghost predicate Close(p: Point, q: Point) {
    -0.000001 <= p.x - q.x <= 0.000001 && -0.000001 <= p.y - q.y <= 0.000001
  }

  /** Two crossings count as one if and only if both coordinates have the same nearest
      millionth, and then they are at most 0.000001 apart in each. */
  lemma SameKeyIff(p: Point, q: Point)
    ensures Key(p) == Key(q) <==> SameMillionth(p.x, q.x) && SameMillionth(p.y, q.y)
    ensures Key(p) == Key(q) ==> Close(p, q)
  {
    SixPlaces(p);
    SixPlaces(q);
    SameMillionthIff(p.x, q.x);
    SameMillionthIff(p.y, q.y);
  }

  /** The first crossing with the key of the `j`th. */
  lemma FirstWithKey(pts: seq<Point>, j: nat) returns (i: nat)
    requires j < |pts|
    ensures i <= j && IsFirst(Key, pts, i) && Key(pts[i]) == Key(pts[j])
  {
    i := 0;
    while Key(pts[i]) != Key(pts[j])
      invariant i <= j && forall k :: 0 <= k < i ==> Key(pts[k]) != Key(pts[j])
      decreases j - i
    {
      i := i + 1;
    }
  }

  /** Main result: no crossing is lost or made up. Each one is kept or has one at most
      0.000001 away in each coordinate that is kept, a crossing farther from all the
      ones before it is kept itself, and nothing else comes out. */
  lemma CrossingsAreKept(line: Segment, pts: seq<Point>, j: nat)
    requires j < |pts|
    ensures exists p :: p in Crossings(line, pts) && Close(p, pts[j])
    ensures (forall i :: 0 <= i < j ==> !Close(pts[i], pts[j])) ==> pts[j] in Crossings(line, pts)
    ensures forall p :: p in Crossings(line, pts) ==> p in pts
  {
    CrossingsAreFirstsInOrder(line, pts);
    var i := FirstWithKey(pts, j);
    SameKeyIff(pts[i], pts[j]);
    assert pts[i] in Crossings(line, pts);
  }

  // ----- pairing -----

  /** `zip(pts[0::2], pts[1::2])` */
  function Pairs(pts: seq<Point>): seq<Segment> {
    seq(|pts| / 2, k requires 0 <= k < |pts| / 2 => Segment(pts[2 * k], pts[2 * k + 1]))
  }

  ghost function Endpoints(segs: seq<Segment>): seq<Point> {
    if segs == [] then []
    else Endpoints(segs[..|segs| - 1]) + [segs[|segs| - 1].a, segs[|segs| - 1].b]
  }

  /** Pairing uses each point once, in order, and drops only the last of an odd count. */
  lemma {:induction false} PairsUseEachPointOnce(pts: seq<Point>)
    ensures Endpoints(Pairs(pts)) == if |pts| % 2 == 0 then pts else pts[..|pts| - 1]
  {
    if |pts| >= 2 {
      var m := |pts| / 2;
      var head := pts[..2 * (m - 1)];
      PairsUseEachPointOnce(head);
      assert Pairs(pts)[..m - 1] == Pairs(head);
      assert pts[..2 * m] == head + [pts[2 * m - 2], pts[2 * m - 1]];
      assert |pts| % 2 == 0 ==> pts == pts[..2 * m];
    } else {
      assert |pts| == 1 ==> pts[..0] == [];
    }
  }

  lemma {:induction false} PairsAreNeighbours(pts: seq<Point>, seg: Segment)
    requires seg in Pairs(pts)
    ensures exists k: nat :: k + 1 < |pts| && pts[k] == seg.a && pts[k + 1] == seg.b
  {
    var k :| 0 <= k < |Pairs(pts)| && Pairs(pts)[k] == seg;
    assert pts[2 * k] == seg.a && pts[2 * k + 1] == seg.b;
  }

  /** A paired segment has two different ends, because their keys differ. */
  lemma PairedEndsDiffer(line: Segment, pts: seq<Point>, seg: Segment)
    requires seg in Pairs(Crossings(line, pts))
    ensures seg.a != seg.b
  {
    CrossingsAreFirstsInOrder(line, pts);
    PairsAreNeighbours(Crossings(line, pts), seg);
  }

  /** The segments run forwards and follow one another without overlap. */
  ghost predicate InOrderAndDisjoint(line: Segment, segs: seq<Segment>) {
    && (forall k :: 0 <= k < |segs| ==> TParam(line, segs[k].a) < TParam(line, segs[k].b))
    && (forall k, l :: 0 <= k < l < |segs| ==> TParam(line, segs[k].b) < TParam(line, segs[l].a))
  }

  ghost predicate OnLine(line: Segment, p: Point) {
    exists t :: p == At(line, t)
  }

  lemma SquareSumNonZero(x: real, y: real, xx: real, yy: real)
    requires x != 0.0 || y != 0.0
    requires xx == x * x && yy == y * y
    ensures xx + yy != 0.0
  {
    SquareSign(x, xx);
    SquareSign(y, yy);
  }

  lemma ScaledDirection(d: Point, e: Point, t: real)
    requires d.x != 0.0 || d.y != 0.0
    requires e == Point(t * d.x, t * d.y)
    ensures Dot(d, d) != 0.0 && Dot(e, d) / Dot(d, d) == t
  {
    var xx, yy := d.x * d.x, d.y * d.y;
    SquareSumNonZero(d.x, d.y, xx, yy);
    assert t * d.x * d.x == t * xx && t * d.y * d.y == t * yy;
    CancelFactor(t, xx + yy, Dot(e, d));
  }

  lemma TParamOfAt(line: Segment, t: real)
    requires line.a != line.b
    ensures TParam(line, At(line, t)) == t
  {
    var d := Minus(line.b, line.a);
    assert line.a.x != line.b.x || line.a.y != line.b.y;
    ScaledDirection(d, Minus(At(line, t), line.a), t);
  }

  lemma SamePositionSamePoint(line: Segment, p: Point, q: Point)
    requires line.a != line.b && OnLine(line, p) && OnLine(line, q)
    requires TParam(line, p) == TParam(line, q)
    ensures p == q
  {
    var s :| p == At(line, s);
    var t :| q == At(line, t);
    TParamOfAt(line, s);
    TParamOfAt(line, t);
  }

  lemma OrderedPairs(line: Segment, pts: seq<Point>)
    requires forall i, j :: 0 <= i < j < |pts| ==> TParam(line, pts[i]) < TParam(line, pts[j])
    ensures InOrderAndDisjoint(line, Pairs(pts))
  {
    var segs := Pairs(pts);
    forall k | 0 <= k < |segs| ensures TParam(line, segs[k].a) < TParam(line, segs[k].b) {
      assert segs[k] == Segment(pts[2 * k], pts[2 * k + 1]);
    }
    forall k, l | 0 <= k < l < |segs| ensures TParam(line, segs[k].b) < TParam(line, segs[l].a) {
      assert segs[k].b == pts[2 * k + 1] && segs[l].a == pts[2 * l];
    }
  }

  /** Main result: for crossings that lie on the line, the paired segments are
      strictly in order along it and never overlap. */
  lemma PairedSegmentsNeverOverlap(line: Segment, pts: seq<Point>)
    requires line.a != line.b
    requires forall p :: p in pts ==> OnLine(line, p)
    ensures InOrderAndDisjoint(line, Pairs(Crossings(line, pts)))
  {
    var out := Crossings(line, pts);
    CrossingsAreFirstsInOrder(line, pts);
    forall p | p in out ensures OnLine(line, p) {
      var j: nat :| IsFirst(Key, pts, j) && p == pts[j];
    }
    forall i, j | 0 <= i < j < |out| ensures TParam(line, out[i]) < TParam(line, out[j]) {
      assert Along(line)(out[i]) <= Along(line)(out[j]);
      if TParam(line, out[i]) == TParam(line, out[j]) {
        SamePositionSamePoint(line, out[i], out[j]);
      }
    }
    OrderedPairs(line, out);
  }

  // ----- the corridor partitioner -----

  /** Each segment is visited start, end, start, rounded to three places. */
  function CorridorVisit(seg: Segment): seq<Point> {
    [RoundXY(seg.a, 3), RoundXY(seg.b, 3), RoundXY(seg.a, 3)]
  }

  ghost function LineVisits(line: Segment, pts: seq<Point>): seq<seq<Point>> {
    var segs := Pairs(Crossings(line, pts));
    seq(|segs|, k requires 0 <= k < |segs| => CorridorVisit(segs[k]))
  }

  ghost function CorridorVisits(lines: seq<Segment>, cross: Segment -> seq<Point>): seq<seq<Point>> {
    if lines == [] then []
    else
      var last := lines[|lines| - 1];
      CorridorVisits(lines[..|lines| - 1], cross) + LineVisits(last, cross(last))
  }

  /** `v` goes from the start of `seg` to its end and back, rounded to three places. */
  ghost predicate IsVisit(v: seq<Point>, seg: Segment) {
    |v| == 3 && Near(v[0], seg.a) && Near(v[1], seg.b) && v[2] == v[0]
  }

  /** The segments of each line, in order along it. */
  ghost function SegmentLists(lines: seq<Segment>, cross: Segment -> seq<Point>): (lists: seq<seq<Segment>>)
    ensures |lists| == |lines|
  {
    seq(|lines|, i requires 0 <= i < |lines| => Pairs(Crossings(lines[i], cross(lines[i]))))
  }

  /** How many segments the first `i` lists have together. */
  ghost function SegmentsBefore(lists: seq<seq<Segment>>, i: nat): nat
    requires i <= |lists|
  {
    if i == 0 then 0 else SegmentsBefore(lists, i - 1) + |lists[i - 1]|
  }

  /** The `k`th segment of list `i` has its visit in its place. */
  ghost predicate VisitAt(lists: seq<seq<Segment>>, visits: seq<seq<Point>>, i: nat, k: nat)
    requires i < |lists| && k < |lists[i]|
  {
    var n := SegmentsBefore(lists, i) + k;
    n < |visits| && IsVisit(visits[n], lists[i][k])
  }

  /** The visits are those of the segments, one for one, list by list and in order. */
  ghost predicate VisitsInOrder(lists: seq<seq<Segment>>, visits: seq<seq<Point>>) {
    && |visits| == SegmentsBefore(lists, |lists|)
    && forall i, k :: 0 <= i < |lists| && 0 <= k < |lists[i]| ==> VisitAt(lists, visits, i, k)
  }

  lemma CorridorVisitIsVisit(seg: Segment)
    ensures forall v :: IsVisit(v, seg) <==> v == CorridorVisit(seg)
  {
    RoundXYClose(seg.a);
    RoundXYClose(seg.b);
    forall v | IsVisit(v, seg) ensures v == CorridorVisit(seg) {
      assert v == [v[0], v[1], v[2]];
    }
  }

  lemma {:induction false} SegmentsBeforePrefix(lists: seq<seq<Segment>>, last: seq<Segment>, i: nat)
    requires i <= |lists|
    ensures SegmentsBefore(lists + [last], i) == SegmentsBefore(lists, i)
  {
    if i > 0 {
      SegmentsBeforePrefix(lists, last, i - 1);
    }
  }

  lemma VisitsOfOneMore(lists: seq<seq<Segment>>, visits: seq<seq<Point>>, last: seq<Segment>, more: seq<seq<Point>>)
    requires VisitsInOrder(lists, visits)
    requires |more| == |last| && forall k :: 0 <= k < |more| ==> IsVisit(more[k], last[k])
    ensures VisitsInOrder(lists + [last], visits + more)
  {
    SegmentsBeforePrefix(lists, last, |lists|);
    forall i, k | 0 <= i < |lists + [last]| && 0 <= k < |(lists + [last])[i]|
      ensures VisitAt(lists + [last], visits + more, i, k)
    {
      SegmentsBeforePrefix(lists, last, i);
      if i < |lists| {
        assert VisitAt(lists, visits, i, k);
      }
    }
  }

  lemma LineVisitsAreVisits(line: Segment, pts: seq<Point>)
    ensures var segs, visits := Pairs(Crossings(line, pts)), LineVisits(line, pts);
            |visits| == |segs| && forall k :: 0 <= k < |visits| ==> IsVisit(visits[k], segs[k])
  {
    forall k | 0 <= k < |LineVisits(line, pts)|
      ensures IsVisit(LineVisits(line, pts)[k], Pairs(Crossings(line, pts))[k])
    {
      CorridorVisitIsVisit(Pairs(Crossings(line, pts))[k]);
    }
  }

  lemma SegmentListsLast(lines: seq<Segment>, cross: Segment -> seq<Point>)
    requires lines != []
    ensures var m := |lines| - 1;
            SegmentLists(lines, cross)
              == SegmentLists(lines[..m], cross) + [Pairs(Crossings(lines[m], cross(lines[m])))]
  {}

  /** Main result: every segment of every line is visited once, start, end, start, and
      the visits stand in the order of the lines and of the segments on them. */
  lemma {:induction false} CorridorsVisitInOrder(lines: seq<Segment>, cross: Segment -> seq<Point>)
    ensures VisitsInOrder(SegmentLists(lines, cross), CorridorVisits(lines, cross))
  {
    if lines != [] {
      var m := |lines| - 1;
      var last := lines[m];
      CorridorsVisitInOrder(lines[..m], cross);
      SegmentListsLast(lines, cross);
      LineVisitsAreVisits(last, cross(last));
      VisitsOfOneMore(SegmentLists(lines[..m], cross), CorridorVisits(lines[..m], cross),
        Pairs(Crossings(last, cross(last))), LineVisits(last, cross(last)));
    }
  }

  /** The inner loop, over the segments of one line. */
  method VisitLine(line: Segment, pts: seq<Point>) returns (visits: seq<seq<Point>>)
    ensures visits == LineVisits(line, pts)
    ensures var segs := Pairs(Crossings(line, pts));
            |visits| == |segs| && forall k :: 0 <= k < |segs| ==> IsVisit(visits[k], segs[k])
  {
    var out := LinePolygonIntersectionPoints(line, pts);
    visits := [];
    if |out| >= 2 {
      var segs := Pairs(out);
      for k := 0 to |segs|
        invariant |visits| == k && forall j :: 0 <= j < k ==> visits[j] == CorridorVisit(segs[j])
      {
        visits := visits + [CorridorVisit(segs[k])];
      }
    }
    LineVisitsAreVisits(line, pts);
  }

  /** `cross(line)` stands for the raw crossings of a line with the polygon. */
  method GenerateCorridors(lines: seq<Segment>, cross: Segment -> seq<Point>) returns (results: seq<seq<Point>>)
    ensures results == CorridorVisits(lines, cross) && VisitsInOrder(SegmentLists(lines, cross), results)
  {
    results := [];
    for i := 0 to |lines|
      invariant results == CorridorVisits(lines[..i], cross)
    {
      assert lines[..i + 1][..i] == lines[..i];
      var visits := VisitLine(lines[i], cross(lines[i]));
      results := results + visits;
    }
    assert lines[..|lines|] == lines;
    CorridorsVisitInOrder(lines, cross);
  }
}
