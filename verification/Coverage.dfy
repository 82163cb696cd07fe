/** The whole survey: from a point of the area to a waypoint that is emitted. */
module Coverage {
  import opened Geometry
  import opened Transects
  import opened Survey
  import Crossings
  import RealArithmetic

  /** What the polygon library says of an area. */
  datatype Area = Area(cross: Segment -> seq<Point>, length: Segment -> real, covers: Point -> bool)

  ghost predicate IsPaired(area: Area, line: Segment, seg: Segment) {
    seg in Crossings.Pairs(Crossings.Crossings(line, area.cross(line)))
  }

  /** A paired segment that the area covers, on its line, with its true length. */
  ghost predicate Flyable(area: Area, line: Segment, seg: Segment) {
    && IsPaired(area, line, seg)
    && Crossings.OnLine(line, seg.a) && Crossings.OnLine(line, seg.b)
    && IsLength(seg, area.length(seg))
    && forall q :: OnSegment(seg, q) ==> area.covers(q)
  }

  ghost function Groups(area: Area, trigger: real, lines: seq<Segment>): seq<seq<Point>>
    requires trigger > 0.0
  {
    SurveyGroups(lines, area.cross, area.length, trigger, area.covers)
  }

  /** Some waypoint is, up to its rounding, closer to `p` than the root of `bound`. */
  ghost predicate SeenFrom(groups: seq<seq<Point>>, p: Point, bound: real) {
    exists g, w, q :: g in groups && w in g && Near(w, q) && DistSq(p, q) < bound
  }

  /** A covered sample is emitted, rounded. */
  lemma SampleIsWaypoint(seg: Segment, len: real, trigger: real, covers: Point -> bool, n: nat, i: nat)
    returns (w: Point)
    requires len > 0.0 && i < n && covers(Sample(seg, len, trigger, i))
    ensures w in Waypoints(seg, len, trigger, covers, n) && Near(w, Sample(seg, len, trigger, i))
  {
    CoveredIndicesAreAll(seg, len, trigger, covers, n);
    WaypointsFollowCoveredSamples(seg, len, trigger, covers, n);
    var ids := CoveredIndices(seg, len, trigger, covers, n);
    var j :| 0 <= j < |ids| && ids[j] == i;
    w := Waypoints(seg, len, trigger, covers, n)[j];
  }

  lemma SampleIsEmitted(area: Area, trigger: real, lines: seq<Segment>, line: Segment, seg: Segment, i: nat)
    returns (g: seq<Point>, w: Point)
    requires trigger > 0.0 && line in lines && IsPaired(area, line, seg) && area.length(seg) > 0.0
    requires i <= SampleCount(area.length(seg), trigger) && area.covers(Sample(seg, area.length(seg), trigger, i))
    ensures g in Groups(area, trigger, lines) && w in g && Near(w, Sample(seg, area.length(seg), trigger, i))
  {
    var len := area.length(seg);
    var n := SampleCount(len, trigger) + 1;
    g := Waypoints(seg, len, trigger, area.covers, n);
    w := SampleIsWaypoint(seg, len, trigger, area.covers, n, i);
    assert Contributes(line, seg, area.cross, area.length, trigger, area.covers, g);
    SurveyGroupsAreSegments(lines, area.cross, area.length, trigger, area.covers, g);
  }

  lemma DifferentPointsAreApart(p: Point, q: Point)
    requires p != q
    ensures DistSq(p, q) != 0.0
  {
    var x, y := p.x - q.x, p.y - q.y;
    Crossings.SquareSumNonZero(x, y, x * x, y * y);
    assert Minus(p, q) == Point(x, y);
  }

  lemma NonZeroRoot(len: real, q: real)
    requires len >= 0.0 && q == len * len && q != 0.0
    ensures len > 0.0
  {
    RealArithmetic.SquareSign(len, q);
  }

  /** A paired segment is not empty. */
  lemma PairedHasLength(area: Area, line: Segment, seg: Segment)
    requires Flyable(area, line, seg)
    ensures area.length(seg) > 0.0
  {
    Crossings.PairedEndsDiffer(line, area.cross(line), seg);
    DifferentPointsAreApart(seg.b, seg.a);
    NonZeroRoot(area.length(seg), DistSq(seg.b, seg.a));
  }

  /** A point whose foot on a line falls on a flyable segment of it is seen. */
  lemma FootIsSeen(area: Area, trigger: real, lines: seq<Segment>, line: Segment, p: Point, t: real, reach: real,
                   seg: Segment)
    requires trigger > 0.0 && line in lines && Flyable(area, line, seg)
    requires FootInside(line, p, t) && DistSq(p, At(line, t)) <= Sq(reach) && OnSegment(seg, At(line, t))
    ensures SeenFrom(Groups(area, trigger, lines), p, Sq(reach) + Sq(trigger))
  {
    var len := area.length(seg);
    PairedHasLength(area, line, seg);
    var u :| 0.0 <= u <= 1.0 && At(line, t) == At(seg, u);
    PointIsSeen(line, p, t, reach, seg, len, trigger, u);
    var i: nat :| i <= SampleCount(len, trigger) && OnSegment(seg, Sample(seg, len, trigger, i))
                  && DistSq(p, Sample(seg, len, trigger, i)) < Sq(reach) + Sq(trigger);
    var g, w := SampleIsEmitted(area, trigger, lines, line, seg, i);
  }

  /** Wherever the foot of `p` on line `k` is flyable, `p` is seen. */
  ghost predicate SeenWhereFlyable(area: Area, trigger: real, lines: seq<Segment>, k: nat, p: Point, t: real,
                                   reach: real)
    requires trigger > 0.0 && k < |lines|
  {
    forall seg :: Flyable(area, lines[k], seg) && OnSegment(seg, At(lines[k], t)) ==>
      SeenFrom(Groups(area, trigger, lines), p, Sq(reach) + Sq(trigger))
  }

  lemma ReachedIsSeen(area: Area, trigger: real, lines: seq<Segment>, k: nat, p: Point, t: real, reach: real)
    requires trigger > 0.0 && ReachedBy(lines, k, p, t) && DistSq(p, At(lines[k], t)) <= Sq(reach)
    ensures SeenWhereFlyable(area, trigger, lines, k, p, t, reach)
  {
    forall seg | Flyable(area, lines[k], seg) && OnSegment(seg, At(lines[k], t))
      ensures SeenFrom(Groups(area, trigger, lines), p, Sq(reach) + Sq(trigger))
    {
      FootIsSeen(area, trigger, lines, lines[k], p, t, reach, seg);
    }
  }

  /** Main result: for every box, angle, spacing and trigger distance, every point of the
      box has a transect closer than the spacing and, if its foot there lies on a
      segment the area covers, however short, a waypoint of the survey within the two
      spacings together. */
  lemma BoxIsSurveyed(box: Box, spacing: real, c: real, s: real, trigger: real, area: Area, p: Point)
    requires box.Valid() && box.Contains(p) && spacing > 0.0 && trigger > 0.0 && c * c + s * s == 1.0
    ensures var lines := Transects.Transects(box, spacing, c, s);
            exists k: nat, t: real :: ReachedBy(lines, k, p, t) && DistSq(p, At(lines[k], t)) < Sq(spacing)
              && SeenWhereFlyable(area, trigger, lines, k, p, t, spacing)
  {
    BoxIsCovered(box, spacing, c, s, p);
    var lines := Transects.Transects(box, spacing, c, s);
    var k: nat, t: real :| ReachedBy(lines, k, p, t) && DistSq(p, At(lines[k], t)) < Sq(spacing);
    ReachedIsSeen(area, trigger, lines, k, p, t, spacing);
  }

  /** Main result: half the spacing is enough up to a spacing of 200 plus the width. */
  lemma BoxIsSurveyedTightly(box: Box, spacing: real, c: real, s: real, trigger: real, area: Area, p: Point)
    requires box.Valid() && box.Contains(p) && trigger > 0.0 && c * c + s * s == 1.0
    requires 0.0 < spacing <= 200.0 + box.Width()
    ensures var lines, half := Transects.Transects(box, spacing, c, s), spacing / 2.0;
            exists k: nat, t: real :: ReachedBy(lines, k, p, t) && DistSq(p, At(lines[k], t)) <= Sq(half)
              && SeenWhereFlyable(area, trigger, lines, k, p, t, half)
  {
    BoxIsCoveredTightly(box, spacing, c, s, p);
    var lines, half := Transects.Transects(box, spacing, c, s), spacing / 2.0;
    var k: nat, t: real :| ReachedBy(lines, k, p, t) && DistSq(p, At(lines[k], t)) <= Sq(half);
    ReachedIsSeen(area, trigger, lines, k, p, t, half);
  }
}
