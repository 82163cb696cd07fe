/** The survey partitioner: points sampled at a fixed trigger distance along
    each paired segment of a transect, as far as the polygon covers them. */
module Survey {
  import opened Geometry
  import opened RealArithmetic
  import Crossings

  /** `len` is the length of `seg`; shapely computes it, here it is given. */
  ghost predicate IsLength(seg: Segment, len: real) {
    len >= 0.0 && len * len == DistSq(seg.b, seg.a)
  }

  function Direction(seg: Segment, len: real): Point
    requires len > 0.0
  {
    Point((seg.b.x - seg.a.x) / len, (seg.b.y - seg.a.y) / len)
  }

  function Advance(a: Point, u: Point, d: real): Point {
    Point(a.x + d * u.x, a.y + d * u.y)
  }

  /** The point at arc distance `d` from the start of a segment of length `len`. */
  function AtDistance(seg: Segment, len: real, d: real): Point
    requires len > 0.0
  {
    Advance(seg.a, Direction(seg, len), d)
  }

  /** `max(1, int(length // trigger_distance))` */
  function SampleCount(len: real, trigger: real): (n: nat)
    requires len > 0.0 && trigger > 0.0
    ensures n >= 1
    ensures len >= trigger ==> n as real * trigger <= len
    ensures len < (n + 1) as real * trigger
  {
    FloorOfQuotient(len, trigger);
    assert len < trigger ==> len < (1 + 1) as real * trigger;
    var q := (len / trigger).Floor;
    if q >= 1 then q else 1
  }

  function Sample(seg: Segment, len: real, trigger: real, i: nat): Point
    requires len > 0.0
  {
    AtDistance(seg, len, i as real * trigger)
  }

  // ----- where the samples lie -----

  lemma UnitDirection(seg: Segment, len: real)
    requires len > 0.0 && IsLength(seg, len)
    ensures Dot(Direction(seg, len), Direction(seg, len)) == 1.0
  {
    var dx, dy := seg.b.x - seg.a.x, seg.b.y - seg.a.y;
    var ux := Quotient(dx, len);
    var uy := Quotient(dy, len);
    ScaledUnit(ux, uy, dx, dy, len);
  }

  lemma ScaledUnit(ux: real, uy: real, dx: real, dy: real, len: real)
    requires len > 0.0 && ux * len == dx && uy * len == dy && len * len == dx * dx + dy * dy
    ensures ux * ux + uy * uy == 1.0
  {
    var m := len * len;
    ProductPositive(len, len, m);
    SquareOfProduct(ux, len);
    SquareOfProduct(uy, len);
    Distribute(ux * ux, uy * uy, m);
    CancelPositive(ux * ux + uy * uy, 1.0, m);
  }

  lemma SquareOfProduct(u: real, w: real)
    ensures (u * w) * (u * w) == (u * u) * (w * w)
  {}

  lemma ScaledUnitDistance(d: real, u: Point)
    requires Dot(u, u) == 1.0
    ensures Dot(Point(d * u.x, d * u.y), Point(d * u.x, d * u.y)) == Sq(d)
  {
    SquareOfProduct(d, u.x);
    SquareOfProduct(d, u.y);
    Distribute(u.x * u.x, u.y * u.y, d * d);
  }

  /** Arc distance is distance. */
  lemma DistanceAlong(a: Point, u: Point, d: real, e: real)
    requires Dot(u, u) == 1.0
    ensures DistSq(Advance(a, u, d), Advance(a, u, e)) == Sq(d - e)
  {
    Distribute(e, d, u.x);
    Distribute(e, d, u.y);
    assert Minus(Advance(a, u, d), Advance(a, u, e)) == Point((d - e) * u.x, (d - e) * u.y);
    ScaledUnitDistance(d - e, u);
  }

  lemma FractionOfLength(t: real, len: real, u: real, dx: real)
    requires u * len == dx
    ensures (t * len) * u == t * dx
  {}

  lemma AtIsAtDistance(seg: Segment, len: real, t: real)
    requires len > 0.0
    ensures At(seg, t) == AtDistance(seg, len, t * len)
  {
    var ux := Quotient(seg.b.x - seg.a.x, len);
    var uy := Quotient(seg.b.y - seg.a.y, len);
    var u := Direction(seg, len);
    assert u == Point(ux, uy);
    FractionOfLength(t, len, u.x, seg.b.x - seg.a.x);
    FractionOfLength(t, len, u.y, seg.b.y - seg.a.y);
  }

  ghost predicate OnSegment(seg: Segment, p: Point) {
    exists t :: 0.0 <= t <= 1.0 && p == At(seg, t)
  }

  lemma OnSegmentIsWithin(seg: Segment, len: real, d: real)
    requires IsLength(seg, len) && len > 0.0 && OnSegment(seg, AtDistance(seg, len, d))
    ensures 0.0 <= d <= len
  {
    var t :| 0.0 <= t <= 1.0 && AtDistance(seg, len, d) == At(seg, t);
    AtIsAtDistance(seg, len, t);
    UnitDirection(seg, len);
    SamePointSameDistance(seg.a, Direction(seg, len), d, t * len);
    FractionBounds(t, len);
  }

  lemma WithinIsOnSegment(seg: Segment, len: real, d: real)
    requires len > 0.0 && 0.0 <= d <= len
    ensures OnSegment(seg, AtDistance(seg, len, d))
  {
    var t := FractionOf(d, len);
    AtIsAtDistance(seg, len, t);
  }

  lemma FractionOf(d: real, len: real) returns (t: real)
    requires len > 0.0 && 0.0 <= d <= len
    ensures 0.0 <= t <= 1.0 && t * len == d
  {
    t := Quotient(d, len);
    CancelPositive(0.0, t, len);
    CancelPositive(t, 1.0, len);
  }

  /** A point of the supporting line lies on the segment exactly when its arc
      distance is between zero and the length. */
  lemma OnSegmentIffWithin(seg: Segment, len: real, d: real)
    requires IsLength(seg, len) && len > 0.0
    ensures OnSegment(seg, AtDistance(seg, len, d)) <==> 0.0 <= d <= len
  {
    if OnSegment(seg, AtDistance(seg, len, d)) {
      OnSegmentIsWithin(seg, len, d);
    }
    if 0.0 <= d <= len {
      WithinIsOnSegment(seg, len, d);
    }
  }

  /** The square of the gap between two arc distances of the same point. */
  lemma GapSquared(a: Point, u: Point, d: real, e: real) returns (q: real)
    requires Dot(u, u) == 1.0
    requires Advance(a, u, d) == Advance(a, u, e)
    ensures q == 0.0 && q == Sq(d - e)
  {
    q := DistSq(Advance(a, u, d), Advance(a, u, e));
    DistanceAlong(a, u, d, e);
    NoDistance(Advance(a, u, d));
  }

  lemma SamePointSameDistance(a: Point, u: Point, d: real, e: real)
    requires Dot(u, u) == 1.0
    requires Advance(a, u, d) == Advance(a, u, e)
    ensures d == e
  {
    var q := GapSquared(a, u, d, e);
    NoSquare(d - e, q);
  }

  lemma NoDistance(p: Point)
    ensures DistSq(p, p) == 0.0
  {
    assert Minus(p, p) == Point(0.0, 0.0);
  }

  lemma NoSquare(x: real, q: real)
    requires q == Sq(x) && q == 0.0
    ensures x == 0.0
  {
    SquareSign(x, q);
  }

  /** Consecutive samples are exactly one trigger distance apart. */
  lemma SamplesAreEvenlySpaced(seg: Segment, len: real, trigger: real, i: nat)
    requires IsLength(seg, len) && len > 0.0
    ensures DistSq(Sample(seg, len, trigger, i + 1), Sample(seg, len, trigger, i)) == Sq(trigger)
  {
    UnitDirection(seg, len);
    DistanceAlong(seg.a, Direction(seg, len), (i + 1) as real * trigger, i as real * trigger);
    assert (i + 1) as real * trigger - i as real * trigger == trigger;
  }

  /** The samples all lie on the segment exactly when the segment is at least one
      trigger distance long: a shorter one still gets a second sample, past its end. */
  lemma SamplesOnSegmentIffLongEnough(seg: Segment, len: real, trigger: real)
    requires IsLength(seg, len) && len > 0.0 && trigger > 0.0
    ensures (forall i: nat :: i <= SampleCount(len, trigger) ==> OnSegment(seg, Sample(seg, len, trigger, i)))
            <==> len >= trigger
  {
    if len >= trigger {
      forall i: nat | i <= SampleCount(len, trigger) ensures OnSegment(seg, Sample(seg, len, trigger, i)) {
        IndexBounds(i, SampleCount(len, trigger), trigger, len);
        OnSegmentIffWithin(seg, len, i as real * trigger);
      }
    } else {
      OnSegmentIffWithin(seg, len, 1 as real * trigger);
      assert !OnSegment(seg, Sample(seg, len, trigger, 1));
    }
  }

  lemma IndexBounds(i: nat, n: nat, trigger: real, len: real)
    requires i <= n && trigger > 0.0 && n as real * trigger <= len
    ensures 0.0 <= i as real * trigger <= len
  {
    MulMonotone(0.0, i as real, trigger);
    MulMonotone(i as real, n as real, trigger);
  }

  lemma LastMultiple(d: real, w: real) returns (i: nat)
    requires d >= 0.0 && w > 0.0
    ensures 0.0 <= d - i as real * w < w
  {
    FloorOfQuotient(d, w);
    i := (d / w).Floor;
    assert (i + 1) as real * w == i as real * w + w;
  }

  lemma IndexBelow(i: nat, n: nat, w: real, len: real)
    requires w > 0.0 && i as real * w <= len < (n + 1) as real * w
    ensures i <= n
  {
    CancelPositive(i as real, (n + 1) as real, w);
  }

  /** The last sample at or before arc distance `d`. */
  lemma LastSampleBefore(d: real, len: real, trigger: real) returns (i: nat)
    requires 0.0 <= d <= len && len > 0.0 && trigger > 0.0
    ensures i <= SampleCount(len, trigger)
    ensures 0.0 <= d - i as real * trigger < trigger
  {
    i := LastMultiple(d, trigger);
    IndexBelow(i, SampleCount(len, trigger), trigger, len);
  }

  /** No point of the segment is a trigger distance or more from every sample. */
  lemma SegmentIsSampled(seg: Segment, len: real, trigger: real, t: real)
    requires IsLength(seg, len) && len > 0.0 && trigger > 0.0 && 0.0 <= t <= 1.0
    ensures exists i: nat ::
      i <= SampleCount(len, trigger) && DistSq(At(seg, t), Sample(seg, len, trigger, i)) < Sq(trigger)
  {
    FractionBounds(t, len);
    var i := LastSampleBefore(t * len, len, trigger);
    SampleIsClose(seg, len, trigger, t, i);
  }

  lemma SampleIsClose(seg: Segment, len: real, trigger: real, t: real, i: nat)
    requires IsLength(seg, len) && len > 0.0
    requires 0.0 <= t * len - i as real * trigger < trigger
    ensures DistSq(At(seg, t), Sample(seg, len, trigger, i)) < Sq(trigger)
  {
    AtIsAtDistance(seg, len, t);
    UnitDirection(seg, len);
    DistanceAlong(seg.a, Direction(seg, len), t * len, i as real * trigger);
    var gap := t * len - i as real * trigger;
    SquareBelow(gap, trigger, Sq(gap), Sq(trigger));
  }

  // ----- what is emitted -----

  /** The waypoints of the first `n` samples: those the polygon covers, rounded. */
  ghost function Waypoints(seg: Segment, len: real, trigger: real, covers: Point -> bool, n: nat): seq<Point>
    requires len > 0.0
  {
    if n == 0 then []
    else
      var p := Sample(seg, len, trigger, n - 1);
      Waypoints(seg, len, trigger, covers, n - 1) + if covers(p) then [RoundXY(p, 3)] else []
  }

  /** The indices of the covered samples, in order. */
  ghost function CoveredIndices(seg: Segment, len: real, trigger: real, covers: Point -> bool, n: nat): seq<nat>
    requires len > 0.0
  {
    if n == 0 then []
    else CoveredIndices(seg, len, trigger, covers, n - 1) + if covers(Sample(seg, len, trigger, n - 1)) then [n - 1]
      else []
  }

  lemma {:induction false} CoveredIndicesAreAll(seg: Segment, len: real, trigger: real, covers: Point -> bool, n: nat)
    requires len > 0.0
    ensures var ids := CoveredIndices(seg, len, trigger, covers, n);
            && (forall j, k :: 0 <= j < k < |ids| ==> ids[j] < ids[k])
            && (forall i: nat :: i in ids <==> i < n && covers(Sample(seg, len, trigger, i)))
  {
    if n > 0 {
      CoveredIndicesAreAll(seg, len, trigger, covers, n - 1);
      var before := CoveredIndices(seg, len, trigger, covers, n - 1);
      assert forall j :: 0 <= j < |before| ==> before[j] in before;
    }
  }

  /** Main result: the waypoints of a segment are, one for one and in order, the
      samples the polygon covers, each moved by at most 0.0005 per coordinate. */
  lemma {:induction false} WaypointsFollowCoveredSamples(seg: Segment, len: real, trigger: real,
          covers: Point -> bool, n: nat)
    requires len > 0.0
    ensures var ids := CoveredIndices(seg, len, trigger, covers, n);
            var pts := Waypoints(seg, len, trigger, covers, n);
            |pts| == |ids| && forall j :: 0 <= j < |pts| ==> Near(pts[j], Sample(seg, len, trigger, ids[j]))
  {
    if n > 0 {
      WaypointsFollowCoveredSamples(seg, len, trigger, covers, n - 1);
      RoundXYClose(Sample(seg, len, trigger, n - 1));
    }
  }

  /** The innermost loop of the source. */
  method SampleSegment(seg: Segment, len: real, trigger: real, covers: Point -> bool) returns (linePoints: seq<Point>)
    requires len > 0.0 && trigger > 0.0
    ensures linePoints == Waypoints(seg, len, trigger, covers, SampleCount(len, trigger) + 1)
  {
    var u := Direction(seg, len);
    var npts := SampleCount(len, trigger);
    linePoints := [];
    for i := 0 to npts + 1
      invariant linePoints == Waypoints(seg, len, trigger, covers, i)
    {
      var d := i as real * trigger;
      var p := Advance(seg.a, u, d);
      assert p == Sample(seg, len, trigger, i);
      if covers(p) {
        linePoints := linePoints + [RoundXY(p, 3)];
      }
    }
  }

  /** The groups one line contributes: one per segment with a covered sample. */
  ghost function LineGroups(segs: seq<Segment>, length: Segment -> real, trigger: real,
                            covers: Point -> bool): seq<seq<Point>>
    requires trigger > 0.0
  {
    if segs == [] then []
    else
      var seg := segs[|segs| - 1];
      var before := LineGroups(segs[..|segs| - 1], length, trigger, covers);
      if length(seg) <= 0.0 then before
      else
        var pts := Waypoints(seg, length(seg), trigger, covers, SampleCount(length(seg), trigger) + 1);
        before + if pts == [] then [] else [pts]
  }

  ghost function SurveyGroups(lines: seq<Segment>, cross: Segment -> seq<Point>, length: Segment -> real,
                        trigger: real, covers: Point -> bool): seq<seq<Point>>
    requires trigger > 0.0
  {
    if lines == [] then []
    else
      var last := lines[|lines| - 1];
      SurveyGroups(lines[..|lines| - 1], cross, length, trigger, covers)
        + LineGroups(Crossings.Pairs(Crossings.Crossings(last, cross(last))), length, trigger, covers)
  }

  /** `g` is what a segment contributes. */
  ghost predicate IsGroupOf(seg: Segment, length: Segment -> real, trigger: real, covers: Point -> bool, g: seq<Point>)
    requires trigger > 0.0
  {
    length(seg) > 0.0 && g != []
      && g == Waypoints(seg, length(seg), trigger, covers, SampleCount(length(seg), trigger) + 1)
  }

  lemma {:induction false} LineGroupsAreSegments(segs: seq<Segment>, length: Segment -> real, trigger: real,
          covers: Point -> bool, g: seq<Point>)
    requires trigger > 0.0
    ensures g in LineGroups(segs, length, trigger, covers)
      <==> exists seg :: seg in segs && IsGroupOf(seg, length, trigger, covers, g)
  {
    if segs != [] {
      var rest, last := segs[..|segs| - 1], segs[|segs| - 1];
      LineGroupsAreSegments(rest, length, trigger, covers, g);
      assert forall seg :: seg in segs <==> seg in rest || seg == last;
      assert g in LineGroups(segs, length, trigger, covers)
        <==> g in LineGroups(rest, length, trigger, covers) || IsGroupOf(last, length, trigger, covers, g);
    }
  }

  /** Segment `seg` of line `line` contributes `g`. */
  ghost predicate Contributes(line: Segment, seg: Segment, cross: Segment -> seq<Point>, length: Segment -> real,
                              trigger: real,
                              covers: Point -> bool, g: seq<Point>)
    requires trigger > 0.0
  {
    seg in Crossings.Pairs(Crossings.Crossings(line, cross(line))) && IsGroupOf(seg, length, trigger, covers, g)
  }

  /** Main result: the groups of a survey are exactly the waypoints of the paired
      segments of its lines, for every segment with a covered sample. */
  lemma {:induction false} SurveyGroupsAreSegments(lines: seq<Segment>, cross: Segment -> seq<Point>,
          length: Segment -> real, trigger: real,
                                                   covers: Point -> bool, g: seq<Point>)
    requires trigger > 0.0
    ensures g in SurveyGroups(lines, cross, length, trigger, covers)
      <==> exists line, seg :: line in lines && Contributes(line, seg, cross, length, trigger, covers, g)
  {
    if lines != [] {
      var rest, last := lines[..|lines| - 1], lines[|lines| - 1];
      SurveyGroupsAreSegments(rest, cross, length, trigger, covers, g);
      var segs := Crossings.Pairs(Crossings.Crossings(last, cross(last)));
      LineGroupsAreSegments(segs, length, trigger, covers, g);
      assert lines == rest + [last];
      if exists seg :: seg in segs && IsGroupOf(seg, length, trigger, covers, g) {
        var seg :| seg in segs && IsGroupOf(seg, length, trigger, covers, g);
        assert last in lines && Contributes(last, seg, cross, length, trigger, covers, g);
      }
    }
  }

  // ----- where each group stands -----

  /** `seg` has a group: it has a length, and the area covers one of its samples. */
  ghost predicate HasGroup(seg: Segment, length: Segment -> real, trigger: real, covers: Point -> bool)
    requires trigger > 0.0
  {
    length(seg) > 0.0
      && exists i: nat :: i <= SampleCount(length(seg), trigger) && covers(Sample(seg, length(seg), trigger, i))
  }

  lemma GroupIffCovered(seg: Segment, length: Segment -> real, trigger: real, covers: Point -> bool)
    requires trigger > 0.0 && length(seg) > 0.0
    ensures HasGroup(seg, length, trigger, covers)
      <==> Waypoints(seg, length(seg), trigger, covers, SampleCount(length(seg), trigger) + 1) != []
  {
    var n := SampleCount(length(seg), trigger) + 1;
    CoveredIndicesAreAll(seg, length(seg), trigger, covers, n);
    WaypointsFollowCoveredSamples(seg, length(seg), trigger, covers, n);
    var ids := CoveredIndices(seg, length(seg), trigger, covers, n);
    if ids != [] {
      assert ids[0] in ids;
    }
  }

  /** How many of the first `k` segments have a group. */
  ghost function GroupsIn(segs: seq<Segment>, length: Segment -> real, trigger: real, covers: Point -> bool,
                          k: nat): nat
    requires trigger > 0.0 && k <= |segs|
  {
    if k == 0 then 0
    else
      GroupsIn(segs, length, trigger, covers, k - 1)
      + if HasGroup(segs[k - 1], length, trigger, covers) then 1 else 0
  }

  /** How many segments of the first `i` lists have a group. */
  ghost function GroupsBefore(lists: seq<seq<Segment>>, length: Segment -> real, trigger: real, covers: Point -> bool,
                              i: nat): nat
    requires trigger > 0.0 && i <= |lists|
  {
    if i == 0 then 0
    else
      GroupsBefore(lists, length, trigger, covers, i - 1)
      + GroupsIn(lists[i - 1], length, trigger, covers, |lists[i - 1]|)
  }

  /** The groups of one list of segments, in their order. */
  ghost predicate LineInOrder(segs: seq<Segment>, length: Segment -> real, trigger: real, covers: Point -> bool,
                              groups: seq<seq<Point>>)
    requires trigger > 0.0
  {
    && |groups| == GroupsIn(segs, length, trigger, covers, |segs|)
    && forall k :: 0 <= k < |segs| && HasGroup(segs[k], length, trigger, covers) ==>
         var n := GroupsIn(segs, length, trigger, covers, k);
         n < |groups| && IsGroupOf(segs[k], length, trigger, covers, groups[n])
  }

  /** The group of segment `k` of list `i` is in its place. */
  ghost predicate GroupAt(lists: seq<seq<Segment>>, length: Segment -> real, trigger: real, covers: Point -> bool,
                          groups: seq<seq<Point>>, i: nat, k: nat)
    requires trigger > 0.0 && i < |lists| && k < |lists[i]|
  {
    HasGroup(lists[i][k], length, trigger, covers) ==>
      var n := GroupsBefore(lists, length, trigger, covers, i) + GroupsIn(lists[i], length, trigger, covers, k);
      n < |groups| && IsGroupOf(lists[i][k], length, trigger, covers, groups[n])
  }

  /** The groups are those of the segments that have one, list by list and in order. */
  ghost predicate GroupsInOrder(lists: seq<seq<Segment>>, length: Segment -> real, trigger: real,
                                covers: Point -> bool, groups: seq<seq<Point>>)
    requires trigger > 0.0
  {
    && |groups| == GroupsBefore(lists, length, trigger, covers, |lists|)
    && forall i, k :: 0 <= i < |lists| && 0 <= k < |lists[i]| ==> GroupAt(lists, length, trigger, covers, groups, i, k)
  }

  lemma {:induction false} GroupsInPrefix(segs: seq<Segment>, length: Segment -> real, trigger: real,
                                          covers: Point -> bool, last: Segment, k: nat)
    requires trigger > 0.0 && k <= |segs|
    ensures GroupsIn(segs + [last], length, trigger, covers, k) == GroupsIn(segs, length, trigger, covers, k)
  {
    if k > 0 {
      GroupsInPrefix(segs, length, trigger, covers, last, k - 1);
    }
  }

  lemma OneMoreSegment(segs: seq<Segment>, length: Segment -> real, trigger: real, covers: Point -> bool,
                       groups: seq<seq<Point>>, last: Segment, more: seq<seq<Point>>)
    requires trigger > 0.0 && LineInOrder(segs, length, trigger, covers, groups)
    requires if HasGroup(last, length, trigger, covers)
             then |more| == 1 && IsGroupOf(last, length, trigger, covers, more[0]) else more == []
    ensures LineInOrder(segs + [last], length, trigger, covers, groups + more)
  {
    GroupsInPrefix(segs, length, trigger, covers, last, |segs|);
    forall k | 0 <= k < |segs + [last]| && HasGroup((segs + [last])[k], length, trigger, covers)
      ensures var n := GroupsIn(segs + [last], length, trigger, covers, k);
              n < |groups + more| && IsGroupOf((segs + [last])[k], length, trigger, covers, (groups + more)[n])
    {
      GroupsInPrefix(segs, length, trigger, covers, last, k);
    }
  }

  lemma {:induction false} LineGroupsInOrder(segs: seq<Segment>, length: Segment -> real, trigger: real,
                                             covers: Point -> bool)
    requires trigger > 0.0
    ensures LineInOrder(segs, length, trigger, covers, LineGroups(segs, length, trigger, covers))
  {
    if segs != [] {
      var rest, last := segs[..|segs| - 1], segs[|segs| - 1];
      LineGroupsInOrder(rest, length, trigger, covers);
      var before := LineGroups(rest, length, trigger, covers);
      var more := [];
      if length(last) > 0.0 {
        GroupIffCovered(last, length, trigger, covers);
        var pts := Waypoints(last, length(last), trigger, covers, SampleCount(length(last), trigger) + 1);
        more := if pts == [] then [] else [pts];
      }
      OneMoreSegment(rest, length, trigger, covers, before, last, more);
      assert rest + [last] == segs;
      assert before + [] == before;
    }
  }

  lemma {:induction false} GroupsBeforePrefix(lists: seq<seq<Segment>>, length: Segment -> real, trigger: real,
                                              covers: Point -> bool, last: seq<Segment>, i: nat)
    requires trigger > 0.0 && i <= |lists|
    ensures GroupsBefore(lists + [last], length, trigger, covers, i) == GroupsBefore(lists, length, trigger, covers, i)
  {
    if i > 0 {
      GroupsBeforePrefix(lists, length, trigger, covers, last, i - 1);
    }
  }

  lemma OneMoreLine(lists: seq<seq<Segment>>, length: Segment -> real, trigger: real, covers: Point -> bool,
                    groups: seq<seq<Point>>, last: seq<Segment>, more: seq<seq<Point>>)
    requires trigger > 0.0 && GroupsInOrder(lists, length, trigger, covers, groups)
    requires LineInOrder(last, length, trigger, covers, more)
    ensures GroupsInOrder(lists + [last], length, trigger, covers, groups + more)
  {
    GroupsBeforePrefix(lists, length, trigger, covers, last, |lists|);
    forall i, k | 0 <= i < |lists + [last]| && 0 <= k < |(lists + [last])[i]|
      ensures GroupAt(lists + [last], length, trigger, covers, groups + more, i, k)
    {
      GroupsBeforePrefix(lists, length, trigger, covers, last, i);
      if i < |lists| {
        assert GroupAt(lists, length, trigger, covers, groups, i, k);
      }
    }
  }

  /** Main result: the survey has one group for each segment with a covered sample, and
      the groups stand in the order of the lines and of the segments on them. */
  lemma {:induction false} SurveyGroupsInOrder(lines: seq<Segment>, cross: Segment -> seq<Point>,
          length: Segment -> real, trigger: real, covers: Point -> bool)
    requires trigger > 0.0
    ensures GroupsInOrder(Crossings.SegmentLists(lines, cross), length, trigger, covers,
              SurveyGroups(lines, cross, length, trigger, covers))
  {
    if lines != [] {
      var rest, last := lines[..|lines| - 1], lines[|lines| - 1];
      var segs := Crossings.Pairs(Crossings.Crossings(last, cross(last)));
      SurveyGroupsInOrder(rest, cross, length, trigger, covers);
      Crossings.SegmentListsLast(lines, cross);
      LineGroupsInOrder(segs, length, trigger, covers);
      OneMoreLine(Crossings.SegmentLists(rest, cross), length, trigger, covers,
        SurveyGroups(rest, cross, length, trigger, covers), segs, LineGroups(segs, length, trigger, covers));
    }
  }

  method SampleLine(segs: seq<Segment>, length: Segment -> real, trigger: real, covers: Point -> bool)
    returns (groups: seq<seq<Point>>)
    requires trigger > 0.0
    ensures groups == LineGroups(segs, length, trigger, covers)
    ensures LineInOrder(segs, length, trigger, covers, groups)
  {
    groups := [];
    for k := 0 to |segs|
      invariant groups == LineGroups(segs[..k], length, trigger, covers)
    {
      assert segs[..k + 1][..k] == segs[..k];
      var len := length(segs[k]);
      if len <= 0.0 {
        continue;
      }
      var linePoints := SampleSegment(segs[k], len, trigger, covers);
      if linePoints != [] {
        groups := groups + [linePoints];
      }
    }
    assert segs[..|segs|] == segs;
    LineGroupsInOrder(segs, length, trigger, covers);
  }

  /** `cross`, `length` and `covers` stand for the polygon library. */
  method GenerateSurvey(lines: seq<Segment>, cross: Segment -> seq<Point>, length: Segment -> real, trigger: real,
                        covers: Point -> bool)
    returns (results: seq<seq<Point>>)
    requires trigger > 0.0
    ensures results == SurveyGroups(lines, cross, length, trigger, covers)
    ensures GroupsInOrder(Crossings.SegmentLists(lines, cross), length, trigger, covers, results)
  {
    results := [];
    for i := 0 to |lines|
      invariant results == SurveyGroups(lines[..i], cross, length, trigger, covers)
    {
      assert lines[..i + 1][..i] == lines[..i];
      var pts := Crossings.LinePolygonIntersectionPoints(lines[i], cross(lines[i]));
      if |pts| >= 2 {
        var groups := SampleLine(Crossings.Pairs(pts), length, trigger, covers);
        results := results + groups;
      }
    }
    assert lines[..|lines|] == lines;
    SurveyGroupsInOrder(lines, cross, length, trigger, covers);
  }

  // ----- transects and samples together -----

  lemma Pythagoras(p: Point, f: Point, q: Point)
    requires Dot(Minus(p, f), Minus(f, q)) == 0.0
    ensures DistSq(p, q) == DistSq(p, f) + DistSq(f, q)
  {
    var u, v := Minus(p, f), Minus(f, q);
    assert Minus(p, q) == Point(u.x + v.x, u.y + v.y);
    assert (u.x + v.x) * (u.x + v.x) + (u.y + v.y) * (u.y + v.y) == Dot(u, u) + Dot(v, v) + 2.0 * Dot(u, v);
  }

  lemma ScaledDot(u: Point, d: Point, k: real)
    requires Dot(u, d) == 0.0
    ensures Dot(u, Point(k * d.x, k * d.y)) == 0.0
  {
    assert u.x * (k * d.x) + u.y * (k * d.y) == k * (u.x * d.x + u.y * d.y);
  }

  /** Any two points of a line differ by a multiple of its direction. */
  lemma OffsetOnLine(line: Segment, s: real, t: real)
    ensures var d := Minus(line.b, line.a);
            Minus(At(line, s), At(line, t)) == Point((s - t) * d.x, (s - t) * d.y)
  {
    var d := Minus(line.b, line.a);
    assert s * d.x - t * d.x == (s - t) * d.x && s * d.y - t * d.y == (s - t) * d.y;
  }

  /** The last sample at or before a point of the segment is on the segment, also on one
      that is too short for a second sample. */
  lemma LastSampleIsOnSegment(seg: Segment, len: real, trigger: real, u: real) returns (i: nat)
    requires IsLength(seg, len) && len > 0.0 && trigger > 0.0 && 0.0 <= u <= 1.0
    ensures i <= SampleCount(len, trigger) && OnSegment(seg, Sample(seg, len, trigger, i))
    ensures DistSq(At(seg, u), Sample(seg, len, trigger, i)) < Sq(trigger)
  {
    FractionBounds(u, len);
    i := LastSampleBefore(u * len, len, trigger);
    SampleIsClose(seg, len, trigger, u, i);
    MulMonotone(0.0, i as real, trigger);
    WithinIsOnSegment(seg, len, i as real * trigger);
  }

  /** Main result: a point whose foot on a transect falls inside one of the paired
      segments of that transect is seen from a sample that lies on the segment, at a
      distance bounded by the two spacings together. */
  lemma PointIsSeen(line: Segment, p: Point, foot: real, reach: real, seg: Segment, len: real, trigger: real, u: real)
    requires FootInside(line, p, foot) && DistSq(p, At(line, foot)) <= Sq(reach)
    requires Crossings.OnLine(line, seg.a) && Crossings.OnLine(line, seg.b)
    requires 0.0 <= u <= 1.0 && At(seg, u) == At(line, foot)
    requires IsLength(seg, len) && len > 0.0 && trigger > 0.0
    ensures exists i: nat ::
      i <= SampleCount(len, trigger) && OnSegment(seg, Sample(seg, len, trigger, i))
      && DistSq(p, Sample(seg, len, trigger, i)) < Sq(reach) + Sq(trigger)
  {
    var i := LastSampleIsOnSegment(seg, len, trigger, u);
    var w := SampleOnLine(line, seg, len, i as real * trigger);
    SquareToLine(line, p, foot, w);
  }

  lemma SquareToLine(line: Segment, p: Point, foot: real, w: real)
    requires FootInside(line, p, foot)
    ensures DistSq(p, At(line, w)) == DistSq(p, At(line, foot)) + DistSq(At(line, foot), At(line, w))
  {
    OffsetOnLine(line, foot, w);
    ScaledDot(Minus(p, At(line, foot)), Minus(line.b, line.a), foot - w);
    Pythagoras(p, At(line, foot), At(line, w));
  }

  lemma SampleOnLine(line: Segment, seg: Segment, len: real, d: real) returns (w: real)
    requires Crossings.OnLine(line, seg.a) && Crossings.OnLine(line, seg.b) && len > 0.0
    ensures AtDistance(seg, len, d) == At(line, w)
  {
    var s :| seg.a == At(line, s);
    var t :| seg.b == At(line, t);
    var r := Quotient(d, len);
    AtIsAtDistance(seg, len, r);
    w := s + r * (t - s);
    NestedAt(line, seg, s, t, r);
  }

  lemma NestedAt(line: Segment, seg: Segment, s: real, t: real, r: real)
    requires seg.a == At(line, s) && seg.b == At(line, t)
    ensures At(seg, r) == At(line, s + r * (t - s))
  {
    var e := Minus(line.b, line.a);
    Interpolate(line.a.x, e.x, s, t, r);
    Interpolate(line.a.y, e.y, s, t, r);
  }

  lemma Interpolate(a: real, e: real, s: real, t: real, r: real)
    ensures (a + s * e) + r * ((a + t * e) - (a + s * e)) == a + (s + r * (t - s)) * e
  {
    assert r * (t * e - s * e) == r * (t - s) * e;
  }
}
