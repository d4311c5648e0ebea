/** Polygons: vertex, edge and corner coverage.

    A ring is closed when it ends where it starts (section 3.1.6 of RFC 7946). */
module PolygonCoverage {
  import opened Wrappers
  import opened Maidenhead
  import opened Clipping
  import opened GridCoverage
  import opened LineCoverage

  ghost predicate Closed(ring: seq<Point>) {
    ring != [] && ring[0] == ring[|ring| - 1]
  }

  // ------------------------------------------------ the even-odd rule

  ghost function Crossings(p: Point, ring: seq<Point>): nat
    decreases |ring|
  {
    if |ring| < 2 then 0 else (if Crosses(p, ring[0], ring[1]) then 1 else 0) + Crossings(p, ring[1..])
  }

  ghost predicate OnRing(p: Point, ring: seq<Point>) {
    LineMeets(ring, Dot(p))
  }

  ghost predicate InRing(p: Point, ring: seq<Point>) {
    OnRing(p, ring) || Crossings(p, ring) % 2 == 1
  }

  ghost predicate IsOn(p: Point, a: Point, b: Point, t: real) {
    0.0 <= t <= 1.0 && a.x + t * (b.x - a.x) == p.x && a.y + t * (b.y - a.y) == p.y
  }

  ghost predicate OnEdge(p: Point, a: Point, b: Point) {
    exists t :: IsOn(p, a, b, t)
  }

  /** A point is on a ring exactly if it is a point of one of its edges. */
  lemma OnRingIs(p: Point, ring: seq<Point>)
    ensures OnRing(p, ring) <==> exists i :: 0 <= i < |ring| - 1 && OnEdge(p, ring[i], ring[i + 1])
  {
    forall i | 0 <= i < |ring| - 1 ensures Meets(ring[i], ring[i + 1], Dot(p)) <==> OnEdge(p, ring[i], ring[i + 1]) {
      MeetsDotIsOnEdge(p, ring[i], ring[i + 1]);
    }
  }

  lemma MeetsDotIsOnEdge(p: Point, a: Point, b: Point)
    ensures Meets(a, b, Dot(p)) <==> OnEdge(p, a, b)
  {
    if Meets(a, b, Dot(p)) {
      var t :| OnSegment(a, b, t, Dot(p));
      assert IsOn(p, a, b, t);
    }
    if OnEdge(p, a, b) {
      var t :| IsOn(p, a, b, t);
      assert OnSegment(a, b, t, Dot(p));
    }
  }

  lemma OnRingUnfolds(p: Point, ring: seq<Point>)
    requires |ring| >= 2
    ensures OnRing(p, ring) <==> Meets(ring[0], ring[1], Dot(p)) || OnRing(p, ring[1..])
  {
    var rest := ring[1..];
    if Meets(ring[0], ring[1], Dot(p)) {
      assert Meets(ring[0], ring[0 + 1], Dot(p));
    } else if OnRing(p, rest) {
      var i :| 0 <= i < |rest| - 1 && Meets(rest[i], rest[i + 1], Dot(p));
      assert Meets(ring[i + 1], ring[i + 1 + 1], Dot(p));
    } else {
      forall i | 0 <= i < |ring| - 1 ensures !Meets(ring[i], ring[i + 1], Dot(p)) {
        if i > 0 {
          assert ring[i] == rest[i - 1] && ring[i + 1] == rest[i - 1 + 1];
        }
      }
    }
  }

  lemma {:induction false} RingFromIsParity(p: Point, ring: seq<Point>, inside: bool)
    ensures RingFrom(p, ring, inside, 0.0) <==> OnRing(p, ring) || (inside != (Crossings(p, ring) % 2 == 1))
    decreases |ring|
  {
    if |ring| >= 2 {
      ClipIsExact(ring[0], ring[1], Dot(p));
      OnRingUnfolds(p, ring);
      RingFromIsParity(p, ring[1..], inside != Crosses(p, ring[0], ring[1]));
    }
  }

  /** The toggling walk answers by the even-odd rule, with the ring itself counted in. */
  lemma PointInRingIsEvenOdd(p: Point, ring: seq<Point>)
    ensures PointInRing(p, ring, 0.0) <==> InRing(p, ring)
  {
    RingFromIsParity(p, ring, false);
  }

  lemma LineTestIsExact(line: seq<Point>, r: Rect)
    ensures LineIntersectsRect(line, r, 0.0) <==> LineMeets(line, r)
  {
    forall i | 0 <= i < |line| - 1
      ensures SegmentIntersectsRect(line[i], line[i + 1], r, 0.0) <==> Meets(line[i], line[i + 1], r)
    {
      ClipIsExact(line[i], line[i + 1], r);
    }
  }

  ghost predicate StrictlyIn(p: Point, ring: seq<Point>) {
    InRing(p, ring) && !OnRing(p, ring)
  }

  /** Hole i is the first that holds the point, on its edge or inside. */
  ghost predicate FirstHolds(p: Point, holes: seq<seq<Point>>, i: nat) {
    i < |holes| && InRing(p, holes[i]) && forall j :: 0 <= j < i ==> !InRing(p, holes[j])
  }

  ghost predicate HolesKeep(p: Point, holes: seq<seq<Point>>) {
    forall i: nat | FirstHolds(p, holes, i) :: OnRing(p, holes[i])
  }

  lemma FirstHoldsShifts(p: Point, holes: seq<seq<Point>>, i: nat)
    requires holes != [] && !InRing(p, holes[0])
    ensures FirstHolds(p, holes[1..], i) <==> FirstHolds(p, holes, i + 1)
  {
    if FirstHolds(p, holes[1..], i) {
      forall j | 0 <= j < i + 1 ensures !InRing(p, holes[j]) {
        if j > 0 {
          assert holes[j] == holes[1..][j - 1];
        }
      }
    }
    if FirstHolds(p, holes, i + 1) {
      assert forall j :: 0 <= j < i ==> holes[1..][j] == holes[j + 1];
    }
  }

  /** A point is kept exactly when the first hole that holds it, if there is one, has it
      on its edge. */
  lemma {:induction false} HoleRule(p: Point, holes: seq<seq<Point>>)
    ensures HolesAllow(p, holes, 0.0) <==> HolesKeep(p, holes)
    decreases |holes|
  {
    if holes != [] {
      PointInRingIsEvenOdd(p, holes[0]);
      LineTestIsExact(holes[0], Dot(p));
      if InRing(p, holes[0]) {
        assert FirstHolds(p, holes, 0);
      } else {
        HoleRule(p, holes[1..]);
        forall i: nat ensures FirstHolds(p, holes[1..], i) <==> FirstHolds(p, holes, i + 1) {
          FirstHoldsShifts(p, holes, i);
        }
        forall i: nat | FirstHolds(p, holes, i) ensures i > 0 && holes[i] == holes[1..][i - 1] && FirstHolds(p, holes[1..], i - 1) {
          assert i != 0;
          FirstHoldsShifts(p, holes, i - 1);
        }
        forall i: nat | FirstHolds(p, holes[1..], i) ensures FirstHolds(p, holes, i + 1) && holes[1..][i] == holes[i + 1] {
        }
      }
    }
  }

  ghost predicate NoneHoldsStrictly(p: Point, holes: seq<seq<Point>>) {
    forall h | h in holes :: !StrictlyIn(p, h)
  }

  lemma SomeFirst(p: Point, holes: seq<seq<Point>>, k: nat) returns (i: nat)
    requires k < |holes| && InRing(p, holes[k])
    ensures FirstHolds(p, holes, i)
    decreases k
  {
    if j: nat :| j < k && InRing(p, holes[j]) {
      i := SomeFirst(p, holes, j);
    } else {
      i := k;
    }
  }

  /** The order of the holes matters to a point exactly when the first hole that holds it
      has it on the edge and another holds it strictly; for any other point the rule is
      that no hole holds it strictly. */
  lemma HoleOrderMattersIff(p: Point, holes: seq<seq<Point>>)
    ensures (HolesAllow(p, holes, 0.0) <==> NoneHoldsStrictly(p, holes)) <==>
            !exists i: nat :: FirstHolds(p, holes, i) && OnRing(p, holes[i]) && !NoneHoldsStrictly(p, holes)
  {
    HoleRule(p, holes);
    if !NoneHoldsStrictly(p, holes) {
      var h :| h in holes && StrictlyIn(p, h);
      var k: nat :| k < |holes| && holes[k] == h;
      var i := SomeFirst(p, holes, k);
      forall j: nat | FirstHolds(p, holes, j) ensures j == i {
        OneFirst(p, holes, i, j);
      }
    } else {
      forall i: nat | FirstHolds(p, holes, i) ensures OnRing(p, holes[i]) {
        assert holes[i] in holes && !StrictlyIn(p, holes[i]);
      }
    }
  }

  lemma OneFirst(p: Point, holes: seq<seq<Point>>, i: nat, j: nat)
    requires FirstHolds(p, holes, i) && FirstHolds(p, holes, j)
    ensures i == j
  {
  }

  /** In the polygon: held by the outer ring and kept by the holes. */
  ghost predicate InPolygon(p: Point, rings: seq<seq<Point>>) {
    rings != [] && InRing(p, rings[0]) && HolesKeep(p, rings[1..])
  }

  lemma PointInPolygonIsExact(p: Point, rings: seq<seq<Point>>)
    ensures PointInPolygon(p, rings, 0.0) <==> InPolygon(p, rings)
  {
    if rings != [] {
      PointInRingIsEvenOdd(p, rings[0]);
      HoleRule(p, rings[1..]);
    }
  }

  // ------------------------------------------------ a closed ring holds only points of its box

  lemma CrossingBounds(a: Point, b: Point, y: real)
    requires Straddles(a, b, y)
    ensures MinReal(a.x, b.x) <= CrossingX(a, b, y) <= MaxReal(a.x, b.x)
  {
    InterpolatedBounds(y - a.y, b.x - a.x, b.y - a.y);
  }

  lemma InterpolatedBounds(h: real, dx: real, dy: real)
    requires (dy > 0.0 && 0.0 <= h <= dy) || (dy < 0.0 && dy <= h <= 0.0)
    ensures MinReal(0.0, dx) <= Interpolated(h, dx, dy) <= MaxReal(0.0, dx)
  {
    var shift := Interpolated(h, dx, dy);
    assert shift * dy == h * dx;
    if dy > 0.0 {
      FractionBounds(h, dx, dy, shift);
    } else {
      assert shift * -dy == -h * dx;
      FractionBounds(-h, dx, -dy, shift);
    }
  }

  lemma FractionBounds(h: real, dx: real, dy: real, shift: real)
    requires dy > 0.0 && 0.0 <= h <= dy && shift * dy == h * dx
    ensures MinReal(0.0, dx) <= shift <= MaxReal(0.0, dx)
  {
    Compare(0.0, 0.0, shift, h * dx, dy);
    assert dx * dy == dy * dx;
    Compare(shift, h * dx, dx, dy * dx, dy);
    Compare(dx, dy * dx, shift, h * dx, dy);
    Compare(shift, h * dx, 0.0, 0.0, dy);
    if dx >= 0.0 {
      Monotone(dx, 0.0, h);
      Monotone(dx, h, dy);
    } else {
      Monotone(-dx, 0.0, h);
      Monotone(-dx, h, dy);
    }
  }

  ghost function StraddleCount(y: real, ring: seq<Point>): nat
    decreases |ring|
  {
    if |ring| < 2 then 0 else (if Straddles(ring[0], ring[1], y) then 1 else 0) + StraddleCount(y, ring[1..])
  }

  lemma {:induction false} StraddleParity(y: real, ring: seq<Point>)
    requires ring != []
    ensures StraddleCount(y, ring) % 2 == 1 <==> Straddles(ring[0], ring[|ring| - 1], y)
    decreases |ring|
  {
    if |ring| >= 2 {
      StraddleParity(y, ring[1..]);
    }
  }

  lemma {:induction false} LeftOfAll(p: Point, ring: seq<Point>)
    requires forall v :: v in ring ==> p.x < v.x
    ensures Crossings(p, ring) == StraddleCount(p.y, ring)
    decreases |ring|
  {
    if |ring| >= 2 {
      assert ring[0] in ring && ring[1] in ring;
      if Straddles(ring[0], ring[1], p.y) {
        CrossingBounds(ring[0], ring[1], p.y);
      }
      LeftOfAll(p, ring[1..]);
    }
  }

  lemma {:induction false} ElsewhereOutside(p: Point, ring: seq<Point>)
    requires (forall v :: v in ring ==> v.x < p.x) || (forall v :: v in ring ==> p.y < v.y) || (forall v :: v in ring ==> v.y < p.y)
    ensures Crossings(p, ring) == 0
    decreases |ring|
  {
    if |ring| >= 2 {
      assert ring[0] in ring && ring[1] in ring;
      if Straddles(ring[0], ring[1], p.y) {
        CrossingBounds(ring[0], ring[1], p.y);
      }
      ElsewhereOutside(p, ring[1..]);
    }
  }

  /** A point of a closed ring, or inside it, lies in the box of the ring's vertices. */
  lemma InRingIsInBox(p: Point, ring: seq<Point>)
    requires Closed(ring) && InRing(p, ring)
    ensures InBox(p, ring)
  {
    if OnRing(p, ring) {
      var i :| 0 <= i < |ring| - 1 && Meets(ring[i], ring[i + 1], Dot(p));
      var t :| OnSegment(ring[i], ring[i + 1], t, Dot(p));
      assert PointAt(ring[i], ring[i + 1], t) == p;
      SegmentInBox(ring, ring[i], ring[i + 1], t);
    } else if !InBox(p, ring) {
      assert forall v :: v in ring ==> Coordinate(v, true) == v.x && Coordinate(v, false) == v.y;
      if p.x < Least(ring, true) {
        LeftOfAll(p, ring);
        StraddleParity(p.y, ring);
      } else {
        ElsewhereOutside(p, ring);
      }
    }
  }

  lemma BoxGrows(p: Point, ring: seq<Point>, points: seq<Point>)
    requires ring != [] && points != [] && InBox(p, ring) && forall v :: v in ring ==> v in points
    ensures InBox(p, points)
  {
  }

  // ------------------------------------------------ coverage

  /** What the program promises of one polygon and one cell. */
  ghost predicate AreaReaches(rings: seq<seq<Point>>, r: Rect) {
    || (exists ring, p :: ring in rings && p in ring && InRect(p, r))
    || (exists ring :: ring in rings && LineMeets(ring, r))
    || (exists p :: p in Corners(r) && InPolygon(p, rings))
  }

  lemma PolygonTestIsExact(rings: seq<seq<Point>>, r: Rect)
    ensures PolygonIntersectsRect(rings, r, 0.0) <==> AreaReaches(rings, r)
  {
    forall ring | ring in rings
      ensures RingTouches(ring, r, 0.0) <==> (exists p :: p in ring && InRect(p, r)) || LineMeets(ring, r)
    {
      LineTestIsExact(ring, r);
      assert forall p :: PointInRect(p, r, 0.0) <==> InRect(p, r);
    }
    forall p ensures PointInPolygon(p, rings, 0.0) <==> InPolygon(p, rings) {
      PointInPolygonIsExact(p, rings);
    }
  }

  /** Whatever the tolerance, the cell of every vertex and of every edge is covered. */
  lemma BoundaryIsCovered(rings: seq<seq<Point>>, ring: seq<Point>, precision: int, eps: real, c: Cell)
    requires 0.0 <= eps && InGrid(precision, c) && ring in rings && rings[0] != []
    requires (exists p :: p in ring && InRect(p, Bounds(precision, c))) || LineMeets(ring, Bounds(precision, c))
    ensures c in PolygonCells(rings, precision, eps)
  {
    var points, r := Flatten(rings), Bounds(precision, c);
    OuterRingHasVertex(rings);
    if p :| p in ring && InRect(p, r) {
      assert p in points && Coordinate(p, true) == p.x && Coordinate(p, false) == p.y;
      InBoxIsCandidate(points, p, precision, eps, c);
      assert PointInRect(p, r, eps);
    } else {
      var i :| 0 <= i < |ring| - 1 && Meets(ring[i], ring[i + 1], r);
      assert ring[i] in points && ring[i + 1] in points;
      ReachedIsCandidate(points, ring[i], ring[i + 1], precision, eps, c);
      ClipIsComplete(ring[i], ring[i + 1], r, eps);
    }
    assert RingTouches(ring, r, eps);
  }

  lemma CornersInRect(r: Rect, p: Point)
    requires p in Corners(r) && r.minX <= r.maxX && r.minY <= r.maxY
    ensures InRect(p, r)
  {
  }

  lemma InPolygonIsInBox(rings: seq<seq<Point>>, p: Point)
    requires rings != [] && Closed(rings[0]) && PointInPolygon(p, rings, 0.0)
    ensures Flatten(rings) != [] && InBox(p, Flatten(rings))
  {
    PointInRingIsEvenOdd(p, rings[0]);
    InRingIsInBox(p, rings[0]);
    OuterRingHasVertex(rings);
    assert rings[0] in rings;
    BoxGrows(p, rings[0], Flatten(rings));
  }

  lemma CornerIsCovered(rings: seq<seq<Point>>, p: Point, precision: int, c: Cell)
    requires InGrid(precision, c) && rings != [] && Closed(rings[0])
    requires p in Corners(Bounds(precision, c)) && PointInPolygon(p, rings, 0.0)
    ensures c in PolygonCells(rings, precision, 0.0)
  {
    InPolygonIsInBox(rings, p);
    CornerInBounds(precision, c, p);
    InBoxIsCandidate(Flatten(rings), p, precision, 0.0, c);
    assert PolygonIntersectsRect(rings, Bounds(precision, c), 0.0);
  }

  lemma CornerInBounds(precision: int, c: Cell, p: Point)
    requires InGrid(precision, c) && p in Corners(Bounds(precision, c))
    ensures InRect(p, Bounds(precision, c))
  {
    EdgeOfGrid(precision, c);
    CornersInRect(Bounds(precision, c), p);
  }

  /** A polygon whose outer ring is closed covers exactly the grid cells that hold one of
      its vertices, meet one of its edges, or have a corner inside it. */
  lemma PolygonIsExact(rings: seq<seq<Point>>, precision: int, c: Cell)
    requires rings != [] && Closed(rings[0])
    ensures c in PolygonCells(rings, precision, 0.0) <==> InGrid(precision, c) && AreaReaches(rings, Bounds(precision, c))
  {
    var r := Bounds(precision, c);
    PolygonTestIsExact(rings, r);
    if c in PolygonCells(rings, precision, 0.0) {
      ComponentInGrid(Area(rings), precision, 0.0, c);
    }
    if InGrid(precision, c) && AreaReaches(rings, r) {
      if ring, p :| ring in rings && p in ring && InRect(p, r) {
        BoundaryIsCovered(rings, ring, precision, 0.0, c);
      } else if ring :| ring in rings && LineMeets(ring, r) {
        BoundaryIsCovered(rings, ring, precision, 0.0, c);
      } else {
        var p :| p in Corners(r) && InPolygon(p, rings);
        PointInPolygonIsExact(p, rings);
        CornerIsCovered(rings, p, precision, c);
      }
    }
  }

  ghost predicate SomeAreaReaches(polygons: seq<seq<seq<Point>>>, r: Rect) {
    exists rings :: rings in polygons && AreaReaches(rings, r)
  }

  /** The same for a whole Polygon or MultiPolygon. */
  lemma PolygonsAreExact(g: Geometry, precision: int, c: Cell)
    requires g.Polygon? || g.MultiPolygon?
    requires forall rings :: rings in PolygonsOf(g) ==> rings != [] && Closed(rings[0])
    ensures c in CellsOf(g, precision, 0.0) <==> InGrid(precision, c) && SomeAreaReaches(PolygonsOf(g), Bounds(precision, c))
  {
    InPolygonsCells(PolygonsOf(g), precision, 0.0, c);
    forall rings | rings in PolygonsOf(g)
      ensures c in PolygonCells(rings, precision, 0.0) <==> InGrid(precision, c) && AreaReaches(rings, Bounds(precision, c))
    {
      PolygonIsExact(rings, precision, c);
    }
  }

  // ------------------------------------------------ every kind of geometry

  /** A line of one point covers the cell of the point, any other the cells it meets. */
  ghost predicate LineReaches(line: seq<Point>, precision: int, c: Cell) {
    if |line| == 1 then c == CellAt(precision, line[0])
    else InGrid(precision, c) && LineMeets(line, Bounds(precision, c))
  }

  ghost predicate PolygonReaches(rings: seq<seq<Point>>, precision: int, c: Cell) {
    InGrid(precision, c) && AreaReaches(rings, Bounds(precision, c))
  }

  ghost predicate Reaches(g: Geometry, precision: int, c: Cell) {
    match g
    case PointGeometry(p) => c == CellAt(precision, p)
    case LineString(line) => LineReaches(line, precision, c)
    case MultiLineString(lines) => exists line :: line in lines && LineReaches(line, precision, c)
    case Polygon(rings) => PolygonReaches(rings, precision, c)
    case MultiPolygon(polygons) => exists rings :: rings in polygons && PolygonReaches(rings, precision, c)
    case Other => false
  }

  /** Every polygon of the geometry has a closed outer ring. */
  ghost predicate AllClosed(g: Geometry) {
    match g
    case Polygon(rings) => rings != [] && Closed(rings[0])
    case MultiPolygon(polygons) => forall rings | rings in polygons :: rings != [] && Closed(rings[0])
    case _ => true
  }

  /** For every kind of geometry: which cells it covers. */
  lemma GeometriesAreExact(g: Geometry, precision: int, c: Cell)
    requires AllClosed(g)
    ensures c in CellsOf(g, precision, 0.0) <==> Reaches(g, precision, c)
  {
    if !g.PointGeometry? {
      InLinesCells(LinesOf(g), precision, 0.0, c);
      InPolygonsCells(PolygonsOf(g), precision, 0.0, c);
      forall line | line in LinesOf(g) ensures c in LineCells(line, precision, 0.0) <==> LineReaches(line, precision, c) {
        if |line| != 1 {
          LineIsExact(line, precision, c);
        }
      }
      forall rings | rings in PolygonsOf(g) ensures c in PolygonCells(rings, precision, 0.0) <==> PolygonReaches(rings, precision, c) {
        PolygonIsExact(rings, precision, c);
      }
    }
  }
}
