/** Points and lines: the covered cells are exactly the closed cells some part of the
    line meets, and the short locators are the prefixes of the long ones. */
module LineCoverage {
  import opened Wrappers
  import opened Maidenhead
  import opened Clipping
  import opened GridCoverage

  /** Some part of the line lies in the closed rectangle. */
  ghost predicate LineMeets(line: seq<Point>, r: Rect) {
    exists i :: 0 <= i < |line| - 1 && Meets(line[i], line[i + 1], r)
  }

  ghost predicate SomeLineMeets(lines: seq<seq<Point>>, r: Rect) {
    exists line :: line in lines && LineMeets(line, r)
  }

  lemma Between(u: real, d: real, t: real, least: real, greatest: real)
    requires 0.0 <= t <= 1.0 && least <= u <= greatest && least <= u + d <= greatest
    ensures least <= u + t * d <= greatest
  {
    if d >= 0.0 {
      Monotone(t, 0.0, d);
      Monotone(d, t, 1.0);
    } else {
      Monotone(t, d, 0.0);
      Monotone(-d, t, 1.0);
    }
  }

  lemma AxisCandidate(v: real, least: real, greatest: real, k: int, origin: real, step: real, count: int, eps: real)
    requires step > 0.0 && 0 <= k < count && 0.0 <= eps && least <= v <= greatest && OnAxis(v, origin, k, step)
    ensures IsCandidate(k, least, greatest, origin, step, count, eps)
  {
    CandidatesAreComplete(k, least, greatest, origin, step, count, eps);
  }

  ghost predicate InBox(p: Point, points: seq<Point>)
    requires points != []
  {
    && Least(points, true) <= p.x <= Greatest(points, true)
    && Least(points, false) <= p.y <= Greatest(points, false)
  }

  /** A cell that reaches a point of the component's box is among the candidates. */
  lemma InBoxIsCandidate(points: seq<Point>, p: Point, precision: int, eps: real, c: Cell)
    requires 0.0 <= eps && InGrid(precision, c) && points != []
    requires InRect(p, Bounds(precision, c)) && InBox(p, points)
    ensures Candidate(points, precision, eps, c)
  {
    BoundsAreAxes(precision, c, p);
    AxisCandidate(p.x, Least(points, true), Greatest(points, true), c.x, -180.0, LonStep(precision), Columns(precision), eps);
    AxisCandidate(p.y, Least(points, false), Greatest(points, false), c.y, -90.0, LatStep(precision), Rows(precision), eps);
  }

  lemma MovedInBox(points: seq<Point>, a: Point, dx: real, dy: real, t: real)
    requires points != [] && a in points && Point(a.x + dx, a.y + dy) in points && 0.0 <= t <= 1.0
    ensures InBox(Moved(a, dx, dy, t), points)
  {
    var b := Point(a.x + dx, a.y + dy);
    assert Coordinate(a, true) == a.x && Coordinate(b, true) == a.x + dx;
    assert Coordinate(a, false) == a.y && Coordinate(b, false) == a.y + dy;
    Between(a.x, dx, t, Least(points, true), Greatest(points, true));
    Between(a.y, dy, t, Least(points, false), Greatest(points, false));
  }

  lemma SegmentInBox(points: seq<Point>, a: Point, b: Point, t: real)
    requires points != [] && a in points && b in points && 0.0 <= t <= 1.0
    ensures InBox(PointAt(a, b, t), points)
  {
    assert b == Point(a.x + (b.x - a.x), a.y + (b.y - a.y));
    MovedInBox(points, a, b.x - a.x, b.y - a.y, t);
  }

  lemma ReachedIsCandidate(points: seq<Point>, a: Point, b: Point, precision: int, eps: real, c: Cell)
    requires 0.0 <= eps && InGrid(precision, c) && points != []
    requires a in points && b in points && Meets(a, b, Bounds(precision, c))
    ensures Candidate(points, precision, eps, c)
  {
    var t :| OnSegment(a, b, t, Bounds(precision, c));
    SegmentInBox(points, a, b, t);
    InBoxIsCandidate(points, PointAt(a, b, t), precision, eps, c);
  }

  /** Whatever the tolerance, no cell the segment meets is missed. */
  lemma SegmentIsComplete(a: Point, b: Point, precision: int, eps: real, c: Cell)
    requires 0.0 <= eps && InGrid(precision, c) && Meets(a, b, Bounds(precision, c))
    ensures SegmentCovers(a, b, precision, eps, c)
  {
    ReachedIsCandidate([a, b], a, b, precision, eps, c);
    ClipIsComplete(a, b, Bounds(precision, c), eps);
    assert LineIntersectsRect([a, b], Bounds(precision, c), eps) by {
      assert [a, b][0] == a && [a, b][0 + 1] == b;
    }
  }

  /** Whatever the tolerance, a covered cell is met once it is grown by the tolerance. */
  lemma SegmentIsSound(a: Point, b: Point, precision: int, eps: real, c: Cell)
    requires 0.0 <= eps
    ensures SegmentCovers(a, b, precision, eps, c) ==>
      InGrid(precision, c) && Meets(a, b, Grown(a, b, Bounds(precision, c), eps))
  {
    if SegmentCovers(a, b, precision, eps, c) {
      ComponentInGrid(Line([a, b]), precision, eps, c);
      assert LineIntersectsRect([a, b], Bounds(precision, c), eps);
      ClipIsSound(a, b, Bounds(precision, c), eps);
    }
  }

  lemma SegmentIsExact(a: Point, b: Point, precision: int, c: Cell)
    ensures SegmentCovers(a, b, precision, 0.0, c) <==> InGrid(precision, c) && Meets(a, b, Bounds(precision, c))
  {
    if SegmentCovers(a, b, precision, 0.0, c) {
      SegmentIsSound(a, b, precision, 0.0, c);
      GrownByNothing(a, b, Bounds(precision, c));
    }
    if InGrid(precision, c) && Meets(a, b, Bounds(precision, c)) {
      SegmentIsComplete(a, b, precision, 0.0, c);
    }
  }

  /** A line of two points or more covers exactly the cells it meets. */
  lemma LineIsExact(line: seq<Point>, precision: int, c: Cell)
    requires |line| != 1
    ensures c in LineCells(line, precision, 0.0) <==> InGrid(precision, c) && LineMeets(line, Bounds(precision, c))
  {
    InSegmentCells(line, precision, 0.0, c);
    forall i | 0 <= i < |line| - 1
      ensures SegmentCovers(line[i], line[i + 1], precision, 0.0, c) <==>
              InGrid(precision, c) && Meets(line[i], line[i + 1], Bounds(precision, c))
    {
      SegmentIsExact(line[i], line[i + 1], precision, c);
    }
  }

  lemma LineIsComplete(line: seq<Point>, precision: int, eps: real, c: Cell)
    requires 0.0 <= eps && |line| != 1 && InGrid(precision, c) && LineMeets(line, Bounds(precision, c))
    ensures c in LineCells(line, precision, eps)
  {
    var i :| 0 <= i < |line| - 1 && Meets(line[i], line[i + 1], Bounds(precision, c));
    SegmentIsComplete(line[i], line[i + 1], precision, eps, c);
    InSegmentCells(line, precision, eps, c);
  }

  /** The cells of a LineString or MultiLineString are exactly the grid cells that some
      of its lines meets: none is missed on a shared edge or on the edge of the globe,
      and none is spurious. */
  lemma LinesAreExact(g: Geometry, precision: int, c: Cell)
    requires g.LineString? || g.MultiLineString?
    requires forall line :: line in LinesOf(g) ==> |line| != 1
    ensures c in CellsOf(g, precision, 0.0) <==> InGrid(precision, c) && SomeLineMeets(LinesOf(g), Bounds(precision, c))
  {
    InLinesCells(LinesOf(g), precision, 0.0, c);
    forall line | line in LinesOf(g)
      ensures c in LineCells(line, precision, 0.0) <==> InGrid(precision, c) && LineMeets(line, Bounds(precision, c))
    {
      LineIsExact(line, precision, c);
    }
  }

  /** The first half holds for every tolerance. */
  lemma LinesAreComplete(g: Geometry, precision: int, eps: real, c: Cell)
    requires 0.0 <= eps && (g.LineString? || g.MultiLineString?)
    requires forall line :: line in LinesOf(g) ==> |line| != 1
    requires InGrid(precision, c) && SomeLineMeets(LinesOf(g), Bounds(precision, c))
    ensures c in CellsOf(g, precision, eps)
  {
    var line :| line in LinesOf(g) && LineMeets(line, Bounds(precision, c));
    LineIsComplete(line, precision, eps, c);
    InLinesCells(LinesOf(g), precision, eps, c);
  }

  // ------------------------------------------------ prefixes

  lemma ParentInGrid(c: Cell)
    requires InGrid(6, c)
    ensures InGrid(4, Parent(c)) && Name(4, Parent(c)) == Name(6, c)[..4]
  {
    GridSize(4);
    GridSize(6);
    assert Name(6, c)[..4] == SquareName(Parent(c));
  }

  lemma FlatParent(u: real)
    ensures Clamp((u / 2.0).Floor, 180) == Clamp((u * 12.0).Floor, 4320) / 24
  {
    var square, rest := (u / 2.0).Floor, ((u / 2.0 - (u / 2.0).Floor as real) * 24.0).Floor;
    assert (u * 12.0).Floor == 24 * square + rest && 0 <= rest < 24;
  }

  lemma CellParent(p: Point)
    ensures CellAt(4, p) == Parent(CellAt(6, p))
  {
    GridSize(4);
    GridSize(6);
    FlatIndex(p.x + 180.0);
    FlatIndex(p.y + 90.0);
    FlatParent(p.x + 180.0);
    FlatParent(2.0 * (p.y + 90.0));
  }

  lemma StepSizes()
    ensures LonStep(4) == 24.0 * LonStep(6) && LatStep(4) == 24.0 * LatStep(6)
  {
  }

  lemma SplitOffset(q: real, rest: real, step: real, wide: real)
    requires wide == 24.0 * step
    ensures (24.0 * q + rest) * step == q * wide + rest * step
  {
  }

  lemma RestFits(rest: real, step: real, wide: real)
    requires step > 0.0 && wide == 24.0 * step && 0.0 <= rest <= 23.0
    ensures 0.0 <= rest * step && rest * step + step <= wide
  {
    Monotone(step, 0.0, rest);
    Monotone(step, rest, 23.0);
  }

  lemma AxisParent(k: int, origin: real, v: real, step: real, wide: real)
    requires step > 0.0 && wide == 24.0 * step && OnAxis(v, origin, k, step)
    ensures OnAxis(v, origin, k / 24, wide)
  {
    var q, rest := (k / 24) as real, (k % 24) as real;
    assert k as real == 24.0 * q + rest;
    SplitOffset(q, rest, step, wide);
    RestFits(rest, step, wide);
  }

  /** A subsquare lies inside its square. */
  lemma SubsquareInSquare(c: Cell, p: Point)
    requires InGrid(6, c) && InRect(p, Bounds(6, c))
    ensures InRect(p, Bounds(4, Parent(c)))
  {
    ParentInGrid(c);
    BoundsAreAxes(6, c, p);
    BoundsAreAxes(4, Parent(c), p);
    StepSizes();
    AxisParent(c.x, -180.0, p.x, LonStep(6), LonStep(4));
    AxisParent(c.y, -90.0, p.y, LatStep(6), LatStep(4));
  }

  /** A square is the union of its subsquares. */
  lemma AxisChild(k: int, origin: real, v: real, step: real, wide: real) returns (j: int)
    requires step > 0.0 && wide == 24.0 * step && 0 <= k && OnAxis(v, origin, k, wide)
    ensures j / 24 == k && OnAxis(v, origin, j, step)
  {
    var rest := v - origin - k as real * wide;
    var q := rest / step;
    assert q * step == rest;
    Compare(0.0, 0.0, q, rest, step);
    Compare(q, rest, 24.0, wide, step);
    var i := Clamp(q.Floor, 24);
    Scale(i as real, q, step);
    Scale(q, i as real + 1.0, step);
    assert (i as real + 1.0) * step == i as real * step + step;
    j := 24 * k + i;
    assert j as real == 24.0 * k as real + i as real;
    SplitOffset(k as real, i as real, step, wide);
  }

  lemma SquareHasSubsquare(c: Cell, p: Point) returns (d: Cell)
    requires InGrid(4, c) && InRect(p, Bounds(4, c))
    ensures InGrid(6, d) && Parent(d) == c && InRect(p, Bounds(6, d))
  {
    GridSize(4);
    GridSize(6);
    StepSizes();
    BoundsAreAxes(4, c, p);
    var x := AxisChild(c.x, -180.0, p.x, LonStep(6), LonStep(4));
    var y := AxisChild(c.y, -90.0, p.y, LatStep(6), LatStep(4));
    d := Cell(x, y);
    BoundsAreAxes(6, d, p);
  }

  lemma LineSquares(line: seq<Point>, c: Cell)
    ensures c in LineCells(line, 4, 0.0) <==> exists d :: d in LineCells(line, 6, 0.0) && Parent(d) == c
  {
    if |line| == 1 {
      CellParent(line[0]);
      assert CellAt(6, line[0]) in LineCells(line, 6, 0.0);
    } else {
      if c in LineCells(line, 4, 0.0) {
        LineIsExact(line, 4, c);
        var i :| 0 <= i < |line| - 1 && Meets(line[i], line[i + 1], Bounds(4, c));
        var t :| OnSegment(line[i], line[i + 1], t, Bounds(4, c));
        var d := SquareHasSubsquare(c, PointAt(line[i], line[i + 1], t));
        assert OnSegment(line[i], line[i + 1], t, Bounds(6, d));
        LineIsExact(line, 6, d);
      }
      forall d | d in LineCells(line, 6, 0.0) && Parent(d) == c ensures c in LineCells(line, 4, 0.0) {
        LineIsExact(line, 6, d);
        var i :| 0 <= i < |line| - 1 && Meets(line[i], line[i + 1], Bounds(6, d));
        var t :| OnSegment(line[i], line[i + 1], t, Bounds(6, d));
        SubsquareInSquare(d, PointAt(line[i], line[i + 1], t));
        assert OnSegment(line[i], line[i + 1], t, Bounds(4, c));
        ParentInGrid(d);
        LineIsExact(line, 4, c);
      }
    }
  }

  /** For a point or lines the covered squares are exactly the parents of the covered
      subsquares, lines of one point and points off the globe included. */
  lemma SquaresAreParents(g: Geometry, c: Cell)
    requires g.PointGeometry? || g.LineString? || g.MultiLineString?
    ensures c in CellsOf(g, 4, 0.0) <==> exists d :: d in CellsOf(g, 6, 0.0) && Parent(d) == c
  {
    if g.PointGeometry? {
      CellParent(g.at);
      assert CellAt(6, g.at) in CellsOf(g, 6, 0.0);
    } else {
      InLinesCells(LinesOf(g), 4, 0.0, c);
      if c in CellsOf(g, 4, 0.0) {
        var line :| line in LinesOf(g) && c in LineCells(line, 4, 0.0);
        LineSquares(line, c);
        var d :| d in LineCells(line, 6, 0.0) && Parent(d) == c;
        InLinesCells(LinesOf(g), 6, 0.0, d);
      }
      forall d | d in CellsOf(g, 6, 0.0) && Parent(d) == c ensures c in CellsOf(g, 4, 0.0) {
        InLinesCells(LinesOf(g), 6, 0.0, d);
        var line :| line in LinesOf(g) && d in LineCells(line, 6, 0.0);
        LineSquares(line, c);
      }
    }
  }

  datatype Fields = Fields(squares: set<string>, locators: set<string>)

  /** The two derived fields of an entity; without tolerance the short locators of a
      point or a line are the four-character fronts of its long ones. */
  method MaidenheadFields(g: Geometry, eps: real) returns (r: Result<Fields, Error>)
    requires 0.0 <= eps
    ensures r.Failure? <==> g.Other? || (g.PointGeometry? && !IsWgs84(g.at))
    ensures r.Success? ==> forall s :: s in r.value.squares <==> exists c :: c in CellsOf(g, 4, eps) && IsName(4, c, s)
    ensures r.Success? ==> forall s :: s in r.value.locators <==> exists c :: c in CellsOf(g, 6, eps) && IsName(6, c, s)
    ensures r.Success? && eps == 0.0 && PolygonsOf(g) == [] && !g.MultiPolygon? ==>
      forall s :: s in r.value.squares <==> exists long :: long in r.value.locators && |long| == 6 && long[..4] == s
  {
    var squares := CoveredCells(g, 4, eps);
    if squares.Failure? {
      return Failure(squares.error);
    }
    var locators := CoveredCells(g, 6, eps);
    if eps == 0.0 && PolygonsOf(g) == [] && !g.MultiPolygon? {
      PrefixesOfLocators(g, squares.value, locators.value);
    }
    return Success(Fields(squares.value, locators.value));
  }

  lemma PrefixesOfLocators(g: Geometry, squares: set<string>, locators: set<string>)
    requires g.PointGeometry? || g.LineString? || g.MultiLineString?
    requires forall s :: s in squares <==> exists c :: c in CellsOf(g, 4, 0.0) && IsName(4, c, s)
    requires forall s :: s in locators <==> exists c :: c in CellsOf(g, 6, 0.0) && IsName(6, c, s)
    ensures forall s :: s in squares <==> exists long :: long in locators && |long| == 6 && long[..4] == s
  {
    forall s ensures s in squares <==> exists long :: long in locators && |long| == 6 && long[..4] == s {
      if s in squares {
        var c :| c in CellsOf(g, 4, 0.0) && IsName(4, c, s);
        SquaresAreParents(g, c);
        var d :| d in CellsOf(g, 6, 0.0) && Parent(d) == c;
        CoveredInGrid(g, 6, 0.0, d);
        ParentInGrid(d);
        assert IsName(6, d, Name(6, d));
        assert Name(6, d) in locators;
      }
      forall long | long in locators && |long| == 6 && long[..4] == s ensures s in squares {
        var d :| d in CellsOf(g, 6, 0.0) && IsName(6, d, long);
        ParentInGrid(d);
        SquaresAreParents(g, Parent(d));
        assert IsName(4, Parent(d), s);
      }
    }
  }
}
