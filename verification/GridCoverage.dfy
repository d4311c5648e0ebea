/** The Maidenhead cells a GeoJSON geometry covers: candidate index ranges, then a
    test of every candidate cell. */
module GridCoverage {
  import opened Wrappers
  import opened Maidenhead
  import opened Clipping

  datatype Geometry =
    | PointGeometry(at: Point)
    | LineString(line: seq<Point>)
    | MultiLineString(lines: seq<seq<Point>>)
    | Polygon(rings: seq<seq<Point>>)
    | MultiPolygon(polygons: seq<seq<seq<Point>>>)
    | Other

  // ------------------------------------------------ candidate ranges

  /** The program's rounding: ties go to the even neighbour. */
  function RoundHalfEven(x: real): int {
    var down := x.Floor;
    var rest := x - down as real;
    if rest < 0.5 then down
    else if rest > 0.5 then down + 1
    else if down % 2 == 0 then down else down + 1
  }

  function FirstCandidate(low: real, eps: real): int {
    if Abs(low - RoundHalfEven(low) as real) <= eps then RoundHalfEven(low) - 1 else low.Floor
  }

  function FirstIndex(minimum: real, origin: real, step: real, count: int, eps: real): int
    requires step != 0.0
  {
    Clamp(FirstCandidate((minimum - origin) / step, eps), count)
  }

  predicate IsCandidate(k: int, minimum: real, maximum: real, origin: real, step: real, count: int, eps: real)
    requires step != 0.0
  {
    FirstIndex(minimum, origin, step, count, eps) <= k <= ClampedIndex(maximum, origin, step, count)
  }

  /** No cell that reaches into the interval is left out, whatever the tolerance. */
  lemma CandidatesAreComplete(k: int, minimum: real, maximum: real, origin: real, step: real, count: int, eps: real)
    requires step > 0.0 && 0 <= k < count && 0.0 <= eps
    requires minimum <= origin + k as real * step + step && origin + k as real * step <= maximum
    ensures IsCandidate(k, minimum, maximum, origin, step, count, eps)
  {
    var low, high := (minimum - origin) / step, (maximum - origin) / step;
    assert low * step == minimum - origin && high * step == maximum - origin;
    assert (k as real + 1.0) * step == k as real * step + step;
    Compare(low, minimum - origin, k as real + 1.0, k as real * step + step, step);
    Compare(k as real, k as real * step, high, maximum - origin, step);
    FirstIsEarly(low, eps, k);
  }

  lemma FirstIsEarly(low: real, eps: real, k: int)
    requires 0.0 <= eps && low <= k as real + 1.0
    ensures FirstCandidate(low, eps) <= k
  {
    if low == k as real + 1.0 {
      assert RoundHalfEven(low) == k + 1;
    }
  }

  /** The nearest integer, and of two equally near the even one. */
  lemma RoundHalfEvenIs(x: real)
    ensures var n := RoundHalfEven(x);
      && n as real - 0.5 <= x <= n as real + 0.5
      && (x == n as real - 0.5 || x == n as real + 0.5 ==> n % 2 == 0)
  {
  }

  /** The least index whose closed interval comes within the tolerance of the lower bound. */
  lemma FirstCandidateIsLeast(low: real, eps: real, k: int)
    requires 0.0 <= eps < 0.5
    ensures FirstCandidate(low, eps) <= k <==> low - eps <= k as real + 1.0
  {
    RoundHalfEvenIs(low);
    var n := RoundHalfEven(low);
    if Abs(low - n as real) <= eps {
      assert FirstCandidate(low, eps) == n - 1;
    } else {
      assert FirstCandidate(low, eps) == low.Floor;
      assert low.Floor as real <= low < low.Floor as real + 1.0;
    }
  }

  // ------------------------------------------------ rings

  predicate Straddles(a: Point, b: Point, y: real) {
    (a.y > y) != (b.y > y)
  }

  function CrossingX(a: Point, b: Point, y: real): real
    requires a.y != b.y
  {
    a.x + Interpolated(y - a.y, b.x - a.x, b.y - a.y)
  }

  function Interpolated(h: real, dx: real, dy: real): real
    requires dy != 0.0
  {
    h * dx / dy
  }

  predicate Crosses(p: Point, a: Point, b: Point) {
    Straddles(a, b, p.y) && p.x < CrossingX(a, b, p.y)
  }

  /** At t the segment from a to b is at the point's latitude, east of it. */
  ghost predicate PassesEast(p: Point, a: Point, b: Point, t: real) {
    0.0 <= t <= 1.0 && a.y + t * (b.y - a.y) == p.y && p.x < a.x + t * (b.x - a.x)
  }

  /** The segment passes the ray that runs east from the point: its ends lie on different
      sides of the point's latitude, an end on it counting as below, and it passes the
      latitude east of the point. */
  lemma CrossesIs(p: Point, a: Point, b: Point)
    ensures Crosses(p, a, b) <==>
      ((a.y <= p.y < b.y) || (b.y <= p.y < a.y)) && exists t :: PassesEast(p, a, b, t)
  {
    if Straddles(a, b, p.y) {
      var t := (p.y - a.y) / (b.y - a.y);
      PassesAt(p.y - a.y, b.x - a.x, b.y - a.y, t);
      forall u ensures PassesEast(p, a, b, u) ==> u == t {
        OnePassing(p, a, b, u, t);
      }
      assert PassesEast(p, a, b, t) <==> p.x < CrossingX(a, b, p.y);
    }
  }

  lemma OnePassing(p: Point, a: Point, b: Point, u: real, t: real)
    requires a.y != b.y && t * (b.y - a.y) == p.y - a.y
    ensures PassesEast(p, a, b, u) ==> u == t
  {
    if PassesEast(p, a, b, u) {
      SameFraction(u, t, b.y - a.y);
    }
  }

  lemma PassesAt(h: real, dx: real, dy: real, t: real)
    requires (dy > 0.0 && 0.0 <= h <= dy) || (dy < 0.0 && dy <= h <= 0.0)
    requires t == h / dy
    ensures 0.0 <= t <= 1.0 && t * dy == h && t * dx == Interpolated(h, dx, dy)
  {
    assert t * dy == h;
    if dy > 0.0 {
      Unit(t, h, dy);
    } else {
      Unit(t, -h, -dy);
    }
    assert (t * dx) * dy == h * dx;
    Quotient(t * dx, h * dx, dy);
  }

  lemma Unit(t: real, h: real, dy: real)
    requires dy > 0.0 && t * dy == h && 0.0 <= h <= dy
    ensures 0.0 <= t <= 1.0
  {
    Compare(0.0, 0.0, t, h, dy);
    Compare(t, h, 1.0, dy, dy);
  }

  lemma Quotient(q: real, u: real, dy: real)
    requires dy != 0.0 && q * dy == u
    ensures q == u / dy
  {
  }

  lemma SameFraction(u: real, t: real, dy: real)
    requires dy != 0.0 && u * dy == t * dy
    ensures u == t
  {
    assert (u - t) * dy == 0.0;
  }

  function Dot(p: Point): Rect {
    Rect(p.x, p.y, p.x, p.y)
  }

  predicate RingFrom(p: Point, ring: seq<Point>, inside: bool, eps: real)
    requires 0.0 <= eps
    decreases |ring|
  {
    if |ring| < 2 then inside
    else if SegmentIntersectsRect(ring[0], ring[1], Dot(p), eps) then true
    else RingFrom(p, ring[1..], inside != Crosses(p, ring[0], ring[1]), eps)
  }

  predicate PointInRing(p: Point, ring: seq<Point>, eps: real)
    requires 0.0 <= eps
  {
    RingFrom(p, ring, false, eps)
  }

  method FindPointInRing(p: Point, ring: seq<Point>, eps: real) returns (found: bool)
    requires 0.0 <= eps
    ensures found <==> PointInRing(p, ring, eps)
  {
    var inside := false;
    var i := 0;
    while i + 1 < |ring|
      invariant 0 <= i <= |ring|
      invariant RingFrom(p, ring[i..], inside, eps) <==> PointInRing(p, ring, eps)
    {
      var a, b := ring[i], ring[i + 1];
      assert ring[i..][0] == a && ring[i..][1] == b && ring[i..][1..] == ring[i + 1..];
      if SegmentIntersectsRect(a, b, Dot(p), eps) {
        return true;
      }
      if Straddles(a, b, p.y) {
        var crossing := CrossingX(a, b, p.y);
        if p.x < crossing {
          inside := !inside;
        }
      }
      i := i + 1;
    }
    return inside;
  }

  predicate LineIntersectsRect(points: seq<Point>, r: Rect, eps: real)
    requires 0.0 <= eps
  {
    exists i :: 0 <= i < |points| - 1 && SegmentIntersectsRect(points[i], points[i + 1], r, eps)
  }

  /** The first hole that holds the point decides: its boundary still belongs to the area. */
  predicate HolesAllow(p: Point, holes: seq<seq<Point>>, eps: real)
    requires 0.0 <= eps
    decreases |holes|
  {
    if holes == [] then true
    else if PointInRing(p, holes[0], eps) then LineIntersectsRect(holes[0], Dot(p), eps)
    else HolesAllow(p, holes[1..], eps)
  }

  predicate PointInPolygon(p: Point, rings: seq<seq<Point>>, eps: real)
    requires 0.0 <= eps
  {
    rings != [] && PointInRing(p, rings[0], eps) && HolesAllow(p, rings[1..], eps)
  }

  predicate PointInRect(p: Point, r: Rect, eps: real) {
    r.minX - eps <= p.x <= r.maxX + eps && r.minY - eps <= p.y <= r.maxY + eps
  }

  /** A point counts as in the rectangle if some point of it is no further away than the
      tolerance along each axis. */
  lemma PointInRectIs(p: Point, r: Rect, eps: real)
    requires 0.0 <= eps && r.minX <= r.maxX && r.minY <= r.maxY
    ensures PointInRect(p, r, eps) <==>
      exists q :: InRect(q, r) && -eps <= p.x - q.x <= eps && -eps <= p.y - q.y <= eps
  {
    if PointInRect(p, r, eps) {
      var q := Point(MaxReal(r.minX, MinReal(p.x, r.maxX)), MaxReal(r.minY, MinReal(p.y, r.maxY)));
      assert InRect(q, r);
    }
  }

  function Corners(r: Rect): set<Point> {
    {Point(r.minX, r.minY), Point(r.minX, r.maxY), Point(r.maxX, r.minY), Point(r.maxX, r.maxY)}
  }

  predicate RingTouches(ring: seq<Point>, r: Rect, eps: real)
    requires 0.0 <= eps
  {
    (exists p :: p in ring && PointInRect(p, r, eps)) || LineIntersectsRect(ring, r, eps)
  }

  predicate PolygonIntersectsRect(rings: seq<seq<Point>>, r: Rect, eps: real)
    requires 0.0 <= eps
  {
    || (exists ring :: ring in rings && RingTouches(ring, r, eps))
    || (exists p :: p in Corners(r) && PointInPolygon(p, rings, eps))
  }

  // ------------------------------------------------ one component

  datatype Component = Line(points: seq<Point>) | Area(rings: seq<seq<Point>>)

  function Flatten(rings: seq<seq<Point>>): (points: seq<Point>)
    ensures forall p :: p in points <==> exists ring :: ring in rings && p in ring
    decreases |rings|
  {
    if rings == [] then [] else
      assert rings == [rings[0]] + rings[1..];
      rings[0] + Flatten(rings[1..])
  }

  function Vertices(c: Component): seq<Point> {
    match c
    case Line(points) => points
    case Area(rings) => Flatten(rings)
  }

  function Least(points: seq<Point>, onX: bool): (least: real)
    requires points != []
    ensures forall p :: p in points ==> least <= Coordinate(p, onX)
    ensures exists p :: p in points && least == Coordinate(p, onX)
    decreases |points|
  {
    assert points[0] in points;
    if |points| == 1 then Coordinate(points[0], onX)
    else MinReal(Coordinate(points[0], onX), Least(points[1..], onX))
  }

  function Greatest(points: seq<Point>, onX: bool): (greatest: real)
    requires points != []
    ensures forall p :: p in points ==> Coordinate(p, onX) <= greatest
    ensures exists p :: p in points && greatest == Coordinate(p, onX)
    decreases |points|
  {
    assert points[0] in points;
    if |points| == 1 then Coordinate(points[0], onX)
    else MaxReal(Coordinate(points[0], onX), Greatest(points[1..], onX))
  }

  function Coordinate(p: Point, onX: bool): real {
    if onX then p.x else p.y
  }

  predicate Candidate(points: seq<Point>, precision: int, eps: real, c: Cell)
    requires points != []
  {
    && IsCandidate(c.x, Least(points, true), Greatest(points, true), -180.0, LonStep(precision), Columns(precision), eps)
    && IsCandidate(c.y, Least(points, false), Greatest(points, false), -90.0, LatStep(precision), Rows(precision), eps)
  }

  predicate Touches(c: Component, r: Rect, eps: real)
    requires 0.0 <= eps
  {
    match c
    case Line(points) => LineIntersectsRect(points, r, eps)
    case Area(rings) => PolygonIntersectsRect(rings, r, eps)
  }

  ghost predicate ComponentCovers(c: Component, precision: int, eps: real, cell: Cell)
    requires 0.0 <= eps
  {
    && Vertices(c) != []
    && Candidate(Vertices(c), precision, eps, cell)
    && Touches(c, Bounds(precision, cell), eps)
  }

  ghost function ComponentCells(c: Component, precision: int, eps: real): (cells: set<Cell>)
    requires 0.0 <= eps
    ensures forall cell :: cell in cells <==> ComponentCovers(c, precision, eps, cell)
  {
    GridSize(precision);
    set x, y | 0 <= x < Columns(precision) && 0 <= y < Rows(precision) &&
               ComponentCovers(c, precision, eps, Cell(x, y)) :: Cell(x, y)
  }

  method CellsForComponent(c: Component, precision: int, eps: real) returns (cells: set<Cell>)
    requires 0.0 <= eps && Vertices(c) != []
    ensures cells == ComponentCells(c, precision, eps)
  {
    var points := Vertices(c);
    var columns, rows := Columns(precision), Rows(precision);
    cells := CellsWhere(
      FirstIndex(Least(points, true), -180.0, LonStep(precision), columns, eps),
      ClampedIndex(Greatest(points, true), -180.0, LonStep(precision), columns),
      FirstIndex(Least(points, false), -90.0, LatStep(precision), rows, eps),
      ClampedIndex(Greatest(points, false), -90.0, LatStep(precision), rows),
      (cell: Cell) => Touches(c, Bounds(precision, cell), eps));
  }

  /** Visits the cells of an index range column by column. */
  method CellsWhere(firstX: int, lastX: int, firstY: int, lastY: int, intersects: Cell -> bool)
    returns (cells: set<Cell>)
    ensures forall c :: c in cells <==> firstX <= c.x <= lastX && firstY <= c.y <= lastY && intersects(c)
  {
    cells := {};
    var x := firstX;
    while x <= lastX
      invariant forall c :: c in cells <==>
        firstX <= c.x <= lastX && firstY <= c.y <= lastY && c.x < x && intersects(c)
    {
      var y := firstY;
      while y <= lastY
        invariant forall c :: c in cells <==>
          && firstX <= c.x <= lastX && firstY <= c.y <= lastY
          && (c.x < x || (c.x == x && c.y < y)) && intersects(c)
      {
        if intersects(Cell(x, y)) {
          cells := cells + {Cell(x, y)};
        }
        y := y + 1;
      }
      x := x + 1;
    }
  }

  // ------------------------------------------------ a geometry

  function LinesOf(g: Geometry): seq<seq<Point>> {
    match g
    case LineString(line) => [line]
    case MultiLineString(lines) => lines
    case _ => []
  }

  function PolygonsOf(g: Geometry): seq<seq<seq<Point>>> {
    match g
    case Polygon(rings) => [rings]
    case MultiPolygon(polygons) => polygons
    case _ => []
  }

  ghost function SegmentCells(line: seq<Point>, precision: int, eps: real): set<Cell>
    requires 0.0 <= eps
    decreases |line|
  {
    if |line| < 2 then {}
    else ComponentCells(Line([line[0], line[1]]), precision, eps) + SegmentCells(line[1..], precision, eps)
  }

  /** A line of one point covers the cell of that point; a longer one is taken segment
      by segment. */
  ghost function LineCells(line: seq<Point>, precision: int, eps: real): set<Cell>
    requires 0.0 <= eps
  {
    if |line| == 1 then {CellAt(precision, line[0])} else SegmentCells(line, precision, eps)
  }

  ghost function LinesCells(lines: seq<seq<Point>>, precision: int, eps: real): set<Cell>
    requires 0.0 <= eps
    decreases |lines|
  {
    if lines == [] then {} else LineCells(lines[0], precision, eps) + LinesCells(lines[1..], precision, eps)
  }

  /** A polygon without an outer ring is skipped. */
  ghost function PolygonCells(rings: seq<seq<Point>>, precision: int, eps: real): set<Cell>
    requires 0.0 <= eps
  {
    if rings != [] && rings[0] != [] then ComponentCells(Area(rings), precision, eps) else {}
  }

  ghost function PolygonsCells(polygons: seq<seq<seq<Point>>>, precision: int, eps: real): set<Cell>
    requires 0.0 <= eps
    decreases |polygons|
  {
    if polygons == [] then {} else PolygonCells(polygons[0], precision, eps) + PolygonsCells(polygons[1..], precision, eps)
  }

  ghost function CellsOf(g: Geometry, precision: int, eps: real): set<Cell>
    requires 0.0 <= eps
  {
    if g.PointGeometry? then {CellAt(precision, g.at)}
    else LinesCells(LinesOf(g), precision, eps) + PolygonsCells(PolygonsOf(g), precision, eps)
  }

  method WalkLine(line: seq<Point>, precision: int, eps: real) returns (cells: set<Cell>)
    requires 0.0 <= eps
    ensures cells == LineCells(line, precision, eps)
  {
    cells := {};
    if |line| == 1 {
      return {CellAt(precision, line[0])};
    }
    if |line| >= 2 {
      for i := 0 to |line| - 1
        invariant cells + SegmentCells(line[i..], precision, eps) == LineCells(line, precision, eps)
      {
        assert line[i..][0] == line[i] && line[i..][1] == line[i + 1] && line[i..][1..] == line[i + 1..];
        var found := CellsForComponent(Line([line[i], line[i + 1]]), precision, eps);
        cells := cells + found;
      }
    }
  }

  method WalkLines(lines: seq<seq<Point>>, precision: int, eps: real) returns (cells: set<Cell>)
    requires 0.0 <= eps
    ensures cells == LinesCells(lines, precision, eps)
  {
    cells := {};
    for i := 0 to |lines|
      invariant cells + LinesCells(lines[i..], precision, eps) == LinesCells(lines, precision, eps)
    {
      assert lines[i..][0] == lines[i] && lines[i..][1..] == lines[i + 1..];
      var found := WalkLine(lines[i], precision, eps);
      cells := cells + found;
    }
  }

  method WalkPolygons(polygons: seq<seq<seq<Point>>>, precision: int, eps: real) returns (cells: set<Cell>)
    requires 0.0 <= eps
    ensures cells == PolygonsCells(polygons, precision, eps)
  {
    cells := {};
    for i := 0 to |polygons|
      invariant cells + PolygonsCells(polygons[i..], precision, eps) == PolygonsCells(polygons, precision, eps)
    {
      assert polygons[i..][0] == polygons[i] && polygons[i..][1..] == polygons[i + 1..];
      if polygons[i] != [] && polygons[i][0] != [] {
        OuterRingHasVertex(polygons[i]);
        var found := CellsForComponent(Area(polygons[i]), precision, eps);
        cells := cells + found;
      }
    }
  }

  /** The program's walk over all lines and then all polygons. */
  method CellIndices(g: Geometry, precision: int, eps: real) returns (cells: set<Cell>)
    requires 0.0 <= eps && !g.PointGeometry?
    ensures cells == CellsOf(g, precision, eps)
  {
    var fromLines := WalkLines(LinesOf(g), precision, eps);
    var fromPolygons := WalkPolygons(PolygonsOf(g), precision, eps);
    cells := fromLines + fromPolygons;
  }

  lemma OuterRingHasVertex(rings: seq<seq<Point>>)
    requires rings != [] && rings[0] != []
    ensures Flatten(rings) != []
  {
    assert rings[0][0] in rings[0] && rings[0] in rings;
    assert rings[0][0] in Flatten(rings);
  }

  // ------------------------------------------------ membership, and the grid

  lemma CandidateInRange(k: int, minimum: real, maximum: real, origin: real, step: real, count: int, eps: real)
    requires step != 0.0 && count > 0
    ensures IsCandidate(k, minimum, maximum, origin, step, count, eps) ==> 0 <= k < count
  {
  }

  lemma CandidateInGrid(points: seq<Point>, precision: int, eps: real, c: Cell)
    requires points != []
    ensures Candidate(points, precision, eps, c) ==> InGrid(precision, c)
  {
    GridSize(precision);
    CandidateInRange(c.x, Least(points, true), Greatest(points, true), -180.0, LonStep(precision), Columns(precision), eps);
    CandidateInRange(c.y, Least(points, false), Greatest(points, false), -90.0, LatStep(precision), Rows(precision), eps);
  }

  lemma ComponentInGrid(c: Component, precision: int, eps: real, cell: Cell)
    requires 0.0 <= eps
    ensures ComponentCovers(c, precision, eps, cell) ==> InGrid(precision, cell)
  {
    if Vertices(c) != [] {
      CandidateInGrid(Vertices(c), precision, eps, cell);
    }
  }

  ghost predicate SegmentCovers(a: Point, b: Point, precision: int, eps: real, c: Cell)
    requires 0.0 <= eps
  {
    c in ComponentCells(Line([a, b]), precision, eps)
  }

  lemma {:induction false} InSegmentCells(line: seq<Point>, precision: int, eps: real, c: Cell)
    requires 0.0 <= eps
    ensures c in SegmentCells(line, precision, eps) <==>
      exists i :: 0 <= i < |line| - 1 && SegmentCovers(line[i], line[i + 1], precision, eps, c)
    decreases |line|
  {
    if |line| >= 2 {
      var rest := line[1..];
      InSegmentCells(rest, precision, eps, c);
      if c in SegmentCells(rest, precision, eps) {
        var i :| 0 <= i < |rest| - 1 && SegmentCovers(rest[i], rest[i + 1], precision, eps, c);
        assert SegmentCovers(line[i + 1], line[i + 1 + 1], precision, eps, c);
      } else if SegmentCovers(line[0], line[1], precision, eps, c) {
        assert SegmentCovers(line[0], line[0 + 1], precision, eps, c);
      } else {
        forall i | 0 <= i < |line| - 1 ensures !SegmentCovers(line[i], line[i + 1], precision, eps, c) {
          if i > 0 {
            assert line[i] == rest[i - 1] && line[i + 1] == rest[i - 1 + 1];
          }
        }
      }
    }
  }

  lemma {:induction false} InLinesCells(lines: seq<seq<Point>>, precision: int, eps: real, c: Cell)
    requires 0.0 <= eps
    ensures c in LinesCells(lines, precision, eps) <==> exists line :: line in lines && c in LineCells(line, precision, eps)
    decreases |lines|
  {
    if lines != [] {
      InLinesCells(lines[1..], precision, eps, c);
      assert lines == [lines[0]] + lines[1..];
    }
  }

  lemma {:induction false} InPolygonsCells(polygons: seq<seq<seq<Point>>>, precision: int, eps: real, c: Cell)
    requires 0.0 <= eps
    ensures c in PolygonsCells(polygons, precision, eps) <==>
      exists rings :: rings in polygons && c in PolygonCells(rings, precision, eps)
    decreases |polygons|
  {
    if polygons != [] {
      InPolygonsCells(polygons[1..], precision, eps, c);
      assert polygons == [polygons[0]] + polygons[1..];
    }
  }

  lemma LineInGrid(line: seq<Point>, precision: int, eps: real, c: Cell)
    requires 0.0 <= eps && c in LineCells(line, precision, eps)
    ensures InGrid(precision, c)
  {
    if |line| == 1 {
      CellAtInGrid(precision, line[0]);
    } else {
      InSegmentCells(line, precision, eps, c);
      var i :| 0 <= i < |line| - 1 && SegmentCovers(line[i], line[i + 1], precision, eps, c);
      ComponentInGrid(Line([line[i], line[i + 1]]), precision, eps, c);
    }
  }

  /** Every covered cell is a cell of the grid. */
  lemma CoveredInGrid(g: Geometry, precision: int, eps: real, c: Cell)
    requires 0.0 <= eps && c in CellsOf(g, precision, eps)
    ensures InGrid(precision, c)
  {
    if g.PointGeometry? {
      CellAtInGrid(precision, g.at);
    } else if c in LinesCells(LinesOf(g), precision, eps) {
      InLinesCells(LinesOf(g), precision, eps, c);
      var line :| line in LinesOf(g) && c in LineCells(line, precision, eps);
      LineInGrid(line, precision, eps, c);
    } else {
      InPolygonsCells(PolygonsOf(g), precision, eps, c);
      var rings :| rings in PolygonsOf(g) && c in PolygonCells(rings, precision, eps);
      ComponentInGrid(Area(rings), precision, eps, c);
    }
  }

  ghost predicate IsName(precision: int, c: Cell, s: string) {
    InGrid(precision, c) && Name(precision, c) == s
  }

  method CoveredCells(g: Geometry, precision: int, eps: real) returns (r: Result<set<string>, Error>)
    requires 0.0 <= eps && precision in {4, 6}
    ensures r.Failure? <==> g.Other? || (g.PointGeometry? && !IsWgs84(g.at))
    ensures g.Other? ==> r == Failure(UnsupportedGeometry)
    ensures r.Success? ==> forall s :: s in r.value <==>
      exists c :: c in CellsOf(g, precision, eps) && IsName(precision, c, s)
  {
    if g.PointGeometry? {
      LocatorNamesCell(g.at, precision);
      var name := LocatorForPoint(g.at, precision);
      if name.Success? {
        assert IsName(precision, CellAt(precision, g.at), name.value);
        return Success({name.value});
      }
      return Failure(name.error);
    }
    if g.Other? {
      return Failure(UnsupportedGeometry);
    }
    var cells := CellIndices(g, precision, eps);
    forall c | c in cells
      ensures LocatorForPoint(Centre(precision, c), precision).Success?
      ensures IsName(precision, c, LocatorForPoint(Centre(precision, c), precision).value)
    {
      CoveredInGrid(g, precision, eps, c);
      CentreNamesCell(precision, c);
    }
    return Success(set c | c in cells :: LocatorForPoint(Centre(precision, c), precision).value);
  }
}
