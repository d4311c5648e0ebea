/** Maidenhead locators: naming a WGS84 point by nested field, square and subsquare,
    against one flat grid of cells and its own decoder.

    Coordinates are real numbers. */
module Maidenhead {
  import opened Wrappers

  datatype Point = Point(x: real, y: real)

  datatype Rect = Rect(minX: real, minY: real, maxX: real, maxY: real)

  datatype Cell = Cell(x: int, y: int)

  datatype Error = BadPrecision | NotWgs84 | UnsupportedGeometry

  // ------------------------------------------------ the grid

  function LonStep(precision: int): real {
    if precision == 4 then 2.0 else 1.0 / 12.0
  }

  function LatStep(precision: int): real {
    if precision == 4 then 1.0 else 1.0 / 24.0
  }

  function Columns(precision: int): int {
    (360.0 / LonStep(precision)).Floor
  }

  function Rows(precision: int): int {
    (180.0 / LatStep(precision)).Floor
  }

  lemma GridSize(precision: int)
    ensures Columns(precision) == Rows(precision) == if precision == 4 then 180 else 4320
  {
    if precision != 4 {
      assert 360.0 / (1.0 / 12.0) == 4320.0;
      assert 180.0 / (1.0 / 24.0) == 4320.0;
    }
  }

  predicate InGrid(precision: int, c: Cell) {
    0 <= c.x < Columns(precision) && 0 <= c.y < Rows(precision)
  }

  function Bounds(precision: int, c: Cell): Rect {
    var minX, minY := -180.0 + c.x as real * LonStep(precision), -90.0 + c.y as real * LatStep(precision);
    Rect(minX, minY, MinReal(180.0, minX + LonStep(precision)), MinReal(90.0, minY + LatStep(precision)))
  }

  function MinReal(a: real, b: real): real {
    if b < a then b else a
  }

  function MaxReal(a: real, b: real): real {
    if a < b then b else a
  }

  function Centre(precision: int, c: Cell): Point {
    Point(-180.0 + (c.x as real + 0.5) * LonStep(precision), -90.0 + (c.y as real + 0.5) * LatStep(precision))
  }

  predicate InRect(p: Point, r: Rect) {
    r.minX <= p.x <= r.maxX && r.minY <= p.y <= r.maxY
  }

  /** The cell a point belongs to: a shared edge belongs to the cell east or north of
      it, and the outermost edges to the last cells. */
  ghost predicate Owns(precision: int, c: Cell, p: Point) {
    var r := Bounds(precision, c);
    && InGrid(precision, c)
    && InRect(p, r)
    && (p.x < r.maxX || p.x == 180.0)
    && (p.y < r.maxY || p.y == 90.0)
  }

  // ------------------------------------------------ naming

  function Clamp(k: int, count: int): int {
    var low := if k < 0 then 0 else k;
    if count - 1 < low then count - 1 else low
  }

  function ClampedIndex(value: real, origin: real, step: real, count: int): int
    requires step != 0.0
  {
    Clamp(((value - origin) / step).Floor, count)
  }

  predicate IsWgs84(p: Point) {
    -180.0 <= p.x <= 180.0 && -90.0 <= p.y <= 90.0
  }

  function Letter(first: char, k: int): char
    requires 0 <= k < 24 && first <= 'z'
  {
    (first as int + k) as char
  }

  function LocatorForPoint(p: Point, precision: int): Result<string, Error> {
    if precision != 4 && precision != 6 then Failure(BadPrecision)
    else if !IsWgs84(p) then Failure(NotWgs84)
    else
      var x, y := ClampedIndex(p.x, -180.0, 20.0, 18), ClampedIndex(p.y, -90.0, 10.0, 18);
      var lon, lat := p.x + 180.0 - x as real * 20.0, p.y + 90.0 - y as real * 10.0;
      var sx, sy := Clamp((lon / 2.0).Floor, 10), Clamp(lat.Floor, 10);
      var square := [Letter('A', x), Letter('A', y), Letter('0', sx), Letter('0', sy)];
      if precision == 4 then Success(square)
      else
        var restLon, restLat := lon - sx as real * 2.0, lat - sy as real;
        var ssx, ssy := Clamp((restLon * 12.0).Floor, 24), Clamp((restLat * 24.0).Floor, 24);
        Success(square + [Letter('a', ssx), Letter('a', ssy)])
  }

  /** The name of a square, read off its flat indices. */
  ghost function SquareName(c: Cell): string
    requires InGrid(4, c)
  {
    GridSize(4);
    [Letter('A', c.x / 10), Letter('A', c.y / 10), Letter('0', c.x % 10), Letter('0', c.y % 10)]
  }

  ghost function Name(precision: int, c: Cell): string
    requires InGrid(precision, c)
  {
    GridSize(precision);
    GridSize(4);
    if precision == 4 then SquareName(c)
    else SquareName(Parent(c)) + [Letter('a', c.x % 24), Letter('a', c.y % 24)]
  }

  /** The square that contains a subsquare. */
  ghost function Parent(c: Cell): Cell {
    Cell(c.x / 24, c.y / 24)
  }

  function CellAt(precision: int, p: Point): Cell {
    Cell(ClampedIndex(p.x, -180.0, LonStep(precision), Columns(precision)),
         ClampedIndex(p.y, -90.0, LatStep(precision), Rows(precision)))
  }

  ghost function Digit(first: char, count: int, c: char): Option<int> {
    if first as int <= c as int < first as int + count then Some(c as int - first as int) else None
  }

  /** The two indices written by a pair of letters. */
  ghost function Pair(first: char, count: int, s: string): Option<Cell>
    requires |s| == 2
  {
    match (Digit(first, count, s[0]), Digit(first, count, s[1]))
    case (Some(x), Some(y)) => Some(Cell(x, y))
    case _ => None
  }

  ghost function Refine(outer: Option<Cell>, count: int, inner: Option<Cell>): Option<Cell> {
    match (outer, inner)
    case (Some(a), Some(b)) => Some(Cell(a.x * count + b.x, a.y * count + b.y))
    case _ => None
  }

  /** Reading a locator: 18 fields of 10 squares of 24 subsquares, in both directions. */
  ghost function DecodeSquare(s: string): Option<Cell> {
    if |s| != 4 then None else Refine(Pair('A', 18, s[..2]), 10, Pair('0', 10, s[2..]))
  }

  ghost function Decode(precision: int, s: string): Option<Cell> {
    if precision == 4 then DecodeSquare(s)
    else if |s| != 6 then None
    else Refine(DecodeSquare(s[..4]), 24, Pair('a', 24, s[4..]))
  }

  // ------------------------------------------------ names and cells are one to one

  lemma ReadPair(first: char, count: int, x: int, y: int)
    requires 0 <= x < count <= 24 && 0 <= y < count && first <= 'z'
    ensures Pair(first, count, [Letter(first, x), Letter(first, y)]) == Some(Cell(x, y))
  {
  }

  lemma Rejoin(n: int, k: int)
    requires n in {10, 24}
    ensures k / n * n + k % n == k
  {
  }

  lemma DecodeSquareName(c: Cell)
    requires InGrid(4, c)
    ensures DecodeSquare(SquareName(c)) == Some(c)
  {
    GridSize(4);
    var s := SquareName(c);
    ReadPair('A', 18, c.x / 10, c.y / 10);
    ReadPair('0', 10, c.x % 10, c.y % 10);
    assert s[..2] == [Letter('A', c.x / 10), Letter('A', c.y / 10)];
    assert s[2..] == [Letter('0', c.x % 10), Letter('0', c.y % 10)];
    Rejoin(10, c.x);
    Rejoin(10, c.y);
  }

  lemma DecodeName(precision: int, c: Cell)
    requires InGrid(precision, c)
    ensures Decode(precision, Name(precision, c)) == Some(c)
  {
    if precision == 4 {
      DecodeSquareName(c);
    } else {
      GridSize(precision);
      GridSize(4);
      var s, letters := Name(precision, c), [Letter('a', c.x % 24), Letter('a', c.y % 24)];
      DecodeSquareName(Parent(c));
      ReadPair('a', 24, c.x % 24, c.y % 24);
      assert s[..4] == SquareName(Parent(c)) && s[4..] == letters;
      Rejoin(24, c.x);
      Rejoin(24, c.y);
    }
  }

  lemma WritePair(first: char, count: int, s: string)
    requires 0 <= count <= 24 && first <= 'z' && |s| == 2 && Pair(first, count, s).Some?
    ensures var c := Pair(first, count, s).value;
      0 <= c.x < count && 0 <= c.y < count && s == [Letter(first, c.x), Letter(first, c.y)]
  {
  }

  lemma SplitIndex(n: int, a: int, b: int)
    requires n in {10, 24} && 0 <= b < n && 0 <= a
    ensures (n * a + b) / n == a && (n * a + b) % n == b
    ensures (a * n + b) / n == a && (a * n + b) % n == b
  {
  }

  lemma SquareNameDecode(s: string)
    requires DecodeSquare(s).Some?
    ensures InGrid(4, DecodeSquare(s).value)
    ensures SquareName(DecodeSquare(s).value) == s
  {
    GridSize(4);
    WritePair('A', 18, s[..2]);
    WritePair('0', 10, s[2..]);
    var field, square := Pair('A', 18, s[..2]).value, Pair('0', 10, s[2..]).value;
    SplitIndex(10, field.x, square.x);
    SplitIndex(10, field.y, square.y);
    assert s == s[..2] + s[2..];
  }

  lemma NameDecode(precision: int, s: string)
    requires Decode(precision, s).Some?
    ensures InGrid(precision, Decode(precision, s).value)
    ensures Name(precision, Decode(precision, s).value) == s
  {
    if precision == 4 {
      SquareNameDecode(s);
    } else {
      GridSize(precision);
      GridSize(4);
      SquareNameDecode(s[..4]);
      WritePair('a', 24, s[4..]);
      var outer, inner := DecodeSquare(s[..4]).value, Pair('a', 24, s[4..]).value;
      SplitIndex(24, outer.x, inner.x);
      SplitIndex(24, outer.y, inner.y);
      assert Parent(Decode(precision, s).value) == outer;
      assert s == s[..4] + s[4..];
    }
  }

  lemma NamesAreDistinct(precision: int, c: Cell, d: Cell)
    requires InGrid(precision, c) && InGrid(precision, d)
    ensures Name(precision, c) == Name(precision, d) <==> c == d
  {
    DecodeName(precision, c);
    DecodeName(precision, d);
  }

  // ------------------------------------------------ nested remainders are flat indices

  lemma NestedSquare(u: real, x: int, sx: int)
    requires 0.0 <= u <= 360.0
    requires x == Clamp((u / 20.0).Floor, 18)
    requires sx == Clamp(((u - x as real * 20.0) / 2.0).Floor, 10)
    ensures 10 * x + sx == Clamp((u / 2.0).Floor, 180)
  {
    var rest := (u - x as real * 20.0) / 2.0;
    assert u / 2.0 == (10 * x) as real + rest;
    assert 0.0 <= rest <= 10.0;
  }

  lemma NestedSubsquare(u: real, sx: int, ssx: int)
    requires 0.0 <= u <= 360.0
    requires sx == Clamp((u / 2.0).Floor, 180)
    requires ssx == Clamp(((u - sx as real * 2.0) * 12.0).Floor, 24)
    ensures 24 * sx + ssx == Clamp((u * 12.0).Floor, 4320)
  {
    var rest := (u - sx as real * 2.0) * 12.0;
    assert u * 12.0 == (24 * sx) as real + rest;
    assert 0.0 <= rest <= 24.0;
  }

  lemma FlatIndex(u: real)
    ensures u / (1.0 / 12.0) == u * 12.0
    ensures u / (1.0 / 24.0) == u * 24.0
  {
  }

  lemma CellAtInGrid(precision: int, p: Point)
    ensures InGrid(precision, CellAt(precision, p))
  {
    GridSize(precision);
  }

  lemma SquareAxes(p: Point)
    requires IsWgs84(p)
    ensures var x, y := ClampedIndex(p.x, -180.0, 20.0, 18), ClampedIndex(p.y, -90.0, 10.0, 18);
      && 0 <= x < 18 && 0 <= y < 18
      && CellAt(4, p) == Cell(
        10 * x + Clamp(((p.x + 180.0 - x as real * 20.0) / 2.0).Floor, 10),
        10 * y + Clamp((p.y + 90.0 - y as real * 10.0).Floor, 10))
  {
    var x, y := ClampedIndex(p.x, -180.0, 20.0, 18), ClampedIndex(p.y, -90.0, 10.0, 18);
    GridSize(4);
    NestedSquare(p.x + 180.0, x, Clamp(((p.x + 180.0 - x as real * 20.0) / 2.0).Floor, 10));
    assert (2.0 * (p.y + 90.0) - y as real * 20.0) / 2.0 == p.y + 90.0 - y as real * 10.0;
    NestedSquare(2.0 * (p.y + 90.0), y, Clamp((p.y + 90.0 - y as real * 10.0).Floor, 10));
  }

  lemma SubsquareAxes(p: Point)
    requires IsWgs84(p)
    ensures var c := CellAt(4, p);
      CellAt(6, p) == Cell(
        24 * c.x + Clamp(((p.x + 180.0 - c.x as real * 2.0) * 12.0).Floor, 24),
        24 * c.y + Clamp(((p.y + 90.0 - c.y as real) * 24.0).Floor, 24))
  {
    GridSize(4);
    GridSize(6);
    var c := CellAt(4, p);
    FlatIndex(p.x + 180.0);
    FlatIndex(p.y + 90.0);
    NestedSubsquare(p.x + 180.0, c.x, Clamp(((p.x + 180.0 - c.x as real * 2.0) * 12.0).Floor, 24));
    assert (2.0 * (p.y + 90.0) - c.y as real * 2.0) * 12.0 == (p.y + 90.0 - c.y as real) * 24.0;
    NestedSubsquare(2.0 * (p.y + 90.0), c.y, Clamp(((p.y + 90.0 - c.y as real) * 24.0).Floor, 24));
  }

  lemma LocatorNamesSquare(p: Point)
    requires IsWgs84(p)
    ensures InGrid(4, CellAt(4, p))
    ensures LocatorForPoint(p, 4) == Success(SquareName(CellAt(4, p)))
  {
    var x, y := ClampedIndex(p.x, -180.0, 20.0, 18), ClampedIndex(p.y, -90.0, 10.0, 18);
    SquareAxes(p);
    CellAtInGrid(4, p);
    SplitIndex(10, x, CellAt(4, p).x - 10 * x);
    SplitIndex(10, y, CellAt(4, p).y - 10 * y);
  }

  /** The two letters that the long form appends. */
  lemma LongForm(p: Point)
    requires IsWgs84(p)
    ensures var c := CellAt(4, p);
      var ssx := Clamp(((p.x + 180.0 - c.x as real * 2.0) * 12.0).Floor, 24);
      var ssy := Clamp(((p.y + 90.0 - c.y as real) * 24.0).Floor, 24);
      LocatorForPoint(p, 6) == Success(LocatorForPoint(p, 4).value + [Letter('a', ssx), Letter('a', ssy)])
  {
    var x, y := ClampedIndex(p.x, -180.0, 20.0, 18), ClampedIndex(p.y, -90.0, 10.0, 18);
    SquareAxes(p);
    SubsquareRemainders(p, CellAt(4, p), x, y);
  }

  /** The nested computation names the flat cell of the point; the only failures are an
      unknown precision and a point off the globe. */
  lemma LocatorNamesCell(p: Point, precision: int)
    ensures LocatorForPoint(p, precision).Success? <==> precision in {4, 6} && IsWgs84(p)
    ensures LocatorForPoint(p, precision) == Failure(BadPrecision) <==> precision != 4 && precision != 6
    ensures LocatorForPoint(p, precision) == Failure(NotWgs84) <==>
      precision in {4, 6} && (p.x < -180.0 || 180.0 < p.x || p.y < -90.0 || 90.0 < p.y)
    ensures LocatorForPoint(p, precision).Success? ==>
      && InGrid(precision, CellAt(precision, p))
      && LocatorForPoint(p, precision).value == Name(precision, CellAt(precision, p))
  {
    if precision in {4, 6} && IsWgs84(p) {
      LocatorNamesSquare(p);
      if precision == 6 {
        var c := CellAt(4, p);
        LongForm(p);
        SubsquareAxes(p);
        CellAtInGrid(6, p);
        GridSize(4);
        SplitIndex(24, c.x, CellAt(6, p).x - 24 * c.x);
        SplitIndex(24, c.y, CellAt(6, p).y - 24 * c.y);
        assert Parent(CellAt(6, p)) == c;
      }
    }
  }

  lemma SubsquareRemainders(p: Point, c: Cell, x: int, y: int)
    ensures p.x + 180.0 - x as real * 20.0 - (c.x - 10 * x) as real * 2.0 == p.x + 180.0 - c.x as real * 2.0
    ensures p.y + 90.0 - y as real * 10.0 - (c.y - 10 * y) as real == p.y + 90.0 - c.y as real
  {
  }

  // ------------------------------------------------ decoding a locator gives back the place

  lemma OwnIndex(v: real, origin: real, step: real, count: int, k: int)
    requires step > 0.0 && 0 <= k < count && origin <= v <= origin + count as real * step
    ensures k == ClampedIndex(v, origin, step, count) <==>
      && origin + k as real * step <= v
      && (v < origin + k as real * step + step || (k == count - 1 && v == origin + k as real * step + step))
  {
    var q, offset := (v - origin) / step, v - origin;
    assert q * step == offset;
    assert (k as real + 1.0) * step == k as real * step + step;
    Compare(q, offset, k as real, k as real * step, step);
    Compare(q, offset, k as real + 1.0, k as real * step + step, step);
    Compare(q, offset, count as real, count as real * step, step);
    Compare(q, offset, 0.0, 0.0, step);
    FloorIs(q, k, count);
  }

  lemma Compare(a: real, u: real, b: real, w: real, step: real)
    requires step > 0.0 && a * step == u && b * step == w
    ensures a <= b <==> u <= w
    ensures a == b <==> u == w
  {
    Scale(a, b, step);
  }

  lemma FloorIs(q: real, k: int, count: int)
    requires 0 <= k < count && 0.0 <= q <= count as real
    ensures k == Clamp(q.Floor, count) <==> k as real <= q && (q < k as real + 1.0 || (k == count - 1 && q == k as real + 1.0))
  {
  }

  lemma Scale(a: real, b: real, step: real)
    requires step > 0.0
    ensures a <= b <==> a * step <= b * step
    ensures a == b <==> a * step == b * step
  {
    if a < b {
      assert (b - a) * step > 0.0;
    } else if b < a {
      assert (a - b) * step > 0.0;
    }
  }

  lemma EdgeOfAxis(step: real, count: int, k: int)
    requires step > 0.0 && 0 <= k < count
    ensures k as real * step + step <= count as real * step
    ensures k as real * step + step == count as real * step <==> k == count - 1
  {
    assert k as real * step + step == (k + 1) as real * step;
    Scale((k + 1) as real, count as real, step);
  }

  lemma EdgeOfGrid(precision: int, c: Cell)
    requires InGrid(precision, c)
    ensures var r := Bounds(precision, c);
      && r.maxX == r.minX + LonStep(precision) <= 180.0
      && r.maxY == r.minY + LatStep(precision) <= 90.0
      && (r.maxX == 180.0 <==> c.x == Columns(precision) - 1)
      && (r.maxY == 90.0 <==> c.y == Rows(precision) - 1)
  {
    GridSize(precision);
    EdgeOfAxis(LonStep(precision), Columns(precision), c.x);
    EdgeOfAxis(LatStep(precision), Rows(precision), c.y);
  }

  /** The closed interval of index k on an axis. */
  ghost predicate OnAxis(v: real, origin: real, k: int, step: real) {
    origin + k as real * step <= v <= origin + k as real * step + step
  }

  lemma BoundsAreAxes(precision: int, c: Cell, p: Point)
    requires InGrid(precision, c)
    ensures InRect(p, Bounds(precision, c)) <==>
      OnAxis(p.x, -180.0, c.x, LonStep(precision)) && OnAxis(p.y, -90.0, c.y, LatStep(precision))
  {
    EdgeOfGrid(precision, c);
  }

  lemma OwnerIsCellAt(precision: int, p: Point, c: Cell)
    requires IsWgs84(p) && InGrid(precision, c)
    ensures Owns(precision, c, p) <==> c == CellAt(precision, p)
  {
    GridSize(precision);
    EdgeOfGrid(precision, c);
    OwnIndex(p.x, -180.0, LonStep(precision), Columns(precision), c.x);
    OwnIndex(p.y, -90.0, LatStep(precision), Rows(precision), c.y);
  }

  /** Exactly one cell owns a point, and the locator names it. */
  lemma LocatorNamesOwner(precision: int, p: Point, c: Cell)
    requires precision in {4, 6} && IsWgs84(p) && InGrid(precision, c)
    ensures Owns(precision, c, p) <==> LocatorForPoint(p, precision) == Success(Name(precision, c))
  {
    LocatorNamesCell(p, precision);
    NamesAreDistinct(precision, c, CellAt(precision, p));
    OwnerIsCellAt(precision, p, c);
  }

  /** Decoding the locator of a point gives a cell that contains the point. */
  lemma DecodedCellHoldsPoint(precision: int, p: Point)
    requires precision in {4, 6} && IsWgs84(p)
    ensures var found := Decode(precision, LocatorForPoint(p, precision).value);
      found.Some? && Owns(precision, found.value, p)
  {
    LocatorNamesCell(p, precision);
    DecodeName(precision, CellAt(precision, p));
    LocatorNamesOwner(precision, p, CellAt(precision, p));
  }

  /** Decoding and naming the centre of the cell is the identity on locators. */
  lemma CentreNamesCell(precision: int, c: Cell)
    requires precision in {4, 6} && InGrid(precision, c)
    ensures LocatorForPoint(Centre(precision, c), precision) == Success(Name(precision, c))
    ensures Decode(precision, LocatorForPoint(Centre(precision, c), precision).value) == Some(c)
  {
    GridSize(precision);
    EdgeOfGrid(precision, c);
    LocatorNamesOwner(precision, Centre(precision, c), c);
    DecodeName(precision, c);
  }

  /** The locator of a point at 4 characters is the front of the one at 6. */
  lemma PointPrefix(p: Point)
    requires IsWgs84(p)
    ensures LocatorForPoint(p, 4).value == LocatorForPoint(p, 6).value[..4]
    ensures CellAt(4, p) == Parent(CellAt(6, p))
  {
    LocatorNamesCell(p, 4);
    LocatorNamesCell(p, 6);
    GridSize(6);
    GridSize(4);
    var long, short := CellAt(6, p), CellAt(4, p);
    assert Name(6, long)[..4] == SquareName(Parent(long));
    assert LocatorForPoint(p, 6).value[..4] == LocatorForPoint(p, 4).value;
    NamesAreDistinct(4, Parent(long), short);
  }
}
