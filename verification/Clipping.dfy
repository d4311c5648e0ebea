/** Liang-Barsky clipping of a segment against a rectangle, against the points of the
    segment itself.

    The tolerance of the program is a parameter: with 0 the test is exact, and with any
    larger value it never rejects a segment that meets the rectangle. */
module Clipping {
  import opened Wrappers
  import opened Maidenhead

  /** Half of an axis test: the parameter t passes when t * direction <= distance. */
  datatype Constraint = Constraint(direction: real, distance: real)

  datatype Window = Window(lower: real, upper: real)

  function Abs(x: real): real {
    if x < 0.0 then -x else x
  }

  function Constraints(a: Point, b: Point, r: Rect): seq<Constraint> {
    AxisConstraints(a, b.x - a.x, b.y - a.y, r)
  }

  function AxisConstraints(a: Point, dx: real, dy: real, r: Rect): seq<Constraint> {
    [Constraint(-dx, a.x - r.minX), Constraint(dx, r.maxX - a.x),
     Constraint(-dy, a.y - r.minY), Constraint(dy, r.maxY - a.y)]
  }

  /** One constraint cuts the window, or empties it. */
  function Cut(w: Window, c: Constraint, eps: real): Option<Window>
    requires 0.0 <= eps
  {
    if Abs(c.direction) <= eps then
      if c.distance < -eps then None else Some(w)
    else
      var ratio := c.distance / c.direction;
      var next := if c.direction < 0.0 then Window(MaxReal(w.lower, ratio), w.upper)
                  else Window(w.lower, MinReal(w.upper, ratio));
      if next.lower > next.upper + eps then None else Some(next)
  }

  /** One constraint, case by case: a direction within the tolerance of 0 only asks for a
      distance above minus the tolerance; any other raises the lower bound or lowers the
      upper one to the quotient, and empties the window when the bounds then cross by more
      than the tolerance. */
  lemma CutIs(w: Window, c: Constraint, eps: real)
    requires 0.0 <= eps
    ensures -eps <= c.direction <= eps ==> Cut(w, c, eps) == if c.distance + eps < 0.0 then None else Some(w)
    ensures c.direction < -eps ==>
      var ratio := c.distance / c.direction;
      && (Cut(w, c, eps).Some? <==> w.lower - eps <= w.upper && ratio - eps <= w.upper)
      && (Cut(w, c, eps).Some? ==> Cut(w, c, eps).value == Window(if w.lower <= ratio then ratio else w.lower, w.upper))
    ensures eps < c.direction ==>
      var ratio := c.distance / c.direction;
      && (Cut(w, c, eps).Some? <==> w.lower - eps <= w.upper && w.lower - eps <= ratio)
      && (Cut(w, c, eps).Some? ==> Cut(w, c, eps).value == Window(w.lower, if ratio <= w.upper then ratio else w.upper))
  {
  }

  function CutAll(w: Window, cs: seq<Constraint>, eps: real): Option<Window>
    requires 0.0 <= eps
    decreases |cs|
  {
    if cs == [] then Some(w)
    else
      var next := Cut(w, cs[0], eps);
      if next.None? then None else CutAll(next.value, cs[1..], eps)
  }

  predicate SegmentIntersectsRect(a: Point, b: Point, r: Rect, eps: real)
    requires 0.0 <= eps
  {
    CutAll(Window(0.0, 1.0), Constraints(a, b, r), eps).Some?
  }

  // ------------------------------------------------ what the test is for

  ghost function PointAt(a: Point, b: Point, t: real): Point {
    Moved(a, b.x - a.x, b.y - a.y, t)
  }

  ghost function Moved(a: Point, dx: real, dy: real, t: real): Point {
    Point(a.x + t * dx, a.y + t * dy)
  }

  ghost predicate OnSegment(a: Point, b: Point, t: real, r: Rect) {
    0.0 <= t <= 1.0 && InRect(PointAt(a, b, t), r)
  }

  /** Some point of the segment lies in the closed rectangle. */
  ghost predicate Meets(a: Point, b: Point, r: Rect) {
    exists t :: OnSegment(a, b, t, r)
  }

  ghost function Slack(eps: real, d: real): real {
    eps * MaxReal(2.0, Abs(d))
  }

  /** The rectangle grown by the tolerance that the test allows this segment. */
  ghost function Grown(a: Point, b: Point, r: Rect, eps: real): Rect {
    Swollen(r, Slack(eps, b.x - a.x), Slack(eps, b.y - a.y))
  }

  ghost function Swollen(r: Rect, sx: real, sy: real): Rect {
    Rect(r.minX - sx, r.minY - sy, r.maxX + sx, r.maxY + sy)
  }

  // ------------------------------------------------ one constraint

  ghost predicate Passes(t: real, c: Constraint, slack: real) {
    t * c.direction <= c.distance + slack
  }

  ghost predicate Within(t: real, w: Window, eps: real) {
    w.lower - eps <= t <= w.upper + eps
  }

  lemma RatioBounds(t: real, c: Constraint)
    requires c.direction != 0.0
    ensures Passes(t, c, 0.0) <==>
      if c.direction < 0.0 then c.distance / c.direction <= t else t <= c.distance / c.direction
  {
    var ratio := c.distance / c.direction;
    assert ratio * c.direction == c.distance;
    if c.direction < 0.0 {
      Scale(ratio, t, -c.direction);
    } else {
      Scale(t, ratio, c.direction);
    }
  }

  lemma Monotone(eps: real, a: real, b: real)
    requires 0.0 <= eps && a <= b
    ensures eps * a <= eps * b
  {
    assert eps * (b - a) >= 0.0;
  }

  lemma SlackBounds(eps: real, d: real)
    requires 0.0 <= eps
    ensures eps * Abs(d) <= Slack(eps, d) && eps * 2.0 <= Slack(eps, d)
  {
    Monotone(eps, Abs(d), MaxReal(2.0, Abs(d)));
    Monotone(eps, 2.0, MaxReal(2.0, Abs(d)));
  }

  lemma Shift(t: real, u: real, c: Constraint, eps: real)
    requires Passes(u, c, 0.0) && 0.0 <= eps
    requires if c.direction < 0.0 then u - eps <= t else t <= u + eps
    ensures Passes(t, c, Slack(eps, c.direction))
  {
    var d := t - u;
    assert t * c.direction == u * c.direction + d * c.direction;
    if c.direction < 0.0 {
      assert (d + eps) * c.direction <= 0.0;
    } else {
      assert (eps - d) * c.direction >= 0.0;
    }
    SlackBounds(eps, c.direction);
  }

  lemma SmallProduct(t: real, d: real, eps: real)
    requires 0.0 <= t <= 1.0 && Abs(d) <= eps
    ensures Abs(t * d) <= eps
  {
    if d < 0.0 {
      assert t * -d <= -d;
      assert t * -d >= 0.0;
    } else {
      assert (1.0 - t) * d >= 0.0;
      assert t * d >= 0.0;
    }
  }

  /** A parameter that passes stays in the window. */
  lemma CutKeeps(w: Window, c: Constraint, eps: real, t: real)
    requires 0.0 <= eps && 0.0 <= t <= 1.0 && Within(t, w, 0.0) && Passes(t, c, 0.0)
    ensures Cut(w, c, eps).Some? && Within(t, Cut(w, c, eps).value, 0.0)
  {
    if Abs(c.direction) <= eps {
      SmallProduct(t, c.direction, eps);
    } else {
      RatioBounds(t, c);
    }
  }

  /** A parameter near the window that is left passes within the tolerance. */
  lemma CutAdmits(w: Window, c: Constraint, eps: real, t: real)
    requires 0.0 <= eps && 0.0 <= t <= 1.0 && Cut(w, c, eps).Some?
    requires Within(t, Cut(w, c, eps).value, eps)
    ensures Within(t, w, eps) && Passes(t, c, Slack(eps, c.direction))
  {
    if Abs(c.direction) <= eps {
      SmallProduct(t, c.direction, eps);
      SlackBounds(eps, c.direction);
    } else {
      var ratio := c.distance / c.direction;
      RatioBounds(ratio, c);
      Shift(t, ratio, c, eps);
    }
  }

  // ------------------------------------------------ all four

  ghost predicate PassesAll(t: real, cs: seq<Constraint>, eps: real) {
    forall i :: 0 <= i < |cs| ==> Passes(t, cs[i], Slack(eps, cs[i].direction))
  }

  lemma NoSlack(d: real)
    ensures Slack(0.0, d) == 0.0
  {
  }

  lemma {:induction false} CutAllKeeps(w: Window, cs: seq<Constraint>, eps: real, t: real)
    requires 0.0 <= eps && 0.0 <= t <= 1.0 && Within(t, w, 0.0) && PassesAll(t, cs, 0.0)
    ensures CutAll(w, cs, eps).Some? && Within(t, CutAll(w, cs, eps).value, 0.0)
    decreases |cs|
  {
    if cs != [] {
      NoSlack(cs[0].direction);
      assert Passes(t, cs[0], Slack(0.0, cs[0].direction));
      CutKeeps(w, cs[0], eps, t);
      assert forall i :: 0 <= i < |cs[1..]| ==> cs[1..][i] == cs[i + 1];
      CutAllKeeps(Cut(w, cs[0], eps).value, cs[1..], eps, t);
    }
  }

  lemma {:induction false} CutAllAdmits(w: Window, cs: seq<Constraint>, eps: real, t: real)
    requires 0.0 <= eps && 0.0 <= t <= 1.0 && CutAll(w, cs, eps).Some?
    requires Within(t, CutAll(w, cs, eps).value, eps)
    ensures Within(t, w, eps) && PassesAll(t, cs, eps)
    decreases |cs|
  {
    if cs != [] {
      var next := Cut(w, cs[0], eps).value;
      CutAllAdmits(next, cs[1..], eps, t);
      CutAdmits(w, cs[0], eps, t);
      forall i | 0 <= i < |cs| ensures Passes(t, cs[i], Slack(eps, cs[i].direction)) {
        if i > 0 {
          assert cs[i] == cs[1..][i - 1];
        }
      }
    }
  }

  /** The window that is left is never inverted by more than the tolerance. */
  lemma {:induction false} CutAllShape(w: Window, cs: seq<Constraint>, eps: real)
    requires 0.0 <= eps && w.lower <= w.upper + eps && CutAll(w, cs, eps).Some?
    ensures var left := CutAll(w, cs, eps).value;
      w.lower <= left.lower <= left.upper + eps && left.upper <= w.upper
    decreases |cs|
  {
    if cs != [] {
      CutAllShape(Cut(w, cs[0], eps).value, cs[1..], eps);
    }
  }

  /** With no tolerance the window is exactly the set of parameters that pass every
      constraint, however many have been applied. */
  lemma WindowIsExact(cs: seq<Constraint>, t: real)
    requires 0.0 <= t <= 1.0
    ensures PassesAll(t, cs, 0.0) <==>
      var left := CutAll(Window(0.0, 1.0), cs, 0.0); left.Some? && Within(t, left.value, 0.0)
  {
    if PassesAll(t, cs, 0.0) {
      CutAllKeeps(Window(0.0, 1.0), cs, 0.0, t);
    }
    var left := CutAll(Window(0.0, 1.0), cs, 0.0);
    if left.Some? && Within(t, left.value, 0.0) {
      CutAllAdmits(Window(0.0, 1.0), cs, 0.0, t);
    }
  }

  lemma AxisTests(t: real, start: real, d: real, low: real, high: real, slack: real)
    ensures Passes(t, Constraint(-d, start - low), slack) <==> low - slack <= start + t * d
    ensures Passes(t, Constraint(d, high - start), slack) <==> start + t * d <= high + slack
  {
    assert t * -d == -(t * d);
  }

  lemma SlackIsEven(eps: real, d: real)
    ensures Slack(eps, -d) == Slack(eps, d)
  {
    assert Abs(-d) == Abs(d);
  }

  lemma FourTests(t: real, w: Constraint, x: Constraint, y: Constraint, z: Constraint, eps: real)
    ensures PassesAll(t, [w, x, y, z], eps) <==>
      && Passes(t, w, Slack(eps, w.direction)) && Passes(t, x, Slack(eps, x.direction))
      && Passes(t, y, Slack(eps, y.direction)) && Passes(t, z, Slack(eps, z.direction))
  {
    var cs := [w, x, y, z];
    assert cs[0] == w && cs[1] == x && cs[2] == y && cs[3] == z;
    assert PassesAll(t, cs, eps) ==> Passes(t, cs[0], Slack(eps, cs[0].direction));
    assert PassesAll(t, cs, eps) ==> Passes(t, cs[1], Slack(eps, cs[1].direction));
    assert PassesAll(t, cs, eps) ==> Passes(t, cs[2], Slack(eps, cs[2].direction));
    assert PassesAll(t, cs, eps) ==> Passes(t, cs[3], Slack(eps, cs[3].direction));
  }

  lemma RectTests(t: real, a: Point, dx: real, dy: real, r: Rect, sx: real, sy: real)
    ensures
      && Passes(t, Constraint(-dx, a.x - r.minX), sx) && Passes(t, Constraint(dx, r.maxX - a.x), sx)
      && Passes(t, Constraint(-dy, a.y - r.minY), sy) && Passes(t, Constraint(dy, r.maxY - a.y), sy)
      <==> InRect(Moved(a, dx, dy, t), Swollen(r, sx, sy))
  {
    AxisTests(t, a.x, dx, r.minX, r.maxX, sx);
    AxisTests(t, a.y, dy, r.minY, r.maxY, sy);
  }

  lemma TestsAreRect(t: real, a: Point, dx: real, dy: real, r: Rect, eps: real)
    ensures PassesAll(t, AxisConstraints(a, dx, dy, r), eps) <==>
      InRect(Moved(a, dx, dy, t), Swollen(r, Slack(eps, dx), Slack(eps, dy)))
  {
    SlackIsEven(eps, dx);
    SlackIsEven(eps, dy);
    RectTests(t, a, dx, dy, r, Slack(eps, dx), Slack(eps, dy));
    FourTests(t, Constraint(-dx, a.x - r.minX), Constraint(dx, r.maxX - a.x),
              Constraint(-dy, a.y - r.minY), Constraint(dy, r.maxY - a.y), eps);
  }

  lemma ConstraintsAreRect(a: Point, b: Point, r: Rect, eps: real, t: real)
    requires 0.0 <= t <= 1.0
    ensures PassesAll(t, Constraints(a, b, r), eps) <==> OnSegment(a, b, t, Grown(a, b, r, eps))
  {
    TestsAreRect(t, a, b.x - a.x, b.y - a.y, r, eps);
  }

  lemma GrownByNothing(a: Point, b: Point, r: Rect)
    ensures Grown(a, b, r, 0.0) == r
  {
  }

  /** Whatever the tolerance, a segment that meets the rectangle is accepted. */
  lemma ClipIsComplete(a: Point, b: Point, r: Rect, eps: real)
    requires 0.0 <= eps && Meets(a, b, r)
    ensures SegmentIntersectsRect(a, b, r, eps)
  {
    var t :| OnSegment(a, b, t, r);
    GrownByNothing(a, b, r);
    ConstraintsAreRect(a, b, r, 0.0, t);
    CutAllKeeps(Window(0.0, 1.0), Constraints(a, b, r), eps, t);
  }

  /** Whatever the tolerance, an accepted segment meets the grown rectangle. */
  lemma ClipIsSound(a: Point, b: Point, r: Rect, eps: real)
    requires 0.0 <= eps && SegmentIntersectsRect(a, b, r, eps)
    ensures Meets(a, b, Grown(a, b, r, eps))
  {
    var cs := Constraints(a, b, r);
    var left := CutAll(Window(0.0, 1.0), cs, eps).value;
    CutAllShape(Window(0.0, 1.0), cs, eps);
    var t := MaxReal(left.upper, 0.0);
    CutAllAdmits(Window(0.0, 1.0), cs, eps, t);
    ConstraintsAreRect(a, b, r, eps, t);
  }

  /** Without tolerance the test is exact. */
  lemma ClipIsExact(a: Point, b: Point, r: Rect)
    ensures SegmentIntersectsRect(a, b, r, 0.0) <==> Meets(a, b, r)
  {
    GrownByNothing(a, b, r);
    if Meets(a, b, r) {
      ClipIsComplete(a, b, r, 0.0);
    }
    if SegmentIntersectsRect(a, b, r, 0.0) {
      ClipIsSound(a, b, r, 0.0);
    }
  }

  // ------------------------------------------------ the loop

  /** The program's loop: two running bounds, cut by one constraint after another. */
  method Clip(a: Point, b: Point, r: Rect, eps: real) returns (hit: bool)
    requires 0.0 <= eps
    ensures hit <==> SegmentIntersectsRect(a, b, r, eps)
    ensures Meets(a, b, r) ==> hit
    ensures hit ==> Meets(a, b, Grown(a, b, r, eps))
  {
    if Meets(a, b, r) {
      ClipIsComplete(a, b, r, eps);
    }
    if SegmentIntersectsRect(a, b, r, eps) {
      ClipIsSound(a, b, r, eps);
    }
    var lower, upper := 0.0, 1.0;
    var cs := Constraints(a, b, r);
    for i := 0 to |cs|
      invariant CutAll(Window(lower, upper), cs[i..], eps).Some? <==> SegmentIntersectsRect(a, b, r, eps)
    {
      var direction, distance := cs[i].direction, cs[i].distance;
      assert cs[i..][0] == cs[i] && cs[i..][1..] == cs[i + 1..];
      if Abs(direction) <= eps {
        if distance < -eps {
          return false;
        }
        continue;
      }
      var ratio := distance / direction;
      if direction < 0.0 {
        lower := MaxReal(lower, ratio);
      } else {
        upper := MinReal(upper, ratio);
      }
      if lower > upper + eps {
        return false;
      }
    }
    return true;
  }
}
