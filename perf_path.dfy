/** The cross-shaped perforation drawn at the centre of each sheet cell: two rectangles of
    arm width w, one horizontal and one vertical, written as SVG path commands. */
module PerfPath {

  datatype Point = Point(x: real, y: real)

  /** The SVG path commands the two rectangles use: an absolute move, relative horizontal and
      vertical lines, and a close. */
  datatype Cmd = MoveTo(x: real, y: real) | RelH(dx: real) | RelV(dy: real) | Close

  datatype Path = Path(start: Point, steps: seq<Cmd>)

  /** `crossPerfPaths(cx, cy, halfArm, w)`: the horizontal rectangle, then the vertical one. */
  function CrossPerfPaths(cx: real, cy: real, halfArm: real, w: real): (r: (Path, Path)) {
    var h := w;
    (Path(Point(cx - halfArm, cy - h / 2.0), [RelH(2.0 * halfArm), RelV(h), RelH(-2.0 * halfArm), Close]),
     Path(Point(cx - h / 2.0, cy - halfArm), [RelV(2.0 * halfArm), RelH(h), RelV(-2.0 * halfArm), Close]))
  }

  /** The point a relative step leads to. */
  function Step(p: Point, c: Cmd): Point {
    match c
    case MoveTo(x, y) => Point(x, y)
    case RelH(dx) => Point(p.x + dx, p.y)
    case RelV(dy) => Point(p.x, p.y + dy)
    case Close => p
  }

  /** The corners a path visits, starting point first, in drawing order (Close adds none). */
  function Corners(p: Point, steps: seq<Cmd>): (r: seq<Point>)
    ensures |r| >= 1 && r[0] == p
    decreases |steps|
  {
    if steps == [] || steps[0].Close? then [p]
    else [p] + Corners(Step(p, steps[0]), steps[1..])
  }

  /** A point reflected across the diagonal through the centre (x - cx and y - cy swapped). */
  function Transpose(c: Point, p: Point): Point {
    Point(c.x + (p.y - c.y), c.y + (p.x - c.x))
  }

  /** The horizontal rectangle spans halfArm either side of cx and w/2 either side of cy,
      the closing side is the short vertical one, and the vertical rectangle visits exactly the
      horizontal one's corners transposed about the centre. */
  lemma CrossIsCentred(cx: real, cy: real, halfArm: real, w: real)
    ensures var (hr, vr) := CrossPerfPaths(cx, cy, halfArm, w);
      var hc := Corners(hr.start, hr.steps); var vc := Corners(vr.start, vr.steps);
      hc == [Point(cx - halfArm, cy - w / 2.0), Point(cx + halfArm, cy - w / 2.0),
             Point(cx + halfArm, cy + w / 2.0), Point(cx - halfArm, cy + w / 2.0)] &&
      hc[3].x == hc[0].x &&
      |vc| == 4 && (forall i :: 0 <= i < 4 ==> vc[i] == Transpose(Point(cx, cy), hc[i])) &&
      vc[3].y == vc[0].y
  {
    var (hr, vr) := CrossPerfPaths(cx, cy, halfArm, w);
    RectangleCorners(hr.start, hr.steps[0], hr.steps[1], hr.steps[2]);
    RectangleCorners(vr.start, vr.steps[0], vr.steps[1], vr.steps[2]);
  }

  /** Three sides then Close visit four corners. */
  lemma RectangleCorners(p: Point, a: Cmd, b: Cmd, c: Cmd)
    requires !a.Close? && !b.Close? && !c.Close?
    ensures Corners(p, [a, b, c, Close]) == [p, Step(p, a), Step(Step(p, a), b), Step(Step(Step(p, a), b), c)]
  {
    var s := [a, b, c, Close];
    var p1, p2, p3 := Step(p, a), Step(Step(p, a), b), Step(Step(Step(p, a), b), c);
    assert s[1..] == [b, c, Close];
    assert [b, c, Close][1..] == [c, Close];
    assert [c, Close][1..] == [Close];
    assert Corners(p3, [Close]) == [p3];
    assert Corners(p2, [c, Close]) == [p2, p3];
    assert Corners(p1, [b, c, Close]) == [p1, p2, p3];
  }

  /** A cross with halfArm at least w/2 covers its centre in both arms. */
  lemma ArmsOverlapAtCentre(cx: real, cy: real, halfArm: real, w: real)
    requires w >= 0.0 && halfArm >= w / 2.0
    ensures var hc := Corners(CrossPerfPaths(cx, cy, halfArm, w).0.start, CrossPerfPaths(cx, cy, halfArm, w).0.steps);
      var vc := Corners(CrossPerfPaths(cx, cy, halfArm, w).1.start, CrossPerfPaths(cx, cy, halfArm, w).1.steps);
      |hc| == 4 && |vc| == 4 &&
      hc[0].x <= cx <= hc[2].x && hc[0].y <= cy <= hc[2].y &&
      vc[0].x <= cx <= vc[2].x && vc[0].y <= cy <= vc[2].y &&
      vc[0].x >= hc[0].x && vc[2].x <= hc[2].x
  {
    CrossIsCentred(cx, cy, halfArm, w);
  }
}
