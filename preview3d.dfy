/** The CSS-3D case preview: a drag rotates the model within fixed limits, a long enough
    horizontal swipe steps through the front, back and disc views, and each view lays its
    panels out at the case's millimetre sizes. */
module Preview3D {
  import PrintSpecs
  import Slot

  datatype Mode = Front | Back | Disc

  /** `order`, the cycle the swipe and the arrow buttons step through. */
  const Order: seq<Mode> := [Front, Back, Disc]

  function IndexOf(m: Mode): (i: nat)
    ensures i < 3 && Order[i] == m
  {
    match m
    case Front => 0
    case Back => 1
    case Disc => 2
  }

  /** `order[(idx + dir + order.length) % order.length]` */
  function Step(m: Mode, dir: int): (n: Mode)
    requires dir == -1 || dir == 1
  {
    Order[(IndexOf(m) + dir + 3) % 3]
  }

  /** Stepping forward goes front, back, disc and round again; stepping back undoes a step
      forward; three steps in one direction return to the start. */
  lemma StepCycle(m: Mode)
    ensures Step(Front, 1) == Back && Step(Back, 1) == Disc && Step(Disc, 1) == Front
    ensures Step(Step(m, 1), -1) == m && Step(Step(m, -1), 1) == m
    ensures Step(Step(Step(m, 1), 1), 1) == m && Step(Step(Step(m, -1), -1), -1) == m
    ensures Step(m, 1) != m && Step(m, -1) != m && Step(m, 1) != Step(m, -1)
  {
  }

  const SwipeThreshold: real := 120.0

  /** The mode step a released drag asks for: -1 past the threshold to the right, +1 past
      it to the left, none otherwise. */
  function SwipeStep(accumDx: real): (d: int)
    ensures d == -1 <==> accumDx > SwipeThreshold
    ensures d == 1 <==> accumDx < -SwipeThreshold
    ensures d == 0 <==> -SwipeThreshold <= accumDx <= SwipeThreshold
  {
    if accumDx > SwipeThreshold then -1 else if accumDx < -SwipeThreshold then 1 else 0
  }

  /** The mode after a release with the given travel. */
  function Released(m: Mode, accumDx: real): Mode {
    if SwipeStep(accumDx) == 0 then m else Step(m, SwipeStep(accumDx))
  }

  /** A release changes the mode exactly when the travel passes the threshold either way. */
  lemma ReleaseSwitches(m: Mode, accumDx: real)
    ensures Released(m, accumDx) != m <==> (accumDx > SwipeThreshold || accumDx < -SwipeThreshold)
    ensures accumDx > SwipeThreshold ==> Released(m, accumDx) == Step(m, -1)
    ensures accumDx < -SwipeThreshold ==> Released(m, accumDx) == Step(m, 1)
  {
    StepCycle(m);
  }

  const MaxRotY: real := 120.0
  const MaxRotX: real := 60.0

  /** `Math.max(-120, Math.min(120, v + dx * 0.4))` */
  function TurnY(rotY: real, dx: real): real {
    Slot.Clamp(-MaxRotY, MaxRotY, rotY + dx * 0.4)
  }

  /** `Math.max(-60, Math.min(60, v - dy * 0.3))` */
  function TurnX(rotX: real, dy: real): real {
    Slot.Clamp(-MaxRotX, MaxRotX, rotX - dy * 0.3)
  }

  /** A turn inside the limits is exact, one past them stops at the limit, and turning the
      same way never goes back. */
  lemma TurnsClamp(rotY: real, dx: real, rotX: real, dy: real)
    requires -MaxRotY <= rotY <= MaxRotY && -MaxRotX <= rotX <= MaxRotX
    ensures -MaxRotY <= TurnY(rotY, dx) <= MaxRotY && -MaxRotX <= TurnX(rotX, dy) <= MaxRotX
    ensures -MaxRotY <= rotY + dx * 0.4 <= MaxRotY ==> TurnY(rotY, dx) == rotY + dx * 0.4
    ensures rotY + dx * 0.4 > MaxRotY ==> TurnY(rotY, dx) == MaxRotY
    ensures dx >= 0.0 ==> TurnY(rotY, dx) >= rotY
    ensures dy >= 0.0 ==> TurnX(rotX, dy) <= rotX
  {
  }

  /** The component's state and refs. `anchorX` is not in the component: it is the pointer
      x at the last press, used to state what `accumDx` measures. */
  class Viewer {
    var mode: Mode
    var rotX: real
    var rotY: real
    var dragging: bool
    var lastX: real
    var lastY: real
    var accumDx: real
    ghost var anchorX: real

    /** The rotations stay within their limits and `accumDx` is the horizontal travel since
        the last press. */
    ghost predicate Valid()
      reads this
    {
      -MaxRotX <= rotX <= MaxRotX && -MaxRotY <= rotY <= MaxRotY &&
      accumDx == lastX - anchorX
    }

    constructor ()
      ensures Valid()
      ensures mode == Front && rotX == -10.0 && rotY == 15.0 && !dragging && accumDx == 0.0
    {
      mode := Front;
      rotX := -10.0;
      rotY := 15.0;
      dragging := false;
      lastX := 0.0;
      lastY := 0.0;
      accumDx := 0.0;
      anchorX := 0.0;
    }

    /** `handlePointerDown`: start a drag from the pointer and clear the travel. */
    method PointerDown(x: real, y: real)
      requires Valid()
      modifies this
      ensures Valid()
      ensures dragging && lastX == x && lastY == y && accumDx == 0.0
      ensures mode == old(mode) && rotX == old(rotX) && rotY == old(rotY)
    {
      dragging := true;
      lastX, lastY := x, y;
      accumDx := 0.0;
      anchorX := x;
    }

    /** `handlePointerMove`: ignored unless dragging; otherwise both rotations turn by the
        pointer's movement since the previous event, clamped, and the travel grows by dx. */
    method PointerMove(x: real, y: real)
      requires Valid()
      modifies this
      ensures Valid()
      ensures !old(dragging) ==>
        mode == old(mode) && rotX == old(rotX) && rotY == old(rotY) && lastX == old(lastX) &&
        lastY == old(lastY) && accumDx == old(accumDx) && !dragging
      ensures old(dragging) ==>
        dragging && lastX == x && lastY == y && accumDx == old(accumDx) + (x - old(lastX)) &&
        rotY == TurnY(old(rotY), x - old(lastX)) && rotX == TurnX(old(rotX), y - old(lastY)) &&
        mode == old(mode) && anchorX == old(anchorX)
    {
      if !dragging {
        return;
      }
      var dx := x - lastX;
      var dy := y - lastY;
      lastX, lastY := x, y;
      accumDx := accumDx + dx;
      rotY := TurnY(rotY, dx);
      rotX := TurnX(rotX, dy);
    }

    /** `switchMode(dir)`, also bound to the arrow buttons. */
    method SwitchMode(dir: int)
      requires Valid() && (dir == -1 || dir == 1)
      modifies this
      ensures Valid()
      ensures mode == Step(old(mode), dir)
      ensures rotX == old(rotX) && rotY == old(rotY) && dragging == old(dragging) &&
        lastX == old(lastX) && lastY == old(lastY) && accumDx == old(accumDx)
    {
      mode := Order[(IndexOf(mode) + dir + 3) % 3];
    }

    /** The view buttons set the mode directly. */
    method SetMode(m: Mode)
      requires Valid()
      modifies this
      ensures Valid() && mode == m
      ensures rotX == old(rotX) && rotY == old(rotY) && dragging == old(dragging) &&
        lastX == old(lastX) && lastY == old(lastY) && accumDx == old(accumDx)
    {
      mode := m;
    }

    /** `handlePointerUp` (and cancel): end the drag, step the mode if the swipe went past
        the threshold, and clear the travel. */
    method PointerUp()
      requires Valid()
      modifies this
      ensures Valid()
      ensures !dragging && accumDx == 0.0 && mode == Released(old(mode), old(accumDx))
      ensures rotX == old(rotX) && rotY == old(rotY) && lastX == old(lastX) && lastY == old(lastY)
    {
      dragging := false;
      if accumDx > SwipeThreshold {
        SwitchMode(-1);
      } else if accumDx < -SwipeThreshold {
        SwitchMode(1);
      }
      accumDx := 0.0;
      anchorX := lastX;
    }
  }

  // ---- faces ----

  /** One panel of a view, in millimetres within the view's box. */
  datatype Face = Face(left: real, top: real, w: real, h: real)

  /** The view's box and its panels: the two front panels side by side, the five back
      panels in strip order, or the disc centred. */
  function Faces(m: Mode): (real, real, seq<Face>)
  {
    match m
    case Front => (90.0, 50.0, [Face(0.0, 5.0, 40.0, 40.0), Face(46.0, 5.0, 40.0, 40.0)])
    case Back => (120.0, 50.0,
      [Face(0.0, 6.5, 49.0, 37.0), Face(51.0, 6.5, 5.0, 37.0), Face(57.0, 6.5, 5.0, 37.0),
       Face(63.0, 6.5, 5.0, 37.0), Face(71.0, 6.5, 44.0, 37.0)])
    case Disc => (80.0, 80.0, [Face(20.0, 20.0, 40.0, 40.0)])
  }

  /** The panels have the case table's sizes, do not overlap, leave a gap between
      neighbours, and lie inside the view's box; the disc is centred in its box. */
  lemma FacesMatchCase()
    ensures var f := Faces(Front).2;
      |f| == 2 && f[0].w == PrintSpecs.CD.front.left.w && f[0].h == PrintSpecs.CD.front.left.h &&
      f[1].w == PrintSpecs.CD.front.right.w && f[1].h == PrintSpecs.CD.front.right.h
    ensures var b := Faces(Back).2;
      var t := PrintSpecs.CD.back;
      |b| == 5 && b[0].w == t.outside.w && b[1].w == t.spine1.w && b[2].w == t.spine2.w &&
      b[3].w == t.spine3.w && b[4].w == t.inside.w &&
      forall i :: 0 <= i < 5 ==> b[i].h == t.outside.h
    ensures var d := Faces(Disc);
      |d.2| == 1 && d.2[0].w == PrintSpecs.CD.disc.trimD &&
      d.2[0].left + d.2[0].w / 2.0 == d.0 / 2.0 && d.2[0].top + d.2[0].h / 2.0 == d.1 / 2.0
    ensures forall m: Mode :: var v := Faces(m);
      (forall i :: 0 <= i < |v.2| ==>
        0.0 <= v.2[i].left && v.2[i].left + v.2[i].w <= v.0 && 0.0 <= v.2[i].top && v.2[i].top + v.2[i].h <= v.1) &&
      (forall i :: 0 <= i < |v.2| - 1 ==> v.2[i].left + v.2[i].w < v.2[i + 1].left)
  {
  }
}
