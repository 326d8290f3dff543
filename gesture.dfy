/** The pointer-gesture recogniser: one pointer pans, two or more pinch. The pointer map
    is kept as the sequence of pointer ids in insertion order (the iteration order of the
    source's Map); pointer distances and angles are given as inputs. */
module Gesture {
  import opened Types
  import Slot

  /** Screen pixels per millimetre used for panning. */
  const PxPerMm: real := 3.78

  /** `pointers.set(id, e)`: a new id goes to the end, a known id keeps its place. */
  function Inserted(s: seq<int>, id: int): (r: seq<int>)
    ensures id in r
    ensures forall x :: x in r <==> x in s || x == id
    ensures |r| == if id in s then |s| else |s| + 1
    ensures Distinct(s) ==> Distinct(r)
  {
    if id in s then s else s + [id]
  }

  /** `pointers.delete(id)`: removes that id and keeps the order of the others. */
  function Removed(s: seq<int>, id: int): (r: seq<int>)
    ensures forall x :: x in r <==> x in s && x != id
    ensures Distinct(s) ==> Distinct(r) && |r| == if id in s then |s| - 1 else |s|
  {
    if s == [] then []
    else if s[0] == id then Removed(s[1..], id)
    else
      var rest := Removed(s[1..], id);
      DistinctTail(s);
      DistinctCons(s[0], rest);
      [s[0]] + rest
  }

  /** A one-pointer move: translation from the base captured at pointer-down plus the
      client delta from the anchor, converted to millimetres. Nothing else is set. */
  function PanUpdate(baseTx: real, baseTy: real, anchorX: real, anchorY: real, x: real, y: real): (u: Slot.Updates)
    ensures u.scale == None && u.rot == None
    ensures u.tx.Some? && (u.tx.value - baseTx) * PxPerMm == x - anchorX
    ensures u.ty.Some? && (u.ty.value - baseTy) * PxPerMm == y - anchorY
  {
    Slot.Updates(Some(baseTx + (x - anchorX) / PxPerMm), Some(baseTy + (y - anchorY) / PxPerMm), None, None)
  }

  /** The pinch scale: base scale times the distance ratio (the base scale itself while no
      start distance is known), clamped into [0.2, 5]. */
  function PinchScale(baseScale: real, startDist: real, dist: real): (s: real)
    ensures 0.2 <= s <= 5.0
    ensures startDist > 0.0 ==> s == Slot.Clamp(0.2, 5.0, baseScale * (dist / startDist))
    ensures startDist > 0.0 && 0.2 <= baseScale * (dist / startDist) <= 5.0 ==> s == baseScale * (dist / startDist)
    ensures startDist > 0.0 && baseScale * (dist / startDist) < 0.2 ==> s == 0.2
    ensures startDist > 0.0 && baseScale * (dist / startDist) > 5.0 ==> s == 5.0
    ensures startDist <= 0.0 ==> s == Slot.Clamp(0.2, 5.0, baseScale)
  {
    var raw := if startDist > 0.0 then baseScale * (dist / startDist) else baseScale;
    Slot.Max(0.2, Slot.Min(5.0, raw))
  }

  /** A move with two or more pointers emits a scale and the base rotation, never a
      translation. The start angle is not used. */
  function PinchUpdate(baseScale: real, baseRot: real, startDist: real, dist: real): (u: Slot.Updates)
    ensures u.tx == None && u.ty == None && u.rot == Some(baseRot)
    ensures u.scale == Some(PinchScale(baseScale, startDist, dist))
    ensures u.scale.Some? && 0.2 <= u.scale.value <= 5.0
  {
    Slot.Updates(None, None, Some(PinchScale(baseScale, startDist, dist)), Some(baseRot))
  }

  /** When the pointers are as far apart as at the start, the pinch keeps the clamped base scale. */
  lemma PinchAtStartDistance(baseScale: real, d: real)
    requires d > 0.0
    ensures PinchScale(baseScale, d, d) == Slot.Clamp(0.2, 5.0, baseScale)
  {
    assert d / d == 1.0;
  }

  /** Every scale the slot stores from a pinch lies in [1, 5]; a pan stores max(1, old scale),
      which is in [1, 5] whenever the old scale was at most 5. */
  lemma StoredGestureScaleInRange(spec: PartSpec, baseTx: real, baseTy: real, ax: real, ay: real,
                                  x: real, y: real, baseScale: real, baseRot: real, d0: real, d: real)
    ensures 1.0 <= Slot.ApplyGesture(spec, PinchUpdate(baseScale, baseRot, d0, d)).scale <= 5.0
    ensures spec.scale <= 5.0 ==> 1.0 <= Slot.ApplyGesture(spec, PanUpdate(baseTx, baseTy, ax, ay, x, y)).scale <= 5.0
  {
  }

  class Recognizer {
    var pointers: seq<int>
    var baseTx: real
    var baseTy: real
    var baseScale: real
    var baseRot: real
    var startDist: real
    var startAngle: real
    var anchorX: real
    var anchorY: real

    ghost predicate Valid()
      reads this
    {
      Distinct(pointers)
    }

    /** The hook starts with no pointers, the base taken from the initial transform and a zero
        start distance and anchor. */
    constructor (initial: Slot.Transform)
      ensures Valid() && pointers == []
      ensures baseTx == initial.tx && baseTy == initial.ty && baseScale == initial.scale && baseRot == initial.rot
      ensures startDist == 0.0 && startAngle == 0.0 && anchorX == 0.0 && anchorY == 0.0
    {
      pointers := [];
      baseTx, baseTy, baseScale, baseRot := initial.tx, initial.ty, initial.scale, initial.rot;
      startDist, startAngle, anchorX, anchorY := 0.0, 0.0, 0.0, 0.0;
    }

    /** `handleDown`: record the pointer, re-capture the base from the current transform,
        set the anchor when this is the only pointer, and the start distance and angle when
        there are now exactly two (`pairDist`, `pairAngle` are those of the first two). */
    method Down(id: int, x: real, y: real, current: Slot.Transform, pairDist: real, pairAngle: real)
      requires Valid()
      modifies this
      ensures Valid()
      ensures pointers == Inserted(old(pointers), id)
      ensures baseTx == current.tx && baseTy == current.ty && baseScale == current.scale && baseRot == current.rot
      ensures (anchorX, anchorY) == if |pointers| == 1 then (x, y) else old((anchorX, anchorY))
      ensures (startDist, startAngle) == if |pointers| == 2 then (pairDist, pairAngle) else old((startDist, startAngle))
    {
      pointers := Inserted(pointers, id);
      baseTx, baseTy, baseScale, baseRot := current.tx, current.ty, current.scale, current.rot;
      if |pointers| == 1 {
        anchorX, anchorY := x, y;
      }
      if |pointers| == 2 {
        startDist, startAngle := pairDist, pairAngle;
      }
    }

    /** `handleMove`: record the pointer (also one never pressed), then pan when it is the
        only pointer and pinch otherwise. Only the pointer map changes. */
    method Move(id: int, x: real, y: real, pairDist: real) returns (u: Slot.Updates)
      requires Valid()
      modifies this`pointers
      ensures Valid()
      ensures pointers == Inserted(old(pointers), id)
      ensures |pointers| == 1 ==> u == PanUpdate(baseTx, baseTy, anchorX, anchorY, x, y)
      ensures |pointers| >= 2 ==> u == PinchUpdate(baseScale, baseRot, startDist, pairDist)
    {
      pointers := Inserted(pointers, id);
      if |pointers| == 1 {
        u := PanUpdate(baseTx, baseTy, anchorX, anchorY, x, y);
      } else {
        u := PinchUpdate(baseScale, baseRot, startDist, pairDist);
      }
    }

    /** `handleUpOrCancel`: forget exactly that pointer; with fewer than two left the start
        distance is reset. */
    method UpOrCancel(id: int)
      requires Valid()
      modifies this`pointers, this`startDist
      ensures Valid()
      ensures pointers == Removed(old(pointers), id)
      ensures startDist == if |pointers| < 2 then 0.0 else old(startDist)
    {
      pointers := Removed(pointers, id);
      if |pointers| < 2 {
        startDist := 0.0;
      }
    }
  }

  /** Two successive one-pointer moves are both measured from the same pointer-down anchor,
      so the second does not build on the first. */
  method PanIsAnchored(g: Recognizer, x1: real, y1: real, x2: real, y2: real, current: Slot.Transform)
      returns (u1: Slot.Updates, u2: Slot.Updates)
    requires g.Valid() && g.pointers == []
    modifies g
    ensures u2 == PanUpdate(current.tx, current.ty, x1, y1, x2, y2)
    ensures u1.tx == Some(current.tx) && u1.ty == Some(current.ty)
  {
    g.Down(7, x1, y1, current, 0.0, 0.0);
    u1 := g.Move(7, x1, y1, 0.0);
    u2 := g.Move(7, x2, y2, 0.0);
  }
}
