/** One panel slot: how a gesture update is merged into the stored spec, the per-kind
    trim / bleed / safe / viewport table, the nesting of its boxes, and the recording of the
    image's natural size when it loads. */
module Slot {
  import opened Types
  import PrintSpecs

  /** A partial transform emitted by the gesture recogniser. */
  datatype Updates = Updates(tx: Option<real>, ty: Option<real>, scale: Option<real>, rot: Option<real>)

  datatype Transform = Transform(tx: real, ty: real, scale: real, rot: real)

  function Max(a: real, b: real): real { if a >= b then a else b }
  function Min(a: real, b: real): real { if a <= b then a else b }

  /** `Math.max(lo, Math.min(hi, x))` */
  function Clamp(lo: real, hi: real, x: real): (r: real)
    requires lo <= hi
    ensures lo <= r <= hi
    ensures lo <= x <= hi ==> r == x
    ensures x < lo ==> r == lo
    ensures x > hi ==> r == hi
  {
    Max(lo, Min(hi, x))
  }

  function OrKeep(o: Option<real>, old_: real): real {
    if o.Some? then o.value else old_
  }

  /** `clampTransform`: coordinates and rotation from the update when present, otherwise
      kept; a given scale is clamped into [1, 5]; without one the stored scale is lifted to
      at least 1. Translation is never clamped. */
  function ClampTransform(spec: PartSpec, u: Updates): (t: Transform)
    ensures t.tx == OrKeep(u.tx, spec.tx) && t.ty == OrKeep(u.ty, spec.ty)
    ensures t.rot == OrKeep(u.rot, spec.rot)
    ensures t.scale >= 1.0
    ensures u.scale.Some? ==> t.scale <= 5.0
    ensures u.scale.Some? && 1.0 <= u.scale.value <= 5.0 ==> t.scale == u.scale.value
    ensures u.scale.Some? && u.scale.value > 5.0 ==> t.scale == 5.0
    ensures u.scale.Some? && u.scale.value < 1.0 ==> t.scale == 1.0
    ensures u.scale.None? ==> t.scale == (if spec.scale < 1.0 then 1.0 else spec.scale)
  {
    Transform(
      OrKeep(u.tx, spec.tx),
      OrKeep(u.ty, spec.ty),
      if u.scale.Some? then Max(1.0, Min(5.0, u.scale.value)) else Max(1.0, spec.scale),
      OrKeep(u.rot, spec.rot))
  }

  /** `onUpdate({ ...spec, ...clampTransform(updates) })`: only the transform changes. */
  function ApplyGesture(spec: PartSpec, u: Updates): (r: PartSpec)
    ensures r.part == spec.part && r.img == spec.img && r.bgColor == spec.bgColor
    ensures r.imgWidth == spec.imgWidth && r.imgHeight == spec.imgHeight
    ensures Transform(r.tx, r.ty, r.scale, r.rot) == ClampTransform(spec, u)
  {
    var t := ClampTransform(spec, u);
    spec.(tx := t.tx, ty := t.ty, scale := t.scale, rot := t.rot)
  }

  /** A pan (no scale in the update) lifts a scale below 1 up to exactly 1. */
  lemma PanLiftsScale(spec: PartSpec, dx: real, dy: real)
    requires spec.scale < 1.0
    ensures ApplyGesture(spec, Updates(Some(dx), Some(dy), None, None)).scale == 1.0
    ensures ApplyGesture(spec, Updates(Some(dx), Some(dy), None, None)).tx == dx
  {
  }

  // ---- geometry ----

  datatype Geometry = Geometry(
    trimW: real, trimH: real,
    bleedW: real, bleedH: real,
    safeW: real, safeH: real,
    viewportW: real, viewportH: real,
    isCircle: bool, viewportRound: bool)

  /** The kinds the slot's size table gives a size to. */
  predicate HasTableEntry(p: Part) {
    p == CdDisc || p == CaseFront || p == CaseBack || p.IsFourFive()
  }

  /** The slot's case split on the part kind. Parts not listed keep the all-zero start values. */
  function GeometryOf(p: Part): Geometry {
    var (tw, th, bw, bh, sw, sh) :=
      if p == CdDisc || p == CaseFront then (40.0, 40.0, 44.0, 44.0, 34.0, 34.0)
      else if p == CaseBack then (49.0, 37.0, 53.0, 41.0, 43.0, 31.0)
      else if p.IsFourFive() then (40.0, 50.0, 44.0, 54.0, 35.0, 45.0)
      else (0.0, 0.0, 0.0, 0.0, 0.0, 0.0);
    var circle := p == CdDisc;
    var hasViewport := p.IsFourFive();
    Geometry(tw, th, bw, bh, sw, sh,
             if hasViewport then 35.0 else tw,
             if hasViewport then 45.0 else th,
             circle, circle && !hasViewport)
  }

  /** For the handled kinds the bleed is the trim plus 4 mm on each axis and the safe area
      lies strictly inside the trim; every other kind gets zero sizes. */
  lemma GeometryShape(p: Part)
    ensures var g := GeometryOf(p);
      if HasTableEntry(p) then
        g.bleedW == g.trimW + 4.0 && g.bleedH == g.trimH + 4.0 &&
        0.0 < g.safeW < g.trimW && 0.0 < g.safeH < g.trimH
      else
        g.trimW == g.trimH == g.bleedW == g.bleedH == g.safeW == g.safeH == 0.0 &&
        g.viewportW == g.viewportH == 0.0
  {
  }

  /** The viewport is 35 x 45 for the 4x5 parts and the trim otherwise; only the disc is
      drawn round. */
  lemma ViewportShape(p: Part)
    ensures var g := GeometryOf(p);
      (p.IsFourFive() ==> g.viewportW == 35.0 && g.viewportH == 45.0) &&
      (!p.IsFourFive() ==> g.viewportW == g.trimW && g.viewportH == g.trimH) &&
      (g.isCircle <==> p == CdDisc) && (g.viewportRound <==> p == CdDisc)
  {
  }

  /** The literal sizes agree with the print tables. */
  lemma AgreesWithPrintSpecs()
    ensures var g := GeometryOf(FourFiveFront); var f := PrintSpecs.FOUR_FIVE;
      g.trimW == f.trimW && g.trimH == f.trimH && g.bleedW == f.bleedW && g.bleedH == f.bleedH &&
      g.viewportW == f.viewportW && g.viewportH == f.viewportH && g == GeometryOf(FourFiveBack)
    ensures var g := GeometryOf(CdDisc); var d := PrintSpecs.CD.disc;
      g.trimW == g.trimH == d.trimD && g.bleedW == g.bleedH == d.bleedD && g.safeW == g.safeH == d.safeD
    ensures var g := GeometryOf(CaseFront); var b := PrintSpecs.CD.caseFront;
      g.trimW == b.trimW && g.trimH == b.trimH && g.bleedW == b.bleedW && g.bleedH == b.bleedH &&
      g.safeW == b.safeW && g.safeH == b.safeH
    ensures var g := GeometryOf(CaseBack); var b := PrintSpecs.CD.caseBack;
      g.trimW == b.trimW && g.trimH == b.trimH && g.bleedW == b.bleedW && g.bleedH == b.bleedH &&
      g.safeW == b.safeW && g.safeH == b.safeH
  {
  }

  datatype Anchor = Center | TopLeft

  datatype Point = Point(x: real, y: real)

  /** Top-left corner of the bleed box inside a container of the given size: at the corner
      for the top-left anchor, centred for the centre anchor. */
  function BleedOrigin(a: Anchor, g: Geometry, containerW: real, containerH: real): Point {
    match a
    case TopLeft => Point(0.0, 0.0)
    case Center => Point((containerW - g.bleedW) / 2.0, (containerH - g.bleedH) / 2.0)
  }

  /** Top-left corner of the clipping viewport: the trim box is centred in the bleed box and
      the viewport is centred in the trim box, so the viewport is centred in the bleed box. */
  function ViewportOrigin(a: Anchor, p: Part, containerW: real, containerH: real): (o: Point)
    ensures var g := GeometryOf(p); var b := BleedOrigin(a, g, containerW, containerH);
      o.x - b.x == (g.bleedW - g.viewportW) / 2.0 && o.y - b.y == (g.bleedH - g.viewportH) / 2.0
  {
    var g := GeometryOf(p);
    var b := BleedOrigin(a, g, containerW, containerH);
    var trim := Point(b.x + (g.bleedW - g.trimW) / 2.0, b.y + (g.bleedH - g.trimH) / 2.0);
    Point(trim.x + (g.trimW - g.viewportW) / 2.0, trim.y + (g.trimH - g.viewportH) / 2.0)
  }

  /** `handleImageLoad`: record the natural size only when both natural values are non-zero
      and a stored dimension is missing; `None` means no update is emitted. */
  function RecordImageSize(spec: PartSpec, naturalW: real, naturalH: real): (r: Option<PartSpec>)
    ensures r.Some? <==> naturalW != 0.0 && naturalH != 0.0 && !(Known(spec.imgWidth) && Known(spec.imgHeight))
    ensures r.Some? ==> r.value == spec.(imgWidth := Some(naturalW), imgHeight := Some(naturalH))
  {
    if naturalW != 0.0 && naturalH != 0.0 && (!Known(spec.imgWidth) || !Known(spec.imgHeight)) then
      Some(spec.(imgWidth := Some(naturalW), imgHeight := Some(naturalH)))
    else None
  }

  /** Once recorded, a second load of any image emits nothing: known sizes stay. */
  lemma RecordImageSizeOnce(spec: PartSpec, w: real, h: real, w2: real, h2: real)
    requires RecordImageSize(spec, w, h).Some?
    ensures RecordImageSize(RecordImageSize(spec, w, h).value, w2, h2) == None
  {
  }
}
