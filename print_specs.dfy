/** The physical tables of the print products (all lengths in millimetres) and the
    rounded millimetre-to-pixel conversion used for raster output. */
module PrintSpecs {

  /** Default export resolution, dots per inch. */
  const DPI: real := 300.0

  const MmPerInch: real := 25.4

  datatype Sheet = Sheet(widthMm: real, heightMm: real, outerMarginMm: real)

  const SHEET: Sheet := Sheet(100.0, 148.0, 2.0)

  /** Gap between preview tiles. */
  const GAP_TILE_MM: real := 4.0

  datatype FourFiveSpec = FourFiveSpec(
    trimW: real, trimH: real, bleedW: real, bleedH: real, viewportW: real, viewportH: real)

  const FOUR_FIVE: FourFiveSpec := FourFiveSpec(40.0, 50.0, 44.0, 54.0, 35.0, 45.0)

  datatype DiscSpec = DiscSpec(trimD: real, bleedD: real, safeD: real, holeD: real)

  datatype BoxSpec = BoxSpec(
    trimW: real, trimH: real, bleedW: real, bleedH: real, safeW: real, safeH: real)

  datatype Size = Size(w: real, h: real)

  datatype FrontPanelSizes = FrontPanelSizes(left: Size, right: Size)

  datatype BackPanelSizes = BackPanelSizes(
    outside: Size, spine1: Size, spine2: Size, spine3: Size, inside: Size)

  datatype CdSpec = CdSpec(
    disc: DiscSpec, caseFront: BoxSpec, caseBack: BoxSpec,
    front: FrontPanelSizes, back: BackPanelSizes)

  const CD: CdSpec := CdSpec(
    DiscSpec(40.0, 44.0, 34.0, 5.5),
    BoxSpec(40.0, 40.0, 44.0, 44.0, 34.0, 34.0),
    BoxSpec(49.0, 37.0, 53.0, 41.0, 43.0, 31.0),
    FrontPanelSizes(Size(40.0, 40.0), Size(40.0, 40.0)),
    BackPanelSizes(Size(49.0, 37.0), Size(5.0, 37.0), Size(5.0, 37.0), Size(5.0, 37.0), Size(44.0, 37.0)))

  datatype Offset = Offset(xMm: real, yMm: real)

  /** Fine offset added to every exported image position. */
  const EXPORT_NUDGE: Offset := Offset(0.0, 0.0)

  datatype Calibration = Calibration(scaleX: real, scaleY: real)

  /** Compensation for printer overscan. */
  const PRINT_CAL: Calibration := Calibration(0.95, 0.95)

  /** JavaScript `Math.round`: the nearest integer, halves rounded up. */
  function Round(x: real): (n: int)
    ensures n as real <= x + 0.5 < n as real + 1.0
  {
    (x + 0.5).Floor
  }

  /** `mmToPx(mm, dpi) = Math.round(mm / 25.4 * dpi)`. */
  function MmToPx(mm: real, dpi: real): int {
    Round(mm / MmPerInch * dpi)
  }

  lemma RoundOfInteger(n: int)
    ensures Round(n as real) == n
  {
  }

  lemma RoundMonotone(x: real, y: real)
    requires x <= y
    ensures Round(x) <= Round(y)
  {
  }

  /** Zero millimetres is zero pixels, and one inch is exactly `dpi` pixels. */
  lemma MmToPxAnchors(d: int)
    ensures MmToPx(0.0, d as real) == 0
    ensures MmToPx(MmPerInch, d as real) == d
  {
    assert MmPerInch / MmPerInch * (d as real) == d as real;
    RoundOfInteger(d);
  }

  lemma ScaledLe(a: real, b: real, k: real)
    requires a <= b && k >= 0.0
    ensures a * k <= b * k
  {
    assert b * k - a * k == (b - a) * k;
  }

  /** For a positive resolution, more millimetres never give fewer pixels. */
  lemma MmToPxMonotone(a: real, b: real, dpi: real)
    requires a <= b && dpi > 0.0
    ensures MmToPx(a, dpi) <= MmToPx(b, dpi)
  {
    assert a / MmPerInch <= b / MmPerInch;
    ScaledLe(a / MmPerInch, b / MmPerInch, dpi);
    RoundMonotone(a / MmPerInch * dpi, b / MmPerInch * dpi);
  }

  /** At the default 300 dpi the 100 x 148 mm sheet is 1181 x 1748 pixels. */
  lemma SheetInPixels()
    ensures MmToPx(SHEET.widthMm, DPI) == 1181
    ensures MmToPx(SHEET.heightMm, DPI) == 1748
  {
    var w := SHEET.widthMm / MmPerInch * DPI;
    assert w == 30000.0 / 25.4;
    assert 1180.5 <= w + 0.5 < 1182.0;
    var h := SHEET.heightMm / MmPerInch * DPI;
    assert h == 44400.0 / 25.4;
    assert 1748.0 <= h + 0.5 < 1749.0;
  }

  /** Bleed is trim plus 2 mm per side; safe areas lie inside the trim; the 4x5 viewport
      lies strictly inside its trim. */
  lemma TablesConsistent()
    ensures FOUR_FIVE.bleedW == FOUR_FIVE.trimW + 4.0 && FOUR_FIVE.bleedH == FOUR_FIVE.trimH + 4.0
    ensures FOUR_FIVE.viewportW < FOUR_FIVE.trimW && FOUR_FIVE.viewportH < FOUR_FIVE.trimH
    ensures CD.disc.bleedD == CD.disc.trimD + 4.0 && CD.disc.safeD == CD.disc.trimD - 6.0
    ensures CD.disc.holeD < CD.disc.safeD
    ensures forall b :: b in [CD.caseFront, CD.caseBack] ==>
              b.bleedW == b.trimW + 4.0 && b.bleedH == b.trimH + 4.0 &&
              b.safeW == b.trimW - 6.0 && b.safeH == b.trimH - 6.0
  {
  }

  /** All back panels are 37 mm high and together 108 mm wide; the front panels are 40 x 40. */
  lemma PanelTable()
    ensures forall s :: s in [CD.back.outside, CD.back.spine1, CD.back.spine2, CD.back.spine3, CD.back.inside] ==> s.h == 37.0
    ensures CD.back.outside.w + CD.back.spine1.w + CD.back.spine2.w + CD.back.spine3.w + CD.back.inside.w == 108.0
    ensures CD.front.left == Size(40.0, 40.0) && CD.front.right == Size(40.0, 40.0)
  {
  }

  /** Adding EXPORT_NUDGE moves nothing. */
  function Nudged(p: Offset): (q: Offset)
    ensures q == p
  {
    Offset(p.xMm + EXPORT_NUDGE.xMm, p.yMm + EXPORT_NUDGE.yMm)
  }

  /** Scaling by PRINT_CAL shrinks every positive length by 5 percent. */
  function Calibrated(s: Size): (r: Size)
    ensures s.w > 0.0 ==> r.w < s.w
    ensures s.h > 0.0 ==> r.h < s.h
    ensures r.w == 0.95 * s.w && r.h == 0.95 * s.h
  {
    Size(s.w * PRINT_CAL.scaleX, s.h * PRINT_CAL.scaleY)
  }
}
