/** The unrounded millimetre-to-pixel map used for vector output. */
module Mm {
  import PrintSpecs

  const DPI: real := 300.0

  /** `mmToPx(mm, dpi) = mm / 25.4 * dpi`, left as a real for SVG coordinates. */
  function MmToPx(mm: real, dpi: real := DPI): real {
    mm / 25.4 * dpi
  }

  lemma Anchors()
    ensures MmToPx(0.0) == 0.0
    ensures MmToPx(25.4) == DPI
  {
  }

  /** The map is additive ... */
  lemma Additive(a: real, b: real, dpi: real)
    ensures MmToPx(a + b, dpi) == MmToPx(a, dpi) + MmToPx(b, dpi)
  {
    calc {
      MmToPx(a + b, dpi);
      (a + b) / 25.4 * dpi;
      (a / 25.4 + b / 25.4) * dpi;
      a / 25.4 * dpi + b / 25.4 * dpi;
    }
  }

  /** ... homogeneous ... */
  lemma Homogeneous(k: real, a: real, dpi: real)
    ensures MmToPx(k * a, dpi) == k * MmToPx(a, dpi)
  {
    calc {
      MmToPx(k * a, dpi);
      (k * a) / 25.4 * dpi;
      (k * (a / 25.4)) * dpi;
      k * (a / 25.4 * dpi);
    }
  }

  /** ... and strictly increasing for a positive resolution. */
  lemma StrictlyIncreasing(a: real, b: real, dpi: real)
    requires a < b && dpi > 0.0
    ensures MmToPx(a, dpi) < MmToPx(b, dpi)
  {
    Additive(a, b - a, dpi);
    assert (b - a) / 25.4 > 0.0;
    assert MmToPx(b - a, dpi) == (b - a) / 25.4 * dpi;
  }

  /** Rounding the vector value gives the raster value of the print tables. */
  lemma RoundedAgreesWithTables(mm: real, dpi: real)
    ensures PrintSpecs.Round(MmToPx(mm, dpi)) == PrintSpecs.MmToPx(mm, dpi)
  {
  }
}
