/** One side of the circle-duplex print sheet: a grid of round parts, each an image clipped
    to a circle with optional cut and safe circles and a cross perforation, plus optional
    registration crosses. Coordinates are unrounded pixels at 300 dpi. */
module PrintSheet {
  import opened Types
  import Mm
  import PerfPath

  datatype Side = Front | Back

  datatype Aspect = Slice | Meet   // 'xMidYMid slice' | 'xMidYMid meet'

  function Px(mm: real): real {
    Mm.MmToPx(mm, Mm.DPI)
  }

  /** `part.bleed_mm ?? defaults.bleed_mm` */
  function Bleed(cfg: Config): real {
    if cfg.part.bleedMm.Some? then cfg.part.bleedMm.value else cfg.defaults.bleedMm
  }

  /** `part.safe_mm ?? defaults.safe_mm` */
  function Safe(cfg: Config): real {
    if cfg.part.safeMm.Some? then cfg.part.safeMm.value else cfg.defaults.safeMm
  }

  /** Square cells: diameter, spacing and a bleed on both sides. */
  function CellW(cfg: Config): real {
    Px(cfg.part.outerDiameterMm + cfg.printing.grid.spacingMm + Bleed(cfg) * 2.0)
  }

  /** The image of the chosen side, its fit falling back to the defaults and then to cover. */
  function ImageOf(cfg: Config, side: Side): ImageCfg {
    if side == Front then cfg.part.front else cfg.part.back
  }

  function FitOf(cfg: Config, side: Side): Fit {
    var im := ImageOf(cfg, side);
    if im.fit.Some? then im.fit.value else if cfg.defaults.fit.Some? then cfg.defaults.fit.value else Cover
  }

  /** Only the back side is mirrored, and only when the back image asks for it. */
  predicate Flipped(cfg: Config, side: Side) {
    side == Back && cfg.part.back.flipXOnBack == Some(true)
  }

  datatype Circle = Circle(cx: real, cy: real, r: real)

  datatype Cell = Cell(
    row: nat, col: nat,
    clip: Circle,
    imgX: real, imgY: real, imgSize: real,
    href: string,
    flip: bool,
    aspect: Aspect,
    cut: Option<Circle>,
    safe: Option<Circle>,
    perf: (PerfPath.Path, PerfPath.Path),
    strokeW: real, dash: real, gap: real)

  function CentreX(cfg: Config, col: nat): real {
    Px(cfg.printing.page.marginMm) + col as real * CellW(cfg) + Px(cfg.part.outerDiameterMm / 2.0 + Bleed(cfg))
  }

  function CentreY(cfg: Config, row: nat): real {
    Px(cfg.printing.page.marginMm) + row as real * CellW(cfg) + Px(cfg.part.outerDiameterMm / 2.0 + Bleed(cfg))
  }

  /** The element drawn for grid cell (row, col). */
  function CellAt(cfg: Config, side: Side, row: nat, col: nat): Cell {
    var d := cfg.part.outerDiameterMm;
    var r := d / 2.0;
    var cx, cy := CentreX(cfg, col), CentreY(cfg, row);
    var pf := cfg.part.perforation;
    Cell(row, col,
      Circle(cx, cy, Px(r)),
      cx - Px(r), cy - Px(r), Px(d),
      ImageOf(cfg, side).src,
      Flipped(cfg, side),
      if FitOf(cfg, side) == Cover then Slice else Meet,
      if cfg.printing.showCutLines then Some(Circle(cx, cy, Px(r + Bleed(cfg)))) else None,
      if cfg.printing.showSafeBleed then Some(Circle(cx, cy, Px(r - Safe(cfg)))) else None,
      PerfPath.CrossPerfPaths(cx, cy, Px(pf.halfArmMm), Px(pf.armWidthMm)),
      Px(0.2), Px(pf.dashMm), Px(pf.gapMm))
  }

  lemma RowMajorBound(r: nat, c: nat, rows: nat, cols: nat)
    requires r < rows && c < cols
    ensures r * cols + c < rows * cols
  {
    assert rows * cols == (rows - 1 - r) * cols + r * cols + cols;
    assert (rows - 1 - r) * cols >= 0;
  }

  /** The grid cells in the order the nested loops push them, rows outside, columns inside.
      Item k is the cell at row k / cols, column k % cols, written without division. */
  method Items(cfg: Config, side: Side) returns (items: seq<Cell>)
    ensures |items| == cfg.printing.grid.rows * cfg.printing.grid.cols
    ensures forall k :: 0 <= k < |items| ==>
      items[k].row < cfg.printing.grid.rows && items[k].col < cfg.printing.grid.cols &&
      k == items[k].row * cfg.printing.grid.cols + items[k].col &&
      items[k] == CellAt(cfg, side, items[k].row, items[k].col)
  {
    var rows, cols := cfg.printing.grid.rows, cfg.printing.grid.cols;
    items := [];
    var row := 0;
    while row < rows
      invariant 0 <= row <= rows
      invariant |items| == row * cols
      invariant forall k :: 0 <= k < |items| ==>
        items[k].row < row && items[k].col < cols && k == items[k].row * cols + items[k].col &&
        items[k] == CellAt(cfg, side, items[k].row, items[k].col)
    {
      var col := 0;
      while col < cols
        invariant 0 <= col <= cols
        invariant |items| == row * cols + col
        invariant forall k :: 0 <= k < |items| ==>
          items[k].row <= row && items[k].col < cols && k == items[k].row * cols + items[k].col &&
          items[k] == CellAt(cfg, side, items[k].row, items[k].col)
        invariant forall k :: 0 <= k < row * cols ==> items[k].row < row
      {
        items := items + [CellAt(cfg, side, row, col)];
        col := col + 1;
      }
      assert row * cols + cols == (row + 1) * cols;
      forall k | 0 <= k < |items| ensures items[k].row < row + 1 {
      }
      row := row + 1;
    }
  }

  lemma AtLeastOnce(k: int, n: int)
    requires k >= 1 && n > 0
    ensures k * n >= n
  {
    assert k * n == (k - 1) * n + n;
    assert (k - 1) * n >= 0;
  }

  /** Distinct grid positions occupy distinct places in the row-major order. */
  lemma RowMajorInjective(r1: nat, c1: nat, r2: nat, c2: nat, n: nat)
    requires c1 < n && c2 < n && r1 * n + c1 == r2 * n + c2
    ensures r1 == r2 && c1 == c2
  {
    if r1 < r2 {
      assert r2 * n - r1 * n == (r2 - r1) * n;
      AtLeastOnce(r2 - r1, n);
      assert false;
    } else if r2 < r1 {
      assert r1 * n - r2 * n == (r1 - r2) * n;
      AtLeastOnce(r1 - r2, n);
      assert false;
    }
  }

  /** Every grid position appears exactly once, so the `clip-row-col` ids are unique. */
  lemma EachCellOnce(cfg: Config, side: Side, items: seq<Cell>)
    requires forall k :: 0 <= k < |items| ==>
      items[k].col < cfg.printing.grid.cols && k == items[k].row * cfg.printing.grid.cols + items[k].col
    ensures forall i, j :: 0 <= i < j < |items| ==> (items[i].row, items[i].col) != (items[j].row, items[j].col)
  {
    forall i, j | 0 <= i < j < |items| ensures (items[i].row, items[i].col) != (items[j].row, items[j].col) {
    }
  }

  /** Neighbouring centres are one cell width apart, along rows and along columns, and the
      first column's cut circle starts at the margin. */
  lemma CentresSpaced(cfg: Config, side: Side, row: nat, col: nat)
    ensures CentreX(cfg, col + 1) - CentreX(cfg, col) == CellW(cfg)
    ensures CentreY(cfg, row + 1) - CentreY(cfg, row) == CellW(cfg)
    ensures CentreX(cfg, 0) - Px(cfg.part.outerDiameterMm / 2.0 + Bleed(cfg)) == Px(cfg.printing.page.marginMm)
  {
    assert (col + 1) as real * CellW(cfg) == col as real * CellW(cfg) + CellW(cfg);
    assert (row + 1) as real * CellW(cfg) == row as real * CellW(cfg) + CellW(cfg);
  }

  /** With non-negative spacing, the cut circles of two neighbouring cells in a row do not
      overlap: one cell width holds the diameter plus both bleeds. */
  lemma CutCirclesApart(cfg: Config, side: Side, row: nat, col: nat)
    requires cfg.printing.grid.spacingMm >= 0.0
    ensures var a, b := CellAt(cfg, side, row, col), CellAt(cfg, side, row, col + 1);
      var rc := Px(cfg.part.outerDiameterMm / 2.0 + Bleed(cfg));
      a.clip.cx + rc <= b.clip.cx - rc
  {
    var d, s, bl := cfg.part.outerDiameterMm, cfg.printing.grid.spacingMm, Bleed(cfg);
    CentresSpaced(cfg, side, row, col);
    Mm.Additive(d / 2.0 + bl, d / 2.0 + bl, Mm.DPI);
    Mm.Additive((d / 2.0 + bl) + (d / 2.0 + bl), s, Mm.DPI);
    assert d + s + bl * 2.0 == (d / 2.0 + bl) + (d / 2.0 + bl) + s;
    assert Px(s) >= 0.0;
  }

  /** The image is a d-wide square centred on the clip circle, which it circumscribes; with
      a non-negative safe margin and bleed the safe circle lies inside the clip circle and the
      cut circle outside it. */
  lemma CellGeometry(cfg: Config, side: Side, row: nat, col: nat)
    ensures var c := CellAt(cfg, side, row, col);
      c.imgX + c.imgSize / 2.0 == c.clip.cx && c.imgY + c.imgSize / 2.0 == c.clip.cy &&
      c.imgSize == 2.0 * c.clip.r
    ensures var c := CellAt(cfg, side, row, col);
      Safe(cfg) >= 0.0 && Bleed(cfg) >= 0.0 && c.cut.Some? && c.safe.Some? ==>
        c.safe.value.r <= c.clip.r <= c.cut.value.r
  {
    var d := cfg.part.outerDiameterMm;
    Mm.Homogeneous(2.0, d / 2.0, Mm.DPI);
    assert 2.0 * (d / 2.0) == d;
    if Safe(cfg) > 0.0 { Mm.StrictlyIncreasing(d / 2.0 - Safe(cfg), d / 2.0, Mm.DPI); }
    if Bleed(cfg) > 0.0 { Mm.StrictlyIncreasing(d / 2.0, d / 2.0 + Bleed(cfg), Mm.DPI); }
  }

  /** The mirroring transform `scale(-1,1) translate(-2cx,0)`: x becomes 2cx - x. */
  function Mirror(cx: real, x: real): real {
    -(x + -2.0 * cx)
  }

  /** Mirroring is an involution that fixes the centre and maps the image square onto itself. */
  lemma MirrorKeepsSquare(c: Cell, x: real)
    requires c.imgX + c.imgSize / 2.0 == c.clip.cx
    ensures Mirror(c.clip.cx, Mirror(c.clip.cx, x)) == x
    ensures Mirror(c.clip.cx, c.clip.cx) == c.clip.cx
    ensures Mirror(c.clip.cx, c.imgX) == c.imgX + c.imgSize
    ensures c.imgX <= x <= c.imgX + c.imgSize ==> c.imgX <= Mirror(c.clip.cx, x) <= c.imgX + c.imgSize
  {
  }

  /** The front is never mirrored; the back is mirrored exactly when flipXOnBack is true;
      the image is sliced (cover) unless the side's fit, or failing that the default fit, is
      contain. */
  lemma SideRules(cfg: Config, row: nat, col: nat)
    ensures !CellAt(cfg, Front, row, col).flip
    ensures CellAt(cfg, Back, row, col).flip <==> cfg.part.back.flipXOnBack == Some(true)
    ensures CellAt(cfg, Front, row, col).href == cfg.part.front.src
    ensures CellAt(cfg, Back, row, col).href == cfg.part.back.src
    ensures forall side :: CellAt(cfg, side, row, col).aspect == Meet <==>
      (ImageOf(cfg, side).fit == Some(Contain) || (ImageOf(cfg, side).fit == None && cfg.defaults.fit == Some(Contain)))
  {
  }

  datatype Cross = Cross(x: real, y: real, half: real, color: string)

  /** `cross(x, y, sizeMm = 4, color = '#000')`: arms of mmToPx(size) / 2 either side. */
  function CrossAt(x: real, y: real, sizeMm: real, color: string): Cross {
    Cross(x, y, Px(sizeMm) / 2.0, color)
  }

  /** The registration crosses: none without the flag; otherwise one 5 mm inside each corner
      and a larger grey one at the centre. */
  function RegMarks(cfg: Config): seq<Cross> {
    if !cfg.printing.registrationMarks then []
    else
      var pxW, pxH := Px(cfg.printing.page.wMm), Px(cfg.printing.page.hMm);
      var inset := Px(5.0);
      [CrossAt(inset, inset, 4.0, "#000"), CrossAt(pxW - inset, inset, 4.0, "#000"),
       CrossAt(inset, pxH - inset, 4.0, "#000"), CrossAt(pxW - inset, pxH - inset, 4.0, "#000"),
       CrossAt(pxW / 2.0, pxH / 2.0, 6.0, "#666")]
  }

  /** The four corner marks are symmetric about the page centre, where the fifth mark sits,
      and are smaller than it. */
  lemma RegMarksSymmetric(cfg: Config)
    ensures cfg.printing.registrationMarks <==> |RegMarks(cfg)| == 5
    ensures !cfg.printing.registrationMarks ==> RegMarks(cfg) == []
    ensures var m := RegMarks(cfg); |m| == 5 ==>
      (forall i :: 0 <= i < 4 ==> m[i].x + m[3 - i].x == 2.0 * m[4].x && m[i].y + m[3 - i].y == 2.0 * m[4].y) &&
      (forall i :: 0 <= i < 4 ==> m[i].half < m[4].half && m[i].color == "#000") && m[4].color == "#666"
  {
    Mm.StrictlyIncreasing(4.0, 6.0, Mm.DPI);
  }

  /** In the row-major list, cell (r, c) sits at index r * cols + c. */
  lemma CellLookup(cfg: Config, side: Side, items: seq<Cell>, r: nat, c: nat)
    requires |items| == cfg.printing.grid.rows * cfg.printing.grid.cols
    requires forall k :: 0 <= k < |items| ==>
      items[k].row < cfg.printing.grid.rows && items[k].col < cfg.printing.grid.cols &&
      k == items[k].row * cfg.printing.grid.cols + items[k].col &&
      items[k] == CellAt(cfg, side, items[k].row, items[k].col)
    requires r < cfg.printing.grid.rows && c < cfg.printing.grid.cols
    ensures r * cfg.printing.grid.cols + c < |items| && items[r * cfg.printing.grid.cols + c] == CellAt(cfg, side, r, c)
  {
    var cols := cfg.printing.grid.cols;
    RowMajorBound(r, c, cfg.printing.grid.rows, cols);
    var k := r * cols + c;
    var it := items[k];
    assert k == it.row * cols + it.col && it.col < cols;
    RowMajorInjective(it.row, it.col, r, c, cols);
  }

  datatype Sheet = Sheet(widthPx: real, heightPx: real, marks: seq<Cross>, cells: seq<Cell>)

  /** The sheet for one side: registration marks first, then the grid cells in row-major
      order (CellLookup gives cell (r, c) at index r * cols + c). */
  method Render(cfg: Config, side: Side) returns (sheet: Sheet)
    ensures sheet.widthPx == Px(cfg.printing.page.wMm) && sheet.heightPx == Px(cfg.printing.page.hMm)
    ensures sheet.marks == RegMarks(cfg)
    ensures |sheet.cells| == cfg.printing.grid.rows * cfg.printing.grid.cols
    ensures forall k :: 0 <= k < |sheet.cells| ==>
      sheet.cells[k].row < cfg.printing.grid.rows && sheet.cells[k].col < cfg.printing.grid.cols &&
      k == sheet.cells[k].row * cfg.printing.grid.cols + sheet.cells[k].col &&
      sheet.cells[k] == CellAt(cfg, side, sheet.cells[k].row, sheet.cells[k].col)
  {
    var items := Items(cfg, side);
    sheet := Sheet(Px(cfg.printing.page.wMm), Px(cfg.printing.page.hMm), RegMarks(cfg), items);
  }
}
