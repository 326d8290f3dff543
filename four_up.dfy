/** The staff 4-up page: four scanned 4x5 fronts previewed on an A6 sheet, and the JPEG
    export that draws them onto a 300 dpi canvas with "contain" fitting. */
module FourUp {
  import opened Types
  import PrintSpecs
  import Slot

  /** The page's local `mmToPx`: round(mm / 25.4 * 300). */
  function LocalPx(mm: real): int {
    PrintSpecs.Round(mm / 25.4 * 300.0)
  }

  /** It is the print tables' rounded map at their default resolution, so the canvas is the
      1181 x 1748 px sheet. */
  lemma LocalPxIsTableMap(mm: real)
    ensures LocalPx(mm) == PrintSpecs.MmToPx(mm, PrintSpecs.DPI)
    ensures LocalPx(100.0) == 1181 && LocalPx(148.0) == 1748
  {
    PrintSpecs.SheetInPixels();
  }

  /** `scanned[i]?.front`, with `scanned` empty when nothing was stored. */
  function FrontAt(scanned: seq<Payload>, i: nat): Option<PartSpec> {
    if i < |scanned| then scanned[i].front else None
  }

  // ---- preview ----

  /** The spec a preview slot shows: the scanned front, or the identity 4x5-front spec. */
  function PreviewSpec(scanned: seq<Payload>, i: nat): (s: PartSpec)
    ensures FrontAt(scanned, i).Some? ==> s == FrontAt(scanned, i).value
    ensures FrontAt(scanned, i).None? ==> s == Identity(FourFiveFront)
  {
    if FrontAt(scanned, i).Some? then FrontAt(scanned, i).value else Identity(FourFiveFront)
  }

  datatype Spot = Spot(xMm: real, yMm: real)

  /** Where the slots A, B, C, D go on the sheet, in drawing order. */
  const Spots: seq<Spot> := [Spot(2.0, 2.0), Spot(44.0, 2.0), Spot(2.0, 54.0), Spot(44.0, 54.0)]

  const ViewportWMm: real := 35.0
  const ViewportHMm: real := 45.0

  predicate Disjoint(a: Spot, b: Spot) {
    a.xMm + ViewportWMm <= b.xMm || b.xMm + ViewportWMm <= a.xMm ||
    a.yMm + ViewportHMm <= b.yMm || b.yMm + ViewportHMm <= a.yMm
  }

  /** The four 35 x 45 mm export viewports do not overlap and lie on the 100 x 148 mm sheet. */
  lemma SpotsFitSheet()
    ensures |Spots| == 4
    ensures forall i, j :: 0 <= i < j < 4 ==> Disjoint(Spots[i], Spots[j])
    ensures forall i :: 0 <= i < 4 ==>
      0.0 <= Spots[i].xMm && Spots[i].xMm + ViewportWMm <= PrintSpecs.SHEET.widthMm &&
      0.0 <= Spots[i].yMm && Spots[i].yMm + ViewportHMm <= PrintSpecs.SHEET.heightMm
  {
  }

  /** On screen the top-left-anchored slot placed at a spot centres its 35 x 45 viewport in
      the 44 x 54 bleed box, so the picture starts 4.5 mm right of and below the spot at which
      the export clips it. */
  lemma ScreenAndExportDisagree(containerW: real, containerH: real)
    ensures forall i :: 0 <= i < 4 ==>
      var o := Slot.ViewportOrigin(Slot.TopLeft, FourFiveFront, containerW, containerH);
      Spots[i].xMm + o.x == Spots[i].xMm + 4.5 && Spots[i].yMm + o.y == Spots[i].yMm + 4.5
    ensures Spots[0].xMm + Slot.ViewportOrigin(Slot.TopLeft, FourFiveFront, containerW, containerH).x == 6.5
  {
    var o := Slot.ViewportOrigin(Slot.TopLeft, FourFiveFront, containerW, containerH);
    assert o == Slot.Point(4.5, 4.5);
  }

  // ---- export ----

  /** The outcome of loading an image: its natural size, or the `onerror` rejection. */
  datatype Load = Loaded(w: real, h: real) | LoadError

  /** A loaded image has a positive natural size. */
  ghost predicate WellLoaded(load: string -> Load) {
    forall s :: load(s).Loaded? ==> load(s).w > 0.0 && load(s).h > 0.0
  }

  datatype Rect = Rect(x: real, y: real, w: real, h: real)

  /** One `drawImage` call, made under a clip to the viewport rectangle. */
  datatype Draw = Draw(clip: Rect, image: Rect, src: string)

  datatype DrawOutcome = Skipped | Drawn(d: Draw) | Rejected

  function ContainScale(vpW: real, vpH: real, iw: real, ih: real): real
    requires iw > 0.0 && ih > 0.0
  {
    Slot.Min(vpW / iw, vpH / ih)
  }

  /** `drawPart`: nothing for a part without an image; otherwise the image, scaled to fit the
      viewport and then by `p.scale || 1`, centred in it and shifted by the rounded offsets. */
  function DrawPart(p: Option<PartSpec>, at: Spot, load: string -> Load): (o: DrawOutcome)
    requires WellLoaded(load)
    ensures o.Skipped? <==> !(p.Some? && HasText(p.value.img))
    ensures o.Rejected? <==> p.Some? && HasText(p.value.img) && load(p.value.img.value).LoadError?
    ensures o.Drawn? ==>
      (o.d.src == p.value.img.value &&
       o.d.clip == Rect(LocalPx(at.xMm) as real, LocalPx(at.yMm) as real, LocalPx(ViewportWMm) as real, LocalPx(ViewportHMm) as real))
    ensures o.Drawn? ==>
      var l := load(p.value.img.value);
      var k := ContainScale(o.d.clip.w, o.d.clip.h, l.w, l.h);
      o.d.image.w == l.w * k * OrOne(p.value.scale) && o.d.image.h == l.h * k * OrOne(p.value.scale)
  {
    if !(p.Some? && HasText(p.value.img)) then Skipped
    else
      var s := p.value;
      match load(s.img.value)
      case LoadError => Rejected
      case Loaded(iw, ih) =>
        var x, y := LocalPx(at.xMm) as real, LocalPx(at.yMm) as real;
        var vpW, vpH := LocalPx(ViewportWMm) as real, LocalPx(ViewportHMm) as real;
        var k := ContainScale(vpW, vpH, iw, ih);
        var drawW, drawH := iw * k * OrOne(s.scale), ih * k * OrOne(s.scale);
        Drawn(Draw(Rect(x, y, vpW, vpH),
                   Rect(x + (vpW - drawW) / 2.0 + LocalPx(s.tx) as real, y + (vpH - drawH) / 2.0 + LocalPx(s.ty) as real, drawW, drawH),
                   s.img.value))
  }

  lemma MulLe(k: real, a: real, b: real)
    requires k > 0.0 && a <= b
    ensures k * a <= k * b
  {
    assert k * b - k * a == k * (b - a);
  }

  /** Contain fitting: at scale 1 the image fits inside the viewport and fills it along at
      least one axis. */
  lemma ContainFits(vpW: real, vpH: real, iw: real, ih: real)
    requires iw > 0.0 && ih > 0.0
    ensures var k := ContainScale(vpW, vpH, iw, ih);
      iw * k <= vpW && ih * k <= vpH && (iw * k == vpW || ih * k == vpH)
  {
    var a, b := vpW / iw, vpH / ih;
    assert iw * a == vpW && ih * b == vpH;
    if a <= b {
      MulLe(ih, a, b);
    } else {
      MulLe(iw, b, a);
    }
  }

  /** The drawn rectangle's centre is the viewport's centre moved by the rounded offsets, at
      scale 1 (or 0, which falls back to 1) it lies inside the viewport, and at any scale it
      keeps the image's aspect ratio. */
  lemma DrawnIsCentred(p: PartSpec, at: Spot, load: string -> Load)
    requires WellLoaded(load) && HasText(p.img) && load(p.img.value).Loaded?
    ensures var o := DrawPart(Some(p), at, load);
      o.Drawn? &&
      o.d.image.x + o.d.image.w / 2.0 == o.d.clip.x + o.d.clip.w / 2.0 + LocalPx(p.tx) as real &&
      o.d.image.y + o.d.image.h / 2.0 == o.d.clip.y + o.d.clip.h / 2.0 + LocalPx(p.ty) as real
    ensures var o := DrawPart(Some(p), at, load);
      (p.scale == 1.0 || p.scale == 0.0) ==> o.d.image.w <= o.d.clip.w && o.d.image.h <= o.d.clip.h
    ensures var o := DrawPart(Some(p), at, load); var l := load(p.img.value);
      o.d.image.w * l.h == o.d.image.h * l.w
  {
    var l := load(p.img.value);
    ContainFits(LocalPx(ViewportWMm) as real, LocalPx(ViewportHMm) as real, l.w, l.h);
    var o := DrawPart(Some(p), at, load);
    var m := ContainScale(o.d.clip.w, o.d.clip.h, l.w, l.h) * OrOne(p.scale);
    assert o.d.image.w == l.w * m && o.d.image.h == l.h * m;
  }

  datatype Export =
    | NoContext                              // getContext('2d') returned null
    | Aborted(done: seq<Draw>)               // a load rejected; nothing is downloaded
    | Downloaded(w: int, h: int, draws: seq<Draw>, fileName: string, quality: real)

  /** The drawing sequence on slots i.. onwards: drawn parts accumulate, the first rejection
      stops everything. */
  function DrawFrom(scanned: seq<Payload>, load: string -> Load, i: nat, done: seq<Draw>): (e: Export)
    requires WellLoaded(load) && i <= 4
    ensures e.Aborted? || e.Downloaded?
    decreases 4 - i
  {
    if i == 4 then Downloaded(LocalPx(100.0), LocalPx(148.0), done, "fourup-a6.jpg", 0.92)
    else match DrawPart(FrontAt(scanned, i), Spots[i], load)
      case Rejected => Aborted(done)
      case Skipped => DrawFrom(scanned, load, i + 1, done)
      case Drawn(d) => DrawFrom(scanned, load, i + 1, done + [d])
  }

  function ExportOf(scanned: seq<Payload>, hasContext: bool, load: string -> Load): Export
    requires WellLoaded(load)
  {
    if !hasContext then NoContext else DrawFrom(scanned, load, 0, [])
  }

  /** `downloadPng`: fill white, await the four parts in order A, B, C, D, then download. */
  method DownloadPng(scanned: seq<Payload>, hasContext: bool, load: string -> Load) returns (e: Export)
    requires WellLoaded(load)
    ensures e == ExportOf(scanned, hasContext, load)
  {
    if !hasContext {
      return NoContext;
    }
    var done: seq<Draw> := [];
    var i := 0;
    while i < 4
      invariant 0 <= i <= 4
      invariant DrawFrom(scanned, load, 0, []) == DrawFrom(scanned, load, i, done)
    {
      var o := DrawPart(FrontAt(scanned, i), Spots[i], load);
      if o.Rejected? {
        return Aborted(done);
      }
      if o.Drawn? {
        done := done + [o.d];
      }
      i := i + 1;
    }
    e := Downloaded(LocalPx(100.0), LocalPx(148.0), done, "fourup-a6.jpg", 0.92);
  }

  /** A part whose image is present and fails to load. */
  predicate Fails(scanned: seq<Payload>, load: string -> Load, i: nat) {
    var p := FrontAt(scanned, i);
    p.Some? && HasText(p.value.img) && load(p.value.img.value).LoadError?
  }

  /** The export downloads exactly when no part's image fails to load; a single failure
      discards the parts already drawn. Downloads are 1181 x 1748 px. */
  lemma ExportAllOrNothing(scanned: seq<Payload>, load: string -> Load, i: nat, done: seq<Draw>)
    requires WellLoaded(load) && i <= 4
    ensures DrawFrom(scanned, load, i, done).Downloaded? <==> forall j :: i <= j < 4 ==> !Fails(scanned, load, j)
    ensures DrawFrom(scanned, load, i, done).Downloaded? ==>
      DrawFrom(scanned, load, i, done).w == 1181 && DrawFrom(scanned, load, i, done).h == 1748
    decreases 4 - i
  {
    LocalPxIsTableMap(0.0);
    if i < 4 {
      ExportAllOrNothing(scanned, load, i + 1, done);
      var o := DrawPart(FrontAt(scanned, i), Spots[i], load);
      if o.Drawn? { ExportAllOrNothing(scanned, load, i + 1, done + [o.d]); }
      assert o.Rejected? <==> Fails(scanned, load, i);
      assert (forall j :: i <= j < 4 ==> !Fails(scanned, load, j)) <==>
        !Fails(scanned, load, i) && forall j :: i + 1 <= j < 4 ==> !Fails(scanned, load, j);
    }
  }
}
