/** The folded back strip of the CD case: five panels laid side by side with no gap, drawn
    at 300 dpi with the rounded millimetre-to-pixel map. */
module BackFoldStrip {
  import opened Types
  import PrintSpecs

  datatype Panel = Panel(part: Part, w: real, h: real)

  /** Outside, the three spines, inside: the fixed strip order. */
  function Panels(): (ps: seq<Panel>)
    ensures |ps| == 5
  {
    var b := PrintSpecs.CD.back;
    [Panel(CdBackOutside, b.outside.w, b.outside.h),
     Panel(CdSpine1, b.spine1.w, b.spine1.h),
     Panel(CdSpine2, b.spine2.w, b.spine2.h),
     Panel(CdSpine3, b.spine3.w, b.spine3.h),
     Panel(CdBackInside, b.inside.w, b.inside.h)]
  }

  function Widths(ps: seq<Panel>): (ws: seq<real>)
    ensures |ws| == |ps| && forall i :: 0 <= i < |ps| ==> ws[i] == ps[i].w
  {
    seq(|ps|, i requires 0 <= i < |ps| => ps[i].w)
  }

  /** Where panel i starts in millimetres: the widths of the panels before it. */
  function OffsetMm(ws: seq<real>, i: nat): real
    requires i <= |ws|
  {
    Sum(ws[..i])
  }

  /** The `reduce` that writes `offsets[i]` before adding the i-th width. */
  method Offsets(ws: seq<real>) returns (offsets: seq<real>)
    ensures |offsets| == |ws|
    ensures forall i :: 0 <= i < |ws| ==> offsets[i] == OffsetMm(ws, i)
  {
    offsets := [];
    var acc := 0.0;
    var i := 0;
    while i < |ws|
      invariant 0 <= i <= |ws| && |offsets| == i
      invariant acc == OffsetMm(ws, i)
      invariant forall j :: 0 <= j < i ==> offsets[j] == OffsetMm(ws, j)
    {
      offsets := offsets + [acc];
      SumPrefix(ws, i);
      acc := acc + ws[i];
      i := i + 1;
    }
  }

  /** The panels abut: the first starts at 0, each next one where the previous ends, and the
      last one ends at the total width. */
  lemma PanelsAbut(ws: seq<real>)
    requires ws != []
    ensures OffsetMm(ws, 0) == 0.0
    ensures forall i :: 0 <= i < |ws| ==> OffsetMm(ws, i + 1) == OffsetMm(ws, i) + ws[i]
    ensures OffsetMm(ws, |ws| - 1) + ws[|ws| - 1] == Sum(ws)
  {
    assert ws[..0] == [];
    forall i | 0 <= i < |ws| ensures OffsetMm(ws, i + 1) == OffsetMm(ws, i) + ws[i] {
      SumPrefix(ws, i);
    }
    SumPrefix(ws, |ws| - 1);
    assert ws[..|ws|] == ws;
  }

  datatype Rect = Rect(x: int, y: int, w: int, h: int)

  /** An image placed in a panel's rectangle, cropped to cover it. */
  datatype Image = Image(part: Part, href: string, frame: Rect)

  datatype Strip = Strip(widthPx: int, heightPx: int, frames: seq<Rect>, images: seq<Image>, folds: seq<int>)

  function Px(mm: real): int {
    PrintSpecs.MmToPx(mm, PrintSpecs.DPI)
  }

  /** Panel i's rectangle: its mm offset converted once, not a sum of rounded widths. */
  function FrameOf(ps: seq<Panel>, i: nat): Rect
    requires i < |ps|
  {
    Rect(Px(OffsetMm(Widths(ps), i)), 0, Px(ps[i].w), Px(ps[i].h))
  }

  /** The images of the panels whose spec has a truthy img, in strip order. The panels'
      frames do not overlap (`PanelsAbut`), so the drawing order does not change what is
      shown and the contract states only which images are drawn, and where. */
  function ImagesFrom(ps: seq<Panel>, specs: map<Part, PartSpec>, from: nat): (r: seq<Image>)
    requires from <= |ps|
    ensures forall im :: im in r ==>
      (exists i :: from <= i < |ps| && im.part == ps[i].part && im.frame == FrameOf(ps, i) &&
         ps[i].part in specs && HasText(specs[ps[i].part].img) && im.href == specs[ps[i].part].img.value)
    ensures forall i :: from <= i < |ps| && ps[i].part in specs && HasText(specs[ps[i].part].img) ==>
      Image(ps[i].part, specs[ps[i].part].img.value, FrameOf(ps, i)) in r
    decreases |ps| - from
  {
    if from == |ps| then []
    else
      var p := ps[from].part;
      var here := if p in specs && HasText(specs[p].img) then [Image(p, specs[p].img.value, FrameOf(ps, from))] else [];
      here + ImagesFrom(ps, specs, from + 1)
  }

  /** The strip: a frame for every panel, an image for the panels that have one, and with
      guides a dashed fold line at every panel boundary after the first. */
  function StripOf(specs: map<Part, PartSpec>, showGuides: bool): Strip {
    var ps := Panels();
    var ws := Widths(ps);
    Strip(Px(Sum(ws)), Px(ps[0].h),
      seq(|ps|, i requires 0 <= i < |ps| => FrameOf(ps, i)),
      ImagesFrom(ps, specs, 0),
      if showGuides then seq(|ps| - 1, i requires 0 <= i < |ps| - 1 => Px(OffsetMm(ws, i + 1))) else [])
  }

  /** Exactly four fold lines, at the starts of panels 1 to 4, and none without guides;
      five frames always, and every panel that has an image shows it. */
  lemma StripShape(specs: map<Part, PartSpec>, showGuides: bool)
    ensures var s := StripOf(specs, showGuides); var ps := Panels();
      |s.frames| == 5 &&
      (showGuides ==> |s.folds| == 4 && forall i :: 0 <= i < 4 ==> s.folds[i] == s.frames[i + 1].x) &&
      (!showGuides ==> s.folds == []) &&
      (forall i :: 0 <= i < 5 && ps[i].part in specs && HasText(specs[ps[i].part].img) ==>
         Image(ps[i].part, specs[ps[i].part].img.value, s.frames[i]) in s.images) &&
      (forall im :: im in s.images ==> im.part in specs && HasText(specs[im.part].img))
  {
  }

  /** Every panel is 37 mm high, the widths total 108 mm, and at 300 dpi the panels start at
      0, 579, 638, 697 and 756 px in a 1276 x 437 px strip. The first fold is at 579, never 0. */
  lemma StripInPixels(specs: map<Part, PartSpec>)
    ensures forall p :: p in Panels() ==> p.h == 37.0
    ensures Sum(Widths(Panels())) == 108.0
    ensures var s := StripOf(specs, true);
      s.widthPx == 1276 && s.heightPx == 437 &&
      s.frames[0].x == 0 && s.frames[1].x == 579 && s.frames[2].x == 638 &&
      s.frames[3].x == 697 && s.frames[4].x == 756 && s.folds[0] == 579
  {
    var ws := Widths(Panels());
    assert ws == [49.0, 5.0, 5.0, 5.0, 44.0];
    PanelsAbut(ws);
    assert ws[..5] == ws;
    assert OffsetMm(ws, 1) == OffsetMm(ws, 0) + ws[0] == 49.0;
    assert OffsetMm(ws, 2) == OffsetMm(ws, 1) + ws[1] == 54.0;
    assert OffsetMm(ws, 3) == OffsetMm(ws, 2) + ws[2] == 59.0;
    assert OffsetMm(ws, 4) == OffsetMm(ws, 3) + ws[3] == 64.0;
    assert OffsetMm(ws, 5) == OffsetMm(ws, 4) + ws[4] == 108.0;
    assert Px(108.0) == 1276;
    assert Px(37.0) == 437;
    assert Px(49.0) == 579;
    assert Px(54.0) == 638;
    assert Px(59.0) == 697;
    assert Px(64.0) == 756;
  }
}
