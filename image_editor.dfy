/** The editor component's commands over the editor state: the cover-scale viewport table,
    cover / reset / paste, the keyboard map, group selection, the millimetre layout of the
    grouped previews, and the QR generation retry schedule with image recompression. */
module ImageEditor {
  import opened Types
  import PrintSpecs
  import Slot
  import EditorHistory
  import Clipboard

  // ---- viewport table and cover scale ----

  /** `getViewportMm`: the size the cover scale is computed against. Parts without an
      entry, among them case-front and case-back, get the 40 x 40 default. */
  function ViewportMm(p: Part): (v: PrintSpecs.Size)
    ensures v.w > 0.0 && v.h > 0.0
  {
    if p.IsFourFive() then PrintSpecs.Size(PrintSpecs.FOUR_FIVE.viewportW, PrintSpecs.FOUR_FIVE.viewportH)
    else if p == CdDisc then PrintSpecs.Size(PrintSpecs.CD.disc.trimD, PrintSpecs.CD.disc.trimD)
    else if p == CdFrontLeft then PrintSpecs.CD.front.left
    else if p == CdFrontRight then PrintSpecs.CD.front.right
    else if p == CdBackOutside then PrintSpecs.CD.back.outside
    else if p == CdBackInside then PrintSpecs.CD.back.inside
    else if p.IsSpine() then PrintSpecs.CD.back.spine1
    else PrintSpecs.Size(40.0, 40.0)
  }

  /** The table written out: every entry is positive. */
  lemma ViewportTable(p: Part)
    ensures var v := ViewportMm(p);
      v.w > 0.0 && v.h > 0.0 &&
      (p.IsFourFive() ==> v == PrintSpecs.Size(35.0, 45.0)) &&
      (p == CdDisc || p == CdFrontLeft || p == CdFrontRight || p == CaseFront || p == CaseBack ==>
         v == PrintSpecs.Size(40.0, 40.0)) &&
      (p == CdBackOutside ==> v == PrintSpecs.Size(49.0, 37.0)) &&
      (p == CdBackInside ==> v == PrintSpecs.Size(44.0, 37.0)) &&
      (p.IsSpine() ==> v == PrintSpecs.Size(5.0, 37.0))
  {
  }

  /** Where the cover table and the slot's drawn viewport agree, and where they do not: the
      panel parts have a zero-size slot but a positive cover viewport, and case-back is drawn
      49 x 37 but covered as 40 x 40. */
  lemma ViewportAgainstSlot(p: Part)
    ensures p.IsFourFive() || p == CdDisc || p == CaseFront ==>
      ViewportMm(p) == PrintSpecs.Size(Slot.GeometryOf(p).viewportW, Slot.GeometryOf(p).viewportH)
    ensures !Slot.HasTableEntry(p) ==> Slot.GeometryOf(p).viewportW == 0.0 && ViewportMm(p).w > 0.0
    ensures p == CaseBack ==> Slot.GeometryOf(p).viewportW == 49.0 && ViewportMm(p).w == 40.0
  {
  }

  /** For positive a and b, the larger of a/b and b/a is at least 1, and exactly 1 only when
      a = b. */
  lemma RatioOrInverse(a: real, b: real)
    requires a > 0.0 && b > 0.0
    ensures Slot.Max(a / b, b / a) >= 1.0
    ensures Slot.Max(a / b, b / a) == 1.0 <==> a == b
  {
    assert (a / b) * b == a;
    assert (b / a) * a == b;
    if a > b {
      assert a / b > 1.0;
    } else if a < b {
      assert b / a > 1.0;
    }
  }

  /** The cover factor, `max(aC / aI, aI / aC)` for the image aspect aI and the viewport
      aspect aC: at least 1, and 1 exactly when the aspects agree. */
  function CoverFactor(iw: real, ih: real, cw: real, ch: real): (f: real)
    requires iw > 0.0 && ih > 0.0 && cw > 0.0 && ch > 0.0
    ensures f >= 1.0
    ensures f == 1.0 <==> iw / ih == cw / ch
  {
    var ai := iw / ih;
    var ac := cw / ch;
    RatioOrInverse(ac, ai);
    Slot.Max(ac / ai, ai / ac)
  }

  /** The updater of `coverCurrent`: centre and multiply the scale (`|| 1`) by the factor,
      clamped into [1, 5]. */
  function CoverSpec(p: PartSpec, f: real): (r: PartSpec)
    ensures r.tx == 0.0 && r.ty == 0.0 && 1.0 <= r.scale <= 5.0
    ensures r == p.(tx := r.tx, ty := r.ty, scale := r.scale)
    ensures 1.0 <= OrOne(p.scale) * f <= 5.0 ==> r.scale == OrOne(p.scale) * f
  {
    p.(tx := 0.0, ty := 0.0, scale := Slot.Clamp(1.0, 5.0, OrOne(p.scale) * f))
  }

  /** The natural size of the active image when it is known (both dimensions truthy). */
  predicate SizeKnown(s: PartSpec) {
    Known(s.imgWidth) && Known(s.imgHeight)
  }

  /** `coverCurrent`: nothing happens while the active image's size is unknown; otherwise
      one edit applies the cover updater with the factor of the active part's viewport. */
  function CoverCurrent(s: EditorHistory.State): (r: Option<EditorHistory.State>)
    requires EditorHistory.Consistent(s)
    requires forall p :: p in s.specs ==> s.specs[p].imgWidth.Some? ==> s.specs[p].imgWidth.value >= 0.0
    requires forall p :: p in s.specs ==> s.specs[p].imgHeight.Some? ==> s.specs[p].imgHeight.value >= 0.0
    ensures r.None? <==> !SizeKnown(s.specs[s.active])
    ensures r.Some? ==> (EditorHistory.Consistent(r.value) && r.value.active == s.active &&
      var a := s.specs[s.active]; var v := ViewportMm(a.part);
      r.value == EditorHistory.Updated(s, s.active, p => CoverSpec(p, CoverFactor(a.imgWidth.value, a.imgHeight.value, v.w, v.h))))
    ensures r.Some? ==> r.value.specs.Keys == s.specs.Keys
    ensures r.Some? ==> forall p :: p in r.value.specs ==>
      r.value.specs[p].imgWidth == s.specs[p].imgWidth && r.value.specs[p].imgHeight == s.specs[p].imgHeight
  {
    var a := s.specs[s.active];
    if !SizeKnown(a) then None
    else
      var v := ViewportMm(a.part);
      ViewportTable(a.part);
      var f := CoverFactor(a.imgWidth.value, a.imgHeight.value, v.w, v.h);
      Some(EditorHistory.Updated(s, s.active, p => CoverSpec(p, f)))
  }

  /** Covering twice is not covering once: while the clamp at 5 is not reached, a factor
      above 1 is applied again. */
  lemma CoverNotIdempotent(p: PartSpec, f: real)
    requires p.scale >= 1.0 && f > 1.0 && p.scale * f * f <= 5.0
    ensures CoverSpec(p, f).scale == p.scale * f
    ensures CoverSpec(CoverSpec(p, f), f).scale == p.scale * f * f
    ensures CoverSpec(CoverSpec(p, f), f).scale > CoverSpec(p, f).scale
  {
    var a := p.scale * f;
    Grows(a, f);
    ClampedOnce(p.scale, f, a);
    ClampedOnce(a, f, a * f);
  }

  /** One cover step below the upper clamp multiplies the scale by the factor. */
  lemma ClampedOnce(x: real, f: real, y: real)
    requires x >= 1.0 && f > 1.0 && y == x * f && y <= 5.0
    ensures Slot.Clamp(1.0, 5.0, OrOne(x) * f) == y
    ensures y > x
  {
    Grows(x, f);
    assert x * f > x;
    assert OrOne(x) * f == y;
    assert y > x;
  }

  /** A factor above 1 makes a positive quantity larger. */
  lemma Grows(x: real, f: real)
    requires x > 0.0 && f > 1.0
    ensures x * f > x
  {
    assert x * f - x == x * (f - 1.0);
    assert x * (f - 1.0) > 0.0;
  }

  /** ... and a second cover changes nothing when the factor is 1 or the first cover hit the
      upper clamp. */
  lemma CoverStableCases(p: PartSpec, f: real)
    requires f >= 1.0 && ((f == 1.0 && 1.0 <= p.scale <= 5.0) || OrOne(p.scale) * f >= 5.0)
    ensures CoverSpec(CoverSpec(p, f), f) == CoverSpec(p, f)
  {
    if f != 1.0 {
      assert CoverSpec(p, f).scale == 5.0;
      assert 5.0 * f >= 5.0;
    }
  }

  /** On the editor state, a second `coverCurrent` is available and multiplies again. */
  lemma CoverCurrentTwice(s: EditorHistory.State)
    requires EditorHistory.Consistent(s)
    requires forall p :: p in s.specs ==> s.specs[p].imgWidth.Some? ==> s.specs[p].imgWidth.value >= 0.0
    requires forall p :: p in s.specs ==> s.specs[p].imgHeight.Some? ==> s.specs[p].imgHeight.value >= 0.0
    requires CoverCurrent(s).Some?
    ensures var s1 := CoverCurrent(s).value;
      var a := s.specs[s.active]; var v := ViewportMm(a.part);
      var f := CoverFactor(a.imgWidth.value, a.imgHeight.value, v.w, v.h);
      CoverCurrent(s1).Some? &&
      CoverCurrent(s1).value.specs[s.active] == CoverSpec(CoverSpec(a, f), f)
  {
  }

  /** `resetCurrent`: one edit that puts the active part back to the identity transform. */
  function ResetCurrent(s: EditorHistory.State): (r: EditorHistory.State)
    requires EditorHistory.Consistent(s)
    ensures EditorHistory.Consistent(r) && r.specs.Keys == s.specs.Keys
    ensures var q := r.specs[s.active];
      q.tx == 0.0 && q.ty == 0.0 && q.scale == 1.0 && q.rot == 0.0 &&
      q.img == s.specs[s.active].img && q.part == s.specs[s.active].part
    ensures forall j :: j in s.specs && j != s.active ==> r.specs[j] == s.specs[j]
  {
    EditorHistory.Updated(s, s.active, EditorHistory.Cover)
  }

  /** The updater of `handlePaste`: the new image, centred, with the scale (`|| 1`) lifted
      to at least 1; rotation and the recorded natural size are kept. */
  function Pasted(p: PartSpec, url: string): (r: PartSpec)
    ensures r.img == Some(url) && r.tx == 0.0 && r.ty == 0.0
    ensures r.scale >= 1.0 && (p.scale >= 1.0 ==> r.scale == p.scale)
    ensures p.scale < 1.0 ==> r.scale == 1.0
    ensures r == p.(img := r.img, tx := r.tx, ty := r.ty, scale := r.scale)
  {
    p.(img := Some(url), tx := 0.0, ty := 0.0, scale := Slot.Max(1.0, OrOne(p.scale)))
  }

  /** `handlePaste(url)`: one edit of the active part. */
  function HandlePaste(s: EditorHistory.State, url: string): (r: EditorHistory.State)
    requires EditorHistory.Consistent(s)
    ensures EditorHistory.Consistent(r) && r.specs.Keys == s.specs.Keys
    ensures r.specs[s.active] == Pasted(s.specs[s.active], url)
    ensures forall j :: j in s.specs && j != s.active ==> r.specs[j] == s.specs[j]
  {
    EditorHistory.Updated(s, s.active, p => Pasted(p, url))
  }

  /** Pasting over an image whose size was recorded keeps the old size, and the slot's load
      handler then records nothing for the new image. */
  lemma PasteKeepsRecordedSize(p: PartSpec, url: string, w: real, h: real)
    requires SizeKnown(p)
    ensures Pasted(p, url).imgWidth == p.imgWidth && Pasted(p, url).imgHeight == p.imgHeight
    ensures Slot.RecordImageSize(Pasted(p, url), w, h) == None
  {
  }

  // ---- paste modals ----

  /** `UrlPasteModal.submit`: the typed value is trimmed and submitted only when it is an
      http(s) address; otherwise the modal shows its error and submits nothing. */
  function UrlSubmit(value: string): (r: Option<string>)
    ensures r.Some? <==> Clipboard.IsHttpUrl(Clipboard.Trim(value))
    ensures r.Some? ==>
      Clipboard.IsHttpUrl(r.value) && r.value == Clipboard.Trim(value) &&
      !Clipboard.IsSpace(r.value[0]) && !Clipboard.IsSpace(r.value[|r.value| - 1])
  {
    var v := Clipboard.Trim(value);
    if Clipboard.IsHttpUrl(v) then Some(v) else None
  }

  /** What the mobile paste modal's editable field yields: an address it pastes, a
      "nothing found" hint, or silence while the field is still empty. */
  datatype Extracted = Found(url: string) | NotFound | Quiet

  /** `MobilePasteModal.extractFromEditable`: the first image's `src` when it is http(s),
      else the field's trimmed text when that is http(s), else the "not found" hint when the
      field has any markup. `imgSrc` is "" when there is no image or it has no source. */
  function MobileExtract(imgSrc: string, text: string, html: string): (o: Extracted)
    ensures o.Found? ==> Clipboard.IsHttpUrl(o.url) && (o.url == imgSrc || o.url == Clipboard.Trim(text))
    ensures Clipboard.IsHttpUrl(imgSrc) ==> o == Found(imgSrc)
    ensures !Clipboard.IsHttpUrl(imgSrc) && Clipboard.IsHttpUrl(Clipboard.Trim(text)) ==> o == Found(Clipboard.Trim(text))
    ensures o.Found? <==> Clipboard.IsHttpUrl(imgSrc) || Clipboard.IsHttpUrl(Clipboard.Trim(text))
    ensures o.Quiet? <==> !o.Found? && Clipboard.Trim(html) == ""
  {
    if Clipboard.IsHttpUrl(imgSrc) then Found(imgSrc)
    else
      var t := Clipboard.Trim(text);
      if t != "" && Clipboard.IsHttpUrl(t) then Found(t)
      else if Clipboard.Trim(html) != "" then NotFound
      else Quiet
  }

  /** A `data:` address never passes the http(s) test. */
  lemma DataIsNotHttp(s: string)
    requires Clipboard.StartsWithCI(s, "data:")
    ensures !Clipboard.IsHttpUrl(s)
  {
    assert Clipboard.LowerAscii(s[0]) == 'd';
    assert "http://"[0] == 'h' && "https://"[0] == 'h';
  }

  /** A pasted picture whose image source is a `data:` URL is not pasted from the image;
      the modal falls back to the text, exactly as the URL-entry modal would treat it. */
  lemma MobileSkipsDataImage(imgSrc: string, text: string, html: string)
    requires Clipboard.StartsWithCI(imgSrc, "data:")
    ensures MobileExtract(imgSrc, text, html).Found? <==> UrlSubmit(text).Some?
    ensures UrlSubmit(text).Some? ==> MobileExtract(imgSrc, text, html) == Found(UrlSubmit(text).value)
  {
    DataIsNotHttp(imgSrc);
  }

  /** Neither modal ever hands a `data:` URL to the editor, unlike the clipboard's
      `readText` fallback. */
  lemma ModalsRejectData(value: string, imgSrc: string, text: string, html: string)
    ensures UrlSubmit(value).Some? ==> !Clipboard.StartsWithCI(UrlSubmit(value).value, "data:")
    ensures MobileExtract(imgSrc, text, html).Found? ==> !Clipboard.StartsWithCI(MobileExtract(imgSrc, text, html).url, "data:")
  {
    var r := UrlSubmit(value);
    if r.Some? && Clipboard.StartsWithCI(r.value, "data:") {
      DataIsNotHttp(r.value);
    }
    var o := MobileExtract(imgSrc, text, html);
    if o.Found? && Clipboard.StartsWithCI(o.url, "data:") {
      DataIsNotHttp(o.url);
    }
  }

  // ---- keyboard ----

  datatype KeyEvent = KeyEvent(key: string, ctrl: bool, meta: bool, shift: bool)

  datatype Command = NoCommand | UndoCmd | RedoCmd | NudgeCmd(dx: real, dy: real) | ZoomCmd(sign: EditorHistory.ZoomSign)

  /** The key-down handler's dispatch. With Ctrl or Meta only undo and redo exist; without,
      the arrows nudge in the inverted direction and `+`, `=`, `-` zoom. */
  function KeyCommand(e: KeyEvent): (c: Command)
    ensures (e.ctrl || e.meta) ==> c.NoCommand? || c.UndoCmd? || c.RedoCmd?
    ensures !(e.ctrl || e.meta) ==> !c.UndoCmd? && !c.RedoCmd?
    ensures c.UndoCmd? <==> (e.ctrl || e.meta) && e.key == "z" && !e.shift
    ensures c.RedoCmd? <==> (e.ctrl || e.meta) && (e.key == "y" || (e.key == "z" && e.shift))
    ensures c.NudgeCmd? ==> (c.dx == 0.0 || c.dy == 0.0) && (c.dx == 1.0 || c.dx == -1.0 || c.dy == 1.0 || c.dy == -1.0)
    ensures (!(e.ctrl || e.meta) && e.key != "ArrowUp" && e.key != "ArrowDown" && e.key != "ArrowLeft" &&
             e.key != "ArrowRight" && e.key != "+" && e.key != "=" && e.key != "-") ==> c.NoCommand?
    ensures c.ZoomCmd? ==> !(e.ctrl || e.meta) && (c.sign == EditorHistory.In <==> (e.key == "+" || e.key == "="))
  {
    if e.ctrl || e.meta then
      if e.key == "z" && !e.shift then UndoCmd
      else if e.key == "y" || (e.key == "z" && e.shift) then RedoCmd
      else NoCommand
    else if e.key == "ArrowUp" then NudgeCmd(0.0, 1.0)
    else if e.key == "ArrowDown" then NudgeCmd(0.0, -1.0)
    else if e.key == "ArrowLeft" then NudgeCmd(1.0, 0.0)
    else if e.key == "ArrowRight" then NudgeCmd(-1.0, 0.0)
    else if e.key == "+" || e.key == "=" then ZoomCmd(EditorHistory.In)
    else if e.key == "-" then ZoomCmd(EditorHistory.Out)
    else NoCommand
  }

  function Plain(key: string): KeyEvent {
    KeyEvent(key, false, false, false)
  }

  /** The arrows move the image against the arrow (screen y grows downwards), and the plus
      and equals keys are the same command. */
  lemma ArrowsInverted()
    ensures KeyCommand(Plain("ArrowUp")) == NudgeCmd(0.0, 1.0)
    ensures KeyCommand(Plain("ArrowDown")) == NudgeCmd(0.0, -1.0)
    ensures KeyCommand(Plain("ArrowLeft")) == NudgeCmd(1.0, 0.0)
    ensures KeyCommand(Plain("ArrowRight")) == NudgeCmd(-1.0, 0.0)
    ensures KeyCommand(Plain("+")) == KeyCommand(Plain("=")) == ZoomCmd(EditorHistory.In)
    ensures KeyCommand(Plain("-")) == ZoomCmd(EditorHistory.Out)
    ensures KeyCommand(Plain("z")) == NoCommand
    ensures KeyCommand(KeyEvent("z", false, true, true)) == RedoCmd
  {
  }

  /** A command applied to the editor state. */
  function Dispatch(s: EditorHistory.State, c: Command): (r: EditorHistory.State)
    requires EditorHistory.Consistent(s)
    ensures EditorHistory.Consistent(r) && r.keys == s.keys && r.active == s.active
  {
    match c
    case NoCommand => s
    case UndoCmd => EditorHistory.Undone(s)
    case RedoCmd => EditorHistory.Redone(s)
    case NudgeCmd(dx, dy) => EditorHistory.Updated(s, s.active, p => EditorHistory.Nudged(p, dx, dy))
    case ZoomCmd(z) => EditorHistory.Updated(s, s.active, p => EditorHistory.Zoomed(p, z))
  }

  /** ArrowUp then ArrowDown puts every spec back, at the cost of two history entries; undo
      after that returns the ArrowUp state. */
  lemma UpThenDownRestoresSpecs(s: EditorHistory.State)
    requires EditorHistory.Consistent(s)
    ensures var s2 := Dispatch(Dispatch(s, KeyCommand(Plain("ArrowUp"))), KeyCommand(Plain("ArrowDown")));
      s2.specs == s.specs && |s2.history| == s.index + 3
  {
    ArrowsInverted();
    var s1 := Dispatch(s, NudgeCmd(0.0, 1.0));
    var s2 := Dispatch(s1, NudgeCmd(0.0, -1.0));
    assert s1.specs[s.active] == EditorHistory.Nudged(s.specs[s.active], 0.0, 1.0);
    assert s2.specs[s.active] == EditorHistory.Nudged(s1.specs[s.active], 0.0, -1.0);
    EditorHistory.NudgeGroup(s.specs[s.active], 0.0, 1.0, 0.0, -1.0);
    assert s2.specs == s.specs;
  }

  /** The key-down handler on the editor object. */
  method HandleKeyDown(ed: EditorHistory.Editor, e: KeyEvent)
    requires ed.Valid()
    modifies ed
    ensures ed.Valid() && ed.Current() == Dispatch(old(ed.Current()), KeyCommand(e))
  {
    var c := KeyCommand(e);
    match c {
      case NoCommand =>
      case UndoCmd => ed.Undo();
      case RedoCmd => ed.Redo();
      case NudgeCmd(dx, dy) => ed.Nudge(dx, dy);
      case ZoomCmd(z) => ed.Zoom(z);
    }
  }

  // ---- groups ----

  datatype Template = FourFive | Cd3

  datatype GroupKey = FrontGroup | BackGroup | DiscGroup

  datatype Group = Group(key: GroupKey, parts: seq<Part>)

  /** The fixed group table of each template, before filtering. */
  function GroupTable(t: Template): seq<Group> {
    match t
    case Cd3 => [Group(FrontGroup, [CdFrontLeft, CdFrontRight]),
                 Group(BackGroup, [CdBackOutside, CdSpine1, CdSpine2, CdSpine3, CdBackInside]),
                 Group(DiscGroup, [CdDisc])]
    case FourFive => [Group(FrontGroup, [FourFiveFront]), Group(BackGroup, [FourFiveBack])]
  }

  /** `parts.filter(part => specs[part])`: the parts the editor holds, in table order. */
  function PresentParts(parts: seq<Part>, present: set<Part>): (r: seq<Part>)
    ensures forall x :: x in r <==> x in parts && x in present
    ensures |r| <= |parts|
  {
    if parts == [] then []
    else (if parts[0] in present then [parts[0]] else []) + PresentParts(parts[1..], present)
  }

  /** The table filtered to present parts, with empty groups dropped, keeping table order. */
  function KeepPresent(table: seq<Group>, present: set<Part>): (gs: seq<Group>)
    ensures forall g :: g in gs ==> g.parts != [] && forall x :: x in g.parts ==> x in present
    ensures |gs| <= |table|
  {
    if table == [] then []
    else
      var g := Group(table[0].key, PresentParts(table[0].parts, present));
      (if g.parts != [] then [g] else []) + KeepPresent(table[1..], present)
  }

  /** Filtering keeps the parts' order: it distributes over concatenation. */
  lemma {:induction false} PresentPartsAppend(a: seq<Part>, b: seq<Part>, present: set<Part>)
    ensures PresentParts(a + b, present) == PresentParts(a, present) + PresentParts(b, present)
    decreases |a|
  {
    if a != [] {
      assert (a + b)[0] == a[0] && (a + b)[1..] == a[1..] + b;
      PresentPartsAppend(a[1..], b, present);
    } else {
      assert a + b == b;
    }
  }

  /** Filtering a table keeps the groups' order: it distributes over concatenation, so the
      kept groups of a table are those of its first half followed by those of the rest. */
  lemma {:induction false} KeepPresentAppend(a: seq<Group>, b: seq<Group>, present: set<Part>)
    ensures KeepPresent(a + b, present) == KeepPresent(a, present) + KeepPresent(b, present)
    decreases |a|
  {
    if a != [] {
      assert (a + b)[0] == a[0] && (a + b)[1..] == a[1..] + b;
      KeepPresentAppend(a[1..], b, present);
    } else {
      assert a + b == b;
    }
  }

  /** Each kept group is a table group narrowed to its present parts, and every table group
      with a present part is kept. */
  lemma {:induction false} KeepPresentExact(table: seq<Group>, present: set<Part>)
    ensures var gs := KeepPresent(table, present);
      (forall g :: g in gs ==> exists g0 :: g0 in table && g0.key == g.key && g.parts == PresentParts(g0.parts, present)) &&
      (forall g0 :: g0 in table && PresentParts(g0.parts, present) != [] ==> Group(g0.key, PresentParts(g0.parts, present)) in gs)
  {
    if table != [] {
      var tl := table[1..];
      KeepPresentExact(tl, present);
      var g := Group(table[0].key, PresentParts(table[0].parts, present));
      var head := if g.parts != [] then [g] else [];
      var rest := KeepPresent(tl, present);
      assert KeepPresent(table, present) == head + rest;
      forall x: Group | x in head + rest
        ensures exists g0 :: g0 in table && g0.key == x.key && x.parts == PresentParts(g0.parts, present)
      {
        if x in head {
          assert x == g;
          assert table[0] in table;
        } else {
          var g0 :| g0 in tl && g0.key == x.key && x.parts == PresentParts(g0.parts, present);
          assert g0 in table;
        }
      }
      forall g0: Group | g0 in table && PresentParts(g0.parts, present) != []
        ensures Group(g0.key, PresentParts(g0.parts, present)) in head + rest
      {
        if g0 != table[0] {
          assert g0 in tl;
        }
      }
    }
  }

  /** `groups` */
  function Groups(t: Template, present: set<Part>): seq<Group> {
    KeepPresent(GroupTable(t), present)
  }

  /** `activeGroup`: the first group holding the active part, else the first group, and none
      when there are no groups. */
  function ActiveGroup(gs: seq<Group>, active: Part): (r: Option<Group>)
    ensures r.None? <==> gs == []
    ensures r.Some? ==> r.value in gs
    ensures (exists i :: 0 <= i < |gs| && active in gs[i].parts) ==> r.Some? && active in r.value.parts
    ensures gs != [] && (forall i :: 0 <= i < |gs| ==> active !in gs[i].parts) ==> r == Some(gs[0])
  {
    if gs == [] then None
    else
      var found := FindHolding(gs, active);
      if found.Some? then found else Some(gs[0])
  }

  /** `groups.find(group => group.parts.includes(active))` */
  function FindHolding(gs: seq<Group>, active: Part): (r: Option<Group>)
    ensures r.Some? ==> r.value in gs && active in r.value.parts
    ensures r.None? <==> forall i :: 0 <= i < |gs| ==> active !in gs[i].parts
  {
    if gs == [] then None
    else if active in gs[0].parts then Some(gs[0])
    else
      var r := FindHolding(gs[1..], active);
      assert forall i :: 1 <= i < |gs| ==> gs[i] == gs[1..][i - 1];
      r
  }

  /** `groups.find(g => g.key === groupKey)` */
  function FindKey(gs: seq<Group>, key: GroupKey): (r: Option<Group>)
    ensures r.Some? ==> r.value in gs && r.value.key == key
    ensures r.None? <==> forall g :: g in gs ==> g.key != key
  {
    if gs == [] then None
    else if gs[0].key == key then Some(gs[0])
    else FindKey(gs[1..], key)
  }

  /** `selectGroup(key)`: the part to make active, if any; the active part is kept when it
      is in the chosen group, otherwise the group's first part is taken. */
  function SelectGroup(gs: seq<Group>, key: GroupKey, active: Part): (next: Option<Part>)
    ensures next.Some? ==> exists g :: g in gs && g.key == key && next.value in g.parts
    ensures FindKey(gs, key).Some? && active in FindKey(gs, key).value.parts ==> next == Some(active)
    ensures (forall g :: g in gs ==> g.key != key) ==> next.None?
    ensures FindKey(gs, key).Some? && active !in FindKey(gs, key).value.parts && FindKey(gs, key).value.parts != [] ==>
      next == Some(FindKey(gs, key).value.parts[0])
    ensures FindKey(gs, key).Some? && FindKey(gs, key).value.parts == [] ==> next.None?
  {
    var g := FindKey(gs, key);
    if g.None? then None
    else if active in g.value.parts then Some(active)
    else if g.value.parts != [] then Some(g.value.parts[0])
    else None
  }

  /** Whatever group is selected, the new active part is one the editor holds. */
  lemma SelectGroupStaysPresent(t: Template, present: set<Part>, key: GroupKey, active: Part)
    ensures var next := SelectGroup(Groups(t, present), key, active);
      next.Some? ==> next.value in present
  {
  }

  // ---- preview layout ----

  const PREVIEW_GAP_MM: real := 2.0

  /** A slot drawn at an x offset (all previews sit on y = 0). */
  datatype Placed = Placed(part: Part, xMm: real, showGuides: bool)

  datatype Preview = Preview(widthMm: real, heightMm: real, slots: seq<Placed>)

  /** The back panels in strip order with their widths. */
  const BackParts: seq<Part> := [CdBackOutside, CdSpine1, CdSpine2, CdSpine3, CdBackInside]

  function BackWidths(): seq<real> {
    var b := PrintSpecs.CD.back;
    [b.outside.w, b.spine1.w, b.spine2.w, b.spine3.w, b.inside.w]
  }

  /** Where back panel i starts: the widths before it plus one gap per earlier panel. */
  function BackStart(ws: seq<real>, i: nat): real
    requires i <= |ws|
  {
    Sum(ws[..i]) + PREVIEW_GAP_MM * i as real
  }

  /** The width `reduce`: each width, plus a gap before every panel after the first. */
  function StripWidth(ws: seq<real>): (w: real)
    ensures ws != [] ==> w == Sum(ws) + PREVIEW_GAP_MM * (|ws| - 1) as real
  {
    if ws == [] then 0.0
    else
      var n := |ws| - 1;
      assert ws[..n + 1] == ws;
      StripWidth(ws[..n]) + ws[n] + (if n == 0 then 0.0 else PREVIEW_GAP_MM)
  }

  /** The last panel ends exactly at the strip width. */
  lemma LastPanelEndsAtWidth(ws: seq<real>)
    requires ws != []
    ensures BackStart(ws, |ws| - 1) + ws[|ws| - 1] == StripWidth(ws)
  {
    SumPrefix(ws, |ws| - 1);
    assert ws[..|ws|] == ws;
  }

  /** The `running` accumulator loop building the offsets of the back panels. */
  method BackOffsets(ws: seq<real>) returns (starts: seq<real>)
    ensures |starts| == |ws|
    ensures forall i :: 0 <= i < |ws| ==> starts[i] == BackStart(ws, i)
  {
    starts := [];
    var running := 0.0;
    var idx := 0;
    while idx < |ws|
      invariant 0 <= idx <= |ws| && |starts| == idx
      invariant forall i :: 0 <= i < idx ==> starts[i] == BackStart(ws, i)
      invariant running == if idx == 0 then 0.0 else BackStart(ws, idx) - PREVIEW_GAP_MM
    {
      if idx > 0 {
        running := running + PREVIEW_GAP_MM;
      }
      starts := starts + [running];
      SumPrefix(ws, idx);
      running := running + ws[idx];
      idx := idx + 1;
    }
  }

  /** Renders the given placements of the parts the editor holds and nothing for the rest;
      the others keep their places. */
  function Render(ps: seq<Placed>, present: set<Part>): (r: seq<Placed>)
    ensures forall q :: q in r <==> q in ps && q.part in present
  {
    if ps == [] then []
    else (if ps[0].part in present then [ps[0]] else []) + Render(ps[1..], present)
  }

  /** The preview of the active group: the front panels side by side with a 2 mm gap, the
      back panels in strip order, the disc or the single 4x5 part alone. */
  function PreviewOf(t: Template, g: Option<Group>, present: set<Part>): Option<Preview> {
    if g.None? then None
    else match t
      case Cd3 =>
        if g.value.key == FrontGroup then
          var l := PrintSpecs.CD.front.left;
          var r := PrintSpecs.CD.front.right;
          Some(Preview(l.w + PREVIEW_GAP_MM + r.w, l.h,
            Render([Placed(CdFrontLeft, 0.0, true), Placed(CdFrontRight, l.w + PREVIEW_GAP_MM, true)], present)))
        else if g.value.key == BackGroup then
          var ws := BackWidths();
          Some(Preview(StripWidth(ws), PrintSpecs.CD.back.outside.h,
            Render(seq(5, i requires 0 <= i < 5 => Placed(BackParts[i], BackStart(ws, i), false)), present)))
        else
          Some(Preview(PrintSpecs.CD.disc.bleedD, PrintSpecs.CD.disc.bleedD, Render([Placed(CdDisc, 0.0, true)], present)))
      case FourFive =>
        if g.value.parts == [] then None
        else Some(Preview(PrintSpecs.FOUR_FIVE.bleedW, PrintSpecs.FOUR_FIVE.bleedH,
          Render([Placed(g.value.parts[0], 0.0, true)], present)))
  }

  /** The layout facts: the front preview is 82 mm wide with the right panel at 42 mm; the
      back strip is 116 mm wide with panels at 0, 51, 58, 65, 72 mm whether or not the
      others are present; and only the back group hides the per-slot guides. */
  lemma PreviewLayout(present: set<Part>)
    ensures var p := PreviewOf(Cd3, Some(Group(FrontGroup, [])), present).value;
      p.widthMm == 82.0 && p.heightMm == 40.0 &&
      (CdFrontRight in present ==> Placed(CdFrontRight, 42.0, true) in p.slots)
    ensures var p := PreviewOf(Cd3, Some(Group(BackGroup, [])), present).value;
      p.widthMm == 116.0 && p.heightMm == 37.0 &&
      (CdSpine2 in present ==> Placed(CdSpine2, 58.0, false) in p.slots) &&
      (CdBackInside in present ==> Placed(CdBackInside, 72.0, false) in p.slots) &&
      (forall q :: q in p.slots ==> !q.showGuides && q.part in present)
  {
    var ws := BackWidths();
    assert ws[..0] == [];
    SumPrefix(ws, 0);
    SumPrefix(ws, 1);
    SumPrefix(ws, 2);
    SumPrefix(ws, 3);
    SumPrefix(ws, 4);
    assert ws[..5] == ws;
    assert BackStart(ws, 2) == 58.0;
    assert BackStart(ws, 4) == 72.0;
    var full := seq(5, i requires 0 <= i < 5 => Placed(BackParts[i], BackStart(ws, i), false));
    assert full[2] == Placed(CdSpine2, 58.0, false);
    assert full[4] == Placed(CdBackInside, 72.0, false);
  }

  // ---- QR generation retry schedule ----

  /** A QR attempt: the encoder either throws or yields a data URL. */
  datatype QrOutcome = QrThrows | QrData(url: string)

  datatype Attempt = Attempt(maxDim: int, quality: real)

  /** The three recompression steps tried after the first attempt fails. */
  const Attempts: seq<Attempt> := [Attempt(640, 0.7), Attempt(480, 0.55), Attempt(320, 0.4)]

  /** The image and canvas behaviour compression depends on: the natural size of a loaded
      data URL (`None` when loading fails), whether a 2D context exists, and the webp
      (`None` when it throws) and png encodings at a size. */
  datatype Codec = Codec(
    load: string -> Option<(nat, nat)>,
    hasContext: bool,
    webp: (string, int, int, real) -> Option<string>,
    png: (string, int, int) -> string)

  function MaxNat(a: nat, b: nat): nat { if a >= b then a else b }
  function AtLeastOne(x: int): int { if x >= 1 then x else 1 }

  /** The recompressed size: each dimension times min(1, maxDim / max(w, h)), rounded and
      at least 1. An image already within maxDim keeps its size; otherwise the larger side
      becomes at most maxDim. */
  function CompressedDims(width: nat, height: nat, maxDim: int): (d: (int, int))
    ensures d.0 >= 1 && d.1 >= 1
    ensures MaxNat(width, height) <= maxDim ==> d == (AtLeastOne(width), AtLeastOne(height))
    ensures maxDim >= 1 ==> d.0 <= maxDim && d.1 <= maxDim
  {
    var m := MaxNat(width, height);
    var scale := if m == 0 then 1.0 else Slot.Min(1.0, maxDim as real / m as real);
    ScaledWithin(width, m, maxDim, scale);
    ScaledWithin(height, m, maxDim, scale);
    (AtLeastOne(PrintSpecs.Round(width as real * scale)), AtLeastOne(PrintSpecs.Round(height as real * scale)))
  }

  lemma ScaledWithin(x: nat, m: nat, maxDim: int, scale: real)
    requires x <= m
    requires scale == if m == 0 then 1.0 else Slot.Min(1.0, maxDim as real / m as real)
    ensures m <= maxDim ==> PrintSpecs.Round(x as real * scale) == x
    ensures maxDim >= 1 ==> PrintSpecs.Round(x as real * scale) <= maxDim
  {
    if m == 0 {
      assert x as real * scale == 0.0;
      PrintSpecs.RoundOfInteger(0);
    } else {
      var q := maxDim as real / m as real;
      QuotientAtLeastOne(maxDim, m);
      if m <= maxDim {
        assert scale == 1.0 && x as real * scale == x as real;
        PrintSpecs.RoundOfInteger(x);
      } else {
        assert scale == q;
        if maxDim >= 1 {
          PrintSpecs.ScaledLe(x as real, m as real, q);
          assert x as real * scale <= maxDim as real;
          PrintSpecs.RoundMonotone(x as real * scale, maxDim as real);
          PrintSpecs.RoundOfInteger(maxDim);
        }
      }
    }
  }

  /** a / m, for a positive m, times m is a again, and it is at least 1 exactly when
      m <= a. */
  lemma QuotientAtLeastOne(a: int, m: nat)
    requires m > 0
    ensures (a as real / m as real) * m as real == a as real
    ensures a as real / m as real >= 1.0 <==> m <= a
    ensures a >= 0 ==> a as real / m as real >= 0.0
  {
    var q := a as real / m as real;
    assert q * m as real == a as real;
    assert q * m as real - m as real == (q - 1.0) * m as real;
    if q >= 1.0 {
      assert (q - 1.0) * m as real >= 0.0;
    } else {
      assert (q - 1.0) * m as real < 0.0;
    }
  }

  /** `compressDataUrl`: `None` when loading rejects. A URL that is not data: and a missing
      context return it unchanged; otherwise the webp output is kept if non-empty and
      shorter, else the png output if non-empty and shorter, else the input. */
  function CompressDataUrl(url: string, maxDim: int, quality: real, c: Codec): (r: Option<string>)
    ensures r.Some? ==> r.value == url || |r.value| < |url|
    ensures !Clipboard.StartsWithData(url) ==> r == Some(url)
    ensures r.None? <==> Clipboard.StartsWithData(url) && c.load(url).None?
  {
    if !Clipboard.StartsWithData(url) then Some(url)
    else if c.load(url).None? then None
    else if !c.hasContext then Some(url)
    else
      var (w, h) := c.load(url).value;
      var d := CompressedDims(w, h, maxDim);
      var webp := c.webp(url, d.0, d.1, quality);
      if webp.Some? && webp.value != "" && |webp.value| < |url| then webp
      else
        var png := c.png(url, d.0, d.1);
        if png != "" && |png| < |url| then Some(png) else Some(url)
  }

  /** One part after the compression pass: only a data: image is replaced, by its
      compressed form when compression resolves. */
  function CompressPart(s: PartSpec, a: Attempt, c: Codec): (r: PartSpec)
    ensures r == s.(img := r.img)
    ensures !(HasText(s.img) && Clipboard.StartsWithData(s.img.value)) ==> r == s
    ensures r.img.Some? == s.img.Some? && (r.img.Some? ==> |r.img.value| <= |s.img.value|)
  {
    if HasText(s.img) && Clipboard.StartsWithData(s.img.value) then
      var out := CompressDataUrl(s.img.value, a.maxDim, a.quality, c);
      if out.Some? then s.(img := out) else s
    else s
  }

  /** The spec map after the compression pass of one attempt. */
  function CompressedSpecs(specs: EditorHistory.Specs, a: Attempt, c: Codec): (m: EditorHistory.Specs)
    ensures m.Keys == specs.Keys
    ensures forall k :: k in specs ==> m[k] == CompressPart(specs[k], a, c)
  {
    map k | k in specs :: CompressPart(specs[k], a, c)
  }

  /** The compression loop of `tryWithCompressed`, rewriting the copied map key by key. */
  method CompressAll(keys: seq<Part>, specs: EditorHistory.Specs, a: Attempt, c: Codec)
      returns (newSpecs: EditorHistory.Specs)
    requires Distinct(keys) && specs.Keys == EditorHistory.KeySet(keys)
    ensures newSpecs == CompressedSpecs(specs, a, c)
  {
    newSpecs := specs;
    var i := 0;
    while i < |keys|
      invariant 0 <= i <= |keys| && newSpecs.Keys == specs.Keys
      invariant forall j :: 0 <= j < i ==> newSpecs[keys[j]] == CompressPart(specs[keys[j]], a, c)
      invariant forall j :: i <= j < |keys| ==> newSpecs[keys[j]] == specs[keys[j]]
    {
      var s := newSpecs[keys[i]];
      if HasText(s.img) && Clipboard.StartsWithData(s.img.value) {
        var out := CompressDataUrl(s.img.value, a.maxDim, a.quality, c);
        if out.Some? {
          newSpecs := newSpecs[keys[i] := s.(img := out)];
        }
      }
      i := i + 1;
    }
    var m := CompressedSpecs(specs, a, c);
    assert forall j :: 0 <= j < |keys| ==> newSpecs[keys[j]] == m[keys[j]];
    EditorHistory.AgreeOnKeys(keys, newSpecs, m);
  }

  /** The first non-empty QR among the outcomes, in order. */
  function FirstQr(outcomes: seq<QrOutcome>): (r: Option<string>)
    ensures r.None? <==> forall i :: 0 <= i < |outcomes| ==> !(outcomes[i].QrData? && outcomes[i].url != "")
    ensures r.Some? ==> r.value != ""
    ensures r.Some? ==> exists i :: 0 <= i < |outcomes| && outcomes[i] == QrData(r.value) &&
                                  (forall j :: 0 <= j < i ==> !(outcomes[j].QrData? && outcomes[j].url != ""))
  {
    if outcomes == [] then None
    else if outcomes[0].QrData? && outcomes[0].url != "" then Some(outcomes[0].url)
    else
      var r := FirstQr(outcomes[1..]);
      FirstQrStep(outcomes, r);
      r
  }

  /** A first outcome without a QR passes the search on to the rest. */
  lemma FirstQrStep(outcomes: seq<QrOutcome>, r: Option<string>)
    requires outcomes != [] && !(outcomes[0].QrData? && outcomes[0].url != "")
    requires var tl := outcomes[1..];
      (r.None? <==> forall i :: 0 <= i < |tl| ==> !(tl[i].QrData? && tl[i].url != "")) &&
      (r.Some? ==> r.value != "") &&
      (r.Some? ==> exists i :: 0 <= i < |tl| && tl[i] == QrData(r.value) &&
                               (forall j :: 0 <= j < i ==> !(tl[j].QrData? && tl[j].url != "")))
    ensures r.None? <==> forall i :: 0 <= i < |outcomes| ==> !(outcomes[i].QrData? && outcomes[i].url != "")
    ensures r.Some? ==> exists i :: 0 <= i < |outcomes| && outcomes[i] == QrData(r.value) &&
                                  (forall j :: 0 <= j < i ==> !(outcomes[j].QrData? && outcomes[j].url != ""))
  {
    var tl := outcomes[1..];
    assert forall i :: 1 <= i < |outcomes| ==> outcomes[i] == tl[i - 1];
    if r.Some? {
      var i :| 0 <= i < |tl| && tl[i] == QrData(r.value) &&
               (forall j :: 0 <= j < i ==> !(tl[j].QrData? && tl[j].url != ""));
      assert outcomes[i + 1] == QrData(r.value);
    }
  }

  /** What `generateQR` shows: the first attempt's QR when the encoder does not throw
      (even an empty one), otherwise the first non-empty QR among the recompression
      steps in schedule order, otherwise nothing. */
  function QrShown(specs: EditorHistory.Specs, qr: EditorHistory.Specs -> QrOutcome, c: Codec): Option<string> {
    var first := qr(specs);
    if first.QrData? then Some(first.url)
    else FirstQr(seq(|Attempts|, i requires 0 <= i < |Attempts| => qr(CompressedSpecs(specs, Attempts[i], c))))
  }

  /** `generateQR`'s control flow: the first attempt, then the attempts loop that stops at
      the first truthy QR and keeps the last assigned one when a later attempt throws. */
  method GenerateQr(keys: seq<Part>, specs: EditorHistory.Specs, qr: EditorHistory.Specs -> QrOutcome, c: Codec)
      returns (shown: Option<string>)
    requires Distinct(keys) && specs.Keys == EditorHistory.KeySet(keys)
    ensures shown == QrShown(specs, qr, c)
  {
    var first := qr(specs);
    if first.QrData? {
      return Some(first.url);
    }
    ghost var outcomes := seq(|Attempts|, i requires 0 <= i < |Attempts| => qr(CompressedSpecs(specs, Attempts[i], c)));
    var last: Option<string> := None;
    var i := 0;
    var done := false;
    while i < |Attempts| && !done
      invariant 0 <= i <= |Attempts|
      invariant done ==> last.Some? && last.value != "" && last == FirstQr(outcomes)
      invariant !done ==> forall j :: 0 <= j < i ==> !(outcomes[j].QrData? && outcomes[j].url != "")
      invariant !done ==> last.None? || last.value == ""
    {
      var newSpecs := CompressAll(keys, specs, Attempts[i], c);
      var out := qr(newSpecs);
      if out.QrData? {
        last := Some(out.url);
        if out.url != "" {
          FirstQrIsFirst(outcomes, i);
          done := true;
        }
      }
      i := i + 1;
    }
    if last.Some? && last.value != "" {
      shown := last;
    } else {
      shown := None;
    }
  }

  lemma FirstQrIsFirst(outcomes: seq<QrOutcome>, i: nat)
    requires i < |outcomes| && outcomes[i].QrData? && outcomes[i].url != ""
    requires forall j :: 0 <= j < i ==> !(outcomes[j].QrData? && outcomes[j].url != "")
    ensures FirstQr(outcomes) == Some(outcomes[i].url)
  {
    var r := FirstQr(outcomes);
    var k :| 0 <= k < |outcomes| && outcomes[k] == QrData(r.value) &&
             (forall j :: 0 <= j < k ==> !(outcomes[j].QrData? && outcomes[j].url != ""));
    assert k == i;
  }

  /** The schedule fails only when the first attempt throws and no step yields a QR; when
      the first attempt succeeds no compression runs. */
  lemma QrScheduleFacts(specs: EditorHistory.Specs, qr: EditorHistory.Specs -> QrOutcome, c: Codec)
    ensures qr(specs).QrData? ==> QrShown(specs, qr, c) == Some(qr(specs).url)
    ensures QrShown(specs, qr, c).None? <==> (qr(specs).QrThrows? &&
      forall i :: 0 <= i < |Attempts| ==> var o := qr(CompressedSpecs(specs, Attempts[i], c)); !(o.QrData? && o.url != ""))
  {
    var outcomes := seq(|Attempts|, i requires 0 <= i < |Attempts| => qr(CompressedSpecs(specs, Attempts[i], c)));
    assert forall i :: 0 <= i < |Attempts| ==> outcomes[i] == qr(CompressedSpecs(specs, Attempts[i], c));
  }
}
