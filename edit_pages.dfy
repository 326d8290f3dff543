/** The participant editor pages. Each one fixes a key set, hands the editor identity specs
    for those keys, and builds the QR payload from the edited specs. */
module EditPages {
  import opened Types
  import EditorHistory
  import ImageEditor
  import ScanPages
  import Slot

  datatype Page = Edit4x5 | EditCd3 | EditCdFront | EditCdBack | EditCdDisc

  /** The keys of each page's initial record, in declaration order. */
  function Keys(page: Page): (ks: seq<Part>)
    ensures |ks| > 0
  {
    match page
    case Edit4x5 => [FourFiveFront, FourFiveBack]
    case EditCd3 => [CdDisc, CaseFront, CaseBack]
    case EditCdFront => [CdFrontLeft, CdFrontRight]
    case EditCdBack => [CdBackOutside, CdSpine1, CdSpine2, CdSpine3, CdBackInside]
    case EditCdDisc => [CdDisc]
  }

  /** No page names a part twice. */
  lemma KeysDistinct(page: Page)
    ensures Distinct(Keys(page))
  {
  }

  /** Only the 4x5 page uses the 4x5 group table; every CD page passes the cd3 template. */
  function TemplateOf(page: Page): ImageEditor.Template {
    if page == Edit4x5 then ImageEditor.FourFive else ImageEditor.Cd3
  }

  /** Every key maps to the identity spec of its own part. */
  function InitialSpecs(page: Page): (m: EditorHistory.Specs)
    ensures m.Keys == EditorHistory.KeySet(Keys(page))
    ensures forall k :: k in m ==> m[k] == Identity(k) && m[k].part == k && m[k].img == None
  {
    map k | k in EditorHistory.KeySet(Keys(page)) :: Identity(k)
  }

  /** The editor the page opens: the first key is active and nothing can be undone. */
  function Opened(page: Page): (s: EditorHistory.State)
    ensures EditorHistory.Consistent(s) && s.active == Keys(page)[0] && s.index == 0 && |s.history| == 1
  {
    KeysDistinct(page);
    EditorHistory.Initial(Keys(page), InitialSpecs(page))
  }

  function Lookup(specs: EditorHistory.Specs, k: Part): Option<PartSpec> {
    if k in specs then Some(specs[k]) else None
  }

  /** Each page's `qrPayload`, reading the keys it names and copying the specs unchanged. */
  function QrPayload(page: Page, specs: EditorHistory.Specs): (p: Payload)
    requires EditorHistory.KeySet(Keys(page)) <= specs.Keys
    ensures p.v == Version
    ensures page == Edit4x5 ==>
      (p.tpl == "4x5" && p.front == Some(specs[FourFiveFront]) && p.back == Some(specs[FourFiveBack]) &&
       p.disc == None && p.frontPanels == None && p.backPanels == None)
    ensures page == EditCd3 ==>
      (p.tpl == "cd3" && p.disc == Some(specs[CdDisc]) &&
       p.front == Some(specs[CaseFront]) && p.back == Some(specs[CaseBack]) &&
       p.frontPanels == None && p.backPanels == None)
    ensures page == EditCdFront ==>
      (p.tpl == "cd-front" && p.front == None && p.back == None && p.disc == None &&
       p.frontPanels == Some(FrontPanels(specs[CdFrontLeft], specs[CdFrontRight])) && p.backPanels == None)
    ensures page == EditCdBack ==>
      (p.tpl == "cd-back" && p.front == None && p.back == None && p.disc == None && p.frontPanels == None &&
       p.backPanels == Some(BackPanels(specs[CdBackOutside], specs[CdSpine1], specs[CdSpine2], specs[CdSpine3], specs[CdBackInside])))
    ensures page == EditCdDisc ==>
      (p.tpl == "cd-disc" && p.disc == Some(specs[CdDisc]) && p.front == None && p.back == None &&
       p.frontPanels == None && p.backPanels == None)
  {
    match page
    case Edit4x5 => Payload(Version, "4x5", Lookup(specs, FourFiveFront), Lookup(specs, FourFiveBack), None, None, None)
    case EditCd3 => Payload(Version, "cd3", Lookup(specs, CaseFront), Lookup(specs, CaseBack), Lookup(specs, CdDisc), None, None)
    case EditCdFront =>
      Payload(Version, "cd-front", None, None, None, Some(FrontPanels(specs[CdFrontLeft], specs[CdFrontRight])), None)
    case EditCdBack =>
      Payload(Version, "cd-back", None, None, None, None,
        Some(BackPanels(specs[CdBackOutside], specs[CdSpine1], specs[CdSpine2], specs[CdSpine3], specs[CdBackInside])))
    case EditCdDisc => Payload(Version, "cd-disc", None, None, Lookup(specs, CdDisc), None, None)
  }

  /** Only the 4x5 page's payload is of a kind the staff pages accept: it is a well-formed
      4x5 payload that Scan2 and ScanLoad append and Scan4 appends to a list
      without its front image. The cd3, cd-front, cd-back and cd-disc payloads are dropped
      by ScanLoad, whose only CD kind is 'cd'. */
  lemma StaffAcceptance(page: Page, specs: EditorHistory.Specs, prev: seq<Payload>)
    requires EditorHistory.KeySet(Keys(page)) <= specs.Keys
    ensures var p := QrPayload(page, specs);
      var scan := ScanPages.Decoded(Some(p));
      (page == Edit4x5 ==>
        IsPayload4x5(p) &&
        ScanPages.AcceptLoad(prev, scan) == prev + [p] && ScanPages.Accept2(prev, scan) == prev + [p] &&
        (|prev| < 4 && (forall q :: q in prev ==> FrontImg(q) != FrontImg(p)) ==> ScanPages.Accept4(prev, Some(p)) == prev + [p])) &&
      (page != Edit4x5 ==>
        ScanPages.AcceptLoad(prev, scan) == prev && ScanPages.Accept2(prev, scan) == prev &&
        ScanPages.Accept4(prev, Some(p)) == prev && !IsPayloadCd(p))
  {
    var p := QrPayload(page, specs);
    if page != Edit4x5 {
      assert p.tpl != "4x5" && p.tpl != "cd" by {
        assert p.tpl[0] == 'c' && |p.tpl| > 2;
      }
    }
  }

  /** A group none of whose parts the editor holds filters to nothing. */
  lemma {:induction false} NonePresent(parts: seq<Part>, present: set<Part>)
    requires forall x :: x in parts ==> x !in present
    ensures ImageEditor.PresentParts(parts, present) == []
  {
    if parts != [] { NonePresent(parts[1..], present); }
  }

  /** A group all of whose parts the editor holds is kept whole. */
  lemma {:induction false} AllPresent(parts: seq<Part>, present: set<Part>)
    requires forall x :: x in parts ==> x in present
    ensures ImageEditor.PresentParts(parts, present) == parts
  {
    if parts != [] { AllPresent(parts[1..], present); }
  }

  /** One table group after filtering: its present parts, or nothing when none is held. */
  function Kept(g: ImageEditor.Group, present: set<Part>): seq<ImageEditor.Group> {
    var ps := ImageEditor.PresentParts(g.parts, present);
    if ps != [] then [ImageEditor.Group(g.key, ps)] else []
  }

  /** Filtering a table handles its head group on its own. */
  lemma KeepHead(g: ImageEditor.Group, rest: seq<ImageEditor.Group>, present: set<Part>)
    ensures ImageEditor.KeepPresent([g] + rest, present) == Kept(g, present) + ImageEditor.KeepPresent(rest, present)
  {
    assert ([g] + rest)[1..] == rest;
  }

  /** Filtering a table of three groups filters each in turn. */
  lemma KeepThree(a: ImageEditor.Group, b: ImageEditor.Group, c: ImageEditor.Group, present: set<Part>)
    ensures ImageEditor.KeepPresent([a, b, c], present) == Kept(a, present) + Kept(b, present) + Kept(c, present)
  {
    KeepHead(a, [b, c], present);
    assert [a, b, c] == [a] + [b, c];
    KeepTwo(b, c, present);
    var ka, kb, kc := Kept(a, present), Kept(b, present), Kept(c, present);
    assert ka + (kb + kc) == ka + kb + kc;
  }

  /** Filtering a table of two groups filters each in turn. */
  lemma KeepTwo(a: ImageEditor.Group, b: ImageEditor.Group, present: set<Part>)
    ensures ImageEditor.KeepPresent([a, b], present) == Kept(a, present) + Kept(b, present)
  {
    KeepHead(b, [], present);
    KeepHead(a, [b], present);
    assert [a, b] == [a] + [b];
    assert [b] == [b] + [];
  }

  /** The parts each page's editor holds. */
  lemma HeldParts(page: Page)
    ensures page == Edit4x5 ==> InitialSpecs(page).Keys == {FourFiveFront, FourFiveBack}
    ensures page == EditCd3 ==> InitialSpecs(page).Keys == {CdDisc, CaseFront, CaseBack}
    ensures page == EditCdFront ==> InitialSpecs(page).Keys == {CdFrontLeft, CdFrontRight}
    ensures page == EditCdBack ==> InitialSpecs(page).Keys == {CdBackOutside, CdSpine1, CdSpine2, CdSpine3, CdBackInside}
    ensures page == EditCdDisc ==> InitialSpecs(page).Keys == {CdDisc}
  {
    var ks := Keys(page);
    assert InitialSpecs(page).Keys == EditorHistory.KeySet(ks);
    assert forall k :: k in EditorHistory.KeySet(ks) <==> k in ks;
  }

  /** The 4x5 page has a front group and a back group, one part each. */
  lemma Edit4x5Groups()
    ensures ImageEditor.Groups(TemplateOf(Edit4x5), InitialSpecs(Edit4x5).Keys) ==
      [ImageEditor.Group(ImageEditor.FrontGroup, [FourFiveFront]), ImageEditor.Group(ImageEditor.BackGroup, [FourFiveBack])]
  {
    var present := InitialSpecs(Edit4x5).Keys;
    assert Keys(Edit4x5) == [FourFiveFront, FourFiveBack];
    InitialKeys(Edit4x5, FourFiveFront);
    InitialKeys(Edit4x5, FourFiveBack);
    FourFiveHeld(present);
  }

  lemma FourFiveHeld(present: set<Part>)
    requires FourFiveFront in present && FourFiveBack in present
    ensures ImageEditor.Groups(ImageEditor.FourFive, present) ==
      [ImageEditor.Group(ImageEditor.FrontGroup, [FourFiveFront]), ImageEditor.Group(ImageEditor.BackGroup, [FourFiveBack])]
  {
    AllPresent([FourFiveFront], present);
    AllPresent([FourFiveBack], present);
    var t := ImageEditor.GroupTable(ImageEditor.FourFive);
    KeepTwo(t[0], t[1], present);
  }

  /** The cd3 table filtered: the front, back and disc groups survive exactly when some of
      their parts are held, in that order. */
  lemma Cd3Table(present: set<Part>, front: seq<Part>, back: seq<Part>, disc: seq<Part>)
    requires front == ImageEditor.PresentParts([CdFrontLeft, CdFrontRight], present)
    requires back == ImageEditor.PresentParts([CdBackOutside, CdSpine1, CdSpine2, CdSpine3, CdBackInside], present)
    requires disc == ImageEditor.PresentParts([CdDisc], present)
    ensures ImageEditor.Groups(ImageEditor.Cd3, present) ==
      (if front != [] then [ImageEditor.Group(ImageEditor.FrontGroup, front)] else []) +
      (if back != [] then [ImageEditor.Group(ImageEditor.BackGroup, back)] else []) +
      (if disc != [] then [ImageEditor.Group(ImageEditor.DiscGroup, disc)] else [])
  {
    var t := ImageEditor.GroupTable(ImageEditor.Cd3);
    KeepThree(t[0], t[1], t[2], present);
  }

  /** Under the cd3 table the three-part CD page has only the disc group, so case-front
      and case-back can never be selected. */
  lemma EditCd3Groups()
    ensures ImageEditor.Groups(TemplateOf(EditCd3), InitialSpecs(EditCd3).Keys) ==
      [ImageEditor.Group(ImageEditor.DiscGroup, [CdDisc])]
  {
    HeldParts(EditCd3);
    Cd3Held(InitialSpecs(EditCd3).Keys);
  }

  lemma Cd3Held(present: set<Part>)
    requires present == {CdDisc, CaseFront, CaseBack}
    ensures ImageEditor.Groups(ImageEditor.Cd3, present) == [ImageEditor.Group(ImageEditor.DiscGroup, [CdDisc])]
  {
    NonePresent([CdFrontLeft, CdFrontRight], present);
    NonePresent([CdBackOutside, CdSpine1, CdSpine2, CdSpine3, CdBackInside], present);
    AllPresent([CdDisc], present);
    Cd3Table(present, [], [], [CdDisc]);
  }

  /** The front-panel page has exactly the front group. */
  lemma EditCdFrontGroups()
    ensures ImageEditor.Groups(TemplateOf(EditCdFront), InitialSpecs(EditCdFront).Keys) ==
      [ImageEditor.Group(ImageEditor.FrontGroup, [CdFrontLeft, CdFrontRight])]
  {
    HeldParts(EditCdFront);
    FrontHeld(InitialSpecs(EditCdFront).Keys);
  }

  lemma FrontHeld(present: set<Part>)
    requires present == {CdFrontLeft, CdFrontRight}
    ensures ImageEditor.Groups(ImageEditor.Cd3, present) == [ImageEditor.Group(ImageEditor.FrontGroup, [CdFrontLeft, CdFrontRight])]
  {
    AllPresent([CdFrontLeft, CdFrontRight], present);
    NonePresent([CdBackOutside, CdSpine1, CdSpine2, CdSpine3, CdBackInside], present);
    NonePresent([CdDisc], present);
    Cd3Table(present, [CdFrontLeft, CdFrontRight], [], []);
  }

  /** The back-panel page has exactly the back group, in strip order. */
  lemma EditCdBackGroups()
    ensures ImageEditor.Groups(TemplateOf(EditCdBack), InitialSpecs(EditCdBack).Keys) ==
      [ImageEditor.Group(ImageEditor.BackGroup, [CdBackOutside, CdSpine1, CdSpine2, CdSpine3, CdBackInside])]
  {
    BackKeysHeld();
    BackHeld(InitialSpecs(EditCdBack).Keys);
  }

  lemma BackKeysHeld()
    ensures var present := InitialSpecs(EditCdBack).Keys;
      CdFrontLeft !in present && CdFrontRight !in present && CdDisc !in present &&
      CdBackOutside in present && CdSpine1 in present && CdSpine2 in present && CdSpine3 in present && CdBackInside in present
  {
    var present := InitialSpecs(EditCdBack).Keys;
    var ks := [CdBackOutside, CdSpine1, CdSpine2, CdSpine3, CdBackInside];
    assert Keys(EditCdBack) == ks;
    assert present == EditorHistory.KeySet(ks);
    assert ks[0] == CdBackOutside && ks[1] == CdSpine1 && ks[2] == CdSpine2 && ks[3] == CdSpine3 && ks[4] == CdBackInside;
  }

  /** A part is held by a page's editor exactly when it is one of the page's keys. */
  lemma InitialKeys(page: Page, k: Part)
    ensures k in InitialSpecs(page).Keys <==> k in Keys(page)
  {
    assert InitialSpecs(page).Keys == EditorHistory.KeySet(Keys(page));
  }

  lemma BackHeld(present: set<Part>)
    requires CdFrontLeft !in present && CdFrontRight !in present && CdDisc !in present
    requires CdBackOutside in present && CdSpine1 in present && CdSpine2 in present && CdSpine3 in present && CdBackInside in present
    ensures ImageEditor.Groups(ImageEditor.Cd3, present) ==
      [ImageEditor.Group(ImageEditor.BackGroup, [CdBackOutside, CdSpine1, CdSpine2, CdSpine3, CdBackInside])]
  {
    NonePresent([CdFrontLeft, CdFrontRight], present);
    AllPresent([CdBackOutside, CdSpine1, CdSpine2, CdSpine3, CdBackInside], present);
    NonePresent([CdDisc], present);
    BackOnly(present);
  }

  /** The cd3 table when only the back group has present parts, all five of them. */
  lemma BackOnly(present: set<Part>)
    requires ImageEditor.PresentParts([CdFrontLeft, CdFrontRight], present) == []
    requires ImageEditor.PresentParts([CdBackOutside, CdSpine1, CdSpine2, CdSpine3, CdBackInside], present) ==
      [CdBackOutside, CdSpine1, CdSpine2, CdSpine3, CdBackInside]
    requires ImageEditor.PresentParts([CdDisc], present) == []
    ensures ImageEditor.Groups(ImageEditor.Cd3, present) ==
      [ImageEditor.Group(ImageEditor.BackGroup, [CdBackOutside, CdSpine1, CdSpine2, CdSpine3, CdBackInside])]
  {
    Cd3Table(present, [], [CdBackOutside, CdSpine1, CdSpine2, CdSpine3, CdBackInside], []);
  }

  /** The disc page has only the disc group. */
  lemma EditCdDiscGroups()
    ensures ImageEditor.Groups(TemplateOf(EditCdDisc), InitialSpecs(EditCdDisc).Keys) ==
      [ImageEditor.Group(ImageEditor.DiscGroup, [CdDisc])]
  {
    HeldParts(EditCdDisc);
    DiscHeld(InitialSpecs(EditCdDisc).Keys);
  }

  lemma DiscHeld(present: set<Part>)
    requires present == {CdDisc}
    ensures ImageEditor.Groups(ImageEditor.Cd3, present) == [ImageEditor.Group(ImageEditor.DiscGroup, [CdDisc])]
  {
    NonePresent([CdFrontLeft, CdFrontRight], present);
    NonePresent([CdBackOutside, CdSpine1, CdSpine2, CdSpine3, CdBackInside], present);
    AllPresent([CdDisc], present);
    Cd3Table(present, [], [], [CdDisc]);
  }

  /** With the disc group alone, the disc is active and selecting any group keeps it. */
  lemma DiscAlone(gs: seq<ImageEditor.Group>, key: ImageEditor.GroupKey)
    requires gs == [ImageEditor.Group(ImageEditor.DiscGroup, [CdDisc])]
    ensures ImageEditor.ActiveGroup(gs, CdDisc) == Some(gs[0])
    ensures ImageEditor.SelectGroup(gs, key, CdDisc) == (if key == ImageEditor.DiscGroup then Some(CdDisc) else None)
  {
    assert CdDisc in gs[0].parts;
  }

  /** On the three-part CD page the disc is active and selecting the disc group keeps it
      there, while the front and back groups select nothing. */
  lemma Cd3CasesUnreachable(key: ImageEditor.GroupKey)
    ensures var gs := ImageEditor.Groups(TemplateOf(EditCd3), InitialSpecs(EditCd3).Keys);
      Opened(EditCd3).active == CdDisc &&
      ImageEditor.ActiveGroup(gs, CdDisc) == Some(ImageEditor.Group(ImageEditor.DiscGroup, [CdDisc])) &&
      ImageEditor.SelectGroup(gs, key, CdDisc) == (if key == ImageEditor.DiscGroup then Some(CdDisc) else None)
  {
    EditCd3Groups();
    DiscAlone(ImageEditor.Groups(TemplateOf(EditCd3), InitialSpecs(EditCd3).Keys), key);
  }

  /** The back page opens on the outside panel and the disc page on the disc. */
  lemma PanelPagesOpen()
    ensures Opened(EditCdBack).active == CdBackOutside
    ensures Opened(EditCdDisc).active == CdDisc
  {
    assert Keys(EditCdBack)[0] == CdBackOutside;
    assert Keys(EditCdDisc)[0] == CdDisc;
  }

  /** The disc group is the disc page's active group. */
  lemma DiscPageActive()
    ensures ImageEditor.ActiveGroup(ImageEditor.Groups(TemplateOf(EditCdDisc), InitialSpecs(EditCdDisc).Keys), CdDisc) ==
      Some(ImageEditor.Group(ImageEditor.DiscGroup, [CdDisc]))
  {
    EditCdDiscGroups();
    DiscAlone(ImageEditor.Groups(TemplateOf(EditCdDisc), InitialSpecs(EditCdDisc).Keys), ImageEditor.DiscGroup);
  }

  /** The front page's panels are placed side by side, but the slot draws them with zero size
      although the cover table gives them 40 x 40. */
  lemma FrontPanelsUnsized()
    ensures forall k :: k in Keys(EditCdFront) ==>
      Slot.GeometryOf(k).viewportW == 0.0 && ImageEditor.ViewportMm(k).w == 40.0 && ImageEditor.ViewportMm(k).h == 40.0
  {
  }
}
