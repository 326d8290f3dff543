/** The records shared by the editor, the print pipeline and the staff pages. */
module Types {

  datatype Option<+T> = None | Some(value: T)

  /** No element occurs twice. */
  predicate Distinct<T(==)>(s: seq<T>) {
    forall i, j :: 0 <= i < j < |s| ==> s[i] != s[j]
  }

  lemma DistinctTail<T>(s: seq<T>)
    requires s != []
    ensures Distinct(s) ==> s[0] !in s[1..] && Distinct(s[1..])
  {
    if Distinct(s) {
      forall k | 0 <= k < |s[1..]| ensures s[1..][k] != s[0] { assert s[1..][k] == s[k + 1]; }
    }
  }

  lemma DistinctCons<T>(a: T, r: seq<T>)
    ensures a !in r && Distinct(r) ==> Distinct([a] + r)
  {
    if a !in r && Distinct(r) {
      forall i, j | 0 <= i < j < |[a] + r| ensures ([a] + r)[i] != ([a] + r)[j] {
        if i > 0 { assert ([a] + r)[i] == r[i - 1]; }
        assert ([a] + r)[j] == r[j - 1];
      }
    }
  }

  /** The sum of a list of lengths, added from the front as a left fold does. */
  function Sum(s: seq<real>): real {
    if s == [] then 0.0 else Sum(s[..|s| - 1]) + s[|s| - 1]
  }

  /** One more element adds its length. */
  lemma SumPrefix(s: seq<real>, i: nat)
    requires i < |s|
    ensures Sum(s[..i + 1]) == Sum(s[..i]) + s[i]
  {
    assert s[..i + 1][..i] == s[..i];
  }

  /** The printable panel kinds, one per `part` tag of a PartSpec. Every key of an
      editor's spec map is the name of its part, so the maps below are keyed by Part. */
  datatype Part =
    | CdDisc          // 'cd-disc'
    | CaseFront       // 'case-front'
    | CaseBack        // 'case-back'
    | CdFrontLeft     // 'cd-front-left'
    | CdFrontRight    // 'cd-front-right'
    | CdBackOutside   // 'cd-back-outside'
    | CdSpine1        // 'cd-spine-1'
    | CdSpine2        // 'cd-spine-2'
    | CdSpine3        // 'cd-spine-3'
    | CdBackInside    // 'cd-back-inside'
    | FourFiveFront   // '4x5-front'
    | FourFiveBack    // '4x5-back'
  {
    predicate IsFourFive() { this == FourFiveFront || this == FourFiveBack }
    predicate IsSpine() { this == CdSpine1 || this == CdSpine2 || this == CdSpine3 }
  }

  /** One panel's image placement: optional image reference and natural size, optional
      background colour, and the transform in millimetres / degrees. */
  datatype PartSpec = PartSpec(
    part: Part,
    img: Option<string>,
    imgWidth: Option<real>,
    imgHeight: Option<real>,
    bgColor: Option<string>,
    tx: real,
    ty: real,
    scale: real,
    rot: real)

  /** The spec every page falls back to: no image, tx = ty = 0, scale 1, rot 0. */
  function Identity(p: Part): (s: PartSpec)
    ensures s.part == p && s.img == None && s.imgWidth == None && s.imgHeight == None
    ensures s.tx == 0.0 && s.ty == 0.0 && s.scale == 1.0 && s.rot == 0.0
  {
    PartSpec(p, None, None, None, None, 0.0, 0.0, 1.0, 0.0)
  }

  /** JavaScript truthiness of an optional string: absent and '' are both false. */
  predicate HasText(o: Option<string>) {
    o.Some? && o.value != ""
  }

  /** JavaScript truthiness of an optional number: absent and 0 are both false. */
  predicate Known(o: Option<real>) {
    o.Some? && o.value != 0.0
  }

  /** `x || 1` on a number: 0 falls back to 1. */
  function OrOne(x: real): (r: real)
    ensures r != 0.0
    ensures x != 0.0 ==> r == x
  {
    if x == 0.0 then 1.0 else x
  }

  datatype FrontPanels = FrontPanels(left: PartSpec, right: PartSpec)

  datatype BackPanels = BackPanels(
    outside: PartSpec, spine1: PartSpec, spine2: PartSpec, spine3: PartSpec, inside: PartSpec)

  /** A decoded payload. Decoded payloads are JSON objects whose fields may or may not be
      present, so every named field is optional; `tpl` decides how a page reads it. */
  datatype Payload = Payload(
    v: int,
    tpl: string,
    front: Option<PartSpec>,
    back: Option<PartSpec>,
    disc: Option<PartSpec>,
    frontPanels: Option<FrontPanels>,
    backPanels: Option<BackPanels>)

  const Version: int := 1

  /** `payload.front?.img` */
  function FrontImg(p: Payload): Option<string> {
    if p.front.Some? then p.front.value.img else None
  }

  /** The declared shape Payload4x5 = { v: 1, tpl: '4x5', front, back }. */
  predicate IsPayload4x5(p: Payload) {
    p.v == Version && p.tpl == "4x5" && p.front.Some? && p.back.Some?
  }

  /** The declared shape PayloadCd = { v: 1, tpl: 'cd', disc, front, back, frontPanels?, backPanels? }. */
  predicate IsPayloadCd(p: Payload) {
    p.v == Version && p.tpl == "cd" && p.disc.Some? && p.front.Some? && p.back.Some?
  }

  // ---- the circle-duplex print configuration ----

  datatype Fit = Cover | Contain

  datatype Defaults = Defaults(fit: Option<Fit>, safeMm: real, bleedMm: real, paperThicknessMm: real)

  datatype ImageCfg = ImageCfg(src: string, fit: Option<Fit>, flipXOnBack: Option<bool>)

  datatype Perforation = Perforation(halfArmMm: real, armWidthMm: real, dashMm: real, gapMm: real)

  datatype PartCfg = PartCfg(
    outerDiameterMm: real,
    front: ImageCfg,
    back: ImageCfg,
    perforation: Perforation,
    safeMm: Option<real>,
    bleedMm: Option<real>)

  datatype Page = Page(wMm: real, hMm: real, marginMm: real)

  datatype Grid = Grid(cols: nat, rows: nat, spacingMm: real)

  datatype PrintCfg = PrintCfg(
    page: Page, grid: Grid, registrationMarks: bool, showCutLines: bool, showSafeBleed: bool)

  datatype Config = Config(scale: real, defaults: Defaults, part: PartCfg, printing: PrintCfg)
}
