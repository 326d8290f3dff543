/** The staff CD sheet: the stored CD payload's disc, case front and case back placed at
    fixed positions down the left edge of the A6 sheet, as read-only slots. */
module StaffCd {
  import opened Types
  import PrintSpecs
  import Slot

  datatype Placement = Placement(part: Part, xMm: real, yMm: real, spec: PartSpec)

  /** `cd?.x || { part, tx: 0, ty: 0, scale: 1, rot: 0 }` */
  function SpecOr(o: Option<PartSpec>, p: Part): (s: PartSpec)
    ensures o.Some? ==> s == o.value
    ensures o.None? ==> s == Identity(p)
  {
    if o.Some? then o.value else Identity(p)
  }

  function Field(cd: Option<Payload>, p: Part): Option<PartSpec> {
    if cd.None? then None
    else if p == CdDisc then cd.value.disc
    else if p == CaseFront then cd.value.front
    else cd.value.back
  }

  /** The three slots, top to bottom. */
  function Placements(cd: Option<Payload>): seq<Placement> {
    [Placement(CdDisc, 2.0, 2.0, SpecOr(Field(cd, CdDisc), CdDisc)),
     Placement(CaseFront, 2.0, 48.0, SpecOr(Field(cd, CaseFront), CaseFront)),
     Placement(CaseBack, 2.0, 94.0, SpecOr(Field(cd, CaseBack), CaseBack))]
  }

  /** Each slot shows the stored payload's spec for its part, or that part's identity spec
      when nothing is stored or the field is absent. */
  lemma PlacementSpecs(cd: Option<Payload>)
    ensures var ps := Placements(cd);
      |ps| == 3 && ps[0].part == CdDisc && ps[1].part == CaseFront && ps[2].part == CaseBack &&
      (cd.None? ==> forall i :: 0 <= i < 3 ==> ps[i].spec == Identity(ps[i].part)) &&
      (cd.Some? && cd.value.disc.Some? ==> ps[0].spec == cd.value.disc.value) &&
      (cd.Some? && cd.value.front.Some? ==> ps[1].spec == cd.value.front.value) &&
      (cd.Some? && cd.value.back.Some? ==> ps[2].spec == cd.value.back.value)
  {
  }

  /** With the slots' top-left-anchored bleed boxes (44, 44 and 41 mm high), the three boxes
      stack with 2 mm gaps, the last ends at 135 mm, and all lie on the 100 x 148 mm sheet. */
  lemma PlacementsStack(cd: Option<Payload>)
    ensures var ps := Placements(cd);
      (forall i :: 0 <= i < 2 ==> ps[i].yMm + Slot.GeometryOf(ps[i].part).bleedH + 2.0 == ps[i + 1].yMm) &&
      ps[2].yMm + Slot.GeometryOf(ps[2].part).bleedH == 135.0 &&
      (forall i :: 0 <= i < 3 ==>
        Slot.BleedOrigin(Slot.TopLeft, Slot.GeometryOf(ps[i].part), 0.0, 0.0) == Slot.Point(0.0, 0.0) &&
        ps[i].xMm + Slot.GeometryOf(ps[i].part).bleedW <= PrintSpecs.SHEET.widthMm &&
        ps[i].yMm + Slot.GeometryOf(ps[i].part).bleedH <= PrintSpecs.SHEET.heightMm)
  {
  }
}
