/** The staff scanning pages: each keeps a list of decoded payloads that grows as QR codes
    are read, and its finish action hands a prefix of that list to the staff store. The QR
    decoder and the camera are abstract: a scan yields a decoded payload, nothing, or an error. */
module ScanPages {
  import opened Types
  import Slot

  /** The session store the staff pages share (sessionStorage is not modelled). */
  class Store {
    var fourUp: Option<seq<Payload>>
    var cd: Option<Payload>

    constructor ()
      ensures fourUp == None && cd == None
    {
      fourUp := None;
      cd := None;
    }
  }

  /** The outcome of one camera read. */
  datatype Scan = NoCamera | CameraError | Decoded(payload: Option<Payload>)

  // ---- Scan4: continuous scanning, cap 4, one payload per front image ----

  predicate Is4x5(p: Payload) { p.tpl == "4x5" }

  /** No two collected payloads have the same `front?.img`; two without one count as equal. */
  predicate FrontsDistinct(ps: seq<Payload>) {
    forall i, j :: 0 <= i < j < |ps| ==> FrontImg(ps[i]) != FrontImg(ps[j])
  }

  /** What the Scan4 list always satisfies. */
  predicate Collected4(ps: seq<Payload>) {
    |ps| <= 4 && (forall p :: p in ps ==> Is4x5(p)) && FrontsDistinct(ps)
  }

  /** The decode callback's update: a 4x5 payload is appended when fewer than four are held
      and none of them has the same front image; anything else leaves the list alone. */
  function Accept4(prev: seq<Payload>, d: Option<Payload>): (r: seq<Payload>)
    ensures (d.Some? && Is4x5(d.value) && |prev| < 4 && forall p :: p in prev ==> FrontImg(p) != FrontImg(d.value))
      ==> r == prev + [d.value]
    ensures !(d.Some? && Is4x5(d.value) && |prev| < 4 && forall p :: p in prev ==> FrontImg(p) != FrontImg(d.value))
      ==> r == prev
  {
    if d.Some? && Is4x5(d.value) && |prev| < 4 && (forall p :: p in prev ==> FrontImg(p) != FrontImg(d.value))
    then prev + [d.value] else prev
  }

  /** Accepting keeps the list within four distinct-front 4x5 payloads. */
  lemma Accept4Preserves(prev: seq<Payload>, d: Option<Payload>)
    requires Collected4(prev)
    ensures Collected4(Accept4(prev, d))
  {
    var r := Accept4(prev, d);
    if r != prev {
      forall i, j | 0 <= i < j < |r| ensures FrontImg(r[i]) != FrontImg(r[j]) {
        if j == |prev| { assert r[i] in prev; }
      }
    }
  }

  /** The list after a run of decoded codes, starting from the empty list. */
  function Collect4(events: seq<Option<Payload>>): seq<Payload> {
    if events == [] then [] else Accept4(Collect4(events[..|events| - 1]), events[|events| - 1])
  }

  lemma {:induction false} Collect4Valid(events: seq<Option<Payload>>)
    ensures Collected4(Collect4(events))
  {
    if events != [] {
      Collect4Valid(events[..|events| - 1]);
      Accept4Preserves(Collect4(events[..|events| - 1]), events[|events| - 1]);
    }
  }

  /** Two codes whose payloads both lack a front image: the second is dropped. */
  lemma NoImageCountsOnce(a: Payload, b: Payload)
    requires Is4x5(a) && Is4x5(b) && FrontImg(a) == None && FrontImg(b) == None
    ensures Collect4([Some(a), Some(b)]) == [a]
  {
    assert [Some(a), Some(b)][..1] == [Some(a)];
    assert [Some(a)][..0] == [];
    assert Collect4([Some(a)]) == Accept4([], Some(a)) == [a];
    assert FrontImg(a) == FrontImg(b);
  }

  class Scan4 {
    var payloads: seq<Payload>

    ghost predicate Valid()
      reads this
    {
      Collected4(payloads)
    }

    constructor ()
      ensures Valid() && payloads == []
    {
      payloads := [];
    }

    /** The continuous decode callback for one read result. */
    method OnResult(d: Option<Payload>)
      requires Valid()
      modifies this
      ensures Valid() && payloads == Accept4(old(payloads), d)
    {
      Accept4Preserves(payloads, d);
      payloads := Accept4(payloads, d);
    }

    /** The finish button exists only with four payloads; it stores the first four. */
    method Finish(store: Store) returns (shown: bool)
      modifies store
      ensures shown <==> |payloads| >= 4
      ensures shown ==> store.fourUp == Some(payloads[..4]) && store.cd == old(store.cd)
      ensures !shown ==> store.fourUp == old(store.fourUp) && store.cd == old(store.cd)
    {
      shown := |payloads| >= 4;
      if shown {
        store.fourUp := Some(payloads[..4]);
      }
    }
  }

  /** The Scan4 preview slots use the default centre anchor inside absolutely placed
      wrappers of no size, so each 35 x 45 viewport is centred on its spot rather than
      starting there: slot A's lies 15.5 mm beyond the sheet's top-left corner. */
  lemma Scan4SlotsCentredOnSpot()
    ensures Slot.ViewportOrigin(Slot.Center, FourFiveFront, 0.0, 0.0) == Slot.Point(-17.5, -22.5)
    ensures 2.0 + Slot.ViewportOrigin(Slot.Center, FourFiveFront, 0.0, 0.0).x == -15.5
  {
  }

  // ---- Scan2: scan on demand, no cap, no de-duplication ----

  /** One button press: a decoded 4x5 payload is appended; anything else is dropped. */
  function Accept2(prev: seq<Payload>, s: Scan): (r: seq<Payload>)
    ensures s.Decoded? && s.payload.Some? && Is4x5(s.payload.value) ==> r == prev + [s.payload.value]
    ensures !(s.Decoded? && s.payload.Some? && Is4x5(s.payload.value)) ==> r == prev
    ensures |r| <= |prev| + 1
  {
    if s.Decoded? && s.payload.Some? && Is4x5(s.payload.value) then prev + [s.payload.value] else prev
  }

  /** Scanning the same code twice collects it twice. */
  lemma RescanAppendsAgain(prev: seq<Payload>, p: Payload)
    requires Is4x5(p)
    ensures Accept2(Accept2(prev, Decoded(Some(p))), Decoded(Some(p))) == prev + [p, p]
  {
  }

  class Scan2 {
    var payloads: seq<Payload>

    ghost predicate Valid()
      reads this
    {
      forall p :: p in payloads ==> Is4x5(p)
    }

    constructor ()
      ensures Valid() && payloads == []
    {
      payloads := [];
    }

    method OnScan(s: Scan)
      requires Valid()
      modifies this
      ensures Valid() && payloads == Accept2(old(payloads), s)
    {
      payloads := Accept2(payloads, s);
    }

    /** The finish button exists only with two payloads; it stores the first two. */
    method Finish(store: Store) returns (shown: bool)
      modifies store
      ensures shown <==> |payloads| >= 2
      ensures shown ==> store.fourUp == Some(payloads[..2]) && store.cd == old(store.cd)
      ensures !shown ==> store.fourUp == old(store.fourUp) && store.cd == old(store.cd)
    {
      shown := |payloads| >= 2;
      if shown {
        store.fourUp := Some(payloads[..2]);
      }
    }
  }

  // ---- ScanLoad: scans, a typed-in URL, and the preview decision ----

  predicate Loadable(p: Payload) { p.tpl == "4x5" || p.tpl == "cd" }

  /** One scan: appended exactly when it decodes to a 4x5 or cd payload. */
  function AcceptLoad(prev: seq<Payload>, s: Scan): (r: seq<Payload>)
    ensures s.Decoded? && s.payload.Some? && Loadable(s.payload.value) ==> r == prev + [s.payload.value]
    ensures !(s.Decoded? && s.payload.Some? && Loadable(s.payload.value)) ==> r == prev
  {
    if s.Decoded? && s.payload.Some? && Loadable(s.payload.value) then prev + [s.payload.value] else prev
  }

  /** The payload built from a typed-in image URL: a 4x5 pair showing it on both sides. */
  function UrlPayload(url: string): (p: Payload)
    ensures Is4x5(p) && IsPayload4x5(p) && Loadable(p)
    ensures p.front.value.part == FourFiveFront && p.back.value.part == FourFiveBack
    ensures p.front.value.img == Some(url) && p.back.value.img == Some(url)
    ensures p.front.value == Identity(FourFiveFront).(img := Some(url))
    ensures p.back.value == Identity(FourFiveBack).(img := Some(url))
  {
    Payload(Version, "4x5",
      Some(PartSpec(FourFiveFront, Some(url), None, None, None, 0.0, 0.0, 1.0, 0.0)),
      Some(PartSpec(FourFiveBack, Some(url), None, None, None, 0.0, 0.0, 1.0, 0.0)),
      None, None, None)
  }

  /** `payloads.find(p => p.tpl === 'cd')` */
  function FirstCd(ps: seq<Payload>): (r: Option<nat>)
    ensures r.Some? ==> r.value < |ps| && ps[r.value].tpl == "cd" && forall j :: 0 <= j < r.value ==> ps[j].tpl != "cd"
    ensures r.None? <==> forall j :: 0 <= j < |ps| ==> ps[j].tpl != "cd"
  {
    if ps == [] then None
    else if ps[0].tpl == "cd" then Some(0)
    else
      var r := FirstCd(ps[1..]);
      assert forall j :: 1 <= j < |ps| ==> ps[j] == ps[1..][j - 1];
      if r.Some? then Some(r.value + 1) else None
  }

  /** `payloads.filter(p => p.tpl === '4x5')`, in collection order. */
  function Only4x5(ps: seq<Payload>): (r: seq<Payload>)
    ensures forall p :: p in r <==> p in ps && Is4x5(p)
    ensures |r| <= |ps|
  {
    if ps == [] then []
    else (if Is4x5(ps[0]) then [ps[0]] else []) + Only4x5(ps[1..])
  }

  /** Filtering distributes over concatenation, so later payloads never come first. */
  lemma {:induction false} Only4x5Append(a: seq<Payload>, b: seq<Payload>)
    ensures Only4x5(a + b) == Only4x5(a) + Only4x5(b)
  {
    if a == [] {
      assert a + b == b;
    } else {
      assert (a + b)[1..] == a[1..] + b;
      Only4x5Append(a[1..], b);
    }
  }

  datatype Choice = ToCd(cd: Payload) | ToFourUp(pair: seq<Payload>) | NeedMore

  /** `goPreview`: the first cd payload wins; otherwise the first two 4x5 payloads; otherwise
      nothing (an alert). */
  function PreviewChoice(ps: seq<Payload>): (c: Choice)
    ensures c.ToCd? <==> exists i :: 0 <= i < |ps| && ps[i].tpl == "cd"
    ensures c.ToCd? ==> c.cd == ps[FirstCd(ps).value]
    ensures c.ToFourUp? ==> |c.pair| == 2 && |Only4x5(ps)| >= 2 && c.pair == Only4x5(ps)[..2] && forall p :: p in c.pair ==> p in ps && Is4x5(p)
    ensures c.NeedMore? <==> (forall p :: p in ps ==> p.tpl != "cd") && |Only4x5(ps)| < 2
  {
    var i := FirstCd(ps);
    if i.Some? then ToCd(ps[i.value])
    else
      var four := Only4x5(ps);
      if |four| >= 2 then
        assert forall k :: 0 <= k < 2 ==> four[..2][k] in four;
        ToFourUp(four[..2])
      else NeedMore
  }

  /** A cd payload anywhere beats any number of 4x5 payloads before it. */
  lemma CdTakesPrecedence(fours: seq<Payload>, cd: Payload)
    requires forall p :: p in fours ==> Is4x5(p)
    requires cd.tpl == "cd"
    ensures PreviewChoice(fours + [cd]) == ToCd(cd)
  {
    var ps := fours + [cd];
    assert ps[|fours|] == cd;
    forall j | 0 <= j < |fours| ensures ps[j].tpl != "cd" {
      assert ps[j] == fours[j] && fours[j] in fours;
      assert |ps[j].tpl| == 3;
    }
    assert FirstCd(ps) == Some(|fours|);
  }

  class ScanLoad {
    var payloads: seq<Payload>
    var imageUrl: string

    ghost predicate Valid()
      reads this
    {
      forall p :: p in payloads ==> Loadable(p)
    }

    constructor ()
      ensures Valid() && payloads == [] && imageUrl == ""
    {
      payloads := [];
      imageUrl := "";
    }

    method OnScan(s: Scan)
      requires Valid()
      modifies this
      ensures Valid() && payloads == AcceptLoad(old(payloads), s) && imageUrl == old(imageUrl)
    {
      payloads := AcceptLoad(payloads, s);
    }

    method SetImageUrl(url: string)
      modifies this
      ensures imageUrl == url && payloads == old(payloads)
    {
      imageUrl := url;
    }

    /** With a non-empty URL: append its payload and clear the field; otherwise nothing. */
    method LoadFromUrl()
      requires Valid()
      modifies this
      ensures Valid()
      ensures old(imageUrl) != "" ==> payloads == old(payloads) + [UrlPayload(old(imageUrl))] && imageUrl == ""
      ensures old(imageUrl) == "" ==> payloads == old(payloads) && imageUrl == ""
    {
      if imageUrl != "" {
        payloads := payloads + [UrlPayload(imageUrl)];
        imageUrl := "";
      }
    }

    /** Stores what `PreviewChoice` picks and reports it. */
    method GoPreview(store: Store) returns (c: Choice)
      modifies store
      ensures c == PreviewChoice(payloads)
      ensures c.ToCd? ==> store.cd == Some(c.cd) && store.fourUp == old(store.fourUp)
      ensures c.ToFourUp? ==> store.fourUp == Some(c.pair) && store.cd == old(store.cd)
      ensures c.NeedMore? ==> store.fourUp == old(store.fourUp) && store.cd == old(store.cd)
    {
      c := PreviewChoice(payloads);
      match c
      case ToCd(p) => store.cd := Some(p);
      case ToFourUp(pair) => store.fourUp := Some(pair);
      case NeedMore =>
    }
  }
}
