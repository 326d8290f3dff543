/** The clipboard paste rules of the editor hook: which clipboard source wins, and which
    URL schemes each path forwards. HTML parsing, the clipboard API and its promises are
    inputs; the regular expressions are written out as prefix tests. */
module Clipboard {
  import opened Types

  /** ASCII lower-casing, the case folding of a regular expression's `i` flag on Latin letters. */
  function LowerAscii(c: char): char {
    if 'A' <= c <= 'Z' then (c as int + 32) as char else c
  }

  /** `s` starts with the lower-case word `p`, ignoring ASCII case. */
  predicate StartsWithCI(s: string, p: string) {
    |p| <= |s| && forall i :: 0 <= i < |p| ==> LowerAscii(s[i]) == p[i]
  }

  /** `/^https?:\/\//i` */
  predicate IsHttpUrl(s: string) {
    StartsWithCI(s, "http://") || StartsWithCI(s, "https://")
  }

  /** `/^(https?:\/\/|data:)/i` */
  predicate IsHttpOrDataUrl(s: string) {
    IsHttpUrl(s) || StartsWithCI(s, "data:")
  }

  /** `s.startsWith('data:')`, which is case-sensitive. */
  predicate StartsWithData(s: string) {
    "data:" <= s
  }

  /** The characters `String.prototype.trim` removes: white space and line terminators. */
  predicate IsSpace(c: char) {
    c == ' ' || c == '\t' || c == '\n' || c == '\r' || c == '\U{B}' || c == '\U{C}' ||
    c == '\U{A0}' || c == '\U{1680}' || ('\U{2000}' <= c <= '\U{200A}') || c == '\U{2028}' ||
    c == '\U{2029}' || c == '\U{202F}' || c == '\U{205F}' || c == '\U{3000}' || c == '\U{FEFF}'
  }

  /** The number of leading white-space characters. */
  function Leading(s: string): (k: nat)
    ensures k <= |s|
    ensures forall i :: 0 <= i < k ==> IsSpace(s[i])
    ensures k < |s| ==> !IsSpace(s[k])
  {
    if s == [] || !IsSpace(s[0]) then 0 else 1 + Leading(s[1..])
  }

  /** The number of trailing white-space characters. */
  function Trailing(s: string): (k: nat)
    ensures k <= |s|
    ensures forall i :: |s| - k <= i < |s| ==> IsSpace(s[i])
    ensures k < |s| ==> !IsSpace(s[|s| - 1 - k])
  {
    if s == [] || !IsSpace(s[|s| - 1]) then 0 else 1 + Trailing(s[..|s| - 1])
  }

  /** `s.trim()`: a contiguous piece of `s`, with only white space cut on either side and no
      white space left at either end. */
  function Trim(s: string): (r: string)
    ensures |r| <= |s|
    ensures r != [] ==> !IsSpace(r[0]) && !IsSpace(r[|r| - 1])
    ensures var i := Leading(s);
      i + |r| <= |s| && r == s[i..i + |r|] && forall j :: i + |r| <= j < |s| ==> IsSpace(s[j])
  {
    var i := Leading(s);
    var t := Trailing(s[i..]);
    TrimCut(s, i, t);
    s[i..][..|s| - i - t]
  }

  /** Cutting the leading run and then the trailing run of the rest leaves the piece between
      them, with white space only after it. */
  lemma TrimCut(s: string, i: nat, t: nat)
    requires i == Leading(s) && t == Trailing(s[i..])
    ensures var r := s[i..][..|s| - i - t];
      i + |r| <= |s| && r == s[i..i + |r|] &&
      (r != [] ==> !IsSpace(r[0]) && !IsSpace(r[|r| - 1])) &&
      forall j :: i + |r| <= j < |s| ==> IsSpace(s[j])
  {
    var a := s[i..];
    var r := a[..|a| - t];
    assert r == s[i..i + |r|];
    if r != [] {
      assert r[0] == s[i];
      assert r[|r| - 1] == a[|a| - 1 - t];
    }
    forall j | i + |r| <= j < |s| ensures IsSpace(s[j]) {
      assert s[j] == a[j - i];
    }
  }

  /** What the first `img` and the first `a[href]` of a parsed HTML fragment offer: the
      `src` attribute and the resolved `href`, absent when there is no such element. */
  datatype Doc = Doc(imgSrc: Option<string>, anchorHref: Option<string>)

  /** `extractUrlFromHtml`: an image source that is http(s) or (case-sensitively) data: wins;
      otherwise an http(s) link; otherwise nothing. */
  function ExtractUrl(d: Doc): (r: Option<string>)
    ensures r.Some? ==> IsHttpUrl(r.value) || StartsWithData(r.value)
    ensures HasText(d.imgSrc) && (IsHttpUrl(d.imgSrc.value) || StartsWithData(d.imgSrc.value)) ==> r == d.imgSrc
    ensures !(HasText(d.imgSrc) && (IsHttpUrl(d.imgSrc.value) || StartsWithData(d.imgSrc.value))) ==>
      r == (if d.anchorHref.Some? && IsHttpUrl(d.anchorHref.value) then d.anchorHref else None)
  {
    if HasText(d.imgSrc) && (IsHttpUrl(d.imgSrc.value) || StartsWithData(d.imgSrc.value)) then d.imgSrc
    else if d.anchorHref.Some? && IsHttpUrl(d.anchorHref.value) then d.anchorHref
    else None
  }

  /** One clipboard item: its declared types and the text of its html and plain entries
      (`None` when reading that entry throws). */
  datatype ClipItem = ClipItem(types: seq<string>, html: Option<string>, plain: Option<string>)

  datatype ReadResult = NoRead | ReadThrows | Items(items: seq<ClipItem>)

  /** `clipboard.readText`: missing, throwing, or resolving to a possibly absent text. */
  datatype TextResult = NoReadText | ReadTextThrows | Text(text: Option<string>)

  /** The html URL an item offers to `readClipboard`: only an http(s) result counts. */
  function HtmlUrl(it: ClipItem, parse: string -> Doc): (r: Option<string>)
    ensures r.Some? ==> IsHttpUrl(r.value)
  {
    if "text/html" in it.types && it.html.Some? then
      var u := ExtractUrl(parse(it.html.value));
      if u.Some? && u.value != "" && IsHttpUrl(u.value) then u else None
    else None
  }

  /** The plain-text URL an item offers: its trimmed text when that is http(s). */
  function PlainUrl(it: ClipItem): (r: Option<string>)
    ensures r.Some? ==> IsHttpUrl(r.value)
  {
    if "text/plain" in it.types && it.plain.Some? && IsHttpUrl(Trim(it.plain.value)) then Some(Trim(it.plain.value))
    else None
  }

  /** The first item, in clipboard order, that offers a URL through `offer`. */
  function FirstOffer(items: seq<ClipItem>, offer: ClipItem -> Option<string>): (r: Option<string>)
    ensures r.None? <==> forall i :: 0 <= i < |items| ==> offer(items[i]).None?
    ensures r.Some? ==> exists i :: 0 <= i < |items| && offer(items[i]) == r &&
                                  (forall j :: 0 <= j < i ==> offer(items[j]).None?)
  {
    if items == [] then None
    else if offer(items[0]).Some? then
      offer(items[0])
    else
      var r := FirstOffer(items[1..], offer);
      assert forall i :: 1 <= i < |items| ==> items[i] == items[1..][i - 1];
      if r.Some? then
        var i :| 0 <= i < |items[1..]| && offer(items[1..][i]) == r && forall j :: 0 <= j < i ==> offer(items[1..][j]).None?;
        assert offer(items[i + 1]) == r && forall j :: 0 <= j < i + 1 ==> offer(items[j]).None?;
        r
      else r
  }

  /** The URL `readText` yields: the trimmed text when it is non-empty and http(s) or data:. */
  function TextUrl(t: TextResult): (r: Option<string>)
    ensures r.Some? ==> IsHttpOrDataUrl(r.value)
  {
    if t.Text? && t.text.Some? && Trim(t.text.value) != "" && IsHttpOrDataUrl(Trim(t.text.value)) then
      Some(Trim(t.text.value))
    else None
  }

  /** What `readClipboard` pastes: the first html URL of any item, else the first plain URL,
      else the `readText` URL, else nothing. A throwing `read` skips both item passes. */
  function ClipboardChoice(read: ReadResult, text: TextResult, parse: string -> Doc): Option<string> {
    var html := if read.Items? then FirstOffer(read.items, it => HtmlUrl(it, parse)) else None;
    var plain := if read.Items? then FirstOffer(read.items, PlainUrl) else None;
    if html.Some? then html else if plain.Some? then plain else TextUrl(text)
  }

  /** The source priority, stated outright: an html URL of any item beats every plain-text
      URL, and either beats `readText`; a data: URL can only come from `readText`. */
  lemma ClipboardPriority(read: ReadResult, text: TextResult, parse: string -> Doc)
    ensures var r := ClipboardChoice(read, text, parse);
      (read.Items? && (exists i :: 0 <= i < |read.items| && HtmlUrl(read.items[i], parse).Some?) ==>
         r == FirstOffer(read.items, it => HtmlUrl(it, parse))) &&
      (r.Some? && !IsHttpUrl(r.value) ==> r == TextUrl(text)) &&
      (r.Some? ==> IsHttpOrDataUrl(r.value)) &&
      (!read.Items? ==> r == TextUrl(text))
  {
  }

  /** `readClipboard`: the two passes over the items, each stopping at the first URL, then
      the `readText` fallback; `handled` is whether something was pasted and the error
      callback fires exactly when nothing was. */
  method ReadClipboard(read: ReadResult, text: TextResult, parse: string -> Doc)
      returns (pasted: Option<string>, handled: bool, error: bool)
    ensures pasted == ClipboardChoice(read, text, parse)
    ensures handled <==> pasted.Some?
    ensures error <==> !handled
  {
    handled := false;
    pasted := None;
    if read.Items? {
      var items := read.items;
      var i := 0;
      while i < |items| && !handled
        invariant 0 <= i <= |items|
        invariant handled <==> pasted.Some?
        invariant !handled ==> forall j :: 0 <= j < i ==> HtmlUrl(items[j], parse).None?
        invariant handled ==> pasted == FirstOffer(items, it => HtmlUrl(it, parse))
      {
        var u := HtmlUrl(items[i], parse);
        if u.Some? {
          FirstOfferIsFirst(items, it => HtmlUrl(it, parse), i);
          pasted := u;
          handled := true;
        }
        i := i + 1;
      }
      if !handled {
        i := 0;
        while i < |items| && !handled
          invariant 0 <= i <= |items|
          invariant handled <==> pasted.Some?
          invariant !handled ==> forall j :: 0 <= j < i ==> PlainUrl(items[j]).None?
          invariant handled ==> pasted == FirstOffer(items, PlainUrl)
        {
          var u := PlainUrl(items[i]);
          if u.Some? {
            FirstOfferIsFirst(items, PlainUrl, i);
            pasted := u;
            handled := true;
          }
          i := i + 1;
        }
      }
    }
    if !handled {
      pasted := TextUrl(text);
      handled := pasted.Some?;
    }
    error := !handled;
  }

  /** The first item that offers something is the one `FirstOffer` returns. */
  lemma FirstOfferIsFirst(items: seq<ClipItem>, offer: ClipItem -> Option<string>, i: nat)
    requires i < |items| && offer(items[i]).Some?
    requires forall j :: 0 <= j < i ==> offer(items[j]).None?
    ensures FirstOffer(items, offer) == offer(items[i])
  {
    var r := FirstOffer(items, offer);
    var k :| 0 <= k < |items| && offer(items[k]) == r && forall j :: 0 <= j < k ==> offer(items[j]).None?;
    assert k == i;
  }

  /** What a paste event offers: nothing at all, or a data-transfer object whose `getData`
      may be missing and otherwise yields the html and the text entries ('' when absent). */
  datatype PasteData = NoData | Data(hasGetData: bool, html: string, text: string)

  datatype PasteOutcome = Ignored | Pasted(url: string) | Failed

  /** `handlePasteEvent`: with no data nothing happens; an http(s) URL from the html entry
      wins, then an http(s) trimmed text; otherwise the error callback. */
  function PasteEvent(d: PasteData, parse: string -> Doc): (o: PasteOutcome)
    ensures d.NoData? <==> o.Ignored?
    ensures o.Pasted? ==> IsHttpUrl(o.url)
    ensures d.Data? ==>
      var u := if d.hasGetData && d.html != "" then ExtractUrl(parse(d.html)) else None;
      var text := if d.hasGetData then d.text else "";
      var fromHtml := u.Some? && IsHttpUrl(u.value);
      var fromText := text != "" && IsHttpUrl(Trim(text));
      (fromHtml ==> o == Pasted(u.value)) &&
      (!fromHtml && fromText ==> o == Pasted(Trim(text))) &&
      (o.Failed? <==> !fromHtml && !fromText)
  {
    if d.NoData? then Ignored
    else
      var html := if d.hasGetData then d.html else "";
      var u := if html != "" then ExtractUrl(parse(html)) else None;
      var text := if d.hasGetData then d.text else "";
      if u.Some? && u.value != "" && IsHttpUrl(u.value) then Pasted(u.value)
      else if text != "" && IsHttpUrl(Trim(text)) then Pasted(Trim(text))
      else Failed
  }

  lemma TrimSamples()
    ensures Trim("data:x") == "data:x"
    ensures Trim("  data:x ") == "data:x"
  {
    TrimUnpadded("data:x");
    assert "  data:x "[1..] == " data:x ";
    assert " data:x "[1..] == "data:x ";
    assert Leading("  data:x ") == 2;
    assert "  data:x "[2..] == "data:x ";
    assert "data:x "[..6] == "data:x";
    assert Trailing("data:x ") == 1;
  }

  /** A string that neither starts nor ends with white space is its own trim. */
  lemma TrimUnpadded(s: string)
    requires s == [] || (!IsSpace(s[0]) && !IsSpace(s[|s| - 1]))
    ensures Trim(s) == s
  {
    assert Leading(s) == 0;
    assert s[0..] == s;
    assert Trailing(s) == 0;
  }

  /** A paste event never forwards a text whose trimmed form is a data: URL ... */
  lemma PasteEventRejectsDataUrl(text: string, parse: string -> Doc)
    requires StartsWithCI(Trim(text), "data:")
    ensures PasteEvent(Data(true, "", text), parse) == Failed
  {
    var u := Trim(text);
    assert LowerAscii(u[0]) == 'd';
    assert "http://"[0] == 'h' && "https://"[0] == 'h';
    assert !StartsWithCI(u, "http://") && !StartsWithCI(u, "https://");
  }

  /** ... while the `readText` fallback pastes it. */
  lemma ReadTextAcceptsDataUrl(text: string, parse: string -> Doc)
    requires StartsWithCI(Trim(text), "data:")
    ensures ClipboardChoice(NoRead, Text(Some(text)), parse) == Some(Trim(text))
  {
    assert Trim(text) != "";
  }

  /** The html entry is preferred over the text entry when both hold an http(s) URL. */
  lemma HtmlBeatsText(d: PasteData, parse: string -> Doc)
    requires d.Data? && d.hasGetData && d.html != ""
    requires var u := ExtractUrl(parse(d.html)); u.Some? && IsHttpUrl(u.value)
    ensures PasteEvent(d, parse) == Pasted(ExtractUrl(parse(d.html)).value)
  {
  }

  /** The scheme test ignores case, the data: test of an image source does not. */
  lemma SchemeCase()
    ensures IsHttpUrl("HTTPS://x")
    ensures ExtractUrl(Doc(Some("DATA:x"), None)) == None
    ensures ExtractUrl(Doc(Some("data:x"), Some("http://y"))) == Some("data:x")
  {
    assert StartsWithCI("HTTPS://x", "https://");
    assert !StartsWithData("DATA:x") by { assert "DATA:x"[0] != 'd'; }
    assert !IsHttpUrl("DATA:x") by { assert LowerAscii('D') != 'h'; }
    assert StartsWithData("data:x") by { assert "data:x"[..5] == "data:"; }
  }
}
