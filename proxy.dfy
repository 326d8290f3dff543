/** The image proxy's request handler: an early-return chain of checks on the `url` query
    parameter, then one upstream fetch whose response is passed through with CORS and
    no-store headers. URL parsing and the fetch itself are parameters of the model. */
module Proxy {
  import opened Types

  // ---- text helpers ----

  predicate StartsWith(s: string, p: string) {
    |p| <= |s| && s[..|p|] == p
  }

  predicate EndsWith(s: string, p: string) {
    |p| <= |s| && s[|s| - |p|..] == p
  }

  predicate IsDigit(c: char) { '0' as int <= c as int <= '9' as int }

  /** `\d+`: a non-empty run of ASCII digits. */
  predicate Digits(s: string) {
    |s| > 0 && forall i :: 0 <= i < |s| ==> IsDigit(s[i])
  }

  /** `s.split('.')`: the fields between dots, empty ones included; never an empty list. */
  function Split(s: string): (fs: seq<string>)
    ensures |fs| >= 1
  {
    if s == [] then [""]
    else
      var rest := Split(s[1..]);
      if s[0] == '.' then [""] + rest else [[s[0]] + rest[0]] + rest[1..]
  }

  /** The fields joined back with dots. */
  function Join(fs: seq<string>): string
    requires |fs| >= 1
  {
    if |fs| == 1 then fs[0] else fs[0] + "." + Join(fs[1..])
  }

  /** `Number(s)` on a digit string: its decimal value (leading zeros allowed). */
  function Value(s: string): nat
    requires forall i :: 0 <= i < |s| ==> IsDigit(s[i])
  {
    if s == [] then 0
    else
      var c := s[|s| - 1];
      assert IsDigit(c);
      Value(s[..|s| - 1]) * 10 + ((c as int) - ('0' as int))
  }

  /** `/^\d+\.\d+\.\d+\.\d+$/.test(host)`: four digit runs separated by single dots. */
  predicate IsDottedQuad(host: string) {
    var fs := Split(host);
    |fs| == 4 && forall i :: 0 <= i < 4 ==> Digits(fs[i])
  }

  /** `Number(host.split('.')[1])` for a dotted quad; -1 stands for anything else. */
  function SecondOctet(host: string): int {
    var fs := Split(host);
    if |fs| >= 2 && forall i :: 0 <= i < |fs[1]| ==> IsDigit(fs[1][i]) then Value(fs[1]) else -1
  }

  /** The static SSRF guard: loopback names, then private, loopback and link-local
      dotted quads. */
  predicate Blocked(host: string) {
    host == "localhost" || EndsWith(host, ".localhost") ||
    host == "127.0.0.1" || host == "::1" ||
    (IsDottedQuad(host) &&
      (StartsWith(host, "10.") || StartsWith(host, "127.") || StartsWith(host, "169.254.") ||
       StartsWith(host, "192.168.") ||
       (StartsWith(host, "172.") && 16 <= SecondOctet(host) <= 31)))
  }

  // ---- the handler ----

  /** What the URL parser yields for a well-formed URL. */
  datatype Url = Url(protocol: string, hostname: string, href: string, urlParam: Option<string>)

  type Headers = map<string, string>

  /** An upstream response, or a fetch that threw. */
  datatype Fetched = Upstream(status: int, headers: Headers, body: seq<bv8>) | Threw

  datatype Body = Text(text: string) | Stream(bytes: seq<bv8>)

  datatype Response = Response(status: int, body: Body, headers: Headers)

  function Error(status: int, text: string): Response {
    Response(status, Text(text), map[])
  }

  /** `handler(req)`: `parse` is `new URL` (None when it throws), `fetch` the upstream call
      made with the proxy's user agent. */
  function Handle(reqUrl: string, parse: string -> Option<Url>, fetch: string -> Fetched): (r: Response)
    ensures r.status == 400 || r.status == 502 || r.body.Stream?
  {
    var req := parse(reqUrl);
    if req.None? then Error(502, "Proxy error")
    else
      var target := req.value.urlParam;
      if target.None? || target.value == "" then Error(400, "Missing url")
      else
        var u := parse(target.value);
        if u.None? then Error(400, "Invalid url")
        else if u.value.protocol != "http:" && u.value.protocol != "https:" then Error(400, "Only http/https allowed")
        else if Blocked(u.value.hostname) then Error(400, "Blocked host")
        else
          match fetch(u.value.href)
          case Threw => Error(502, "Proxy error")
          case Upstream(status, headers, body) =>
            Response(status, Stream(body), headers["access-control-allow-origin" := "*"]["cache-control" := "no-store"])
  }

  /** The target the handler checks: the parsed `url` parameter, when there is one. */
  function Target(reqUrl: string, parse: string -> Option<Url>): Option<Url> {
    var req := parse(reqUrl);
    if req.None? || req.value.urlParam.None? || req.value.urlParam.value == "" then None
    else parse(req.value.urlParam.value)
  }

  predicate Allowed(u: Url) {
    (u.protocol == "http:" || u.protocol == "https:") && !Blocked(u.hostname)
  }

  /** Each early exit answers with its own status and message, and the upstream is asked
      only for a target that passed every check: any other fetch gives the same response. */
  lemma Rejections(reqUrl: string, parse: string -> Option<Url>, fetch: string -> Fetched, other: string -> Fetched)
    ensures var r := Handle(reqUrl, parse, fetch);
      var req := parse(reqUrl);
      (req.None? ==> r == Error(502, "Proxy error")) &&
      (req.Some? && (req.value.urlParam.None? || req.value.urlParam.value == "") ==> r == Error(400, "Missing url")) &&
      (req.Some? && req.value.urlParam.Some? && req.value.urlParam.value != "" ==>
        (parse(req.value.urlParam.value).None? ==> r == Error(400, "Invalid url")) &&
        (parse(req.value.urlParam.value).Some? ==>
          var u := parse(req.value.urlParam.value).value;
          (u.protocol != "http:" && u.protocol != "https:" ==> r == Error(400, "Only http/https allowed")) &&
          ((u.protocol == "http:" || u.protocol == "https:") && Blocked(u.hostname) ==> r == Error(400, "Blocked host"))))
    ensures Target(reqUrl, parse).None? || !Allowed(Target(reqUrl, parse).value) ==>
      Handle(reqUrl, parse, fetch) == Handle(reqUrl, parse, other) && Handle(reqUrl, parse, fetch).status != 200
  {
  }

  /** The body is streamed from upstream exactly when the target passed every check and the
      fetch returned; the upstream status, body and headers are kept, with CORS opened and
      caching disabled. A fetch that throws gives 502. */
  lemma PassThrough(reqUrl: string, parse: string -> Option<Url>, fetch: string -> Fetched)
    ensures var r := Handle(reqUrl, parse, fetch);
      var t := Target(reqUrl, parse);
      r.body.Stream? <==> t.Some? && Allowed(t.value) && fetch(t.value.href).Upstream?
    ensures var r := Handle(reqUrl, parse, fetch);
      var t := Target(reqUrl, parse);
      t.Some? && Allowed(t.value) ==>
        (fetch(t.value.href).Threw? ==> r == Error(502, "Proxy error")) &&
        (fetch(t.value.href).Upstream? ==>
          var up := fetch(t.value.href);
          r.status == up.status && r.body == Stream(up.body) &&
          r.headers.Keys == up.headers.Keys + {"access-control-allow-origin", "cache-control"} &&
          r.headers["access-control-allow-origin"] == "*" && r.headers["cache-control"] == "no-store" &&
          forall k :: k in up.headers && k != "access-control-allow-origin" && k != "cache-control" ==> r.headers[k] == up.headers[k])
  {
  }

  // ---- dotted quads in canonical form ----

  function DigitChar(n: nat): char
    requires n < 10
  {
    ('0' as int + n) as char
  }

  /** The canonical decimal spelling of n, as the URL parser writes IPv4 octets. */
  function Dec(n: nat): (s: string)
    ensures Digits(s) && '.' !in s
  {
    if n < 10 then [DigitChar(n)] else Dec(n / 10) + [DigitChar(n % 10)]
  }

  /** Reading back a decimal spelling gives the number. */
  lemma {:induction false} ValueDec(n: nat)
    ensures Value(Dec(n)) == n
  {
    if n >= 10 {
      ValueDec(n / 10);
      var s := Dec(n);
      assert s[..|s| - 1] == Dec(n / 10);
    }
  }

  lemma DecInjective(a: nat, b: nat)
    ensures Dec(a) == Dec(b) <==> a == b
  {
    ValueDec(a);
    ValueDec(b);
  }

  /** A dot-free field is one field. */
  lemma {:induction false} SplitField(f: string)
    requires '.' !in f
    ensures Split(f) == [f]
  {
    if f != [] {
      assert '.' !in f[1..];
      SplitField(f[1..]);
      assert [f[0]] + f[1..] == f;
    }
  }

  /** A dot-free field followed by a dot splits off first. */
  lemma {:induction false} SplitCons(f: string, rest: string)
    requires '.' !in f
    ensures Split(f + "." + rest) == [f] + Split(rest)
  {
    if f == [] {
      assert f + "." + rest == ['.'] + rest;
      assert (['.'] + rest)[1..] == rest;
    } else {
      assert '.' !in f[1..];
      SplitCons(f[1..], rest);
      var s := f + "." + rest;
      assert s[0] == f[0] && s[1..] == f[1..] + "." + rest;
      assert Split(s[1..]) == [f[1..]] + Split(rest);
      assert [f[0]] + f[1..] == f;
    }
  }

  /** Splitting undoes joining dot-free fields. */
  lemma {:induction false} SplitJoin(fs: seq<string>)
    requires |fs| >= 1 && forall i :: 0 <= i < |fs| ==> '.' !in fs[i]
    ensures Split(Join(fs)) == fs
  {
    if |fs| == 1 {
      SplitField(fs[0]);
    } else {
      var tl := fs[1..];
      assert forall i :: 0 <= i < |tl| ==> tl[i] == fs[i + 1];
      SplitJoin(tl);
      SplitCons(fs[0], Join(tl));
      assert Join(fs) == fs[0] + "." + Join(tl);
      assert [fs[0]] + tl == fs;
    }
  }

  /** A dot-free field starts a dotted string with the dot-free prefix p and a dot exactly
      when it is p and the rest continues with q. */
  lemma PrefixField(f: string, rest: string, p: string, q: string)
    requires '.' !in f && '.' !in p
    ensures StartsWith(f + "." + rest, p + "." + q) <==> f == p && StartsWith(rest, q)
  {
    var s, t := f + "." + rest, p + "." + q;
    if StartsWith(s, t) {
      assert s[..|t|] == t;
      assert s[|f|] == '.' && t[|p|] == '.' && s[|p|] == t[|p|];
      assert forall i :: 0 <= i < |f| ==> s[i] == f[i];
      assert forall i :: 0 <= i < |p| ==> s[i] == t[i] == p[i];
      assert f == s[..|f|] == t[..|p|] == p;
      assert rest[..|q|] == s[|f| + 1..|f| + 1 + |q|] == t[|p| + 1..];
    }
    if f == p && StartsWith(rest, q) {
      assert s[..|t|] == f + "." + rest[..|q|];
    }
  }

  /** The dotted-decimal host a.b.c.d. */
  function Quad(a: nat, b: nat, c: nat, d: nat): string {
    Dec(a) + "." + Dec(b) + "." + Dec(c) + "." + Dec(d)
  }

  /** Moving the brackets of a dotted concatenation to the right. */
  lemma DotRight(a: string, b: string, c: string)
    ensures a + "." + b + "." + c == a + "." + (b + "." + c)
  {
  }

  /** Four dot-free fields joined by dots split back into those fields. */
  lemma SplitFour(w: string, x: string, y: string, z: string)
    requires '.' !in w && '.' !in x && '.' !in y && '.' !in z
    ensures Split(w + "." + x + "." + y + "." + z) == [w, x, y, z]
  {
    var yz := y + "." + z;
    var xyz := x + "." + yz;
    DotRight(w + "." + x, y, z);
    DotRight(w, x, yz);
    var s := w + "." + xyz;
    assert w + "." + x + "." + y + "." + z == s;
    SplitField(z);
    SplitCons(y, z);
    assert Split(yz) == [y, z];
    SplitCons(x, yz);
    assert Split(xyz) == [x, y, z];
    SplitCons(w, xyz);
    assert Split(s) == [w] + [x, y, z];
  }

  /** A canonical dotted quad matches the dotted-quad pattern, its second field reads back as
      b, and it is never one of the loopback names. */
  lemma QuadShape(a: nat, b: nat, c: nat, d: nat)
    ensures var h := Quad(a, b, c, d);
      IsDottedQuad(h) && SecondOctet(h) == b &&
      h != "localhost" && !EndsWith(h, ".localhost") && h != "::1"
  {
    var h := Quad(a, b, c, d);
    SplitFour(Dec(a), Dec(b), Dec(c), Dec(d));
    ValueDec(b);
    assert h[0] == Dec(a)[0];
    assert h[|h| - 1] == Dec(d)[|Dec(d)| - 1];
    assert IsDigit(h[|h| - 1]);
    assert !IsDigit(".localhost"[9]);
  }

  /** The blocks the guard means to refuse: 10/8 and 192.168/16 and 172.16/12 (RFC 1918
      section 3), 127/8 loopback and 169.254/16 link-local (RFC 6890 section 2.2.2). */
  predicate Reserved(a: nat, b: nat) {
    a == 10 || a == 127 || (a == 169 && b == 254) || (a == 192 && b == 168) || (a == 172 && 16 <= b <= 31)
  }

  /** A canonical host starts with the one-octet prefix n. exactly when its first octet is n. */
  lemma PrefixOne(a: nat, rest: string, n: nat)
    ensures StartsWith(Dec(a) + "." + rest, Dec(n) + ".") <==> a == n
  {
    PrefixField(Dec(a), rest, Dec(n), "");
    DecInjective(a, n);
    assert StartsWith(rest, "");
    assert Dec(n) + "." == Dec(n) + "." + "";
  }

  /** Two dot-free fields and a dot start a dotted string exactly when its first two fields
      are those two. */
  lemma PrefixTwoFields(fa: string, fb: string, tail: string, fn: string, fm: string)
    requires '.' !in fa && '.' !in fb && '.' !in fn && '.' !in fm
    ensures StartsWith(fa + "." + fb + "." + tail, fn + "." + fm + ".") <==> fa == fn && fb == fm
  {
    var rest, q := fb + "." + tail, fm + ".";
    PrefixField(fa, rest, fn, q);
    PrefixField(fb, tail, fm, "");
    assert StartsWith(tail, "");
    assert fm + "." + "" == q;
    assert fa + "." + fb + "." + tail == fa + "." + rest;
    assert fn + "." + fm + "." == fn + "." + q;
  }

  /** ... and with the two-octet prefix n.m. exactly when its first two octets are n and m. */
  lemma PrefixTwo(a: nat, b: nat, tail: string, n: nat, m: nat)
    ensures StartsWith(Dec(a) + "." + Dec(b) + "." + tail, Dec(n) + "." + Dec(m) + ".") <==> a == n && b == m
  {
    PrefixTwoFields(Dec(a), Dec(b), tail, Dec(n), Dec(m));
    DecInjective(a, n);
    DecInjective(b, m);
  }

  lemma DecLiteral()
    ensures Dec(10) + "." == "10." && Dec(127) + "." == "127." && Dec(172) + "." == "172."
    ensures Dec(169) + "." + Dec(254) + "." == "169.254." && Dec(192) + "." + Dec(168) + "." == "192.168."
  {
  }

  /** The guard's decision on a dotted quad that is none of the loopback names, given how
      its prefixes and second field read. */
  lemma BlockedByPrefix(h: string, a: nat, b: nat)
    requires IsDottedQuad(h) && SecondOctet(h) == b
    requires h != "localhost" && !EndsWith(h, ".localhost") && h != "::1"
    requires h == "127.0.0.1" ==> StartsWith(h, "127.")
    requires StartsWith(h, "10.") <==> a == 10
    requires StartsWith(h, "127.") <==> a == 127
    requires StartsWith(h, "172.") <==> a == 172
    requires StartsWith(h, "169.254.") <==> a == 169 && b == 254
    requires StartsWith(h, "192.168.") <==> a == 192 && b == 168
    ensures Blocked(h) <==> Reserved(a, b)
  {
  }

  lemma LoopbackLiteral()
    ensures StartsWith("127.0.0.1", "127.")
  {
  }

  /** On canonical dotted quads the guard refuses exactly the reserved blocks, whatever the
      last two octets. */
  lemma QuadBlocked(a: nat, b: nat, c: nat, d: nat)
    ensures Blocked(Quad(a, b, c, d)) <==> Reserved(a, b)
  {
    var h := Quad(a, b, c, d);
    var tail := Dec(c) + "." + Dec(d);
    var rest := Dec(b) + "." + tail;
    DotRight(Dec(a) + "." + Dec(b), Dec(c), Dec(d));
    DotRight(Dec(a), Dec(b), tail);
    assert h == Dec(a) + "." + rest;
    assert h == Dec(a) + "." + Dec(b) + "." + tail;
    QuadShape(a, b, c, d);
    DecLiteral();
    PrefixOne(a, rest, 10);
    PrefixOne(a, rest, 127);
    PrefixOne(a, rest, 172);
    PrefixTwo(a, b, tail, 169, 254);
    PrefixTwo(a, b, tail, 192, 168);
    LoopbackLiteral();
    BlockedByPrefix(h, a, b);
  }

  /** The edges of 172.16/12 are allowed through. */
  lemma GuardEdges()
    ensures !Blocked(Quad(172, 15, 0, 1)) && !Blocked(Quad(172, 32, 0, 1)) && Blocked(Quad(172, 31, 255, 255))
  {
    QuadBlocked(172, 15, 0, 1);
    QuadBlocked(172, 32, 0, 1);
    QuadBlocked(172, 31, 255, 255);
  }

  /** Three dot-free fields joined by dots are not a dotted quad. */
  lemma ThreeFieldsNoQuad(x: string, y: string, z: string)
    requires '.' !in x && '.' !in y && '.' !in z
    ensures !IsDottedQuad(x + "." + y + "." + z)
  {
    var yz := y + "." + z;
    DotRight(x, y, z);
    SplitField(z);
    SplitCons(y, z);
    SplitCons(x, yz);
    assert Split(x + "." + yz) == [x] + [y, z];
  }

  /** A name that merely begins like a private block is not a dotted quad and passes. */
  lemma NamesAreNotQuads()
    ensures !Blocked("10.example.com")
  {
    var h := "10.example.com";
    ThreeFieldsNoQuad("10", "example", "com");
    assert h == "10" + "." + "example" + "." + "com";
    assert h[|h| - 10] != ".localhost"[0];
  }

  /** The URL parser keeps the brackets of an IPv6 host, so the literal '::1' test never
      matches and the bracketed loopback address is let through. */
  lemma BracketedLoopbackPasses()
    ensures !Blocked("[::1]") && Blocked("::1")
  {
    SplitField("[::1]");
  }
}
