/** canonical_url.py: URL canonicalisation after RFC 3986 sections 6.2.2 and 6.2.3. */
module CanonicalUrls {
  import opened Options
  import opened Texts
  import opened PercentCodec
  import opened Sorting

  const TRACKING_EXACT := {
    "gclid", "fbclid", "igshid", "mc_eid", "mc_cid", "ref", "ref_src",
    "spm", "cmpid", "ncid", "_hsenc", "_hsmi", "vero_id", "mkt_tok",
    "yclid", "dclid", "gclsrc", "wt_mc", "s_cid"}

  /** The text encoding and Unicode lower-casing, both left open. */
  datatype Text = Text(enc: Encoding, lower: string -> string)

  predicate IsTracking(text: Text, key: string) {
    text.lower(key) in TRACKING_EXACT || "utm_" <= text.lower(key)
  }

  // ---- Splitting (urllib.parse.urlsplit and the netloc properties) ----

  function LowerChar(c: char): char {
    if 'A' <= c <= 'Z' then (c as int + 32) as char else c
  }

  /** str.lower on ASCII text. */
  function Lower(s: string): (r: string)
    ensures |r| == |s| && forall i :: 0 <= i < |s| ==> r[i] == LowerChar(s[i])
  {
    seq(|s|, i requires 0 <= i < |s| => LowerChar(s[i]))
  }

  predicate NetlocStop(c: char) {
    c == '/' || c == '?' || c == '#'
  }

  /** The part of s before the first of / ? #. */
  function Netloc(s: string): (p: string)
    ensures p <= s && (forall i :: 0 <= i < |p| ==> !NetlocStop(p[i])) && (|p| < |s| ==> NetlocStop(s[|p|]))
  {
    if s == "" || NetlocStop(s[0]) then ""
    else
      var p := Netloc(s[1..]);
      assert [s[0]] + p <= [s[0]] + s[1..] == s;
      [s[0]] + p
  }

  predicate IsC0OrSpace(c: char) {
    c as int <= 32
  }

  function DropLeadingC0(s: string): string {
    if s != "" && IsC0OrSpace(s[0]) then DropLeadingC0(s[1..]) else s
  }

  predicate IsLineOrTab(c: char) {
    c == '\t' || c == '\r' || c == '\n'
  }

  function DropLinesAndTabs(s: string): (r: string)
    ensures forall i :: 0 <= i < |r| ==> !IsLineOrTab(r[i])
  {
    if s == "" then ""
    else (if IsLineOrTab(s[0]) then "" else [s[0]]) + DropLinesAndTabs(s[1..])
  }

  /** What urlsplit removes before it looks at a URL. */
  function Clean(s: string): string {
    DropLinesAndTabs(DropLeadingC0(s))
  }

  datatype Parts = Parts(scheme: string, netloc: string, path: string, query: string)

  function SplitUrl(url: string): Parts {
    SplitClean(Clean(url))
  }

  function SplitClean(raw: string): Parts {
    if ':' in raw then SplitRest(Lower(Before(raw, ':')), After(raw, ':')) else SplitRest("", raw)
  }

  function SplitRest(scheme: string, rest: string): Parts {
    if "//" <= rest then
      var netloc := Netloc(rest[2..]);
      TailParts(scheme, netloc, rest[2 + |netloc|..])
    else TailParts(scheme, "", rest)
  }

  /** Path and query of what follows the authority; the fragment is cut off first. */
  function TailParts(scheme: string, netloc: string, tail: string): Parts {
    Parts(scheme, netloc, Before(Before(tail, '#'), '?'), After(Before(tail, '#'), '?'))
  }

  /** The text after the last c. */
  function AfterLast(s: string, c: char): (r: string)
    ensures |r| <= |s| && c !in r && r == s[|s| - |r|..]
    ensures |r| < |s| ==> s[|s| - |r| - 1] == c
  {
    if s == "" || s[|s| - 1] == c then ""
    else
      var t := AfterLast(s[..|s| - 1], c);
      t + [s[|s| - 1]]
  }

  function HostInfo(netloc: string): string {
    AfterLast(netloc, '@')
  }

  /** "user@" or "user:password@", "" without user information. */
  function UserPrefix(netloc: string): string {
    netloc[..|netloc| - |HostInfo(netloc)|]
  }

  predicate PortOk(port: string) {
    port == "" || (IsDigits(port) && Value(port) <= 65535)
  }

  function DefaultPort(scheme: string): nat {
    if scheme == "https" then 443 else 80
  }

  // ---- Normalising ----

  function PortSuffix(scheme: string, port: string): string
    requires PortOk(port)
  {
    if port == "" || Value(port) == DefaultPort(scheme) then "" else ":" + Decimal(Value(port))
  }

  function TrimSlashes(path: string): string {
    if path != "" && path[|path| - 1] == '/' then TrimSlashes(path[..|path| - 1]) else path
  }

  function NormalPath(path: string): string {
    if path == "/" then path else TrimSlashes(path)
  }

  predicate ParamLe(a: Param, b: Param) {
    TextLe(a.0, b.0) && (a.0 == b.0 ==> TextLe(a.1, b.1))
  }

  function Kept(text: Text, ps: seq<Param>): (r: seq<Param>)
    ensures forall p :: p in r ==> p in ps && !IsTracking(text, p.0)
  {
    if ps == [] then [] else (if IsTracking(text, ps[0].0) then [] else [ps[0]]) + Kept(text, ps[1..])
  }

  /** The parameters that count, in canonical order. */
  function NormalParams(text: Text, query: string): seq<Param> {
    Sort(ParamLe, Kept(text, ParseQuery(text.enc, query)))
  }

  datatype Outcome = Canonical(url: string) | NotCanonical | Raises

  /** Inside the model: an ASCII authority without brackets. */
  predicate IsPlain(url: string) {
    var netloc := SplitUrl(url).netloc;
    forall i :: 0 <= i < |netloc| ==> netloc[i] as int < 128 && netloc[i] != '[' && netloc[i] != ']'
  }

  function Normalize(text: Text, raw: string): Outcome
    requires IsPlain(raw)
  {
    NormalizeParts(text, SplitUrl(raw))
  }

  function NormalizeParts(text: Text, p: Parts): Outcome {
    Rebuilt(text, p.scheme, p.netloc, NormalPath(p.path), p.query)
  }

  function Rebuilt(text: Text, scheme: string, netloc: string, path: string, query: string): Outcome {
    var info := HostInfo(netloc);
    var host, port := Before(info, ':'), After(info, ':');
    if scheme !in {"http", "https"} || host == "" then NotCanonical
    else if !PortOk(port) then Raises  // the port property raises ValueError
    else
      var authority := UserPrefix(netloc) + Lower(host) + PortSuffix(scheme, port);
      var kept := UrlEncode(text.enc, NormalParams(text, query));
      Canonical(scheme + "://" + authority + path + if kept != "" then "?" + kept else "")
  }

  // ---- The entry point ----

  /** A redirect resolver: None is an exception. */
  type Resolver = string -> Option<string>

  /** What the resolver makes the code normalise again; "" if nothing. */
  function Resolved(resolver: Option<Resolver>, normalized: string): string {
    if resolver.None? then ""
    else
      match resolver.value(normalized)
      case None => normalized
      case Some(r) => r
  }

  /** Every URL the call normalises is inside the model. */
  predicate IsModelled(text: Text, url: string, resolver: Option<Resolver>) {
    && IsPlain(Strip(url))
    && (Normalize(text, Strip(url)).Canonical? ==> IsPlain(Resolved(resolver, Normalize(text, Strip(url)).url)))
  }

  /** canonicalize_url; the resolver is given exactly when network resolution is allowed. */
  function Canonicalize(text: Text, url: string, resolver: Option<Resolver>): Outcome
    requires IsModelled(text, url, resolver)
  {
    var raw := Strip(url);
    if raw == "" then NotCanonical
    else
      var first := Normalize(text, raw);
      if !first.Canonical? then first
      else
        var resolved := Resolved(resolver, first.url);
        if resolved == "" then first
        else
          match Normalize(text, resolved)
          case NotCanonical => first
          case again => again
  }

  // ---- Ports ----

  function EffectivePort(scheme: string, port: string): nat
    requires PortOk(port)
  {
    if port == "" then DefaultPort(scheme) else Value(port)
  }

  lemma SuffixIsEffectivePort(scheme: string, p: string, q: string)
    requires PortOk(p) && PortOk(q)
    ensures PortSuffix(scheme, p) == PortSuffix(scheme, q) <==> EffectivePort(scheme, p) == EffectivePort(scheme, q)
  {
    if p != "" && q != "" {
      DecimalValue(Value(p));
      DecimalValue(Value(q));
      if PortSuffix(scheme, p) == PortSuffix(scheme, q) != "" {
        assert PortSuffix(scheme, p)[1..] == Decimal(Value(p)) && PortSuffix(scheme, q)[1..] == Decimal(Value(q));
      }
    }
  }

  // ---- Paths and parameters ----

  lemma {:induction false} TrimmedStays(path: string)
    ensures TrimSlashes(path) <= path && TrimSlashes(TrimSlashes(path)) == TrimSlashes(path)
    decreases |path|
  {
    if path != "" && path[|path| - 1] == '/' { TrimmedStays(path[..|path| - 1]); }
  }

  lemma NormalPathStays(path: string)
    ensures NormalPath(path) <= path && NormalPath(NormalPath(path)) == NormalPath(path)
  {
    TrimmedStays(path);
  }

  lemma ParamLeIsTotalOrder()
    ensures TotalOrder(ParamLe)
  {
    TextLeIsTotalOrder();
  }

  lemma {:induction false} KeptStays(text: Text, ps: seq<Param>)
    requires forall p :: p in ps ==> !IsTracking(text, p.0)
    ensures Kept(text, ps) == ps
    decreases |ps|
  {
    if ps != [] {
      assert ps[0] in ps;
      KeptStays(text, ps[1..]);
    }
  }

  /** Printing, parsing, filtering and sorting once more changes nothing. */
  lemma ParamsStay(text: Text, query: string)
    requires Lawful(text.enc)
    ensures NormalParams(text, UrlEncode(text.enc, NormalParams(text, query))) == NormalParams(text, query)
  {
    var kept := Kept(text, ParseQuery(text.enc, query));
    var ps := NormalParams(text, query);
    QueryRoundTrip(text.enc, ps);
    forall p | p in ps ensures !IsTracking(text, p.0) {
      assert p in multiset(kept);
    }
    KeptStays(text, ps);
    ParamLeIsTotalOrder();
    SortSorts(ParamLe, kept);
    SortIsStable(ParamLe, ps);
  }
}
