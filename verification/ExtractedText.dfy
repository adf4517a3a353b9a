/** The extracted-text artifact: its printer (artifact_store.py, save_extracted_text) and its parser
    (artifact_parser.py, _parse_extracted_text), which live in two files and meet only in the format. */
module ExtractedTexts {
  import opened Options
  import opened Texts
  import opened CanonicalUrls
  import opened CanonicalUrlTheorems
  import opened UrlForms

  // ---- Lines ----

  /** Where str.splitlines ends a line. */
  predicate IsBreak(c: char) {
    var n := c as int;
    10 <= n <= 13 || 28 <= n <= 30 || n == 0x85 || n == 0x2028 || n == 0x2029
  }

  predicate NoBreak(s: string) {
    forall i :: 0 <= i < |s| ==> !IsBreak(s[i])
  }

  /** The length of the first line with its end; a carriage return and a line feed end it together. */
  function LineLength(s: string): (n: nat)
    requires s != ""
    ensures 0 < n <= |s|
  {
    if IsBreak(s[0]) then (if s[0] == '\r' && |s| > 1 && s[1] == '\n' then 2 else 1)
    else if |s| == 1 then 1
    else 1 + LineLength(s[1..])
  }

  /** splitlines(keepends=True) */
  function SplitLines(s: string): seq<string>
    decreases |s|
  {
    if s == "" then [] else [s[..LineLength(s)]] + SplitLines(s[LineLength(s)..])
  }

  function Concat(lines: seq<string>): string {
    if lines == [] then "" else lines[0] + Concat(lines[1..])
  }

  /** Splitting keeps every character. */
  lemma {:induction false} ConcatSplit(s: string)
    ensures Concat(SplitLines(s)) == s
    decreases |s|
  {
    if s != "" {
      ConcatSplit(s[LineLength(s)..]);
    }
  }

  lemma {:induction false} LineThenRest(x: string, rest: string)
    requires NoBreak(x)
    ensures SplitLines(x + "\n" + rest) == [x + "\n"] + SplitLines(rest)
    decreases |x|
  {
    LengthOfLine(x, rest);
    var s := x + "\n" + rest;
    assert s[..|x| + 1] == x + "\n" && s[|x| + 1..] == rest;
  }

  lemma {:induction false} LengthOfLine(x: string, rest: string)
    requires NoBreak(x)
    ensures LineLength(x + "\n" + rest) == |x| + 1
    decreases |x|
  {
    var s := x + "\n" + rest;
    if x != "" {
      assert s[0] == x[0] && s[1..] == x[1..] + "\n" + rest;
      LengthOfLine(x[1..], rest);
    } else {
      assert s[0] == '\n';
    }
  }

  /** What splits a text in two lines: the line ends of ASCII and Unicode. */
  lemma SplitsExactly(c: char)
    ensures |SplitLines([c] + "x")| ==
      if c as int in {10, 11, 12, 13, 28, 29, 30, 0x85, 0x2028, 0x2029} then 2 else 1
  {
    var s := [c] + "x";
    assert s[0] == c && s[1] == 'x' && s[1..] == "x" && s[2..] == "";
    assert SplitLines("") == [] && LineLength("x") == 1;
    assert "x"[..1] == "x" && "x"[1..] == "";
    assert SplitLines("x") == ["x"];
    assert LineLength(s) == if IsBreak(c) then 1 else 2;
  }

  // ---- Parsing ----

  const SEPARATOR := "---"

  datatype Candidate = Candidate(title: Option<string>, url: Option<string>, published: Option<string>,
                                 body: Option<string>, canonical: Option<string>)

  /** Raised: the ValueError of the URL's canonicalisation, which the parser does not catch. */
  datatype Parsed = Parsed(candidate: Candidate) | Raised

  /** _clean of a string */
  function Clean(s: string): Option<string> {
    if Strip(s) == "" then None else Some(Strip(s))
  }

  function ColonAt(s: string): (n: nat)
    ensures n <= |s| && (n < |s| ==> s[n] == ':') && forall i :: 0 <= i < n ==> s[i] != ':'
  {
    if s == "" || s[0] == ':' then 0 else 1 + ColonAt(s[1..])
  }

  /** The header's keys and values; a line without a colon is passed over, a later line wins. */
  function Headers(lower: string -> string, lines: seq<string>): map<string, string> {
    if lines == [] then map[]
    else
      var line := lines[|lines| - 1];
      var before := Headers(lower, lines[..|lines| - 1]);
      var n := ColonAt(line);
      if n < |line| then before[lower(Strip(line[..n])) := Strip(line[n + 1..])] else before
  }

  /** The place of the first line that is a separator once stripped; the number of lines if there is none. */
  function SeparatorAt(lines: seq<string>): (n: nat)
    ensures n <= |lines| && (n < |lines| ==> Strip(lines[n]) == SEPARATOR)
    ensures forall i :: 0 <= i < n ==> Strip(lines[i]) != SEPARATOR
  {
    if lines == [] || Strip(lines[0]) == SEPARATOR then 0 else 1 + SeparatorAt(lines[1..])
  }

  predicate IsHeader(h: map<string, string>) {
    "title" in h || "source_url" in h || "published_at" in h
  }

  function Field(h: map<string, string>, key: string): Option<string> {
    if key in h then Clean(h[key]) else None
  }

  /** The URL a candidate is made with, "" if there is none, is inside the model of canonicalisation. */
  predicate UrlIsModelled(text: Text, h: map<string, string>) {
    "source_url" in h ==> IsModelled(text, h["source_url"], None)
  }

  /** canonicalize_url of an optional URL, without a resolver. */
  function CanonicalOf(text: Text, h: map<string, string>): Outcome
    requires UrlIsModelled(text, h)
  {
    if "source_url" in h then Canonicalize(text, h["source_url"], None) else NotCanonical
  }

  /** _make_candidate from the header's values, given what canonicalising the URL comes to. */
  function MakeCandidate(canonical: Outcome, h: map<string, string>, body: string): Parsed {
    var title, url, published := Field(h, "title"), Field(h, "source_url"), Field(h, "published_at");
    match canonical
    case Raises => Raised
    case NotCanonical => Parsed(Candidate(title, url, published, Clean(body), None))
    case Canonical(u) => Parsed(Candidate(title, url, published, Clean(body), Some(u)))
  }

  /** The header's values, none if the artifact has no header. */
  function HeaderIn(lower: string -> string, artifact: string): map<string, string> {
    var lines := SplitLines(artifact);
    var n := SeparatorAt(lines);
    if n < |lines| && IsHeader(Headers(lower, lines[..n])) then Headers(lower, lines[..n]) else map[]
  }

  function BodyIn(lower: string -> string, artifact: string): string {
    var lines := SplitLines(artifact);
    if HeaderIn(lower, artifact) != map[] then Concat(lines[SeparatorAt(lines) + 1..]) else artifact
  }

  function Parse(text: Text, artifact: string): Parsed
    requires UrlIsModelled(text, HeaderIn(text.lower, artifact))
  {
    var h := HeaderIn(text.lower, artifact);
    MakeCandidate(CanonicalOf(text, h), h, BodyIn(text.lower, artifact))
  }

  method ReadHeaders(lower: string -> string, lines: seq<string>) returns (parsed: map<string, string>)
    ensures parsed == Headers(lower, lines)
  {
    parsed := map[];
    for i := 0 to |lines|
      invariant parsed == Headers(lower, lines[..i])
    {
      assert lines[..i + 1][..i] == lines[..i];
      var colon := ColonAt(lines[i]);
      if colon < |lines[i]| {
        parsed := parsed[lower(Strip(lines[i][..colon])) := Strip(lines[i][colon + 1..])];
      }
    }
    assert lines[..|lines|] == lines;
  }

  method ParseExtractedText(text: Text, artifact: string) returns (result: Parsed)
    requires UrlIsModelled(text, HeaderIn(text.lower, artifact))
    ensures result == Parse(text, artifact)
  {
    var header: map<string, string> := map[];
    var body := artifact;
    var lines := SplitLines(artifact);
    var n := SeparatorAt(lines);
    if n < |lines| {
      var parsed := ReadHeaders(text.lower, lines[..n]);
      if IsHeader(parsed) {
        header := parsed;
        body := Concat(lines[n + 1..]);
      }
    }
    result := MakeCandidate(CanonicalOf(text, header), header, body);
  }

  // ---- Printing ----

  datatype Fields = Fields(title: string, published: string, url: string, quality: string, body: string)

  datatype Header = Header(key: string, value: string)

  function HeadersOf(f: Fields, strategy: string): seq<Header> {
    [Header("title", f.title), Header("published_at", f.published), Header("source_url", f.url),
     Header("selected_strategy", strategy), Header("quality_score", f.quality)]
  }

  function LineOf(h: Header): string {
    h.key + ": " + h.value
  }

  function LinesOf(hs: seq<Header>): seq<string> {
    if hs == [] then [] else [LineOf(hs[0])] + LinesOf(hs[1..])
  }

  function Print(f: Fields, strategy: string): string {
    JoinWith(LinesOf(HeadersOf(f, strategy)) + [SEPARATOR], '\n') + "\n" + f.body
  }

  // ---- Round trip ----

  predicate IsPlainKey(key: string) {
    NoBreak(key) && key != "" && key[0] != '-' && forall i :: 0 <= i < |key| ==> key[i] != ':' && !IsSpace(key[i])
  }

  /** A header line that reads back: one line, its key plain and not empty. */
  ghost predicate IsPlainHeader(h: Header) {
    IsPlainKey(h.key) && NoBreak(h.value)
  }

  function Ended(lines: seq<string>): (r: seq<string>)
    ensures |r| == |lines| && forall i :: 0 <= i < |r| ==> r[i] == lines[i] + "\n"
  {
    if lines == [] then [] else [lines[0] + "\n"] + Ended(lines[1..])
  }

  lemma {:induction false} EndedComeApart(lines: seq<string>, rest: string)
    requires forall i :: 0 <= i < |lines| ==> NoBreak(lines[i])
    ensures SplitLines(Concat(Ended(lines)) + rest) == Ended(lines) + SplitLines(rest)
    decreases |lines|
  {
    if lines == [] {
      assert "" + rest == rest;
    } else {
      EndedComeApart(lines[1..], rest);
      OneMoreLine(lines[0], Ended(lines[1..]), rest);
    }
  }

  lemma OneMoreLine(x: string, more: seq<string>, rest: string)
    requires NoBreak(x) && SplitLines(Concat(more) + rest) == more + SplitLines(rest)
    ensures SplitLines(Concat([x + "\n"] + more) + rest) == [x + "\n"] + more + SplitLines(rest)
  {
    var first := x + "\n";
    LineThenRest(x, Concat(more) + rest);
    assert ([first] + more)[1..] == more;
    assert first + Concat(more) + rest == first + (Concat(more) + rest);
    assert [first] + more + SplitLines(rest) == [first] + (more + SplitLines(rest));
  }

  lemma {:induction false} JoinedIsEnded(lines: seq<string>)
    requires lines != []
    ensures JoinWith(lines, '\n') + "\n" == Concat(Ended(lines))
    decreases |lines|
  {
    if |lines| > 1 {
      JoinedIsEnded(lines[1..]);
    } else {
      assert Ended(lines) == [lines[0] + "\n"] && Ended(lines)[1..] == [];
    }
  }

  /** Lines without breaks, joined, come apart again in front of anything. */
  lemma JoinedComeApart(lines: seq<string>, rest: string)
    requires lines != [] && forall i :: 0 <= i < |lines| ==> NoBreak(lines[i])
    ensures SplitLines(JoinWith(lines, '\n') + "\n" + rest) == Ended(lines) + SplitLines(rest)
  {
    JoinedIsEnded(lines);
    EndedComeApart(lines, rest);
  }

  lemma ColonOf(key: string, rest: string)
    requires forall i :: 0 <= i < |key| ==> key[i] != ':'
    ensures ColonAt(key + ":" + rest) == |key|
  {
    var s := key + ":" + rest;
    assert s[|key|] == ':';
    assert forall i :: 0 <= i < |key| ==> s[i] == key[i];
  }

  /** What the parser reads in a header line. */
  lemma HeaderReads(h: Header)
    requires IsPlainHeader(h)
    ensures var line := LineOf(h) + "\n"; var n := ColonAt(line);
      n < |line| && Strip(line[..n]) == h.key && Strip(line[n + 1..]) == Strip(h.value) && Strip(line) != SEPARATOR
  {
    var line := LineOf(h) + "\n";
    var rest := " " + h.value + "\n";
    assert line == h.key + ":" + rest;
    ColonOf(h.key, rest);
    assert line[..|h.key|] == h.key && line[|h.key| + 1..] == rest;
    SolidStrips(h.key);
    assert rest == [' '] + (h.value + ['\n']);
    StripOne(' ', h.value + ['\n']);
    StripEnd(h.value, '\n');
    assert line[0] == h.key[0];
    StripRightSolid(line);
  }

  /** The keys and values of header lines, a later one winning. */
  function Values(hs: seq<Header>): map<string, string> {
    if hs == [] then map[] else Values(hs[..|hs| - 1])[hs[|hs| - 1].key := Strip(hs[|hs| - 1].value)]
  }

  ghost predicate KeepsKeys(lower: string -> string, hs: seq<Header>) {
    forall i :: 0 <= i < |hs| ==> IsPlainHeader(hs[i]) && lower(hs[i].key) == hs[i].key
  }

  lemma {:induction false} LinesOfAt(hs: seq<Header>)
    ensures |LinesOf(hs)| == |hs| && forall i :: 0 <= i < |hs| ==> LinesOf(hs)[i] == LineOf(hs[i])
    decreases |hs|
  {
    if hs != [] { LinesOfAt(hs[1..]); }
  }

  lemma {:induction false} HeadersRead(lower: string -> string, hs: seq<Header>, lines: seq<string>)
    requires KeepsKeys(lower, hs) && |lines| == |hs| && forall i :: 0 <= i < |hs| ==> lines[i] == LineOf(hs[i]) + "\n"
    ensures Headers(lower, lines) == Values(hs)
    decreases |hs|
  {
    if hs != [] {
      var n := |hs| - 1;
      HeadersRead(lower, hs[..n], lines[..n]);
      HeaderReads(hs[n]);
    }
  }

  lemma SeparatorFound(lines: seq<string>, n: nat)
    requires n < |lines| && Strip(lines[n]) == SEPARATOR && forall i :: 0 <= i < n ==> Strip(lines[i]) != SEPARATOR
    ensures SeparatorAt(lines) == n
  {
  }

  lemma SeparatorLine()
    ensures NoBreak(SEPARATOR) && Strip(SEPARATOR + "\n") == SEPARATOR
  {
    StripEnd("---", '\n');
    SolidStrips("---");
  }

  /** Any headers in front of a separator and any body come back as they went in. */
  lemma PrintedReads(lower: string -> string, hs: seq<Header>, body: string)
    requires KeepsKeys(lower, hs)
    ensures var lines := SplitLines(JoinWith(LinesOf(hs) + [SEPARATOR], '\n') + "\n" + body);
      && SeparatorAt(lines) == |hs| < |lines|
      && Headers(lower, lines[..|hs|]) == Values(hs)
      && Concat(lines[|hs| + 1..]) == body
  {
    var printed := LinesOf(hs) + [SEPARATOR];
    LinesOfAt(hs);
    SeparatorLine();
    forall i | 0 <= i < |printed| ensures NoBreak(printed[i]) {
      if i < |hs| { LineHasNoBreak(hs[i]); }
    }
    JoinedComeApart(printed, body);
    var lines := SplitLines(JoinWith(printed, '\n') + "\n" + body);
    assert lines == Ended(printed) + SplitLines(body);
    forall i | 0 <= i < |hs| ensures lines[i] == LineOf(hs[i]) + "\n" && Strip(lines[i]) != SEPARATOR {
      HeaderReads(hs[i]);
    }
    assert lines[|hs|] == SEPARATOR + "\n";
    SeparatorFound(lines, |hs|);
    HeadersRead(lower, hs, lines[..|hs|]);
    assert lines[|hs| + 1..] == SplitLines(body);
    ConcatSplit(body);
  }

  lemma LineHasNoBreak(h: Header)
    requires IsPlainHeader(h)
    ensures NoBreak(LineOf(h))
  {
  }

  /** Headers with one of the expected keys in front of a separator, and any body: what the parser takes from them. */
  lemma HeaderAndBodyRead(lower: string -> string, hs: seq<Header>, body: string)
    requires KeepsKeys(lower, hs) && IsHeader(Values(hs))
    ensures var artifact := JoinWith(LinesOf(hs) + [SEPARATOR], '\n') + "\n" + body;
      HeaderIn(lower, artifact) == Values(hs) && BodyIn(lower, artifact) == body
  {
    PrintedReads(lower, hs, body);
  }

  /** The stripped URL has an http scheme and a host but a port that cannot be read. */
  predicate HasUnreadablePort(url: string) {
    var p := SplitUrl(Strip(url));
    p.scheme in {"http", "https"} && HostOf(p) != "" && !IsPortNumber(PortOf(p))
  }

  /** Canonicalising raises for exactly these URLs. */
  lemma RaisesIff(text: Text, url: string)
    requires IsModelled(text, url, None)
    ensures Canonicalize(text, url, None) == Raises <==> HasUnreadablePort(url)
  {
    NoSchemeInNothing();
    NormalizeRaisesIff(text, Strip(url));
  }

  lemma NoSchemeInNothing()
    ensures SplitUrl("").scheme == ""
  {
  }

  lemma NormalizeRaisesIff(text: Text, raw: string)
    requires IsPlain(raw)
    ensures var p := SplitUrl(raw);
      Normalize(text, raw) == Raises <==> p.scheme in {"http", "https"} && HostOf(p) != "" && !IsPortNumber(PortOf(p))
  {
  }

  /** What the parser should give back for printed fields: each stripped, the blank ones missing. */
  function Returned(canonical: Outcome, f: Fields): Candidate {
    Candidate(Clean(f.title), Clean(f.url), Clean(f.published), Clean(f.body),
              if canonical.Canonical? then Some(canonical.url) else None)
  }

  /** A header that holds the three fields, stripped. */
  predicate Holds(h: map<string, string>, f: Fields) {
    && "title" in h && h["title"] == Strip(f.title) && "source_url" in h && h["source_url"] == Strip(f.url)
    && "published_at" in h && h["published_at"] == Strip(f.published)
  }

  ghost predicate IsPrintable(lower: string -> string, f: Fields, strategy: string) {
    && NoBreak(f.title) && NoBreak(f.published) && NoBreak(f.url) && NoBreak(strategy) && NoBreak(f.quality)
    && forall h :: h in HeadersOf(f, strategy) ==> lower(h.key) == h.key
  }

  /** Parsing what was printed gives back title, URL, time and body, for any body at all and any header values of
      one line, exactly unless the URL's port cannot be read: then the parser raises and gives back nothing. */
  lemma RoundTrip(text: Text, f: Fields, strategy: string)
    requires IsPrintable(text.lower, f, strategy) && IsModelled(text, f.url, None)
    ensures UrlIsModelled(text, HeaderIn(text.lower, Print(f, strategy)))
    ensures var canonical := Canonicalize(text, f.url, None);
      Parse(text, Print(f, strategy)) == Parsed(Returned(canonical, f)) <==> !HasUnreadablePort(f.url)
    ensures Parse(text, Print(f, strategy)) == Raised <==> HasUnreadablePort(f.url)
  {
    PrintedHolds(text.lower, f, strategy);
    ParsedFrom(text, f, Print(f, strategy));
  }

  lemma PrintedHolds(lower: string -> string, f: Fields, strategy: string)
    requires IsPrintable(lower, f, strategy)
    ensures Holds(HeaderIn(lower, Print(f, strategy)), f) && BodyIn(lower, Print(f, strategy)) == f.body
  {
    HeadersArePlain(f, strategy);
    ValuesOf(f, strategy);
    HeaderAndBodyRead(lower, HeadersOf(f, strategy), f.body);
  }

  lemma ParsedFrom(text: Text, f: Fields, artifact: string)
    requires Holds(HeaderIn(text.lower, artifact), f) && BodyIn(text.lower, artifact) == f.body
    requires IsModelled(text, f.url, None)
    ensures UrlIsModelled(text, HeaderIn(text.lower, artifact))
    ensures var canonical := Canonicalize(text, f.url, None);
      Parse(text, artifact) == Parsed(Returned(canonical, f)) <==> !HasUnreadablePort(f.url)
    ensures Parse(text, artifact) == Raised <==> HasUnreadablePort(f.url)
  {
    var h := HeaderIn(text.lower, artifact);
    UrlReads(text, h, f.url);
    RaisesIff(text, f.url);
    ValuesRead(Canonicalize(text, f.url, None), f, h);
  }

  /** The stripped URL canonicalises as the URL does. */
  lemma UrlReads(text: Text, h: map<string, string>, url: string)
    requires IsModelled(text, url, None) && "source_url" in h && h["source_url"] == Strip(url)
    ensures UrlIsModelled(text, h) && CanonicalOf(text, h) == Canonicalize(text, url, None)
  {
    StripAgain(url);
  }

  lemma ValuesRead(canonical: Outcome, f: Fields, h: map<string, string>)
    requires Holds(h, f)
    ensures MakeCandidate(canonical, h, f.body) == if canonical.Raises? then Raised else Parsed(Returned(canonical, f))
  {
    FieldReads(h, "title", f.title);
    FieldReads(h, "source_url", f.url);
    FieldReads(h, "published_at", f.published);
  }

  lemma FieldReads(v: map<string, string>, key: string, value: string)
    requires key in v && v[key] == Strip(value)
    ensures Field(v, key) == Clean(value)
  {
    StripAgain(value);
  }

  /** Such a URL loses the whole article: title, time and body are gone with it. */
  lemma UnreadablePortLosesTheArticle(text: Text, f: Fields, strategy: string, host: string, port: string)
    requires IsPrintable(text.lower, f, strategy)
    requires IsHostText(host) && host != "" && IsHostText(port) && port != "" && !IsPortNumber(port)
    requires f.url == PortUrl(host, port)
    ensures UrlIsModelled(text, HeaderIn(text.lower, Print(f, strategy)))
    ensures Parse(text, Print(f, strategy)) == Raised
  {
    PortUrlIsUnreadable(text, host, port);
    RoundTrip(text, f, strategy);
  }

  predicate IsHostText(s: string) {
    AllAuthority(s) && forall i :: 0 <= i < |s| ==> s[i] != '@' && s[i] != ':' && !IsSpace(s[i])
  }

  function PortUrl(host: string, port: string): string {
    "http://" + (host + ":" + port)
  }

  lemma PortUrlIsUnreadable(text: Text, host: string, port: string)
    requires IsHostText(host) && host != "" && IsHostText(port) && !IsPortNumber(port)
    ensures var url := PortUrl(host, port); IsModelled(text, url, None) && HasUnreadablePort(url)
  {
    var url := PortUrl(host, port);
    PortUrlIsSolid(host, port);
    PortUrlSplits(host, port);
    PartsAreUnreadable(SplitUrl(url), host, port);
    UnreadableParts(text, url);
  }

  lemma UnreadableParts(text: Text, url: string)
    requires Strip(url) == url && SplitUrl(url).scheme == "http" && AllAuthority(SplitUrl(url).netloc)
    requires HostOf(SplitUrl(url)) != "" && !IsPortNumber(PortOf(SplitUrl(url)))
    ensures IsModelled(text, url, None) && HasUnreadablePort(url)
  {
    NormalizeRaisesIff(text, url);
  }

  lemma PartsAreUnreadable(p: Parts, host: string, port: string)
    requires IsHostText(host) && host != "" && IsHostText(port) && !IsPortNumber(port)
    requires p == Parts("http", host + ":" + port, "", "")
    ensures HostOf(p) != "" && !IsPortNumber(PortOf(p))
  {
    HostAndPort(host, port);
  }

  lemma PortUrlIsSolid(host: string, port: string)
    requires IsHostText(host) && IsHostText(port)
    ensures Strip(PortUrl(host, port)) == PortUrl(host, port)
  {
    SolidStrips(PortUrl(host, port));
  }

  lemma PortUrlSplits(host: string, port: string)
    requires IsHostText(host) && IsHostText(port)
    ensures SplitUrl(PortUrl(host, port)) == Parts("http", host + ":" + port, "", "")
    ensures AllAuthority(host + ":" + port)
  {
    AuthorityOfSum(host, port);
    NetlocAlone(host + ":" + port);
  }

  lemma AuthorityOfSum(host: string, port: string)
    requires AllAuthority(host) && AllAuthority(port)
    ensures AllAuthority(host + ":" + port)
  {
    assert AuthorityChar(':');
  }

  lemma NetlocAlone(netloc: string)
    requires AllAuthority(netloc)
    ensures SplitUrl("http://" + netloc) == Parts("http", netloc, "", "")
  {
    var p := Parts("http", netloc, "", "");
    AssembledAlone(p);
    SplitAssembled(p);
  }

  lemma AssembledAlone(p: Parts)
    requires p.scheme == "http" && AllAuthority(p.netloc) && p.path == "" && p.query == ""
    ensures CanAssemble(p) && Assemble(p) == "http://" + p.netloc
  {
    assert p.scheme + "://" == "http://";
    assert Assemble(p) == "http://" + p.netloc + "" + "";
  }

  lemma HostAndPort(host: string, port: string)
    requires IsHostText(host) && IsHostText(port)
    ensures HostInfo(host + ":" + port) == host + ":" + port
    ensures Before(host + ":" + port, ':') == host && After(host + ":" + port, ':') == port
  {
    var info := host + [':'] + port;
    assert '@' !in info;
    SplitsAtUser("", info);
    assert "" + info == info;
    CutAt(host, ':', port);
  }

  /** One of them is "http://h:99999". */
  lemma BigPortLosesTheArticle(text: Text, f: Fields, strategy: string)
    requires IsPrintable(text.lower, f, strategy)
    requires f.url == "http://h:99999"
    ensures UrlIsModelled(text, HeaderIn(text.lower, Print(f, strategy)))
    ensures Parse(text, Print(f, strategy)) == Raised
  {
    NinesAreTooMany();
    assert PortUrl("h", "99999") == "http://h:99999";
    UnreadablePortLosesTheArticle(text, f, strategy, "h", "99999");
  }

  lemma NinesAreTooMany()
    ensures !IsPortNumber("99999")
  {
    assert "99999"[..4] == "9999" && "9999"[..3] == "999" && "999"[..2] == "99" && "99"[..1] == "9" && "9"[..0] == "";
    assert Value("9") == 9;
    assert Value("99") == 99;
    assert Value("999") == 999;
    assert Value("9999") == 9999;
  }

  lemma KeysArePlain()
    ensures IsPlainKey("title") && IsPlainKey("published_at") && IsPlainKey("source_url")
    ensures IsPlainKey("selected_strategy") && IsPlainKey("quality_score")
  {
    LettersArePlain("title");
    LettersArePlain("published_at");
    LettersArePlain("source_url");
    LettersArePlain("selected_strategy");
    LettersArePlain("quality_score");
  }

  lemma LettersArePlain(key: string)
    requires key != "" && forall i :: 0 <= i < |key| ==> 'a' <= key[i] <= 'z' || key[i] == '_'
    ensures IsPlainKey(key)
  {
  }

  lemma HeadersArePlain(f: Fields, strategy: string)
    requires NoBreak(f.title) && NoBreak(f.published) && NoBreak(f.url) && NoBreak(strategy) && NoBreak(f.quality)
    ensures forall i :: 0 <= i < 5 ==> IsPlainHeader(HeadersOf(f, strategy)[i])
  {
    KeysArePlain();
    PlainPair("title", f.title);
    PlainPair("published_at", f.published);
    PlainPair("source_url", f.url);
    PlainPair("selected_strategy", strategy);
    PlainPair("quality_score", f.quality);
  }

  lemma PlainPair(key: string, value: string)
    requires IsPlainKey(key) && NoBreak(value)
    ensures IsPlainHeader(Header(key, value))
  {
  }

  lemma {:induction false} ValueAt(hs: seq<Header>, i: nat)
    requires i < |hs| && forall j :: i < j < |hs| ==> hs[j].key != hs[i].key
    ensures hs[i].key in Values(hs) && Values(hs)[hs[i].key] == Strip(hs[i].value)
    decreases |hs|
  {
    if i < |hs| - 1 {
      ValueAt(hs[..|hs| - 1], i);
    }
  }

  lemma ValuesOf(f: Fields, strategy: string)
    ensures Holds(Values(HeadersOf(f, strategy)), f)
  {
    var hs := HeadersOf(f, strategy);
    assert |"title"| == 5 && |"published_at"| == 12 && |"source_url"| == 10 && |"selected_strategy"| == 17
      && |"quality_score"| == 13;
    ValueAt(hs, 0);
    ValueAt(hs, 1);
    ValueAt(hs, 2);
  }

  /** A value of more than one line is not safe: a title that ends in a separator line ends the header,
      and URL and time are lost into the body. */
  lemma TitleCanEndTheHeader(text: Text, f: Fields, strategy: string, x: string)
    requires NoBreak(x) && text.lower("title") == "title" && f.title == x + "\n" + SEPARATOR
    ensures UrlIsModelled(text, HeaderIn(text.lower, Print(f, strategy)))
    ensures var c := Parse(text, Print(f, strategy));
      c.Parsed? && c.candidate.title == Clean(x) && c.candidate.url == None && c.candidate.published == None
  {
    var hs := [Header("title", x)];
    var rest := JoinWith(LinesOf(HeadersOf(f, strategy)[1..]) + [SEPARATOR], '\n') + "\n" + f.body;
    KeysArePlain();
    PlainPair("title", x);
    ValueAt(hs, 0);
    TitleAlone(x);
    HeaderAndBodyRead(text.lower, hs, rest);
    TextOfBroken(f, strategy, x);
    StripAgain(x);
  }

  lemma TitleAlone(x: string)
    ensures Values([Header("title", x)]) == map["title" := Strip(x)]
  {
    var hs := [Header("title", x)];
    assert hs[..0] == [] && Values(hs[..0]) == map[];
  }

  lemma TextOfBroken(f: Fields, strategy: string, x: string)
    requires f.title == x + "\n" + SEPARATOR
    ensures Print(f, strategy) == JoinWith(LinesOf([Header("title", x)]) + [SEPARATOR], '\n') + "\n"
      + (JoinWith(LinesOf(HeadersOf(f, strategy)[1..]) + [SEPARATOR], '\n') + "\n" + f.body)
  {
    var all := LinesOf(HeadersOf(f, strategy)) + [SEPARATOR];
    var tail := LinesOf(HeadersOf(f, strategy)[1..]) + [SEPARATOR];
    assert all == [LineOf(Header("title", f.title))] + tail;
    assert JoinWith(all, '\n') == LineOf(Header("title", f.title)) + "\n" + JoinWith(tail, '\n');
    assert LinesOf([Header("title", x)]) + [SEPARATOR] == [LineOf(Header("title", x)), SEPARATOR];
  }
}
