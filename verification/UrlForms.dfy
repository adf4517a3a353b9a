/** What a canonical URL looks like, said on the URL and its form (canonical_url.py). */
module UrlForms {
  import opened Options
  import opened Texts
  import opened PercentCodec
  import opened Sorting
  import opened CanonicalUrls
  import opened CanonicalUrlTheorems
  import opened UrlSpellings

  // ---- The port, the path ----

  /** No port for an empty or usual one, otherwise its number without leading zeros. */
  predicate PortKept(scheme: string, port: string, form: string)
    requires port == "" || IsDigits(port)
  {
    if port == "" || IsUsualPort(scheme, Value(port)) then form == ""
    else IsDigits(form) && Value(form) == Value(port) && (|form| > 1 ==> form[0] != '0')
  }

  /** The path up to its trailing slashes; the root path stays. */
  predicate PathKept(path: string, form: string) {
    if path == "/" then form == "/"
    else
      && form <= path && (forall i :: |form| <= i < |path| ==> path[i] == '/')
      && (form != "" ==> form[|form| - 1] != '/')
  }

  lemma {:induction false} DecimalStart(n: nat)
    ensures |Decimal(n)| > 1 ==> Decimal(n)[0] != '0'
    decreases n
  {
    if n >= 10 {
      DecimalStart(n / 10);
      assert Decimal(n)[0] == Decimal(n / 10)[0];
    }
  }

  lemma SuffixIsKept(scheme: string, host: string, port: string)
    requires PortOk(port) && ':' !in host && scheme in {"http", "https"}
    ensures PortKept(scheme, port, After(host + PortSuffix(scheme, port), ':'))
  {
    assert Lower("http") == "http" && Lower("https") == "https";
    HttpSchemeIff(scheme);
    if port != "" { UsualPortIff(scheme, Value(port)); }
    if PortSuffix(scheme, port) == "" {
      assert host + PortSuffix(scheme, port) == host;
      NothingToCut(host, ':');
    } else {
      var digits := Decimal(Value(port));
      assert host + PortSuffix(scheme, port) == host + [':'] + digits;
      CutAt(host, ':', digits);
      DecimalValue(Value(port));
      DecimalStart(Value(port));
    }
  }

  lemma {:induction false} TrimmedIsKept(path: string)
    ensures var t := TrimSlashes(path);
      && t <= path && (forall i :: |t| <= i < |path| ==> path[i] == '/') && (t != "" ==> t[|t| - 1] != '/')
    decreases |path|
  {
    if path != "" && path[|path| - 1] == '/' {
      TrimmedIsKept(path[..|path| - 1]);
    }
  }

  lemma PathIsKept(path: string)
    ensures PathKept(path, NormalPath(path))
  {
    TrimmedIsKept(path);
  }

  // ---- The parameters ----

  /** The names of click and campaign trackers, but for those that begin with "utm_". */
  const TRACKERS := [
    "gclid", "fbclid", "igshid", "mc_eid", "mc_cid", "ref", "ref_src", "spm", "cmpid", "ncid",
    "_hsenc", "_hsmi", "vero_id", "mkt_tok", "yclid", "dclid", "gclsrc", "wt_mc", "s_cid"]

  predicate Tracks(text: Text, name: string) {
    text.lower(name) in TRACKERS || StartsWith(text.lower(name), "utm_")
  }

  lemma TracksIff(text: Text, name: string)
    ensures Tracks(text, name) <==> IsTracking(text, name)
  {
    TrackersAre(text.lower(name));
  }

  lemma TrackersAre(name: string)
    ensures name in TRACKERS <==> name in TRACKING_EXACT
  {
  }

  predicate ParamsInOrder(p: Param, q: Param) {
    if p.0 == q.0 then InDictionaryOrder(p.1, q.1) else InDictionaryOrder(p.0, q.0)
  }

  /** The parameters that track nothing, each as often as in the query, by name and then by value. */
  ghost predicate ParamsKept(text: Text, query: string, form: string) {
    var ps, fs := ParseQuery(text.enc, query), ParseQuery(text.enc, form);
    && form == UrlEncode(text.enc, fs)
    && (forall p: Param :: multiset(fs)[p] == if Tracks(text, p.0) then 0 else multiset(ps)[p])
    && (forall i, j :: 0 <= i < j < |fs| ==> ParamsInOrder(fs[i], fs[j]))
  }

  lemma {:induction false} KeptCounts(text: Text, ps: seq<Param>, p: Param)
    ensures multiset(Kept(text, ps))[p] == if IsTracking(text, p.0) then 0 else multiset(ps)[p]
    decreases |ps|
  {
    if ps != [] {
      KeptCounts(text, ps[1..], p);
      assert ps == [ps[0]] + ps[1..];
    }
  }

  lemma OrderedParams(fs: seq<Param>, i: nat, j: nat)
    requires Sorted(ParamLe, fs) && i < j < |fs|
    ensures ParamsInOrder(fs[i], fs[j])
  {
    TextLeIff(fs[i].0, fs[j].0);
    TextLeIff(fs[i].1, fs[j].1);
  }

  lemma ParamsAreKept(text: Text, query: string)
    requires Lawful(text.enc)
    ensures ParamsKept(text, query, UrlEncode(text.enc, NormalParams(text, query)))
  {
    var ps, fs := ParseQuery(text.enc, query), NormalParams(text, query);
    QueryRoundTrip(text.enc, fs);
    ParamLeIsTotalOrder();
    SortSorts(ParamLe, Kept(text, ps));
    forall p: Param ensures multiset(fs)[p] == if Tracks(text, p.0) then 0 else multiset(ps)[p] {
      TracksIff(text, p.0);
      KeptCounts(text, ps, p);
    }
    forall i, j | 0 <= i < j < |fs| ensures ParamsInOrder(fs[i], fs[j]) {
      OrderedParams(fs, i, j);
    }
  }

  // ---- The whole form ----

  /** q are the parts of the form of a URL with the parts p. */
  ghost predicate IsFormOf(text: Text, p: Parts, q: Parts) {
    && p.scheme in {"http", "https"} && HostOf(p) != "" && IsPortNumber(PortOf(p))
    && q.scheme == p.scheme && UserPrefix(q.netloc) == UserPrefix(p.netloc)
    && SameButCase(HostOf(q), HostOf(p)) && NoCapitals(HostOf(q))
    && PortKept(p.scheme, PortOf(p), PortOf(q))
    && PathKept(p.path, q.path) && ParamsKept(text, p.query, q.query)
  }

  lemma NormalPartsAreForm(text: Text, p: Parts)
    requires Lawful(text.enc) && IsCanonicalizable(p)
    ensures IsFormOf(text, p, NormalParts(text, p))
  {
    var q := NormalParts(text, p);
    NormalAuthority(p, q);
    NormalInfo(p);
    SuffixIsKept(p.scheme, Lower(HostOf(p)), PortOf(p));
    PathIsKept(p.path);
    ParamsAreKept(text, p.query);
  }

  /** The form of a URL: http or https in small letters, the user as it was, the host without capitals, the port if it
      is not the usual one, the path without trailing slashes, the parameters that track nothing in order, and no
      fragment. */
  lemma FormOf(text: Text, url: string, u: string)
    requires Lawful(text.enc) && IsPlain(url) && Normalize(text, url) == Canonical(u)
    ensures IsFormOf(text, SplitUrl(url), SplitUrl(u)) && '#' !in u
    ensures StartsWith(u, "http://") || StartsWith(u, "https://")
  {
    var p := SplitUrl(url);
    var q := NormalParts(text, p);
    NormalizeAssembles(text, url);
    NormalPartsAssemble(text, url);
    SplitAssembled(q);
    NormalPartsAreForm(text, p);
    AssembledStart(q);
  }

  lemma AssembledStart(q: Parts)
    requires CanAssemble(q)
    ensures StartsWith(Assemble(q), "http://") || StartsWith(Assemble(q), "https://")
    ensures '#' !in Assemble(q)
  {
    var rest := q.netloc + q.path + if q.query != "" then "?" + q.query else "";
    assert Assemble(q) == (q.scheme + "://") + rest;
    assert '#' !in q.netloc by { assert forall i :: 0 <= i < |q.netloc| ==> !NetlocStop(q.netloc[i]); }
  }

  /** Which URLs have a form at all. */
  lemma HasFormIff(text: Text, url: string)
    requires IsPlain(url)
    ensures var p := SplitUrl(url);
      && (Normalize(text, url).NotCanonical? <==> (p.scheme != "http" && p.scheme != "https") || HostOf(p) == "")
      && (Normalize(text, url).Canonical? <==>
            (p.scheme == "http" || p.scheme == "https") && HostOf(p) != "" && IsPortNumber(PortOf(p)))
  {
    OutcomeOfParts(text, SplitUrl(url));
  }

  /** Nothing, or digits of a number that fits into sixteen bits. */
  predicate IsPortNumber(port: string) {
    port == "" || (IsDigits(port) && Value(port) < 65536)
  }

  lemma OutcomeOfParts(text: Text, p: Parts)
    ensures NormalizeParts(text, p).NotCanonical? <==> p.scheme !in {"http", "https"} || HostOf(p) == ""
    ensures NormalizeParts(text, p).Canonical? <==> IsCanonicalizable(p)
  {
  }

  // ---- The resolver ----

  /** What the resolver answers for a form, "" if there is none or it raises. */
  function Answer(resolver: Option<Resolver>, form: string): string {
    if resolver.Some? && resolver.value(form).Some? then resolver.value(form).value else ""
  }

  /** The form of the resolver's answer, if that has one or raises; otherwise, also if the resolver raised,
      the form of the URL itself. */
  lemma ResolverDecides(text: Text, url: string, resolver: Option<Resolver>, form: string)
    requires Lawful(text.enc) && IsModelled(text, url, resolver) && Normalize(text, Strip(url)) == Canonical(form)
    ensures Answer(resolver, form) != "" ==> IsPlain(Answer(resolver, form))
    ensures var answer := Answer(resolver, form);
      Canonicalize(text, url, resolver) ==
        if answer == "" || Normalize(text, answer).NotCanonical? then Canonical(form) else Normalize(text, answer)
  {
    NothingHasNoForm(text);
    CanonicalizeBy(text, url, resolver, form);
    CanonicalIsNormal(text, Strip(url), form);
    ResolvedIs(resolver, form);
  }

  lemma ResolvedIs(resolver: Option<Resolver>, form: string)
    ensures if resolver.Some? && resolver.value(form).None?
            then Resolved(resolver, form) == form && Answer(resolver, form) == ""
            else Resolved(resolver, form) == Answer(resolver, form)
  {
  }

  lemma CanonicalizeBy(text: Text, url: string, resolver: Option<Resolver>, form: string)
    requires IsModelled(text, url, resolver) && Strip(url) != "" && Normalize(text, Strip(url)) == Canonical(form)
    ensures var resolved := Resolved(resolver, form);
      && IsPlain(resolved)
      && Canonicalize(text, url, resolver) ==
           if resolved == "" || Normalize(text, resolved).NotCanonical? then Canonical(form)
           else Normalize(text, resolved)
  {
  }

  lemma NothingHasNoForm(text: Text)
    ensures IsPlain("") && Normalize(text, "").NotCanonical?
  {
    OutcomeOfParts(text, SplitUrl(""));
  }

  // ---- What counts, on URL texts ----

  /** In any letter case an http scheme before a host, with a readable port or none, makes a URL with a form. */
  lemma HttpUrlHasForm(text: Text, scheme: string, user: string, host: string, digits: string, tail: string)
    requires IsHttpScheme(scheme) && AllLetters(scheme) && IsUser(user) && IsHost(host) && host != ""
    requires EndsAuthority(tail) && (digits == "" || (IsDigits(digits) && Value(digits) <= 65535))
    ensures var url := AuthorityUrl(scheme, user + host + (":" + digits), tail);
      IsPlain(url) && Normalize(text, url).Canonical?
  {
    var port := ":" + digits;
    DigitsArePort(digits);
    AuthorityTakenApart(user, host, port);
    assert port[1..] == digits;
    AuthorityUrlSplits(scheme, user + host + port, tail, DropLinesAndTabs(tail));
    HttpSchemeIff(scheme);
    HasFormIff(text, AuthorityUrl(scheme, user + host + port, tail));
  }

  /** Any port but the usual one counts. */
  lemma OtherPortCounts(text: Text, scheme: string, user: string, host: string, digits: string, tail: string)
    requires IsHttpScheme(scheme) && AllLetters(scheme) && IsUser(user) && IsHost(host) && host != ""
    requires EndsAuthority(tail) && IsDigits(digits) && !IsUsualPort(scheme, Value(digits))
    ensures var a := AuthorityUrl(scheme, user + host, tail);
      var b := AuthorityUrl(scheme, user + host + (":" + digits), tail);
      IsPlain(a) && IsPlain(b) && Normalize(text, a) != Normalize(text, b)
  {
    var port := ":" + digits;
    var y := DropLinesAndTabs(tail);
    DigitsArePort(digits);
    AuthorityTakenApart(user, host, "");
    assert user + host + "" == user + host && port[1..] == digits;
    AuthorityTakenApart(user, host, port);
    AuthorityUrlSplits(scheme, user + host, tail, y);
    AuthorityUrlSplits(scheme, user + host + port, tail, y);
    HttpSchemeIff(scheme);
    UsualPortIff(scheme, Value(digits));
    PortShows(text, SplitUrl(AuthorityUrl(scheme, user + host, tail)), user + host + port);
  }

  lemma PortShows(text: Text, p: Parts, netloc: string)
    requires IsCanonicalizable(p) && UserPrefix(p.netloc) == UserPrefix(netloc) && PortOf(p) == ""
    requires HostOf(p) == Before(HostInfo(netloc), ':')
    requires var port := After(HostInfo(netloc), ':');
      port != "" && (PortOk(port) ==> Value(port) != DefaultPort(p.scheme))
    ensures NormalizeParts(text, p) != NormalizeParts(text, p.(netloc := netloc))
  {
    var q := p.(netloc := netloc);
    OutcomeOfParts(text, p);
    OutcomeOfParts(text, q);
    if PortOk(PortOf(q)) {
      FormLength(text, p);
      FormLength(text, q);
      NetlocLength(p);
      NetlocLength(q);
    }
  }

  /** All of a form but its authority depends on scheme, path and query alone. */
  lemma FormLength(text: Text, p: Parts)
    requires IsCanonicalizable(p)
    ensures NormalizeParts(text, p).Canonical?
    ensures |NormalizeParts(text, p).url| ==
      |p.scheme| + 3 + |NormalNetloc(p)| + |NormalPath(p.path)| + QueryLength(PrintedParams(text, p.query))
  {
  }

  function QueryLength(query: string): nat {
    if query == "" then 0 else |query| + 1
  }

  lemma NetlocLength(p: Parts)
    requires PortOk(PortOf(p))
    ensures |NormalNetloc(p)| == |UserPrefix(p.netloc)| + |HostOf(p)| + |PortSuffix(p.scheme, PortOf(p))|
  {
  }

  /** The root's slash counts. */
  lemma RootSlashCounts(text: Text, scheme: string, user: string, host: string)
    requires IsHttpScheme(scheme) && AllLetters(scheme) && IsUser(user) && IsHost(host) && host != ""
    ensures var a, b := AuthorityUrl(scheme, user + host, ""), AuthorityUrl(scheme, user + host, "/");
      IsPlain(a) && IsPlain(b) && Normalize(text, a) != Normalize(text, b)
  {
    AuthorityTakenApart(user, host, "");
    assert user + host + "" == user + host;
    NothingToDrop("");
    NothingToDrop("/");
    AuthorityUrlSplits(scheme, user + host, "", "");
    AuthorityUrlSplits(scheme, user + host, "/", "/");
    RootParts();
    HttpSchemeIff(scheme);
    SlashShows(text, SplitUrl(AuthorityUrl(scheme, user + host, "")));
  }

  lemma RootParts()
    ensures Before(Before("", '#'), '?') == "" && After(Before("", '#'), '?') == ""
    ensures Before(Before("/", '#'), '?') == "/" && After(Before("/", '#'), '?') == ""
  {
    NothingToCut("/", '#');
    NothingToCut("/", '?');
  }

  lemma SlashShows(text: Text, p: Parts)
    requires IsCanonicalizable(p) && p.path == ""
    ensures NormalizeParts(text, p) != NormalizeParts(text, p.(path := "/"))
  {
    FormLength(text, p);
    FormLength(text, p.(path := "/"));
    assert NormalNetloc(p.(path := "/")) == NormalNetloc(p);
  }

  /** One parameter, printed as a form prints it, appended to a URL without a query: it changes the form exactly if
      its name is no tracker's. */
  lemma ParamCountsIff(text: Text, s: string, name: string, value: string)
    requires Lawful(text.enc) && IsBase(s) && IsPlain(s) && Normalize(text, s).Canonical?
    ensures var u := s + ("?" + EncodeParam(text.enc, (name, value)));
      IsPlain(u) && (Normalize(text, u) != Normalize(text, s) <==> !Tracks(text, name))
  {
    var p: Param := (name, value);
    var seg := EncodeParam(text.enc, p);
    ParamRoundTrip(text.enc, p);
    SegmentIsPlain(text.enc, p);
    TracksIff(text, name);
    QuerySpelling(s, [seg]);
    BaseHasNoQuery(s);
    assert JoinWith([seg], '&') == seg;
    if IsTracking(text, name) {
      OneTrackerIsFree(text, s, seg);
    } else {
      OneParamCounts(text, s, p);
    }
  }

  lemma OneTrackerIsFree(text: Text, s: string, seg: string)
    requires Lawful(text.enc) && IsBase(s) && IsPlain(s) && AreSegments([seg])
    requires IsTracking(text, ParseSegment(text.enc, seg).0)
    ensures IsPlain(s + ("?" + seg)) && Normalize(text, s + ("?" + seg)) == Normalize(text, s)
  {
    assert JoinWith([seg], '&') == seg;
    TrackingAloneIsFree(text, s, [seg]);
  }

  lemma SegmentIsPlain(enc: Encoding, p: Param)
    requires Lawful(enc)
    ensures AreSegments([EncodeParam(enc, p)])
  {
    ParamRoundTrip(enc, p);
    FormTextIsPlain(QuotePlus(enc, p.0), QuotePlus(enc, p.1));
    QuotePlusShape(enc, p.0);
    QuotePlusShape(enc, p.1);
    SegmentAlone(EncodeParam(enc, p));
  }

  lemma FormTextIsPlain(a: string, b: string)
    ensures var s := a + "=" + b;
      (forall i :: 0 <= i < |a| ==> FormChar(a[i])) && (forall i :: 0 <= i < |b| ==> FormChar(b[i])) ==>
        forall k :: 0 <= k < |s| ==> s[k] != '#' && !IsLineOrTab(s[k])
  {
  }

  lemma SegmentAlone(seg: string)
    requires '&' !in seg && forall k :: 0 <= k < |seg| ==> seg[k] != '#' && !IsLineOrTab(seg[k])
    ensures AreSegments([seg])
  {
  }

  lemma OneParamCounts(text: Text, s: string, p: Param)
    requires Lawful(text.enc) && IsPlain(s) && SplitUrl(s).query == "" && Normalize(text, s).Canonical?
    requires !IsTracking(text, p.0)
    ensures NormalizeParts(text, SplitUrl(s)) != NormalizeParts(text, SplitUrl(s).(query := EncodeParam(text.enc, p)))
  {
    var parts := SplitUrl(s);
    var more := parts.(query := EncodeParam(text.enc, p));
    NormalizeAssembles(text, s);
    NoParams(text);
    OneParam(text, p);
    FormLength(text, parts);
    FormLength(text, more);
    assert NormalNetloc(more) == NormalNetloc(parts);
  }

  lemma NoParams(text: Text)
    ensures UrlEncode(text.enc, NormalParams(text, "")) == ""
  {
    assert SplitOn("", '&') == [""] && [""][1..] == [];
    assert ParseSegments(text.enc, [""]) == [];
  }

  lemma OneParam(text: Text, p: Param)
    requires Lawful(text.enc) && !IsTracking(text, p.0)
    ensures UrlEncode(text.enc, NormalParams(text, EncodeParam(text.enc, p))) == EncodeParam(text.enc, p) != ""
  {
    ParamRoundTrip(text.enc, p);
    assert UrlEncode(text.enc, [p]) == EncodeParam(text.enc, p);
    QueryRoundTrip(text.enc, [p]);
    KeptStays(text, [p]);
  }

  // ---- What urlsplit never sees ----

  /** Control characters and spaces in front do not count. */
  lemma LeadingIsFree(text: Text, c: char, s: string)
    requires c as int <= 32 && IsPlain(s)
    ensures IsPlain([c] + s) && Normalize(text, [c] + s) == Normalize(text, s)
  {
    assert ([c] + s)[1..] == s;
    assert Clean([c] + s) == Clean(s);
  }

  /** Tabs and line ends do not count anywhere. */
  lemma TabIsFree(text: Text, a: string, c: char, b: string)
    requires c == '\t' || c == '\r' || c == '\n'
    requires IsPlain(a + b)
    ensures IsPlain(a + [c] + b) && Normalize(text, a + [c] + b) == Normalize(text, a + b)
  {
    TabDrops(a, c, b);
  }

  lemma {:induction false} TabDrops(a: string, c: char, b: string)
    requires c == '\t' || c == '\r' || c == '\n'
    ensures Clean(a + [c] + b) == Clean(a + b)
    decreases |a|
  {
    if a == "" {
      assert "" + [c] + b == [c] + b && "" + b == b && ([c] + b)[1..] == b;
    } else if IsC0OrSpace(a[0]) {
      TabDrops(a[1..], c, b);
      assert (a + [c] + b)[1..] == a[1..] + [c] + b && (a + b)[1..] == a[1..] + b;
    } else {
      TabInside(a, c, b);
    }
  }

  lemma TabInside(a: string, c: char, b: string)
    requires c == '\t' || c == '\r' || c == '\n'
    ensures DropLinesAndTabs(a + [c] + b) == DropLinesAndTabs(a + b)
  {
    DropLinesOfSum(a + [c], b);
    DropLinesOfSum(a, [c]);
    DropLinesOfSum(a, b);
    assert DropLinesAndTabs([c]) == "" by { assert [c][1..] == ""; }
    assert DropLinesAndTabs(a) + "" == DropLinesAndTabs(a);
  }

  // ---- How a form prints text ----

  const HEX_DIGITS := "0123456789ABCDEF"

  /** One byte as a form prints it: letters, digits and - . _ ~ as they are, the space as a plus, all others as a
      percent sign and two hexadecimal digits, capital ones. */
  predicate Prints(piece: string, b: byte) {
    var c := b as char;
    if 'a' <= c <= 'z' || 'A' <= c <= 'Z' || '0' <= c <= '9' || c == '-' || c == '.' || c == '_' || c == '~' then
      piece == [c]
    else if c == ' ' then piece == "+"
    else
      && |piece| == 3 && piece[0] == '%'
      && exists h, l :: 0 <= h < 16 && 0 <= l < 16 && b == 16 * h + l
           && piece[1] == HEX_DIGITS[h] && piece[2] == HEX_DIGITS[l]
  }

  function Concat(pieces: seq<string>): string {
    if pieces == [] then "" else pieces[0] + Concat(pieces[1..])
  }

  lemma HexDigitIs(n: nat)
    requires n < 16
    ensures HexDigit(n) == HEX_DIGITS[n]
  {
  }

  lemma BytePrints(b: byte)
    ensures Prints(Replace(QuoteByte(b), ' ', '+'), b)
  {
    var piece := Replace(QuoteByte(b), ' ', '+');
    if !Unreserved(b) && b != ' ' as int {
      var h, l := b / 16, b % 16;
      HexDigitIs(h);
      HexDigitIs(l);
      assert b == 16 * h + l && piece[1] == HEX_DIGITS[h] && piece[2] == HEX_DIGITS[l];
    }
  }

  lemma ReplaceSum(a: string, b: string)
    ensures Replace(a + b, ' ', '+') == Replace(a, ' ', '+') + Replace(b, ' ', '+')
  {
  }

  lemma {:induction false} BytesPrint(bs: seq<byte>) returns (pieces: seq<string>)
    ensures |pieces| == |bs| && Replace(Quote(bs), ' ', '+') == Concat(pieces)
    ensures forall i :: 0 <= i < |bs| ==> Prints(pieces[i], bs[i])
    decreases |bs|
  {
    if bs == [] {
      pieces := [];
    } else {
      var rest := BytesPrint(bs[1..]);
      BytePrints(bs[0]);
      pieces := [Replace(QuoteByte(bs[0]), ' ', '+')] + rest;
      assert pieces[1..] == rest;
      ReplaceSum(QuoteByte(bs[0]), Quote(bs[1..]));
    }
  }

  /** quote_plus prints the bytes of a text one after the other. */
  lemma TextPrints(enc: Encoding, s: string) returns (pieces: seq<string>)
    ensures |pieces| == |enc.encode(s)| && QuotePlus(enc, s) == Concat(pieces)
    ensures forall i :: 0 <= i < |pieces| ==> Prints(pieces[i], enc.encode(s)[i])
  {
    pieces := BytesPrint(enc.encode(s));
  }

  // ---- Query text, read ----

  const SMALL_HEX_DIGITS := "0123456789abcdef"

  /** A hexadecimal digit of value v, in capitals or small letters. */
  predicate DigitIs(c: char, v: nat) {
    v < 16 && (c == HEX_DIGITS[v] || c == SMALL_HEX_DIGITS[v])
  }

  lemma HexValueIsDigit(c: char)
    requires IsHex(c)
    ensures DigitIs(c, HexValue(c))
  {
  }

  /** The byte that a percent sign and the two digits behind it stand for. */
  predicate EscapeOf(s: string, b: byte) {
    |s| >= 3 && s[0] == '%' && DigitIs(s[1], b / 16) && DigitIs(s[2], b % 16)
  }

  /** A percent sign and two hexadecimal digits are read as their byte, */
  lemma EscapeReads(s: string, b: byte)
    requires IsAscii(s) && EscapeOf(s, b)
    ensures UnquoteToBytes(s) == [b] + UnquoteToBytes(s[3..])
  {
    DigitHasValue(s[1], b / 16);
    DigitHasValue(s[2], b % 16);
  }

  lemma DigitHasValue(c: char, v: nat)
    requires DigitIs(c, v)
    ensures IsHex(c) && HexValue(c) == v
  {
  }

  /** and any other character as it stands. */
  lemma OtherReads(s: string)
    requires IsAscii(s) && s != "" && forall b: byte :: !EscapeOf(s, b)
    ensures UnquoteToBytes(s) == [s[0] as int] + UnquoteToBytes(s[1..])
  {
    if |s| >= 3 && s[0] == '%' && IsHex(s[1]) && IsHex(s[2]) {
      var v, w := HexValue(s[1]), HexValue(s[2]);
      HexValueIsDigit(s[1]);
      HexValueIsDigit(s[2]);
      var b: byte := 16 * v + w;
      assert b / 16 == v && b % 16 == w;
      assert EscapeOf(s, b);
      assert false;
    }
  }
}
