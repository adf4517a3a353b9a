/** Canonicalising twice: with any resolver, the result is a fixed point exactly when it does not end in
    whitespace (canonical_url.py strips its input but not its output). */
module CanonicalUrlAgain {
  import opened Options
  import opened Texts
  import opened PercentCodec
  import opened CanonicalUrls
  import opened CanonicalUrlTheorems

  // ---- A query-free URL does not grow ----

  lemma {:induction false} DecimalIsShort(s: string)
    requires IsDigits(s)
    ensures |Decimal(Value(s))| <= |s|
    decreases |s|
  {
    if |s| > 1 {
      var init := s[..|s| - 1];
      DecimalIsShort(init);
      if Value(s) >= 10 { assert Value(s) / 10 == Value(init); }
    } else {
      assert Value(s[..0]) == 0;
    }
  }

  lemma NetlocDoesNotGrow(p: Parts)
    requires IsCanonicalizable(p)
    ensures |NormalNetloc(p)| <= |p.netloc|
  {
    var info, host, port := HostInfo(p.netloc), HostOf(p), PortOf(p);
    if port != "" {
      DecimalIsShort(port);
      assert |info| == |host| + 1 + |port|;
    }
    assert |PortSuffix(p.scheme, port)| <= |info| - |host|;
    assert |NormalNetloc(p)| == |UserPrefix(p.netloc)| + |host| + |PortSuffix(p.scheme, port)|;
  }

  lemma {:induction false} DroppingShortens(s: string)
    ensures |DropLinesAndTabs(s)| <= |s| && |DropLeadingC0(s)| <= |s|
    ensures forall c :: c in DropLinesAndTabs(s) ==> c in s
    ensures forall c :: c in DropLeadingC0(s) ==> c in s
    decreases |s|
  {
    if s != "" { DroppingShortens(s[1..]); }
  }

  lemma CleanShortens(s: string)
    ensures |Clean(s)| <= |s| && forall c :: c in Clean(s) ==> c in s
  {
    DroppingShortens(s);
    DroppingShortens(DropLeadingC0(s));
  }

  lemma TailFits(tail: string)
    ensures |Before(Before(tail, '#'), '?')| <= |tail|
    ensures '?' !in tail ==> After(Before(tail, '#'), '?') == ""
  {
    var t := Before(tail, '#');
    assert Before(t, '?') <= t <= tail;
    if '?' !in tail {
      assert forall i :: 0 <= i < |t| ==> t[i] == tail[i];
      NothingToCut(t, '?');
    }
  }

  lemma RestFits(rest: string)
    requires "//" <= rest
    ensures var netloc := Netloc(rest[2..]);
      2 + |netloc| <= |rest| && |rest[2 + |netloc|..]| == |rest| - 2 - |netloc|
      && ('?' !in rest ==> '?' !in rest[2 + |netloc|..])
  {
    assert Netloc(rest[2..]) <= rest[2..];
  }

  lemma PartsFit(raw: string)
    requires SplitClean(raw).netloc != "" && SplitClean(raw).scheme != ""
    ensures var p := SplitClean(raw);
      |p.scheme| + 3 + |p.netloc| + |p.path| <= |raw| && ('?' !in raw ==> p.query == "")
  {
    var rest := After(raw, ':');
    assert |Before(raw, ':')| + 1 + |rest| == |raw|;
    assert forall c :: c in rest ==> c in raw;
    RestFits(rest);
    TailFits(rest[2 + |Netloc(rest[2..])|..]);
  }

  lemma QueryFreeDoesNotGrow(text: Text, s: string, v: string)
    requires IsPlain(s) && Normalize(text, s) == Canonical(v) && '?' !in s
    ensures |v| <= |s|
  {
    var p := SplitUrl(s);
    NormalizeAssembles(text, s);
    CleanShortens(s);
    PartsFit(Clean(s));
    NetlocDoesNotGrow(p);
    NormalPathStays(p.path);
    EmptyQuery(text);
  }

  lemma EmptyQuery(text: Text)
    ensures UrlEncode(text.enc, NormalParams(text, "")) == ""
  {
    assert SplitOn("", '&') == [""] && [""][1..] == [];
    assert ParseSegments(text.enc, [""]) == [];
  }

  // ---- The entry point again ----

  predicate EndsInSpace(s: string) {
    s != "" && IsSpace(s[|s| - 1])
  }

  /** A canonical URL is put together from normal parts. */
  lemma CanonicalParts(text: Text, s: string, u: string) returns (q: Parts)
    requires IsPlain(s) && Normalize(text, s) == Canonical(u)
    ensures u == Assemble(q) && CanAssemble(q) && AllAuthority(q.netloc)
    ensures forall i :: 0 <= i < |q.query| ==> QueryChar(q.query[i])
  {
    var p := SplitUrl(s);
    NormalizeAssembles(text, s);
    NormalPartsAssemble(text, s);
    NormalQueryShape(text, p);
    q := NormalParts(text, p);
  }

  lemma NormalQueryShape(text: Text, p: Parts)
    requires IsCanonicalizable(p)
    ensures forall i :: 0 <= i < |NormalParts(text, p).query| ==> QueryChar(NormalParts(text, p).query[i])
  {
    UrlEncodeShape(text.enc, NormalParams(text, p.query));
  }

  lemma AssembledStartsWithH(q: Parts)
    requires CanAssemble(q)
    ensures Assemble(q) != "" && Assemble(q)[0] == 'h'
  {
  }

  /** A URL of this shape that ends in whitespace has no query. */
  lemma SpaceMeansNoQuery(q: Parts)
    requires CanAssemble(q) && (forall i :: 0 <= i < |q.query| ==> QueryChar(q.query[i])) && EndsInSpace(Assemble(q))
    ensures '?' !in Assemble(q) && q.query == ""
  {
    assert q.query == "";
    assert '?' !in q.netloc && '?' !in q.scheme && '?' !in "://";
  }

  /** The URL whose normalisation the entry point returns: the resolver's answer if that can be normalised
      or makes the code raise, the stripped input otherwise. */
  ghost function LastNormalised(text: Text, url: string, resolver: Option<Resolver>): string
    requires IsModelled(text, url, resolver)
  {
    var raw := Strip(url);
    if !Normalize(text, raw).Canonical? then raw
    else
      var resolved := Resolved(resolver, Normalize(text, raw).url);
      if resolved != "" && Normalize(text, resolved) != NotCanonical then resolved else raw
  }

  lemma ResultIsNormal(text: Text, url: string, resolver: Option<Resolver>, u: string) returns (s: string)
    requires Lawful(text.enc) && IsModelled(text, url, resolver)
    requires Canonicalize(text, url, resolver) == Canonical(u)
    ensures s == LastNormalised(text, url, resolver) && IsPlain(s) && Normalize(text, s) == Canonical(u)
    ensures IsPlain(u) && Normalize(text, u) == Canonical(u)
  {
    s := LastNormalised(text, url, resolver);
    CanonicalIsNormal(text, s, u);
  }

  lemma StrippedIsQueryFree(q: Parts, u: string)
    requires CanAssemble(q) && (forall i :: 0 <= i < |q.query| ==> QueryChar(q.query[i])) && EndsInSpace(u)
      && u == Assemble(q)
    ensures '?' !in StripRight(u) && |StripRight(u)| < |u|
  {
    SpaceMeansNoQuery(q);
    StripRightPrefix(u);
    assert forall c :: c in StripRight(u) ==> c in u;
  }

  /** Stripping a canonical URL that ends in whitespace leads to a shorter one. */
  lemma StrippedLeadsElsewhere(text: Text, s: string, u: string)
    requires IsPlain(s) && Normalize(text, s) == Canonical(u) && EndsInSpace(u) && IsPlain(StripRight(u))
    ensures Normalize(text, StripRight(u)) != Canonical(u)
  {
    var q := CanonicalParts(text, s, u);
    var t := StripRight(u);
    StrippedIsQueryFree(q, u);
    match Normalize(text, t)
    case Canonical(v) => QueryFreeDoesNotGrow(text, t, v);
    case _ =>
  }

  lemma NothingToStripLeft(s: string)
    requires s != "" && s[0] == 'h'
    ensures Strip(s) == StripRight(s)
  {
  }

  lemma StripOfCanonical(text: Text, s: string, u: string)
    requires IsPlain(s) && Normalize(text, s) == Canonical(u)
    ensures Strip(u) == StripRight(u) && u != ""
  {
    var q := CanonicalParts(text, s, u);
    AssembledStartsWithH(q);
    NothingToStripLeft(u);
  }

  /** A query-free URL cut short anywhere after the double slash. */
  lemma CutParts(q: Parts, t: string) returns (r: Parts)
    requires CanAssemble(q) && q.query == "" && t <= Assemble(q) && |t| >= |q.scheme| + 3
    ensures CanAssemble(r) && t == Assemble(r) && r.netloc <= q.netloc
  {
    var body := q.netloc + q.path;
    var head := q.scheme + "://";
    assert Assemble(q) == head + body;
    var n := |t| - |head|;
    assert t == head + body[..n];
    if n >= |q.netloc| {
      r := Parts(q.scheme, q.netloc, q.path[..n - |q.netloc|], "");
      assert body[..n] == q.netloc + q.path[..n - |q.netloc|];
    } else {
      r := Parts(q.scheme, q.netloc[..n], "", "");
      assert body[..n] == q.netloc[..n];
    }
    assert t == head + (r.netloc + r.path);
  }

  lemma AssembledIsPlain(q: Parts)
    requires CanAssemble(q) && AllAuthority(q.netloc)
    ensures IsPlain(Assemble(q))
  {
    var url := Assemble(q);
    assert SplitUrl(url).netloc == q.netloc by { SplitAssembled(q); }
    AuthorityIsPlain(url);
  }

  lemma AuthorityIsPlain(url: string)
    requires AllAuthority(SplitUrl(url).netloc)
    ensures IsPlain(url)
  {
  }

  lemma CutIsPlain(q: Parts, u: string)
    requires CanAssemble(q) && AllAuthority(q.netloc) && q.query == "" && u == Assemble(q)
    ensures IsPlain(StripRight(u))
  {
    assert u[|q.scheme| + 2] == '/';
    StripRightKeeps(u, |q.scheme| + 2);
    StripRightPrefix(u);
    var r := CutParts(q, StripRight(u));
    assert forall i :: 0 <= i < |r.netloc| ==> r.netloc[i] == q.netloc[i];
    AssembledIsPlain(r);
  }

  /** Stripping a canonical URL leaves a plain one. */
  lemma StrippedIsPlain(text: Text, s: string, u: string)
    requires IsPlain(s) && Normalize(text, s) == Canonical(u)
    ensures IsPlain(StripRight(u))
  {
    var q := CanonicalParts(text, s, u);
    if EndsInSpace(u) {
      SpaceMeansNoQuery(q);
      CutIsPlain(q, u);
    } else {
      StripRightPrefix(u);
      AssembledIsPlain(q);
    }
  }

  lemma WithoutResolver(text: Text, url: string)
    requires IsPlain(Strip(url))
    ensures IsModelled(text, url, None)
    ensures Canonicalize(text, url, None) == if Strip(url) == "" then NotCanonical else Normalize(text, Strip(url))
  {
  }

  // ---- Exactly which inputs are not fixed after one call ----

  /** What can be seen in the URL's parts: no parameter counts, and the part that will then come last,
      the trimmed path or a host without a port of its own, ends in whitespace. */
  ghost predicate LeavesSpaceLast(text: Text, url: string) {
    var p := SplitUrl(url);
    && Kept(text, ParseQuery(text.enc, p.query)) == []
    && if NormalPath(p.path) != "" then EndsInSpace(NormalPath(p.path))
       else NoPortShown(p) && EndsInSpace(HostOf(p))
  }

  ghost predicate NoPortShown(p: Parts) {
    PortOk(PortOf(p)) && PortSuffix(p.scheme, PortOf(p)) == ""
  }

  /** Canonicalising u, without a resolver, gives u. */
  ghost predicate IsFixed(text: Text, u: string) {
    IsModelled(text, u, None) && Canonicalize(text, u, None) == Canonical(u)
  }

  lemma LowerEndsAlike(host: string)
    ensures EndsInSpace(Lower(host)) <==> EndsInSpace(host)
  {
  }

  lemma PortEndsInDigit(scheme: string, port: string)
    requires PortOk(port) && PortSuffix(scheme, port) != ""
    ensures !EndsInSpace(PortSuffix(scheme, port))
  {
    var digits := Decimal(Value(port));
    assert PortSuffix(scheme, port)[|digits|] == digits[|digits| - 1];
  }

  lemma EndOfSum(a: string, b: string)
    requires b != ""
    ensures EndsInSpace(a + b) <==> EndsInSpace(b)
  {
    assert (a + b)[|a + b| - 1] == b[|b| - 1];
  }

  lemma EndOfThree(a: string, b: string, c: string)
    requires b != ""
    ensures EndsInSpace(a + b + c) <==> EndsInSpace(if c == "" then b else c)
  {
    EndOfSum(a, b);
    if c == "" {
      assert a + b + c == a + b;
    } else {
      EndOfSum(a + b, c);
    }
  }

  lemma NetlocEndsInSpaceIff(p: Parts)
    requires IsCanonicalizable(p)
    ensures NormalNetloc(p) != ""
    ensures EndsInSpace(NormalNetloc(p)) <==> NoPortShown(p) && EndsInSpace(HostOf(p))
  {
    var port := PortSuffix(p.scheme, PortOf(p));
    LowerEndsAlike(HostOf(p));
    EndOfThree(UserPrefix(p.netloc), Lower(HostOf(p)), port);
    if port != "" { PortEndsInDigit(p.scheme, PortOf(p)); }
  }

  lemma QueryIsEmptyIff(text: Text, query: string)
    ensures UrlEncode(text.enc, NormalParams(text, query)) == "" <==> Kept(text, ParseQuery(text.enc, query)) == []
  {
    var ps := NormalParams(text, query);
    UrlEncodeShape(text.enc, ps);
    assert |ps| == |Kept(text, ParseQuery(text.enc, query))|;
    if ps == [] { assert EncodeParams(text.enc, ps) == []; }
  }

  lemma AssembledEnd(q: Parts)
    requires forall i :: 0 <= i < |q.query| ==> QueryChar(q.query[i])
    requires q.netloc != ""
    ensures EndsInSpace(Assemble(q)) <==>
      q.query == "" && if q.path != "" then EndsInSpace(q.path) else EndsInSpace(q.netloc)
  {
    var head := q.scheme + "://" + q.netloc;
    if q.query != "" {
      EndOfSum(head + q.path, "?" + q.query);
    } else if q.path != "" {
      EndOfSum(head, q.path);
      assert Assemble(q) == head + q.path;
    } else {
      EndOfSum(q.scheme + "://", q.netloc);
      assert Assemble(q) == head;
    }
  }

  /** A canonical URL ends in whitespace exactly if the parts it was made from leave whitespace last. */
  lemma EndsInSpaceIff(text: Text, s: string, u: string)
    requires IsPlain(s) && Normalize(text, s) == Canonical(u)
    ensures EndsInSpace(u) <==> LeavesSpaceLast(text, s)
  {
    var p := SplitUrl(s);
    NormalizeAssembles(text, s);
    NormalQueryShape(text, p);
    NetlocEndsInSpaceIff(p);
    QueryIsEmptyIff(text, p.query);
    AssembledEnd(NormalParts(text, p));
  }

  /** A result that ends in whitespace is not fixed, and any other one is. */
  lemma FixedUnlessSpaceLast(text: Text, s: string, u: string)
    requires Lawful(text.enc) && IsPlain(s) && Normalize(text, s) == Canonical(u)
    requires IsPlain(u) && Normalize(text, u) == Canonical(u)
    ensures IsFixed(text, u) <==> !EndsInSpace(u)
  {
    StripOfCanonical(text, s, u);
    StrippedIsPlain(text, s, u);
    WithoutResolver(text, u);
    StripRightPrefix(u);
    if EndsInSpace(u) { StrippedLeadsElsewhere(text, s, u); }
  }

  /** Whatever the resolver answered, the result is a normal form; and canonicalising it again gives it back exactly
      if the URL normalised last, which without a resolver is the stripped input, does not leave whitespace last. */
  lemma FixedPointIff(text: Text, url: string, resolver: Option<Resolver>, u: string)
    requires Lawful(text.enc) && IsModelled(text, url, resolver)
    requires Canonicalize(text, url, resolver) == Canonical(u)
    ensures IsPlain(u) && Normalize(text, u) == Canonical(u)
    ensures IsFixed(text, u) <==> !LeavesSpaceLast(text, LastNormalised(text, url, resolver))
    ensures resolver.None? ==> LastNormalised(text, url, resolver) == Strip(url)
  {
    var s := ResultIsNormal(text, url, resolver, u);
    FixedUnlessSpaceLast(text, s, u);
    EndsInSpaceIff(text, s, u);
  }

  // ---- URLs without whitespace ----

  lemma PieceOf(s: string, i: nat, j: nat)
    requires i <= j <= |s|
    ensures forall c :: c in s[i..j] ==> c in s
  {
    forall c | c in s[i..j] ensures c in s {
      var k :| 0 <= k < j - i && s[i..j][k] == c;
      assert s[i + k] == c;
    }
  }

  lemma BeforeFrom(s: string, c: char)
    ensures forall d :: d in Before(s, c) ==> d in s
  {
    assert Before(s, c) == s[..|Before(s, c)|];
  }

  lemma AfterFrom(s: string, c: char)
    ensures forall d :: d in After(s, c) ==> d in s
  {
    var n := |Before(s, c)|;
    if n < |s| { PieceOf(s, n + 1, |s|); }
  }

  lemma RestPieces(rest: string)
    requires "//" <= rest
    ensures var netloc := Netloc(rest[2..]);
      && 2 + |netloc| <= |rest|
      && (forall c :: c in netloc ==> c in rest)
      && forall c :: c in Before(Before(rest[2 + |netloc|..], '#'), '?') ==> c in rest
  {
    var netloc := Netloc(rest[2..]);
    assert netloc == rest[2..2 + |netloc|];
    PieceOf(rest, 2, 2 + |netloc|);
    var tail := rest[2 + |netloc|..];
    PieceOf(rest, 2 + |netloc|, |rest|);
    BeforeFrom(tail, '#');
    BeforeFrom(Before(tail, '#'), '?');
  }

  /** The characters of authority and path come from the URL. */
  lemma PartsFrom(url: string)
    requires SplitUrl(url).netloc != ""
    ensures forall c :: c in SplitUrl(url).netloc || c in SplitUrl(url).path ==> c in url
  {
    var raw := Clean(url);
    CleanShortens(url);
    AfterFrom(raw, ':');
    RestPieces(if ':' in raw then After(raw, ':') else raw);
  }

  predicate NoSpace(s: string) {
    forall c :: c in s ==> !IsSpace(c)
  }

  lemma EndIsIn(s: string)
    requires EndsInSpace(s)
    ensures !NoSpace(s)
  {
    assert s[|s| - 1] in s;
  }

  lemma NoSpaceNowhere(text: Text, url: string)
    requires IsCanonicalizable(SplitUrl(url)) && NoSpace(url)
    ensures !LeavesSpaceLast(text, url)
  {
    var p := SplitUrl(url);
    HostNeedsNetloc(p);
    PartsFrom(url);
    var path, host := NormalPath(p.path), HostOf(p);
    NormalPathStays(p.path);
    PieceOf(p.path, 0, |path|);
    HostFrom(p);
    if EndsInSpace(path) { EndIsIn(path); }
    if EndsInSpace(host) { EndIsIn(host); }
  }

  lemma HostFrom(p: Parts)
    ensures forall c :: c in HostOf(p) ==> c in p.netloc
  {
    var info := HostInfo(p.netloc);
    PieceOf(p.netloc, |p.netloc| - |info|, |p.netloc|);
    BeforeFrom(info, ':');
  }

  /** A URL without whitespace inside is canonicalised once and for all: it has a canonical form exactly if it has an
      http scheme, a host and a port that can be read, and canonicalising that form gives it back. */
  lemma WhitespaceFreeIsIdempotent(text: Text, url: string)
    requires Lawful(text.enc) && IsModelled(text, url, None) && NoSpace(Strip(url))
    ensures Canonicalize(text, url, None).Canonical? <==> IsCanonicalizable(SplitUrl(Strip(url)))
    ensures Canonicalize(text, url, None).Canonical? ==> IsFixed(text, Canonicalize(text, url, None).url)
  {
    var s := Strip(url);
    WithoutResolver(text, url);
    NormalizeAssembles(text, s);
    EmptyIsNotCanonicalizable(s);
    if IsCanonicalizable(SplitUrl(s)) {
      NoSpaceNowhere(text, s);
      FixedPointIff(text, url, None, Normalize(text, s).url);
    }
  }

  lemma EmptyIsNotCanonicalizable(s: string)
    ensures s == "" ==> !IsCanonicalizable(SplitUrl(s))
  {
  }

  lemma HostNeedsNetloc(p: Parts)
    requires HostOf(p) != ""
    ensures p.netloc != ""
  {
  }

  // ---- A family that is not fixed, and one of it ----

  lemma HostAlone(p: Parts)
    requires '@' !in p.netloc && ':' !in p.netloc
    ensures UserPrefix(p.netloc) == "" && HostOf(p) == p.netloc && PortOf(p) == ""
  {
    AfterLastOfSuffix("", p.netloc, '@');
    assert "" + p.netloc == p.netloc;
    NothingToCut(p.netloc, ':');
  }

  lemma PlainHostParts(text: Text, p: Parts)
    requires p.scheme in {"http", "https"} && p.netloc != "" && '@' !in p.netloc && ':' !in p.netloc
    requires Lower(p.netloc) == p.netloc && p.path != "/" && p.query == ""
    ensures IsCanonicalizable(p) && NormalParts(text, p) == p.(path := TrimSlashes(p.path))
  {
    HostAlone(p);
    EmptyQuery(text);
    assert NormalNetloc(p) == "" + p.netloc + "" == p.netloc;
  }

  lemma TrimOne(path: string)
    requires |path| >= 2 && path[|path| - 1] == '/' && path[|path| - 2] == ' '
    ensures TrimSlashes(path) == path[..|path| - 1]
  {
  }

  /** A slash that shields a space from the input's strip is trimmed, the space becomes the end, and the next call
      strips it: every URL of this shape changes on the second call. */
  lemma ShieldedSpace(text: Text, p: Parts)
    requires Lawful(text.enc) && CanAssemble(p) && p.netloc != "" && '@' !in p.netloc && ':' !in p.netloc
    requires Lower(p.netloc) == p.netloc && AllAuthority(p.netloc) && p.query == ""
    requires |p.path| >= 2 && p.path[|p.path| - 1] == '/' && p.path[|p.path| - 2] == ' '
    ensures var u := Assemble(p.(path := TrimSlashes(p.path)));
      && IsModelled(text, Assemble(p), None) && Canonicalize(text, Assemble(p), None) == Canonical(u)
      && IsModelled(text, u, None) && Canonicalize(text, u, None) != Canonical(u)
  {
    TrimOne(p.path);
    var url, u := Assemble(p), Assemble(p.(path := TrimSlashes(p.path)));
    AssembledIsPlain(p);
    StripsToItself(p);
    PlainHostNormal(text, p, url);
    WithoutResolver(text, url);
    SpaceIsLast(text, p);
    FixedPointIff(text, url, None, u);
    StrippedIsPlain(text, url, u);
    StripOfCanonical(text, url, u);
    WithoutResolver(text, u);
  }

  lemma StripsToItself(p: Parts)
    requires CanAssemble(p) && p.query == "" && p.path != "" && p.path[|p.path| - 1] == '/'
    ensures Strip(Assemble(p)) == Assemble(p)
  {
    var url := Assemble(p);
    AssembledStartsWithH(p);
    NothingToStripLeft(url);
    assert url == p.scheme + "://" + p.netloc + p.path;
    assert url[|url| - 1] == '/';
  }

  lemma SpaceIsLast(text: Text, p: Parts)
    requires CanAssemble(p) && p.query == ""
    requires |p.path| >= 2 && p.path[|p.path| - 1] == '/' && p.path[|p.path| - 2] == ' '
    ensures LeavesSpaceLast(text, Assemble(p))
  {
    SplitAssembled(p);
    SpaceComesLast(text, p);
  }

  lemma SpaceComesLast(text: Text, p: Parts)
    requires p.query == ""
    requires |p.path| >= 2 && p.path[|p.path| - 1] == '/' && p.path[|p.path| - 2] == ' '
    ensures Kept(text, ParseQuery(text.enc, p.query)) == [] && EndsInSpace(NormalPath(p.path))
  {
    TrimOne(p.path);
    EmptyQuery(text);
    QueryIsEmptyIff(text, "");
  }

  lemma PlainHostNormal(text: Text, p: Parts, url: string)
    requires CanAssemble(p) && p.netloc != "" && '@' !in p.netloc && ':' !in p.netloc
    requires Lower(p.netloc) == p.netloc && p.query == "" && p.path != "/"
    requires url == Assemble(p) && IsPlain(url)
    ensures Normalize(text, url) == Canonical(Assemble(p.(path := TrimSlashes(p.path))))
  {
    SplitAssembled(p);
    NormalizeAssembles(text, url);
    PlainHostParts(text, p);
  }

  /** One of them: "http://h/a /" becomes "http://h/a ", which does not stay. */
  lemma FixedPointCanFail(text: Text)
    requires Lawful(text.enc)
    ensures var url, u := "http://h/a /", "http://h/a ";
      && IsModelled(text, url, None) && Canonicalize(text, url, None) == Canonical(u)
      && IsModelled(text, u, None) && Canonicalize(text, u, None) != Canonical(u)
  {
    var p := Parts("http", "h", "/a /", "");
    assert Lower("h") == "h";
    TrimOne(p.path);
    assert Assemble(p) == "http://h/a /" && Assemble(p.(path := TrimSlashes(p.path))) == "http://h/a ";
    ShieldedSpace(text, p);
  }
}
