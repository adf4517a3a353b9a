/** Canonical URLs are normal forms, and two URLs share one exactly when they name the same resource
    (canonical_url.py). */
module CanonicalUrlTheorems {
  import opened Texts
  import opened PercentCodec
  import opened Sorting
  import opened CanonicalUrls

  // ---- Splitting what was assembled ----

  /** The parts of an http(s) URL that can be put together and taken apart again. */
  ghost predicate CanAssemble(p: Parts) {
    && p.scheme in {"http", "https"}
    && (forall i :: 0 <= i < |p.netloc| ==> !NetlocStop(p.netloc[i]))
    && (p.path == "" || p.path[0] == '/')
    && '?' !in p.path && '#' !in p.path && '#' !in p.query
    && (forall c :: c in p.netloc || c in p.path || c in p.query ==> !IsLineOrTab(c))
  }

  function Assemble(p: Parts): string {
    p.scheme + "://" + p.netloc + p.path + if p.query != "" then "?" + p.query else ""
  }

  lemma {:induction false} NothingToDrop(s: string)
    requires forall i :: 0 <= i < |s| ==> !IsLineOrTab(s[i])
    ensures DropLinesAndTabs(s) == s
    decreases |s|
  {
    if s != "" { NothingToDrop(s[1..]); }
  }

  lemma {:induction false} NetlocEnds(a: string, b: string)
    requires (forall i :: 0 <= i < |a| ==> !NetlocStop(a[i])) && (b == "" || NetlocStop(b[0]))
    ensures Netloc(a + b) == a
    decreases |a|
  {
    if a == "" {
      assert a + b == b;
    } else {
      NetlocEnds(a[1..], b);
      assert (a + b)[1..] == a[1..] + b;
    }
  }

  lemma SplitTail(path: string, query: string)
    requires '?' !in path && '#' !in path && '#' !in query
    ensures
      var tail := path + if query != "" then "?" + query else "";
      Before(tail, '#') == tail && Before(tail, '?') == path && After(tail, '?') == query
  {
    var tail := path + if query != "" then "?" + query else "";
    NothingToCut(tail, '#');
    if query == "" {
      assert tail == path;
      NothingToCut(path, '?');
    } else {
      CutAt(path, '?', query);
      assert path + ['?'] + query == tail;
    }
  }

  lemma AssembledIsClean(p: Parts)
    requires CanAssemble(p)
    ensures Clean(Assemble(p)) == Assemble(p)
  {
    var u := Assemble(p);
    assert u[0] == 'h';
    forall i | 0 <= i < |u| ensures !IsLineOrTab(u[i]) {
      assert u[i] in p.scheme || u[i] in "://" || u[i] in p.netloc || u[i] in p.path || u[i] == '?' || u[i] in p.query;
    }
    NothingToDrop(u);
  }

  lemma SplitAuthority(netloc: string, tail: string)
    requires (forall i :: 0 <= i < |netloc| ==> !NetlocStop(netloc[i])) && (tail == "" || NetlocStop(tail[0]))
    ensures
      var rest := "//" + netloc + tail;
      "//" <= rest && Netloc(rest[2..]) == netloc && rest[2 + |netloc|..] == tail
  {
    var rest := "//" + netloc + tail;
    assert rest[2..] == netloc + tail;
    NetlocEnds(netloc, tail);
  }

  lemma SplitScheme(scheme: string, rest: string)
    requires scheme in {"http", "https"}
    ensures
      var u := scheme + ":" + rest;
      ':' in u && Lower(Before(u, ':')) == scheme && After(u, ':') == rest
  {
    assert scheme + ":" + rest == scheme + [':'] + rest;
    assert ':' !in scheme;
    CutAt(scheme, ':', rest);
    assert (scheme + ":" + rest)[|scheme|] == ':';
  }

  function Tail(p: Parts): string {
    p.path + if p.query != "" then "?" + p.query else ""
  }

  /** SplitClean, step by step. */
  lemma SplitSteps(u: string, p: Parts, rest: string, tail: string)
    requires ':' in u && Lower(Before(u, ':')) == p.scheme && After(u, ':') == rest
    requires "//" <= rest && Netloc(rest[2..]) == p.netloc && rest[2 + |p.netloc|..] == tail
    requires Before(tail, '#') == tail && Before(tail, '?') == p.path && After(tail, '?') == p.query
    ensures SplitClean(u) == p
  {
  }

  lemma SplitCleanAssembled(p: Parts, rest: string, u: string)
    requires CanAssemble(p) && rest == "//" + p.netloc + Tail(p) && u == p.scheme + ":" + rest
    ensures SplitClean(u) == p
  {
    assert ':' in u && Lower(Before(u, ':')) == p.scheme && After(u, ':') == rest by { SplitScheme(p.scheme, rest); }
    assert "//" <= rest && Netloc(rest[2..]) == p.netloc && rest[2 + |p.netloc|..] == Tail(p) by {
      SplitAuthority(p.netloc, Tail(p));
    }
    assert Before(Tail(p), '#') == Tail(p) && Before(Tail(p), '?') == p.path && After(Tail(p), '?') == p.query by {
      SplitTail(p.path, p.query);
    }
    SplitSteps(u, p, rest, Tail(p));
  }

  lemma AssembleByScheme(p: Parts)
    ensures Assemble(p) == p.scheme + ":" + ("//" + p.netloc + Tail(p))
  {
    assert Assemble(p) == p.scheme + ":" + "//" + p.netloc + Tail(p);
  }

  lemma SplitAssembled(p: Parts)
    requires CanAssemble(p)
    ensures SplitUrl(Assemble(p)) == p
  {
    AssembledIsClean(p);
    AssembleByScheme(p);
    SplitCleanAssembled(p, "//" + p.netloc + Tail(p), Assemble(p));
  }

  // ---- Letter case ----

  /** Equal, or an ASCII letter and its counterpart. */
  predicate SameLetter(c: char, d: char) {
    || c == d
    || ('A' <= c <= 'Z' && d as int == c as int + 32)
    || ('A' <= d <= 'Z' && c as int == d as int + 32)
  }

  predicate SameButCase(s: string, t: string) {
    |s| == |t| && forall i :: 0 <= i < |s| ==> SameLetter(s[i], t[i])
  }

  predicate NoCapitals(s: string) {
    forall i :: 0 <= i < |s| ==> !('A' <= s[i] <= 'Z')
  }

  lemma LowerIff(s: string, t: string)
    ensures Lower(s) == Lower(t) <==> SameButCase(s, t)
  {
    if Lower(s) == Lower(t) {
      assert |s| == |Lower(s)| && |t| == |Lower(t)|;
      forall i | 0 <= i < |s| ensures SameLetter(s[i], t[i]) {
        assert Lower(s)[i] == Lower(t)[i];
      }
    }
  }

  lemma LowerIsLower(s: string)
    ensures SameButCase(Lower(s), s) && NoCapitals(Lower(s))
  {
  }

  // ---- The parts of a canonical URL ----

  /** What splitting any URL guarantees about its parts. */
  ghost predicate SplitShape(p: Parts) {
    && (forall i :: 0 <= i < |p.netloc| ==> !NetlocStop(p.netloc[i]) && !IsLineOrTab(p.netloc[i]))
    && (p.path == "" || p.path[0] == '/' || p.netloc == "")
    && '?' !in p.path && '#' !in p.path && (forall i :: 0 <= i < |p.path| ==> !IsLineOrTab(p.path[i]))
  }

  lemma TailShape(tail: string)
    requires forall i :: 0 <= i < |tail| ==> !IsLineOrTab(tail[i])
    requires tail == "" || NetlocStop(tail[0])
    ensures var path := Before(Before(tail, '#'), '?');
      && (path == "" || path[0] == '/') && '?' !in path && '#' !in path
      && forall i :: 0 <= i < |path| ==> !IsLineOrTab(path[i])
  {
    var path := Before(Before(tail, '#'), '?');
    assert path <= Before(tail, '#') <= tail;
    assert forall i :: 0 <= i < |path| ==> path[i] == Before(tail, '#')[i] && path[i] == tail[i];
    assert forall i :: 0 <= i < |path| ==> Before(tail, '#')[i] in Before(tail, '#');
  }

  lemma AuthorityShape(rest: string)
    requires (forall i :: 0 <= i < |rest| ==> !IsLineOrTab(rest[i])) && "//" <= rest
    ensures var netloc := Netloc(rest[2..]);
      && (forall i :: 0 <= i < |netloc| ==> !NetlocStop(netloc[i]) && !IsLineOrTab(netloc[i]))
      && 2 + |netloc| <= |rest| && (rest[2 + |netloc|..] == "" || NetlocStop(rest[2 + |netloc|]))
  {
    var body := rest[2..];
    var netloc := Netloc(body);
    assert forall i :: 0 <= i < |body| ==> body[i] == rest[i + 2];
    assert forall i :: 0 <= i < |netloc| ==> netloc[i] == body[i];
    if |netloc| < |body| { assert body[|netloc|] == rest[2 + |netloc|]; }
  }

  lemma RestIsClean(raw: string, rest: string)
    requires forall i :: 0 <= i < |raw| ==> !IsLineOrTab(raw[i])
    requires rest == if ':' in raw then After(raw, ':') else raw
    ensures forall i :: 0 <= i < |rest| ==> !IsLineOrTab(rest[i])
  {
  }

  lemma SplitHasShape(url: string)
    requires SplitUrl(url).netloc != ""
    ensures SplitShape(SplitUrl(url))
  {
    var raw := Clean(url);
    var rest := if ':' in raw then After(raw, ':') else raw;
    RestIsClean(raw, rest);
    SplitOfRest(raw, rest);
    RestHasShape(SplitUrl(url), rest);
  }

  lemma SplitOfRest(raw: string, rest: string)
    requires rest == if ':' in raw then After(raw, ':') else raw
    ensures var p := SplitClean(raw); p == SplitRest(p.scheme, rest) && (p.netloc != "" ==> "//" <= rest)
  {
  }

  lemma RestHasShape(p: Parts, rest: string)
    requires (forall i :: 0 <= i < |rest| ==> !IsLineOrTab(rest[i])) && "//" <= rest
    requires p == SplitRest(p.scheme, rest)
    ensures SplitShape(p)
  {
    AuthorityShape(rest);
    TailShape(rest[2 + |p.netloc|..]);
  }

  lemma AfterLastOfSuffix(prefix: string, x: string, c: char)
    requires (prefix == "" || prefix[|prefix| - 1] == c) && c !in x
    ensures AfterLast(prefix + x, c) == x
  {
    var s := prefix + x;
    var t := AfterLast(s, c);
    TailIsFree(s, t, c);
    assert prefix != "" ==> s[|prefix| - 1] == c;
    assert forall k :: |prefix| <= k < |s| ==> s[k] == x[k - |prefix|] && x[k - |prefix|] in x;
    assert |t| == |x|;
  }

  lemma TailIsFree(s: string, t: string, c: char)
    requires |t| <= |s| && t == s[|s| - |t|..] && c !in t
    ensures forall k :: |s| - |t| <= k < |s| ==> s[k] != c
  {
    forall k | |s| - |t| <= k < |s| ensures s[k] != c {
      assert t[k - (|s| - |t|)] in t;
    }
  }

  /** The authority as scheme-independent pieces. */
  function HostOf(p: Parts): string {
    Before(HostInfo(p.netloc), ':')
  }

  function PortOf(p: Parts): string {
    After(HostInfo(p.netloc), ':')
  }

  predicate IsCanonicalizable(p: Parts) {
    p.scheme in {"http", "https"} && HostOf(p) != "" && PortOk(PortOf(p))
  }

  function NormalNetloc(p: Parts): string
    requires PortOk(PortOf(p))
  {
    UserPrefix(p.netloc) + Lower(HostOf(p)) + PortSuffix(p.scheme, PortOf(p))
  }

  function NormalParts(text: Text, p: Parts): Parts
    requires IsCanonicalizable(p)
  {
    Parts(p.scheme, NormalNetloc(p), NormalPath(p.path), UrlEncode(text.enc, NormalParams(text, p.query)))
  }

  /** Canonicalising is assembling the normal parts. */
  lemma NormalizeAssembles(text: Text, url: string)
    requires IsPlain(url)
    ensures var p := SplitUrl(url);
      if IsCanonicalizable(p) then Normalize(text, url) == Canonical(Assemble(NormalParts(text, p)))
      else !Normalize(text, url).Canonical?
  {
    PartsAssemble(text, SplitUrl(url));
  }

  lemma PartsAssemble(text: Text, p: Parts)
    ensures
      if IsCanonicalizable(p) then NormalizeParts(text, p) == Canonical(Assemble(NormalParts(text, p)))
      else !NormalizeParts(text, p).Canonical?
  {
  }

  lemma HostIsClean(info: string, host: string)
    requires '@' !in info && host == Lower(Before(info, ':'))
    ensures '@' !in host && ':' !in host
  {
    var h := Before(info, ':');
    assert forall i :: 0 <= i < |h| ==> h[i] in info && h[i] in h;
  }

  lemma SplitsAtUser(user: string, info: string)
    requires (user == "" || user[|user| - 1] == '@') && '@' !in info
    ensures HostInfo(user + info) == info && UserPrefix(user + info) == user
  {
    AfterLastOfSuffix(user, info, '@');
  }

  lemma UserEndsAtSign(netloc: string)
    ensures var user := UserPrefix(netloc); user == "" || user[|user| - 1] == '@'
  {
  }

  lemma SplitsAtPort(host: string, scheme: string, port: string)
    requires ':' !in host && PortOk(port)
    ensures var info := host + PortSuffix(scheme, port);
      && Before(info, ':') == host && PortOk(After(info, ':'))
      && PortSuffix(scheme, After(info, ':')) == PortSuffix(scheme, port)
  {
    if PortSuffix(scheme, port) == "" {
      assert host + PortSuffix(scheme, port) == host;
      NothingToCut(host, ':');
    } else {
      var digits := Decimal(Value(port));
      assert host + PortSuffix(scheme, port) == host + [':'] + digits;
      CutAt(host, ':', digits);
      DecimalValue(Value(port));
    }
  }

  lemma SuffixHasNoAt(scheme: string, port: string)
    requires PortOk(port)
    ensures '@' !in PortSuffix(scheme, port)
  {
  }

  lemma NormalInfo(p: Parts)
    requires IsCanonicalizable(p)
    ensures HostInfo(NormalNetloc(p)) == Lower(HostOf(p)) + PortSuffix(p.scheme, PortOf(p))
    ensures UserPrefix(NormalNetloc(p)) == UserPrefix(p.netloc) && ':' !in Lower(HostOf(p))
  {
    var user, host, suffix := UserPrefix(p.netloc), Lower(HostOf(p)), PortSuffix(p.scheme, PortOf(p));
    HostIsClean(HostInfo(p.netloc), host);
    UserEndsAtSign(p.netloc);
    SuffixHasNoAt(p.scheme, PortOf(p));
    SplitsAtUser(user, host + suffix);
    Reassociate(user, host, suffix);
  }

  lemma Reassociate(a: string, b: string, c: string)
    ensures a + b + c == a + (b + c)
  {
  }

  /** Taking the normal authority apart gives the user information, the host without capitals and an equivalent port. */
  lemma NormalAuthority(p: Parts, q: Parts)
    requires IsCanonicalizable(p) && q.netloc == NormalNetloc(p) && q.scheme == p.scheme
    ensures UserPrefix(q.netloc) == UserPrefix(p.netloc) && HostOf(q) == Lower(HostOf(p))
    ensures SameButCase(HostOf(q), HostOf(p)) && NoCapitals(HostOf(q))
    ensures PortOk(PortOf(q)) && PortSuffix(p.scheme, PortOf(q)) == PortSuffix(p.scheme, PortOf(p))
  {
    NormalInfo(p);
    SplitsAtPort(Lower(HostOf(p)), p.scheme, PortOf(p));
    LowerIsLower(HostOf(p));
  }

  predicate AuthorityChar(c: char) {
    c as int < 128 && c != '[' && c != ']' && !NetlocStop(c) && !IsLineOrTab(c)
  }

  predicate AllAuthority(s: string) {
    forall i :: 0 <= i < |s| ==> AuthorityChar(s[i])
  }

  lemma LowerKeepsAuthority(s: string)
    requires AllAuthority(s)
    ensures AllAuthority(Lower(s))
  {
    forall i | 0 <= i < |s| ensures AuthorityChar(Lower(s)[i]) {
      assert AuthorityChar(s[i]);
    }
  }

  lemma PiecesAreAuthority(netloc: string)
    requires AllAuthority(netloc)
    ensures AllAuthority(UserPrefix(netloc)) && AllAuthority(Before(HostInfo(netloc), ':'))
  {
    var info := HostInfo(netloc);
    var host := Before(info, ':');
    forall i | 0 <= i < |host| ensures AuthorityChar(host[i]) {
      assert host[i] == info[i] == netloc[|netloc| - |info| + i];
    }
  }

  lemma SuffixIsAuthority(scheme: string, port: string)
    requires PortOk(port)
    ensures AllAuthority(PortSuffix(scheme, port))
  {
  }

  lemma NormalNetlocShape(p: Parts)
    requires IsCanonicalizable(p) && AllAuthority(p.netloc)
    ensures AllAuthority(NormalNetloc(p))
  {
    PiecesAreAuthority(p.netloc);
    LowerKeepsAuthority(HostOf(p));
    SuffixIsAuthority(p.scheme, PortOf(p));
  }

  lemma QueryTextShape(text: Text, ps: seq<Param>)
    ensures var q := UrlEncode(text.enc, ps); '#' !in q && forall i :: 0 <= i < |q| ==> !IsLineOrTab(q[i])
  {
    UrlEncodeShape(text.enc, ps);
  }

  lemma NormalPathShape(p: Parts)
    requires SplitShape(p) && p.netloc != ""
    ensures var path := NormalPath(p.path);
      && (path == "" || path[0] == '/') && '?' !in path && '#' !in path
      && forall i :: 0 <= i < |path| ==> !IsLineOrTab(path[i])
  {
    NormalPathStays(p.path);
    var path := NormalPath(p.path);
    assert forall i :: 0 <= i < |path| ==> path[i] == p.path[i] && p.path[i] in p.path;
  }

  lemma NormalPartsAssemble(text: Text, url: string)
    requires IsPlain(url) && IsCanonicalizable(SplitUrl(url))
    ensures CanAssemble(NormalParts(text, SplitUrl(url))) && AllAuthority(NormalNetloc(SplitUrl(url)))
  {
    var p := SplitUrl(url);
    SplitHasShape(url);
    NormalNetlocShape(p);
    NormalPathShape(p);
    QueryTextShape(text, NormalParams(text, p.query));
  }

  lemma NormalNetlocStays(p: Parts, q: Parts)
    requires IsCanonicalizable(p) && q.netloc == NormalNetloc(p) && q.scheme == p.scheme
    ensures IsCanonicalizable(q) && NormalNetloc(q) == q.netloc
  {
    NormalAuthority(p, q);
    assert Lower(Lower(HostOf(p))) == Lower(HostOf(p));
  }

  /** Normalising normal parts changes nothing. */
  lemma NormalPartsStay(text: Text, p: Parts, q: Parts)
    requires Lawful(text.enc) && IsCanonicalizable(p) && q == NormalParts(text, p)
    ensures IsCanonicalizable(q) && NormalParts(text, q) == q
  {
    NormalNetlocStays(p, q);
    NormalPathStays(p.path);
    ParamsStay(text, p.query);
  }

  /** The form the code settles on: canonicalising it again gives it back. */
  lemma CanonicalIsNormal(text: Text, url: string, u: string)
    requires Lawful(text.enc) && IsPlain(url) && Normalize(text, url) == Canonical(u)
    ensures IsPlain(u) && Normalize(text, u) == Canonical(u)
  {
    var p := SplitUrl(url);
    NormalizeAssembles(text, url);
    var q := NormalParts(text, p);
    NormalPartsAssemble(text, url);
    SplitAssembled(q);
    NormalPartsStay(text, p, q);
    NormalizeAssembles(text, u);
  }

  // ---- The same resource ----

  /** The two URLs differ at most in scheme and host case, default port, trailing slashes, fragment,
      tracking parameters and the order of the others. */
  ghost predicate SameResource(text: Text, a: Parts, b: Parts)
    requires IsCanonicalizable(a) && IsCanonicalizable(b)
  {
    && a.scheme == b.scheme && UserPrefix(a.netloc) == UserPrefix(b.netloc)
    && SameButCase(HostOf(a), HostOf(b))
    && EffectivePort(a.scheme, PortOf(a)) == EffectivePort(b.scheme, PortOf(b))
    && NormalPath(a.path) == NormalPath(b.path)
    && multiset(Kept(text, ParseQuery(text.enc, a.query))) == multiset(Kept(text, ParseQuery(text.enc, b.query)))
  }

  lemma SameParamsIff(text: Text, a: string, b: string)
    requires Lawful(text.enc)
    ensures UrlEncode(text.enc, NormalParams(text, a)) == UrlEncode(text.enc, NormalParams(text, b)) <==>
            multiset(Kept(text, ParseQuery(text.enc, a))) == multiset(Kept(text, ParseQuery(text.enc, b)))
  {
    var ka, kb := Kept(text, ParseQuery(text.enc, a)), Kept(text, ParseQuery(text.enc, b));
    QueryRoundTrip(text.enc, NormalParams(text, a));
    QueryRoundTrip(text.enc, NormalParams(text, b));
    if multiset(ka) == multiset(kb) {
      ParamLeIsTotalOrder();
      SortSorts(ParamLe, ka);
      SortSorts(ParamLe, kb);
      SortedUnique(ParamLe, Sort(ParamLe, ka), Sort(ParamLe, kb));
    }
  }

  lemma SameAuthorityIff(a: Parts, b: Parts)
    requires IsCanonicalizable(a) && IsCanonicalizable(b) && a.scheme == b.scheme
    ensures NormalNetloc(a) == NormalNetloc(b) <==>
      && UserPrefix(a.netloc) == UserPrefix(b.netloc) && SameButCase(HostOf(a), HostOf(b))
      && EffectivePort(a.scheme, PortOf(a)) == EffectivePort(b.scheme, PortOf(b))
  {
    SuffixIsEffectivePort(a.scheme, PortOf(a), PortOf(b));
    LowerIff(HostOf(a), HostOf(b));
    if NormalNetloc(a) == NormalNetloc(b) {
      var q := a.(netloc := NormalNetloc(a));
      NormalAuthority(a, q);
      NormalAuthority(b, q);
    }
  }

  /** Two URLs have one canonical form exactly when they name the same resource. */
  lemma CanonicalEqualIff(text: Text, a: string, b: string)
    requires Lawful(text.enc) && IsPlain(a) && IsPlain(b)
    requires IsCanonicalizable(SplitUrl(a)) && IsCanonicalizable(SplitUrl(b))
    ensures Normalize(text, a).Canonical?
    ensures Normalize(text, a) == Normalize(text, b) <==> SameResource(text, SplitUrl(a), SplitUrl(b))
  {
    var p, q := SplitUrl(a), SplitUrl(b);
    NormalizeAssembles(text, a);
    NormalizeAssembles(text, b);
    NormalPartsAssemble(text, a);
    NormalPartsAssemble(text, b);
    SplitAssembled(NormalParts(text, p));
    SplitAssembled(NormalParts(text, q));
    SameParamsIff(text, p.query, q.query);
    if p.scheme == q.scheme { SameAuthorityIff(p, q); }
  }

  // ---- What the query part of that relation absorbs ----

  ghost function KeptBag(text: Text, segs: seq<string>): multiset<Param> {
    multiset(Kept(text, ParseSegments(text.enc, segs)))
  }

  lemma Regroup<T>(x: seq<T>, y: seq<T>, z: seq<T>)
    ensures x + (y + z) == x + y + z
  {
  }

  /** A function that takes a list apart at its first element takes it apart anywhere. */
  lemma {:induction false} Adds<A, B>(f: seq<A> -> seq<B>, a: seq<A>, b: seq<A>)
    requires f([]) == [] && forall x: A, r: seq<A> :: f([x] + r) == f([x]) + f(r)
    ensures f(a + b) == f(a) + f(b)
    decreases |a|
  {
    if a == [] {
      assert a + b == b;
    } else {
      Adds(f, a[1..], b);
      assert a == [a[0]] + a[1..];
      assert a + b == [a[0]] + (a[1..] + b);
      Regroup(f([a[0]]), f(a[1..]), f(b));
    }
  }

  lemma ParseCons(enc: Encoding, seg: string, rest: seq<string>)
    ensures ParseSegments(enc, [seg] + rest) == ParseSegments(enc, [seg]) + ParseSegments(enc, rest)
  {
    assert ([seg] + rest)[1..] == rest && [seg][1..] == [];
    assert ParseSegments(enc, []) == [];
  }

  lemma ParseAdds(enc: Encoding, a: seq<string>, b: seq<string>)
    ensures ParseSegments(enc, a + b) == ParseSegments(enc, a) + ParseSegments(enc, b)
  {
    forall x, r ensures ParseSegments(enc, [x] + r) == ParseSegments(enc, [x]) + ParseSegments(enc, r) {
      ParseCons(enc, x, r);
    }
    Adds((s: seq<string>) => ParseSegments(enc, s), a, b);
  }

  lemma KeptCons(text: Text, p: Param, rest: seq<Param>)
    ensures Kept(text, [p] + rest) == Kept(text, [p]) + Kept(text, rest)
  {
    assert ([p] + rest)[1..] == rest && [p][1..] == [];
    assert Kept(text, []) == [];
  }

  lemma KeptAdds(text: Text, a: seq<Param>, b: seq<Param>)
    ensures Kept(text, a + b) == Kept(text, a) + Kept(text, b)
  {
    forall x, r ensures Kept(text, [x] + r) == Kept(text, [x]) + Kept(text, r) {
      KeptCons(text, x, r);
    }
    Adds((s: seq<Param>) => Kept(text, s), a, b);
  }

  lemma KeptBagAdds(text: Text, a: seq<string>, b: seq<string>)
    ensures KeptBag(text, a + b) == KeptBag(text, a) + KeptBag(text, b)
  {
    ParseAdds(text.enc, a, b);
    KeptAdds(text, ParseSegments(text.enc, a), ParseSegments(text.enc, b));
  }

  lemma KeptBagPullsOut(text: Text, l: seq<string>, x: string, r: seq<string>)
    ensures KeptBag(text, l + [x] + r) == KeptBag(text, [x]) + KeptBag(text, l + r)
  {
    KeptBagAdds(text, l + [x], r);
    KeptBagAdds(text, l, [x]);
    KeptBagAdds(text, l, r);
  }

  /** The order of the segments does not count. */
  lemma {:induction false} SegmentOrderIsFree(text: Text, a: seq<string>, b: seq<string>)
    requires multiset(a) == multiset(b)
    ensures KeptBag(text, a) == KeptBag(text, b)
    decreases |a|
  {
    assert |a| == |multiset(a)| && |b| == |multiset(b)|;
    if a != [] {
      assert a[0] in multiset(b);
      var k :| 0 <= k < |b| && b[k] == a[0];
      PullOut(a, 0);
      PullOut(b, k);
      SegmentOrderIsFree(text, a[..0] + a[1..], b[..k] + b[k + 1..]);
      KeptBagPullsOut(text, a[..0], a[0], a[1..]);
      KeptBagPullsOut(text, b[..k], b[k], b[k + 1..]);
    }
  }

  predicate IsTrackingSegment(text: Text, seg: string) {
    seg == "" || IsTracking(text, ParseSegment(text.enc, seg).0)
  }

  lemma {:induction false} TrackingCountsNothing(text: Text, tracking: seq<string>)
    requires forall i :: 0 <= i < |tracking| ==> IsTrackingSegment(text, tracking[i])
    ensures KeptBag(text, tracking) == multiset{}
    decreases |tracking|
  {
    if tracking != [] {
      TrackingCountsNothing(text, tracking[1..]);
      var p := ParseSegment(text.enc, tracking[0]);
      var rest := ParseSegments(text.enc, tracking[1..]);
      if tracking[0] != "" {
        assert ([p] + rest)[1..] == rest;
      } else {
        assert [] + rest == rest;
      }
    }
  }

  /** Rearranging the segments of a query, or adding tracking segments anywhere, keeps what counts. */
  lemma SegmentsRearranged(text: Text, a: seq<string>, b: seq<string>, tracking: seq<string>)
    requires multiset(b) == multiset(a) + multiset(tracking)
    requires forall i :: 0 <= i < |tracking| ==> IsTrackingSegment(text, tracking[i])
    ensures KeptBag(text, b) == KeptBag(text, a)
  {
    SegmentOrderIsFree(text, b, a + tracking);
    KeptBagAdds(text, a, tracking);
    TrackingCountsNothing(text, tracking);
  }

  /** The same for whole queries. */
  lemma QueriesRearranged(text: Text, a: seq<string>, b: seq<string>, tracking: seq<string>)
    requires a != [] && b != [] && forall i :: 0 <= i < |a| ==> '&' !in a[i]
    requires forall i :: 0 <= i < |b| ==> '&' !in b[i]
    requires multiset(b) == multiset(a) + multiset(tracking)
    requires forall i :: 0 <= i < |tracking| ==> IsTrackingSegment(text, tracking[i])
    ensures multiset(Kept(text, ParseQuery(text.enc, JoinWith(a, '&')))) ==
            multiset(Kept(text, ParseQuery(text.enc, JoinWith(b, '&'))))
  {
    SplitJoin(a, '&');
    SplitJoin(b, '&');
    SegmentsRearranged(text, a, b, tracking);
  }
}
