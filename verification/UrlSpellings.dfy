/** Spellings of a URL that canonicalisation does not tell apart, said on the texts themselves (canonical_url.py). */
module UrlSpellings {
  import opened Texts
  import opened PercentCodec
  import opened CanonicalUrls
  import opened CanonicalUrlTheorems

  // ---- What urlsplit makes of a text with something appended ----

  lemma {:induction false} DropLeadingOfSum(s: string, x: string, c: char)
    requires c in s && !IsC0OrSpace(c)
    ensures DropLeadingC0(s + x) == DropLeadingC0(s) + x && c in DropLeadingC0(s)
    decreases |s|
  {
    if IsC0OrSpace(s[0]) {
      assert s == [s[0]] + s[1..] && (s + x)[1..] == s[1..] + x;
      DropLeadingOfSum(s[1..], x, c);
    }
  }

  lemma {:induction false} DropLinesOfSum(s: string, x: string)
    ensures DropLinesAndTabs(s + x) == DropLinesAndTabs(s) + DropLinesAndTabs(x)
    decreases |s|
  {
    if s == "" {
      assert s + x == x;
    } else {
      assert (s + x)[1..] == s[1..] + x;
      DropLinesOfSum(s[1..], x);
    }
  }

  lemma {:induction false} DropLinesKeeps(s: string, c: char)
    requires c in s && !IsLineOrTab(c)
    ensures c in DropLinesAndTabs(s)
    decreases |s|
  {
    if s[0] != c {
      assert s == [s[0]] + s[1..];
      DropLinesKeeps(s[1..], c);
    }
  }

  lemma CleanOfSum(s: string, x: string)
    requires ':' in s
    ensures Clean(s + x) == Clean(s) + DropLinesAndTabs(x) && ':' in Clean(s)
  {
    DropLeadingOfSum(s, x, ':');
    DropLinesOfSum(DropLeadingC0(s), x);
    DropLinesKeeps(DropLeadingC0(s), ':');
  }

  /** The first c ends the part before it. */
  lemma BeforeIs(s: string, p: string, c: char)
    requires p <= s && (|p| < |s| ==> s[|p|] == c) && c !in p
    ensures Before(s, c) == p
  {
    NotBeyond(s, p, Before(s, c), c);
    NotBeyond(s, Before(s, c), p, c);
  }

  /** A prefix without c does not reach beyond a place of c. */
  lemma NotBeyond(s: string, p: string, q: string, c: char)
    requires p <= s && q <= s && c !in p && (|q| < |s| ==> s[|q|] == c)
    ensures |p| <= |q|
  {
    assert forall i :: 0 <= i < |p| ==> p[i] in p && p[i] == s[i];
  }

  lemma BeforeOfSum(s: string, x: string, c: char)
    requires c in s
    ensures Before(s + x, c) == Before(s, c) && After(s + x, c) == After(s, c) + x
  {
    var p := Before(s, c);
    assert |p| < |s|;
    assert (s + x)[|p|] == s[|p|] && p <= s <= s + x;
    BeforeIs(s + x, p, c);
    SuffixOfSum(s, x, |p| + 1);
  }

  lemma BeforeInTail(s: string, x: string, c: char)
    requires c !in s
    ensures Before(s + x, c) == s + Before(x, c) && After(s + x, c) == After(x, c)
  {
    var q := Before(x, c);
    PrefixInSum(s, q, x);
    BeforeIs(s + x, s + q, c);
    if |q| < |x| { SuffixInSum(s, x, |q| + 1); }
  }

  lemma PrefixInSum(s: string, q: string, x: string)
    requires q <= x
    ensures s + q <= s + x && (|q| < |x| ==> (s + x)[|s + q|] == x[|q|])
  {
  }

  lemma SuffixInSum(s: string, x: string, k: nat)
    requires k <= |x|
    ensures (s + x)[|s| + k..] == x[k..]
  {
  }

  lemma SuffixOfSum(s: string, y: string, k: nat)
    requires k <= |s|
    ensures (s + y)[k..] == s[k..] + y
  {
  }

  lemma NetlocOfSum(s: string, x: string)
    requires |Netloc(s)| < |s| || x == "" || NetlocStop(x[0])
    ensures Netloc(s + x) == Netloc(s)
  {
    var n, m := Netloc(s), Netloc(s + x);
    assert forall i :: 0 <= i < |m| ==> m[i] == (s + x)[i];
    assert forall i :: 0 <= i < |n| ==> n[i] == (s + x)[i];
    if |n| < |s| {
      assert (s + x)[|n|] == s[|n|];
    } else if x != "" {
      assert (s + x)[|n|] == x[0];
    }
    assert |m| == |n|;
  }

  /** A text that runs up to its authority or path: nothing yet of a query or a fragment. */
  predicate IsBase(s: string) {
    ':' in s && '?' !in s && '#' !in s && SplitUrl(s).netloc != ""
  }

  predicate BeginsTail(x: string) {
    x == "" || x[0] == '?' || x[0] == '#'
  }

  lemma CleanKeepsOut(s: string, c: char)
    requires c !in s
    ensures c !in Clean(s)
  {
    LeadingKeepsOut(s, c);
    LinesKeepOut(DropLeadingC0(s), c);
  }

  lemma {:induction false} LeadingKeepsOut(s: string, c: char)
    requires c !in s
    ensures c !in DropLeadingC0(s)
    decreases |s|
  {
    if s != "" && IsC0OrSpace(s[0]) { LeadingKeepsOut(s[1..], c); }
  }

  lemma {:induction false} LinesKeepOut(s: string, c: char)
    requires c !in s
    ensures c !in DropLinesAndTabs(s)
    decreases |s|
  {
    if s != "" {
      assert s[0] in s && c !in s[1..];
      LinesKeepOut(s[1..], c);
    }
  }

  /** What follows the authority of a base, and what is appended to it. */
  lemma RestOfSum(rest: string, netloc: string, tail: string, x: string)
    requires "//" <= rest && '?' !in rest && '#' !in rest && netloc == Netloc(rest[2..]) && tail == rest[2 + |netloc|..]
    requires tail != "" || x == "" || NetlocStop(x[0])
    ensures Netloc((rest + x)[2..]) == netloc && (rest + x)[2 + |netloc|..] == tail + x
    ensures '?' !in tail && '#' !in tail
  {
    var body := rest[2..];
    assert tail == body[|netloc|..];
    assert (rest + x)[2..] == body + x;
    NetlocOfSum(body, x);
    assert forall c :: c in tail ==> c in rest;
  }

  lemma SplitsAs(raw: string, rest: string, netloc: string, tail: string)
    requires ':' in raw && rest == After(raw, ':') && "//" <= rest
    requires netloc == Netloc(rest[2..]) && tail == rest[2 + |netloc|..]
    ensures SplitClean(raw) == TailParts(Lower(Before(raw, ':')), netloc, tail)
  {
  }

  lemma BaseRest(raw: string) returns (rest: string, netloc: string, tail: string)
    requires ':' in raw && '?' !in raw && '#' !in raw && SplitClean(raw).netloc != ""
    ensures rest == After(raw, ':') && "//" <= rest && '?' !in rest && '#' !in rest
    ensures netloc == Netloc(rest[2..]) && tail == rest[2 + |netloc|..] && '?' !in tail && '#' !in tail
    ensures SplitClean(raw) == Parts(Lower(Before(raw, ':')), netloc, tail, "")
  {
    rest := After(raw, ':');
    assert forall c :: c in rest ==> c in raw;
    netloc := Netloc(rest[2..]);
    tail := rest[2 + |netloc|..];
    assert forall c :: c in tail ==> c in rest;
    PlainTail(tail);
    SplitsAs(raw, rest, netloc, tail);
  }

  lemma SplitCleanOfSum(raw: string, x: string)
    requires ':' in raw && '?' !in raw && '#' !in raw && SplitClean(raw).netloc != ""
    requires SplitClean(raw).path != "" || x == "" || NetlocStop(x[0])
    ensures SplitClean(raw + x) == SplitClean(raw).(
      path := SplitClean(raw).path + Before(Before(x, '#'), '?'), query := After(Before(x, '#'), '?'))
  {
    var rest, netloc, tail := BaseRest(raw);
    BeforeOfSum(raw, x, ':');
    RestOfSum(rest, netloc, tail, x);
    SplitsAs(raw + x, rest + x, netloc, tail + x);
    TailOfSum(tail, x);
  }

  lemma PlainTail(tail: string)
    requires '?' !in tail && '#' !in tail
    ensures Before(tail, '#') == tail && Before(tail, '?') == tail && After(tail, '?') == ""
  {
    NothingToCut(tail, '#');
    NothingToCut(tail, '?');
  }

  lemma TailOfSum(tail: string, x: string)
    requires '?' !in tail && '#' !in tail
    ensures Before(tail + x, '#') == tail + Before(x, '#')
    ensures Before(tail + Before(x, '#'), '?') == tail + Before(Before(x, '#'), '?')
    ensures After(tail + Before(x, '#'), '?') == After(Before(x, '#'), '?')
  {
    BeforeInTail(tail, x, '#');
    BeforeInTail(tail, Before(x, '#'), '?');
  }

  lemma SplitOfSum(s: string, x: string, y: string, path: string, query: string)
    requires IsBase(s) && y == DropLinesAndTabs(x) && (SplitUrl(s).path != "" || y == "" || NetlocStop(y[0]))
    requires path == Before(Before(y, '#'), '?') && query == After(Before(y, '#'), '?')
    ensures SplitUrl(s + x) == SplitUrl(s).(path := SplitUrl(s).path + path, query := query)
  {
    CleanOfSum(s, x);
    CleanKeepsOut(s, '?');
    CleanKeepsOut(s, '#');
    SplitCleanOfSum(Clean(s), y);
  }

  // ---- The spellings ----

  lemma SameSplit(text: Text, a: string, b: string)
    requires IsPlain(a) && SplitUrl(a) == SplitUrl(b)
    ensures IsPlain(b) && Normalize(text, a) == Normalize(text, b)
  {
  }

  /** The fragment does not count. */
  lemma FragmentIsFree(text: Text, s: string, fragment: string)
    requires ':' in s && '#' !in s && IsPlain(s)
    ensures IsPlain(s + "#" + fragment) && Normalize(text, s + "#" + fragment) == Normalize(text, s)
  {
    var x := "#" + fragment;
    CleanOfSum(s, x);
    CleanKeepsOut(s, '#');
    var y := DropLinesAndTabs(x);
    assert s + x == s + "#" + fragment;
    SplitCleanBeforeHash(Clean(s), y);
    SameSplit(text, s, s + x);
  }

  lemma HashEnds(s: string, y: string)
    requires '#' !in s && y != "" && y[0] == '#'
    ensures Before(s + y, '#') == s == Before(s, '#')
  {
    BeforeInTail(s, y, '#');
    NothingToCut(s, '#');
    assert s + "" == s;
  }

  lemma HashAfterAuthority(scheme: string, rest: string, y: string)
    requires '#' !in rest && "//" <= rest && y != "" && y[0] == '#'
    ensures SplitRest(scheme, rest + y) == SplitRest(scheme, rest)
  {
    var netloc := Netloc(rest[2..]);
    SuffixOfSum(rest, y, 2);
    SuffixOfSum(rest, y, 2 + |netloc|);
    NetlocOfSum(rest[2..], y);
    SuffixKeepsOut(rest, 2 + |netloc|, '#');
    HashEnds(rest[2 + |netloc|..], y);
  }

  lemma SuffixKeepsOut(s: string, k: nat, c: char)
    requires k <= |s| && c !in s
    ensures c !in s[k..]
  {
  }

  lemma NoSlashes(rest: string, y: string)
    requires !("//" <= rest) && y != "" && y[0] == '#'
    ensures !("//" <= rest + y)
  {
    if |rest| >= 2 {
      assert (rest + y)[0] == rest[0] && (rest + y)[1] == rest[1];
    } else {
      assert (rest + y)[|rest|] == '#';
    }
  }

  lemma SplitCleanBeforeHash(raw: string, y: string)
    requires ':' in raw && '#' !in raw && y != "" && y[0] == '#'
    ensures SplitClean(raw + y) == SplitClean(raw)
  {
    BeforeOfSum(raw, y, ':');
    var scheme, rest := Lower(Before(raw, ':')), After(raw, ':');
    assert '#' !in rest by { assert forall c :: c in rest ==> c in raw; }
    if "//" <= rest {
      HashAfterAuthority(scheme, rest, y);
    } else {
      NoSlashes(rest, y);
      HashEnds(rest, y);
    }
  }

  // Query and fragment after a base, with and without one more slash before them.

  lemma TailSpelling(s: string, x: string, y: string)
    requires IsBase(s) && SplitUrl(s).path != "" && BeginsTail(x) && y == DropLinesAndTabs(x) && BeginsTail(y)
    ensures SplitUrl(s + x) == SplitUrl(s).(query := After(Before(y, '#'), '?'))
  {
    NoPathInTail(y);
    SplitOfSum(s, x, y, "", After(Before(y, '#'), '?'));
    assert SplitUrl(s).path + "" == SplitUrl(s).path;
  }

  lemma SlashSpelling(s: string, x: string, y: string)
    requires IsBase(s) && SplitUrl(s).path != "" && BeginsTail(x) && y == DropLinesAndTabs(x) && BeginsTail(y)
    ensures SplitUrl(s + "/" + x) == SplitUrl(s).(path := SplitUrl(s).path + "/", query := After(Before(y, '#'), '?'))
  {
    SlashStays(x);
    SlashThenTail(y);
    SplitOfSum(s, "/" + x, "/" + y, "/", After(Before(y, '#'), '?'));
    Regroup(s, "/", x);
  }

  lemma SlashStays(x: string)
    ensures DropLinesAndTabs("/" + x) == "/" + DropLinesAndTabs(x)
  {
    assert ("/" + x)[1..] == x;
  }

  lemma TailStaysTail(x: string)
    requires BeginsTail(x)
    ensures BeginsTail(DropLinesAndTabs(x))
  {
  }

  lemma NoPathInTail(y: string)
    requires BeginsTail(y)
    ensures Before(Before(y, '#'), '?') == ""
  {
  }

  lemma SlashThenTail(y: string)
    requires BeginsTail(y)
    ensures Before(Before("/" + y, '#'), '?') == "/" && After(Before("/" + y, '#'), '?') == After(Before(y, '#'), '?')
  {
    BeforeInTail("/", y, '#');
    BeforeInTail("/", Before(y, '#'), '?');
    NoPathInTail(y);
    assert "/" + "" == "/";
  }

  /** A slash after a path other than the root does not count, whatever query and fragment follow. */
  lemma TrailingSlashIsFree(text: Text, s: string, x: string)
    requires IsBase(s) && SplitUrl(s).path != "" && SplitUrl(s).path != "/" && BeginsTail(x) && IsPlain(s + x)
    ensures IsPlain(s + "/" + x) && Normalize(text, s + "/" + x) == Normalize(text, s + x)
  {
    var y := DropLinesAndTabs(x);
    TailStaysTail(x);
    TailSpelling(s, x, y);
    SlashSpelling(s, x, y);
    OneSlashMore(text, SplitUrl(s + x), SplitUrl(s + "/" + x));
  }

  lemma OneSlashMore(text: Text, p: Parts, q: Parts)
    requires q == p.(path := p.path + "/") && p.path != "" && p.path != "/"
    ensures NormalizeParts(text, q) == NormalizeParts(text, p)
  {
    assert (p.path + "/")[..|p.path|] == p.path;
    assert NormalPath(q.path) == NormalPath(p.path);
  }

  predicate IsLetter(c: char) {
    'a' <= c <= 'z' || 'A' <= c <= 'Z'
  }

  predicate AllLetters(s: string) {
    s != "" && forall i :: 0 <= i < |s| ==> IsLetter(s[i])
  }

  lemma CleanWithScheme(scheme: string, rest: string)
    requires AllLetters(scheme)
    ensures Clean(scheme + ":" + rest) == scheme + [':'] + DropLinesAndTabs(rest)
  {
    var x := ":" + rest;
    assert scheme + x == scheme + ":" + rest;
    assert !IsC0OrSpace((scheme + x)[0]);
    DropLinesOfSum(scheme, x);
    NothingToDrop(scheme);
    ColonStays(rest);
    Regroup(scheme, [':'], DropLinesAndTabs(rest));
  }

  lemma ColonStays(rest: string)
    ensures DropLinesAndTabs(":" + rest) == [':'] + DropLinesAndTabs(rest)
  {
    assert (":" + rest)[1..] == rest;
  }

  lemma SplitAtScheme(scheme: string, rest: string)
    requires AllLetters(scheme)
    ensures var raw := Clean(scheme + ":" + rest);
      ':' in raw && Before(raw, ':') == scheme && After(raw, ':') == DropLinesAndTabs(rest)
  {
    CleanWithScheme(scheme, rest);
    assert ':' !in scheme;
    CutAt(scheme, ':', DropLinesAndTabs(rest));
  }

  /** The case of the scheme does not count. */
  lemma SchemeCaseIsFree(text: Text, scheme: string, other: string, rest: string)
    requires AllLetters(scheme) && AllLetters(other) && SameButCase(scheme, other) && IsPlain(scheme + ":" + rest)
    ensures IsPlain(other + ":" + rest)
    ensures Normalize(text, other + ":" + rest) == Normalize(text, scheme + ":" + rest)
  {
    var a, b := scheme + ":" + rest, other + ":" + rest;
    LowerIff(scheme, other);
    SplitAtScheme(scheme, rest);
    SplitAtScheme(other, rest);
    SameAfterScheme(Clean(a), Clean(b));
    SameSplit(text, a, b);
  }

  lemma SameAfterScheme(a: string, b: string)
    requires ':' in a && ':' in b && Lower(Before(a, ':')) == Lower(Before(b, ':')) && After(a, ':') == After(b, ':')
    ensures SplitClean(a) == SplitClean(b)
  {
  }

  // ---- Host and port ----

  /** scheme://authority, and what follows it. */
  function AuthorityUrl(scheme: string, netloc: string, tail: string): string {
    scheme + ":" + ("//" + netloc + tail)
  }

  predicate EndsAuthority(tail: string) {
    tail == "" || NetlocStop(tail[0])
  }

  lemma CleanRest(netloc: string, tail: string)
    requires AllAuthority(netloc)
    ensures DropLinesAndTabs("//" + netloc + tail) == "//" + netloc + DropLinesAndTabs(tail)
  {
    assert forall i :: 0 <= i < |"//" + netloc| ==> !IsLineOrTab(("//" + netloc)[i]);
    DropLinesOfSum("//" + netloc, tail);
    NothingToDrop("//" + netloc);
  }

  lemma AuthorityUrlSplits(scheme: string, netloc: string, tail: string, y: string)
    requires AllLetters(scheme) && AllAuthority(netloc) && EndsAuthority(tail) && y == DropLinesAndTabs(tail)
    ensures IsPlain(AuthorityUrl(scheme, netloc, tail))
    ensures SplitUrl(AuthorityUrl(scheme, netloc, tail)) ==
      Parts(Lower(scheme), netloc, Before(Before(y, '#'), '?'), After(Before(y, '#'), '?'))
  {
    SplitAtScheme(scheme, "//" + netloc + tail);
    CleanRest(netloc, tail);
    SplitAuthority(netloc, y);
    SplitsAs(Clean(AuthorityUrl(scheme, netloc, tail)), "//" + netloc + y, netloc, y);
  }

  /** User information with its sign, or none. */
  predicate IsUser(user: string) {
    AllAuthority(user) && (user == "" || user[|user| - 1] == '@')
  }

  predicate IsHost(host: string) {
    AllAuthority(host) && '@' !in host && ':' !in host
  }

  /** A colon and a port, or nothing. */
  predicate IsPortText(port: string) {
    AllAuthority(port) && '@' !in port && (port == "" || port[0] == ':')
  }

  lemma AuthorityTakenApart(user: string, host: string, port: string)
    requires IsUser(user) && IsHost(host) && IsPortText(port)
    ensures var netloc := user + host + port;
      && AllAuthority(netloc) && UserPrefix(netloc) == user
      && Before(HostInfo(netloc), ':') == host && After(HostInfo(netloc), ':') == if port == "" then "" else port[1..]
  {
    AuthorityJoins(host, port);
    AuthorityJoins(user, host + port);
    Reassociate(user, host, port);
    NoSignIn(host, port);
    SplitsAtUser(user, host + port);
    InfoTakenApart(host, port);
  }

  lemma AuthorityJoins(a: string, b: string)
    requires AllAuthority(a) && AllAuthority(b)
    ensures AllAuthority(a + b)
  {
  }

  lemma NoSignIn(a: string, b: string)
    requires '@' !in a && '@' !in b
    ensures '@' !in a + b
  {
  }

  lemma InfoTakenApart(host: string, port: string)
    requires ':' !in host && (port == "" || port[0] == ':')
    ensures Before(host + port, ':') == host && After(host + port, ':') == if port == "" then "" else port[1..]
  {
    if port == "" {
      assert host + port == host;
      NothingToCut(host, ':');
    } else {
      BeforeInTail(host, port, ':');
      assert port == "" + [':'] + port[1..];
      CutAt("", ':', port[1..]);
    }
  }

  /** The case of the host does not count, whatever user, port, path, query and fragment stand around it. */
  lemma HostCaseIsFree(text: Text, scheme: string, user: string, host: string, other: string, port: string,
                       tail: string)
    requires AllLetters(scheme) && IsUser(user) && IsPortText(port) && EndsAuthority(tail)
    requires IsHost(host) && IsHost(other) && SameButCase(host, other)
    ensures var a, b := AuthorityUrl(scheme, user + host + port, tail), AuthorityUrl(scheme, user + other + port, tail);
      IsPlain(a) && IsPlain(b) && Normalize(text, a) == Normalize(text, b)
  {
    LowerIff(host, other);
    AuthorityTakenApart(user, host, port);
    AuthorityTakenApart(user, other, port);
    AuthorityUrlSplits(scheme, user + host + port, tail, DropLinesAndTabs(tail));
    AuthorityUrlSplits(scheme, user + other + port, tail, DropLinesAndTabs(tail));
    SameHost(text, SplitUrl(AuthorityUrl(scheme, user + host + port, tail)), user + other + port);
  }

  lemma SameHost(text: Text, p: Parts, netloc: string)
    requires UserPrefix(p.netloc) == UserPrefix(netloc) && PortOf(p) == After(HostInfo(netloc), ':')
    requires Lower(HostOf(p)) == Lower(Before(HostInfo(netloc), ':'))
    ensures NormalizeParts(text, p) == NormalizeParts(text, p.(netloc := netloc))
  {
    EmptyAlike(HostOf(p), Before(HostInfo(netloc), ':'));
  }

  lemma EmptyAlike(a: string, b: string)
    requires Lower(a) == Lower(b)
    ensures a == "" <==> b == ""
  {
    assert |Lower(a)| == |a| && |Lower(b)| == |b|;
  }

  predicate IsHttpScheme(scheme: string) {
    SameButCase(scheme, "http") || SameButCase(scheme, "https")
  }

  /** 80 for http, 443 for https, in any letter case. */
  predicate IsUsualPort(scheme: string, number: nat) {
    (SameButCase(scheme, "http") && number == 80) || (SameButCase(scheme, "https") && number == 443)
  }

  lemma HttpSchemeIff(scheme: string)
    ensures Lower(scheme) == "http" <==> SameButCase(scheme, "http")
    ensures Lower(scheme) == "https" <==> SameButCase(scheme, "https")
  {
    assert Lower("http") == "http" && Lower("https") == "https";
    LowerIff(scheme, "http");
    LowerIff(scheme, "https");
  }

  lemma UsualPortIff(scheme: string, number: nat)
    ensures IsUsualPort(scheme, number) ==> DefaultPort(Lower(scheme)) == number
    ensures IsHttpScheme(scheme) && DefaultPort(Lower(scheme)) == number ==> IsUsualPort(scheme, number)
  {
    HttpSchemeIff(scheme);
  }

  /** Neither an empty port nor the scheme's default port counts, with any number of leading zeros. */
  lemma DefaultPortIsFree(text: Text, scheme: string, user: string, host: string, digits: string, tail: string)
    requires AllLetters(scheme) && IsUser(user) && IsHost(host) && EndsAuthority(tail)
    requires digits == "" || (IsDigits(digits) && IsUsualPort(scheme, Value(digits)))
    ensures var a := AuthorityUrl(scheme, user + host, tail);
      var b := AuthorityUrl(scheme, user + host + (":" + digits), tail);
      IsPlain(a) && IsPlain(b) && Normalize(text, a) == Normalize(text, b)
  {
    var port := ":" + digits;
    if digits != "" { UsualPortIff(scheme, Value(digits)); }
    DigitsArePort(digits);
    AuthorityTakenApart(user, host, "");
    assert user + host + "" == user + host;
    AuthorityTakenApart(user, host, port);
    AuthorityUrlSplits(scheme, user + host, tail, DropLinesAndTabs(tail));
    AuthorityUrlSplits(scheme, user + host + port, tail, DropLinesAndTabs(tail));
    assert port[1..] == digits;
    SamePort(text, SplitUrl(AuthorityUrl(scheme, user + host, tail)), user + host + port);
  }

  lemma DigitsArePort(digits: string)
    requires digits == "" || IsDigits(digits)
    ensures IsPortText(":" + digits)
  {
    assert AuthorityChar(':');
    forall i | 0 <= i < |digits| ensures AuthorityChar(digits[i]) && digits[i] != '@' {
    }
  }

  lemma SamePort(text: Text, p: Parts, netloc: string)
    requires UserPrefix(p.netloc) == UserPrefix(netloc) && HostOf(p) == Before(HostInfo(netloc), ':')
    requires PortOf(p) == "" && PortOk(After(HostInfo(netloc), ':'))
    requires PortSuffix(p.scheme, After(HostInfo(netloc), ':')) == ""
    ensures NormalizeParts(text, p) == NormalizeParts(text, p.(netloc := netloc))
  {
  }

  // ---- Queries ----

  /** Segments that stand in a query as they are. */
  predicate AreSegments(segs: seq<string>) {
    segs != [] && forall i :: 0 <= i < |segs| ==>
      '&' !in segs[i] && '#' !in segs[i] && forall k :: 0 <= k < |segs[i]| ==> !IsLineOrTab(segs[i][k])
  }

  lemma {:induction false} JoinedSegments(segs: seq<string>)
    requires AreSegments(segs)
    ensures var q := JoinWith(segs, '&'); '#' !in q && forall k :: 0 <= k < |q| ==> !IsLineOrTab(q[k])
    decreases |segs|
  {
    if |segs| > 1 { JoinedSegments(segs[1..]); }
  }

  lemma QuerySpelling(s: string, segs: seq<string>)
    requires IsBase(s) && AreSegments(segs)
    ensures SplitUrl(s + ("?" + JoinWith(segs, '&'))) == SplitUrl(s).(query := JoinWith(segs, '&'))
  {
    var q := JoinWith(segs, '&');
    JoinedSegments(segs);
    NothingToDrop("?" + q);
    QueryAlone(q);
    SplitOfSum(s, "?" + q, "?" + q, "", q);
    assert SplitUrl(s).path + "" == SplitUrl(s).path;
  }

  lemma QueryAlone(q: string)
    requires '#' !in q
    ensures Before(Before("?" + q, '#'), '?') == "" && After(Before("?" + q, '#'), '?') == q
  {
    NothingToCut("?" + q, '#');
    CutAt("", '?', q);
    assert "" + ['?'] + q == "?" + q;
  }

  lemma SameQueries(text: Text, a: seq<string>, b: seq<string>, tracking: seq<string>)
    requires Lawful(text.enc) && AreSegments(a) && AreSegments(b) && multiset(b) == multiset(a) + multiset(tracking)
    requires forall i :: 0 <= i < |tracking| ==> IsTrackingSegment(text, tracking[i])
    ensures PrintedParams(text, JoinWith(a, '&')) == PrintedParams(text, JoinWith(b, '&'))
  {
    QueriesRearranged(text, a, b, tracking);
    SamePrinted(text, JoinWith(a, '&'), JoinWith(b, '&'));
  }

  function PrintedParams(text: Text, query: string): string {
    UrlEncode(text.enc, NormalParams(text, query))
  }

  lemma QueryDecides(text: Text, p: Parts, a: string, b: string)
    requires PrintedParams(text, a) == PrintedParams(text, b)
    ensures NormalizeParts(text, p.(query := a)) == NormalizeParts(text, p.(query := b))
  {
  }

  /** Neither the order of the parameters nor tracking parameters anywhere among them count. */
  lemma TrackingIsFree(text: Text, s: string, a: seq<string>, b: seq<string>, tracking: seq<string>)
    requires Lawful(text.enc) && IsBase(s) && IsPlain(s) && AreSegments(a) && AreSegments(b)
    requires multiset(b) == multiset(a) + multiset(tracking)
    requires forall i :: 0 <= i < |tracking| ==> IsTrackingSegment(text, tracking[i])
    ensures var u, v := s + ("?" + JoinWith(a, '&')), s + ("?" + JoinWith(b, '&'));
      IsPlain(u) && IsPlain(v) && Normalize(text, u) == Normalize(text, v)
  {
    QuerySpelling(s, a);
    QuerySpelling(s, b);
    SameQueries(text, a, b, tracking);
    QueryDecides(text, SplitUrl(s), JoinWith(a, '&'), JoinWith(b, '&'));
  }

  /** A query of tracking parameters only counts as none. */
  lemma TrackingAloneIsFree(text: Text, s: string, tracking: seq<string>)
    requires Lawful(text.enc) && IsBase(s) && IsPlain(s) && AreSegments(tracking)
    requires forall i :: 0 <= i < |tracking| ==> IsTrackingSegment(text, tracking[i])
    ensures var u := s + ("?" + JoinWith(tracking, '&')); IsPlain(u) && Normalize(text, u) == Normalize(text, s)
  {
    QuerySpelling(s, tracking);
    BaseHasNoQuery(s);
    TrackingPrintsNothing(text, tracking);
    QueryDecides(text, SplitUrl(s), JoinWith(tracking, '&'), "");
  }

  lemma BaseHasNoQuery(s: string)
    requires IsBase(s)
    ensures SplitUrl(s).query == ""
  {
    CleanOfSum(s, "");
    CleanKeepsOut(s, '?');
    CleanKeepsOut(s, '#');
    var _, _, _ := BaseRest(Clean(s));
  }

  lemma TrackingPrintsNothing(text: Text, tracking: seq<string>)
    requires Lawful(text.enc) && AreSegments(tracking)
    requires forall i :: 0 <= i < |tracking| ==> IsTrackingSegment(text, tracking[i])
    ensures PrintedParams(text, JoinWith(tracking, '&')) == PrintedParams(text, "")
  {
    NothingCounts(text, tracking);
    NoQueryCounts(text);
    SamePrinted(text, JoinWith(tracking, '&'), "");
  }

  lemma SamePrinted(text: Text, a: string, b: string)
    requires Lawful(text.enc)
    requires multiset(Kept(text, ParseQuery(text.enc, a))) == multiset(Kept(text, ParseQuery(text.enc, b)))
    ensures PrintedParams(text, a) == PrintedParams(text, b)
  {
    SameParamsIff(text, a, b);
  }

  lemma NoQueryCounts(text: Text)
    ensures multiset(Kept(text, ParseQuery(text.enc, ""))) == multiset{}
  {
    assert JoinWith([""], '&') == "";
    NothingCounts(text, [""]);
  }

  lemma NothingCounts(text: Text, tracking: seq<string>)
    requires AreSegments(tracking) && forall i :: 0 <= i < |tracking| ==> IsTrackingSegment(text, tracking[i])
    ensures multiset(Kept(text, ParseQuery(text.enc, JoinWith(tracking, '&')))) == multiset{}
  {
    SplitJoin(tracking, '&');
    TrackingCountsNothing(text, tracking);
  }
}
