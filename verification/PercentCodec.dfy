/** application/x-www-form-urlencoded as urllib.parse implements it: percent-encoding of RFC 3986
    section 2.1 with '+' for the space, split into `&`-separated `name=value` segments. */
module PercentCodec {
  import opened Texts

  type byte = b: int | 0 <= b < 256

  /** A text encoding. Only the laws below are used; UTF-8 satisfies them. */
  datatype Encoding = Encoding(encode: string -> seq<byte>, decode: seq<byte> -> string)

  predicate IsAscii(s: string) {
    forall i :: 0 <= i < |s| ==> s[i] as int < 128
  }

  function Codes(s: string): seq<byte>
    requires IsAscii(s)
  {
    seq(|s|, i requires 0 <= i < |s| => s[i] as int)
  }

  ghost predicate Lawful(enc: Encoding) {
    && (forall s :: enc.decode(enc.encode(s)) == s)
    && (forall s :: IsAscii(s) ==> enc.encode(s) == Codes(s))
  }

  // ---- Bytes ----

  predicate Unreserved(b: byte) {
    || 'A' as int <= b <= 'Z' as int || 'a' as int <= b <= 'z' as int || '0' as int <= b <= '9' as int
    || b == '_' as int || b == '.' as int || b == '-' as int || b == '~' as int
  }

  function HexDigit(n: nat): char
    requires n < 16
  {
    if n < 10 then ('0' as int + n) as char else ('A' as int + n - 10) as char
  }

  predicate IsHex(c: char) {
    '0' <= c <= '9' || 'A' <= c <= 'F' || 'a' <= c <= 'f'
  }

  function HexValue(c: char): (n: nat)
    requires IsHex(c)
    ensures n < 16
  {
    if '0' <= c <= '9' then c as int - '0' as int
    else if 'A' <= c <= 'F' then c as int - 'A' as int + 10
    else c as int - 'a' as int + 10
  }

  /** One byte, percent-encoded unless unreserved or a space (which quote_plus declares safe). */
  function QuoteByte(b: byte): string {
    if Unreserved(b) || b == ' ' as int then [b as char]
    else ['%', HexDigit(b / 16), HexDigit(b % 16)]
  }

  function Quote(bs: seq<byte>): string {
    if bs == [] then "" else QuoteByte(bs[0]) + Quote(bs[1..])
  }

  /** Every %XX becomes its byte; a '%' that two hex digits do not follow stays. */
  function UnquoteToBytes(s: string): seq<byte>
    requires IsAscii(s)
  {
    if s == "" then []
    else if s[0] == '%' && |s| >= 3 && IsHex(s[1]) && IsHex(s[2]) then
      [HexValue(s[1]) * 16 + HexValue(s[2])] + UnquoteToBytes(s[3..])
    else [s[0] as int] + UnquoteToBytes(s[1..])
  }

  /** Characters a quoted text is made of. */
  predicate QuotedChar(c: char) {
    c == '%' || c == ' ' || (c as int < 128 && Unreserved(c as int))
  }

  lemma {:induction false} QuoteShape(bs: seq<byte>)
    ensures forall i :: 0 <= i < |Quote(bs)| ==> QuotedChar(Quote(bs)[i])
    decreases |bs|
  {
    if bs != [] { QuoteShape(bs[1..]); }
  }

  lemma {:induction false} BytesRoundTrip(bs: seq<byte>)
    ensures IsAscii(Quote(bs)) && UnquoteToBytes(Quote(bs)) == bs
    decreases |bs|
  {
    if bs != [] {
      BytesRoundTrip(bs[1..]);
      var q, rest := QuoteByte(bs[0]), Quote(bs[1..]);
      assert (q + rest)[|q|..] == rest;
    }
  }

  // ---- Text ----

  function Replace(s: string, a: char, b: char): (r: string)
    ensures |r| == |s| && forall i :: 0 <= i < |s| ==> r[i] == if s[i] == a then b else s[i]
  {
    seq(|s|, i requires 0 <= i < |s| => if s[i] == a then b else s[i])
  }

  function QuotePlus(enc: Encoding, s: string): string {
    Replace(Quote(enc.encode(s)), ' ', '+')
  }

  /** Length of the leading run of characters that are (or are not) ASCII. */
  function RunLength(s: string, ascii: bool): (n: nat)
    ensures n <= |s|
    ensures forall i :: 0 <= i < n ==> (s[i] as int < 128) == ascii
    ensures n < |s| ==> (s[n] as int < 128) != ascii
  {
    if s == "" || (s[0] as int < 128) != ascii then 0 else 1 + RunLength(s[1..], ascii)
  }

  /** ASCII runs are decoded, other runs are kept. */
  function UnquoteRuns(enc: Encoding, s: string): string
    decreases |s|
  {
    if s == "" then ""
    else if s[0] as int < 128 then
      var n := RunLength(s, true);
      enc.decode(UnquoteToBytes(s[..n])) + UnquoteRuns(enc, s[n..])
    else
      var n := RunLength(s, false);
      s[..n] + UnquoteRuns(enc, s[n..])
  }

  function Unquote(enc: Encoding, s: string): string {
    if '%' !in s then s else UnquoteRuns(enc, s)
  }

  function UnquotePlus(enc: Encoding, s: string): string {
    Unquote(enc, Replace(s, '+', ' '))
  }

  lemma UnquoteAscii(enc: Encoding, s: string)
    requires Lawful(enc) && IsAscii(s) && s != ""
    ensures UnquoteRuns(enc, s) == enc.decode(UnquoteToBytes(s))
  {
    var n := RunLength(s, true);
    assert n == |s| && s[..n] == s && s[n..] == "";
  }

  lemma {:induction false} NothingToUnquote(s: string)
    requires IsAscii(s) && '%' !in s
    ensures UnquoteToBytes(s) == Codes(s)
    decreases |s|
  {
    if s != "" {
      NothingToUnquote(s[1..]);
      assert Codes(s) == [s[0] as int] + Codes(s[1..]);
    }
  }

  /** Decoding undoes encoding, for any text. */
  lemma TextRoundTrip(enc: Encoding, s: string)
    requires Lawful(enc)
    ensures UnquotePlus(enc, QuotePlus(enc, s)) == s
  {
    var bs := enc.encode(s);
    var q := Quote(bs);
    QuoteShape(bs);
    BytesRoundTrip(bs);
    assert Replace(Replace(q, ' ', '+'), '+', ' ') == q;
    if '%' !in q {
      NothingToUnquote(q);
      assert enc.encode(q) == Codes(q) == bs;
      assert enc.decode(enc.encode(q)) == q && enc.decode(bs) == s;
    } else {
      UnquoteAscii(enc, q);
    }
  }

  predicate FormChar(c: char) {
    c == '%' || c == '+' || (c as int < 128 && Unreserved(c as int))
  }

  lemma QuotePlusShape(enc: Encoding, s: string)
    ensures forall i :: 0 <= i < |QuotePlus(enc, s)| ==> FormChar(QuotePlus(enc, s)[i])
  {
    QuoteShape(enc.encode(s));
  }

  // ---- Parameter lists ----

  type Param = (string, string)

  /** One `name=value` segment; without '=' the value is blank. */
  function ParseSegment(enc: Encoding, seg: string): Param {
    (UnquotePlus(enc, Before(seg, '=')), UnquotePlus(enc, After(seg, '=')))
  }

  function ParseSegments(enc: Encoding, segs: seq<string>): seq<Param> {
    if segs == [] then []
    else (if segs[0] == "" then [] else [ParseSegment(enc, segs[0])]) + ParseSegments(enc, segs[1..])
  }

  /** parse_qsl(query, keep_blank_values=True) */
  function ParseQuery(enc: Encoding, query: string): seq<Param> {
    ParseSegments(enc, SplitOn(query, '&'))
  }

  function EncodeParam(enc: Encoding, p: Param): string {
    QuotePlus(enc, p.0) + "=" + QuotePlus(enc, p.1)
  }

  function EncodeParams(enc: Encoding, ps: seq<Param>): (r: seq<string>)
    ensures |r| == |ps| && forall i :: 0 <= i < |ps| ==> r[i] == EncodeParam(enc, ps[i])
  {
    seq(|ps|, i requires 0 <= i < |ps| => EncodeParam(enc, ps[i]))
  }

  /** urlencode(list of pairs) */
  function UrlEncode(enc: Encoding, ps: seq<Param>): string {
    JoinWith(EncodeParams(enc, ps), '&')
  }

  lemma ParamRoundTrip(enc: Encoding, p: Param)
    requires Lawful(enc)
    ensures '&' !in EncodeParam(enc, p) && EncodeParam(enc, p) != "" && ParseSegment(enc, EncodeParam(enc, p)) == p
  {
    ParamShape(enc, p);
    TextRoundTrip(enc, p.0);
    TextRoundTrip(enc, p.1);
  }

  lemma ParamShape(enc: Encoding, p: Param)
    requires Lawful(enc)
    ensures var s := EncodeParam(enc, p);
      '&' !in s && s != "" && Before(s, '=') == QuotePlus(enc, p.0) && After(s, '=') == QuotePlus(enc, p.1)
  {
    QuotePlusShape(enc, p.0);
    QuotePlusShape(enc, p.1);
    CutAt(QuotePlus(enc, p.0), '=', QuotePlus(enc, p.1));
  }

  lemma {:induction false} ParamsRoundTrip(enc: Encoding, ps: seq<Param>)
    requires Lawful(enc)
    ensures ParseSegments(enc, EncodeParams(enc, ps)) == ps
    decreases |ps|
  {
    if ps != [] {
      ParamsRoundTrip(enc, ps[1..]);
      FirstParam(enc, ps);
      FirstAndRest(ps);
    }
  }

  lemma FirstAndRest(ps: seq<Param>)
    requires ps != []
    ensures [ps[0]] + ps[1..] == ps
  {
  }

  /** The first printed parameter is read back as the first parameter. */
  lemma FirstParam(enc: Encoding, ps: seq<Param>)
    requires Lawful(enc) && ps != []
    ensures ParseSegments(enc, EncodeParams(enc, ps)) == [ps[0]] + ParseSegments(enc, EncodeParams(enc, ps[1..]))
  {
    var first, rest := EncodeParam(enc, ps[0]), EncodeParams(enc, ps[1..]);
    ParamRoundTrip(enc, ps[0]);
    FirstEncoded(enc, ps);
    OneSegment(enc, first, rest);
  }

  lemma FirstEncoded(enc: Encoding, ps: seq<Param>)
    requires ps != []
    ensures EncodeParams(enc, ps) == [EncodeParam(enc, ps[0])] + EncodeParams(enc, ps[1..])
  {
  }

  lemma OneSegment(enc: Encoding, seg: string, rest: seq<string>)
    requires seg != ""
    ensures ParseSegments(enc, [seg] + rest) == [ParseSegment(enc, seg)] + ParseSegments(enc, rest)
  {
    assert ([seg] + rest)[1..] == rest;
  }

  /** Parsing a printed query gives back the parameters, in order, for any names and values. */
  lemma QueryRoundTrip(enc: Encoding, ps: seq<Param>)
    requires Lawful(enc)
    ensures ParseQuery(enc, UrlEncode(enc, ps)) == ps
  {
    if ps == [] {
      assert SplitOn("", '&') == [""] && [""][1..] == [];
      assert ParseSegments(enc, [""]) == [];
    } else {
      forall i | 0 <= i < |ps| ensures '&' !in EncodeParams(enc, ps)[i] { ParamRoundTrip(enc, ps[i]); }
      SplitJoin(EncodeParams(enc, ps), '&');
      ParamsRoundTrip(enc, ps);
    }
  }

  predicate QueryChar(c: char) {
    FormChar(c) || c == '=' || c == '&'
  }

  lemma {:induction false} JoinShape(parts: seq<string>, i: nat)
    requires forall k, j :: 0 <= k < |parts| && 0 <= j < |parts[k]| ==> QueryChar(parts[k][j])
    requires i < |JoinWith(parts, '&')|
    ensures QueryChar(JoinWith(parts, '&')[i])
    decreases |parts|
  {
    if |parts| > 1 && i > |parts[0]| {
      JoinShape(parts[1..], i - |parts[0]| - 1);
    }
  }

  lemma UrlEncodeShape(enc: Encoding, ps: seq<Param>)
    ensures forall i :: 0 <= i < |UrlEncode(enc, ps)| ==> QueryChar(UrlEncode(enc, ps)[i])
    ensures ps != [] ==> UrlEncode(enc, ps) != ""
  {
    var parts := EncodeParams(enc, ps);
    forall k, j | 0 <= k < |parts| && 0 <= j < |parts[k]| ensures QueryChar(parts[k][j]) {
      QuotePlusShape(enc, ps[k].0);
      QuotePlusShape(enc, ps[k].1);
    }
    forall i | 0 <= i < |UrlEncode(enc, ps)| ensures QueryChar(UrlEncode(enc, ps)[i]) { JoinShape(parts, i); }
    if ps != [] { assert EncodeParam(enc, ps[0]) != ""; }
  }
}
