/** EventQueue records and their dedup keys (eventqueue_dedup.py). */
module RecordKeys {
  import opened Options
  import opened Texts

  /** A record; a missing or falsy text field is "". `signal` keeps the difference
      between a missing body_state_or_signal and an empty one, which two callers treat differently. */
  datatype Record = Record(
    recordType: string, sourceId: string, canonicalUrl: string, sourceUrl: string,
    title: string, signal: Option<string>, observedAt: string, ref: string)

  /** What regexes, the time parser and SHA-1 compute. Every theorem holds for all of them. */
  datatype Lexicon = Lexicon(
    norm: string -> string,           // stripped, lower-cased, whitespace collapsed
    tokens: string -> set<string>,    // title tokens without stop words
    officialId: string -> string,     // document id inside a URL, "" if there is none
    time: string -> string,           // normalised ISO time, "" if unreadable
    hash: string -> string,
    show: nat -> string)              // decimal

  datatype RecordKey = RecordKey(key: string, basis: string)

  /** The external http(s) URL, "" for a local path or a missing value. */
  function ExternalUrl(r: Record): string {
    if StartsWith(r.sourceUrl, "http://") || StartsWith(r.sourceUrl, "https://") then r.sourceUrl else ""
  }

  function OfficialId(lex: Lexicon, url: string): string {
    if url == "" then "" else lex.officialId(url)
  }

  function NormTime(lex: Lexicon, raw: string): string {
    if raw == "" then "" else lex.time(raw)
  }

  function NormTitle(lex: Lexicon, title: string): string {
    if title == "" then "" else lex.norm(title)
  }

  function OrElse(s: Option<string>, default: string): string {
    if s.None? || s.value == "" then default else s.value
  }

  function Join3(a: string, b: string, c: string): string {
    a + "|" + b + "|" + c
  }

  /** The dedup key of a record and the rule that produced it; None if nothing identifies the record. */
  function ComputeKey(lex: Lexicon, r: Record): Option<RecordKey> {
    var ext := ExternalUrl(r);
    var oid := OfficialId(lex, ext);
    if r.canonicalUrl != "" then
      Some(RecordKey("canon:" + lex.hash(r.canonicalUrl), "canonical_url"))
    else if r.recordType == "official_record" && oid != "" then
      Some(RecordKey("officialid:" + r.sourceId + ":" + lex.hash(oid), "official_id"))
    else if r.recordType == "structured_signal" then
      Some(RecordKey("signal:" + lex.hash(Join3(r.sourceId, OrElse(r.signal, "signal"), NormTime(lex, r.observedAt))),
                     "signal_key"))
    else if ext != "" then
      if r.recordType == "search_result" then
        Some(RecordKey("search:" + lex.hash(Join3(r.sourceId, NormTitle(lex, r.title), ext)), "search_title_url"))
      else
        Some(RecordKey("url:" + lex.hash(ext), "source_url"))
    else
      var title, at := NormTitle(lex, r.title), NormTime(lex, r.observedAt);
      if title == "" && at == "" then None
      else Some(RecordKey("meta:" + lex.hash(Join3(r.sourceId, title, at)), "fallback_title_time"))
  }

  // ---- What the fields of a record say ----

  predicate IsHttp(url: string) {
    "http://" <= url || "https://" <= url
  }

  predicate HasTitle(lex: Lexicon, title: string) {
    title != "" && lex.norm(title) != ""
  }

  predicate SameTitle(lex: Lexicon, r: Record, s: Record) {
    if HasTitle(lex, r.title) then HasTitle(lex, s.title) && lex.norm(r.title) == lex.norm(s.title)
    else !HasTitle(lex, s.title)
  }

  predicate HasTime(lex: Lexicon, r: Record) {
    r.observedAt != "" && lex.time(r.observedAt) != ""
  }

  /** The bars between three fields can be found again if the first two hold none. */
  lemma BarsSplit(a: string, b: string, c: string, x: string, y: string, z: string)
    requires '|' !in a && '|' !in b && '|' !in x && '|' !in y
    ensures Join3(a, b, c) == Join3(x, y, z) <==> a == x && b == y && c == z
  {
    if Join3(a, b, c) == Join3(x, y, z) {
      var s, t := b + "|" + c, y + "|" + z;
      assert Join3(a, b, c) == a + ['|'] + s && Join3(x, y, z) == x + ['|'] + t;
      CutAt(a, '|', s);
      CutAt(x, '|', t);
      assert s == b + ['|'] + c && t == y + ['|'] + z;
      CutAt(b, '|', c);
      CutAt(y, '|', z);
    }
  }
}
