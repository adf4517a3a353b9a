/** When two records have one dedup key, said on their fields, and what that makes of a batch (eventqueue_dedup.py). */
module RecordIdentities {
  import opened Options
  import opened Texts
  import opened RecordKeys
  import opened DedupIndexes

  // ---- What identifies a record ----

  datatype Family = ByCanonicalUrl | ByDocument | BySignal | BySearch | ByUrl | ByTitleAndTime | Unidentified

  function FamilyOf(lex: Lexicon, r: Record): Family {
    if r.canonicalUrl != "" then ByCanonicalUrl
    else if r.recordType == "official_record" && IsHttp(r.sourceUrl) && lex.officialId(r.sourceUrl) != "" then
      ByDocument
    else if r.recordType == "structured_signal" then BySignal
    else if IsHttp(r.sourceUrl) then if r.recordType == "search_result" then BySearch else ByUrl
    else if HasTitle(lex, r.title) || HasTime(lex, r) then ByTitleAndTime
    else Unidentified
  }

  /** One reading of both times, or none of either. */
  predicate SameTime(lex: Lexicon, r: Record, s: Record) {
    if HasTime(lex, r) then HasTime(lex, s) && lex.time(r.observedAt) == lex.time(s.observedAt) else !HasTime(lex, s)
  }

  /** A missing or empty signal type is called "signal". */
  predicate IsSignalType(signal: Option<string>, name: string) {
    if signal == None || signal == Some("") then name == "signal" else signal == Some(name)
  }

  ghost predicate SameSignalType(r: Record, s: Record) {
    exists name :: IsSignalType(r.signal, name) && IsSignalType(s.signal, name)
  }

  /** Two records of one family that agree in what identifies it. */
  ghost predicate SameIdentity(lex: Lexicon, r: Record, s: Record) {
    FamilyOf(lex, r) == FamilyOf(lex, s) &&
    match FamilyOf(lex, r)
    case ByCanonicalUrl => r.canonicalUrl == s.canonicalUrl
    case ByDocument => r.sourceId == s.sourceId && lex.officialId(r.sourceUrl) == lex.officialId(s.sourceUrl)
    case BySignal => r.sourceId == s.sourceId && SameSignalType(r, s) && SameTime(lex, r, s)
    case BySearch => r.sourceId == s.sourceId && SameTitle(lex, r, s) && r.sourceUrl == s.sourceUrl
    case ByUrl => r.sourceUrl == s.sourceUrl
    case ByTitleAndTime => r.sourceId == s.sourceId && SameTitle(lex, r, s) && SameTime(lex, r, s)
    case Unidentified => false
  }

  /** No bar in the fields that a key of the record's family sets off by bars; the last field may hold one. */
  predicate NoBarInKey(lex: Lexicon, r: Record) {
    match FamilyOf(lex, r)
    case BySignal => '|' !in r.sourceId && (r.signal.Some? ==> '|' !in r.signal.value)
    case BySearch => '|' !in r.sourceId && '|' !in NormTitle(lex, r.title)
    case ByTitleAndTime => '|' !in r.sourceId && '|' !in NormTitle(lex, r.title)
    case _ => true
  }

  /** Digests tell texts apart and hold no colon, as hexadecimal ones do. */
  ghost predicate Digests(lex: Lexicon) {
    (forall x, y :: lex.hash(x) == lex.hash(y) ==> x == y) && forall x :: ':' !in lex.hash(x)
  }

  // ---- The key of each family ----

  /** What stands before the digest or, for a document, before its source. */
  function Prefix(f: Family): string {
    match f
    case ByCanonicalUrl => "canon:"
    case ByDocument => "officialid:"
    case BySignal => "signal:"
    case BySearch => "search:"
    case ByUrl => "url:"
    case ByTitleAndTime => "meta:"
    case Unidentified => ""
  }

  function SignalType(r: Record): string {
    if r.signal == None || r.signal == Some("") then "signal" else r.signal.value
  }

  function KeyRest(lex: Lexicon, r: Record): string {
    match FamilyOf(lex, r)
    case ByCanonicalUrl => lex.hash(r.canonicalUrl)
    case ByDocument => r.sourceId + ":" + lex.hash(lex.officialId(r.sourceUrl))
    case BySignal => lex.hash(Join3(r.sourceId, SignalType(r), NormTime(lex, r.observedAt)))
    case BySearch => lex.hash(Join3(r.sourceId, NormTitle(lex, r.title), r.sourceUrl))
    case ByUrl => lex.hash(r.sourceUrl)
    case ByTitleAndTime => lex.hash(Join3(r.sourceId, NormTitle(lex, r.title), NormTime(lex, r.observedAt)))
    case Unidentified => ""
  }

  lemma KeyIs(lex: Lexicon, r: Record)
    ensures KeyText(lex, r) ==
      if FamilyOf(lex, r).Unidentified? then None else Some(Prefix(FamilyOf(lex, r)) + KeyRest(lex, r))
  {
    if FamilyOf(lex, r).ByDocument? {
      Regrouped("officialid:", r.sourceId, ":", lex.hash(lex.officialId(r.sourceUrl)));
    }
  }

  lemma Regrouped(a: string, b: string, c: string, d: string)
    ensures a + b + c + d == a + (b + c + d)
  {
  }

  /** Keys of two families never meet. */
  lemma PrefixesDiffer(f: Family, g: Family, a: string, b: string)
    requires f != g && !f.Unidentified? && !g.Unidentified?
    ensures Prefix(f) + a != Prefix(g) + b
  {
    var s, t := Prefix(f) + a, Prefix(g) + b;
    assert s[0] == Prefix(f)[0] && t[0] == Prefix(g)[0] && s[1] == Prefix(f)[1] && t[1] == Prefix(g)[1];
  }

  lemma SamePrefix(p: string, a: string, b: string)
    ensures p + a == p + b <==> a == b
  {
    if p + a == p + b {
      assert (p + a)[|p|..] == a && (p + b)[|p|..] == b;
    }
  }

  /** The last colon sets the digest off from the source. */
  lemma LastColon(a: string, x: string, b: string, y: string)
    requires ':' !in x && ':' !in y
    ensures a + ":" + x == b + ":" + y <==> a == b && x == y
  {
    if a + ":" + x == b + ":" + y {
      var s := a + ":" + x;
      assert s[|a|] == ':' && s[|b|] == ':';
      assert forall i :: |a| < i < |s| ==> s[i] == x[i - |a| - 1];
      assert forall i :: |b| < i < |s| ==> s[i] == y[i - |b| - 1];
      assert |a| == |b|;
      assert a == s[..|a|] && b == s[..|b|] && x == s[|a| + 1..] && y == s[|b| + 1..];
    }
  }

  lemma SameTitleIff(lex: Lexicon, r: Record, s: Record)
    ensures NormTitle(lex, r.title) == NormTitle(lex, s.title) <==> SameTitle(lex, r, s)
  {
  }

  lemma SameTimeIff(lex: Lexicon, r: Record, s: Record)
    ensures NormTime(lex, r.observedAt) == NormTime(lex, s.observedAt) <==> SameTime(lex, r, s)
  {
  }

  lemma SameSignalTypeIff(r: Record, s: Record)
    ensures SignalType(r) == SignalType(s) <==> SameSignalType(r, s)
  {
    assert IsSignalType(r.signal, SignalType(r)) && IsSignalType(s.signal, SignalType(s));
  }

  lemma SameRestIff(lex: Lexicon, r: Record, s: Record)
    requires Digests(lex) && NoBarInKey(lex, r) && NoBarInKey(lex, s)
    requires FamilyOf(lex, r) == FamilyOf(lex, s) && !FamilyOf(lex, r).Unidentified?
    ensures KeyRest(lex, r) == KeyRest(lex, s) <==> SameIdentity(lex, r, s)
  {
    SameTitleIff(lex, r, s);
    SameTimeIff(lex, r, s);
    SameSignalTypeIff(r, s);
    match FamilyOf(lex, r)
    case ByDocument =>
      LastColon(r.sourceId, lex.hash(lex.officialId(r.sourceUrl)), s.sourceId, lex.hash(lex.officialId(s.sourceUrl)));
    case BySignal =>
      BarsSplit(r.sourceId, SignalType(r), NormTime(lex, r.observedAt),
                s.sourceId, SignalType(s), NormTime(lex, s.observedAt));
    case BySearch =>
      BarsSplit(r.sourceId, NormTitle(lex, r.title), r.sourceUrl, s.sourceId, NormTitle(lex, s.title), s.sourceUrl);
    case ByTitleAndTime =>
      BarsSplit(r.sourceId, NormTitle(lex, r.title), NormTime(lex, r.observedAt),
                s.sourceId, NormTitle(lex, s.title), NormTime(lex, s.observedAt));
    case _ =>
  }

  /** Two records have one key exactly if they have one identity; records without one have no key. */
  lemma SameKeyIff(lex: Lexicon, r: Record, s: Record)
    requires Digests(lex) && NoBarInKey(lex, r) && NoBarInKey(lex, s)
    ensures KeyText(lex, r).Some? && KeyText(lex, r) == KeyText(lex, s) <==> SameIdentity(lex, r, s)
    ensures KeyText(lex, r) == None <==> FamilyOf(lex, r) == Unidentified
  {
    var f, g := FamilyOf(lex, r), FamilyOf(lex, s);
    KeyIs(lex, r);
    KeyIs(lex, s);
    if !f.Unidentified? && !g.Unidentified? {
      if f == g {
        SamePrefix(Prefix(f), KeyRest(lex, r), KeyRest(lex, s));
        SameRestIff(lex, r, s);
      } else {
        PrefixesDiffer(f, g, KeyRest(lex, r), KeyRest(lex, s));
      }
    }
  }

  /** The three fields that a signal, a search result and a record by title are told apart by, with bars between. */
  function JoinedText(lex: Lexicon, r: Record): string {
    match FamilyOf(lex, r)
    case BySignal => r.sourceId + "|" + SignalType(r) + "|" + NormTime(lex, r.observedAt)
    case BySearch => r.sourceId + "|" + NormTitle(lex, r.title) + "|" + r.sourceUrl
    case _ => r.sourceId + "|" + NormTitle(lex, r.title) + "|" + NormTime(lex, r.observedAt)
  }

  predicate IsJoined(f: Family) {
    f == BySignal || f == BySearch || f == ByTitleAndTime
  }

  /** Bars or not: two records of those families have one key exactly if they are of one family and their joined texts
      agree; in the other families bars do no harm. */
  lemma SameKeyExactly(lex: Lexicon, r: Record, s: Record)
    requires Digests(lex)
    ensures KeyText(lex, r).Some? && KeyText(lex, r) == KeyText(lex, s) <==>
      FamilyOf(lex, r) == FamilyOf(lex, s) &&
      if IsJoined(FamilyOf(lex, r)) then JoinedText(lex, r) == JoinedText(lex, s) else SameIdentity(lex, r, s)
  {
    var f, g := FamilyOf(lex, r), FamilyOf(lex, s);
    if f == g && IsJoined(f) {
      KeyIs(lex, r);
      KeyIs(lex, s);
      SamePrefix(Prefix(f), KeyRest(lex, r), KeyRest(lex, s));
    } else if f != g {
      KeyIs(lex, r);
      KeyIs(lex, s);
      if !f.Unidentified? && !g.Unidentified? { PrefixesDiffer(f, g, KeyRest(lex, r), KeyRest(lex, s)); }
    } else {
      SameKeyIff(lex, r, s);
    }
  }

  // ---- Batches ----

  predicate AllPlain(lex: Lexicon, recs: seq<Record>) {
    forall i :: 0 <= i < |recs| ==> NoBarInKey(lex, recs[i])
  }

  /** Record f is the first of the batch with the identity of record i. */
  ghost predicate IsFirstLike(lex: Lexicon, recs: seq<Record>, f: nat, i: nat) {
    && f <= i < |recs| && SameIdentity(lex, recs[f], recs[i])
    && forall j :: 0 <= j < f ==> !SameIdentity(lex, recs[j], recs[i])
  }

  lemma FirstIsFirstLike(lex: Lexicon, recs: seq<Record>, f: nat, i: nat, k: string)
    requires Digests(lex) && AllPlain(lex, recs) && f <= i < |recs| && KeyText(lex, recs[i]) == Some(k)
    requires IsFirst(lex, recs, k, f)
    ensures IsFirstLike(lex, recs, f, i)
  {
    SameKeyIff(lex, recs[f], recs[i]);
    forall j | 0 <= j < f ensures !SameIdentity(lex, recs[j], recs[i]) {
      SameKeyIff(lex, recs[j], recs[i]);
    }
  }

  /** The rule a decision names. */
  function RuleName(f: Family): string {
    match f
    case ByCanonicalUrl => "canonical_url"
    case ByDocument => "official_id"
    case BySignal => "signal_key"
    case BySearch => "search_title_url"
    case ByUrl => "source_url"
    case ByTitleAndTime => "fallback_title_time"
    case Unidentified => ""
  }

  lemma BasisIs(lex: Lexicon, r: Record, k: RecordKey)
    requires ComputeKey(lex, r) == Some(k)
    ensures k.basis == RuleName(FamilyOf(lex, r)) && !FamilyOf(lex, r).Unidentified?
  {
  }

  /** A decision of a batch over an empty index: no key for a record that nothing identifies; a duplicate exactly if an
      earlier record has its identity, with the ref of the first such record, or its place in the batch. */
  lemma DuplicateIff(lex: Lexicon, recs: seq<Record>, i: nat, d: Decision)
    requires Digests(lex) && AllPlain(lex, recs) && Expected(lex, recs, map[], i, d)
    ensures d.key == None <==> FamilyOf(lex, recs[i]) == Unidentified
    ensures d.isDuplicate <==> exists j :: 0 <= j < i && SameIdentity(lex, recs[j], recs[i])
    ensures d.isDuplicate ==> exists f: nat ::
      f < i && IsFirstLike(lex, recs, f, i)
      && d.existingRef == Some(if recs[f].ref != "" then recs[f].ref else "batch:" + lex.show(f))
    ensures d.key.Some? ==>
      d.reason == (if d.isDuplicate then "duplicate:" else "new:") + RuleName(FamilyOf(lex, recs[i]))
  {
    SameKeyIff(lex, recs[i], recs[i]);
    if d.key.Some? {
      var k := ComputeKey(lex, recs[i]).value;
      BasisIs(lex, recs[i], k);
      if IsFirst(lex, recs, k.key, i) {
        FirstIsFirstLike(lex, recs, i, i, k.key);
      } else {
        var f: nat :| IsFirst(lex, recs, k.key, f) && f < i
          && d == Decision(Some(k.key), true, "duplicate:" + k.basis, Some(RefAt(lex, recs, f)));
        FirstIsFirstLike(lex, recs, f, i, k.key);
      }
    }
  }

  /** Over any index: a duplicate exactly if the index held the key or an earlier record has its identity. */
  lemma DuplicateOverIndexIff(lex: Lexicon, recs: seq<Record>, seen: Seen, i: nat, d: Decision)
    requires Digests(lex) && AllPlain(lex, recs) && Expected(lex, recs, seen, i, d) && d.key.Some?
    ensures d.isDuplicate <==> d.key.value in seen || exists j :: 0 <= j < i && SameIdentity(lex, recs[j], recs[i])
  {
    var k := ComputeKey(lex, recs[i]).value;
    if k.key !in seen {
      if IsFirst(lex, recs, k.key, i) {
        FirstIsFirstLike(lex, recs, i, i, k.key);
      } else {
        var f: nat :| IsFirst(lex, recs, k.key, f) && f < i
          && d == Decision(Some(k.key), true, "duplicate:" + k.basis, Some(RefAt(lex, recs, f)));
        FirstIsFirstLike(lex, recs, f, i, k.key);
      }
    }
  }

  // ---- Bars ----

  function BarSignal(source: string, signal: string): Record {
    Record("structured_signal", source, "", "", "", Some(signal), "", "")
  }

  /** Two signals of two sources that have one key, because a bar in a field reads like a bar between fields. */
  lemma BarsCollide(lex: Lexicon)
    ensures var r, s := BarSignal("a|b", "c"), BarSignal("a", "b|c");
      KeyText(lex, r).Some? && KeyText(lex, r) == KeyText(lex, s) && !SameIdentity(lex, r, s)
  {
    assert Join3("a|b", "c", "") == "a|b|c|" == Join3("a", "b|c", "");
    assert |"a|b"| != |"a"|;
  }
}
