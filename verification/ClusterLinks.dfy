/** When two records are linked and which component is the core, said on the records' own fields and in whole
    numbers (cross_source_dedup.py). Nothing here speaks of the similarity, the keys or the ranks of the code. */
module ClusterLinks {
  import opened Connectivity
  import opened Options
  import opened RecordKeys
  import opened Sorting
  import opened Texts
  import opened Clustering

  // ---- Weak links ----

  /** The first ten characters agree: YYYY-MM-DD of an ISO time. */
  predicate SameStart(t: string, u: string) {
    (|t| == |u| || (|t| >= 10 && |u| >= 10)) && forall i :: 0 <= i < 10 && i < |t| && i < |u| ==> t[i] == u[i]
  }

  predicate SameKnownDay(lex: Lexicon, r: Record, s: Record) {
    HasTime(lex, r) && HasTime(lex, s) && SameStart(lex.time(r.observedAt), lex.time(s.observedAt))
  }

  /** Some word in common, and at least four words in common for every word that only one title has. */
  predicate MostlyShared(A: set<string>, B: set<string>) {
    A * B != {} && 4 * |(A - B) + (B - A)| <= |A * B|
  }

  /** One known day, and titles that agree once normalised or share most of their words. */
  predicate SameStory(lex: Lexicon, r: Record, s: Record) {
    && SameKnownDay(lex, r, s) && HasTitle(lex, r.title) && HasTitle(lex, s.title)
    && (lex.norm(r.title) == lex.norm(s.title) || MostlyShared(lex.tokens(r.title), lex.tokens(s.title)))
  }

  lemma SharedAndOther<T>(A: set<T>, B: set<T>)
    ensures |A + B| == |A * B| + |(A - B) + (B - A)|
  {
    assert A + B == A * B + ((A - B) + (B - A));
  }

  lemma SignOfProduct(x: real, d: real)
    requires d > 0.0
    ensures x * d >= 0.0 <==> x >= 0.0
  {
  }

  lemma RatioAtLeast(n: nat, d: nat)
    requires d > 0
    ensures (n as real) / (d as real) >= 0.8 <==> 5 * n >= 4 * d
  {
    var e := d as real;
    var q := (n as real) / e;
    assert (q - 0.8) * e == n as real - 0.8 * e;
    SignOfProduct(q - 0.8, e);
  }

  lemma OverlapIff(A: set<string>, B: set<string>)
    ensures Jaccard(A, B) >= THRESHOLD <==> MostlyShared(A, B)
  {
    SharedAndOther(A, B);
    if A != {} && B != {} {
      SomeMember(A, B);
      RatioAtLeast(|A * B|, |A + B|);
    }
    if A * B == {} { assert |A * B| == 0; }
  }

  lemma SomeMember(A: set<string>, B: set<string>)
    requires A != {}
    ensures |A + B| > 0
  {
    var x :| x in A;
    assert x in A + B;
  }

  lemma SameDayIff(lex: Lexicon, r: Record, s: Record)
    ensures DateBucket(lex, r) != "" && DateBucket(lex, r) == DateBucket(lex, s) <==> SameKnownDay(lex, r, s)
  {
    SameStartIff(NormTime(lex, r.observedAt), NormTime(lex, s.observedAt));
  }

  function Start(t: string): string {
    if |t| <= 10 then t else t[..10]
  }

  lemma SameStartIff(t: string, u: string)
    ensures Start(t) == Start(u) <==> SameStart(t, u)
  {
    if Start(t) == Start(u) {
      forall i | 0 <= i < 10 && i < |t| && i < |u| ensures t[i] == u[i] {
        assert Start(t)[i] == t[i] && Start(u)[i] == u[i];
      }
    }
  }

  /** Two records are weakly linked exactly if they tell one story of one day. */
  lemma WeakLinkedIff(lex: Lexicon, r: Record, s: Record)
    ensures WeakLinked(lex, r, s) <==> SameStory(lex, r, s)
  {
    SameDayIff(lex, r, s);
    OverlapIff(lex.tokens(r.title), lex.tokens(s.title));
  }

  // ---- Strong links ----

  predicate SameArticle(r: Record, s: Record) {
    r.canonicalUrl != "" && r.canonicalUrl == s.canonicalUrl
  }

  predicate SameDocument(lex: Lexicon, r: Record, s: Record) {
    && IsHttp(r.sourceUrl) && IsHttp(s.sourceUrl)
    && lex.officialId(r.sourceUrl) != "" && lex.officialId(r.sourceUrl) == lex.officialId(s.sourceUrl)
  }

  /** A missing signal reads "None". */
  predicate ReadsAs(signal: Option<string>, text: string) {
    signal == Some(text) || (signal == None && text == "None")
  }

  predicate SameDay(lex: Lexicon, r: Record, s: Record) {
    SameKnownDay(lex, r, s) || (!HasTime(lex, r) && !HasTime(lex, s))
  }

  /** Two structured signals of one reading, one day, known or not, and one title. */
  ghost predicate SameReading(lex: Lexicon, r: Record, s: Record) {
    && r.recordType == "structured_signal" && s.recordType == "structured_signal"
    && (exists text :: ReadsAs(r.signal, text) && ReadsAs(s.signal, text))
    && SameDay(lex, r, s) && SameTitle(lex, r, s)
  }

  ghost predicate SharesKey(lex: Lexicon, r: Record, s: Record) {
    SameArticle(r, s) || SameDocument(lex, r, s) || SameReading(lex, r, s)
  }

  /** No bar in the fields that the signal key sets off by bars; the title comes last and may hold one. */
  predicate NoBarInSignal(lex: Lexicon, r: Record) {
    '|' !in ShownSignal(r) && (r.observedAt != "" ==> '|' !in lex.time(r.observedAt))
  }

  lemma DayHasNoBar(lex: Lexicon, r: Record)
    requires NoBarInSignal(lex, r)
    ensures '|' !in DateBucket(lex, r)
  {
    var t := NormTime(lex, r.observedAt);
    assert |t| > 10 ==> forall i :: 0 <= i < 10 ==> t[..10][i] == t[i] && t[i] in t;
  }

  lemma SameSignalIff(lex: Lexicon, r: Record, s: Record)
    requires r.recordType == "structured_signal" && s.recordType == "structured_signal"
    requires NoBarInSignal(lex, r) && NoBarInSignal(lex, s)
    ensures SignalKey(lex, r) == SignalKey(lex, s) <==> SameReading(lex, r, s)
  {
    DayHasNoBar(lex, r);
    DayHasNoBar(lex, s);
    BarsSplit(ShownSignal(r), DateBucket(lex, r), NormTitle(lex, r.title),
              ShownSignal(s), DateBucket(lex, s), NormTitle(lex, s.title));
    SameDayIff(lex, r, s);
    assert ReadsAs(r.signal, ShownSignal(r)) && ReadsAs(s.signal, ShownSignal(s));
  }

  function BarSignal(signal: string, title: string): Record {
    Record("structured_signal", "", "", "", title, Some(signal), "", "")
  }

  /** Two readings that are strongly linked although they differ, because a bar in a field reads like a bar between
      fields. */
  lemma BarsLink(lex: Lexicon)
    requires lex.norm("t") == "t" && lex.norm("|t") == "|t"
    ensures var r, s := BarSignal("up|", "t"), BarSignal("up", "|t"); StrongLinked(lex, r, s) && !SharesKey(lex, r, s)
  {
    var r, s := BarSignal("up|", "t"), BarSignal("up", "|t");
    assert SignalKey(lex, r) == "up|" + "|" + "" + "|" + "t" == "up|||t";
    assert SignalKey(lex, s) == "up" + "|" + "" + "|" + "|t" == "up|||t";
    assert |"up|"| != |"up"|;
  }

  /** Two records are strongly linked exactly if they are one article, one document or one reading of a signal. */
  lemma StrongLinkedIff(lex: Lexicon, r: Record, s: Record)
    requires NoBarInSignal(lex, r) && NoBarInSignal(lex, s)
    ensures StrongLinked(lex, r, s) <==> SharesKey(lex, r, s)
  {
    if r.recordType == "structured_signal" && s.recordType == "structured_signal" {
      SameSignalIff(lex, r, s);
    }
  }

  // ---- Clusters and their results ----

  /** The links of the clustering, in the records' own terms. */
  lemma LinksAre(lex: Lexicon, recs: seq<Record>, i: nat, j: nat)
    requires i < |recs| && j < |recs| && NoBarInSignal(lex, recs[i]) && NoBarInSignal(lex, recs[j])
    ensures (i, j) in StrongEdges(lex, recs) <==> i != j && SharesKey(lex, recs[i], recs[j])
    ensures (i, j) in WeakEdges(lex, recs) <==> i != j && SameStory(lex, recs[i], recs[j])
  {
    StrongLinkedIff(lex, recs[i], recs[j]);
    WeakLinkedIff(lex, recs[i], recs[j]);
  }

  /** Two members of S tell one story. */
  predicate Told(lex: Lexicon, recs: seq<Record>, S: set<nat>, a: nat, b: nat) {
    a in S && b in S && a < |recs| && b < |recs| && a != b && SameStory(lex, recs[a], recs[b])
  }

  predicate IsRatio(v: real, n: nat, d: nat) {
    v * (d as real) == n as real
  }

  predicate IsAtLeastRatio(v: real, n: nat, d: nat) {
    v * (d as real) >= n as real
  }

  /** 1 for titles that agree; otherwise the words in common over all words of the two. */
  predicate Scored(lex: Lexicon, r: Record, s: Record, v: real) {
    if lex.norm(r.title) == lex.norm(s.title) then v == 1.0
    else IsRatio(v, |lex.tokens(r.title) * lex.tokens(s.title)|, |lex.tokens(r.title) + lex.tokens(s.title)|)
  }

  predicate AtLeastScore(lex: Lexicon, r: Record, s: Record, v: real) {
    if lex.norm(r.title) == lex.norm(s.title) then v >= 1.0
    else IsAtLeastRatio(v, |lex.tokens(r.title) * lex.tokens(s.title)|, |lex.tokens(r.title) + lex.tokens(s.title)|)
  }

  lemma QuotientIsRatio(n: nat, d: nat)
    requires d > 0
    ensures IsRatio((n as real) / (d as real), n, d)
  {
  }

  lemma RatioGrows(v: real, w: real, n: nat, d: nat)
    requires IsRatio(v, n, d) && v <= w
    ensures IsAtLeastRatio(w, n, d)
  {
    var e := d as real;
    assert (w - v) * e >= 0.0;
  }

  lemma OverlapIsRatio(A: set<string>, B: set<string>)
    requires A != {} && B != {}
    ensures IsRatio(Jaccard(A, B), |A * B|, |A + B|)
  {
    SomeMember(A, B);
    QuotientIsRatio(|A * B|, |A + B|);
  }

  lemma SimilarityIsScore(lex: Lexicon, r: Record, s: Record)
    requires SameStory(lex, r, s)
    ensures Scored(lex, r, s, Similarity(lex, r.title, s.title))
  {
    if lex.norm(r.title) != lex.norm(s.title) { OverlapIsRatio(lex.tokens(r.title), lex.tokens(s.title)); }
  }

  lemma ScoreGrows(lex: Lexicon, r: Record, s: Record, v: real, w: real)
    requires Scored(lex, r, s, v) && v <= w
    ensures AtLeastScore(lex, r, s, w)
  {
    if lex.norm(r.title) != lex.norm(s.title) {
      RatioGrows(v, w, |lex.tokens(r.title) * lex.tokens(s.title)|, |lex.tokens(r.title) + lex.tokens(s.title)|);
    }
  }

  lemma ToldIsWeak(lex: Lexicon, recs: seq<Record>, S: set<nat>, a: nat, b: nat)
    ensures Told(lex, recs, S, a, b) <==> a in S && b in S && (a, b) in WeakEdges(lex, recs)
  {
    if a < |recs| && b < |recs| { WeakLinkedIff(lex, recs[a], recs[b]); }
  }

  /** v is reached by some two members of S that tell one story, and exceeded by none. */
  ghost predicate IsBestScore(lex: Lexicon, recs: seq<Record>, S: set<nat>, v: real) {
    && (exists a: nat, b: nat :: Told(lex, recs, S, a, b) && Scored(lex, recs[a], recs[b], v))
    && forall a: nat, b: nat :: Told(lex, recs, S, a, b) ==> AtLeastScore(lex, recs[a], recs[b], v)
  }

  lemma BestIsReached(lex: Lexicon, recs: seq<Record>, S: set<nat>, v: real)
    requires IsTopSimilarity(lex, recs, S, v)
    ensures exists a: nat, b: nat :: Told(lex, recs, S, a, b) && Scored(lex, recs[a], recs[b], v)
  {
    var a, b :| a in S && b in S && (a, b) in WeakEdges(lex, recs)
      && v == Similarity(lex, recs[a].title, recs[b].title);
    ToldIsWeak(lex, recs, S, a, b);
    SimilarityIsScore(lex, recs[a], recs[b]);
  }

  lemma BestIsLargest(lex: Lexicon, recs: seq<Record>, S: set<nat>, v: real, c: nat, d: nat)
    requires IsTopSimilarity(lex, recs, S, v) && Told(lex, recs, S, c, d)
    ensures AtLeastScore(lex, recs[c], recs[d], v)
  {
    ToldIsWeak(lex, recs, S, c, d);
    SimilarityIsScore(lex, recs[c], recs[d]);
    ScoreGrows(lex, recs[c], recs[d], Similarity(lex, recs[c].title, recs[d].title), v);
  }

  lemma TopIsBest(lex: Lexicon, recs: seq<Record>, S: set<nat>, v: real)
    requires IsTopSimilarity(lex, recs, S, v)
    ensures IsBestScore(lex, recs, S, v)
  {
    BestIsReached(lex, recs, S, v);
    forall c: nat, d: nat | Told(lex, recs, S, c, d) ensures AtLeastScore(lex, recs[c], recs[d], v) {
      BestIsLargest(lex, recs, S, v, c, d);
    }
  }

  lemma StrengthByConfidence(lex: Lexicon, recs: seq<Record>, S: set<nat>, r: Result)
    requires IsClusterResult(lex, recs, S, r)
    ensures r.confidence == Duplicate <==> HasStrong(lex, recs, S)
    ensures if r.confidence == Duplicate then r.signalStrength == 1.0
            else IsTopSimilarity(lex, recs, S, r.signalStrength)
  {
  }

  ghost predicate SomeKeyShared(lex: Lexicon, recs: seq<Record>, S: set<nat>) {
    exists a, b :: a in S && b in S && a < |recs| && b < |recs| && a != b && SharesKey(lex, recs[a], recs[b])
  }

  lemma HasStrongIff(lex: Lexicon, recs: seq<Record>, S: set<nat>)
    requires forall i :: i in S && i < |recs| ==> NoBarInSignal(lex, recs[i])
    ensures HasStrong(lex, recs, S) <==> SomeKeyShared(lex, recs, S)
  {
    if HasStrong(lex, recs, S) {
      var a, b :| a in S && b in S && (a, b) in StrongEdges(lex, recs);
      LinksAre(lex, recs, a, b);
    }
    if SomeKeyShared(lex, recs, S) {
      var a, b :| a in S && b in S && a < |recs| && b < |recs| && a != b && SharesKey(lex, recs[a], recs[b]);
      LinksAre(lex, recs, a, b);
    }
  }

  /** A cluster is a duplicate, of strength 1, exactly if two of its members share a key; otherwise its strength is
      the best score of two members that tell one story. */
  lemma StrengthIs(lex: Lexicon, recs: seq<Record>, S: set<nat>, r: Result)
    requires IsClusterResult(lex, recs, S, r) && forall i :: i in S && i < |recs| ==> NoBarInSignal(lex, recs[i])
    ensures r.confidence == Duplicate <==> SomeKeyShared(lex, recs, S)
    ensures if r.confidence == Duplicate then r.signalStrength == 1.0 else IsBestScore(lex, recs, S, r.signalStrength)
  {
    StrengthByConfidence(lex, recs, S, r);
    HasStrongIff(lex, recs, S);
    if r.confidence != Duplicate { TopIsBest(lex, recs, S, r.signalStrength); }
  }

  // ---- The core ----

  predicate Publishes(recs: seq<Record>, S: set<nat>) {
    exists m :: m in S && m < |recs| && recs[m].recordType in {"official_record", "article_candidate"}
  }

  /** Some key of P comes before every key of Q. */
  ghost predicate HoldsLeastKey(lex: Lexicon, recs: seq<Record>, P: set<nat>, Q: set<nat>) {
    exists h :: h in P && h < |recs|
      && forall g :: g in Q && g < |recs| ==> InDictionaryOrder(KeyAt(lex, recs, h), KeyAt(lex, recs, g))
  }

  lemma LeastKeyHeld(lex: Lexicon, recs: seq<Record>, P: set<nat>, m: nat) returns (h: nat)
    requires m in P && m < |recs|
    ensures h in P && h < |recs| && KeyAt(lex, recs, h) == MinKey(lex, recs, P)
  {
    var asc := Ascending(|recs|, P);
    assert m in asc;
    var ks := KeysOf(lex, recs, asc);
    var i :| 0 <= i < |ks| && ks[i] == MinText(ks);
    h := asc[i];
    assert h in asc;
  }

  lemma LeastKeyIsLeast(lex: Lexicon, recs: seq<Record>, Q: set<nat>, g: nat)
    requires g in Q && g < |recs|
    ensures TextLe(MinKey(lex, recs, Q), KeyAt(lex, recs, g))
  {
    var asc := Ascending(|recs|, Q);
    assert g in asc;
    var ks := KeysOf(lex, recs, asc);
    var i :| 0 <= i < |asc| && asc[i] == g;
    assert ks[i] in ks;
  }

  lemma LeastKeyFirst(lex: Lexicon, recs: seq<Record>, P: set<nat>, Q: set<nat>, m: nat)
    requires m in P && m < |recs| && TextLe(MinKey(lex, recs, P), MinKey(lex, recs, Q))
    ensures HoldsLeastKey(lex, recs, P, Q)
  {
    var h := LeastKeyHeld(lex, recs, P, m);
    forall g | g in Q && g < |recs| ensures InDictionaryOrder(KeyAt(lex, recs, h), KeyAt(lex, recs, g)) {
      LeastKeyIsLeast(lex, recs, Q, g);
      TextLeTransitive(MinKey(lex, recs, P), MinKey(lex, recs, Q), KeyAt(lex, recs, g));
      TextLeIff(KeyAt(lex, recs, h), KeyAt(lex, recs, g));
    }
  }

  lemma RankMeans(lex: Lexicon, recs: seq<Record>, P: set<nat>, Q: set<nat>)
    requires RankOf(lex, recs, P) == RankOf(lex, recs, Q) || Better(RankOf(lex, recs, P), RankOf(lex, recs, Q))
    ensures || |P| > |Q|
            || (|P| == |Q| && Publishes(recs, P) && !Publishes(recs, Q))
            || (|P| == |Q| && Publishes(recs, P) == Publishes(recs, Q)
                && TextLe(MinKey(lex, recs, P), MinKey(lex, recs, Q)))
  {
    PublishesIff(recs, P);
    PublishesIff(recs, Q);
    TextLeTotal(MinKey(lex, recs, P), MinKey(lex, recs, P));
  }

  lemma PublishesIff(recs: seq<Record>, P: set<nat>)
    ensures HasPublishable(recs, P) <==> Publishes(recs, P)
  {
  }

  lemma PrimaryBeats(lex: Lexicon, recs: seq<Record>, S: set<nat>, P: set<nat>, m: nat)
    requires IsPrimary(lex, recs, S, P) && m in S && StrongSet(lex, recs, m) != P
    ensures var Q := StrongSet(lex, recs, m);
      RankOf(lex, recs, P) == RankOf(lex, recs, Q) || Better(RankOf(lex, recs, P), RankOf(lex, recs, Q))
  {
  }

  lemma PrimaryHasMember(lex: Lexicon, recs: seq<Record>, S: set<nat>, P: set<nat>) returns (p: nat)
    requires IsPrimary(lex, recs, S, P) && forall x :: x in S ==> x < |recs|
    ensures p in P && p < |recs|
  {
    p :| p in S && P == StrongSet(lex, recs, p);
    Reflexive(StrongEdges(lex, recs), p);
  }

  /** The core is a strong component with more members than any other; or as many and, unlike the other, something to
      publish; or as much of both and the least key. */
  lemma CoreOutranks(lex: Lexicon, recs: seq<Record>, S: set<nat>, P: set<nat>, m: nat)
    requires IsPrimary(lex, recs, S, P) && m in S && StrongSet(lex, recs, m) != P && forall x :: x in S ==> x < |recs|
    ensures var Q := StrongSet(lex, recs, m);
      || |P| > |Q|
      || (|P| == |Q| && Publishes(recs, P) && !Publishes(recs, Q))
      || (|P| == |Q| && Publishes(recs, P) == Publishes(recs, Q) && HoldsLeastKey(lex, recs, P, Q))
  {
    var Q := StrongSet(lex, recs, m);
    PrimaryBeats(lex, recs, S, P, m);
    RankMeans(lex, recs, P, Q);
    var p := PrimaryHasMember(lex, recs, S, P);
    if TextLe(MinKey(lex, recs, P), MinKey(lex, recs, Q)) { LeastKeyFirst(lex, recs, P, Q, p); }
  }
}
