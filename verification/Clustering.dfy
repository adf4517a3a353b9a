/** What cross-source clustering means (cross_source_dedup.py), said over the records alone:
    no union-find, no star-shaped indexes, no iteration order. */
module Clustering {
  import opened Connectivity
  import opened RecordKeys
  import opened Sorting

  const THRESHOLD := 0.8

  // ---- The two kinds of link between records ----

  function Jaccard(a: set<string>, b: set<string>): (r: real)
    ensures 0.0 <= r <= 1.0
  {
    if a == {} || b == {} then 0.0
    else
      assert a * b <= a + b && a <= a + b;
      SubsetCardinality(a * b, a + b);
      SubsetCardinality(a, a + b);
      assert |a + b| > 0;
      (|a * b| as real) / (|a + b| as real)
  }

  /** 1 for equal normalised titles, the token overlap otherwise. */
  function Similarity(lex: Lexicon, t: string, u: string): real {
    if NormTitle(lex, t) == NormTitle(lex, u) then 1.0 else Jaccard(lex.tokens(t), lex.tokens(u))
  }

  /** The published contract for "same event" titles. */
  predicate TitlesSimilar(lex: Lexicon, t: string, u: string) {
    var nt, nu := NormTitle(lex, t), NormTitle(lex, u);
    nt != "" && nu != "" && (nt == nu || Jaccard(lex.tokens(t), lex.tokens(u)) >= THRESHOLD)
  }

  /** YYYY-MM-DD, or "" when the time is missing or unreadable. */
  function Day(lex: Lexicon, observedAt: string): string {
    var t := NormTime(lex, observedAt);
    if |t| <= 10 then t else t[..10]
  }

  function DateBucket(lex: Lexicon, r: Record): string {
    Day(lex, r.observedAt)
  }

  function ShownSignal(r: Record): string {
    if r.signal.None? then "None" else r.signal.value
  }

  /** The key under which equal metric signals meet, "" for any other record. */
  function SignalKey(lex: Lexicon, r: Record): string {
    if r.recordType == "structured_signal"
    then Join3(ShownSignal(r), DateBucket(lex, r), NormTitle(lex, r.title))
    else ""
  }

  function OfficialKey(lex: Lexicon, r: Record): string {
    OfficialId(lex, ExternalUrl(r))
  }

  predicate StrongLinked(lex: Lexicon, r: Record, s: Record) {
    || (r.canonicalUrl != "" && r.canonicalUrl == s.canonicalUrl)
    || (OfficialKey(lex, r) != "" && OfficialKey(lex, r) == OfficialKey(lex, s))
    || (SignalKey(lex, r) != "" && SignalKey(lex, r) == SignalKey(lex, s))
  }

  predicate WeakLinked(lex: Lexicon, r: Record, s: Record) {
    DateBucket(lex, r) != "" && DateBucket(lex, r) == DateBucket(lex, s) && TitlesSimilar(lex, r.title, s.title)
  }

  ghost function StrongEdges(lex: Lexicon, recs: seq<Record>): Edges {
    set i: nat, j: nat | i < |recs| && j < |recs| && i != j && StrongLinked(lex, recs[i], recs[j]) :: (i, j)
  }

  ghost function WeakEdges(lex: Lexicon, recs: seq<Record>): Edges {
    set i: nat, j: nat | i < |recs| && j < |recs| && i != j && WeakLinked(lex, recs[i], recs[j]) :: (i, j)
  }

  ghost function AllEdges(lex: Lexicon, recs: seq<Record>): Edges {
    StrongEdges(lex, recs) + WeakEdges(lex, recs)
  }

  /** The cluster of record x: everything links of either kind reach. */
  ghost function ClusterSet(lex: Lexicon, recs: seq<Record>, x: nat): set<nat> {
    Component(AllEdges(lex, recs), |recs|, x)
  }

  /** The strong component of record x: everything strong links alone reach. */
  ghost function StrongSet(lex: Lexicon, recs: seq<Record>, x: nat): set<nat> {
    Component(StrongEdges(lex, recs), |recs|, x)
  }

  // ---- Keys, ranks and the result of one cluster ----

  function KeyAt(lex: Lexicon, recs: seq<Record>, i: nat): string {
    if i >= |recs| then ""
    else
      match ComputeKey(lex, recs[i])
      case Some(k) => k.key
      case None => "rec:" + lex.show(i)
  }

  function KeysOf(lex: Lexicon, recs: seq<Record>, s: seq<nat>): seq<string> {
    Map(m => KeyAt(lex, recs, m), s)
  }

  function MinKey(lex: Lexicon, recs: seq<Record>, S: set<nat>): string {
    var ks := KeysOf(lex, recs, Ascending(|recs|, S));
    if ks == [] then "" else MinText(ks)
  }

  const PUBLISHABLE_TYPES := {"official_record", "article_candidate"}

  predicate HasPublishable(recs: seq<Record>, S: set<nat>) {
    exists m :: m in S && m < |recs| && recs[m].recordType in PUBLISHABLE_TYPES
  }

  datatype Rank = Rank(size: nat, publishable: bool, minKey: string)

  function RankOf(lex: Lexicon, recs: seq<Record>, S: set<nat>): Rank {
    Rank(|S|, HasPublishable(recs, S), MinKey(lex, recs, S))
  }

  /** Larger first, then publishable, then the smaller least key. */
  predicate Better(a: Rank, b: Rank) {
    || a.size > b.size
    || (a.size == b.size && a.publishable && !b.publishable)
    || (a.size == b.size && a.publishable == b.publishable && a.minKey != b.minKey && TextLe(a.minKey, b.minKey))
  }

  /** The least-key record of P comes before every least-key record of Q in the input. */
  ghost predicate HoldsFirst(lex: Lexicon, recs: seq<Record>, P: set<nat>, Q: set<nat>) {
    exists h :: h in P && KeyAt(lex, recs, h) == MinKey(lex, recs, P)
      && forall g :: g in Q && KeyAt(lex, recs, g) == MinKey(lex, recs, Q) ==> h < g
  }

  /** P is the core of the cluster S: a strong component no other outranks; input order decides ties. */
  ghost predicate IsPrimary(lex: Lexicon, recs: seq<Record>, S: set<nat>, P: set<nat>) {
    && (exists m :: m in S && P == StrongSet(lex, recs, m))
    && forall m :: m in S && StrongSet(lex, recs, m) != P ==>
         var Q := StrongSet(lex, recs, m);
         || Better(RankOf(lex, recs, P), RankOf(lex, recs, Q))
         || (RankOf(lex, recs, P) == RankOf(lex, recs, Q) && HoldsFirst(lex, recs, P, Q))
  }

  ghost predicate HasStrong(lex: Lexicon, recs: seq<Record>, S: set<nat>) {
    exists a, b :: a in S && b in S && (a, b) in StrongEdges(lex, recs)
  }

  /** v is the largest title similarity over the weak links inside S. */
  ghost predicate IsTopSimilarity(lex: Lexicon, recs: seq<Record>, S: set<nat>, v: real) {
    && (exists a, b :: a in S && b in S && (a, b) in WeakEdges(lex, recs)
                       && v == Similarity(lex, recs[a].title, recs[b].title))
    && (forall a, b :: a in S && b in S && (a, b) in WeakEdges(lex, recs)
                       ==> Similarity(lex, recs[a].title, recs[b].title) <= v)
  }

  /** ks is the sorted list of the keys of the records in S. */
  ghost predicate IsSortedKeys(lex: Lexicon, recs: seq<Record>, S: set<nat>, ks: seq<string>) {
    Sorted(TextLe, ks) && multiset(ks) == multiset(KeysOf(lex, recs, Ascending(|recs|, S)))
  }

  datatype Confidence = Duplicate | PossibleDuplicate

  datatype Result = Result(
    clusterId: string, duplicateGroup: seq<string>, primaryKey: string, duplicateKeys: seq<string>,
    confidence: Confidence, reason: string, signalStrength: real, cliqueOk: bool, weakOnly: seq<string>)

  ghost predicate IsClusterResult(lex: Lexicon, recs: seq<Record>, S: set<nat>, r: Result) {
    && IsSortedKeys(lex, recs, S, r.duplicateGroup) && r.duplicateGroup != []
    && r.primaryKey == r.duplicateGroup[0] && r.clusterId == "xcluster:" + r.primaryKey
    && r.duplicateKeys == r.duplicateGroup[1..]
    && r.confidence == (if HasStrong(lex, recs, S) then Duplicate else PossibleDuplicate)
    && r.reason == (if HasStrong(lex, recs, S) then "strong_key_match" else "title_date_similarity")
    && (if HasStrong(lex, recs, S) then r.signalStrength == 1.0 else IsTopSimilarity(lex, recs, S, r.signalStrength))
    && exists P :: IsPrimary(lex, recs, S, P) && (r.cliqueOk <==> P == S) && IsSortedKeys(lex, recs, S - P, r.weakOnly)
  }

  /** The least members of the clusters of two or more records. */
  ghost predicate IsClusterRoot(lex: Lexicon, recs: seq<Record>, r: nat) {
    IsLeastConnected(AllEdges(lex, recs), |recs|, r, r) && |ClusterSet(lex, recs, r)| >= 2
  }

  ghost function Roots(lex: Lexicon, recs: seq<Record>, n: nat): (rs: seq<nat>)
    requires n <= |recs|
    ensures forall r: nat :: r in rs <==> r < n && IsClusterRoot(lex, recs, r)
    ensures Distinct(rs)
  {
    if n == 0 then []
    else Roots(lex, recs, n - 1) + if IsClusterRoot(lex, recs, n - 1) then [n - 1] else []
  }

  /** One result for every connected component of two or more records, by ascending least member. */
  ghost predicate IsClustering(lex: Lexicon, recs: seq<Record>, out: seq<Result>) {
    var roots := Roots(lex, recs, |recs|);
    |out| == |roots| && forall k :: 0 <= k < |out| ==>
      IsClusterResult(lex, recs, ClusterSet(lex, recs, roots[k]), out[k])
  }
}
