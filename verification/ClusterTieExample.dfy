/** Six signals whose cluster is not settled: two triples share a title each, the titles share four of five words,
    and two sources are spread over the triples as 2 + 1 and 1 + 2, so that the least keys tie
    (cross_source_dedup.py). */
module ClusterTieExample {
  import opened Connectivity
  import opened Options
  import opened RecordKeys
  import opened Sorting
  import opened Clustering
  import opened ClusterOrder
  import opened ClusterTies

  const SHORT := "gas cost index climbs"
  const LONG := "gas cost index climbs sharply"
  const AT := "2024-05-01T00:00:00Z"
  const DAY := "2024-05-01"

  function Signal(source: string, title: string): Record {
    Record("structured_signal", source, "", "", title, Some("up"), AT, "")
  }

  function Records(): seq<Record> {
    [Signal("s", SHORT), Signal("s", SHORT), Signal("u", SHORT),
     Signal("s", LONG), Signal("u", LONG), Signal("u", LONG)]
  }

  /** What the code's normalisation, token pattern and time parser make of these two titles and this time;
      of the digest only that it is injective. */
  ghost predicate Reads(lex: Lexicon) {
    && lex.norm(SHORT) == SHORT && lex.norm(LONG) == LONG
    && lex.tokens(SHORT) == {"gas", "cost", "index", "climbs"}
    && lex.tokens(LONG) == {"gas", "cost", "index", "climbs", "sharply"}
    && lex.time(AT) == "2024-05-01T00:00:00+00:00"
    && forall a, b :: lex.hash(a) == lex.hash(b) ==> a == b
  }

  // ---- Links ----

  lemma TitlesOverlap(a: string, b: string, c: string, d: string, e: string)
    requires |a| < |b| < |c| < |d| < |e|
    ensures Jaccard({a, b, c, d}, {a, b, c, d, e}) == 0.8 == Jaccard({a, b, c, d, e}, {a, b, c, d})
  {
    var s, t := {a, b, c, d}, {a, b, c, d, e};
    assert |s| == 4 && |t| == 5;
    assert s * t == s == t * s && s + t == t == t + s;
  }

  lemma SameDay(lex: Lexicon)
    requires Reads(lex)
    ensures Day(lex, AT) == DAY != ""
  {
    assert "2024-05-01T00:00:00+00:00" == DAY + "T00:00:00+00:00";
  }

  lemma Alike(lex: Lexicon, i: nat, j: nat)
    requires Reads(lex) && i < 6 && j < 6
    ensures WeakLinked(lex, Records()[i], Records()[j])
  {
    SameDay(lex);
    TitlesOverlap("gas", "cost", "index", "climbs", "sharply");
  }

  lemma SignalKeys(lex: Lexicon, i: nat)
    requires Reads(lex) && i < 6
    ensures |SignalKey(lex, Records()[i])| == |"up"| + |DAY| + 2 + if i < 3 then |SHORT| else |LONG|
    ensures SignalKey(lex, Records()[i]) == SignalKey(lex, Records()[if i < 3 then 0 else 3])
    ensures Records()[i].recordType == "structured_signal" && Records()[i].canonicalUrl == ""
      && Records()[i].sourceUrl == ""
  {
    SameDay(lex);
  }

  lemma Links(lex: Lexicon, i: nat, j: nat)
    requires Reads(lex) && i < 6 && j < 6
    ensures StrongLinked(lex, Records()[i], Records()[j]) <==> (i < 3 <==> j < 3)
  {
    SignalKeys(lex, i);
    SignalKeys(lex, j);
    assert |SHORT| < |LONG|;
  }

  ghost function Triple(i: nat): set<nat> {
    if i < 3 then {0, 1, 2} else {3, 4, 5}
  }

  ghost predicate InTriples(E: Edges) {
    forall e :: e in E <==> e.0 < 6 && e.1 < 6 && e.0 != e.1 && (e.0 < 3 <==> e.1 < 3)
  }

  ghost predicate AllJoined(E: Edges) {
    forall e :: e in E <==> e.0 < 6 && e.1 < 6 && e.0 != e.1
  }

  lemma EdgesAre(lex: Lexicon)
    requires Reads(lex)
    ensures InTriples(StrongEdges(lex, Records())) && AllJoined(AllEdges(lex, Records()))
  {
    var recs := Records();
    forall e: (nat, nat)
      ensures e in StrongEdges(lex, recs) <==> e.0 < 6 && e.1 < 6 && e.0 != e.1 && (e.0 < 3 <==> e.1 < 3)
      ensures e in AllEdges(lex, recs) <==> e.0 < 6 && e.1 < 6 && e.0 != e.1
    {
      assert e == (e.0, e.1);
      if e.0 < 6 && e.1 < 6 {
        Links(lex, e.0, e.1);
        Alike(lex, e.0, e.1);
      }
    }
  }

  // ---- Components ----

  lemma TriplesAreComponents(E: Edges, i: nat)
    requires InTriples(E) && i < 6
    ensures Component(E, 6, i) == Triple(i)
  {
    Reflexive(E, i);
    forall j: nat | j < 6 && j != i && (i < 3 <==> j < 3) ensures Connected(E, i, j) {
      assert (i, j) in E;
      EdgeConnects(E, i, j);
    }
    forall j: nat | j < 6 && Connected(E, i, j) ensures j in Triple(i) {
      ClosedSetTraps(E, i, j, iset y | y in Triple(i));
    }
  }

  lemma OneComponent(E: Edges)
    requires AllJoined(E)
    ensures forall m: nat :: m in Component(E, 6, 0) <==> m < 6
  {
    Reflexive(E, 0);
    forall j: nat | 0 < j < 6 ensures Connected(E, 0, j) {
      assert (0, j) in E;
      EdgeConnects(E, 0, j);
    }
  }

  // ---- Keys and ranks ----

  predicate NatLe(a: nat, b: nat) {
    a <= b
  }

  /** A listing is determined by being ascending and by its members. */
  lemma AscendingIs(n: nat, S: set<nat>, s: seq<nat>)
    requires (forall x: nat :: x in s <==> x in S && x < n) && forall i, j :: 0 <= i < j < |s| ==> s[i] < s[j]
    ensures Ascending(n, S) == s
  {
    SameElements(Ascending(n, S), s);
    SortedUnique(NatLe, Ascending(n, S), s);
  }

  lemma AscendingTriples()
    ensures Ascending(6, Triple(0)) == [0, 1, 2] && Ascending(6, Triple(3)) == [3, 4, 5]
  {
    AscendingIs(6, Triple(0), [0, 1, 2]);
    AscendingIs(6, Triple(3), [3, 4, 5]);
  }

  /** The keys are a, a, b for the first triple and a, b, b for the second. */
  ghost predicate KeysAre(lex: Lexicon, recs: seq<Record>, a: string, b: string) {
    && |recs| == 6 && (forall i: nat :: i < 6 ==> recs[i].recordType !in PUBLISHABLE_TYPES)
    && KeyAt(lex, recs, 0) == a && KeyAt(lex, recs, 1) == a && KeyAt(lex, recs, 2) == b
    && KeyAt(lex, recs, 3) == a && KeyAt(lex, recs, 4) == b && KeyAt(lex, recs, 5) == b
  }

  lemma TripleKeys(lex: Lexicon, recs: seq<Record>, a: string, b: string)
    requires KeysAre(lex, recs, a, b)
    ensures KeysOf(lex, recs, Ascending(6, Triple(0))) == [a, a, b]
    ensures KeysOf(lex, recs, Ascending(6, Triple(3))) == [a, b, b]
  {
    AscendingTriples();
    KeysOfThree(lex, recs, 0, 1, 2);
    KeysOfThree(lex, recs, 3, 4, 5);
  }

  lemma KeysOfThree(lex: Lexicon, recs: seq<Record>, i: nat, j: nat, k: nat)
    ensures KeysOf(lex, recs, [i, j, k]) == [KeyAt(lex, recs, i), KeyAt(lex, recs, j), KeyAt(lex, recs, k)]
  {
  }

  lemma NothingPublishable(lex: Lexicon, recs: seq<Record>, a: string, b: string, S: set<nat>)
    requires KeysAre(lex, recs, a, b)
    ensures !HasPublishable(recs, S)
  {
  }

  lemma RankIs(lex: Lexicon, recs: seq<Record>, S: set<nat>, n: nat, k: string)
    requires |S| == n && !HasPublishable(recs, S) && MinKey(lex, recs, S) == k
    ensures RankOf(lex, recs, S) == Rank(n, false, k)
  {
  }

  lemma TripleSize(i: nat)
    ensures |Triple(i)| == 3
  {
  }

  lemma TripleRank(lex: Lexicon, recs: seq<Record>, a: string, b: string, i: nat)
    requires KeysAre(lex, recs, a, b) && (i == 0 || i == 3)
    ensures RankOf(lex, recs, Triple(i)) == Rank(3, false, MinText([a, b, b]))
  {
    NothingPublishable(lex, recs, a, b, Triple(i));
    TripleLeast(lex, recs, a, b, i);
    TripleSize(i);
    RankIs(lex, recs, Triple(i), 3, MinText([a, b, b]));
  }

  lemma TripleLeast(lex: Lexicon, recs: seq<Record>, a: string, b: string, i: nat)
    requires KeysAre(lex, recs, a, b) && (i == 0 || i == 3)
    ensures MinKey(lex, recs, Triple(i)) == MinText([a, b, b])
  {
    TripleKeys(lex, recs, a, b);
    SameLeast(a, b);
  }

  lemma SameLeast(a: string, b: string)
    ensures MinText([a, a, b]) == MinText([a, b, b])
  {
    MinTextOfSameElements([a, a, b], [a, b, b]);
  }

  /** Both triples have the same rank, whichever of the two keys is the smaller. */
  lemma MemberRank(lex: Lexicon, recs: seq<Record>, a: string, b: string, m: nat)
    requires KeysAre(lex, recs, a, b) && InTriples(StrongEdges(lex, recs)) && m < 6
    ensures StrongSet(lex, recs, m) == Triple(if m < 3 then 0 else 3)
    ensures RankOf(lex, recs, StrongSet(lex, recs, m)) == Rank(3, false, MinText([a, b, b]))
  {
    TriplesAreComponents(StrongEdges(lex, recs), m);
    TripleRank(lex, recs, a, b, if m < 3 then 0 else 3);
  }

  lemma EqualRanksAreBest(lex: Lexicon, recs: seq<Record>, S: set<nat>, k: Rank, c: nat)
    requires c in S && forall m :: m in S ==> RankOf(lex, recs, StrongSet(lex, recs, m)) == k
    ensures IsBest(lex, recs, S, StrongSet(lex, recs, c))
  {
  }

  lemma TripleIsBest(lex: Lexicon, recs: seq<Record>, a: string, b: string, S: set<nat>, i: nat)
    requires KeysAre(lex, recs, a, b) && InTriples(StrongEdges(lex, recs))
    requires (forall m: nat :: m in S <==> m < 6) && (i == 0 || i == 3)
    ensures IsBest(lex, recs, S, Triple(i))
  {
    var k := Rank(3, false, MinText([a, b, b]));
    forall m | m in S ensures RankOf(lex, recs, StrongSet(lex, recs, m)) == k {
      MemberRank(lex, recs, a, b, m);
    }
    MemberRank(lex, recs, a, b, i);
    EqualRanksAreBest(lex, recs, S, k, i);
  }

  lemma BagsDiffer(a: string, b: string)
    requires a != b
    ensures multiset([a, a, b]) != multiset([a, b, b])
  {
    assert multiset([a, a, b])[a] == 2 && multiset([a, b, b])[a] == 1;
  }

  lemma NotSettledBy(lex: Lexicon, recs: seq<Record>, S: set<nat>, A: set<nat>, B: set<nat>)
    requires IsBest(lex, recs, S, A) && IsBest(lex, recs, S, B) && KeyBag(lex, recs, A) != KeyBag(lex, recs, B)
    ensures !Settled(lex, recs, S)
  {
  }

  lemma TwoTriplesAreNotSettled(lex: Lexicon, recs: seq<Record>, a: string, b: string)
    requires KeysAre(lex, recs, a, b) && a != b
    requires InTriples(StrongEdges(lex, recs)) && AllJoined(AllEdges(lex, recs))
    ensures |ClusterSet(lex, recs, 0)| >= 2 && !Settled(lex, recs, ClusterSet(lex, recs, 0))
  {
    var S := ClusterSet(lex, recs, 0);
    OneComponent(AllEdges(lex, recs));
    SixAreMany(S);
    TriplesTie(lex, recs, a, b, S);
  }

  lemma SixAreMany(S: set<nat>)
    requires forall m: nat :: m in S <==> m < 6
    ensures |S| >= 2
  {
    SubsetCardinality({0, 1}, S);
  }

  lemma TriplesTie(lex: Lexicon, recs: seq<Record>, a: string, b: string, S: set<nat>)
    requires KeysAre(lex, recs, a, b) && a != b && InTriples(StrongEdges(lex, recs))
    requires forall m: nat :: m in S <==> m < 6
    ensures !Settled(lex, recs, S)
  {
    TripleIsBest(lex, recs, a, b, S, 0);
    TripleIsBest(lex, recs, a, b, S, 3);
    TripleKeys(lex, recs, a, b);
    BagsDiffer(a, b);
    NotSettledBy(lex, recs, S, Triple(0), Triple(3));
  }

  function SignalKeyOf(lex: Lexicon, source: string): string {
    "signal:" + lex.hash(Join3(source, "up", lex.time(AT)))
  }

  lemma ExampleKeys(lex: Lexicon)
    requires Reads(lex)
    ensures KeysAre(lex, Records(), SignalKeyOf(lex, "s"), SignalKeyOf(lex, "u"))
  {
  }

  lemma KeysDiffer(lex: Lexicon)
    requires Reads(lex)
    ensures SignalKeyOf(lex, "s") != SignalKeyOf(lex, "u")
  {
    var x, y := Join3("s", "up", lex.time(AT)), Join3("u", "up", lex.time(AT));
    assert x[0] == 's' && y[0] == 'u';
    assert SignalKeyOf(lex, "s")[7..] == lex.hash(x) && SignalKeyOf(lex, "u")[7..] == lex.hash(y);
  }

  /** The best strong components of these six records carry different keys. */
  lemma NotSettled(lex: Lexicon)
    requires Reads(lex)
    ensures |ClusterSet(lex, Records(), 0)| >= 2 && !Settled(lex, Records(), ClusterSet(lex, Records(), 0))
  {
    EdgesAre(lex);
    ExampleKeys(lex);
    KeysDiffer(lex);
    TwoTriplesAreNotSettled(lex, Records(), SignalKeyOf(lex, "s"), SignalKeyOf(lex, "u"));
  }

  /** So the same six records in another order give another weak_only_members. */
  lemma OrderShows(lex: Lexicon, q: Result) returns (f: seq<nat>, now: seq<Record>, r: Result)
    requires Reads(lex) && IsClusterResult(lex, Records(), ClusterSet(lex, Records(), 0), q)
    ensures Rearranges(f, f, now, Records()) && IsClusterResult(lex, now, ClusterSet(lex, now, f[0]), r)
    ensures r.weakOnly != q.weakOnly
  {
    NotSettled(lex);
    f, now, r := UnsettledShows(lex, Records(), 0, q);
  }
}
