/** Who is left out of a cluster's core, and when that depends on input order (cross_source_dedup.py).
    Two strong components can tie in size, publishability and least key; the first in the input wins. */
module ClusterTies {
  import opened Connectivity
  import opened RecordKeys
  import opened Sorting
  import opened Clustering
  import opened ClusterDescription
  import opened ClusterTheorems
  import opened ClusterOrder

  ghost function KeyBag(lex: Lexicon, recs: seq<Record>, S: set<nat>): multiset<string> {
    multiset(KeysOf(lex, recs, Ascending(|recs|, S)))
  }

  /** Q is a strong component of S that no other outranks. */
  ghost predicate IsBest(lex: Lexicon, recs: seq<Record>, S: set<nat>, Q: set<nat>) {
    && (exists m :: m in S && Q == StrongSet(lex, recs, m))
    && forall m :: m in S ==> !Better(RankOf(lex, recs, StrongSet(lex, recs, m)), RankOf(lex, recs, Q))
  }

  /** The best strong components carry the same keys. */
  ghost predicate Settled(lex: Lexicon, recs: seq<Record>, S: set<nat>) {
    forall A, B :: IsBest(lex, recs, S, A) && IsBest(lex, recs, S, B) ==> KeyBag(lex, recs, A) == KeyBag(lex, recs, B)
  }

  lemma PrimaryIsBest(lex: Lexicon, recs: seq<Record>, S: set<nat>, P: set<nat>)
    requires IsPrimary(lex, recs, S, P)
    ensures IsBest(lex, recs, S, P)
  {
    forall m | m in S ensures !Better(RankOf(lex, recs, StrongSet(lex, recs, m)), RankOf(lex, recs, P)) {
      var Q := StrongSet(lex, recs, m);
      if Better(RankOf(lex, recs, Q), RankOf(lex, recs, P)) {
        BetterIsStrict(RankOf(lex, recs, Q), RankOf(lex, recs, P));
      }
    }
  }

  // ---- Ranks follow the records ----

  lemma {:induction false} ImageSize(f: seq<nat>, S: set<nat>)
    requires forall a, b :: a in S && b in S && Through(f, a) == Through(f, b) ==> a == b
    ensures |Image(f, S)| == |S|
    decreases |S|
  {
    if S == {} {
      assert Image(f, S) == {};
    } else {
      var x :| x in S;
      ImageSize(f, S - {x});
      assert Image(f, S) == Image(f, S - {x}) + {Through(f, x)};
      assert Through(f, x) !in Image(f, S - {x});
    }
  }

  lemma MinKeyByBag(lex: Lexicon, now: seq<Record>, was: seq<Record>, S: set<nat>, T: set<nat>)
    requires KeyBag(lex, now, S) == KeyBag(lex, was, T)
    ensures MinKey(lex, now, S) == MinKey(lex, was, T)
  {
    var ks, ls := KeysOf(lex, now, Ascending(|now|, S)), KeysOf(lex, was, Ascending(|was|, T));
    assert |ks| == |multiset(ks)| && |ls| == |multiset(ls)|;
    if ks != [] && ls != [] {
      forall x ensures x in ks <==> x in ls {
        assert x in multiset(ks) <==> x in multiset(ls);
      }
      MinTextOfSameElements(ks, ls);
    }
  }

  lemma RankFollows(lex: Lexicon, f: seq<nat>, g: seq<nat>, now: seq<Record>, was: seq<Record>, S: set<nat>)
    requires Rearranges(f, g, now, was) && AllKeyed(lex, now, S)
    ensures RankOf(lex, now, S) == RankOf(lex, was, Image(f, S))
  {
    SizeFollows(f, g, now, was, S);
    assert MinKey(lex, now, S) == MinKey(lex, was, Image(f, S)) by {
      KeysFollow(lex, f, g, now, was, S);
      MinKeyByBag(lex, now, was, S, Image(f, S));
    }
    PublishableFollows(f, g, now, was, S);
  }

  lemma SizeFollows(f: seq<nat>, g: seq<nat>, now: seq<Record>, was: seq<Record>, S: set<nat>)
    requires Rearranges(f, g, now, was) && forall x :: x in S ==> x < |now|
    ensures |Image(f, S)| == |S|
  {
    forall a, b | a in S && b in S && Through(f, a) == Through(f, b) ensures a == b {
      assert g[f[a]] == a && g[f[b]] == b;
    }
    ImageSize(f, S);
  }

  lemma PublishableFollows(f: seq<nat>, g: seq<nat>, now: seq<Record>, was: seq<Record>, S: set<nat>)
    requires Rearranges(f, g, now, was) && forall x :: x in S ==> x < |now|
    ensures HasPublishable(now, S) <==> HasPublishable(was, Image(f, S))
  {
    if m :| m in S && now[m].recordType in PUBLISHABLE_TYPES {
      assert Through(f, m) in Image(f, S);
    }
  }

  /** A cluster of the new order, its place in the old one, and the facts both directions need. */
  ghost predicate Corresponds(lex: Lexicon, f: seq<nat>, g: seq<nat>, now: seq<Record>, was: seq<Record>, S: set<nat>,
                              T: set<nat>) {
    && Rearranges(f, g, now, was) && AllKeyed(lex, now, S) && T == Image(f, S)
    && ClosedUnder(StrongEdges(lex, now), S)
  }

  lemma StrongSetFollows(lex: Lexicon, f: seq<nat>, g: seq<nat>, now: seq<Record>, was: seq<Record>, S: set<nat>,
                         T: set<nat>, m: nat)
    requires Corresponds(lex, f, g, now, was, S, T) && m in S
    ensures f[m] in T && StrongSet(lex, was, f[m]) == Image(f, StrongSet(lex, now, m))
    ensures RankOf(lex, was, StrongSet(lex, was, f[m])) == RankOf(lex, now, StrongSet(lex, now, m))
  {
    ComponentsFollow(lex, f, g, now, was, m);
    StrongSetStaysInside(lex, now, S, m);
    RankFollows(lex, f, g, now, was, StrongSet(lex, now, m));
    assert Through(f, m) in T;
  }

  lemma BestFollows(lex: Lexicon, f: seq<nat>, g: seq<nat>, now: seq<Record>, was: seq<Record>, S: set<nat>,
                    T: set<nat>, Q: set<nat>)
    requires Corresponds(lex, f, g, now, was, S, T) && IsBest(lex, now, S, Q)
    ensures IsBest(lex, was, T, Image(f, Q)) && KeyBag(lex, was, Image(f, Q)) == KeyBag(lex, now, Q)
  {
    var q :| q in S && Q == StrongSet(lex, now, q);
    StrongSetFollows(lex, f, g, now, was, S, T, q);
    StrongSetStaysInside(lex, now, S, q);
    KeysFollow(lex, f, g, now, was, Q);
    forall m | m in T
      ensures !Better(RankOf(lex, was, StrongSet(lex, was, m)), RankOf(lex, was, Image(f, Q)))
    {
      var k :| k in S && m == Through(f, k);
      StrongSetFollows(lex, f, g, now, was, S, T, k);
    }
  }

  // ---- When ties cannot show ----

  /** If the best components carry the same keys, the whole result is independent of input order. */
  lemma SettledIsStable(lex: Lexicon, f: seq<nat>, g: seq<nat>, now: seq<Record>, was: seq<Record>, S: set<nat>,
                        T: set<nat>, r: Result, q: Result)
    requires Corresponds(lex, f, g, now, was, S, T) && Settled(lex, was, T)
    requires IsClusterResult(lex, now, S, r) && IsClusterResult(lex, was, T, q)
    ensures r.weakOnly == q.weakOnly
  {
    var P :| IsPrimary(lex, now, S, P) && IsSortedKeys(lex, now, S - P, r.weakOnly);
    var R :| IsPrimary(lex, was, T, R) && IsSortedKeys(lex, was, T - R, q.weakOnly);
    PrimaryIsBest(lex, now, S, P);
    PrimaryIsBest(lex, was, T, R);
    BestFollows(lex, f, g, now, was, S, T, P);
    PrimaryInside(lex, now, S, P);
    BestInsideImage(lex, f, g, now, was, S, T, R);
    KeysFollow(lex, f, g, now, was, S);
    RestByBag(lex, now, was, S, T, P, R, r.weakOnly, q.weakOnly);
  }

  lemma PrimaryInside(lex: Lexicon, recs: seq<Record>, S: set<nat>, P: set<nat>)
    requires ClosedUnder(StrongEdges(lex, recs), S) && IsBest(lex, recs, S, P)
    ensures P <= S
  {
    var m :| m in S && P == StrongSet(lex, recs, m);
    StrongSetStaysInside(lex, recs, S, m);
  }

  lemma BestInsideImage(lex: Lexicon, f: seq<nat>, g: seq<nat>, now: seq<Record>, was: seq<Record>, S: set<nat>,
                        T: set<nat>, R: set<nat>)
    requires Corresponds(lex, f, g, now, was, S, T) && IsBest(lex, was, T, R)
    ensures R <= T
  {
    var m :| m in T && R == StrongSet(lex, was, m);
    var k :| k in S && m == Through(f, k);
    StrongSetFollows(lex, f, g, now, was, S, T, k);
    StrongSetStaysInside(lex, now, S, k);
  }

  lemma Cancel(a: multiset<string>, x: multiset<string>, b: multiset<string>, y: multiset<string>)
    requires a + x == b + y
    ensures a == b <==> x == y
  {
    if a == b { assert x == (a + x) - a == (b + y) - b == y; }
    if x == y { assert a == (a + x) - x == (b + y) - y == b; }
  }

  lemma RestByBag(lex: Lexicon, now: seq<Record>, was: seq<Record>, S: set<nat>, T: set<nat>, P: set<nat>, R: set<nat>,
                  ks: seq<string>, ls: seq<string>)
    requires KeyBag(lex, now, S) == KeyBag(lex, was, T) && P <= S && R <= T
    requires (forall x :: x in S ==> x < |now|) && (forall x :: x in T ==> x < |was|)
    requires IsSortedKeys(lex, now, S - P, ks) && IsSortedKeys(lex, was, T - R, ls)
    ensures KeyBag(lex, now, P) == KeyBag(lex, was, R) <==> ks == ls
  {
    KeysSplit(lex, now, S, P);
    KeysSplit(lex, was, T, R);
    Cancel(KeyBag(lex, now, P), multiset(ks), KeyBag(lex, was, R), multiset(ls));
    if multiset(ks) == multiset(ls) {
      TextLeIsTotalOrder();
      SortedUnique(TextLe, ks, ls);
    }
  }

  // ---- When they do ----

  /** The order of recs with positions 0 and h exchanged. */
  ghost function Exchange(n: nat, h: nat): seq<nat> {
    seq(n, i requires 0 <= i < n => if i == 0 then h else if i == h then 0 else i)
  }

  ghost function Exchanged(recs: seq<Record>, h: nat): seq<Record>
    requires h < |recs|
  {
    seq(|recs|, i requires 0 <= i < |recs| => if i == 0 then recs[h] else if i == h then recs[0] else recs[i])
  }

  lemma ExchangeRearranges(recs: seq<Record>, h: nat)
    requires h < |recs|
    ensures Rearranges(Exchange(|recs|, h), Exchange(|recs|, h), Exchanged(recs, h), recs)
  {
  }

  /** A best component whose least-key record comes first in the input is the core. */
  lemma FirstBestIsPrimary(lex: Lexicon, recs: seq<Record>, S: set<nat>, C: set<nat>)
    requires (forall x :: x in S ==> x < |recs|) && IsBest(lex, recs, S, C)
    requires 0 in C && KeyAt(lex, recs, 0) == MinKey(lex, recs, C)
    ensures IsPrimary(lex, recs, S, C)
  {
    var c :| c in S && C == StrongSet(lex, recs, c);
    forall m | m in S && StrongSet(lex, recs, m) != C
      ensures var Q := StrongSet(lex, recs, m);
        || Better(RankOf(lex, recs, C), RankOf(lex, recs, Q))
        || (RankOf(lex, recs, C) == RankOf(lex, recs, Q) && HoldsFirst(lex, recs, C, Q))
    {
      var Q := StrongSet(lex, recs, m);
      BetterIsTotal(RankOf(lex, recs, C), RankOf(lex, recs, Q));
      assert 0 !in Q by {
        if 0 in Q {
          SameComponent(StrongEdges(lex, recs), |recs|, m, 0);
          SameComponent(StrongEdges(lex, recs), |recs|, c, 0);
        }
      }
      assert forall g :: g in Q ==> 0 < g;
    }
  }

  lemma MinKeyHeld(lex: Lexicon, recs: seq<Record>, S: set<nat>) returns (h: nat)
    requires S != {} && forall x :: x in S ==> x < |recs|
    ensures h in S && KeyAt(lex, recs, h) == MinKey(lex, recs, S)
  {
    var asc := Ascending(|recs|, S);
    var x :| x in S;
    assert x in asc;
    var ks := KeysOf(lex, recs, asc);
    var i :| 0 <= i < |ks| && ks[i] == MinText(ks);
    h := asc[i];
    assert h in asc;
  }

  lemma MinKeyMoves(lex: Lexicon, f: seq<nat>, now: seq<Record>, was: seq<Record>, S: set<nat>)
    requires Rearranges(f, f, now, was) && AllKeyed(lex, now, S)
    ensures AllKeyed(lex, was, Image(f, S)) && MinKey(lex, was, Image(f, S)) == MinKey(lex, now, S)
  {
    KeysFollow(lex, f, f, now, was, S);
    MinKeyByBag(lex, now, was, S, Image(f, S));
  }

  /** Bringing the least-key record of a best component to the front makes that component the core. */
  lemma ExchangeMakesPrimary(lex: Lexicon, f: seq<nat>, now: seq<Record>, was: seq<Record>, S: set<nat>, T: set<nat>,
                             C: set<nat>, h: nat)
    requires Corresponds(lex, f, f, was, now, T, S) && Rearranges(f, f, now, was) && IsBest(lex, was, T, C)
    requires h in C && KeyAt(lex, was, h) == MinKey(lex, was, C) && C <= T && Through(f, h) == 0
    ensures IsPrimary(lex, now, S, Image(f, C))
  {
    BestFollows(lex, f, f, was, now, T, S, C);
    MinKeyMoves(lex, f, was, now, C);
    FrontRecord(f, was, now, C, h);
    FrontIsPrimary(lex, now, S, Image(f, C), was, h);
  }

  /** The first record holds the least key of a best component, as record h of another list. */
  lemma FrontIsPrimary(lex: Lexicon, now: seq<Record>, S: set<nat>, C: set<nat>, was: seq<Record>, h: nat)
    requires (forall x :: x in S ==> x < |now|) && IsBest(lex, now, S, C) && 0 in C && now != []
    requires h < |was| && now[0] == was[h] && ComputeKey(lex, was[h]).Some? && KeyAt(lex, was, h) == MinKey(lex, now, C)
    ensures IsPrimary(lex, now, S, C)
  {
    SameRecordSameKey(lex, now, was, 0, h);
    FirstBestIsPrimary(lex, now, S, C);
  }

  lemma SameRecordSameKey(lex: Lexicon, now: seq<Record>, was: seq<Record>, i: nat, j: nat)
    requires i < |now| && j < |was| && now[i] == was[j] && ComputeKey(lex, was[j]).Some?
    ensures KeyAt(lex, now, i) == KeyAt(lex, was, j)
  {
  }

  lemma FrontRecord(f: seq<nat>, now: seq<Record>, was: seq<Record>, S: set<nat>, h: nat)
    requires Rearranges(f, f, now, was) && h in S && h < |now| && Through(f, h) == 0
    ensures 0 in Image(f, S) && |was| > 0 && was[0] == now[h]
  {
    assert f[h] == 0;
  }

  lemma TopSimilarityMoves(lex: Lexicon, f: seq<nat>, g: seq<nat>, now: seq<Record>, was: seq<Record>, S: set<nat>,
                           v: real)
    requires Rearranges(f, g, now, was) && (forall x :: x in S ==> x < |now|) && IsTopSimilarity(lex, now, S, v)
    ensures IsTopSimilarity(lex, was, Image(f, S), v)
  {
    var T := Image(f, S);
    var a, b :| a in S && b in S && (a, b) in WeakEdges(lex, now) && v == Similarity(lex, now[a].title, now[b].title);
    assert Through(f, a) in T && Through(f, b) in T && (f[a], f[b]) in WeakEdges(lex, was);
    forall c, d | c in T && d in T && (c, d) in WeakEdges(lex, was)
      ensures Similarity(lex, was[c].title, was[d].title) <= v
    {
      var i :| i in S && c == Through(f, i);
      var j :| j in S && d == Through(f, j);
      assert (i, j) in WeakEdges(lex, now);
    }
  }

  /** A best component other than the core in use, with other keys. */
  lemma OtherBest(lex: Lexicon, recs: seq<Record>, S: set<nat>, P: set<nat>) returns (C: set<nat>)
    requires !Settled(lex, recs, S)
    ensures IsBest(lex, recs, S, C) && KeyBag(lex, recs, C) != KeyBag(lex, recs, P)
  {
    var A, B :| IsBest(lex, recs, S, A) && IsBest(lex, recs, S, B) && KeyBag(lex, recs, A) != KeyBag(lex, recs, B);
    C := if KeyBag(lex, recs, A) != KeyBag(lex, recs, P) then A else B;
  }

  /** The rearranged cluster has the old result with the new core's complement left out. */
  lemma ExchangedResult(lex: Lexicon, f: seq<nat>, now: seq<Record>, was: seq<Record>, S: set<nat>, T: set<nat>,
                        C: set<nat>, q: Result, ws: seq<string>)
    requires Corresponds(lex, f, f, was, now, T, S) && Rearranges(f, f, now, was)
    requires C < T && IsPrimary(lex, now, S, Image(f, C)) && IsSortedKeys(lex, was, T - C, ws)
    requires IsClusterResult(lex, was, T, q) && !q.cliqueOk
    ensures IsClusterResult(lex, now, S, q.(weakOnly := ws))
  {
    SortedKeysFollow(lex, f, f, was, now, T, q.duplicateGroup);
    SortedKeysFollow(lex, f, f, was, now, T - C, ws);
    ImageMinus(f, was, now, T, C);
    StrongnessSame(lex, f, f, was, now, T);
    if !HasStrong(lex, was, T) { TopSimilarityMoves(lex, f, f, was, now, T, q.signalStrength); }
  }

  lemma ImageMinus(f: seq<nat>, now: seq<Record>, was: seq<Record>, T: set<nat>, C: set<nat>)
    requires Rearranges(f, f, now, was) && C < T && forall x :: x in T ==> x < |now|
    ensures Image(f, T - C) == Image(f, T) - Image(f, C) && Image(f, C) != Image(f, T)
  {
    var y :| y in T && y !in C;
    forall a, b | a in T && b in T && Through(f, a) == Through(f, b) ensures a == b {
      assert f[f[a]] == a && f[f[b]] == b;
    }
    assert Through(f, y) in Image(f, T) && Through(f, y) !in Image(f, C);
  }

  lemma ClusterCorresponds(lex: Lexicon, f: seq<nat>, g: seq<nat>, now: seq<Record>, was: seq<Record>, x: nat)
    requires Rearranges(f, g, now, was) && x < |now| && |ClusterSet(lex, now, x)| >= 2
    ensures Corresponds(lex, f, g, now, was, ClusterSet(lex, now, x), ClusterSet(lex, was, f[x]))
  {
    ComponentsFollow(lex, f, g, now, was, x);
    ClusterIsKeyed(lex, now, x);
    ClusterClosed(lex, now, x);
  }

  lemma BestIsProper(lex: Lexicon, recs: seq<Record>, S: set<nat>, P: set<nat>, C: set<nat>)
    requires ClosedUnder(StrongEdges(lex, recs), S) && IsBest(lex, recs, S, P) && IsBest(lex, recs, S, C) && P != C
    ensures C < S && P < S && C != {}
  {
    PrimaryInside(lex, recs, S, P);
    PrimaryInside(lex, recs, S, C);
    var p :| p in S && P == StrongSet(lex, recs, p);
    var c :| c in S && C == StrongSet(lex, recs, c);
    Reflexive(StrongEdges(lex, recs), c);
    Reflexive(StrongEdges(lex, recs), p);
    if p in C { SameComponent(StrongEdges(lex, recs), |recs|, c, p); }
    if c in P { SameComponent(StrongEdges(lex, recs), |recs|, p, c); }
  }

  /** Otherwise exchanging two records changes who is left out. */
  lemma UnsettledShows(lex: Lexicon, was: seq<Record>, x: nat, q: Result)
    returns (f: seq<nat>, now: seq<Record>, r: Result)
    requires x < |was| && |ClusterSet(lex, was, x)| >= 2 && !Settled(lex, was, ClusterSet(lex, was, x))
    requires IsClusterResult(lex, was, ClusterSet(lex, was, x), q)
    ensures Rearranges(f, f, now, was) && IsClusterResult(lex, now, ClusterSet(lex, now, f[x]), r)
    ensures r.weakOnly != q.weakOnly
  {
    var T := ClusterSet(lex, was, x);
    var P :| IsPrimary(lex, was, T, P) && (q.cliqueOk <==> P == T) && IsSortedKeys(lex, was, T - P, q.weakOnly);
    PrimaryIsBest(lex, was, T, P);
    var C := OtherBest(lex, was, T, P);
    ClusterClosed(lex, was, x);
    BestIsProper(lex, was, T, P, C);
    var h := MinKeyHeld(lex, was, C);
    f, now := Exchange(|was|, h), Exchanged(was, h);
    ExchangeRearranges(was, h);
    RearrangesBack(f, f, now, was);
    ClusterCorresponds(lex, f, f, was, now, x);
    var S := ClusterSet(lex, now, f[x]);
    ExchangeMakesPrimary(lex, f, now, was, S, T, C, h);
    var rest := KeysOf(lex, was, Ascending(|was|, T - C));
    TextLeIsTotalOrder();
    SortSorts(TextLe, rest);
    var ws := Sort(TextLe, rest);
    r := q.(weakOnly := ws);
    ExchangedResult(lex, f, now, was, S, T, C, q, ws);
    RestByBag(lex, was, was, T, T, P, C, q.weakOnly, ws);
  }

  /** Who is left out is independent of input order exactly when the best strong components carry the same keys. */
  lemma WeakOnlyStableIff(lex: Lexicon, was: seq<Record>, x: nat, q: Result)
    requires x < |was| && |ClusterSet(lex, was, x)| >= 2 && IsClusterResult(lex, was, ClusterSet(lex, was, x), q)
    ensures Settled(lex, was, ClusterSet(lex, was, x)) <==>
      forall f, g, now, r :: Rearranges(f, g, now, was) && IsClusterResult(lex, now, ClusterSet(lex, now, g[x]), r)
                             ==> r.weakOnly == q.weakOnly
  {
    var T := ClusterSet(lex, was, x);
    if Settled(lex, was, T) {
      forall f, g, now, r | Rearranges(f, g, now, was) && IsClusterResult(lex, now, ClusterSet(lex, now, g[x]), r)
        ensures r.weakOnly == q.weakOnly
      {
        StableFrom(lex, f, g, now, was, x, r, q);
      }
    } else {
      var f, now, r := UnsettledShows(lex, was, x, q);
    }
  }

  lemma StableFrom(lex: Lexicon, f: seq<nat>, g: seq<nat>, now: seq<Record>, was: seq<Record>, x: nat, r: Result,
                   q: Result)
    requires x < |was| && |ClusterSet(lex, was, x)| >= 2 && IsClusterResult(lex, was, ClusterSet(lex, was, x), q)
    requires Settled(lex, was, ClusterSet(lex, was, x))
    requires Rearranges(f, g, now, was) && IsClusterResult(lex, now, ClusterSet(lex, now, g[x]), r)
    ensures r.weakOnly == q.weakOnly
  {
    RearrangesBack(f, g, now, was);
    var h := RootFollows(lex, g, f, was, now, x);
    ClusterCorresponds(lex, f, g, now, was, g[x]);
    SettledIsStable(lex, f, g, now, was, ClusterSet(lex, now, g[x]), ClusterSet(lex, was, x), r, q);
  }

  // ---- The whole list ----

  /** No cluster of two or more records can show the order of its records. */
  ghost predicate AllSettled(lex: Lexicon, recs: seq<Record>) {
    forall x: nat :: x < |recs| && |ClusterSet(lex, recs, x)| >= 2 ==> Settled(lex, recs, ClusterSet(lex, recs, x))
  }

  lemma FullOutputsMatch(lex: Lexicon, f: seq<nat>, g: seq<nat>, now: seq<Record>, was: seq<Record>,
                         hs: seq<nat>, out: seq<Result>, ref: seq<Result>, k: nat)
    requires Rearranges(f, g, now, was) && IsClustering(lex, now, out) && IsClustering(lex, was, ref)
    requires RootsMatch(lex, f, was, Roots(lex, now, |now|), hs) && k < |out| && AllSettled(lex, was)
    ensures hs[k] in ByRoot(Roots(lex, was, |was|), ref)
    ensures out[k] == ByRoot(Roots(lex, was, |was|), ref)[hs[k]]
  {
    OutputsMatch(lex, f, g, now, was, hs, out, ref, k);
    var roots, olds := Roots(lex, now, |now|), Roots(lex, was, |was|);
    assert roots[k] in roots && RootMatches(lex, f, was, roots[k], hs[k]);
    assert hs[k] in olds;
    var j :| 0 <= j < |olds| && olds[j] == hs[k];
    ByRootFinds(olds, ref, j);
    SettledOutput(lex, f, g, now, was, roots[k], hs[k], out[k], ref[j]);
  }

  lemma SettledOutput(lex: Lexicon, f: seq<nat>, g: seq<nat>, now: seq<Record>, was: seq<Record>, x: nat, h: nat,
                      r: Result, q: Result)
    requires Rearranges(f, g, now, was) && x < |now| && RootMatches(lex, f, was, x, h) && AllSettled(lex, was)
    requires IsClusterResult(lex, now, ClusterSet(lex, now, x), r)
      && IsClusterResult(lex, was, ClusterSet(lex, was, h), q)
    ensures r.weakOnly == q.weakOnly
  {
    assert g[f[x]] == x;
    StableFrom(lex, f, g, now, was, f[x], r, q);
  }

  /** If every cluster is settled, the whole list of results is independent of the order of the records. */
  lemma SettledOrderDoesNotMatter(lex: Lexicon, now: seq<Record>, was: seq<Record>, out: seq<Result>, ref: seq<Result>)
    requires multiset(now) == multiset(was) && IsClustering(lex, now, out) && IsClustering(lex, was, ref)
    requires AllSettled(lex, was)
    ensures multiset(out) == multiset(ref)
  {
    var f, g := RearrangementExists(now, was);
    var roots, olds := Roots(lex, now, |now|), Roots(lex, was, |was|);
    forall k | 0 <= k < |roots| ensures roots[k] < |now| && |ClusterSet(lex, now, roots[k])| >= 2 {
      assert roots[k] in roots;
    }
    var hs := RootsFollow(lex, f, g, now, was, roots);
    RootsBijective(lex, f, g, now, was, hs);
    forall k: nat | k < |out| ensures hs[k] in ByRoot(olds, ref) && out[k] == ByRoot(olds, ref)[hs[k]] {
      FullOutputsMatch(lex, f, g, now, was, hs, out, ref, k);
    }
    forall k: nat | k < |ref| ensures olds[k] in ByRoot(olds, ref) && ref[k] == ByRoot(olds, ref)[olds[k]] {
      ByRootFinds(olds, ref, k);
    }
    LookedUpAlike(ByRoot(olds, ref), hs, olds, out, ref);
  }

  lemma LookedUpAlike(m: map<nat, Result>, hs: seq<nat>, olds: seq<nat>, out: seq<Result>, ref: seq<Result>)
    requires |hs| == |out| && |olds| == |ref| && multiset(hs) == multiset(olds)
    requires forall k: nat :: k < |out| ==> hs[k] in m && out[k] == m[hs[k]]
    requires forall k: nat :: k < |ref| ==> olds[k] in m && ref[k] == m[olds[k]]
    ensures multiset(out) == multiset(ref)
  {
    var look := (h: nat) => if h in m then m[h] else Result("", [], "", [], Duplicate, "", 0.0, true, []);
    assert out == Map(look, hs) && ref == Map(look, olds);
    MapKeepsMultiset(look, hs, olds);
  }

  // ---- When least keys tell components apart ----

  /** No two strong components of S have one least key. */
  ghost predicate LeastKeysDiffer(lex: Lexicon, recs: seq<Record>, S: set<nat>) {
    forall m, n :: m in S && n in S ==>
      MinKey(lex, recs, StrongSet(lex, recs, m)) == MinKey(lex, recs, StrongSet(lex, recs, n)) ==>
      StrongSet(lex, recs, m) == StrongSet(lex, recs, n)
  }

  /** Then one component ranks best. */
  lemma LeastKeysSettle(lex: Lexicon, recs: seq<Record>, S: set<nat>)
    requires LeastKeysDiffer(lex, recs, S)
    ensures Settled(lex, recs, S)
  {
    forall A, B | IsBest(lex, recs, S, A) && IsBest(lex, recs, S, B) ensures A == B {
      BetterIsTotal(RankOf(lex, recs, A), RankOf(lex, recs, B));
      assert MinKey(lex, recs, A) == MinKey(lex, recs, B);
    }
  }

  ghost predicate KeysAreDistinct(lex: Lexicon, recs: seq<Record>) {
    forall i, j :: 0 <= i < j < |recs| ==> KeyAt(lex, recs, i) != KeyAt(lex, recs, j)
  }

  /** With distinct keys a least key belongs to one component only. */
  lemma DistinctKeysDiffer(lex: Lexicon, recs: seq<Record>, S: set<nat>, a: nat, b: nat)
    requires KeysAreDistinct(lex, recs) && (forall x :: x in S ==> x < |recs|) && a in S && b in S
    requires MinKey(lex, recs, StrongSet(lex, recs, a)) == MinKey(lex, recs, StrongSet(lex, recs, b))
    ensures StrongSet(lex, recs, a) == StrongSet(lex, recs, b)
  {
    var E := StrongEdges(lex, recs);
    Reflexive(E, a);
    Reflexive(E, b);
    assert a in StrongSet(lex, recs, a) && b in StrongSet(lex, recs, b);
    var h := MinKeyHeld(lex, recs, StrongSet(lex, recs, a));
    var i := MinKeyHeld(lex, recs, StrongSet(lex, recs, b));
    assert h == i;
    SameComponent(E, |recs|, a, h);
    SameComponent(E, |recs|, b, h);
  }

  /** Records without a key in common make every cluster settled. */
  lemma DistinctKeysSettle(lex: Lexicon, recs: seq<Record>)
    requires KeysAreDistinct(lex, recs)
    ensures AllSettled(lex, recs)
  {
    forall x: nat | x < |recs| ensures Settled(lex, recs, ClusterSet(lex, recs, x)) {
      var S := ClusterSet(lex, recs, x);
      forall a, b | a in S && b in S
        && MinKey(lex, recs, StrongSet(lex, recs, a)) == MinKey(lex, recs, StrongSet(lex, recs, b))
        ensures StrongSet(lex, recs, a) == StrongSet(lex, recs, b)
      {
        DistinctKeysDiffer(lex, recs, S, a, b);
      }
      LeastKeysSettle(lex, recs, S);
    }
  }
}
