/** Input order and clustering: what a rearrangement of the records can and cannot change
    (cross_source_dedup.py). */
module ClusterOrder {
  import opened Connectivity
  import opened RecordKeys
  import opened Sorting
  import opened Clustering
  import opened ClusterLoop
  import opened ClusterDescription
  import opened ClusterTheorems

  /** new[i] is old[f[i]], and g undoes f. */
  ghost predicate Rearranges(f: seq<nat>, g: seq<nat>, now: seq<Record>, was: seq<Record>) {
    && |f| == |g| == |now| == |was|
    && (forall i :: 0 <= i < |f| ==> f[i] < |f| && g[f[i]] == i && now[i] == was[f[i]])
    && (forall i :: 0 <= i < |g| ==> g[i] < |g| && f[g[i]] == i)
  }

  lemma RearrangesBack(f: seq<nat>, g: seq<nat>, now: seq<Record>, was: seq<Record>)
    requires Rearranges(f, g, now, was)
    ensures Rearranges(g, f, was, now)
  {
  }

  function Through(f: seq<nat>, i: nat): nat {
    if i < |f| then f[i] else i
  }

  ghost function Image(f: seq<nat>, S: set<nat>): set<nat> {
    set i | i in S :: Through(f, i)
  }

  // ---- Links and components follow the records ----

  lemma ConnectionsFollow(lex: Lexicon, f: seq<nat>, g: seq<nat>, now: seq<Record>, was: seq<Record>, a: nat, b: nat)
    requires Rearranges(f, g, now, was) && a < |f| && b < |f|
    ensures Connected(StrongEdges(lex, now), a, b) ==> Connected(StrongEdges(lex, was), f[a], f[b])
    ensures Connected(AllEdges(lex, now), a, b) ==> Connected(AllEdges(lex, was), f[a], f[b])
  {
    var h := (i: nat) => Through(f, i);
    var S, T := StrongEdges(lex, was), AllEdges(lex, was);
    forall e | e in StrongEdges(lex, now) ensures Connected(S, h(e.0), h(e.1)) {
      assert (f[e.0], f[e.1]) in S;
      EdgeConnects(S, f[e.0], f[e.1]);
    }
    forall e | e in AllEdges(lex, now) ensures Connected(T, h(e.0), h(e.1)) {
      assert (f[e.0], f[e.1]) in T;
      EdgeConnects(T, f[e.0], f[e.1]);
    }
    if Connected(StrongEdges(lex, now), a, b) { Transport(StrongEdges(lex, now), S, h, a, b); }
    if Connected(AllEdges(lex, now), a, b) { Transport(AllEdges(lex, now), T, h, a, b); }
  }

  lemma ConnectionsKept(lex: Lexicon, f: seq<nat>, g: seq<nat>, now: seq<Record>, was: seq<Record>, a: nat, b: nat)
    requires Rearranges(f, g, now, was) && a < |f| && b < |f|
    ensures Connected(StrongEdges(lex, now), a, b) <==> Connected(StrongEdges(lex, was), f[a], f[b])
    ensures Connected(AllEdges(lex, now), a, b) <==> Connected(AllEdges(lex, was), f[a], f[b])
  {
    ConnectionsFollow(lex, f, g, now, was, a, b);
    RearrangesBack(f, g, now, was);
    ConnectionsFollow(lex, g, f, was, now, f[a], f[b]);
  }

  lemma ComponentsFollow(lex: Lexicon, f: seq<nat>, g: seq<nat>, now: seq<Record>, was: seq<Record>, x: nat)
    requires Rearranges(f, g, now, was) && x < |f|
    ensures ClusterSet(lex, was, f[x]) == Image(f, ClusterSet(lex, now, x))
    ensures StrongSet(lex, was, f[x]) == Image(f, StrongSet(lex, now, x))
  {
    forall y: nat | y < |f|
      ensures y in ClusterSet(lex, was, f[x]) <==> g[y] in ClusterSet(lex, now, x)
      ensures y in StrongSet(lex, was, f[x]) <==> g[y] in StrongSet(lex, now, x)
    {
      ConnectionsKept(lex, f, g, now, was, x, g[y]);
    }
    forall y | y in ClusterSet(lex, was, f[x]) ensures y in Image(f, ClusterSet(lex, now, x)) {
      assert Through(f, g[y]) == y;
    }
    forall y | y in StrongSet(lex, was, f[x]) ensures y in Image(f, StrongSet(lex, now, x)) {
      assert Through(f, g[y]) == y;
    }
  }

  // ---- Keys follow the records ----

  ghost predicate AllKeyed(lex: Lexicon, recs: seq<Record>, S: set<nat>) {
    forall m :: m in S ==> m < |recs| && ComputeKey(lex, recs[m]).Some?
  }

  /** Moving the listing of S lists the moved S, each member once. */
  lemma MovedListing(f: seq<nat>, g: seq<nat>, now: seq<Record>, was: seq<Record>, S: set<nat>, asc: seq<nat>,
                     moved: seq<nat>)
    requires Rearranges(f, g, now, was) && (forall x :: x in S ==> x < |now|)
    requires asc == Ascending(|now|, S) && moved == Map(i => Through(f, i), asc)
    ensures Distinct(moved) && forall y :: y in moved <==> y in Image(f, S)
  {
    assert forall i :: 0 <= i < |asc| ==> asc[i] in asc;
    forall i, j | 0 <= i < j < |moved| ensures moved[i] != moved[j] {
      assert g[f[asc[i]]] == asc[i] && g[f[asc[j]]] == asc[j];
    }
    forall y | y in Image(f, S) ensures y in moved {
      var x :| x in S && y == Through(f, x);
      assert x in asc;
      var i :| 0 <= i < |asc| && asc[i] == x;
      assert moved[i] == y;
    }
  }

  lemma KeysFollow(lex: Lexicon, f: seq<nat>, g: seq<nat>, now: seq<Record>, was: seq<Record>, S: set<nat>)
    requires Rearranges(f, g, now, was) && AllKeyed(lex, now, S)
    ensures AllKeyed(lex, was, Image(f, S))
    ensures multiset(KeysOf(lex, now, Ascending(|now|, S))) == multiset(KeysOf(lex, was, Ascending(|was|, Image(f, S))))
  {
    var asc := Ascending(|now|, S);
    var moved := Map(i => Through(f, i), asc);
    MovedListing(f, g, now, was, S, asc, moved);
    forall y ensures y in moved <==> y in Ascending(|was|, Image(f, S)) {
    }
    SameElements(moved, Ascending(|was|, Image(f, S)));
    MapKeepsMultiset(m => KeyAt(lex, was, m), moved, Ascending(|was|, Image(f, S)));
    KeysOfMoved(lex, f, g, now, was, asc, moved);
  }

  lemma KeysOfMoved(lex: Lexicon, f: seq<nat>, g: seq<nat>, now: seq<Record>, was: seq<Record>, s: seq<nat>,
                    moved: seq<nat>)
    requires Rearranges(f, g, now, was) && moved == Map(i => Through(f, i), s)
    requires forall m :: m in s ==> m < |now| && ComputeKey(lex, now[m]).Some?
    ensures KeysOf(lex, now, s) == KeysOf(lex, was, moved)
  {
    forall i | 0 <= i < |s| ensures KeyAt(lex, now, s[i]) == KeyAt(lex, was, moved[i]) {
      assert s[i] in s;
    }
  }

  lemma SortedKeysFollow(lex: Lexicon, f: seq<nat>, g: seq<nat>, now: seq<Record>, was: seq<Record>,
                         S: set<nat>, ks: seq<string>)
    requires Rearranges(f, g, now, was) && AllKeyed(lex, now, S)
    ensures IsSortedKeys(lex, now, S, ks) <==> IsSortedKeys(lex, was, Image(f, S), ks)
  {
    KeysFollow(lex, f, g, now, was, S);
  }

  lemma SortedKeysUnique(lex: Lexicon, recs: seq<Record>, S: set<nat>, ks: seq<string>, ls: seq<string>)
    requires IsSortedKeys(lex, recs, S, ks) && IsSortedKeys(lex, recs, S, ls)
    ensures ks == ls
  {
    TextLeIsTotalOrder();
    SortedUnique(TextLe, ks, ls);
  }

  // ---- One cluster ----

  lemma StrongnessFollows(lex: Lexicon, f: seq<nat>, g: seq<nat>, now: seq<Record>, was: seq<Record>, S: set<nat>)
    requires Rearranges(f, g, now, was) && HasStrong(lex, now, S)
    ensures HasStrong(lex, was, Image(f, S))
  {
    var a, b :| a in S && b in S && (a, b) in StrongEdges(lex, now);
    assert Through(f, a) in Image(f, S) && Through(f, b) in Image(f, S);
    assert (f[a], f[b]) in StrongEdges(lex, was);
  }

  /** A weak link moves with its records and keeps its similarity, so the top similarity cannot drop. */
  lemma TopSimilarityFollows(lex: Lexicon, f: seq<nat>, g: seq<nat>, now: seq<Record>, was: seq<Record>, S: set<nat>,
                             v: real, w: real)
    requires Rearranges(f, g, now, was)
    requires IsTopSimilarity(lex, now, S, v) && IsTopSimilarity(lex, was, Image(f, S), w)
    ensures v <= w
  {
    var a, b :| a in S && b in S && (a, b) in WeakEdges(lex, now) && v == Similarity(lex, now[a].title, now[b].title);
    assert Through(f, a) in Image(f, S) && Through(f, b) in Image(f, S);
    assert (f[a], f[b]) in WeakEdges(lex, was);
  }

  lemma ImageBack(f: seq<nat>, g: seq<nat>, now: seq<Record>, was: seq<Record>, S: set<nat>)
    requires Rearranges(f, g, now, was) && forall x :: x in S ==> x < |now|
    ensures Image(g, Image(f, S)) == S && forall x :: x in Image(f, S) ==> x < |was|
  {
    forall x | x in S ensures x in Image(g, Image(f, S)) {
      assert Through(f, x) in Image(f, S) && Through(g, f[x]) == x;
    }
  }

  function Core(r: Result): Result {
    r.(weakOnly := [])
  }

  lemma StrongnessSame(lex: Lexicon, f: seq<nat>, g: seq<nat>, now: seq<Record>, was: seq<Record>, S: set<nat>)
    requires Rearranges(f, g, now, was) && forall x :: x in S ==> x < |now|
    ensures HasStrong(lex, now, S) == HasStrong(lex, was, Image(f, S))
  {
    if HasStrong(lex, now, S) { StrongnessFollows(lex, f, g, now, was, S); }
    if HasStrong(lex, was, Image(f, S)) {
      ImageBack(f, g, now, was, S);
      StrongnessFollows(lex, g, f, was, now, Image(f, S));
    }
  }

  lemma TopSimilaritySame(lex: Lexicon, f: seq<nat>, g: seq<nat>, now: seq<Record>, was: seq<Record>, S: set<nat>,
                          v: real, w: real)
    requires Rearranges(f, g, now, was) && forall x :: x in S ==> x < |now|
    requires IsTopSimilarity(lex, now, S, v) && IsTopSimilarity(lex, was, Image(f, S), w)
    ensures v == w
  {
    TopSimilarityFollows(lex, f, g, now, was, S, v, w);
    TopSimilarityBack(lex, f, g, now, was, S, v, w);
  }

  lemma TopSimilarityBack(lex: Lexicon, f: seq<nat>, g: seq<nat>, now: seq<Record>, was: seq<Record>, S: set<nat>,
                          v: real, w: real)
    requires Rearranges(f, g, now, was) && forall x :: x in S ==> x < |now|
    requires IsTopSimilarity(lex, now, S, v) && IsTopSimilarity(lex, was, Image(f, S), w)
    ensures w <= v
  {
    ImageBack(f, g, now, was, S);
    TopSimilarityFollows(lex, g, f, was, now, Image(f, S), w, v);
  }

  lemma StrengthFollows(lex: Lexicon, f: seq<nat>, g: seq<nat>, now: seq<Record>, was: seq<Record>, S: set<nat>,
                        r: Result, q: Result)
    requires Rearranges(f, g, now, was) && forall x :: x in S ==> x < |now|
    requires IsClusterResult(lex, now, S, r) && IsClusterResult(lex, was, Image(f, S), q)
    ensures HasStrong(lex, now, S) == HasStrong(lex, was, Image(f, S)) && r.signalStrength == q.signalStrength
  {
    StrongnessSame(lex, f, g, now, was, S);
    if !HasStrong(lex, now, S) {
      TopSimilaritySame(lex, f, g, now, was, S, r.signalStrength, q.signalStrength);
    }
  }

  lemma GroupFollows(lex: Lexicon, f: seq<nat>, g: seq<nat>, now: seq<Record>, was: seq<Record>, S: set<nat>, r: Result,
                     q: Result)
    requires Rearranges(f, g, now, was) && AllKeyed(lex, now, S)
    requires IsClusterResult(lex, now, S, r) && IsClusterResult(lex, was, Image(f, S), q)
    ensures r.duplicateGroup == q.duplicateGroup
  {
    SortedKeysFollow(lex, f, g, now, was, S, r.duplicateGroup);
    SortedKeysUnique(lex, was, Image(f, S), r.duplicateGroup, q.duplicateGroup);
  }

  lemma ClusterIsKeyed(lex: Lexicon, recs: seq<Record>, x: nat)
    requires x < |recs| && |ClusterSet(lex, recs, x)| >= 2
    ensures AllKeyed(lex, recs, ClusterSet(lex, recs, x))
  {
    forall m | m in ClusterSet(lex, recs, x) ensures ComputeKey(lex, recs[m]).Some? {
      ClusterMembersHaveKeys(lex, recs, x, m);
    }
  }

  /** Everything a result says about a cluster, except who is left out, is independent of input order. */
  lemma ResultFollows(lex: Lexicon, f: seq<nat>, g: seq<nat>, now: seq<Record>, was: seq<Record>, x: nat, r: Result,
                      q: Result)
    requires Rearranges(f, g, now, was) && x < |now| && |ClusterSet(lex, now, x)| >= 2
    requires IsClusterResult(lex, now, ClusterSet(lex, now, x), r)
    requires IsClusterResult(lex, was, ClusterSet(lex, was, f[x]), q)
    ensures Core(r) == Core(q)
  {
    var S := ClusterSet(lex, now, x);
    ComponentsFollow(lex, f, g, now, was, x);
    ClusterIsKeyed(lex, now, x);
    GroupFollows(lex, f, g, now, was, S, r, q);
    StrengthFollows(lex, f, g, now, was, S, r, q);
    CliqueFollows(lex, f, g, now, was, x, r, q);
  }

  lemma CliqueFollows(lex: Lexicon, f: seq<nat>, g: seq<nat>, now: seq<Record>, was: seq<Record>, x: nat, r: Result,
                      q: Result)
    requires Rearranges(f, g, now, was) && x < |now|
    requires IsClusterResult(lex, now, ClusterSet(lex, now, x), r)
    requires IsClusterResult(lex, was, ClusterSet(lex, was, f[x]), q)
    ensures r.cliqueOk == q.cliqueOk
  {
    var S, T := ClusterSet(lex, now, x), ClusterSet(lex, was, f[x]);
    ComponentsFollow(lex, f, g, now, was, x);
    CliqueOkIff(lex, now, x, r);
    CliqueOkIff(lex, was, f[x], q);
    if r.cliqueOk {
      forall a, b | a in T && b in T ensures Connected(StrongEdges(lex, was), a, b) {
        var c :| c in S && a == Through(f, c);
        var d :| d in S && b == Through(f, d);
        ConnectionsKept(lex, f, g, now, was, c, d);
      }
    }
    if q.cliqueOk {
      forall a, b | a in S && b in S ensures Connected(StrongEdges(lex, now), a, b) {
        assert Through(f, a) in T && Through(f, b) in T;
        ConnectionsKept(lex, f, g, now, was, a, b);
      }
    }
  }

  // ---- The whole list of results ----

  /** Two vertices make a component of two. */
  lemma TwoMembers(S: set<nat>, a: nat, b: nat)
    requires a in S && b in S && a != b
    ensures |S| >= 2
  {
    var rest := S - {a};
    assert b in rest && |rest| == |S| - 1;
  }

  lemma TwoOf(S: set<nat>) returns (a: nat, b: nat)
    requires |S| >= 2
    ensures a in S && b in S && a != b
  {
    a :| a in S;
    assert |S - {a}| >= 1;
    b :| b in S - {a};
  }

  /** The old root of the cluster a new root belongs to. */
  lemma RootFollows(lex: Lexicon, f: seq<nat>, g: seq<nat>, now: seq<Record>, was: seq<Record>, x: nat) returns (h: nat)
    requires Rearranges(f, g, now, was) && x < |now| && |ClusterSet(lex, now, x)| >= 2
    ensures h < |was| && IsClusterRoot(lex, was, h) && Connected(AllEdges(lex, was), f[x], h)
    ensures ClusterSet(lex, was, h) == ClusterSet(lex, was, f[x]) && RootMatches(lex, f, was, x, h)
  {
    var E := AllEdges(lex, was);
    h := LeastExists(E, |was|, f[x]);
    LeastOfOther(E, |was|, f[x], h);
    SameComponent(E, |was|, f[x], h);
    ComponentsFollow(lex, f, g, now, was, x);
    var a, b := TwoOf(ClusterSet(lex, now, x));
    assert Through(f, a) in ClusterSet(lex, was, f[x]) && Through(f, b) in ClusterSet(lex, was, f[x]);
    assert g[f[a]] == a && g[f[b]] == b;
    TwoMembers(ClusterSet(lex, was, h), f[a], f[b]);
  }

  /** h is the root, among the old records, of the cluster that the new record r belongs to. */
  ghost predicate RootMatches(lex: Lexicon, f: seq<nat>, was: seq<Record>, r: nat, h: nat) {
    && r < |f| && h < |was| && IsClusterRoot(lex, was, h) && Connected(AllEdges(lex, was), f[r], h)
    && ClusterSet(lex, was, h) == ClusterSet(lex, was, f[r])
  }

  ghost predicate RootsMatch(lex: Lexicon, f: seq<nat>, was: seq<Record>, roots: seq<nat>, hs: seq<nat>) {
    |hs| == |roots| && forall k :: 0 <= k < |hs| ==> RootMatches(lex, f, was, roots[k], hs[k])
  }

  lemma {:induction false} RootsFollow(lex: Lexicon, f: seq<nat>, g: seq<nat>, now: seq<Record>, was: seq<Record>,
                                       roots: seq<nat>)
    returns (hs: seq<nat>)
    requires Rearranges(f, g, now, was)
    requires forall k :: 0 <= k < |roots| ==> roots[k] < |now| && |ClusterSet(lex, now, roots[k])| >= 2
    ensures RootsMatch(lex, f, was, roots, hs)
    decreases |roots|
  {
    if roots == [] {
      hs := [];
    } else {
      var h := RootFollows(lex, f, g, now, was, roots[0]);
      var rest := RootsFollow(lex, f, g, now, was, roots[1..]);
      hs := [h] + rest;
      forall k | 0 <= k < |hs| ensures RootMatches(lex, f, was, roots[k], hs[k]) {
        if k > 0 { assert RootMatches(lex, f, was, roots[1..][k - 1], rest[k - 1]); }
      }
    }
  }

  /** Following the roots hits every old root exactly once. */
  lemma RootsBijective(lex: Lexicon, f: seq<nat>, g: seq<nat>, now: seq<Record>, was: seq<Record>, hs: seq<nat>)
    requires Rearranges(f, g, now, was) && RootsMatch(lex, f, was, Roots(lex, now, |now|), hs)
    ensures multiset(hs) == multiset(Roots(lex, was, |was|))
  {
    var roots := Roots(lex, now, |now|);
    forall i, j | 0 <= i < j < |hs| ensures hs[i] != hs[j] {
      if hs[i] == hs[j] {
        assert roots[i] in roots && roots[j] in roots;
        assert RootMatches(lex, f, was, roots[i], hs[i]) && RootMatches(lex, f, was, roots[j], hs[j]);
        MeetingRootsAreEqual(lex, f, g, now, was, roots[i], roots[j], hs[i]);
      }
    }
    forall h | h in hs ensures h in Roots(lex, was, |was|) {
      var k :| 0 <= k < |hs| && hs[k] == h;
      assert RootMatches(lex, f, was, roots[k], hs[k]);
    }
    forall h | h in Roots(lex, was, |was|) ensures h in hs {
      RootIsHit(lex, f, g, now, was, roots, hs, h);
    }
    SameElements(hs, Roots(lex, was, |was|));
  }

  lemma MeetingRootsAreEqual(lex: Lexicon, f: seq<nat>, g: seq<nat>, now: seq<Record>, was: seq<Record>, a: nat, b: nat,
                             h: nat)
    requires Rearranges(f, g, now, was) && a < |now| && b < |now|
    requires IsClusterRoot(lex, now, a) && IsClusterRoot(lex, now, b)
    requires Connected(AllEdges(lex, was), f[a], h) && Connected(AllEdges(lex, was), f[b], h)
    ensures a == b
  {
    Symmetric(AllEdges(lex, was), f[b], h);
    Transitive(AllEdges(lex, was), f[a], h, f[b]);
    ConnectionsKept(lex, f, g, now, was, a, b);
    Symmetric(AllEdges(lex, now), a, b);
  }

  lemma HitRootIsEqual(lex: Lexicon, f: seq<nat>, g: seq<nat>, now: seq<Record>, was: seq<Record>, h: nat, r: nat,
                       i: nat)
    requires Rearranges(f, g, now, was) && h < |was| && IsClusterRoot(lex, was, h)
    requires RootMatches(lex, g, now, h, r) && RootMatches(lex, f, was, r, i)
    ensures h == i
  {
    var E := AllEdges(lex, was);
    ConnectionsKept(lex, f, g, now, was, g[h], r);
    Transitive(E, h, f[r], i);
    Symmetric(E, h, i);
  }

  lemma RootIsHit(lex: Lexicon, f: seq<nat>, g: seq<nat>, now: seq<Record>, was: seq<Record>, roots: seq<nat>,
                  hs: seq<nat>, h: nat)
    requires Rearranges(f, g, now, was) && roots == Roots(lex, now, |now|) && RootsMatch(lex, f, was, roots, hs)
    requires h < |was| && IsClusterRoot(lex, was, h)
    ensures h in hs
  {
    RearrangesBack(f, g, now, was);
    var r := RootFollows(lex, g, f, was, now, h);
    assert r in roots;
    var k :| 0 <= k < |roots| && roots[k] == r;
    assert RootMatches(lex, f, was, roots[k], hs[k]);
    HitRootIsEqual(lex, f, g, now, was, h, r, hs[k]);
  }

  /** The results keyed by the root of their cluster. */
  ghost function ByRoot(roots: seq<nat>, out: seq<Result>): map<nat, Result>
    requires |roots| == |out| && Distinct(roots)
  {
    map k | 0 <= k < |roots| :: roots[k] := out[k]
  }

  lemma ByRootFinds(roots: seq<nat>, out: seq<Result>, k: nat)
    requires |roots| == |out| && Distinct(roots) && k < |roots|
    ensures roots[k] in ByRoot(roots, out) && ByRoot(roots, out)[roots[k]] == out[k]
  {
    var m := map k | 0 <= k < |roots| :: roots[k] := out[k];
    assert roots[k] in m;
  }

  lemma OutputsMatch(lex: Lexicon, f: seq<nat>, g: seq<nat>, now: seq<Record>, was: seq<Record>,
                     hs: seq<nat>, out: seq<Result>, ref: seq<Result>, k: nat)
    requires Rearranges(f, g, now, was) && IsClustering(lex, now, out) && IsClustering(lex, was, ref)
    requires RootsMatch(lex, f, was, Roots(lex, now, |now|), hs) && k < |out|
    ensures hs[k] in ByRoot(Roots(lex, was, |was|), ref)
    ensures Core(out[k]) == Core(ByRoot(Roots(lex, was, |was|), ref)[hs[k]])
  {
    var roots, olds := Roots(lex, now, |now|), Roots(lex, was, |was|);
    assert roots[k] in roots && RootMatches(lex, f, was, roots[k], hs[k]);
    assert hs[k] in olds;
    var j :| 0 <= j < |olds| && olds[j] == hs[k];
    ByRootFinds(olds, ref, j);
    ResultFollows(lex, f, g, now, was, roots[k], out[k], ref[j]);
  }

  lemma RearrangedResults(lex: Lexicon, f: seq<nat>, g: seq<nat>, now: seq<Record>, was: seq<Record>, out: seq<Result>,
                          ref: seq<Result>)
    requires Rearranges(f, g, now, was) && IsClustering(lex, now, out) && IsClustering(lex, was, ref)
    ensures multiset(Map(Core, out)) == multiset(Map(Core, ref))
  {
    var roots, olds := Roots(lex, now, |now|), Roots(lex, was, |was|);
    forall k | 0 <= k < |roots| ensures roots[k] < |now| && |ClusterSet(lex, now, roots[k])| >= 2 {
      assert roots[k] in roots;
    }
    var hs := RootsFollow(lex, f, g, now, was, roots);
    RootsBijective(lex, f, g, now, was, hs);
    var m := ByRoot(olds, ref);
    var look := (h: nat) => if h in m then Core(m[h]) else Result("", [], "", [], Duplicate, "", 0.0, true, []);
    forall k: nat | k < |out| ensures Core(out[k]) == look(hs[k]) {
      OutputsMatch(lex, f, g, now, was, hs, out, ref, k);
    }
    assert Map(Core, out) == Map(look, hs);
    forall k: nat | k < |ref| ensures Core(ref[k]) == look(olds[k]) { ByRootFinds(olds, ref, k); }
    assert Map(Core, ref) == Map(look, olds);
    MapKeepsMultiset(look, hs, olds);
  }

  // ---- Every rearrangement of the records is given by such maps ----

  /** Position i of a sequence from which position k was removed, seen in the whole. */
  function Skip(k: nat, i: nat): nat {
    if i < k then i else i + 1
  }

  function Unskip(k: nat, i: nat): nat {
    if i < k || i == 0 then i else i - 1  // inverse of Skip(k, _) away from k
  }

  ghost function LiftTo(k: nat, f: seq<nat>): (r: seq<nat>)
    ensures |r| == |f| + 1 && r[0] == k && forall i :: 0 < i < |r| ==> r[i] == Skip(k, f[i - 1])
  {
    [k] + Map(i => Skip(k, i), f)
  }

  ghost function LiftBack(k: nat, g: seq<nat>): (r: seq<nat>)
    requires k <= |g|
    ensures |r| == |g| + 1 && r[k] == 0 && forall i :: 0 <= i < |r| && i != k ==> r[i] == g[Unskip(k, i)] + 1
  {
    seq(|g| + 1, i requires 0 <= i < |g| + 1 => if i == k then 0 else g[Unskip(k, i)] + 1)
  }

  lemma SkipRest(was: seq<Record>, k: nat, i: nat)
    requires k < |was| && i < |was| - 1
    ensures (was[..k] + was[k + 1..])[i] == was[Skip(k, i)] && Skip(k, i) != k && Unskip(k, Skip(k, i)) == i
  {
  }

  lemma LiftForth(now: seq<Record>, was: seq<Record>, k: nat, f: seq<nat>, g: seq<nat>, i: nat)
    requires |now| == |was| > k && was[k] == now[0] && Rearranges(f, g, now[1..], was[..k] + was[k + 1..])
    requires i < |now|
    ensures LiftTo(k, f)[i] < |now| && LiftBack(k, g)[LiftTo(k, f)[i]] == i && now[i] == was[LiftTo(k, f)[i]]
  {
    if i > 0 {
      SkipRest(was, k, f[i - 1]);
      assert now[1..][i - 1] == now[i];
    }
  }

  lemma LiftAndBack(now: seq<Record>, was: seq<Record>, k: nat, f: seq<nat>, g: seq<nat>, i: nat)
    requires |now| == |was| > k && Rearranges(f, g, now[1..], was[..k] + was[k + 1..])
    requires i < |now|
    ensures LiftBack(k, g)[i] < |now| && LiftTo(k, f)[LiftBack(k, g)[i]] == i
  {
  }

  lemma LiftRearranges(now: seq<Record>, was: seq<Record>, k: nat, f: seq<nat>, g: seq<nat>)
    requires |now| == |was| > k && was[k] == now[0] && Rearranges(f, g, now[1..], was[..k] + was[k + 1..])
    ensures Rearranges(LiftTo(k, f), LiftBack(k, g), now, was)
  {
    forall i: nat | i < |now|
      ensures LiftTo(k, f)[i] < |now| && LiftBack(k, g)[LiftTo(k, f)[i]] == i && now[i] == was[LiftTo(k, f)[i]]
      ensures LiftBack(k, g)[i] < |now| && LiftTo(k, f)[LiftBack(k, g)[i]] == i
    {
      LiftForth(now, was, k, f, g, i);
      LiftAndBack(now, was, k, f, g, i);
    }
  }

  lemma {:induction false} RearrangementExists(now: seq<Record>, was: seq<Record>) returns (f: seq<nat>, g: seq<nat>)
    requires multiset(now) == multiset(was)
    ensures Rearranges(f, g, now, was)
    decreases |now|
  {
    assert |now| == |multiset(now)| == |multiset(was)| == |was|;
    if now == [] {
      f, g := [], [];
    } else {
      assert now[0] in multiset(was);
      var k: nat :| k < |was| && was[k] == now[0];
      PullOut(now, 0);
      PullOut(was, k);
      assert now[..0] + now[1..] == now[1..];
      f, g := RearrangementExists(now[1..], was[..k] + was[k + 1..]);
      LiftRearranges(now, was, k, f, g);
      f, g := LiftTo(k, f), LiftBack(k, g);
    }
  }

  /** Clustering does not depend on the order of the records: the same clusters come out, with the same
      identity, members, confidence, strength and gate. */
  lemma OrderDoesNotMatter(lex: Lexicon, now: seq<Record>, was: seq<Record>, out: seq<Result>, ref: seq<Result>)
    requires multiset(now) == multiset(was) && IsClustering(lex, now, out) && IsClustering(lex, was, ref)
    ensures multiset(Map(Core, out)) == multiset(Map(Core, ref))
  {
    var f, g := RearrangementExists(now, was);
    RearrangedResults(lex, f, g, now, was, out, ref);
  }
}
