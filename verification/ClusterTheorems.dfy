/** What the clusters promise whatever the records are (cross_source_dedup.py). */
module ClusterTheorems {
  import opened Connectivity
  import opened RecordKeys
  import opened Sorting
  import opened Clustering
  import opened ClusterLoop
  import opened ClusterDescription

  // ---- The clique gate ----

  lemma ClusterClosed(lex: Lexicon, recs: seq<Record>, x: nat)
    ensures ClosedUnder(StrongEdges(lex, recs), ClusterSet(lex, recs, x))
  {
    var E := AllEdges(lex, recs);
    forall e | e in StrongEdges(lex, recs)
      ensures e.0 in ClusterSet(lex, recs, x) <==> e.1 in ClusterSet(lex, recs, x)
    {
      EdgeConnects(E, e.0, e.1);
      if Connected(E, x, e.0) { Transitive(E, x, e.0, e.1); }
      if Connected(E, x, e.1) { Transitive(E, x, e.1, e.0); }
    }
  }

  /** The gate opens exactly when strong links alone join every two members: a weak bridge
      between two strong components always closes it. */
  lemma CliqueOkIff(lex: Lexicon, recs: seq<Record>, x: nat, r: Result)
    requires x < |recs| && IsClusterResult(lex, recs, ClusterSet(lex, recs, x), r)
    ensures r.cliqueOk <==>
      forall a, b :: a in ClusterSet(lex, recs, x) && b in ClusterSet(lex, recs, x) ==>
        Connected(StrongEdges(lex, recs), a, b)
  {
    var E, S := StrongEdges(lex, recs), ClusterSet(lex, recs, x);
    var P :| IsPrimary(lex, recs, S, P) && (r.cliqueOk <==> P == S) && IsSortedKeys(lex, recs, S - P, r.weakOnly);
    var m :| m in S && P == StrongSet(lex, recs, m);
    ClusterClosed(lex, recs, x);
    StrongSetStaysInside(lex, recs, S, m);
    if r.cliqueOk {
      forall a, b | a in S && b in S ensures Connected(E, a, b) {
        Symmetric(E, m, a);
        Transitive(E, a, m, b);
      }
    }
  }

  /** An open gate means a duplicate of full strength. */
  lemma CliqueOkIsDuplicate(lex: Lexicon, recs: seq<Record>, x: nat, r: Result)
    requires IsClusterRoot(lex, recs, x) && IsClusterResult(lex, recs, ClusterSet(lex, recs, x), r) && r.cliqueOk
    ensures r.confidence == Duplicate && r.signalStrength == 1.0 && r.weakOnly == []
  {
    var E, S := StrongEdges(lex, recs), ClusterSet(lex, recs, x);
    var P :| IsPrimary(lex, recs, S, P) && (r.cliqueOk <==> P == S) && IsSortedKeys(lex, recs, S - P, r.weakOnly);
    CliqueOkIff(lex, recs, x, r);
    ClusterClosed(lex, recs, x);
    Reflexive(AllEdges(lex, recs), x);
    var e := SomeEdgeTouches(E, x, S);
    assert (e.0, e.1) in E;
    assert S - P == {};
    NoneBelow(|recs|, {});
    assert |r.weakOnly| == |multiset(r.weakOnly)| == 0;
  }

  /** The members left out are exactly the complement of a strong component that no other exceeds in size. */
  lemma WeakOnlyIsComplementOfLargest(lex: Lexicon, recs: seq<Record>, x: nat, r: Result)
    returns (core: set<nat>, keys: seq<string>)
    requires x < |recs| && IsClusterResult(lex, recs, ClusterSet(lex, recs, x), r)
    ensures core <= ClusterSet(lex, recs, x)
    ensures exists m :: m in core && core == StrongSet(lex, recs, m)
    ensures forall m :: m in ClusterSet(lex, recs, x) ==> |StrongSet(lex, recs, m)| <= |core|
    ensures IsSortedKeys(lex, recs, core, keys)
    ensures multiset(r.duplicateGroup) == multiset(keys) + multiset(r.weakOnly)
  {
    var S := ClusterSet(lex, recs, x);
    core := PrimaryOf(lex, recs, S, r);
    PrimaryIsStrong(lex, recs, x, core);
    PrimaryIsLargest(lex, recs, S, core);
    keys := KeysSorted(lex, recs, core);
    ClusterInRange(lex, recs, x);
    GroupSplits(lex, recs, S, core, r.duplicateGroup, keys, r.weakOnly);
  }

  lemma PrimaryOf(lex: Lexicon, recs: seq<Record>, S: set<nat>, r: Result) returns (core: set<nat>)
    requires IsClusterResult(lex, recs, S, r)
    ensures IsPrimary(lex, recs, S, core) && IsSortedKeys(lex, recs, S - core, r.weakOnly)
    ensures IsSortedKeys(lex, recs, S, r.duplicateGroup)
  {
    core :| IsPrimary(lex, recs, S, core) && (r.cliqueOk <==> core == S)
      && IsSortedKeys(lex, recs, S - core, r.weakOnly);
  }

  lemma PrimaryIsLargest(lex: Lexicon, recs: seq<Record>, S: set<nat>, core: set<nat>)
    requires IsPrimary(lex, recs, S, core)
    ensures forall m :: m in S ==> |StrongSet(lex, recs, m)| <= |core|
  {
  }

  lemma ClusterInRange(lex: Lexicon, recs: seq<Record>, x: nat)
    ensures forall m :: m in ClusterSet(lex, recs, x) ==> m < |recs|
  {
  }

  lemma GroupSplits(lex: Lexicon, recs: seq<Record>, S: set<nat>, T: set<nat>, all: seq<string>, some: seq<string>,
                    rest: seq<string>)
    requires T <= S && forall x :: x in S ==> x < |recs|
    requires IsSortedKeys(lex, recs, S, all) && IsSortedKeys(lex, recs, T, some) && IsSortedKeys(lex, recs, S - T, rest)
    ensures multiset(all) == multiset(some) + multiset(rest)
  {
    KeysSplit(lex, recs, S, T);
  }

  /** A primary component is a strong component inside the cluster. */
  lemma PrimaryIsStrong(lex: Lexicon, recs: seq<Record>, x: nat, core: set<nat>)
    requires x < |recs| && IsPrimary(lex, recs, ClusterSet(lex, recs, x), core)
    ensures core <= ClusterSet(lex, recs, x)
    ensures exists m :: m in core && core == StrongSet(lex, recs, m)
  {
    var S := ClusterSet(lex, recs, x);
    var m :| m in S && core == StrongSet(lex, recs, m);
    Reflexive(StrongEdges(lex, recs), m);
    ClusterClosed(lex, recs, x);
    StrongSetStaysInside(lex, recs, S, m);
  }

  lemma KeysSorted(lex: Lexicon, recs: seq<Record>, core: set<nat>) returns (keys: seq<string>)
    ensures IsSortedKeys(lex, recs, core, keys)
  {
    keys := Sort(TextLe, KeysOf(lex, recs, Ascending(|recs|, core)));
    TextLeIsTotalOrder();
    SortSorts(TextLe, KeysOf(lex, recs, Ascending(|recs|, core)));
  }

  /** The keys of a set are the keys of a part and of the rest. */
  lemma KeysSplit(lex: Lexicon, recs: seq<Record>, S: set<nat>, T: set<nat>)
    requires T <= S && forall x :: x in S ==> x < |recs|
    ensures multiset(KeysOf(lex, recs, Ascending(|recs|, S))) ==
            multiset(KeysOf(lex, recs, Ascending(|recs|, T))) + multiset(KeysOf(lex, recs, Ascending(|recs|, S - T)))
  {
    var a, b := Ascending(|recs|, T), Ascending(|recs|, S - T);
    forall i, j | 0 <= i < j < |a + b| ensures (a + b)[i] != (a + b)[j] {
      if i < |a| <= j { assert a[i] in a && b[j - |a|] in b; }
    }
    SameElements(Ascending(|recs|, S), a + b);
    MapKeepsMultiset(m => KeyAt(lex, recs, m), Ascending(|recs|, S), a + b);
    assert KeysOf(lex, recs, a + b) == KeysOf(lex, recs, a) + KeysOf(lex, recs, b);
  }

  // ---- Records without a key ----

  /** A record nothing identifies is linked to nothing, so it never enters a cluster. */
  lemma KeylessIsAlone(lex: Lexicon, recs: seq<Record>, i: nat, j: nat)
    requires i < |recs| && j < |recs| && ComputeKey(lex, recs[i]).None?
    ensures !StrongLinked(lex, recs[i], recs[j]) && !WeakLinked(lex, recs[i], recs[j])
    ensures !StrongLinked(lex, recs[j], recs[i]) && !WeakLinked(lex, recs[j], recs[i])
  {
  }

  lemma KeylessIsSingleton(lex: Lexicon, recs: seq<Record>, i: nat)
    requires i < |recs| && ComputeKey(lex, recs[i]).None?
    ensures ClusterSet(lex, recs, i) == {i}
  {
    var E := AllEdges(lex, recs);
    Reflexive(E, i);
    forall e | e in E ensures e.0 != i && e.1 != i {
      if e.0 == i { KeylessIsAlone(lex, recs, i, e.1); }
      if e.1 == i { KeylessIsAlone(lex, recs, i, e.0); }
    }
    forall y: nat | Connected(E, i, y) ensures y == i { ClosedSetTraps(E, i, y, iset{i}); }
  }

  lemma ClusterMembersHaveKeys(lex: Lexicon, recs: seq<Record>, x: nat, m: nat)
    requires x < |recs| && |ClusterSet(lex, recs, x)| >= 2 && m in ClusterSet(lex, recs, x)
    ensures ComputeKey(lex, recs[m]).Some?
  {
    SameComponent(AllEdges(lex, recs), |recs|, x, m);
    if ComputeKey(lex, recs[m]).None? { KeylessIsSingleton(lex, recs, m); }
  }
}
