/** The summary of a clustering (cross_source_dedup.py, summarize_clusters). */
module ClusterSummary {
  import opened Connectivity
  import opened RecordKeys
  import opened Sorting
  import opened Clustering
  import ClusterDescription
  import ClusterLoop

  datatype Summary = Summary(clusters: nat, duplicates: nat, possibles: nat, collapsed: nat)

  function CountOf(out: seq<Result>, c: Confidence): nat {
    if out == [] then 0 else CountOf(out[..|out| - 1], c) + if out[|out| - 1].confidence == c then 1 else 0
  }

  function CollapsedIn(out: seq<Result>): nat {
    if out == [] then 0 else CollapsedIn(out[..|out| - 1]) + |out[|out| - 1].duplicateKeys|
  }

  method SummarizeClusters(out: seq<Result>) returns (s: Summary)
    ensures s == Summary(|out|, CountOf(out, Duplicate), CountOf(out, PossibleDuplicate), CollapsedIn(out))
    ensures s.duplicates + s.possibles == s.clusters
  {
    var dup, possible, collapsed := 0, 0, 0;
    for i := 0 to |out|
      invariant dup == CountOf(out[..i], Duplicate) && possible == CountOf(out[..i], PossibleDuplicate)
      invariant collapsed == CollapsedIn(out[..i]) && dup + possible == i
    {
      assert out[..i + 1][..i] == out[..i];
      if out[i].confidence == Duplicate {
        dup := dup + 1;
      }
      if out[i].confidence == PossibleDuplicate {
        possible := possible + 1;
      }
      collapsed := collapsed + |out[i].duplicateKeys|;
    }
    assert out[..|out|] == out;
    s := Summary(|out|, dup, possible, collapsed);
  }

  // ---- Conservation ----

  /** The records that share a cluster with some other record. */
  ghost function Shared(lex: Lexicon, recs: seq<Record>): set<nat> {
    set i: nat | i < |recs| && |ClusterSet(lex, recs, i)| >= 2
  }

  /** The records in the clusters of the first n least members. */
  ghost function Gathered(lex: Lexicon, recs: seq<Record>, n: nat): set<nat>
    requires n <= |recs|
  {
    if n == 0 then {}
    else Gathered(lex, recs, n - 1) + if IsClusterRoot(lex, recs, n - 1) then ClusterSet(lex, recs, n - 1) else {}
  }

  lemma {:induction false} GatheredBy(lex: Lexicon, recs: seq<Record>, n: nat, i: nat)
    requires n <= |recs|
    ensures i in Gathered(lex, recs, n) <==>
      exists r: nat :: r < n && IsClusterRoot(lex, recs, r) && i in ClusterSet(lex, recs, r)
    decreases n
  {
    if n > 0 {
      GatheredBy(lex, recs, n - 1, i);
    }
  }

  /** A new least member's cluster holds nothing gathered before. */
  lemma ClustersAreApart(lex: Lexicon, recs: seq<Record>, n: nat)
    requires n < |recs| && IsClusterRoot(lex, recs, n)
    ensures Gathered(lex, recs, n) !! ClusterSet(lex, recs, n)
  {
    var E := AllEdges(lex, recs);
    forall i | i in Gathered(lex, recs, n) ensures i !in ClusterSet(lex, recs, n) {
      GatheredBy(lex, recs, n, i);
      var r: nat :| r < n && IsClusterRoot(lex, recs, r) && i in ClusterSet(lex, recs, r);
      NotConnected(E, |recs|, r, n, i);
    }
  }

  lemma NotConnected(E: Edges, n: nat, r: nat, s: nat, i: nat)
    requires r < s && r < n && IsLeastConnected(E, n, s, s) && Connected(E, r, i)
    ensures !Connected(E, s, i)
  {
    if Connected(E, s, i) {
      Symmetric(E, r, i);
      Transitive(E, s, i, r);
    }
  }

  lemma GroupSize(lex: Lexicon, recs: seq<Record>, S: set<nat>, r: Result)
    requires IsClusterResult(lex, recs, S, r) && forall m :: m in S ==> m < |recs|
    ensures |r.duplicateKeys| + 1 == |S|
  {
    var members := Ascending(|recs|, S);
    DistinctLength(members, S);
    assert |multiset(r.duplicateGroup)| == |multiset(KeysOf(lex, recs, members))|;
  }

  /** Every result collapses its root's cluster to one record. */
  ghost predicate Sized(lex: Lexicon, recs: seq<Record>, roots: seq<nat>, out: seq<Result>) {
    |out| == |roots| && forall k :: 0 <= k < |out| ==> |out[k].duplicateKeys| + 1 == |ClusterSet(lex, recs, roots[k])|
  }

  lemma ResultsAreSized(lex: Lexicon, recs: seq<Record>, out: seq<Result>)
    requires IsClustering(lex, recs, out)
    ensures Sized(lex, recs, Roots(lex, recs, |recs|), out)
  {
    var roots := Roots(lex, recs, |recs|);
    forall k | 0 <= k < |out| ensures |out[k].duplicateKeys| + 1 == |ClusterSet(lex, recs, roots[k])| {
      GroupSize(lex, recs, ClusterSet(lex, recs, roots[k]), out[k]);
    }
  }

  lemma SizedSplit(lex: Lexicon, recs: seq<Record>, roots: seq<nat>, r: nat, out: seq<Result>)
    requires Sized(lex, recs, roots + [r], out)
    ensures Sized(lex, recs, roots, out[..|roots|])
    ensures CollapsedIn(out) + 1 == CollapsedIn(out[..|roots|]) + |ClusterSet(lex, recs, r)|
  {
    assert (roots + [r])[|roots|] == r;
    forall k | 0 <= k < |roots| ensures |out[..|roots|][k].duplicateKeys| + 1 == |ClusterSet(lex, recs, roots[k])| {
      assert (roots + [r])[k] == roots[k];
    }
  }

  lemma RootsGrow(lex: Lexicon, recs: seq<Record>, n: nat)
    requires n < |recs|
    ensures var now, root := Roots(lex, recs, n + 1), IsClusterRoot(lex, recs, n);
      && (root ==> now == Roots(lex, recs, n) + [n])
      && (!root ==> now == Roots(lex, recs, n))
    ensures |Gathered(lex, recs, n + 1)| ==
      |Gathered(lex, recs, n)| + if IsClusterRoot(lex, recs, n) then |ClusterSet(lex, recs, n)| else 0
  {
    if IsClusterRoot(lex, recs, n) {
      ClustersAreApart(lex, recs, n);
    } else {
      assert Roots(lex, recs, n) + [] == Roots(lex, recs, n);
    }
  }

  lemma {:induction false} CollapsedSoFar(lex: Lexicon, recs: seq<Record>, n: nat, out: seq<Result>)
    requires n <= |recs| && Sized(lex, recs, Roots(lex, recs, n), out)
    ensures CollapsedIn(out) + |out| == |Gathered(lex, recs, n)|
    decreases n
  {
    if n > 0 {
      var m := n - 1;
      var before := Roots(lex, recs, m);
      RootsGrow(lex, recs, m);
      if IsClusterRoot(lex, recs, m) {
        SizedSplit(lex, recs, before, m, out);
        CollapsedSoFar(lex, recs, m, out[..|before|]);
      } else {
        CollapsedSoFar(lex, recs, m, out);
      }
    }
  }

  lemma SharedIsGathered(lex: Lexicon, recs: seq<Record>)
    ensures Shared(lex, recs) == Gathered(lex, recs, |recs|)
  {
    var E := AllEdges(lex, recs);
    forall i: nat ensures i in Shared(lex, recs) <==> i in Gathered(lex, recs, |recs|) {
      GatheredBy(lex, recs, |recs|, i);
      if i < |recs| && |ClusterSet(lex, recs, i)| >= 2 {
        var r := ClusterDescription.LeastExists(E, |recs|, i);
        SameComponent(E, |recs|, i, r);
        ClusterLoop.LeastOfOther(E, |recs|, i, r);
        Symmetric(E, i, r);
        assert IsClusterRoot(lex, recs, r) && i in ClusterSet(lex, recs, r);
      }
      if r: nat :| r < |recs| && IsClusterRoot(lex, recs, r) && i in ClusterSet(lex, recs, r) {
        SameComponent(E, |recs|, r, i);
      }
    }
  }

  /** Collapsing loses nothing: the records collapsed and the clusters' primaries are together exactly the records
      that share a cluster. */
  lemma CollapsedRecordsAddUp(lex: Lexicon, recs: seq<Record>, out: seq<Result>)
    requires IsClustering(lex, recs, out)
    ensures CollapsedIn(out) + |out| == |Shared(lex, recs)|
  {
    ResultsAreSized(lex, recs, out);
    CollapsedSoFar(lex, recs, |recs|, out);
    SharedIsGathered(lex, recs);
  }
}
