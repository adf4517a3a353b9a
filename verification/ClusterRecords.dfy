/** The clustering loop of cross_source_dedup.py, proved against the specification in Clustering. */
module ClusterLoop {
  import opened Connectivity
  import opened RecordKeys
  import opened Sorting
  import opened UnionFinds
  import opened Clustering

  // ---- Strong keys: each record is linked to the first holder of its key ----

  /** Every record below i with a key is the indexed holder of the key or linked to it. */
  ghost predicate Starred(keys: seq<string>, index: map<string, nat>, i: nat, strong: Edges) {
    && i <= |keys|
    && (forall k :: k in index ==> k != "" && index[k] < i && keys[index[k]] == k)
    && (forall a: nat :: a < i && keys[a] != "" ==>
          keys[a] in index && (index[keys[a]] == a || (index[keys[a]], a) in strong))
  }

  method LinkByKey(uf: UnionFind, keys: seq<string>, index: map<string, nat>, i: nat, strong: Edges)
    returns (index': map<string, nat>, strong': Edges)
    requires uf.Valid() && uf.parent.Length == |keys| && i < |keys|
    requires uf.links == strong && Starred(keys, index, i, strong)
    modifies uf, uf.parent
    ensures uf.Valid() && Starred(keys, index', i + 1, strong')
    ensures uf.links == strong' && strong <= strong'
    ensures forall e :: e in strong' - strong ==> e.0 < e.1 == i && keys[e.0] == keys[i] != ""
  {
    index', strong' := index, strong;
    var key := keys[i];
    if key != "" {
      if key in index {
        uf.Union(index[key], i);
        strong' := strong + {(index[key], i)};
      } else {
        index' := index[key := i];
      }
    }
  }

  /** Two records with one key meet at its first holder. */
  lemma StarConnects(keys: seq<string>, index: map<string, nat>, strong: Edges, a: nat, b: nat)
    requires Starred(keys, index, |keys|, strong)
    requires a < |keys| && b < |keys| && keys[a] != "" && keys[a] == keys[b]
    ensures Connected(strong, a, b)
  {
    var f := index[keys[a]];
    Reflexive(strong, f);
    if f != a { EdgeConnects(strong, f, a); }
    if f != b { EdgeConnects(strong, f, b); }
    Transitive(strong, a, f, b);
  }

  /** F is a part of E that already connects all that E connects. */
  ghost predicate Spans(F: Edges, E: Edges) {
    F <= E && forall e :: e in E ==> Connected(F, e.0, e.1)
  }

  method LinkStrong(lex: Lexicon, recs: seq<Record>, uf: UnionFind) returns (strong: Edges)
    requires uf.Valid() && uf.parent.Length == |recs| && uf.links == {}
    modifies uf, uf.parent
    ensures uf.Valid() && uf.links == strong && Spans(strong, StrongEdges(lex, recs))
  {
    var canon := Map((r: Record) => r.canonicalUrl, recs);
    var official := Map((r: Record) => OfficialKey(lex, r), recs);
    var signal := Map((r: Record) => SignalKey(lex, r), recs);
    var canonIdx, officialIdx, signalIdx: map<string, nat> := map[], map[], map[];
    strong := {};
    for i := 0 to |recs|
      invariant uf.Valid() && uf.links == strong <= StrongEdges(lex, recs)
      invariant Starred(canon, canonIdx, i, strong)
      invariant Starred(official, officialIdx, i, strong)
      invariant Starred(signal, signalIdx, i, strong)
    {
      ghost var before := strong;
      canonIdx, strong := LinkByKey(uf, canon, canonIdx, i, strong);
      officialIdx, strong := LinkByKey(uf, official, officialIdx, i, strong);
      signalIdx, strong := LinkByKey(uf, signal, signalIdx, i, strong);
    }
    forall e | e in StrongEdges(lex, recs) ensures Connected(strong, e.0, e.1) {
      if canon[e.0] != "" && canon[e.0] == canon[e.1] {
        StarConnects(canon, canonIdx, strong, e.0, e.1);
      } else if official[e.0] != "" && official[e.0] == official[e.1] {
        StarConnects(official, officialIdx, strong, e.0, e.1);
      } else {
        StarConnects(signal, signalIdx, strong, e.0, e.1);
      }
    }
  }

  // ---- Weak links: pairs inside one date bucket whose titles are similar ----

  type Scores = map<(nat, nat), real>

  predicate Similar(lex: Lexicon, recs: seq<Record>, i: nat, j: nat) {
    i < |recs| && j < |recs| && TitlesSimilar(lex, recs[i].title, recs[j].title)
  }

  /** idxs lists, ascending, the positions below i that hold b. */
  ghost predicate ListsHolders(buckets: seq<string>, b: string, i: nat, idxs: seq<nat>) {
    && i <= |buckets|
    && (forall p, q :: 0 <= p < q < |idxs| ==> idxs[p] < idxs[q])
    && (forall x: nat :: x in idxs <==> x < i && buckets[x] == b)
  }

  ghost function BucketsBelow(buckets: seq<string>, i: nat): set<string>
    requires i <= |buckets|
  {
    set j | 0 <= j < i && buckets[j] != "" :: buckets[j]
  }

  lemma OneMoreBucket(buckets: seq<string>, i: nat)
    requires i < |buckets|
    ensures BucketsBelow(buckets, i + 1) == BucketsBelow(buckets, i) + if buckets[i] != "" then {buckets[i]} else {}
  {
  }

  lemma OneMoreHolder(buckets: seq<string>, b: string, i: nat, idxs: seq<nat>)
    requires i < |buckets| && ListsHolders(buckets, b, i, idxs)
    ensures ListsHolders(buckets, b, i + 1, if buckets[i] == b then idxs + [i] else idxs)
  {
    assert forall p :: 0 <= p < |idxs| ==> idxs[p] in idxs;
    if buckets[i] == b { MemberOfMore(idxs, i); }
  }

  lemma MemberOfMore(s: seq<nat>, x: nat)
    ensures forall y :: y in s + [x] <==> y in s || y == x
  {
  }

  lemma NoHolder(buckets: seq<string>, b: string, i: nat)
    requires i < |buckets| && b == buckets[i] != "" && b !in BucketsBelow(buckets, i)
    ensures ListsHolders(buckets, b, i + 1, [i])
  {
    assert forall x: nat :: x < i ==> buckets[x] != b;
  }

  method GroupByBucket(buckets: seq<string>) returns (byBucket: map<string, seq<nat>>, order: seq<string>)
    ensures forall b :: b in byBucket <==> b in order
    ensures byBucket.Keys == BucketsBelow(buckets, |buckets|)
    ensures forall b :: b in byBucket ==> ListsHolders(buckets, b, |buckets|, byBucket[b])
  {
    byBucket, order := map[], [];
    for i: nat := 0 to |buckets|
      invariant forall b :: b in byBucket <==> b in order
      invariant byBucket.Keys == BucketsBelow(buckets, i)
      invariant forall b :: b in byBucket ==> ListsHolders(buckets, b, i, byBucket[b])
    {
      var b := buckets[i];
      OneMoreBucket(buckets, i);
      ghost var before := byBucket;
      if b != "" {
        if b !in byBucket {
          byBucket, order := byBucket[b := []], order + [b];
        }
        byBucket := byBucket[b := byBucket[b] + [i]];
      }
      forall c | c in byBucket ensures ListsHolders(buckets, c, i + 1, byBucket[c]) {
        if c in before {
          OneMoreHolder(buckets, c, i, before[c]);
        } else {
          NoHolder(buckets, b, i);
        }
      }
    }
  }

  ghost predicate ScoresAll(lex: Lexicon, recs: seq<Record>, weak: Edges, jaccard: Scores) {
    && jaccard.Keys == weak
    && (forall e :: e in weak ==>
          e.0 < |recs| && e.1 < |recs| && jaccard[e] == Similarity(lex, recs[e.0].title, recs[e.1].title))
  }

  method LinkPair(lex: Lexicon, recs: seq<Record>, uf: UnionFind, i: nat, j: nat, weak: Edges, jaccard: Scores)
    returns (weak': Edges, jaccard': Scores)
    requires uf.Valid() && uf.parent.Length == |recs| && i < j < |recs|
    requires ScoresAll(lex, recs, weak, jaccard)
    modifies uf, uf.parent
    ensures uf.Valid() && ScoresAll(lex, recs, weak', jaccard')
    ensures weak' == weak + if Similar(lex, recs, i, j) then {(i, j)} else {}
    ensures uf.links == old(uf.links) + if Similar(lex, recs, i, j) then {(i, j)} else {}
  {
    weak', jaccard' := weak, jaccard;
    var ti, tj := NormTitle(lex, recs[i].title), NormTitle(lex, recs[j].title);
    if ti != "" && tj != "" {
      var jac := if ti == tj then 1.0 else Jaccard(lex.tokens(recs[i].title), lex.tokens(recs[j].title));
      if jac >= THRESHOLD {
        uf.Union(i, j);
        weak' := weak + {(i, j)};
        var known := if (i, j) in jaccard then jaccard[(i, j)] else 0.0;
        jaccard' := jaccard[(i, j) := if known > jac then known else jac];
      }
    }
  }

  /** e joins a member of `firsts` to a later, similar member of `seconds`. */
  ghost predicate JoinsSimilar(lex: Lexicon, recs: seq<Record>, firsts: set<nat>, seconds: set<nat>, e: (nat, nat)) {
    e.0 < e.1 && e.0 in firsts && e.1 in seconds && Similar(lex, recs, e.0, e.1)
  }

  ghost predicate AscendingBelow(idxs: seq<nat>, n: nat) {
    && (forall i, j :: 0 <= i < j < |idxs| ==> idxs[i] < idxs[j])
    && (forall i :: 0 <= i < |idxs| ==> idxs[i] < n)
  }

  function SetOf<T(==)>(s: seq<T>): set<T> {
    set x | x in s
  }

  lemma SetOfPrefix<T>(s: seq<T>, k: nat)
    requires k < |s|
    ensures SetOf(s[..k + 1]) == SetOf(s[..k]) + {s[k]}
  {
    assert s[..k + 1] == s[..k] + [s[k]];
  }

  /** The pairs one row has found when it reaches position q. */
  ghost predicate RowDone(lex: Lexicon, recs: seq<Record>, idxs: seq<nat>, p: nat, q: nat, row: Edges)
    requires p < |idxs| && q <= |idxs|
  {
    forall e :: e in row <==> JoinsSimilar(lex, recs, {idxs[p]}, SetOf(idxs[..q]), e)
  }

  lemma RowStarts(lex: Lexicon, recs: seq<Record>, idxs: seq<nat>, p: nat)
    requires AscendingBelow(idxs, |recs|) && p < |idxs|
    ensures RowDone(lex, recs, idxs, p, p + 1, {})
  {
    var first, upTo := {idxs[p]}, SetOf(idxs[..p + 1]);
    assert forall e :: !JoinsSimilar(lex, recs, first, upTo, e);
  }

  lemma RowGrows(lex: Lexicon, recs: seq<Record>, idxs: seq<nat>, p: nat, q: nat, row: Edges)
    requires AscendingBelow(idxs, |recs|) && p < q < |idxs| && RowDone(lex, recs, idxs, p, q, row)
    ensures RowDone(lex, recs, idxs, p, q + 1,
                    row + if Similar(lex, recs, idxs[p], idxs[q]) then {(idxs[p], idxs[q])} else {})
  {
    SetOfPrefix(idxs, q);
    var row' := row + if Similar(lex, recs, idxs[p], idxs[q]) then {(idxs[p], idxs[q])} else {};
    forall e ensures e in row' <==> JoinsSimilar(lex, recs, {idxs[p]}, SetOf(idxs[..q + 1]), e) {
      assert e in row <==> JoinsSimilar(lex, recs, {idxs[p]}, SetOf(idxs[..q]), e);
    }
  }

  lemma UnionAssociates(a: Edges, b: Edges, c: Edges)
    ensures (a + b) + c == a + (b + c)
  {
  }

  /** All pairs (idxs[p], idxs[q]) with p < q, for one p. */
  method LinkRow(lex: Lexicon, recs: seq<Record>, uf: UnionFind, idxs: seq<nat>, p: nat, weak: Edges, jaccard: Scores)
    returns (weak': Edges, jaccard': Scores, ghost row: Edges)
    requires uf.Valid() && uf.parent.Length == |recs| && p < |idxs| && AscendingBelow(idxs, |recs|)
    requires ScoresAll(lex, recs, weak, jaccard)
    modifies uf, uf.parent
    ensures uf.Valid() && ScoresAll(lex, recs, weak', jaccard')
    ensures weak' == weak + row && uf.links == old(uf.links) + row
    ensures RowDone(lex, recs, idxs, p, |idxs|, row)
  {
    weak', jaccard', row := weak, jaccard, {};
    RowStarts(lex, recs, idxs, p);
    for q := p + 1 to |idxs|
      invariant uf.Valid() && ScoresAll(lex, recs, weak', jaccard')
      invariant weak' == weak + row && uf.links == old(uf.links) + row
      invariant RowDone(lex, recs, idxs, p, q, row)
    {
      RowGrows(lex, recs, idxs, p, q, row);
      ghost var step := if Similar(lex, recs, idxs[p], idxs[q]) then {(idxs[p], idxs[q])} else {};
      UnionAssociates(weak, row, step);
      UnionAssociates(old(uf.links), row, step);
      weak', jaccard' := LinkPair(lex, recs, uf, idxs[p], idxs[q], weak', jaccard');
      row := row + step;
    }
  }

  /** The pairs the rows of the first p positions have found. */
  ghost predicate RowsDone(lex: Lexicon, recs: seq<Record>, idxs: seq<nat>, p: nat, added: Edges)
    requires p <= |idxs|
  {
    forall e :: e in added <==> JoinsSimilar(lex, recs, SetOf(idxs[..p]), SetOf(idxs), e)
  }

  lemma RowsGrow(lex: Lexicon, recs: seq<Record>, idxs: seq<nat>, p: nat, added: Edges, row: Edges)
    requires p < |idxs| && RowsDone(lex, recs, idxs, p, added) && RowDone(lex, recs, idxs, p, |idxs|, row)
    ensures RowsDone(lex, recs, idxs, p + 1, added + row)
  {
    SetOfPrefix(idxs, p);
    assert idxs[..|idxs|] == idxs;
    forall e ensures e in added + row <==> JoinsSimilar(lex, recs, SetOf(idxs[..p + 1]), SetOf(idxs), e) {
      assert e in added <==> JoinsSimilar(lex, recs, SetOf(idxs[..p]), SetOf(idxs), e);
      assert e in row <==> JoinsSimilar(lex, recs, {idxs[p]}, SetOf(idxs), e);
    }
  }

  method LinkBucket(lex: Lexicon, recs: seq<Record>, uf: UnionFind, idxs: seq<nat>, weak: Edges, jaccard: Scores)
    returns (weak': Edges, jaccard': Scores, ghost added: Edges)
    requires uf.Valid() && uf.parent.Length == |recs| && AscendingBelow(idxs, |recs|)
    requires ScoresAll(lex, recs, weak, jaccard)
    modifies uf, uf.parent
    ensures uf.Valid() && ScoresAll(lex, recs, weak', jaccard')
    ensures weak' == weak + added && uf.links == old(uf.links) + added
    ensures RowsDone(lex, recs, idxs, |idxs|, added)
  {
    weak', jaccard', added := weak, jaccard, {};
    for p := 0 to |idxs|
      invariant uf.Valid() && ScoresAll(lex, recs, weak', jaccard')
      invariant weak' == weak + added && uf.links == old(uf.links) + added
      invariant RowsDone(lex, recs, idxs, p, added)
    {
      ghost var row;
      weak', jaccard', row := LinkRow(lex, recs, uf, idxs, p, weak', jaccard');
      UnionAssociates(weak, added, row);
      UnionAssociates(old(uf.links), added, row);
      RowsGrow(lex, recs, idxs, p, added, row);
      added := added + row;
    }
  }

  ghost predicate InBuckets(lex: Lexicon, recs: seq<Record>, buckets: seq<string>, bs: set<string>, e: (nat, nat)) {
    && e.0 < e.1 < |buckets| && buckets[e.0] == buckets[e.1] && buckets[e.0] in bs
    && Similar(lex, recs, e.0, e.1)
  }

  /** The pairs found once the buckets in `done` have been searched. */
  ghost predicate BucketsDone(lex: Lexicon, recs: seq<Record>, buckets: seq<string>, done: set<string>, weak: Edges) {
    forall e :: e in weak <==> InBuckets(lex, recs, buckets, done, e)
  }

  lemma BucketsGrow(lex: Lexicon, recs: seq<Record>, buckets: seq<string>, b: string, idxs: seq<nat>,
                    done: set<string>, weak: Edges, added: Edges)
    requires |buckets| == |recs| && ListsHolders(buckets, b, |recs|, idxs)
    requires BucketsDone(lex, recs, buckets, done, weak) && RowsDone(lex, recs, idxs, |idxs|, added)
    ensures BucketsDone(lex, recs, buckets, done + {b}, weak + added)
  {
    assert idxs[..|idxs|] == idxs;
    var now := done + {b};
    forall e ensures e in weak + added <==> InBuckets(lex, recs, buckets, now, e) {
      assert e in weak <==> InBuckets(lex, recs, buckets, done, e);
      assert e in added <==> JoinsSimilar(lex, recs, SetOf(idxs), SetOf(idxs), e);
    }
  }

  lemma HoldersAscend(buckets: seq<string>, b: string, idxs: seq<nat>)
    requires ListsHolders(buckets, b, |buckets|, idxs)
    ensures AscendingBelow(idxs, |buckets|)
  {
    assert forall i :: 0 <= i < |idxs| ==> idxs[i] in idxs;
  }

  lemma BucketsMakeWeakEdges(lex: Lexicon, recs: seq<Record>, buckets: seq<string>, done: set<string>, weak: Edges)
    requires buckets == Map((r: Record) => DateBucket(lex, r), recs) && done == BucketsBelow(buckets, |buckets|)
    requires BucketsDone(lex, recs, buckets, done, weak)
    ensures forall e :: e in weak <==> e in WeakEdges(lex, recs) && e.0 < e.1
  {
    forall e: (nat, nat) ensures e in weak <==> e in WeakEdges(lex, recs) && e.0 < e.1 {
      assert e in weak <==> InBuckets(lex, recs, buckets, done, e);
      assert e == (e.0, e.1);
    }
  }

  method LinkWeak(lex: Lexicon, recs: seq<Record>, uf: UnionFind) returns (weak: Edges, jaccard: Scores)
    requires uf.Valid() && uf.parent.Length == |recs|
    modifies uf, uf.parent
    ensures uf.Valid() && ScoresAll(lex, recs, weak, jaccard) && uf.links == old(uf.links) + weak
    ensures forall e :: e in weak <==> e in WeakEdges(lex, recs) && e.0 < e.1
  {
    var buckets := Map((r: Record) => DateBucket(lex, r), recs);
    var byBucket, order := GroupByBucket(buckets);
    weak, jaccard := {}, map[];
    ghost var done := {};
    for k := 0 to |order|
      invariant uf.Valid() && ScoresAll(lex, recs, weak, jaccard) && uf.links == old(uf.links) + weak
      invariant done == SetOf(order[..k])
      invariant BucketsDone(lex, recs, buckets, done, weak)
    {
      var b := order[k];
      var idxs := byBucket[b];
      HoldersAscend(buckets, b, idxs);
      ghost var added, before := {}, weak;
      weak, jaccard, added := LinkBucket(lex, recs, uf, idxs, weak, jaccard);
      UnionAssociates(old(uf.links), before, added);
      BucketsGrow(lex, recs, buckets, b, idxs, done, before, added);
      SetOfPrefix(order, k);
      done := done + {b};
    }
    assert done == BucketsBelow(buckets, |buckets|) by { assert order[..|order|] == order; }
    BucketsMakeWeakEdges(lex, recs, buckets, done, weak);
  }

  // ---- Groups: members listed under their root ----

  type Groups = map<nat, seq<nat>>

  /** The groups hold every component's members below i, listed under its least vertex. */
  ghost predicate GroupsUpTo(E: Edges, n: nat, i: nat, groups: Groups) {
    && (forall r: nat :: r in groups <==> r < i && IsLeastConnected(E, n, r, r))
    && (forall r: nat :: r in groups ==> groups[r] == Ascending(i, Component(E, n, r)))
  }

  /** setdefault(r, []).append(i) */
  function AddTo(groups: Groups, r: nat, i: nat): Groups {
    groups[r := (if r in groups then groups[r] else []) + [i]]
  }

  lemma LeastOfOther(E: Edges, n: nat, x: nat, r: nat)
    requires x < n && IsLeastConnected(E, n, x, r)
    ensures IsLeastConnected(E, n, r, r)
  {
    Reflexive(E, r);
    forall y: nat | y < n && Connected(E, r, y) ensures r <= y { Transitive(E, x, r, y); }
  }

  /** The only root whose component holds i is i's own. */
  lemma OnlyOneRoot(E: Edges, n: nat, i: nat, r: nat, s: nat)
    requires i < n && s < n && IsLeastConnected(E, n, i, r) && IsLeastConnected(E, n, s, s)
    ensures i in Component(E, n, s) <==> s == r
  {
    Symmetric(E, i, r);
    if Connected(E, s, i) {
      Symmetric(E, s, i);
      Transitive(E, s, i, r);
    }
  }

  lemma {:induction false} NoneBelow(n: nat, S: set<nat>)
    requires forall x :: x in S ==> n <= x
    ensures Ascending(n, S) == []
  {
    if n > 0 { NoneBelow(n - 1, S); }
  }

  lemma GroupsGrow(E: Edges, n: nat, i: nat, groups: Groups, r: nat)
    requires i < n && GroupsUpTo(E, n, i, groups) && IsLeastConnected(E, n, i, r)
    ensures GroupsUpTo(E, n, i + 1, AddTo(groups, r, i))
  {
    var after := AddTo(groups, r, i);
    LeastOfOther(E, n, i, r);
    Reflexive(E, i);
    if r !in groups { NoneBelow(r, Component(E, n, r)); }
    forall s: nat | s in after ensures after[s] == Ascending(i + 1, Component(E, n, s)) {
      OnlyOneRoot(E, n, i, r, s);
    }
    forall s: nat ensures s in after <==> s < i + 1 && IsLeastConnected(E, n, s, s) {
      if s == i && IsLeastConnected(E, n, s, s) { OnlyOneRoot(E, n, i, r, s); }
    }
  }

  method CollectGroups(uf: UnionFind) returns (groups: Groups)
    requires uf.Valid()
    modifies uf.parent
    ensures uf.Valid() && GroupsUpTo(uf.links, uf.parent.Length, uf.parent.Length, groups)
  {
    groups := map[];
    ghost var E, n := uf.links, uf.parent.Length;
    for i: nat := 0 to uf.parent.Length
      invariant uf.Valid() && GroupsUpTo(E, n, i, groups)
    {
      var r := uf.Find(i);
      GroupsGrow(E, n, i, groups, r);
      groups := AddTo(groups, r, i);
    }
  }
}
