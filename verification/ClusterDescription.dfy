/** One cluster's result: stable member order, core component, weak-only members (cross_source_dedup.py). */
module ClusterDescription {
  import opened Connectivity
  import opened RecordKeys
  import opened Sorting
  import opened UnionFinds
  import opened Clustering
  import opened ClusterLoop

  // ---- The member order ----

  function ByKey(lex: Lexicon, recs: seq<Record>): (nat, nat) -> bool {
    (a: nat, b: nat) => TextLe(KeyAt(lex, recs, a), KeyAt(lex, recs, b))
  }

  /** By key, then by input position. */
  ghost predicate Precedes(lex: Lexicon, recs: seq<Record>, a: nat, b: nat) {
    TextLe(KeyAt(lex, recs, a), KeyAt(lex, recs, b)) && (KeyAt(lex, recs, a) == KeyAt(lex, recs, b) ==> a <= b)
  }

  ghost predicate InOrder(lex: Lexicon, recs: seq<Record>, s: seq<nat>) {
    forall i, j :: 0 <= i < j < |s| ==> Precedes(lex, recs, s[i], s[j])
  }

  /** s lists the members of S, each once, by key and then by input position. */
  ghost predicate Orders(lex: Lexicon, recs: seq<Record>, S: set<nat>, s: seq<nat>) {
    InOrder(lex, recs, s) && Distinct(s) && forall x :: x in s <==> x in S
  }

  lemma ByKeyIsTotal(lex: Lexicon, recs: seq<Record>)
    ensures TotalPreorder(ByKey(lex, recs))
  {
    TextLeIsTotalOrder();
  }

  lemma SortedMembers(lex: Lexicon, recs: seq<Record>, S: set<nat>)
    requires forall x :: x in S ==> x < |recs|
    ensures Orders(lex, recs, S, Sort(ByKey(lex, recs), Ascending(|recs|, S)))
  {
    var le := ByKey(lex, recs);
    var tie := (a: nat, b: nat) => a <= b;
    var asc := Ascending(|recs|, S);
    ByKeyIsTotal(lex, recs);
    SortKeepsTies(le, tie, asc);
    var s := Sort(le, asc);
    TextLeIsTotalOrder();
    assert InOrder(lex, recs, s);
    forall x ensures x in s <==> x in S { assert x in multiset(s) <==> x in multiset(asc); }
    SortKeepsDistinct(s, asc);
  }

  lemma CountsTwice(s: seq<nat>, i: nat, j: nat)
    requires i < j < |s|
    ensures s[i] == s[j] ==> multiset(s)[s[i]] >= 2
  {
    assert s == s[..i] + [s[i]] + s[i + 1..j] + [s[j]] + s[j + 1..];
  }

  lemma SortKeepsDistinct(s: seq<nat>, t: seq<nat>)
    requires Distinct(t) && multiset(s) == multiset(t)
    ensures Distinct(s)
  {
    DistinctCounts(t);
    forall i, j | 0 <= i < j < |s| ensures s[i] != s[j] {
      CountsTwice(s, i, j);
    }
  }

  /** The keys of an ordered listing are the sorted keys of its set. */
  lemma OrderedKeysAreSorted(lex: Lexicon, recs: seq<Record>, S: set<nat>, s: seq<nat>)
    requires Orders(lex, recs, S, s) && forall x :: x in S ==> x < |recs|
    ensures IsSortedKeys(lex, recs, S, KeysOf(lex, recs, s))
  {
    SameElements(s, Ascending(|recs|, S));
    MapKeepsMultiset(m => KeyAt(lex, recs, m), s, Ascending(|recs|, S));
    assert forall i, j :: 0 <= i < j < |s| ==> Precedes(lex, recs, s[i], s[j]);
  }

  // ---- Ranks ----

  lemma BetterIsTotal(a: Rank, b: Rank)
    ensures a == b || Better(a, b) || Better(b, a)
  {
    TextLeTotal(a.minKey, b.minKey);
  }

  lemma BetterIsTransitive(a: Rank, b: Rank, c: Rank)
    requires Better(a, b) && Better(b, c)
    ensures Better(a, c)
  {
    TextLeIsTotalOrder();
  }

  lemma BetterIsStrict(a: Rank, b: Rank)
    requires Better(a, b)
    ensures a != b && !Better(b, a)
  {
    TextLeIsTotalOrder();
  }

  /** The rank of the records in a list, as the code computes it. */
  function RankOfList(lex: Lexicon, recs: seq<Record>, ms: seq<nat>): Rank
    requires ms != []
  {
    Rank(|ms|, exists m :: m in ms && m < |recs| && recs[m].recordType in PUBLISHABLE_TYPES,
         MinText(KeysOf(lex, recs, ms)))
  }

  lemma ListRank(lex: Lexicon, recs: seq<Record>, S: set<nat>, ms: seq<nat>)
    requires ms != [] && Distinct(ms) && (forall x :: x in ms <==> x in S) && forall x :: x in S ==> x < |recs|
    ensures RankOfList(lex, recs, ms) == RankOf(lex, recs, S)
  {
    DistinctLength(ms, S);
    var asc := Ascending(|recs|, S);
    forall x ensures x in ms <==> x in asc {
      assert x in ms <==> x in S;
    }
    assert ms[0] in asc;
    SameKeys(lex, recs, ms, asc);
    SameKeys(lex, recs, asc, ms);
    MinTextOfSameElements(KeysOf(lex, recs, ms), KeysOf(lex, recs, asc));
  }

  lemma SameKeys(lex: Lexicon, recs: seq<Record>, ms: seq<nat>, ns: seq<nat>)
    requires forall x :: x in ms ==> x in ns
    ensures forall k :: k in KeysOf(lex, recs, ms) ==> k in KeysOf(lex, recs, ns)
  {
    var ks, ls := KeysOf(lex, recs, ms), KeysOf(lex, recs, ns);
    forall k | k in ks ensures k in ls {
      var i :| 0 <= i < |ms| && ks[i] == k;
      var m := ms[i];
      assert m in ms;
      var j :| 0 <= j < |ns| && ns[j] == m;
      assert ls[j] == k;
    }
  }

  // ---- Positions in the member order mirror members ----

  function At(members: seq<nat>, p: nat): nat {
    if p < |members| then members[p] else 0
  }

  function AtAll(members: seq<nat>, ps: seq<nat>): seq<nat> {
    Map(p => At(members, p), ps)
  }

  ghost predicate IsPositionMap(members: seq<nat>, pos: map<nat, nat>) {
    && (forall m :: m in pos <==> m in members)
    && (forall p: nat :: p < |members| ==> pos[members[p]] == p)
  }

  function PositionMap(members: seq<nat>): (pos: map<nat, nat>)
    requires Distinct(members)
    ensures IsPositionMap(members, pos)
  {
    map k: nat | k < |members| :: members[k] := k
  }

  ghost function PositionEdges(pos: map<nat, nat>, E: Edges): Edges
    requires forall e :: e in E ==> e.0 in pos && e.1 in pos
  {
    set e | e in E :: (pos[e.0], pos[e.1])
  }

  /** Position edges connect exactly the positions of strongly connected members. */
  ghost predicate Mirrors(lex: Lexicon, recs: seq<Record>, members: seq<nat>, P: Edges) {
    forall p: nat, q: nat :: p < |members| && q < |members| ==>
      (Connected(P, p, q) <==> Connected(StrongEdges(lex, recs), members[p], members[q]))
  }

  ghost predicate ClosedUnder(E: Edges, S: set<nat>) {
    forall e :: e in E ==> (e.0 in S <==> e.1 in S)
  }

  function Inside(E: Edges, S: set<nat>): Edges {
    set e | e in E && e.0 in S && e.1 in S
  }

  lemma PositionsMirror(lex: Lexicon, recs: seq<Record>, S: set<nat>, members: seq<nat>, pos: map<nat, nat>,
                        strong: Edges)
    requires Spans(strong, StrongEdges(lex, recs)) && ClosedUnder(StrongEdges(lex, recs), S)
    requires IsPositionMap(members, pos) && forall x :: x in members <==> x in S
    ensures Mirrors(lex, recs, members, PositionEdges(pos, Inside(strong, S)))
  {
    var E, I := StrongEdges(lex, recs), Inside(strong, S);
    var P := PositionEdges(pos, I);
    forall p: nat, q: nat | p < |members| && q < |members|
      ensures Connected(P, p, q) <==> Connected(E, members[p], members[q])
    {
      if Connected(P, p, q) { MembersFollowPositions(E, I, members, pos, p, q); }
      if Connected(E, members[p], members[q]) {
        Absorb(E, strong, members[p], members[q]);
        Restrict(strong, S, members[p], members[q]);
        PositionsFollowMembers(I, members, pos, p, q);
      }
    }
  }

  lemma MembersFollowPositions(E: Edges, I: Edges, members: seq<nat>, pos: map<nat, nat>, p: nat, q: nat)
    requires IsPositionMap(members, pos) && p < |members| && q < |members|
    requires I <= E && forall e :: e in I ==> e.0 in pos && e.1 in pos
    requires Connected(PositionEdges(pos, I), p, q)
    ensures Connected(E, members[p], members[q])
  {
    var f := (x: nat) => At(members, x);
    forall d | d in PositionEdges(pos, I) ensures Connected(E, f(d.0), f(d.1)) {
      var e :| e in I && d == (pos[e.0], pos[e.1]);
      EdgeConnects(E, e.0, e.1);
      assert members[pos[e.0]] == e.0 && members[pos[e.1]] == e.1;
    }
    Transport(PositionEdges(pos, I), E, f, p, q);
  }

  lemma PositionsFollowMembers(I: Edges, members: seq<nat>, pos: map<nat, nat>, p: nat, q: nat)
    requires IsPositionMap(members, pos) && p < |members| && q < |members|
    requires forall e :: e in I ==> e.0 in pos && e.1 in pos
    requires Connected(I, members[p], members[q])
    ensures Connected(PositionEdges(pos, I), p, q)
  {
    var P := PositionEdges(pos, I);
    var f := (x: nat) => if x in pos then pos[x] else 0;
    forall e | e in I ensures Connected(P, f(e.0), f(e.1)) {
      assert (pos[e.0], pos[e.1]) in P;
      EdgeConnects(P, pos[e.0], pos[e.1]);
    }
    Transport(I, P, f, members[p], members[q]);
  }

  /** The facts about one cluster's member order that the rest of the description relies on. */
  ghost predicate Laid(lex: Lexicon, recs: seq<Record>, S: set<nat>, members: seq<nat>, P: Edges) {
    && Orders(lex, recs, S, members) && Mirrors(lex, recs, members, P)
    && ClosedUnder(StrongEdges(lex, recs), S) && (forall x :: x in S ==> x < |recs|)
    && Within(P, |members|)
  }

  lemma StrongSetStaysInside(lex: Lexicon, recs: seq<Record>, S: set<nat>, m: nat)
    requires ClosedUnder(StrongEdges(lex, recs), S) && m in S
    ensures StrongSet(lex, recs, m) <= S
  {
    forall x | x in StrongSet(lex, recs, m) ensures x in S {
      ClosedSetTraps(StrongEdges(lex, recs), m, x, iset y | y in S);
    }
  }

  /** The members at the positions of one group form the strong component of any of them. */
  lemma GroupIsStrongSet(lex: Lexicon, recs: seq<Record>, S: set<nat>, members: seq<nat>, P: Edges, p: nat,
                         ps: seq<nat>)
    requires Laid(lex, recs, S, members, P) && p < |members| <= |recs|
    requires ps == Ascending(|members|, Component(P, |members|, p))
    ensures p in ps && Distinct(AtAll(members, ps))
    ensures forall x :: x in AtAll(members, ps) <==> x in StrongSet(lex, recs, members[p])
  {
    Reflexive(P, p);
    assert members[p] in members;
    StrongSetStaysInside(lex, recs, S, members[p]);
    MembersDistinct(members, ps);
    forall x ensures x in AtAll(members, ps) <==> x in StrongSet(lex, recs, members[p]) {
      if x in AtAll(members, ps) { GroupMemberIsStrong(lex, recs, S, members, P, p, ps, x); }
      if x in StrongSet(lex, recs, members[p]) { StrongMemberIsInGroup(lex, recs, S, members, P, p, ps, x); }
    }
  }

  lemma MembersDistinct(members: seq<nat>, ps: seq<nat>)
    requires Distinct(members) && Distinct(ps) && forall p :: p in ps ==> p < |members|
    ensures Distinct(AtAll(members, ps))
  {
    var ms := AtAll(members, ps);
    forall i, j | 0 <= i < j < |ms| ensures ms[i] != ms[j] {
      assert ps[i] in ps && ps[j] in ps;
    }
  }

  lemma GroupMemberIsStrong(lex: Lexicon, recs: seq<Record>, S: set<nat>, members: seq<nat>, P: Edges, p: nat,
                            ps: seq<nat>, x: nat)
    requires Laid(lex, recs, S, members, P) && p < |members| <= |recs|
    requires ps == Ascending(|members|, Component(P, |members|, p)) && x in AtAll(members, ps)
    ensures x in StrongSet(lex, recs, members[p])
  {
    var i :| 0 <= i < |ps| && AtAll(members, ps)[i] == x;
    assert ps[i] in ps;
    assert x in members;
  }

  lemma StrongMemberIsInGroup(lex: Lexicon, recs: seq<Record>, S: set<nat>, members: seq<nat>, P: Edges, p: nat,
                              ps: seq<nat>, x: nat)
    requires Laid(lex, recs, S, members, P) && p < |members| <= |recs|
    requires ps == Ascending(|members|, Component(P, |members|, p)) && x in S && x in StrongSet(lex, recs, members[p])
    ensures x in AtAll(members, ps)
  {
    var q :| 0 <= q < |members| && members[q] == x;
    assert q in ps;
    var i :| 0 <= i < |ps| && ps[i] == q;
    assert AtAll(members, ps)[i] == x;
  }

  function GroupRank(lex: Lexicon, recs: seq<Record>, members: seq<nat>, ps: seq<nat>): Rank
    requires ps != []
  {
    RankOfList(lex, recs, AtAll(members, ps))
  }

  /** a is chosen over b: a better rank, or the same rank at an earlier position. */
  ghost predicate Outranks(ra: Rank, a: nat, rb: Rank, b: nat) {
    Better(ra, rb) || (ra == rb && a < b)
  }

  /** `core` is the first entry of best rank among those below n. */
  ghost predicate FirstBest(ranks: map<nat, Rank>, n: nat, core: nat) {
    core in ranks && forall p :: p in ranks && p < n && p != core ==> Outranks(ranks[core], core, ranks[p], p)
  }

  lemma FirstBestGrows(ranks: map<nat, Rank>, n: nat, core: nat)
    requires FirstBest(ranks, n, core) && core < n && n in ranks
    ensures FirstBest(ranks, n + 1, if Better(ranks[n], ranks[core]) then n else core)
  {
    BetterIsTotal(ranks[n], ranks[core]);
    if Better(ranks[n], ranks[core]) {
      forall q | q in ranks && q < n ensures Better(ranks[n], ranks[q]) {
        if q != core && Better(ranks[core], ranks[q]) { BetterIsTransitive(ranks[n], ranks[core], ranks[q]); }
      }
    }
  }

  /** `min` over the groups in insertion order, which is by ascending root. */
  method ChooseCore(ranks: map<nat, Rank>, n: nat) returns (core: nat)
    requires 0 in ranks && n > 0
    ensures FirstBest(ranks, n, core)
  {
    core := 0;
    for p: nat := 1 to n
      invariant core < p && FirstBest(ranks, p, core)
    {
      if p in ranks {
        FirstBestGrows(ranks, p, core);
        if Better(ranks[p], ranks[core]) {
          core := p;
        }
      }
    }
  }

  /** The rank of every group. */
  ghost predicate AreRanks(lex: Lexicon, recs: seq<Record>, members: seq<nat>, comp: Groups, ranks: map<nat, Rank>) {
    && ranks.Keys == comp.Keys
    && forall p :: p in comp ==> comp[p] != [] && ranks[p] == GroupRank(lex, recs, members, comp[p])
  }

  /** In a group, the least position holds the group's least key, and the earliest record with that key. */
  lemma FirstPositionHolds(lex: Lexicon, recs: seq<Record>, S: set<nat>, members: seq<nat>, P: Edges, p: nat, g: nat)
    requires Laid(lex, recs, S, members, P) && p < |members| <= |recs| && IsLeastConnected(P, |members|, p, p)
    requires g in StrongSet(lex, recs, members[p])
    ensures Precedes(lex, recs, members[p], g)
    ensures exists q: nat :: p <= q < |members| && members[q] == g
  {
    StrongSetStaysInside(lex, recs, S, members[p]);
    assert g in members;
    var q: nat :| q < |members| && members[q] == g;
    assert Connected(P, p, q);
    TextLeTotal(KeyAt(lex, recs, g), KeyAt(lex, recs, g));
  }

  lemma MinKeyOfGroup(lex: Lexicon, recs: seq<Record>, S: set<nat>, members: seq<nat>, P: Edges, p: nat)
    requires Laid(lex, recs, S, members, P) && p < |members| <= |recs| && IsLeastConnected(P, |members|, p, p)
    ensures MinKey(lex, recs, StrongSet(lex, recs, members[p])) == KeyAt(lex, recs, members[p])
  {
    var T := StrongSet(lex, recs, members[p]);
    var asc := Ascending(|recs|, T);
    Reflexive(StrongEdges(lex, recs), members[p]);
    assert members[p] in members && members[p] in T && members[p] in asc;
    var ks := KeysOf(lex, recs, asc);
    var k := KeyAt(lex, recs, members[p]);
    var i :| 0 <= i < |asc| && asc[i] == members[p];
    assert ks[i] == k;
    var j :| 0 <= j < |ks| && ks[j] == MinText(ks);
    assert asc[j] in asc;
    FirstPositionHolds(lex, recs, S, members, P, p, asc[j]);
    TextLeAntisymmetric(k, MinText(ks));
  }

  /** The group ChooseCore picks is the cluster's core component. */
  lemma CoreIsPrimary(lex: Lexicon, recs: seq<Record>, S: set<nat>, members: seq<nat>, P: Edges, comp: Groups,
                      ranks: map<nat, Rank>, core: nat)
    requires Laid(lex, recs, S, members, P) && |members| <= |recs|
    requires GroupsUpTo(P, |members|, |members|, comp) && AreRanks(lex, recs, members, comp, ranks)
    requires FirstBest(ranks, |members|, core)
    ensures IsPrimary(lex, recs, S, StrongSet(lex, recs, members[core]))
  {
    var T := StrongSet(lex, recs, members[core]);
    assert members[core] in members;
    forall m | m in S && StrongSet(lex, recs, m) != T
      ensures var Q := StrongSet(lex, recs, m);
        || Better(RankOf(lex, recs, T), RankOf(lex, recs, Q))
        || (RankOf(lex, recs, T) == RankOf(lex, recs, Q) && HoldsFirst(lex, recs, T, Q))
    {
      var p := RootOfMember(lex, recs, S, members, P, comp, m);
      CoreBeatsGroup(lex, recs, S, members, P, comp, ranks, core, p);
    }
  }

  lemma CoreBeatsGroup(lex: Lexicon, recs: seq<Record>, S: set<nat>, members: seq<nat>, P: Edges, comp: Groups,
                       ranks: map<nat, Rank>, core: nat, p: nat)
    requires Laid(lex, recs, S, members, P) && |members| <= |recs|
    requires GroupsUpTo(P, |members|, |members|, comp) && AreRanks(lex, recs, members, comp, ranks)
    requires FirstBest(ranks, |members|, core) && p in comp && p < |members| && p != core
    ensures var T, Q := StrongSet(lex, recs, members[core]), StrongSet(lex, recs, members[p]);
      || Better(RankOf(lex, recs, T), RankOf(lex, recs, Q))
      || (RankOf(lex, recs, T) == RankOf(lex, recs, Q) && HoldsFirst(lex, recs, T, Q))
  {
    GroupRanks(lex, recs, S, members, P, comp, core);
    GroupRanks(lex, recs, S, members, P, comp, p);
    assert Outranks(ranks[core], core, ranks[p], p);
    if !Better(ranks[core], ranks[p]) {
      EarlierHoldsFirst(lex, recs, S, members, P, core, p);
    }
  }

  lemma RootOfMember(lex: Lexicon, recs: seq<Record>, S: set<nat>, members: seq<nat>, P: Edges, comp: Groups, m: nat)
    returns (p: nat)
    requires Laid(lex, recs, S, members, P) && GroupsUpTo(P, |members|, |members|, comp) && m in S
    ensures p in comp && p < |members| && StrongSet(lex, recs, members[p]) == StrongSet(lex, recs, m)
  {
    assert m in members;
    var q: nat :| q < |members| && members[q] == m;
    p := LeastExists(P, |members|, q);
    LeastOfOther(P, |members|, q, p);
    SameComponent(StrongEdges(lex, recs), |recs|, members[q], members[p]);
  }

  lemma {:induction false} LeastExists(E: Edges, n: nat, x: nat) returns (r: nat)
    requires x < n
    ensures IsLeastConnected(E, n, x, r)
  {
    Reflexive(E, x);
    r := 0;
    while !Connected(E, x, r)
      invariant r <= x && forall y: nat :: y < r ==> !Connected(E, x, y)
      decreases x - r
    {
      r := r + 1;
    }
  }

  lemma GroupRanks(lex: Lexicon, recs: seq<Record>, S: set<nat>, members: seq<nat>, P: Edges, comp: Groups, p: nat)
    requires Laid(lex, recs, S, members, P) && |members| <= |recs|
    requires GroupsUpTo(P, |members|, |members|, comp) && p in comp && comp[p] != []
    ensures p < |members|
    ensures GroupRank(lex, recs, members, comp[p]) == RankOf(lex, recs, StrongSet(lex, recs, members[p]))
  {
    GroupIsStrongSet(lex, recs, S, members, P, p, comp[p]);
    ListRank(lex, recs, StrongSet(lex, recs, members[p]), AtAll(members, comp[p]));
  }

  lemma EarlierHoldsFirst(lex: Lexicon, recs: seq<Record>, S: set<nat>, members: seq<nat>, P: Edges, a: nat, b: nat)
    requires Laid(lex, recs, S, members, P) && a < b < |members| <= |recs|
    requires IsLeastConnected(P, |members|, a, a) && IsLeastConnected(P, |members|, b, b)
    requires MinKey(lex, recs, StrongSet(lex, recs, members[a])) == MinKey(lex, recs, StrongSet(lex, recs, members[b]))
    ensures HoldsFirst(lex, recs, StrongSet(lex, recs, members[a]), StrongSet(lex, recs, members[b]))
  {
    var T, Q := StrongSet(lex, recs, members[a]), StrongSet(lex, recs, members[b]);
    MinKeyOfGroup(lex, recs, S, members, P, a);
    Reflexive(StrongEdges(lex, recs), members[a]);
    var h := members[a];
    assert h in members && h in T;
    forall g | g in Q && KeyAt(lex, recs, g) == MinKey(lex, recs, Q) ensures h < g {
      FirstPositionHolds(lex, recs, S, members, P, b, g);
      var q: nat :| b <= q < |members| && members[q] == g;
      assert Precedes(lex, recs, members[a], members[q]) && members[a] != members[q];
    }
  }

  // ---- Members outside the core ----

  ghost function Without(s: seq<nat>, T: set<nat>): seq<nat> {
    if s == [] then []
    else Without(s[..|s| - 1], T) + if s[|s| - 1] in T then [] else [s[|s| - 1]]
  }

  lemma {:induction false} WithoutOrders(lex: Lexicon, recs: seq<Record>, s: seq<nat>, T: set<nat>)
    requires InOrder(lex, recs, s) && Distinct(s)
    ensures InOrder(lex, recs, Without(s, T)) && Distinct(Without(s, T))
    ensures forall x :: x in Without(s, T) <==> x in s && x !in T
  {
    if s != [] {
      var init := s[..|s| - 1];
      assert s == init + [s[|s| - 1]];
      WithoutOrders(lex, recs, init, T);
      forall i | 0 <= i < |Without(init, T)|
        ensures Precedes(lex, recs, Without(init, T)[i], s[|s| - 1]) && Without(init, T)[i] != s[|s| - 1]
      {
        assert Without(init, T)[i] in init;
      }
    }
  }

  method UnitePositions(suf: UnionFind, strongIn: Edges, pos: map<nat, nat>)
    requires suf.Valid() && suf.links == {}
    requires forall e :: e in strongIn ==> e.0 in pos && e.1 in pos
    requires forall m :: m in pos ==> pos[m] < suf.parent.Length
    modifies suf, suf.parent
    ensures suf.Valid() && suf.links == PositionEdges(pos, strongIn)
  {
    var todo := strongIn;
    while todo != {}
      invariant suf.Valid() && todo <= strongIn && suf.links == PositionEdges(pos, strongIn - todo)
    {
      var e :| e in todo;
      PositionEdgesGrow(pos, strongIn, todo, e);
      suf.Union(pos[e.0], pos[e.1]);
      todo := todo - {e};
    }
    assert strongIn - {} == strongIn;
  }

  lemma PositionEdgesGrow(pos: map<nat, nat>, E: Edges, todo: Edges, e: (nat, nat))
    requires forall e :: e in E ==> e.0 in pos && e.1 in pos
    requires e in todo && todo <= E
    ensures PositionEdges(pos, E - (todo - {e})) == PositionEdges(pos, E - todo) + {(pos[e.0], pos[e.1])}
  {
    assert E - (todo - {e}) == (E - todo) + {e};
  }

  method MembersOutside(suf: UnionFind, members: seq<nat>, pos: map<nat, nat>, core: nat, ghost T: set<nat>)
    returns (outside: seq<nat>)
    requires suf.Valid() && suf.parent.Length == |members| && core < |members| && IsPositionMap(members, pos)
    requires IsLeastConnected(suf.links, |members|, core, core)
    requires forall p: nat :: p < |members| ==> (members[p] in T <==> Connected(suf.links, p, core))
    modifies suf.parent
    ensures outside == Without(members, T)
  {
    outside := [];
    ghost var E := suf.links;
    for k := 0 to |members|
      invariant suf.Valid() && suf.links == E && outside == Without(members[..k], T)
    {
      var m := members[k];
      var r := suf.Find(pos[m]);
      FoundCore(E, |members|, k, r, core);
      WithoutGrows(members, k, T);
      if r != core {
        outside := outside + [m];
      }
    }
    assert members[..|members|] == members;
  }

  lemma WithoutGrows(s: seq<nat>, k: nat, T: set<nat>)
    requires k < |s|
    ensures Without(s[..k + 1], T) == Without(s[..k], T) + if s[k] in T then [] else [s[k]]
  {
    assert s[..k + 1][..k] == s[..k];
  }

  lemma FoundCore(E: Edges, n: nat, p: nat, r: nat, core: nat)
    requires IsLeastConnected(E, n, core, core) && IsLeastConnected(E, n, p, r)
    ensures r == core <==> Connected(E, p, core)
  {
    if Connected(E, p, core) {
      Symmetric(E, p, core);
      Transitive(E, core, p, r);
    }
  }

  /** max over the weak pairs of the cluster. */
  method TopScore(weakIn: Edges, jaccard: Scores) returns (top: real)
    requires weakIn != {} && weakIn <= jaccard.Keys
    ensures exists e :: e in weakIn && top == jaccard[e]
    ensures forall e :: e in weakIn ==> jaccard[e] <= top
  {
    var first :| first in weakIn;
    top := jaccard[first];
    var todo := weakIn - {first};
    while todo != {}
      invariant todo <= weakIn
      invariant exists e :: e in weakIn && top == jaccard[e]
      invariant forall e :: e in weakIn - todo ==> jaccard[e] <= top
    {
      var e :| e in todo;
      if jaccard[e] > top { top := jaccard[e]; }
      todo := todo - {e};
    }
  }

  // ---- The whole result ----

  lemma JaccardSymmetric(a: set<string>, b: set<string>)
    ensures Jaccard(a, b) == Jaccard(b, a)
  {
    assert a * b == b * a && a + b == b + a;
  }

  lemma WeakLinksMirror(lex: Lexicon, recs: seq<Record>, a: nat, b: nat)
    requires (a, b) in WeakEdges(lex, recs)
    ensures (b, a) in WeakEdges(lex, recs)
    ensures Similarity(lex, recs[a].title, recs[b].title) == Similarity(lex, recs[b].title, recs[a].title)
  {
    JaccardSymmetric(lex.tokens(recs[a].title), lex.tokens(recs[b].title));
  }

  /** What the linking phase leaves behind for every cluster. */
  ghost predicate Linked(lex: Lexicon, recs: seq<Record>, strong: Edges, weak: Edges, jaccard: Scores) {
    && Spans(strong, StrongEdges(lex, recs)) && ScoresAll(lex, recs, weak, jaccard)
    && forall e :: e in weak <==> e in WeakEdges(lex, recs) && e.0 < e.1
  }

  /** S is closed under links of both kinds and holds at least one of them. */
  ghost predicate IsLinkedSet(lex: Lexicon, recs: seq<Record>, S: set<nat>) {
    && (forall x :: x in S ==> x < |recs|) && S != {}
    && ClosedUnder(StrongEdges(lex, recs), S)
    && exists a, b :: a in S && b in S && (a, b) in AllEdges(lex, recs)
  }

  lemma ClusterIsLinkedSet(lex: Lexicon, recs: seq<Record>, r: nat)
    requires IsClusterRoot(lex, recs, r)
    ensures IsLinkedSet(lex, recs, ClusterSet(lex, recs, r))
  {
    var E, S := AllEdges(lex, recs), ClusterSet(lex, recs, r);
    Reflexive(E, r);
    forall e | e in E ensures e.0 in S <==> e.1 in S {
      EdgeConnects(E, e.0, e.1);
      if e.0 in S { Transitive(E, r, e.0, e.1); }
      if e.1 in S { Transitive(E, r, e.1, e.0); }
    }
    var e := SomeEdgeTouches(E, r, S);
  }

  lemma SomeEdgeTouches(E: Edges, r: nat, S: set<nat>) returns (e: (nat, nat))
    requires r in S && |S| >= 2 && (forall x :: x in S ==> Connected(E, r, x)) && ClosedUnder(E, S)
    ensures e in E && e.0 in S && e.1 in S
  {
    if f :| f in E && (f.0 == r || f.1 == r) {
      e := f;
    } else {
      assert S != {r};
      var y :| y in S && y != r;
      ClosedSetTraps(E, r, y, iset{r});
    }
  }

  lemma StrongInside(lex: Lexicon, recs: seq<Record>, S: set<nat>, strong: Edges)
    requires Spans(strong, StrongEdges(lex, recs)) && ClosedUnder(StrongEdges(lex, recs), S)
    ensures Inside(strong, S) != {} <==> HasStrong(lex, recs, S)
  {
    var E := StrongEdges(lex, recs);
    if e :| e in Inside(strong, S) {
      assert (e.0, e.1) in E;
    }
    if HasStrong(lex, recs, S) {
      var a, b :| a in S && b in S && (a, b) in E;
      Restrict(strong, S, a, b);
      if Inside(strong, S) == {} {
        ClosedSetTraps({}, a, b, iset{a});
      }
    }
  }

  lemma TopIsTopSimilarity(lex: Lexicon, recs: seq<Record>, S: set<nat>, strong: Edges, weak: Edges, jaccard: Scores,
                           top: real)
    requires Linked(lex, recs, strong, weak, jaccard)
    requires exists e :: e in Inside(weak, S) && top == jaccard[e]
    requires forall e :: e in Inside(weak, S) ==> jaccard[e] <= top
    ensures IsTopSimilarity(lex, recs, S, top)
  {
    var e :| e in Inside(weak, S) && top == jaccard[e];
    assert (e.0, e.1) in WeakEdges(lex, recs);
    forall a, b | a in S && b in S && (a, b) in WeakEdges(lex, recs)
      ensures Similarity(lex, recs[a].title, recs[b].title) <= top
    {
      WeakLinksMirror(lex, recs, a, b);
      var f := if a < b then (a, b) else (b, a);
      assert f in Inside(weak, S);
    }
  }

  lemma WeakInside(lex: Lexicon, recs: seq<Record>, S: set<nat>, strong: Edges, weak: Edges, jaccard: Scores)
    requires Linked(lex, recs, strong, weak, jaccard) && IsLinkedSet(lex, recs, S) && !HasStrong(lex, recs, S)
    ensures Inside(weak, S) != {}
  {
    var a, b :| a in S && b in S && (a, b) in AllEdges(lex, recs);
    WeakLinksMirror(lex, recs, a, b);
    assert (if a < b then (a, b) else (b, a)) in Inside(weak, S);
  }

  method Strength(lex: Lexicon, recs: seq<Record>, ghost S: set<nat>, ghost strong: Edges, ghost weak: Edges,
                  strongIn: Edges, weakIn: Edges, jaccard: Scores)
    returns (strength: real)
    requires Linked(lex, recs, strong, weak, jaccard) && IsLinkedSet(lex, recs, S)
    requires strongIn == Inside(strong, S) && weakIn == Inside(weak, S)
    ensures if HasStrong(lex, recs, S) then strength == 1.0 else IsTopSimilarity(lex, recs, S, strength)
  {
    StrongInside(lex, recs, S, strong);
    if strongIn != {} {
      return 1.0;
    }
    WeakInside(lex, recs, S, strong, weak, jaccard);
    if weakIn != {} {
      strength := TopScore(weakIn, jaccard);
      TopIsTopSimilarity(lex, recs, S, strong, weak, jaccard, strength);
    } else {
      strength := 0.0;
    }
  }

  /** Strong components of a cluster, as groups of positions in the member order. */
  method GroupPositions(lex: Lexicon, recs: seq<Record>, members: seq<nat>, pos: map<nat, nat>, strongIn: Edges,
                        ghost S: set<nat>, ghost strong: Edges)
    returns (suf: UnionFind, comp: Groups)
    requires Spans(strong, StrongEdges(lex, recs)) && strongIn == Inside(strong, S) && IsLinkedSet(lex, recs, S)
    requires Orders(lex, recs, S, members) && IsPositionMap(members, pos)
    ensures suf.Valid() && fresh(suf) && fresh(suf.parent) && suf.parent.Length == |members|
    ensures Laid(lex, recs, S, members, suf.links) && GroupsUpTo(suf.links, |members|, |members|, comp)
  {
    suf := new UnionFind(|members|);
    UnitePositions(suf, strongIn, pos);
    PositionsMirror(lex, recs, S, members, pos, strong);
    comp := CollectGroups(suf);
  }

  function RanksOf(lex: Lexicon, recs: seq<Record>, members: seq<nat>, comp: Groups): (ranks: map<nat, Rank>)
    requires forall p :: p in comp ==> comp[p] != []
    ensures AreRanks(lex, recs, members, comp, ranks)
  {
    map p | p in comp :: GroupRank(lex, recs, members, comp[p])
  }

  lemma CoreFacts(lex: Lexicon, recs: seq<Record>, S: set<nat>, members: seq<nat>, P: Edges, comp: Groups,
                  ranks: map<nat, Rank>, core: nat)
    requires Laid(lex, recs, S, members, P) && |members| <= |recs|
    requires GroupsUpTo(P, |members|, |members|, comp) && AreRanks(lex, recs, members, comp, ranks)
    requires FirstBest(ranks, |members|, core)
    ensures core < |members| && IsLeastConnected(P, |members|, core, core)
    ensures IsPrimary(lex, recs, S, StrongSet(lex, recs, members[core])) && StrongSet(lex, recs, members[core]) <= S
    ensures forall p: nat :: p < |members| ==>
      (members[p] in StrongSet(lex, recs, members[core]) <==> Connected(P, p, core))
  {
    CoreIsPrimary(lex, recs, S, members, P, comp, ranks, core);
    assert members[core] in members;
    StrongSetStaysInside(lex, recs, S, members[core]);
    CoreMembership(lex, recs, S, members, P, core);
  }

  /** The core component of a cluster and the members outside it. */
  method SplitCore(lex: Lexicon, recs: seq<Record>, members: seq<nat>, strongIn: Edges, ghost S: set<nat>,
                   ghost strong: Edges)
    returns (ghost T: set<nat>, outside: seq<nat>)
    requires Spans(strong, StrongEdges(lex, recs)) && strongIn == Inside(strong, S) && IsLinkedSet(lex, recs, S)
    requires Orders(lex, recs, S, members) && 0 < |members| <= |recs|
    ensures IsPrimary(lex, recs, S, T) && T <= S && outside == Without(members, T)
  {
    var pos := PositionMap(members);
    var suf, comp := GroupPositions(lex, recs, members, pos, strongIn, S, strong);
    GroupsAreNonEmpty(lex, recs, S, members, suf.links, comp);
    var ranks := RanksOf(lex, recs, members, comp);
    var core := ChooseCore(ranks, |members|);
    CoreFacts(lex, recs, S, members, suf.links, comp, ranks, core);
    T := StrongSet(lex, recs, members[core]);
    outside := MembersOutside(suf, members, pos, core, T);
  }

  lemma GroupsAreNonEmpty(lex: Lexicon, recs: seq<Record>, S: set<nat>, members: seq<nat>, P: Edges, comp: Groups)
    requires Laid(lex, recs, S, members, P) && 0 < |members| <= |recs|
    requires GroupsUpTo(P, |members|, |members|, comp)
    ensures 0 in comp && forall p :: p in comp ==> comp[p] != []
  {
    Reflexive(P, 0);
    assert IsLeastConnected(P, |members|, 0, 0);
    forall p | p in comp ensures comp[p] != [] {
      GroupIsStrongSet(lex, recs, S, members, P, p, comp[p]);
    }
  }

  lemma CoreMembership(lex: Lexicon, recs: seq<Record>, S: set<nat>, members: seq<nat>, P: Edges, core: nat)
    requires Laid(lex, recs, S, members, P) && core < |members|
    ensures forall p: nat :: p < |members| ==>
      (members[p] in StrongSet(lex, recs, members[core]) <==> Connected(P, p, core))
  {
    forall p: nat | p < |members|
      ensures members[p] in StrongSet(lex, recs, members[core]) <==> Connected(P, p, core)
    {
      assert members[p] in members;
      if Connected(P, p, core) { Symmetric(P, p, core); }
      if Connected(P, core, p) { Symmetric(P, core, p); }
    }
  }

  lemma WithoutWhole(s: seq<nat>, T: set<nat>, S: set<nat>)
    requires (forall x :: x in s <==> x in S) && (forall x :: x in Without(s, T) <==> x in s && x !in T) && T <= S
    ensures Without(s, T) == [] <==> T == S
  {
    if Without(s, T) != [] { assert Without(s, T)[0] in Without(s, T); }
    if x :| x in S && x !in T { assert x in Without(s, T); }
  }

  function ResultFrom(lex: Lexicon, recs: seq<Record>, members: seq<nat>, outside: seq<nat>, hasStrong: bool,
                      strength: real): Result
    requires members != []
  {
    var keys := KeysOf(lex, recs, members);
    Result("xcluster:" + keys[0], keys, keys[0], keys[1..],
           if hasStrong then Duplicate else PossibleDuplicate,
           if hasStrong then "strong_key_match" else "title_date_similarity",
           strength, |outside| == 0, KeysOf(lex, recs, outside))
  }

  lemma ResultHolds(lex: Lexicon, recs: seq<Record>, S: set<nat>, members: seq<nat>, T: set<nat>, strength: real)
    requires IsLinkedSet(lex, recs, S) && Orders(lex, recs, S, members) && members != []
    requires IsPrimary(lex, recs, S, T) && T <= S
    requires if HasStrong(lex, recs, S) then strength == 1.0 else IsTopSimilarity(lex, recs, S, strength)
    ensures IsClusterResult(lex, recs, S,
      ResultFrom(lex, recs, members, Without(members, T), HasStrong(lex, recs, S), strength))
  {
    OrderedKeysAreSorted(lex, recs, S, members);
    WithoutOrders(lex, recs, members, T);
    WithoutWhole(members, T, S);
    OrderedKeysAreSorted(lex, recs, S - T, Without(members, T));
  }

  lemma MembersFit(lex: Lexicon, recs: seq<Record>, S: set<nat>, members: seq<nat>)
    requires IsLinkedSet(lex, recs, S) && members == Sort(ByKey(lex, recs), Ascending(|recs|, S))
    ensures Orders(lex, recs, S, members) && 0 < |members| <= |recs|
  {
    SortedMembers(lex, recs, S);
    AscendingShort(|recs|, S);
    var x :| x in S;
    assert x in members;
  }

  /** The result of one cluster, given its ordered members. */
  method DescribeMembers(lex: Lexicon, recs: seq<Record>, members: seq<nat>, strongIn: Edges, strength: real,
                         ghost S: set<nat>, ghost strong: Edges)
    returns (r: Result)
    requires Spans(strong, StrongEdges(lex, recs)) && strongIn == Inside(strong, S) && IsLinkedSet(lex, recs, S)
    requires Orders(lex, recs, S, members) && 0 < |members| <= |recs|
    requires if HasStrong(lex, recs, S) then strength == 1.0 else IsTopSimilarity(lex, recs, S, strength)
    ensures IsClusterResult(lex, recs, S, r)
  {
    ghost var T;
    var outside;
    T, outside := SplitCore(lex, recs, members, strongIn, S, strong);
    StrongInside(lex, recs, S, strong);
    ResultHolds(lex, recs, S, members, T, strength);
    r := ResultFrom(lex, recs, members, outside, strongIn != {}, strength);
  }

  method Describe(lex: Lexicon, recs: seq<Record>, group: seq<nat>, strong: Edges, weak: Edges, jaccard: Scores,
                  ghost S: set<nat>)
    returns (r: Result)
    requires Linked(lex, recs, strong, weak, jaccard) && IsLinkedSet(lex, recs, S)
    requires group == Ascending(|recs|, S)
    ensures IsClusterResult(lex, recs, S, r)
  {
    var members := Sort(ByKey(lex, recs), group);
    MembersFit(lex, recs, S, members);
    var memberSet := SetOf(members);
    assert memberSet == S;
    var strongIn, weakIn := Inside(strong, memberSet), Inside(weak, memberSet);
    var strength := Strength(lex, recs, S, strong, weak, strongIn, weakIn, jaccard);
    r := DescribeMembers(lex, recs, members, strongIn, strength, S, strong);
  }

  lemma {:induction false} AscendingShort(n: nat, S: set<nat>)
    ensures |Ascending(n, S)| <= n
  {
    if n > 0 { AscendingShort(n - 1, S); }
  }

  /** The results describe the clusters rooted at `roots`, one each. */
  ghost predicate Described(lex: Lexicon, recs: seq<Record>, roots: seq<nat>, out: seq<Result>) {
    |out| == |roots| && forall k :: 0 <= k < |out| ==>
      IsClusterResult(lex, recs, ClusterSet(lex, recs, roots[k]), out[k])
  }

  lemma DescribedGrows(lex: Lexicon, recs: seq<Record>, roots: seq<nat>, out: seq<Result>, root: nat, r: Result)
    requires Described(lex, recs, roots, out) && IsClusterResult(lex, recs, ClusterSet(lex, recs, root), r)
    ensures Described(lex, recs, roots + [root], out + [r])
  {
  }

  ghost predicate ClusteringUpTo(lex: Lexicon, recs: seq<Record>, n: nat, out: seq<Result>)
    requires n <= |recs|
  {
    Described(lex, recs, Roots(lex, recs, n), out)
  }

  lemma ClusteringGrows(lex: Lexicon, recs: seq<Record>, n: nat, out: seq<Result>, more: seq<Result>)
    requires n < |recs| && ClusteringUpTo(lex, recs, n, out)
    requires if IsClusterRoot(lex, recs, n)
             then |more| == 1 && IsClusterResult(lex, recs, ClusterSet(lex, recs, n), more[0]) else more == []
    ensures ClusteringUpTo(lex, recs, n + 1, out + more)
  {
    if IsClusterRoot(lex, recs, n) {
      DescribedGrows(lex, recs, Roots(lex, recs, n), out, n, more[0]);
      assert more == [more[0]];
    } else {
      assert out + more == out && Roots(lex, recs, n + 1) == Roots(lex, recs, n);
    }
  }

  /** Cross-source clustering: exactly the connected components of two or more records, each described. */
  method ClusterRecords(lex: Lexicon, recs: seq<Record>) returns (out: seq<Result>)
    ensures IsClustering(lex, recs, out)
  {
    var n := |recs|;
    if n < 2 {
      NoRoots(lex, recs);
      return [];
    }
    var uf := new UnionFind(n);
    var strong := LinkStrong(lex, recs, uf);
    var weak, jaccard := LinkWeak(lex, recs, uf);
    ghost var E := uf.links;
    LinksSpanAll(lex, recs, strong, weak, E);
    var groups := CollectGroups(uf);
    out := DescribeAll(lex, recs, strong, weak, jaccard, groups, E);
  }

  /** The result of the cluster rooted at `root`, if there is one. */
  method DescribeRoot(lex: Lexicon, recs: seq<Record>, strong: Edges, weak: Edges, jaccard: Scores, groups: Groups,
                      root: nat, ghost E: Edges)
    returns (more: seq<Result>)
    requires root < |recs| && Linked(lex, recs, strong, weak, jaccard)
    requires GroupsUpTo(E, |recs|, |recs|, groups) && SameConnections(E, AllEdges(lex, recs))
    ensures if IsClusterRoot(lex, recs, root)
            then |more| == 1 && IsClusterResult(lex, recs, ClusterSet(lex, recs, root), more[0]) else more == []
  {
    RootsMatchGroups(lex, recs, E, groups, root);
    if root !in groups || |groups[root]| < 2 {
      return [];
    }
    ClusterIsLinkedSet(lex, recs, root);
    var r := Describe(lex, recs, groups[root], strong, weak, jaccard, ClusterSet(lex, recs, root));
    return [r];
  }

  method DescribeAll(lex: Lexicon, recs: seq<Record>, strong: Edges, weak: Edges, jaccard: Scores, groups: Groups,
                     ghost E: Edges)
    returns (out: seq<Result>)
    requires Linked(lex, recs, strong, weak, jaccard)
    requires GroupsUpTo(E, |recs|, |recs|, groups) && SameConnections(E, AllEdges(lex, recs))
    ensures ClusteringUpTo(lex, recs, |recs|, out)
  {
    out := [];
    for root: nat := 0 to |recs|
      invariant ClusteringUpTo(lex, recs, root, out)
    {
      var more := DescribeRoot(lex, recs, strong, weak, jaccard, groups, root, E);
      ClusteringGrows(lex, recs, root, out, more);
      out := out + more;
    }
  }

  ghost predicate SameConnections(E: Edges, F: Edges) {
    forall a: nat, b: nat :: Connected(E, a, b) <==> Connected(F, a, b)
  }

  lemma NoRoots(lex: Lexicon, recs: seq<Record>)
    requires |recs| < 2
    ensures Roots(lex, recs, |recs|) == []
  {
    if |recs| == 1 {
      var S := ClusterSet(lex, recs, 0);
      assert S <= {0};
      DistinctLength(Ascending(1, S), S);
      AscendingShort(1, S);
      assert !IsClusterRoot(lex, recs, 0);
      assert Roots(lex, recs, 0) == [];
    }
  }

  /** The united pairs connect what all links connect. */
  lemma LinksSpanAll(lex: Lexicon, recs: seq<Record>, strong: Edges, weak: Edges, E: Edges)
    requires Spans(strong, StrongEdges(lex, recs)) && E == strong + weak
    requires forall e :: e in weak <==> e in WeakEdges(lex, recs) && e.0 < e.1
    ensures SameConnections(E, AllEdges(lex, recs))
  {
    var A := AllEdges(lex, recs);
    forall e | e in A ensures Connected(E, e.0, e.1) {
      if e in StrongEdges(lex, recs) {
        Monotone(strong, E, e.0, e.1);
      } else {
        WeakLinksMirror(lex, recs, e.0, e.1);
        EdgeConnects(E, e.0, e.1);
      }
    }
    forall a: nat, b: nat ensures Connected(E, a, b) <==> Connected(A, a, b) {
      if Connected(E, a, b) { Monotone(E, A, a, b); }
      if Connected(A, a, b) { Absorb(A, E, a, b); }
    }
  }

  lemma RootsMatchGroups(lex: Lexicon, recs: seq<Record>, E: Edges, groups: Groups, root: nat)
    requires root < |recs| && GroupsUpTo(E, |recs|, |recs|, groups)
    requires SameConnections(E, AllEdges(lex, recs))
    ensures IsClusterRoot(lex, recs, root) <==> root in groups && |groups[root]| >= 2
    ensures root in groups ==> groups[root] == Ascending(|recs|, ClusterSet(lex, recs, root))
  {
    assert Component(E, |recs|, root) == ClusterSet(lex, recs, root);
    DistinctLength(Ascending(|recs|, ClusterSet(lex, recs, root)), ClusterSet(lex, recs, root));
  }
}
