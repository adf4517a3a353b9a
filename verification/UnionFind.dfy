/** The union-find of cross_source_dedup.py: path halving, least index as root. */
module UnionFinds {
  import opened Connectivity

  /** Parents never point upwards, so every chain of parents ends in a root. */
  ghost predicate Forest(p: seq<nat>) {
    forall i :: 0 <= i < |p| ==> p[i] <= i
  }

  ghost function Root(p: seq<nat>, x: nat): (r: nat)
    requires Forest(p) && x < |p|
    ensures r <= x && p[r] == r
    decreases x
  {
    if p[x] == x then x else Root(p, p[x])
  }

  ghost predicate SameTree(p: seq<nat>, a: nat, b: nat)
    requires Forest(p) && a < |p| && b < |p|
  {
    Root(p, a) == Root(p, b)
  }

  /** The trees of p are the connected components of E. */
  ghost predicate Represents(p: seq<nat>, E: Edges) {
    && Forest(p) && Within(E, |p|)
    && forall a: nat, b: nat :: a < |p| && b < |p| ==> (SameTree(p, a, b) <==> Connected(E, a, b))
  }

  /** Halving one parent link changes no root. */
  lemma {:induction false} HalvingKeepsRoots(p: seq<nat>, x: nat, y: nat)
    requires Forest(p) && x < |p| && y < |p|
    ensures Forest(p[x := p[p[x]]])
    ensures Root(p[x := p[p[x]]], y) == Root(p, y)
    decreases y
  {
    var q := p[x := p[p[x]]];
    if q[y] != y {
      HalvingKeepsRoots(p, x, q[y]);
    }
  }

  /** Hanging the root hi below the root lo moves exactly hi's tree. */
  lemma {:induction false} LinkMovesOneTree(p: seq<nat>, lo: nat, hi: nat, y: nat)
    requires Forest(p) && lo < hi < |p| && y < |p| && p[lo] == lo && p[hi] == hi
    ensures Forest(p[hi := lo])
    ensures Root(p[hi := lo], y) == if Root(p, y) == hi then lo else Root(p, y)
    decreases y
  {
    if y != hi && p[y] != y {
      LinkMovesOneTree(p, lo, hi, p[y]);
    }
  }

  lemma HalvingKeepsRepresents(p: seq<nat>, E: Edges, x: nat)
    requires Represents(p, E) && x < |p|
    ensures Represents(p[x := p[p[x]]], E)
  {
    var q := p[x := p[p[x]]];
    HalvingKeepsRoots(p, x, x);
    forall a: nat, b: nat | a < |p| && b < |p|
      ensures SameTree(q, a, b) <==> Connected(E, a, b)
    {
      HalvingKeepsRoots(p, x, a);
      HalvingKeepsRoots(p, x, b);
      assert SameTree(p, a, b) <==> Connected(E, a, b);
    }
  }

  /** In a forest that represents E, a root is the least vertex of its component. */
  lemma RootIsLeast(p: seq<nat>, E: Edges, x: nat)
    requires Represents(p, E) && x < |p|
    ensures IsLeastConnected(E, |p|, x, Root(p, x))
  {
    var r := Root(p, x);
    assert SameTree(p, x, r);
    forall y: nat | y < |p| && Connected(E, x, y) ensures r <= y {
      assert SameTree(p, x, y);
    }
  }

  /** Linking the roots of a and b adds exactly the edge (a, b). */
  lemma LinkAddsEdge(p: seq<nat>, E: Edges, a: nat, b: nat, lo: nat, hi: nat)
    requires Represents(p, E) && a < |p| && b < |p| && lo < hi < |p|
    requires (Root(p, a) == lo && Root(p, b) == hi) || (Root(p, a) == hi && Root(p, b) == lo)
    ensures Represents(p[hi := lo], E + {(a, b)})
  {
    var q, F := p[hi := lo], E + {(a, b)};
    LinkMovesOneTree(p, lo, hi, a);
    forall u: nat, v: nat | u < |p| && v < |p|
      ensures SameTree(q, u, v) <==> Connected(F, u, v)
    {
      LinkMovesOneTree(p, lo, hi, u);
      LinkMovesOneTree(p, lo, hi, v);
      if SameTree(q, u, v) {
        SameTreeConnects(p, E, a, b, u, v);
      }
      if Connected(F, u, v) {
        var S := iset y: nat | y < |p| && SameTree(q, u, y);
        forall e | e in F ensures e.0 in S <==> e.1 in S {
          LinkMovesOneTree(p, lo, hi, e.0);
          LinkMovesOneTree(p, lo, hi, e.1);
          if e in E {
            EdgeConnects(E, e.0, e.1);
            assert SameTree(p, e.0, e.1);
          }
        }
        ClosedSetTraps(F, u, v, S);
      }
    }
  }

  /** Two vertices whose old trees are equal, or are the trees of a and b, are connected once (a, b) is an edge. */
  lemma SameTreeConnects(p: seq<nat>, E: Edges, a: nat, b: nat, u: nat, v: nat)
    requires Represents(p, E) && a < |p| && b < |p| && u < |p| && v < |p|
    requires SameTree(p, u, v) || (SameTree(p, u, a) && SameTree(p, b, v)) || (SameTree(p, u, b) && SameTree(p, a, v))
    ensures Connected(E + {(a, b)}, u, v)
  {
    var F := E + {(a, b)};
    EdgeConnects(F, a, b);
    if SameTree(p, u, v) {
      Monotone(E, F, u, v);
    } else if SameTree(p, u, a) && SameTree(p, b, v) {
      Monotone(E, F, u, a);
      Monotone(E, F, b, v);
      Transitive(F, u, a, b);
      Transitive(F, u, b, v);
    } else {
      Monotone(E, F, u, b);
      Monotone(E, F, a, v);
      Transitive(F, u, b, a);
      Transitive(F, u, a, v);
    }
  }

  lemma SameTreeAbsorbsEdge(p: seq<nat>, E: Edges, a: nat, b: nat)
    requires Represents(p, E) && a < |p| && b < |p| && SameTree(p, a, b)
    ensures Represents(p, E + {(a, b)})
  {
    var F := E + {(a, b)};
    forall u: nat, v: nat | u < |p| && v < |p|
      ensures SameTree(p, u, v) <==> Connected(F, u, v)
    {
      if SameTree(p, u, v) {
        Monotone(E, F, u, v);
      }
      if Connected(F, u, v) {
        forall e | e in F ensures Connected(E, e.0, e.1) {
          if e in E { EdgeConnects(E, e.0, e.1); }
        }
        Absorb(F, E, u, v);
      }
    }
  }

  class UnionFind {
    const parent: array<nat>
    ghost var links: Edges  // the edges united so far

    ghost predicate Valid()
      reads this, parent
    {
      Represents(parent[..], links)
    }

    constructor (n: nat)
      ensures Valid() && fresh(parent) && parent.Length == n && links == {}
    {
      parent := new nat[n](i => i);
      links := {};
      new;
      forall a: nat, b: nat | a < n && b < n ensures SameTree(parent[..], a, b) <==> Connected({}, a, b) {
        if Connected({}, a, b) {
          ClosedSetTraps({}, a, b, iset{a});
        }
        Reflexive({}, a);
      }
    }

    /** The least index connected to x. Rewrites parents on the way, changes no component. */
    method Find(x: nat) returns (r: nat)
      requires Valid() && x < parent.Length
      modifies parent
      ensures Valid()
      ensures IsLeastConnected(links, parent.Length, x, r)
      ensures parent[r] == r && Root(parent[..], x) == r
      ensures forall y: nat :: y < parent.Length && old(parent[y]) == y ==> parent[y] == y
    {
      r := x;
      while parent[r] != r
        invariant r < parent.Length && Valid()
        invariant Root(parent[..], r) == Root(parent[..], x)
        invariant forall y: nat :: y < parent.Length && old(parent[y]) == y ==> parent[y] == y
        decreases r
      {
        ghost var p := parent[..];
        HalvingKeepsRepresents(p, links, r);
        HalvingKeepsRoots(p, r, r);
        HalvingKeepsRoots(p, r, x);
        parent[r] := parent[parent[r]];
        assert parent[..] == p[r := p[p[r]]];
        r := parent[r];
      }
      RootIsLeast(parent[..], links, x);
    }

    method Union(a: nat, b: nat)
      requires Valid() && a < parent.Length && b < parent.Length
      modifies this, parent
      ensures Valid() && links == old(links) + {(a, b)}
    {
      var ra := Find(a);
      var rb := Find(b);
      ghost var p := parent[..];
      RootIsLeast(p, links, a);
      if ra != rb {
        var lo, hi := if ra < rb then ra else rb, if ra < rb then rb else ra;
        LinkAddsEdge(p, links, a, b, lo, hi);
        parent[hi] := lo;
        assert parent[..] == p[hi := lo];
      } else {
        SameTreeAbsorbsEdge(p, links, a, b);
      }
      links := links + {(a, b)};
    }
  }
}
