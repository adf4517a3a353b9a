/** Undirected connectivity over numbered vertices: the vocabulary in which
    clustering results are specified, independent of any union-find. */
module Connectivity {

  type Edges = set<(nat, nat)>

  ghost predicate Adjacent(E: Edges, u: nat, v: nat) {
    (u, v) in E || (v, u) in E
  }

  ghost predicate IsPath(E: Edges, p: seq<nat>, a: nat, b: nat) {
    && |p| > 0 && p[0] == a && p[|p| - 1] == b
    && forall k :: 0 <= k < |p| - 1 ==> Adjacent(E, p[k], p[k + 1])
  }

  /** There is a chain of edges of E, walked in either direction, from a to b. */
  ghost predicate Connected(E: Edges, a: nat, b: nat) {
    exists p :: IsPath(E, p, a, b)
  }

  ghost predicate Within(E: Edges, n: nat) {
    forall e :: e in E ==> e.0 < n && e.1 < n
  }

  /** r is the least vertex below n that E connects to x. */
  ghost predicate IsLeastConnected(E: Edges, n: nat, x: nat, r: nat) {
    r < n && Connected(E, x, r) && forall y: nat :: y < n && Connected(E, x, y) ==> r <= y
  }

  lemma Reflexive(E: Edges, a: nat)
    ensures Connected(E, a, a)
  {
    assert IsPath(E, [a], a, a);
  }

  lemma Symmetric(E: Edges, a: nat, b: nat)
    requires Connected(E, a, b)
    ensures Connected(E, b, a)
  {
    var p :| IsPath(E, p, a, b);
    var q := seq(|p|, i requires 0 <= i < |p| => p[|p| - 1 - i]);
    forall k | 0 <= k < |q| - 1 ensures Adjacent(E, q[k], q[k + 1]) {
      assert Adjacent(E, p[|p| - 2 - k], p[|p| - 2 - k + 1]);
    }
    assert IsPath(E, q, b, a);
  }

  lemma Transitive(E: Edges, a: nat, b: nat, c: nat)
    requires Connected(E, a, b) && Connected(E, b, c)
    ensures Connected(E, a, c)
  {
    var p :| IsPath(E, p, a, b);
    var q :| IsPath(E, q, b, c);
    var r := p + q[1..];
    forall k | 0 <= k < |r| - 1 ensures Adjacent(E, r[k], r[k + 1]) {
      if k < |p| - 1 {
        assert Adjacent(E, p[k], p[k + 1]);
      } else {
        assert r[k] == q[k - |p| + 1];
        assert Adjacent(E, q[k - |p| + 1], q[k - |p| + 2]);
      }
    }
    assert IsPath(E, r, a, c);
  }

  lemma EdgeConnects(E: Edges, a: nat, b: nat)
    requires Adjacent(E, a, b)
    ensures Connected(E, a, b) && Connected(E, b, a)
  {
    assert IsPath(E, [a, b], a, b);
    assert IsPath(E, [b, a], b, a);
  }

  /** A set no edge leaves contains everything connected to one of its members. */
  lemma ClosedSetTraps(E: Edges, a: nat, b: nat, S: iset<nat>)
    requires Connected(E, a, b) && a in S
    requires forall e :: e in E ==> (e.0 in S <==> e.1 in S)
    ensures b in S
  {
    var p :| IsPath(E, p, a, b);
    var k := 0;
    while k < |p| - 1
      invariant 0 <= k < |p| && p[k] in S
    {
      assert Adjacent(E, p[k], p[k + 1]);
      k := k + 1;
    }
  }

  /** Edges whose ends F already connects add nothing to F. */
  lemma Absorb(E: Edges, F: Edges, a: nat, b: nat)
    requires Connected(E, a, b)
    requires forall e :: e in E ==> Connected(F, e.0, e.1)
    ensures Connected(F, a, b)
  {
    var S := iset y: nat | Connected(F, a, y);
    Reflexive(F, a);
    forall e | e in E ensures e.0 in S <==> e.1 in S {
      Symmetric(F, e.0, e.1);
      if e.0 in S { Transitive(F, a, e.0, e.1); }
      if e.1 in S { Transitive(F, a, e.1, e.0); }
    }
    ClosedSetTraps(E, a, b, S);
  }

  lemma Monotone(E: Edges, F: Edges, a: nat, b: nat)
    requires E <= F && Connected(E, a, b)
    ensures Connected(F, a, b)
  {
    forall e | e in E ensures Connected(F, e.0, e.1) {
      EdgeConnects(F, e.0, e.1);
    }
    Absorb(E, F, a, b);
  }

  ghost function Component(E: Edges, n: nat, x: nat): set<nat> {
    set y: nat | y < n && Connected(E, x, y)
  }

  lemma SameComponent(E: Edges, n: nat, x: nat, y: nat)
    requires Connected(E, x, y)
    ensures Component(E, n, x) == Component(E, n, y)
  {
    Symmetric(E, x, y);
    forall z: nat ensures Connected(E, x, z) <==> Connected(E, y, z) {
      if Connected(E, x, z) { Transitive(E, y, x, z); }
      if Connected(E, y, z) { Transitive(E, x, y, z); }
    }
  }

  /** A map of vertices that carries every edge of E to F-connected vertices carries E-connectivity to F. */
  lemma Transport(E: Edges, F: Edges, f: nat -> nat, a: nat, b: nat)
    requires Connected(E, a, b)
    requires forall e :: e in E ==> Connected(F, f(e.0), f(e.1))
    ensures Connected(F, f(a), f(b))
  {
    var S := iset y: nat | Connected(F, f(a), f(y));
    Reflexive(F, f(a));
    forall e | e in E ensures e.0 in S <==> e.1 in S {
      Symmetric(F, f(e.0), f(e.1));
      if e.0 in S { Transitive(F, f(a), f(e.0), f(e.1)); }
      if e.1 in S { Transitive(F, f(a), f(e.1), f(e.0)); }
    }
    ClosedSetTraps(E, a, b, S);
  }

  /** Inside a set no edge leaves, the edges inside it already connect all that E connects. */
  lemma Restrict(E: Edges, S: set<nat>, a: nat, b: nat)
    requires Connected(E, a, b) && a in S
    requires forall e :: e in E ==> (e.0 in S <==> e.1 in S)
    ensures b in S && Connected((set e | e in E && e.0 in S && e.1 in S), a, b)
  {
    var F := set e | e in E && e.0 in S && e.1 in S;
    var T := iset y: nat | y in S && Connected(F, a, y);
    Reflexive(F, a);
    forall e | e in E ensures e.0 in T <==> e.1 in T {
      if e.0 in S {
        EdgeConnects(F, e.0, e.1);
        if e.0 in T { Transitive(F, a, e.0, e.1); }
        if e.1 in T { Transitive(F, a, e.1, e.0); }
      }
    }
    ClosedSetTraps(E, a, b, T);
  }
}
