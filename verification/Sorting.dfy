/** Order of text and stable sorting, as the Python built-ins `<` on str and `sorted` define them. */
module Sorting {

  /** Lexicographic order by code point. */
  predicate TextLe(a: string, b: string) {
    |a| == 0 || (|b| > 0 && (a[0] < b[0] || (a[0] == b[0] && TextLe(a[1..], b[1..]))))
  }

  lemma {:induction false} TextLeTotal(a: string, b: string)
    ensures TextLe(a, b) || TextLe(b, a)
    decreases |a|
  {
    if |a| > 0 && |b| > 0 && a[0] == b[0] { TextLeTotal(a[1..], b[1..]); }
  }

  lemma {:induction false} TextLeAntisymmetric(a: string, b: string)
    requires TextLe(a, b) && TextLe(b, a)
    ensures a == b
    decreases |a|
  {
    if |a| > 0 {
      TextLeAntisymmetric(a[1..], b[1..]);
      assert a == [a[0]] + a[1..] && b == [b[0]] + b[1..];
    }
  }

  lemma {:induction false} TextLeTransitive(a: string, b: string, c: string)
    requires TextLe(a, b) && TextLe(b, c)
    ensures TextLe(a, c)
    decreases |a|
  {
    if |a| > 0 && a[0] == b[0] == c[0] { TextLeTransitive(a[1..], b[1..], c[1..]); }
  }

  /** a stands before b in a dictionary by code point, or they are equal. */
  predicate InDictionaryOrder(a: string, b: string) {
    a <= b || exists k :: 0 <= k < |a| && k < |b| && a[..k] == b[..k] && a[k] < b[k]
  }

  lemma {:induction false} TextLeIff(a: string, b: string)
    ensures TextLe(a, b) <==> InDictionaryOrder(a, b)
    decreases |a|
  {
    if a != "" && b != "" && a[0] == b[0] {
      TextLeIff(a[1..], b[1..]);
      OrderOfRest(a, b);
    } else if a != "" && b != "" {
      if a[0] < b[0] { assert a[..0] == b[..0]; }
      if k :| 0 <= k < |a| && k < |b| && a[..k] == b[..k] && a[k] < b[k] {
        if k > 0 { assert a[..k][0] == b[..k][0]; }
      }
    }
  }

  lemma OrderOfRest(a: string, b: string)
    requires a != "" && b != "" && a[0] == b[0]
    ensures InDictionaryOrder(a[1..], b[1..]) <==> InDictionaryOrder(a, b)
  {
    assert a == [a[0]] + a[1..] && b == [b[0]] + b[1..];
    if k :| 0 <= k < |a| && k < |b| && a[..k] == b[..k] && a[k] < b[k] {
      assert a[1..][..k - 1] == a[..k][1..] && b[1..][..k - 1] == b[..k][1..];
      assert a[1..][k - 1] < b[1..][k - 1];
    }
    if k :| 0 <= k < |a[1..]| && k < |b[1..]| && a[1..][..k] == b[1..][..k] && a[1..][k] < b[1..][k] {
      assert a[..k + 1] == [a[0]] + a[1..][..k] && b[..k + 1] == [b[0]] + b[1..][..k];
      assert a[k + 1] < b[k + 1];
    }
  }

  ghost predicate TotalPreorder<T(!new)>(le: (T, T) -> bool) {
    && (forall a, b :: le(a, b) || le(b, a))
    && (forall a, b, c :: le(a, b) && le(b, c) ==> le(a, c))
  }

  ghost predicate TotalOrder<T(!new)>(le: (T, T) -> bool) {
    TotalPreorder(le) && forall a, b :: le(a, b) && le(b, a) ==> a == b
  }

  lemma TextLeIsTotalOrder()
    ensures TotalOrder(TextLe)
  {
    forall a, b ensures TextLe(a, b) || TextLe(b, a) { TextLeTotal(a, b); }
    forall a, b | TextLe(a, b) && TextLe(b, a) ensures a == b { TextLeAntisymmetric(a, b); }
    forall a, b, c | TextLe(a, b) && TextLe(b, c) ensures TextLe(a, c) { TextLeTransitive(a, b, c); }
  }

  ghost predicate Sorted<T>(le: (T, T) -> bool, s: seq<T>) {
    forall i, j :: 0 <= i < j < |s| ==> le(s[i], s[j])
  }

  /** x goes before the first element that is not smaller. */
  function Insert<T>(le: (T, T) -> bool, x: T, s: seq<T>): (r: seq<T>)
    ensures multiset(r) == multiset(s) + multiset{x} && |r| == |s| + 1
  {
    if s == [] || le(x, s[0]) then [x] + s
    else
      assert s == [s[0]] + s[1..];
      [s[0]] + Insert(le, x, s[1..])
  }

  /** The stable sort. */
  function Sort<T>(le: (T, T) -> bool, s: seq<T>): (r: seq<T>)
    ensures multiset(r) == multiset(s) && |r| == |s|
  {
    if s == [] then []
    else
      assert s == [s[0]] + s[1..];
      Insert(le, s[0], Sort(le, s[1..]))
  }

  lemma {:induction false} InsertKeepsSorted<T(!new)>(le: (T, T) -> bool, x: T, s: seq<T>)
    requires TotalPreorder(le) && Sorted(le, s)
    ensures Sorted(le, Insert(le, x, s))
    decreases |s|
  {
    if s != [] && !le(x, s[0]) {
      InsertKeepsSorted(le, x, s[1..]);
      var t := Insert(le, x, s[1..]);
      assert s == [s[0]] + s[1..];
      forall j | 0 <= j < |t| ensures le(s[0], t[j]) {
        assert t[j] in multiset(t);
        if t[j] != x { assert t[j] in s[1..]; }
      }
    }
  }

  lemma {:induction false} SortSorts<T(!new)>(le: (T, T) -> bool, s: seq<T>)
    requires TotalPreorder(le)
    ensures Sorted(le, Sort(le, s))
    decreases |s|
  {
    if s != [] {
      SortSorts(le, s[1..]);
      InsertKeepsSorted(le, s[0], Sort(le, s[1..]));
    }
  }

  /** Under an antisymmetric order the sorted arrangement of a multiset is unique. */
  lemma {:induction false} SortedUnique<T(!new)>(le: (T, T) -> bool, s: seq<T>, t: seq<T>)
    requires TotalOrder(le) && Sorted(le, s) && Sorted(le, t) && multiset(s) == multiset(t)
    ensures s == t
    decreases |s|
  {
    assert |s| == |multiset(s)| && |t| == |multiset(t)|;
    if s != [] {
      SameLeast(le, s, t);
      RestOf(s);
      RestOf(t);
      SortedUnique(le, s[1..], t[1..]);
    }
  }

  lemma RestOf<T>(s: seq<T>)
    requires s != []
    ensures s == [s[0]] + s[1..] && multiset(s[1..]) == multiset(s) - multiset{s[0]}
  {
    assert s == [s[0]] + s[1..];
  }

  lemma SameLeast<T(!new)>(le: (T, T) -> bool, s: seq<T>, t: seq<T>)
    requires TotalOrder(le) && Sorted(le, s) && Sorted(le, t) && multiset(s) == multiset(t) && s != [] && t != []
    ensures s[0] == t[0]
  {
    assert s[0] in multiset(s) && t[0] in multiset(t);
    assert s[0] in t && t[0] in s;
    assert le(s[0], t[0]) && le(t[0], s[0]);
  }

  /** Sorting what is already sorted changes nothing. */
  lemma SortIsStable<T(!new)>(le: (T, T) -> bool, s: seq<T>)
    requires TotalOrder(le) && Sorted(le, s)
    ensures Sort(le, s) == s
  {
    SortSorts(le, s);
    SortedUnique(le, Sort(le, s), s);
  }

  function Map<S, T>(f: S -> T, s: seq<S>): (r: seq<T>)
    ensures |r| == |s| && forall i :: 0 <= i < |s| ==> r[i] == f(s[i])
  {
    seq(|s|, i requires 0 <= i < |s| => f(s[i]))
  }

  lemma MapPullsOut<S, T>(f: S -> T, a: seq<S>, x: S, b: seq<S>)
    ensures multiset(Map(f, a + [x] + b)) == multiset{f(x)} + multiset(Map(f, a + b))
  {
    assert Map(f, a + [x] + b) == Map(f, a) + [f(x)] + Map(f, b);
    assert Map(f, a + b) == Map(f, a) + Map(f, b);
  }

  lemma PullOut<S>(s: seq<S>, k: nat)
    requires k < |s|
    ensures s == s[..k] + [s[k]] + s[k + 1..]
    ensures multiset(s[..k] + s[k + 1..]) == multiset(s) - multiset{s[k]}
  {
    assert s == s[..k] + [s[k]] + s[k + 1..];
  }

  /** Mapping a rearrangement gives a rearrangement of the mapped sequence. */
  lemma {:induction false} MapKeepsMultiset<S, T>(f: S -> T, s: seq<S>, t: seq<S>)
    requires multiset(s) == multiset(t)
    ensures multiset(Map(f, s)) == multiset(Map(f, t))
    decreases |s|
  {
    if s == [] {
      assert |multiset(t)| == 0;
      assert t == [];
    } else {
      assert s[0] in multiset(t);
      var k :| 0 <= k < |t| && t[k] == s[0];
      PullOut(s, 0);
      PullOut(t, k);
      MapKeepsMultiset(f, s[..0] + s[1..], t[..k] + t[k + 1..]);
      MapPullsOut(f, s[..0], s[0], s[1..]);
      MapPullsOut(f, t[..k], t[k], t[k + 1..]);
    }
  }

  ghost predicate Distinct<T>(s: seq<T>) {
    forall i, j :: 0 <= i < j < |s| ==> s[i] != s[j]
  }

  /** Two repetition-free sequences with the same elements are rearrangements of each other. */
  lemma SameElements<T>(s: seq<T>, t: seq<T>)
    requires Distinct(s) && Distinct(t)
    requires forall x :: x in s <==> x in t
    ensures multiset(s) == multiset(t)
  {
    DistinctCounts(s);
    DistinctCounts(t);
    forall x ensures multiset(s)[x] == multiset(t)[x] {
      assert x in s <==> x in t;
    }
  }

  lemma {:induction false} DistinctCounts<T>(s: seq<T>)
    requires Distinct(s)
    ensures forall x :: multiset(s)[x] == if x in s then 1 else 0
    decreases |s|
  {
    if s != [] {
      assert s == [s[0]] + s[1..];
      DistinctCounts(s[1..]);
      assert multiset(s) == multiset{s[0]} + multiset(s[1..]);
    }
  }

  lemma {:induction false} InsertKeepsTies<T(!new)>(le: (T, T) -> bool, tie: (T, T) -> bool, x: T, s: seq<T>)
    requires TotalPreorder(le)
    requires Sorted((a, b) => le(a, b) && (le(b, a) ==> tie(a, b)), s)
    requires forall y :: y in s ==> tie(x, y)
    ensures Sorted((a, b) => le(a, b) && (le(b, a) ==> tie(a, b)), Insert(le, x, s))
    decreases |s|
  {
    if s != [] && !le(x, s[0]) {
      InsertKeepsTies(le, tie, x, s[1..]);
      var t := Insert(le, x, s[1..]);
      assert s == [s[0]] + s[1..];
      forall j | 0 <= j < |t| ensures le(s[0], t[j]) && (le(t[j], s[0]) ==> tie(s[0], t[j])) {
        assert t[j] in multiset(t);
        if t[j] != x { assert t[j] in s[1..]; }
      }
    }
  }

  /** Stability: elements that le does not separate keep the order `tie` they came in. */
  lemma {:induction false} SortKeepsTies<T(!new)>(le: (T, T) -> bool, tie: (T, T) -> bool, s: seq<T>)
    requires TotalPreorder(le) && Sorted(tie, s)
    ensures Sorted((a, b) => le(a, b) && (le(b, a) ==> tie(a, b)), Sort(le, s))
    decreases |s|
  {
    if s != [] {
      SortKeepsTies(le, tie, s[1..]);
      forall y | y in Sort(le, s[1..]) ensures tie(s[0], y) {
        assert y in multiset(s[1..]);
      }
      InsertKeepsTies(le, tie, s[0], Sort(le, s[1..]));
    }
  }

  /** The least text of a non-empty list, as `min` finds it. */
  function MinText(ss: seq<string>): (r: string)
    requires |ss| > 0
    ensures r in ss && forall s :: s in ss ==> TextLe(r, s)
  {
    TextLeIsTotalOrder();
    if |ss| == 1 then ss[0]
    else
      assert ss == [ss[0]] + ss[1..];
      var m := MinText(ss[1..]);
      if TextLe(ss[0], m) then ss[0] else m
  }

  lemma MinTextOfSameElements(s: seq<string>, t: seq<string>)
    requires |s| > 0 && |t| > 0 && forall x :: x in s <==> x in t
    ensures MinText(s) == MinText(t)
  {
    TextLeAntisymmetric(MinText(s), MinText(t));
  }

  /** The members of S below n, in ascending order. */
  function Ascending(n: nat, S: set<nat>): (r: seq<nat>)
    ensures forall x :: x in r <==> x in S && x < n
    ensures forall i, j :: 0 <= i < j < |r| ==> r[i] < r[j]
  {
    if n == 0 then []
    else
      var below := Ascending(n - 1, S);
      assert forall i :: 0 <= i < |below| ==> below[i] in below;
      if n - 1 in S then below + [n - 1] else below
  }

  lemma SubsetCardinality<T>(a: set<T>, b: set<T>)
    requires a <= b
    ensures |a| <= |b|
  {
    assert b == a + (b - a);
  }

  lemma {:induction false} DistinctLength<T>(s: seq<T>, S: set<T>)
    requires Distinct(s) && forall x :: x in s <==> x in S
    ensures |s| == |S|
    decreases |s|
  {
    if s == [] {
      assert S == {};
    } else {
      assert s == [s[0]] + s[1..];
      DistinctLength(s[1..], S - {s[0]});
    }
  }
}
