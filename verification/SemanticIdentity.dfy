/** The cross-batch fingerprint of an event's title and day (cross_source_dedup.py, semantic_identity_fingerprint). */
module SemanticIdentity {
  import opened Clustering
  import opened Options
  import opened RecordKeys
  import opened Sorting
  import opened Texts

  const MIN_TOKENS := 4

  ghost predicate IsLeastOf(x: string, S: set<string>) {
    x in S && forall y :: y in S ==> TextLe(x, y)
  }

  lemma {:induction false} LeastExists(S: set<string>)
    requires S != {}
    ensures exists x :: IsLeastOf(x, S)
    decreases |S|
  {
    var x :| x in S;
    var others := S - {x};
    if others != {} {
      LeastExists(others);
      var m :| IsLeastOf(m, others);
      LeastOfMore(S, x, m);
    } else {
      assert S == {x};
      TextLeTotal(x, x);
      assert IsLeastOf(x, S);
    }
  }

  lemma LeastOfMore(S: set<string>, x: string, m: string)
    requires x in S && IsLeastOf(m, S - {x})
    ensures IsLeastOf(if TextLe(x, m) then x else m, S)
  {
    TextLeTotal(x, m);
    TextLeTotal(x, x);
    forall y | y in S && y != x ensures TextLe(m, y) && (TextLe(x, m) ==> TextLe(x, y)) {
      assert y in S - {x};
      if TextLe(x, m) { TextLeTransitive(x, m, y); }
    }
  }

  /** sorted(S) */
  ghost function SortedTexts(S: set<string>): (r: seq<string>)
    ensures forall x :: x in r <==> x in S
    ensures Sorted(TextLe, r)
    decreases |S|
  {
    if S == {} then []
    else
      LeastExists(S);
      var x :| IsLeastOf(x, S);
      var rest := SortedTexts(S - {x});
      LeastFirst(x, rest);
      [x] + rest
  }

  lemma LeastFirst(x: string, rest: seq<string>)
    requires Sorted(TextLe, rest) && forall y :: y in rest ==> TextLe(x, y)
    ensures Sorted(TextLe, [x] + rest)
  {
    assert forall i :: 0 <= i < |rest| ==> rest[i] in rest;
  }

  ghost function Basis(tokens: set<string>, day: string): string {
    JoinWith(SortedTexts(tokens), ' ') + "|" + day
  }

  /** None for a title of fewer than four telling words and for an unknown day. */
  ghost function Fingerprint(lex: Lexicon, title: string, observedAt: string): Option<string> {
    var tokens, day := lex.tokens(title), Day(lex, observedAt);
    if |tokens| < MIN_TOKENS || day == "" then None else Some("sem:" + lex.hash(Basis(tokens, day)))
  }

  /** The token pattern matches letters and digits only, and the digest is as good as injective. */
  ghost predicate Lawful(lex: Lexicon) {
    && (forall title, t :: t in lex.tokens(title) ==> ' ' !in t && '|' !in t)
    && (forall a, b :: lex.hash(a) == lex.hash(b) ==> a == b)
  }

  /** What stands before and after the first bar is determined by the whole. */
  lemma OneBar(a: string, b: string, x: string, y: string)
    requires '|' !in a && '|' !in b && a + "|" + x == b + "|" + y
    ensures a == b && x == y
  {
    var s := a + "|" + x;
    assert s[|a|] == '|' && s[|b|] == '|';
    assert a == s[..|a|] && b == s[..|b|];
    assert x == s[|a| + 1..] && y == s[|b| + 1..];
  }

  ghost predicate PlainWords(A: set<string>) {
    A != {} && forall t :: t in A ==> ' ' !in t && '|' !in t
  }

  lemma BasisIsInjective(A: set<string>, B: set<string>, x: string, y: string)
    requires PlainWords(A) && PlainWords(B) && Basis(A, x) == Basis(B, y)
    ensures A == B && x == y
  {
    var a, b := SortedTexts(A), SortedTexts(B);
    assert forall i :: 0 <= i < |a| ==> a[i] in a;
    assert forall i :: 0 <= i < |b| ==> b[i] in b;
    JoinKeepsOut(a, ' ', '|');
    JoinKeepsOut(b, ' ', '|');
    OneBar(JoinWith(a, ' '), JoinWith(b, ' '), x, y);
    assert a != [] && b != [];
    SplitJoin(a, ' ');
    SplitJoin(b, ' ');
    assert a == b;
  }

  lemma SameDigest(lex: Lexicon, a: string, b: string)
    requires Lawful(lex) && "sem:" + lex.hash(a) == "sem:" + lex.hash(b)
    ensures a == b
  {
    var f, g := "sem:" + lex.hash(a), "sem:" + lex.hash(b);
    assert f[4..] == lex.hash(a) && g[4..] == lex.hash(b);
  }

  /** Two events share a fingerprint exactly if their titles have the same four or more telling words,
      in whatever order, and they fall on the same known day. */
  lemma SameFingerprintIff(lex: Lexicon, t: string, at: string, u: string, bt: string)
    requires Lawful(lex)
    ensures Fingerprint(lex, t, at).Some? && Fingerprint(lex, t, at) == Fingerprint(lex, u, bt) <==>
      && |lex.tokens(t)| >= 4 && lex.tokens(t) == lex.tokens(u)
      && Day(lex, at) != "" && Day(lex, at) == Day(lex, bt)
  {
    if Fingerprint(lex, t, at).Some? && Fingerprint(lex, t, at) == Fingerprint(lex, u, bt) {
      TokensArePlain(lex, t);
      TokensArePlain(lex, u);
      SameBasis(lex, lex.tokens(t), lex.tokens(u), Day(lex, at), Day(lex, bt));
    }
  }

  lemma TokensArePlain(lex: Lexicon, title: string)
    requires Lawful(lex) && |lex.tokens(title)| >= MIN_TOKENS
    ensures PlainWords(lex.tokens(title))
  {
  }

  lemma SameBasis(lex: Lexicon, A: set<string>, B: set<string>, x: string, y: string)
    requires Lawful(lex) && PlainWords(A) && PlainWords(B)
    requires "sem:" + lex.hash(Basis(A, x)) == "sem:" + lex.hash(Basis(B, y))
    ensures A == B && x == y
  {
    SameDigest(lex, Basis(A, x), Basis(B, y));
    BasisIsInjective(A, B, x, y);
  }

  /** So it never links what the clustering's weak signal would not: a shared fingerprint is a weak link. */
  lemma FingerprintsAreWeakLinks(lex: Lexicon, r: Record, s: Record)
    requires Lawful(lex) && forall title :: lex.tokens(title) != {} ==> NormTitle(lex, title) != ""
    requires Fingerprint(lex, r.title, r.observedAt).Some?
    requires Fingerprint(lex, r.title, r.observedAt) == Fingerprint(lex, s.title, s.observedAt)
    ensures WeakLinked(lex, r, s)
  {
    SameFingerprintIff(lex, r.title, r.observedAt, s.title, s.observedAt);
    var a := lex.tokens(r.title);
    assert a != {} && a * a == a && a + a == a;
  }
}
