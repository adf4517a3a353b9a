/** Card texts without a language model, and the sentinels that must not show in them (agents/nodes/baselines.py). */
module CardTexts {
  import opened Texts

  /** What the regex engine, Unicode casing and two word lists compute. */
  datatype Lexis = Lexis(
    lowerChar: char -> string,
    properNouns: string -> seq<string>,  // the matches of the proper-noun pattern, left to right
    isStopword: string -> bool,          // on lower-cased tokens
    isNoise: string -> bool)

  const SENTINELS := ["[mock", "[fallback", "[skip", "[no title]"]

  predicate IsStop(c: char) {
    c == '.' || c == '!' || c == '?'
  }

  /** The pattern's characters: letters, digits, & . - and the whitespace between words. */
  predicate IsNounChar(c: char) {
    'A' <= c <= 'Z' || 'a' <= c <= 'z' || '0' <= c <= '9' || c == '&' || c == '.' || c == '-' || IsSpace(c)
  }

  /** Lower-casing leaves sentence ends and the space alone and makes no bracket; the pattern matches only
      its characters. */
  ghost predicate Lawful(lx: Lexis) {
    && lx.lowerChar(' ') == " "
    && (forall c :: IsStop(c) ==> lx.lowerChar(c) == [c])
    && (forall c :: c != '[' ==> '[' !in lx.lowerChar(c))
    && (forall text, m :: m in lx.properNouns(text) ==> forall i :: 0 <= i < |m| ==> IsNounChar(m[i]))
  }

  function Lower(lx: Lexis, s: string): string {
    if s == "" then "" else lx.lowerChar(s[0]) + Lower(lx, s[1..])
  }

  /** contains_mock_sentinel of one text. */
  predicate Marked(lx: Lexis, text: string) {
    exists m :: m in SENTINELS && Contains(Lower(lx, text), m)
  }

  // ---- No part and no joint of unmarked texts is marked ----

  /** All that matters about a sentinel: it opens with a bracket and holds no sentence end. */
  predicate Bracketed(m: string) {
    m != "" && m[0] == '[' && forall i :: 0 <= i < |m| ==> !IsStop(m[i])
  }

  lemma SentinelsAreBracketed()
    ensures forall m :: m in SENTINELS ==> Bracketed(m)
  {
    assert Bracketed("[mock") && Bracketed("[fallback") && Bracketed("[skip") && Bracketed("[no title]");
  }

  lemma {:induction false} LowerConcat(lx: Lexis, a: string, b: string)
    ensures Lower(lx, a + b) == Lower(lx, a) + Lower(lx, b)
    decreases |a|
  {
    if a == "" {
      assert a + b == b;
    } else {
      LowerConcat(lx, a[1..], b);
      assert (a + b)[1..] == a[1..] + b;
    }
  }

  lemma ContainsGrows(a: string, b: string, c: string, m: string)
    requires Contains(b, m)
    ensures Contains(a + b + c, m)
  {
    var k :| 0 <= k <= |b| && StartsWith(b[k..], m);
    var s := a + b + c;
    assert s[|a| + k..] == b[k..] + c;
    assert StartsWith(s[|a| + k..], m);
  }

  lemma PartIsUnmarked(lx: Lexis, a: string, b: string, c: string)
    requires !Marked(lx, a + b + c)
    ensures !Marked(lx, b)
  {
    LowerConcat(lx, a + b, c);
    LowerConcat(lx, a, b);
    forall m | m in SENTINELS ensures !Contains(Lower(lx, b), m) {
      if Contains(Lower(lx, b), m) {
        ContainsGrows(Lower(lx, a), Lower(lx, b), Lower(lx, c), m);
      }
    }
  }

  lemma EndsBeforeStop(s: string, m: string, k: nat, stop: nat)
    requires Bracketed(m) && k <= stop < |s| && StartsWith(s[k..], m) && IsStop(s[stop])
    ensures k + |m| <= stop
  {
    forall j | k <= j < k + |m| ensures !IsStop(s[j]) {
      assert s[k..][j - k] == m[j - k];
    }
  }

  /** After a sentence end and a space nothing bracketed can span the joint. */
  lemma JointHoldsNothing(a: string, b: string, m: string, k: nat)
    requires Bracketed(m) && a != "" && IsStop(a[|a| - 1])
    requires k <= |a| + 1 + |b| && StartsWith((a + " " + b)[k..], m)
    ensures Contains(a, m) || Contains(b, m)
  {
    var s := a + " " + b;
    assert s[k] == m[0];
    if k > |a| {
      var j := k - |a| - 1;
      assert s[k..] == b[j..];
      assert StartsWith(b[j..], m);
    } else {
      var last := |a| - 1;
      assert s[last] == a[last];
      if k <= last {
        EndsBeforeStop(s, m, k, last);
      }
      assert a[k..] == s[k..][..|a| - k];
      assert StartsWith(a[k..], m);
    }
  }

  lemma JoinIsUnmarked(lx: Lexis, a: string, b: string)
    requires Lawful(lx) && a != "" && IsStop(a[|a| - 1]) && !Marked(lx, a) && !Marked(lx, b)
    ensures !Marked(lx, a + " " + b)
  {
    var n := |a| - 1;
    assert a == a[..n] + [a[n]];
    LowerConcat(lx, a[..n], [a[n]]);
    LowerConcat(lx, a + " ", b);
    LowerConcat(lx, a, " ");
    var la, lb := Lower(lx, a), Lower(lx, b);
    assert Lower(lx, " ") == " " && Lower(lx, [a[n]]) == [a[n]];
    assert Lower(lx, a + " " + b) == la + " " + lb && IsStop(la[|la| - 1]);
    SentinelsAreBracketed();
    forall m | m in SENTINELS ensures !Contains(la + " " + lb, m) {
      forall k | 0 <= k <= |la + " " + lb| ensures !StartsWith((la + " " + lb)[k..], m) {
        if StartsWith((la + " " + lb)[k..], m) {
          JointHoldsNothing(la, lb, m, k);
        }
      }
    }
  }

  // ---- Stripping ----

  lemma StripIsUnmarked(lx: Lexis, s: string)
    requires !Marked(lx, s)
    ensures !Marked(lx, Strip(s))
  {
    var i := StripLeftCuts(s);
    var j := StripRightCuts(s[i..]);
    assert s == s[..i] + Strip(s) + s[i..][j..];
    PartIsUnmarked(lx, s[..i], Strip(s), s[i..][j..]);
  }

  /** Stripping a text that ends in a sentence end keeps that end. */
  lemma StripKeepsStop(s: string)
    requires s != "" && IsStop(s[|s| - 1])
    ensures Strip(s) != "" && IsStop(Strip(s)[|Strip(s)| - 1])
  {
    var i := StripLeftCuts(s);
    var j := StripRightCuts(s[i..]);
    assert i < |s| by { assert !IsSpace(s[|s| - 1]); }
    assert s[i..][|s| - i - 1] == s[|s| - 1];
  }

  /** The stripped beginning of a text, unless blank, begins the stripped text. */
  lemma StrippedHead(s: string, n: nat)
    requires n <= |s| && Strip(s[..n]) != ""
    ensures Strip(s[..n]) <= Strip(s)
  {
    var i := StripLeftCuts(s[..n]);
    var k := StripLeftCuts(s);
    assert i < n && !IsSpace(s[..n][i]) && k == i;
    var head, rest := s[..n][i..], s[i..];
    assert head == rest[..n - i];
    var j := StripRightCuts(head);
    var l := StripRightCuts(rest);
    assert head[j - 1] == rest[j - 1];
    assert j <= l;
    assert head[..j] == rest[..l][..j];
  }

  // ---- The summary ----

  /** Where the first sentence ends: before the whitespace that follows a sentence end, or at the end of the text. */
  function SentenceEnd(s: string, from: nat): (n: nat)
    requires from <= |s|
    ensures from <= n <= |s|
    ensures n < |s| ==> n > 0 && IsStop(s[n - 1]) && IsSpace(s[n])
    decreases |s| - from
  {
    if from == |s| then from
    else if from > 0 && IsStop(s[from - 1]) && IsSpace(s[from]) then from
    else SentenceEnd(s, from + 1)
  }

  /** The text split at whitespace after a sentence end. */
  function Sentences(s: string): seq<string>
    decreases |s|
  {
    var n := SentenceEnd(s, 0);
    if n == |s| then [s]
    else
      StripLeftShortens(s[n..]);
      [s[..n]] + Sentences(StripLeft(s[n..]))
  }

  const SUMMARY_LIMIT := 280

  function Rejoined(summary: string, sentences: seq<string>): string
    decreases |sentences|
  {
    if sentences == [] then summary
    else
      var s := sentences[0];
      if summary == "" then Rejoined(Strip(s), sentences[1..])
      else if |summary| + |s| + 1 <= SUMMARY_LIMIT then Rejoined(summary + " " + Strip(s), sentences[1..])
      else summary
  }

  function Cut(s: string, n: nat): string {
    s[..SliceEnd(n, |s|)]
  }

  function SummaryOf(title: string, body: string): string {
    var text := Strip(body);
    if text == "" then (if Strip(title) != "" then Strip(title) else "[no content]")
    else
      var summary := Strip(Cut(Rejoined("", Sentences(text)), SUMMARY_LIMIT));
      if summary != "" then summary else Strip(title)
  }

  method SummaryBaseline(title: string, body: string) returns (r: string)
    ensures r == SummaryOf(title, body)
  {
    var text := Strip(body);
    if text == "" {
      var t := Strip(title);
      return if t != "" then t else "[no content]";
    }
    var sentences := Sentences(text);
    var summary := "";
    var i := 0;
    while i < |sentences|
      invariant 0 <= i <= |sentences|
      invariant Rejoined("", sentences) == Rejoined(summary, sentences[i..])
      decreases |sentences| - i
    {
      var s := sentences[i];
      assert sentences[i..][1..] == sentences[i + 1..];
      if summary == "" {
        summary := Strip(s);
      } else if |summary| + |s| + 1 <= SUMMARY_LIMIT {
        summary := summary + " " + Strip(s);
      } else {
        break;
      }
      i := i + 1;
    }
    r := Strip(Cut(summary, SUMMARY_LIMIT));
    if r == "" {
      r := Strip(title);
    }
  }

  /** Pieces of an unmarked text, all but the last ending in a sentence end. */
  ghost predicate Pieces(lx: Lexis, ss: seq<string>) {
    && (forall i :: 0 <= i < |ss| ==> !Marked(lx, ss[i]))
    && (forall i :: 0 <= i < |ss| - 1 ==> ss[i] != "" && IsStop(ss[i][|ss[i]| - 1]))
  }

  lemma {:induction false} SentencesArePieces(lx: Lexis, s: string)
    requires !Marked(lx, s)
    ensures Pieces(lx, Sentences(s))
    decreases |s|
  {
    var n := SentenceEnd(s, 0);
    if n < |s| {
      StripLeftShortens(s[n..]);
      HeadAndTailUnmarked(lx, s, n);
      SentencesArePieces(lx, StripLeft(s[n..]));
      PiecesGrow(lx, s[..n], Sentences(StripLeft(s[n..])));
    } else {
      PiecesOfOne(lx, s);
    }
  }

  lemma PiecesOfOne(lx: Lexis, s: string)
    requires !Marked(lx, s)
    ensures Pieces(lx, [s])
  {
  }

  lemma PiecesGrow(lx: Lexis, first: string, rest: seq<string>)
    requires !Marked(lx, first) && first != "" && IsStop(first[|first| - 1]) && Pieces(lx, rest)
    ensures Pieces(lx, [first] + rest)
  {
  }

  lemma HeadAndTailUnmarked(lx: Lexis, s: string, n: nat)
    requires n <= |s| && !Marked(lx, s)
    ensures !Marked(lx, s[..n]) && !Marked(lx, StripLeft(s[n..]))
  {
    var i := StripLeftCuts(s[n..]);
    assert s == "" + s[..n] + s[n..];
    PartIsUnmarked(lx, "", s[..n], s[n..]);
    assert s == s[..n + i] + StripLeft(s[n..]) + "";
    PartIsUnmarked(lx, s[..n + i], StripLeft(s[n..]), "");
  }

  lemma {:induction false} RejoinedIsUnmarked(lx: Lexis, summary: string, ss: seq<string>)
    requires Lawful(lx) && Pieces(lx, ss) && !Marked(lx, summary)
    requires summary != "" && ss != [] ==> IsStop(summary[|summary| - 1])
    ensures !Marked(lx, Rejoined(summary, ss))
    decreases |ss|
  {
    if ss != [] {
      var s, rest := ss[0], ss[1..];
      assert forall i :: 0 <= i < |rest| ==> rest[i] == ss[i + 1];
      StripIsUnmarked(lx, s);
      if rest != [] {
        StripKeepsStop(s);
      }
      if summary == "" {
        RejoinedIsUnmarked(lx, Strip(s), rest);
      } else if |summary| + |s| + 1 <= SUMMARY_LIMIT {
        JoinIsUnmarked(lx, summary, Strip(s));
        RejoinedIsUnmarked(lx, summary + " " + Strip(s), rest);
      }
    }
  }

  lemma EmptyIsUnmarked(lx: Lexis)
    ensures !Marked(lx, "")
  {
    SentinelsAreBracketed();
  }

  /** Splitting into sentences, joining and truncating never make a sentinel. */
  lemma SummaryIsUnmarked(lx: Lexis, title: string, body: string)
    requires Lawful(lx) && Strip(body) != "" && !Marked(lx, Strip(body)) && !Marked(lx, Strip(title))
    ensures !Marked(lx, SummaryOf(title, body))
  {
    var text := Strip(body);
    SentencesArePieces(lx, text);
    EmptyIsUnmarked(lx);
    RejoinedIsUnmarked(lx, "", Sentences(text));
    var joined := Rejoined("", Sentences(text));
    var cut := Cut(joined, SUMMARY_LIMIT);
    assert joined == "" + cut + joined[|cut|..];
    PartIsUnmarked(lx, "", cut, joined[|cut|..]);
    StripIsUnmarked(lx, cut);
  }
}
