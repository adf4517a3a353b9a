/** What the baseline texts of a card say about the event's own text (agents/nodes/baselines.py). */
module CardLaws {
  import opened Options
  import opened Texts
  import opened CardTexts
  import opened PublishGates

  // ---- Sentinels ----

  /** One of the four marks that a text injected by the code carries. */
  predicate ShowsSentinel(lx: Lexis, text: string) {
    var low := Lower(lx, text);
    Contains(low, "[mock") || Contains(low, "[fallback") || Contains(low, "[skip") || Contains(low, "[no title]")
  }

  lemma MarkedIff(lx: Lexis, text: string)
    ensures Marked(lx, text) <==> ShowsSentinel(lx, text)
  {
    assert SENTINELS[0] == "[mock" && SENTINELS[1] == "[fallback" && SENTINELS[2] == "[skip";
    assert SENTINELS[3] == "[no title]";
  }

  // ---- The summary: the beginning of the text, nothing else ----

  /** The text without its whitespace. */
  function Solid(s: string): string {
    if s == "" then "" else (if IsSpace(s[0]) then "" else [s[0]]) + Solid(s[1..])
  }

  lemma {:induction false} SolidSum(a: string, b: string)
    ensures Solid(a + b) == Solid(a) + Solid(b)
    decreases |a|
  {
    if a == "" {
      assert a + b == b && Solid("") + Solid(b) == Solid(b);
    } else {
      SolidSum(a[1..], b);
      FirstOfSum(a, b);
      Reassociate(if IsSpace(a[0]) then "" else [a[0]], Solid(a[1..]), Solid(b));
    }
  }

  lemma FirstOfSum(a: string, b: string)
    requires a != ""
    ensures (a + b)[0] == a[0] && (a + b)[1..] == a[1..] + b
  {
  }

  lemma {:induction false} BlankIsHollow(s: string)
    requires forall i :: 0 <= i < |s| ==> IsSpace(s[i])
    ensures Solid(s) == ""
    decreases |s|
  {
    if s != "" { BlankIsHollow(s[1..]); }
  }

  lemma StripKeepsSolid(s: string)
    ensures Solid(Strip(s)) == Solid(s) && Solid(StripLeft(s)) == Solid(s)
  {
    var i := StripLeftCuts(s);
    var l := s[i..];
    var j := StripRightCuts(l);
    assert s == s[..i] + l && l == l[..j] + l[j..];
    BlankIsHollow(s[..i]);
    BlankIsHollow(l[j..]);
    SolidSum(s[..i], l);
    SolidSum(l[..j], l[j..]);
  }

  function SolidAll(ss: seq<string>): string {
    if ss == [] then "" else Solid(ss[0]) + SolidAll(ss[1..])
  }

  /** The length of the sentences with one space between them. */
  function LengthOf(ss: seq<string>): nat {
    if ss == [] then 0 else if |ss| == 1 then |ss[0]| else |ss[0]| + 1 + LengthOf(ss[1..])
  }

  /** Splitting into sentences loses whitespace only. */
  lemma {:induction false} SentencesAreAll(s: string)
    ensures SolidAll(Sentences(s)) == Solid(s) && LengthOf(Sentences(s)) <= |s| && Sentences(s) != []
    decreases |s|
  {
    var n := SentenceEnd(s, 0);
    if n == |s| {
      assert Sentences(s) == [s] && [s][1..] == [];
      assert SolidAll([s]) == Solid(s) + "";
    } else {
      StripLeftShortens(s[n..]);
      var rest := StripLeft(s[n..]);
      SentencesAreAll(rest);
      assert s == s[..n] + s[n..] && ([s[..n]] + Sentences(rest))[1..] == Sentences(rest);
      SolidSum(s[..n], s[n..]);
      StripKeepsSolid(s[n..]);
    }
  }

  lemma SpaceBetween(a: string, b: string)
    ensures Solid(a + " " + b) == Solid(a) + Solid(b)
  {
    SolidSum(a + " ", b);
    SolidSum(a, " ");
    assert Solid(" ") == "" by { assert " "[1..] == ""; }
    assert Solid(a) + "" == Solid(a);
  }

  /** Joining sentences takes some of the first ones, whole. */
  lemma {:induction false} RejoinedBegins(summary: string, ss: seq<string>)
    ensures Solid(Rejoined(summary, ss)) <= Solid(summary) + SolidAll(ss)
    ensures summary != "" ==> summary <= Rejoined(summary, ss)
    decreases |ss|
  {
    if ss != [] {
      var s := Strip(ss[0]);
      StripKeepsSolid(ss[0]);
      if summary == "" {
        RejoinedBegins(s, ss[1..]);
        assert Solid("") + SolidAll(ss) == Solid(s) + SolidAll(ss[1..]);
      } else if |summary| + |ss[0]| + 1 <= SUMMARY_LIMIT {
        RejoinedBegins(summary + " " + s, ss[1..]);
        SpaceBetween(summary, s);
        Reassociate(Solid(summary), Solid(s), SolidAll(ss[1..]));
        assert summary <= summary + " " + s;
      }
    }
  }

  lemma Reassociate(a: string, b: string, c: string)
    ensures a + b + c == a + (b + c)
  {
  }

  lemma StripShortens(s: string)
    ensures |Strip(s)| <= |s|
  {
    StripLeftShortens(s);
    StripRightPrefix(StripLeft(s));
  }

  /** Sentences that fit are all taken. */
  lemma {:induction false} RejoinedTakesAll(summary: string, ss: seq<string>)
    requires summary != "" && |summary| <= 280 && (ss != [] ==> |summary| + 1 + LengthOf(ss) <= 280)
    ensures Solid(Rejoined(summary, ss)) == Solid(summary) + SolidAll(ss) && |Rejoined(summary, ss)| <= 280
    decreases |ss|
  {
    if ss != [] {
      var s := Strip(ss[0]);
      StripShortens(ss[0]);
      StripKeepsSolid(ss[0]);
      SpaceBetween(summary, s);
      RejoinedTakesAll(summary + " " + s, ss[1..]);
      Reassociate(Solid(summary), Solid(s), SolidAll(ss[1..]));
    } else {
      assert Solid(summary) + "" == Solid(summary);
    }
  }

  lemma CutBegins(s: string)
    ensures Cut(s, 280) <= s && |Cut(s, 280)| <= 280 && (|s| <= 280 ==> Cut(s, 280) == s)
    ensures Solid(Cut(s, 280)) <= Solid(s) && (s != "" ==> Cut(s, 280) != "")
  {
    var c := Cut(s, 280);
    assert s == c + s[|c|..];
    SolidSum(c, s[|c|..]);
  }

  /** The first sentence of a stripped text begins with its first character. */
  lemma FirstSentence(text: string)
    requires text != "" && !IsSpace(text[0])
    ensures Sentences(text)[0] != "" && Strip(Sentences(text)[0]) != "" && Strip(Sentences(text)[0])[0] == text[0]
  {
    var n := SentenceEnd(text, 0);
    SentenceEndIsLater(text);
    var first := text[..n];
    assert Sentences(text)[0] == first && first[0] == text[0];
    assert StripLeft(first) == first;
    StripRightSolid(first);
  }

  lemma SentenceEndIsLater(text: string)
    requires text != ""
    ensures SentenceEnd(text, 0) > 0
  {
  }

  lemma StrippedStarts(s: string)
    requires Strip(s) != ""
    ensures !IsSpace(Strip(s)[0])
  {
    var i := StripLeftCuts(s);
    StripRightPrefix(StripLeft(s));
  }

  lemma JoinedStarts(text: string)
    requires text != "" && !IsSpace(text[0])
    ensures var joined := Rejoined("", Sentences(text)); joined != "" && joined[0] == text[0]
  {
    var ss := Sentences(text);
    FirstSentence(text);
    RejoinedBegins(Strip(ss[0]), ss[1..]);
  }

  predicate EndsSentence(c: char) {
    c == '.' || c == '!' || c == '?'
  }

  lemma {:induction false} EndIsAt(s: string, from: nat, n: nat)
    requires from <= n <= |s| && (n == |s| || (n > 0 && EndsSentence(s[n - 1]) && IsSpace(s[n])))
    requires forall i :: from <= i < n && i > 0 ==> !(EndsSentence(s[i - 1]) && IsSpace(s[i]))
    ensures SentenceEnd(s, from) == n
    decreases n - from
  {
    if from < n { EndIsAt(s, from + 1, n); }
  }

  /** A sentence ends at a full stop, exclamation mark or question mark before whitespace, */
  lemma SentenceEndsAtMark(a: string, c: char, space: char, b: string)
    requires EndsSentence(c) && IsSpace(space) && forall i :: 0 <= i < |a| ==> !EndsSentence(a[i])
    ensures Sentences(a + [c] + [space] + b)[0] == a + [c]
  {
    var s := a + [c] + [space] + b;
    var n := |a| + 1;
    assert s[n - 1] == c && s[n] == space && forall i :: 0 <= i < |a| ==> s[i] == a[i];
    EndIsAt(s, 0, n);
    assert s[..n] == a + [c];
    StripLeftShortens(s[n..]);
  }

  /** and nowhere else. */
  lemma NoMarkNoEnd(s: string)
    requires forall i :: 0 <= i < |s| ==> !EndsSentence(s[i])
    ensures Sentences(s) == [s]
  {
    EndIsAt(s, 0, |s|);
  }

  /** The summary of a text that is not blank is a beginning of it, whitespace aside, of at most 280 characters; a text
      of at most 280 is kept whole. */
  lemma SummaryIsBeginning(title: string, body: string)
    requires Strip(body) != ""
    ensures SummaryOf(title, body) != "" && |SummaryOf(title, body)| <= 280
    ensures Solid(SummaryOf(title, body)) <= Solid(body)
    ensures |Strip(body)| <= 280 ==> Solid(SummaryOf(title, body)) == Solid(body)
  {
    var text := Strip(body);
    var joined := Rejoined("", Sentences(text));
    StripKeepsSolid(body);
    StrippedStarts(body);
    SentencesAreAll(text);
    JoinedStarts(text);
    RejoinedBegins("", Sentences(text));
    assert Solid("") + SolidAll(Sentences(text)) == Solid(text);
    CutBegins(joined);
    StripKeepsSolid(Cut(joined, 280));
    StripShortens(Cut(joined, 280));
    NotBlank(Cut(joined, 280));
    if |text| <= 280 { ShortIsWhole(text); }
  }

  lemma NotBlank(s: string)
    requires s != "" && !IsSpace(s[0])
    ensures Strip(s) != ""
  {
    assert StripLeft(s) == s;
    StripRightSolid(s);
  }

  lemma ShortIsWhole(text: string)
    requires text != "" && !IsSpace(text[0]) && |text| <= 280
    ensures var joined := Rejoined("", Sentences(text)); Solid(joined) == Solid(text) && |joined| <= 280
  {
    var ss := Sentences(text);
    SentencesAreAll(text);
    FirstSentence(text);
    StripShortens(ss[0]);
    StripKeepsSolid(ss[0]);
    RejoinedTakesAll(Strip(ss[0]), ss[1..]);
  }

  /** A blank text has its title for a summary, or the words that it has no content. */
  lemma SummaryOfBlank(title: string, body: string)
    requires Strip(body) == ""
    ensures SummaryOf(title, body) == if Strip(title) != "" then Strip(title) else "[no content]"
  {
  }

  // ---- Entities and impact ----

  /** Some capital letter and no small one. */
  predicate InCapitals(w: string) {
    (exists i :: 0 <= i < |w| && 'A' <= w[i] <= 'Z') && forall i :: 0 <= i < |w| ==> !('a' <= w[i] <= 'z')
  }

  predicate IsWord(w: string) {
    w != "" && forall i :: 0 <= i < |w| ==> !IsSpace(w[i]) && w[i] !in {' ', '.', '-', '&'}
  }

  lemma {:induction false} WholeWord(w: string)
    requires forall i :: 0 <= i < |w| ==> !IsSpace(w[i])
    ensures WordEnd(w) == |w|
    decreases |w|
  {
    if w != "" { WholeWord(w[1..]); }
  }

  /** A single word is an entity unless it is a stop word, noise, or shorter than four letters and no acronym. */
  lemma OneWordIsEntity(lx: Lexis, w: string)
    requires IsWord(w)
    ensures PhraseOf(lx, w) ==
      if lx.isStopword(Lower(lx, w)) || lx.isNoise(w) || (|w| < 4 && !(|w| >= 2 && InCapitals(w))) then None
      else Some(w)
  {
    assert Trim(w) == w;
    WordsOfOne(w);
    DropOne(lx, w);
    assert InCapitals(w) <==> IsUpper(w);
  }

  lemma WordsOfOne(w: string)
    requires IsWord(w)
    ensures Words(w) == [w]
  {
    WholeWord(w);
    assert w[..|w|] == w && w[|w|..] == "";
    assert Words("") == [] && [w] + [] == [w];
  }

  lemma DropOne(lx: Lexis, w: string)
    ensures DropStopwords(lx, [w]) == if lx.isStopword(Lower(lx, w)) then [] else [w]
  {
    assert [w][1..] == [] && DropStopwords(lx, []) == [];
  }

  /** What is taken off the ends of a match: blanks, full stops, hyphens and ampersands. */
  lemma TrimsExactly(c: char)
    ensures Trim([c]) == "" <==> c == ' ' || c == '.' || c == '-' || c == '&'
  {
    assert [c][1..] == "" && Trim("") == "";
  }

  /** Some entity of the list is spelled like the phrase but for case. */
  predicate Listed(lx: Lexis, es: seq<string>, phrase: string) {
    exists i :: 0 <= i < |es| && Lower(lx, es[i]) == Lower(lx, phrase)
  }

  lemma {:induction false} ListedIff(lx: Lexis, es: seq<string>, phrase: string)
    ensures Lower(lx, phrase) in Keys(lx, es) <==> Listed(lx, es, phrase)
    decreases |es|
  {
    if es != [] {
      var n := |es| - 1;
      ListedIff(lx, es[..n], phrase);
      if i :| 0 <= i < n && Lower(lx, es[..n][i]) == Lower(lx, phrase) { assert es[i] == es[..n][i]; }
      if i :| 0 <= i < |es| && Lower(lx, es[i]) == Lower(lx, phrase) {
        if i < n { assert es[..n][i] == es[i]; }
      }
    }
  }

  lemma ListedLonger(lx: Lexis, es: seq<string>, more: seq<string>, phrase: string)
    requires es <= more && Listed(lx, es, phrase)
    ensures Listed(lx, more, phrase)
  {
    var i :| 0 <= i < |es| && Lower(lx, es[i]) == Lower(lx, phrase);
    assert more[i] == es[i];
  }

  /** A list that is not full misses no match. */
  lemma {:induction false} EntityListIsComplete(lx: Lexis, matches: seq<string>, k: nat)
    requires k < |matches| && PhraseOf(lx, matches[k]).Some? && |EntitiesOf(lx, matches)| < 8
    ensures Listed(lx, EntitiesOf(lx, matches), PhraseOf(lx, matches[k]).value)
    decreases |matches|
  {
    var n := |matches| - 1;
    var before, phrase := EntitiesOf(lx, matches[..n]), PhraseOf(lx, matches[k]).value;
    assert before <= EntitiesOf(lx, matches);
    if k < n {
      EntityListIsComplete(lx, matches[..n], k);
      ListedLonger(lx, before, EntitiesOf(lx, matches), phrase);
    } else {
      LastIsListed(lx, before, matches[n]);
    }
  }

  lemma LastIsListed(lx: Lexis, before: seq<string>, matched: string)
    requires PhraseOf(lx, matched).Some? && |WithMatch(lx, before, matched)| < 8
    ensures Listed(lx, WithMatch(lx, before, matched), PhraseOf(lx, matched).value)
  {
    var phrase := PhraseOf(lx, matched).value;
    ListedIff(lx, before, phrase);
    if phrase !in before && !Listed(lx, before, phrase) {
      assert (before + [phrase])[|before|] == phrase;
    }
  }

  lemma {:induction false} NamesAppear(names: seq<string>, i: nat)
    requires i < |names|
    ensures Contains(JoinNames(names), names[i])
    decreases |names|
  {
    if |names| == 1 {
      assert names[0][0..] == names[0];
    } else if i == 0 {
      SelfContained(names[0]);
      ContainsGrows("", names[0], ", " + JoinNames(names[1..]), names[0]);
      assert "" + names[0] + (", " + JoinNames(names[1..])) == JoinNames(names);
    } else {
      NamesAppear(names[1..], i - 1);
      ContainsGrows(names[0] + ", ", JoinNames(names[1..]), "", names[i]);
      assert names[0] + ", " + JoinNames(names[1..]) + "" == JoinNames(names);
    }
  }

  lemma SelfContained(s: string)
    ensures Contains(s, s)
  {
    assert s[0..] == s;
  }

  lemma ContainsAtStart(a: string, b: string)
    ensures Contains(a + b, a)
  {
    SelfContained(a);
    ContainsGrows("", a, b, a);
    assert "" + a + b == a + b;
  }

  lemma ContainsAtEnd(a: string, b: string, m: string)
    requires Contains(b, m)
    ensures Contains(a + b, m)
  {
    ContainsGrows(a, b, "", m);
    assert a + b + "" == a + b;
  }

  lemma SaysNotAssessed()
    ensures Contains(NOT_ASSESSED, " not assessed ")
  {
    var rest := "(deterministic " + "baseline; no LLM " + "impact model " + "applied).";
    assert NOT_ASSESSED == " not assessed " + rest;
    ContainsAtStart(" not assessed ", rest);
  }

  /** The baseline impact names every sector and says that nothing was assessed. */
  lemma ImpactNamesSectors(sectors: seq<string>, i: nat)
    requires i < |sectors|
    ensures Contains(ImpactBaseline(sectors), sectors[i]) && Contains(ImpactBaseline(sectors), " not assessed ")
  {
    NamesAppear(sectors, i);
    SaysNotAssessed();
    ImpactParts("Relevant to ", JoinNames(sectors), " sector(s). ", "Quantitative impact", NOT_ASSESSED, sectors[i]);
    ContainsAtEnd("Relevant to " + JoinNames(sectors) + " sector(s). " + "Quantitative impact", NOT_ASSESSED,
                  " not assessed ");
  }

  lemma ImpactParts(a: string, names: string, b: string, c: string, d: string, m: string)
    requires Contains(names, m)
    ensures Contains(a + names + b + c + d, m)
  {
    ContainsGrows(a, names, b + c + d, m);
    assert a + names + (b + c + d) == a + names + b + c + d;
  }
}
