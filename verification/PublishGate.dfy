/** From raw event to published card: the nodes of the event-processing graph that decide whether a card is published
    (agents/graphs/event_processing_graph.py and agents/nodes). The language model and the reachability check answer
    as they like. */
module PublishGates {
  import opened Options
  import opened Texts
  import opened CardTexts

  predicate NoBracket(s: string) {
    '[' !in s
  }

  lemma {:induction false} NoBracketLower(lx: Lexis, s: string)
    requires Lawful(lx) && NoBracket(s)
    ensures NoBracket(Lower(lx, s))
    decreases |s|
  {
    if s != "" {
      NoBracketLower(lx, s[1..]);
      assert s[0] in s;
    }
  }

  lemma NoBracketIsUnmarked(lx: Lexis, s: string)
    requires Lawful(lx) && NoBracket(s)
    ensures !Marked(lx, s)
  {
    NoBracketLower(lx, s);
    SentinelsAreBracketed();
    var low := Lower(lx, s);
    forall m | m in SENTINELS ensures !Contains(low, m) {
      forall k | 0 <= k <= |low| ensures !StartsWith(low[k..], m) {
        assert k < |low| ==> low[k..][0] in low;
      }
    }
  }

  // ---- Entities ----

  const MAX_ENTITIES := 8

  function WordEnd(s: string): (n: nat)
    ensures n <= |s| && (s != "" && !IsSpace(s[0]) ==> n > 0)
  {
    if s != "" && !IsSpace(s[0]) then 1 + WordEnd(s[1..]) else 0
  }

  /** str.split() */
  function Words(s: string): seq<string>
    decreases |s|
  {
    if s == "" then []
    else if IsSpace(s[0]) then Words(s[1..])
    else [s[..WordEnd(s)]] + Words(s[WordEnd(s)..])
  }

  function DropStopwords(lx: Lexis, tokens: seq<string>): seq<string> {
    if tokens != [] && lx.isStopword(Lower(lx, tokens[0])) then DropStopwords(lx, tokens[1..]) else tokens
  }

  /** strip(" .-&") */
  predicate IsTrim(c: char) {
    c == ' ' || c == '.' || c == '-' || c == '&'
  }

  function Trim(s: string): string {
    if s == "" then ""
    else if IsTrim(s[0]) then Trim(s[1..])
    else if IsTrim(s[|s| - 1]) then Trim(s[..|s| - 1])
    else s
  }

  /** isupper() of a text of the pattern's characters. */
  predicate IsUpper(s: string) {
    (exists i :: 0 <= i < |s| && 'A' <= s[i] <= 'Z') && forall i :: 0 <= i < |s| ==> !('a' <= s[i] <= 'z')
  }

  predicate Accepted(lx: Lexis, token: string) {
    !lx.isNoise(token) && ((IsUpper(token) && |token| >= 2) || |token| >= 4)
  }

  /** The phrase a match stands for, if it names an entity. */
  function PhraseOf(lx: Lexis, matched: string): Option<string> {
    var tokens := DropStopwords(lx, Words(Trim(matched)));
    if tokens == [] then None
    else if |tokens| == 1 && !Accepted(lx, tokens[0]) then None
    else Some(JoinWith(tokens, ' '))
  }

  /** The entities without regard to case. */
  function Keys(lx: Lexis, es: seq<string>): (ks: set<string>)
    ensures forall i :: 0 <= i < |es| ==> Lower(lx, es[i]) in ks
  {
    if es == [] then {} else Keys(lx, es[..|es| - 1]) + {Lower(lx, es[|es| - 1])}
  }

  /** The accepted phrases, each in its first spelling, as long as there is room. */
  function EntitiesOf(lx: Lexis, matches: seq<string>): seq<string> {
    if matches == [] then []
    else WithMatch(lx, EntitiesOf(lx, matches[..|matches| - 1]), matches[|matches| - 1])
  }

  /** The entities of one match more. */
  function WithMatch(lx: Lexis, before: seq<string>, matched: string): seq<string> {
    var phrase := PhraseOf(lx, matched);
    if |before| < MAX_ENTITIES && phrase.Some? && Lower(lx, phrase.value) !in Keys(lx, before)
    then before + [phrase.value]
    else before
  }

  lemma EntitiesGrow(lx: Lexis, matches: seq<string>, n: nat)
    requires n < |matches|
    ensures EntitiesOf(lx, matches[..n + 1]) == WithMatch(lx, EntitiesOf(lx, matches[..n]), matches[n])
  {
    assert matches[..n + 1][..n] == matches[..n];
  }

  lemma KeysGrow(lx: Lexis, es: seq<string>, phrase: string)
    ensures Keys(lx, es + [phrase]) == Keys(lx, es) + {Lower(lx, phrase)}
  {
    assert (es + [phrase])[..|es|] == es;
  }

  method ExtractEntities(lx: Lexis, title: string, body: string) returns (es: seq<string>)
    ensures es == EntitiesOf(lx, lx.properNouns(Strip(title + ". " + body)))
  {
    var matches := lx.properNouns(Strip(title + ". " + body));
    es := [];
    var seen: set<string> := {};
    for n := 0 to |matches|
      invariant es == EntitiesOf(lx, matches[..n]) && |es| < MAX_ENTITIES
      invariant seen == Keys(lx, es)
    {
      var phrase := PhraseOf(lx, matches[n]);
      EntitiesGrow(lx, matches, n);
      if phrase.Some? {
        var key := Lower(lx, phrase.value);
        if key !in seen {
          seen := seen + {key};
          KeysGrow(lx, es, phrase.value);
          es := es + [phrase.value];
          if |es| >= MAX_ENTITIES {
            EntitiesStay(lx, matches, n + 1);
            return;
          }
        }
      }
    }
    assert matches[..|matches|] == matches;
  }

  lemma {:induction false} EntitiesStay(lx: Lexis, matches: seq<string>, n: nat)
    requires n <= |matches| && |EntitiesOf(lx, matches[..n])| >= MAX_ENTITIES
    ensures EntitiesOf(lx, matches) == EntitiesOf(lx, matches[..n])
    decreases |matches|
  {
    if n < |matches| {
      assert matches[..|matches| - 1][..n] == matches[..n];
      EntitiesStay(lx, matches[..|matches| - 1], n);
    } else {
      assert matches[..n] == matches;
    }
  }

  /** At most eight entities, no two alike but for case, and every one an accepted phrase of a match. */
  lemma {:induction false} EntityListIsSound(lx: Lexis, matches: seq<string>)
    ensures var es := EntitiesOf(lx, matches);
      && |es| <= 8
      && (forall i, j :: 0 <= i < j < |es| ==> Lower(lx, es[i]) != Lower(lx, es[j]))
      && (forall i :: 0 <= i < |es| ==> exists k :: 0 <= k < |matches| && PhraseOf(lx, matches[k]) == Some(es[i]))
    decreases |matches|
  {
    if matches != [] {
      var n := |matches| - 1;
      EntityListIsSound(lx, matches[..n]);
      EntitiesOnceMore(lx, EntitiesOf(lx, matches[..n]), matches[n]);
      var es := EntitiesOf(lx, matches);
      forall i | 0 <= i < |es| ensures exists k :: 0 <= k < |matches| && PhraseOf(lx, matches[k]) == Some(es[i]) {
        if i < |EntitiesOf(lx, matches[..n])| {
          var k :| 0 <= k < n && PhraseOf(lx, matches[..n][k]) == Some(es[i]);
          assert PhraseOf(lx, matches[k]) == Some(es[i]);
        } else {
          assert PhraseOf(lx, matches[n]) == Some(es[i]);
        }
      }
    }
  }

  lemma EntitiesOnceMore(lx: Lexis, es: seq<string>, matched: string)
    requires |es| <= MAX_ENTITIES && forall i, j :: 0 <= i < j < |es| ==> Lower(lx, es[i]) != Lower(lx, es[j])
    ensures var more := WithMatch(lx, es, matched);
      && es <= more && |more| <= MAX_ENTITIES
      && (forall i, j :: 0 <= i < j < |more| ==> Lower(lx, more[i]) != Lower(lx, more[j]))
      && forall i :: |es| <= i < |more| ==> PhraseOf(lx, matched) == Some(more[i])
  {
  }

  // A phrase has the match's characters and spaces, so no bracket.

  lemma {:induction false} TrimKeepsOut(s: string)
    requires NoBracket(s)
    ensures NoBracket(Trim(s))
    decreases |s|
  {
    if s != "" {
      if IsTrim(s[0]) { TrimKeepsOut(s[1..]); } else if IsTrim(s[|s| - 1]) { TrimKeepsOut(s[..|s| - 1]); }
    }
  }

  ghost predicate AllClear(tokens: seq<string>) {
    forall i :: 0 <= i < |tokens| ==> NoBracket(tokens[i])
  }

  lemma {:induction false} WordsKeepOut(s: string)
    requires NoBracket(s)
    ensures AllClear(Words(s))
    decreases |s|
  {
    if s != "" {
      if IsSpace(s[0]) { WordsKeepOut(s[1..]); } else { WordsKeepOut(s[WordEnd(s)..]); }
    }
  }

  lemma {:induction false} DroppingKeepsOut(lx: Lexis, tokens: seq<string>)
    requires AllClear(tokens)
    ensures AllClear(DropStopwords(lx, tokens))
    decreases |tokens|
  {
    if tokens != [] && lx.isStopword(Lower(lx, tokens[0])) { DroppingKeepsOut(lx, tokens[1..]); }
  }

  lemma JoiningKeepsOut(tokens: seq<string>)
    requires AllClear(tokens)
    ensures NoBracket(JoinWith(tokens, ' '))
  {
    JoinKeepsOut(tokens, ' ', '[');
  }

  lemma PhraseHasNoBracket(lx: Lexis, matched: string)
    requires (forall i :: 0 <= i < |matched| ==> IsNounChar(matched[i])) && PhraseOf(lx, matched).Some?
    ensures NoBracket(PhraseOf(lx, matched).value)
  {
    TrimKeepsOut(matched);
    WordsKeepOut(Trim(matched));
    DroppingKeepsOut(lx, Words(Trim(matched)));
    JoiningKeepsOut(DropStopwords(lx, Words(Trim(matched))));
  }

  lemma EntitiesAreUnmarked(lx: Lexis, text: string)
    requires Lawful(lx)
    ensures forall e :: e in EntitiesOf(lx, lx.properNouns(text)) ==> !Marked(lx, e)
  {
    var ms := lx.properNouns(text);
    EntityListIsSound(lx, ms);
    forall e | e in EntitiesOf(lx, ms) ensures !Marked(lx, e) {
      var k :| 0 <= k < |ms| && PhraseOf(lx, ms[k]) == Some(e);
      assert ms[k] in ms;
      PhraseHasNoBracket(lx, ms[k]);
      NoBracketIsUnmarked(lx, e);
    }
  }

  // ---- Impact ----

  function JoinNames(names: seq<string>): string {
    if names == [] then ""
    else if |names| == 1 then names[0]
    else names[0] + ", " + JoinNames(names[1..])
  }

  const NOT_ASSESSED := " not assessed " + "(deterministic " + "baseline; no LLM " + "impact model " + "applied)."

  function ImpactBaseline(sectors: seq<string>): string {
    if sectors != [] then "Relevant to " + JoinNames(sectors) + " sector(s). " + "Quantitative impact" + NOT_ASSESSED
    else "Sector relevance " + "undetermined. Impact" + NOT_ASSESSED
  }

  lemma {:induction false} NamesKeepOut(names: seq<string>)
    requires AllClear(names)
    ensures NoBracket(JoinNames(names))
    decreases |names|
  {
    if |names| > 1 { NamesKeepOut(names[1..]); }
  }

  lemma JointClear(a: string, b: string)
    requires NoBracket(a) && NoBracket(b)
    ensures NoBracket(a + b)
  {
  }

  lemma NotAssessedIsClear()
    ensures NoBracket(NOT_ASSESSED)
  {
    assert NoBracket(" not assessed ");
    assert NoBracket("(deterministic ");
    JointClear(" not assessed ", "(deterministic ");
    var a := " not assessed " + "(deterministic ";
    assert NoBracket("baseline; no LLM ");
    JointClear(a, "baseline; no LLM ");
    assert NoBracket("impact model ");
    JointClear(a + "baseline; no LLM ", "impact model ");
    assert NoBracket("applied).");
    JointClear(a + "baseline; no LLM " + "impact model ", "applied).");
  }

  lemma HeadsAreClear()
    ensures NoBracket("Relevant to ") && NoBracket(" sector(s). ") && NoBracket("Quantitative impact")
    ensures NoBracket("Sector relevance ") && NoBracket("undetermined. Impact")
  {
  }

  lemma ImpactHasNoBracket(sectors: seq<string>)
    requires AllClear(sectors)
    ensures NoBracket(ImpactBaseline(sectors))
  {
    NamesKeepOut(sectors);
    NotAssessedIsClear();
    HeadsAreClear();
    var names := JoinNames(sectors);
    JointClear("Relevant to ", names);
    JointClear("Relevant to " + names, " sector(s). ");
    JointClear("Relevant to " + names + " sector(s). ", "Quantitative impact");
    JointClear("Relevant to " + names + " sector(s). " + "Quantitative impact", NOT_ASSESSED);
    JointClear("Sector relevance ", "undetermined. Impact");
    JointClear("Sector relevance " + "undetermined. Impact", NOT_ASSESSED);
  }
}
