/** The event-processing graph from raw event to card (agents/graphs/event_processing_graph.py; the nodes parse_source,
    entity_linking, impact_analysis, evidence_check, fact_check, final_writer and publish_or_hold). */
module PublishPipelines {
  import opened Options
  import opened Texts
  import opened CardTexts
  import opened PublishGates
  import opened CardLaws

  datatype ConfirmationPolicy =
    NoPolicy | UnconfirmedUntilCorroborated | InternalQueueOnly | PublishBlockedUntilCorroborated | OtherPolicy

  datatype RawEvent = RawEvent(text: string, url: string, policy: ConfirmationPolicy, corroborationRequired: bool)

  datatype Settings = Settings(llm: bool, checkReachability: bool)

  /** What lies outside: the text engine, the structural URL check, the sector table, the network,
      and the language model's three answers, None being an exception. */
  datatype World = World(
    lx: Lexis, isValidUrl: string -> bool, sectorsOf: (string, string) -> seq<string>, isReachable: string -> bool,
    impactAnswer: Option<string>, factAnswer: Option<bool>, summaryAnswer: Option<string>)

  /** Sector names hold no bracket. */
  ghost predicate Sound(w: World) {
    Lawful(w.lx) && forall t, b :: AllClear(w.sectorsOf(t, b))
  }

  // ---- The nodes ----

  const TITLE_LIMIT := 80

  function TitleOf(raw: RawEvent): string {
    Strip(Cut(raw.text, TITLE_LIMIT))
  }

  function EntitiesFor(w: World, raw: RawEvent): seq<string> {
    EntitiesOf(w.lx, w.lx.properNouns(Strip(TitleOf(raw) + ". " + raw.text)))
  }

  function ImpactNode(w: World, s: Settings, sectors: seq<string>): string {
    if s.llm && w.impactAnswer.Some? && !Marked(w.lx, w.impactAnswer.value) then w.impactAnswer.value
    else ImpactBaseline(sectors)
  }

  function EvidenceNode(w: World, s: Settings, raw: RawEvent): seq<string> {
    if !w.isValidUrl(raw.url) then []
    else if !s.checkReachability then [raw.url]
    else if w.isReachable(raw.url) then [raw.url]
    else []
  }

  predicate HasGroundedEvidence(w: World, evidence: seq<string>) {
    exists i :: 0 <= i < |evidence| && w.isValidUrl(evidence[i])
  }

  function StructuralFactCheck(w: World, body: string, evidence: seq<string>): bool {
    var text := Strip(body);
    if text == "" then false
    else if Marked(w.lx, text) then false
    else if !HasGroundedEvidence(w, evidence) then false
    else true
  }

  /** The language model can only lower a structural pass. */
  function FactCheckNode(w: World, s: Settings, body: string, evidence: seq<string>): bool {
    var structural := StructuralFactCheck(w, body, evidence);
    if s.llm && structural then
      match w.factAnswer
      case Some(pass) => pass
      case None => structural
    else structural
  }

  function SummaryNode(w: World, s: Settings, title: string, body: string): string {
    if s.llm && w.summaryAnswer.Some? && !Marked(w.lx, w.summaryAnswer.value) then w.summaryAnswer.value
    else SummaryOf(title, body)
  }

  predicate RequiresCorroboration(raw: RawEvent) {
    raw.policy in {UnconfirmedUntilCorroborated, InternalQueueOnly, PublishBlockedUntilCorroborated}
      || raw.corroborationRequired
  }

  /** The card, whose status the last node sets in place. */
  class FinalCard {
    const title: string
    const summary: string
    const entities: seq<string>
    const impact: string
    const evidence: seq<string>
    var published: bool

    constructor (title: string, summary: string, entities: seq<string>, impact: string, evidence: seq<string>)
      ensures this.title == title && this.summary == summary && this.entities == entities
      ensures this.impact == impact && this.evidence == evidence && !published
    {
      this.title, this.summary, this.entities := title, summary, entities;
      this.impact, this.evidence, published := impact, evidence, false;
    }
  }

  predicate AnyMarked(lx: Lexis, texts: seq<string>) {
    exists i :: 0 <= i < |texts| && Marked(lx, texts[i])
  }

  method PublishOrHold(w: World, raw: RawEvent, factPass: bool, evidence: seq<string>, body: string, card: FinalCard)
    modifies card
    ensures card.published <==>
      && !RequiresCorroboration(raw) && factPass && HasGroundedEvidence(w, evidence) && Strip(body) != ""
      && !AnyMarked(w.lx, [card.summary, card.impact] + card.entities)
  {
    if RequiresCorroboration(raw) {
      card.published := false;
      return;
    }
    var synthetic := AnyMarked(w.lx, [card.summary, card.impact] + card.entities);
    card.published := factPass && HasGroundedEvidence(w, evidence) && Strip(body) != "" && !synthetic;
  }

  // ---- The exact condition ----

  /** What a reader can check before the run. */
  predicate MayPublish(w: World, s: Settings, raw: RawEvent) {
    && raw.policy != UnconfirmedUntilCorroborated && raw.policy != InternalQueueOnly
    && raw.policy != PublishBlockedUntilCorroborated && !raw.corroborationRequired
    && (exists i :: 0 <= i < |raw.text| && !IsSpace(raw.text[i])) && !ShowsSentinel(w.lx, Strip(raw.text))
    && w.isValidUrl(raw.url)
    && (s.checkReachability ==> w.isReachable(raw.url))
    && (s.llm ==> w.factAnswer != Some(false))
  }

  lemma FactCheckPassesIff(w: World, s: Settings, raw: RawEvent)
    ensures !RequiresCorroboration(raw) && FactCheckNode(w, s, raw.text, EvidenceNode(w, s, raw)) <==>
      MayPublish(w, s, raw)
    ensures FactCheckNode(w, s, raw.text, EvidenceNode(w, s, raw)) ==> HasGroundedEvidence(w, EvidenceNode(w, s, raw))
  {
    var e := EvidenceNode(w, s, raw);
    assert e != [] ==> e[0] == raw.url;
    BlankIff(raw.text);
    MarkedIff(w.lx, Strip(raw.text));
  }

  /** The title is the stripped beginning of the stripped text, so it shows no sentinel the text does not hold. */
  lemma TitleIsUnmarked(w: World, raw: RawEvent)
    requires Lawful(w.lx) && !Marked(w.lx, Strip(raw.text))
    ensures !Marked(w.lx, TitleOf(raw))
  {
    var t, text := TitleOf(raw), Strip(raw.text);
    if t == "" {
      EmptyIsUnmarked(w.lx);
    } else {
      var n := if TITLE_LIMIT <= |raw.text| then TITLE_LIMIT else |raw.text|;
      assert Cut(raw.text, TITLE_LIMIT) == raw.text[..n];
      StrippedHead(raw.text, n);
      assert text == "" + t + text[|t|..];
      PartIsUnmarked(w.lx, "", t, text[|t|..]);
    }
  }

  lemma SummaryNodeIsUnmarked(w: World, s: Settings, raw: RawEvent)
    requires Sound(w) && Strip(raw.text) != "" && !Marked(w.lx, Strip(raw.text))
    ensures !Marked(w.lx, SummaryNode(w, s, TitleOf(raw), raw.text))
  {
    TitleIsUnmarked(w, raw);
    StripIsUnmarked(w.lx, TitleOf(raw));
    SummaryIsUnmarked(w.lx, TitleOf(raw), raw.text);
  }

  lemma ImpactNodeIsUnmarked(w: World, s: Settings, raw: RawEvent)
    requires Sound(w)
    ensures !Marked(w.lx, ImpactNode(w, s, w.sectorsOf(TitleOf(raw), raw.text)))
  {
    ImpactHasNoBracket(w.sectorsOf(TitleOf(raw), raw.text));
    NoBracketIsUnmarked(w.lx, ImpactBaseline(w.sectorsOf(TitleOf(raw), raw.text)));
  }

  /** Whatever the model answers, the card of an unmarked text carries no sentinel in the fields the gate reads. */
  lemma CardIsUnmarked(w: World, s: Settings, raw: RawEvent)
    requires Sound(w) && Strip(raw.text) != "" && !Marked(w.lx, Strip(raw.text))
    ensures !AnyMarked(w.lx, [SummaryNode(w, s, TitleOf(raw), raw.text),
                              ImpactNode(w, s, w.sectorsOf(TitleOf(raw), raw.text))] + EntitiesFor(w, raw))
  {
    SummaryNodeIsUnmarked(w, s, raw);
    ImpactNodeIsUnmarked(w, s, raw);
    EntitiesAreUnmarked(w.lx, Strip(TitleOf(raw) + ". " + raw.text));
    NoneMarked(w.lx, SummaryNode(w, s, TitleOf(raw), raw.text),
               ImpactNode(w, s, w.sectorsOf(TitleOf(raw), raw.text)), EntitiesFor(w, raw));
  }

  lemma NoneMarked(lx: Lexis, a: string, b: string, rest: seq<string>)
    requires !Marked(lx, a) && !Marked(lx, b) && forall e :: e in rest ==> !Marked(lx, e)
    ensures !AnyMarked(lx, [a, b] + rest)
  {
    var all := [a, b] + rest;
    forall i | 0 <= i < |all| ensures !Marked(lx, all[i]) {
      assert i >= 2 ==> all[i] == rest[i - 2];
    }
  }

  /** A card is published exactly if the event may be: no corroboration is called for, its text is neither blank nor
      marked, its URL is valid and, where that is checked, reachable, and the model, where asked, did not object. */
  method RunPipeline(w: World, s: Settings, raw: RawEvent) returns (card: FinalCard)
    requires Sound(w)
    ensures fresh(card)
    ensures card.published <==> MayPublish(w, s, raw)
    ensures card.published ==>
      && card.evidence == [raw.url] && !ShowsSentinel(w.lx, card.summary) && !ShowsSentinel(w.lx, card.impact)
      && forall e :: e in card.entities ==> !ShowsSentinel(w.lx, e)
    ensures card.summary == if s.llm && Usable(w, w.summaryAnswer) then w.summaryAnswer.value
                            else SummaryOf(TitleOf(raw), raw.text)
    ensures card.impact == if s.llm && Usable(w, w.impactAnswer) then w.impactAnswer.value
                           else ImpactBaseline(w.sectorsOf(TitleOf(raw), raw.text))
    ensures card.entities == EntitiesFor(w, raw)
    ensures card.evidence ==
      if w.isValidUrl(raw.url) && (s.checkReachability ==> w.isReachable(raw.url)) then [raw.url] else []
    ensures card.title == if TitleOf(raw) != "" then TitleOf(raw) else "[no title]"
  {
    var title := TitleOf(raw);
    var entities := ExtractEntities(w.lx, title, raw.text);
    var impact := ImpactNode(w, s, w.sectorsOf(title, raw.text));
    var evidence := EvidenceNode(w, s, raw);
    var factPass := FactCheckNode(w, s, raw.text, evidence);
    var baseline := SummaryBaseline(title, raw.text);
    var summary := baseline;
    if s.llm && w.summaryAnswer.Some? && !Marked(w.lx, w.summaryAnswer.value) {
      summary := w.summaryAnswer.value;
    }
    card := new FinalCard(if title != "" then title else "[no title]", summary, entities, impact, evidence);
    PublishOrHold(w, raw, factPass, evidence, raw.text, card);
    FactCheckPassesIff(w, s, raw);
    BlankIff(raw.text);
    MarkedIff(w.lx, Strip(raw.text));
    if MayPublish(w, s, raw) {
      CardIsUnmarked(w, s, raw);
      NoneShown(w.lx, card.summary, card.impact, card.entities);
    }
    UsableIff(w, w.summaryAnswer);
    UsableIff(w, w.impactAnswer);
  }

  /** The model answered, and its answer shows no sentinel. */
  predicate Usable(w: World, answer: Option<string>) {
    answer.Some? && !ShowsSentinel(w.lx, answer.value)
  }

  lemma UsableIff(w: World, answer: Option<string>)
    ensures Usable(w, answer) <==> answer.Some? && !Marked(w.lx, answer.value)
  {
    if answer.Some? { MarkedIff(w.lx, answer.value); }
  }

  lemma NoneShown(lx: Lexis, a: string, b: string, rest: seq<string>)
    requires !AnyMarked(lx, [a, b] + rest)
    ensures !ShowsSentinel(lx, a) && !ShowsSentinel(lx, b) && forall e :: e in rest ==> !ShowsSentinel(lx, e)
  {
    var all := [a, b] + rest;
    assert all[0] == a && all[1] == b;
    MarkedIff(lx, a);
    MarkedIff(lx, b);
    forall e | e in rest ensures !ShowsSentinel(lx, e) {
      var i :| 0 <= i < |rest| && rest[i] == e;
      assert all[i + 2] == e;
      MarkedIff(lx, e);
    }
  }

  lemma BlankIff(s: string)
    ensures Strip(s) == "" <==> forall i :: 0 <= i < |s| ==> IsSpace(s[i])
  {
    var i := StripLeftCuts(s);
    var j := StripRightCuts(s[i..]);
    if i < |s| {
      assert s[i..][0] == s[i];
    }
  }

  /** The gate does not read the title: an event that may be published is shown under "[no title]" exactly if
      its first eighty characters are blank, and otherwise under the unmarked beginning of its text. */
  lemma PublishedTitle(w: World, s: Settings, raw: RawEvent)
    requires Sound(w) && MayPublish(w, s, raw)
    ensures TitleOf(raw) == "" <==> forall i :: 0 <= i < |raw.text| && i < 80 ==> IsSpace(raw.text[i])
    ensures TitleOf(raw) != "" ==> TitleOf(raw) <= Strip(raw.text) && !Marked(w.lx, TitleOf(raw))
  {
    var n := if TITLE_LIMIT <= |raw.text| then TITLE_LIMIT else |raw.text|;
    assert Cut(raw.text, TITLE_LIMIT) == raw.text[..n];
    BlankIff(raw.text[..n]);
    TitleIsUnmarked(w, raw);
    if TitleOf(raw) != "" {
      StrippedHead(raw.text, n);
      assert forall i :: 0 <= i < n ==> raw.text[..n][i] == raw.text[i];
    }
  }

  /** For one, eighty spaces before a plain sentence: publishable, and without a title. */
  lemma TitleGoesMissing(w: World, s: Settings, sentence: string, url: string)
    requires Sound(w) && !s.llm && !s.checkReachability && w.isValidUrl(url)
    requires sentence != "" && !IsSpace(sentence[0]) && !IsSpace(sentence[|sentence| - 1]) && !Marked(w.lx, sentence)
    ensures var raw := RawEvent(seq(80, _ => ' ') + sentence, url, NoPolicy, false);
      MayPublish(w, s, raw) && TitleOf(raw) == ""
  {
    var spaces := seq(TITLE_LIMIT, _ => ' ');
    var text := spaces + sentence;
    var i := StripLeftCuts(text);
    assert text[TITLE_LIMIT] == sentence[0];
    assert i == TITLE_LIMIT && text[i..] == sentence;
    var j := StripRightCuts(sentence);
    assert Strip(text) == sentence;
    PublishedTitle(w, s, RawEvent(text, url, NoPolicy, false));
  }
}
