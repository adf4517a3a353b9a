/** What a round of the crawl graph makes of each answer from outside, over the steps of any run (agents/graph.py). */
module CrawlRounds {
  import opened Options
  import opened Sorting
  import opened CrawlGraph

  /** The step from c to d with the answer o. */
  ghost predicate StepBy(c: Config, d: Config, o: Oracle) {
    c.node != End && Sensible(o) && d.s == Update(c.node, c.s, o) && d.node == Route(c.node, d.s)
  }

  lemma StepHasAnswer(c: Config, d: Config) returns (o: Oracle)
    requires Step(c, d)
    ensures StepBy(c, d, o)
  {
    o :| Sensible(o) && d.s == Update(c.node, c.s, o) && d.node == Route(c.node, d.s);
  }

  /** The strategies that load the page themselves: the browser's always, the varied plain fetches only on a later
      attempt. */
  predicate LoadsAgain(strategy: string, attemptNo: nat) {
    || strategy == "playwright_basic" || strategy == "playwright_scroll"
    || strategy == "playwright_wait_network_idle" || strategy == "playwright_click_more"
    || (attemptNo > 0 && (strategy == "httpx_mobile_ua" || strategy == "httpx_random_ua"))
  }

  lemma LoadsAgainIff(s: Crawl)
    ensures NeedsRefetch(s) <==> LoadsAgain(s.current, s.attemptNo)
  {
  }

  /** Extraction has a page to work on: the one fetched before or the one its strategy loads. */
  predicate HasPage(s: Crawl, o: Oracle) {
    s.html || (LoadsAgain(s.current, s.attemptNo) && o.refetched)
  }

  /** Extraction met a captcha, a login wall or a paywall on a page. */
  predicate Meets(s: Crawl, o: Oracle, k: ErrorKind) {
    HasPage(s, o) && o.extraction == BlockerFound(k)
  }

  /** What is wrong with an extraction that is not scored. */
  function FaultOf(s: Crawl, o: Oracle): ErrorKind {
    if HasPage(s, o) && o.extraction.BlockerFound? then o.extraction.kind else ExtractionEmpty
  }

  // ---- One step at a time ----

  /** With a page, an answer that is neither empty nor a blocker is scored; everything else is an error of its kind. */
  lemma ExtractionStep(c: Config, d: Config, o: Oracle)
    requires StepBy(c, d, o) && c.node == ExtractContent && c.s.currentError.None?
    ensures d.s.tried == c.s.tried + [c.s.current]
    ensures d.node == ScoreQuality <==> HasPage(c.s, o) && (o.extraction == CustomResult || o.extraction == Extracted)
    ensures d.node != ScoreQuality ==> d.node == ErrorAnalysis && d.s.currentError.Some?
    ensures d.node != ScoreQuality ==> d.s.currentError.value.kind == FaultOf(c.s, o)
  {
    LoadsAgainIff(c.s);
  }

  predicate StopsCrawl(e: Option<Error>) {
    e.Some? && (e.value.kind == Captcha || e.value.kind == LoginWall || e.value.kind == Paywall)
  }

  /** Error analysis marks the run blocked for exactly the three blockers and keeps the quality for any other error. */
  lemma AnalysisStep(c: Config, d: Config, o: Oracle)
    requires StepBy(c, d, o) && c.node == ErrorAnalysis
    ensures d.node == RetryDecision && d.s.quality == if StopsCrawl(c.s.currentError) then Blocked else c.s.quality
    ensures d.s.currentError.Some?
    ensures c.s.currentError.Some? ==> d.s.currentError.value.kind == c.s.currentError.value.kind
  {
  }

  /** Scoring takes the quality over and keeps it in the history. */
  lemma ScoreStep(c: Config, d: Config, o: Oracle)
    requires StepBy(c, d, o) && c.node == ScoreQuality
    ensures d.node == RetryDecision && d.s.quality == o.score && d.s.history == c.s.history + [o.score]
  {
  }

  /** A fetch goes on with a page and without an error, and otherwise is analysed. */
  lemma FetchStep(c: Config, d: Config, o: Oracle)
    requires StepBy(c, d, o) && c.node in {FetchEntryUrl, FetchTargetPage} && c.s.currentError.None?
    ensures d.s.html <==> o.fetch == Page
    ensures d.node == if o.fetch != Page then ErrorAnalysis
                      else if c.node == FetchEntryUrl then ExtractCandidateUrls else SelectExtractionStrategy
    ensures d.s.currentError.Some? <==> o.fetch == NoPage
    ensures o.fetch == NoPage ==> d.s.currentError.value.kind == NetworkTimeout
  {
  }

  /** A decision records the error it decided on. */
  lemma DecisionStep(c: Config, d: Config, o: Oracle)
    requires StepBy(c, d, o) && c.node == RetryDecision
    ensures d.s.errors == c.s.errors + if c.s.currentError.Some? then [c.s.currentError.value] else []
    ensures d.s.currentError.None? && d.s.attemptNo == c.s.attemptNo + 1 && d.s.quality == c.s.quality
  {
  }

  // ---- Rounds ----

  /** Every round tries the next strategy of the sequence. */
  lemma SelectionTakesNext(cs: seq<Config>, i: nat)
    requires Run(cs) && Good(cs[0].s) && i + 1 < |cs| && cs[i].node == SelectExtractionStrategy
    ensures cs[i + 1].node == ExtractContent && |cs[i].s.tried| < |cs[i].s.sequence|
    ensures cs[i + 1].s.current == cs[i].s.sequence[|cs[i].s.tried|]
  {
    RunKeepsInv(cs, i);
    RunKeepsInv(cs, i + 1);
    BudgetStays(cs, i);
    BudgetStays(cs, i + 1);
    assert Step(cs[i], cs[i + 1]);
    SelectionKeepsTried(cs[i], cs[i + 1]);
  }

  lemma SelectionKeepsTried(c: Config, d: Config)
    requires Step(c, d) && c.node == SelectExtractionStrategy
    ensures d.node == ExtractContent && d.s.tried == c.s.tried
  {
  }

  /** A scored page ends the loop when it is good or partly so, or blocked; a failed one is followed by the next
      strategy while one is left within the budget. */
  lemma ScoreDecides(cs: seq<Config>, i: nat, o: Oracle)
    requires Run(cs) && Good(cs[0].s) && i + 2 < |cs| && cs[i].node == ScoreQuality && StepBy(cs[i], cs[i + 1], o)
    ensures cs[i + 2].node ==
      if o.score == Success || o.score == Partial then ExtractEventCandidates
      else if o.score == Failed && |cs[i].s.tried| < |cs[i].s.sequence| && cs[i].s.attemptNo < cs[i].s.maxAttempts
      then SelectExtractionStrategy
      else StrategyReflection
  {
    ScoreStep(cs[i], cs[i + 1], o);
    RetryDecisionIff(cs, i + 2);
    ScoreKeepsRest(cs[i], cs[i + 1], o);
  }

  lemma ScoreKeepsRest(c: Config, d: Config, o: Oracle)
    requires StepBy(c, d, o) && c.node == ScoreQuality
    ensures d.s.tried == c.s.tried && d.s.sequence == c.s.sequence && d.s.attemptNo == c.s.attemptNo
    ensures d.s.maxAttempts == c.s.maxAttempts
  {
  }

  /** A captcha, a login wall or a paywall on a page ends the crawl: the quality is blocked after the error analysis,
      the decision goes to the reflection, and nothing is fetched, selected or extracted from then on. */
  lemma BlockerEndsTheCrawl(cs: seq<Config>, i: nat, o: Oracle, k: ErrorKind, j: nat)
    requires Run(cs) && i < j < |cs| && cs[i].node == ExtractContent && StepBy(cs[i], cs[i + 1], o)
    requires Meets(cs[i].s, o, k) && k in {Captcha, LoginWall, Paywall}
    ensures cs[i + 1].node == ErrorAnalysis && !Works(cs[j].node)
    ensures j >= i + 2 ==> cs[i + 2].node == RetryDecision && cs[j].s.quality == Blocked
    ensures j >= i + 3 ==> cs[i + 3].node == StrategyReflection
  {
    RunKeepsInv(cs, i);
    ExtractionStep(cs[i], cs[i + 1], o);
    if j >= i + 2 {
      assert Step(cs[i + 1], cs[i + 2]);
      var p := StepHasAnswer(cs[i + 1], cs[i + 2]);
      AnalysisStep(cs[i + 1], cs[i + 2], p);
      BlockedIsFinal(cs, i + 2, j);
    }
    if j >= i + 3 {
      assert Step(cs[i + 2], cs[i + 3]);
      BlockedIsReflectedOn(cs, i + 2);
    }
  }

  lemma BlockedIsReflectedOn(cs: seq<Config>, i: nat)
    requires Run(cs) && i + 1 < |cs| && cs[i].node == RetryDecision && cs[i].s.quality == Blocked
    ensures cs[i + 1].node == StrategyReflection
  {
    RunKeepsInv(cs, i);
    assert Step(cs[i], cs[i + 1]);
    RunKeepsInv(cs, i + 1);
  }

  /** And nothing else does: the quality turns blocked only at such an error or by a score. */
  lemma BlockedHasCause(cs: seq<Config>, i: nat, o: Oracle)
    requires Run(cs) && 0 < i && i + 1 < |cs| && StepBy(cs[i], cs[i + 1], o)
    requires cs[i].s.quality != Blocked && cs[i + 1].s.quality == Blocked
    ensures || (cs[i].node == ErrorAnalysis && StopsCrawl(cs[i].s.currentError))
            || (cs[i].node == ScoreQuality && o.score == Blocked)
  {
    assert Step(cs[i - 1], cs[i]);
    StepLeavesStart(cs[i - 1], cs[i]);
    OnlyTwoNodesGrade(cs[i], cs[i + 1], o);
  }

  lemma OnlyTwoNodesGrade(c: Config, d: Config, o: Oracle)
    requires StepBy(c, d, o) && c.node != Initialize && c.s.quality != Blocked && d.s.quality == Blocked
    ensures || (c.node == ErrorAnalysis && StopsCrawl(c.s.currentError))
            || (c.node == ScoreQuality && o.score == Blocked)
  {
  }

  /** The nodes after the loop, in their order. */
  lemma FinishingOrder(c: Config, d: Config)
    requires Step(c, d) && Finishing(c.node)
    ensures d.node ==
      if c.node == ExtractEventCandidates then LlmQualityJudge
      else if c.node == LlmQualityJudge then StrategyReflection
      else if c.node == StrategyReflection then WriteSourceReport else End
  {
  }
}
