/** The crawl graph of agents/graph.py as a state machine: each node maps the state to an update, each
    conditional edge reads the updated state. Fetching, extraction and scoring answer as they like. */
module CrawlGraph {
  import opened Options
  import opened Sorting

  const FIRST_STRATEGY := "httpx_direct"

  const HTTPX := {"httpx_direct", "httpx_mobile_ua", "httpx_random_ua"}
  const PLAYWRIGHT := {"playwright_basic", "playwright_scroll", "playwright_wait_network_idle", "playwright_click_more"}

  datatype Quality = Success | Partial | Blocked | Failed

  /** The error types this graph can record; NoType is an error dict without one. */
  datatype ErrorKind = NetworkTimeout | ExtractionEmpty | Captcha | LoginWall | Paywall | NoType

  predicate IsBlocker(k: ErrorKind) {
    k.Captcha? || k.LoginWall? || k.Paywall?
  }

  predicate IsRetryable(k: ErrorKind) {
    k.NetworkTimeout?
  }

  datatype Error = Error(kind: ErrorKind, retryable: bool)

  datatype Crawl = Crawl(
    maxAttempts: int, sequence: seq<string>,
    attemptNo: nat, tried: seq<string>, current: string,
    html: bool, extracted: bool, quality: Quality,
    errors: seq<Error>, currentError: Option<Error>, history: seq<Quality>,
    shouldRetry: bool, exhausted: bool)

  datatype Node =
    | Initialize | BuildSearchQuery | FetchEntryUrl | ExtractCandidateUrls | FetchTargetPage
    | SelectExtractionStrategy | ExtractContent | ScoreQuality | RetryDecision | ErrorAnalysis
    | ExtractEventCandidates | LlmQualityJudge | StrategyReflection | WriteSourceReport | End

  /** What a fetch can bring: a page, an empty page from a source hook, or nothing. */
  datatype Fetch = Page | EmptyHook | NoPage

  /** What extraction can make of a page. */
  datatype Extraction = CustomResult | BlockerFound(kind: ErrorKind) | NothingExtracted | Extracted

  /** Everything outside the graph that a node consults. */
  datatype Oracle = Oracle(fetch: Fetch, refetched: bool, extraction: Extraction, score: Quality)

  // ---- Nodes ----

  function InitializeNode(s: Crawl): Crawl {
    s.(attemptNo := 0, tried := [], current := FIRST_STRATEGY, html := false, extracted := false, quality := Failed,
       errors := [], currentError := None, history := [], shouldRetry := false, exhausted := false)
  }

  function FetchNode(s: Crawl, fetch: Fetch, retryable: bool): Crawl {
    match fetch
    case Page => s.(html := true)
    case EmptyHook => s.(html := false)
    case NoPage => s.(html := false, currentError := Some(Error(NetworkTimeout, retryable)))
  }

  /** The strategies of the sequence not tried yet, in order. */
  function Remaining(sequence: seq<string>, tried: seq<string>): seq<string> {
    if sequence == [] then []
    else (if sequence[0] in tried then [] else [sequence[0]]) + Remaining(sequence[1..], tried)
  }

  function SelectNode(s: Crawl): Crawl {
    var remaining := Remaining(s.sequence, s.tried);
    s.(current := if remaining != [] then remaining[0] else s.current, exhausted := |remaining| <= 1)
  }

  predicate NeedsRefetch(s: Crawl) {
    s.current in PLAYWRIGHT || (s.current in HTTPX && s.attemptNo > 0 && s.current != FIRST_STRATEGY)
  }

  function ExtractNode(s: Crawl, refetched: bool, extraction: Extraction): Crawl {
    var t := s.(tried := s.tried + [s.current]);
    if !(s.html || (NeedsRefetch(s) && refetched)) then
      t.(extracted := false, currentError := Some(Error(ExtractionEmpty, true)))
    else
      match extraction
      case CustomResult => t.(extracted := true)
      case BlockerFound(k) => t.(extracted := false, currentError := Some(Error(k, false)))
      case NothingExtracted => t.(extracted := false, currentError := Some(Error(ExtractionEmpty, true)))
      case Extracted => t.(extracted := true)
  }

  function ScoreNode(s: Crawl, score: Quality): Crawl {
    s.(quality := score, history := s.history + [score])
  }

  function RetryNode(s: Crawl): Crawl {
    var retry :=
      if s.quality in {Success, Partial} then false
      else if s.exhausted || s.attemptNo >= s.maxAttempts then false
      else if s.currentError.Some? && s.currentError.value.retryable then true
      else if s.quality == Failed then !s.exhausted && s.attemptNo < s.maxAttempts
      else false;
    s.(shouldRetry := retry, attemptNo := s.attemptNo + 1, currentError := None,
       errors := s.errors + if s.currentError.Some? then [s.currentError.value] else [])
  }

  function ErrorNode(s: Crawl): Crawl {
    var kind := if s.currentError.Some? then s.currentError.value.kind else NoType;
    s.(currentError := Some(Error(kind, IsRetryable(kind))),
       quality := if IsBlocker(kind) then Blocked else s.quality,
       shouldRetry := !IsBlocker(kind) && IsRetryable(kind))
  }

  function Update(n: Node, s: Crawl, o: Oracle): Crawl {
    match n
    case Initialize => InitializeNode(s)
    case FetchEntryUrl => FetchNode(s, o.fetch, false)
    case FetchTargetPage => FetchNode(s, o.fetch, true)
    case SelectExtractionStrategy => SelectNode(s)
    case ExtractContent => ExtractNode(s, o.refetched, o.extraction)
    case ScoreQuality => ScoreNode(s, o.score)
    case RetryDecision => RetryNode(s)
    case ErrorAnalysis => ErrorNode(s)
    case _ => s
  }

  // ---- Edges ----

  function Route(n: Node, s: Crawl): Node {
    match n
    case Initialize => BuildSearchQuery
    case BuildSearchQuery => FetchEntryUrl
    case FetchEntryUrl => if s.html && s.currentError.None? then ExtractCandidateUrls else ErrorAnalysis
    case ExtractCandidateUrls => FetchTargetPage
    case FetchTargetPage => if s.html && s.currentError.None? then SelectExtractionStrategy else ErrorAnalysis
    case SelectExtractionStrategy => ExtractContent
    case ExtractContent => if s.extracted && s.currentError.None? then ScoreQuality else ErrorAnalysis
    case ScoreQuality => RetryDecision
    case ErrorAnalysis => RetryDecision
    case RetryDecision =>
      if s.quality in {Success, Partial} then ExtractEventCandidates
      else if s.shouldRetry && !s.exhausted then SelectExtractionStrategy
      else StrategyReflection
    case ExtractEventCandidates => LlmQualityJudge
    case LlmQualityJudge => StrategyReflection
    case StrategyReflection => WriteSourceReport
    case WriteSourceReport => End
    case End => End
  }

  datatype Config = Config(node: Node, s: Crawl)

  /** A blocker is found only by the content classifier. */
  predicate Sensible(o: Oracle) {
    o.extraction.BlockerFound? ==> IsBlocker(o.extraction.kind)
  }

  ghost predicate Step(c: Config, d: Config) {
    c.node != End && exists o :: Sensible(o) && d.s == Update(c.node, c.s, o) && d.node == Route(c.node, d.s)
  }

  /** Any run of the compiled graph, from any caller's state. */
  ghost predicate Run(cs: seq<Config>) {
    && |cs| > 0 && cs[0].node == Initialize
    && forall i :: 0 <= i < |cs| - 1 ==> Step(cs[i], cs[i + 1])
  }

  // ---- The invariant ----

  function Budget(s: Crawl): nat {
    if s.maxAttempts > 0 then s.maxAttempts else 0
  }

  /** A non-empty sequence of distinct strategies: the only kind for which the tried ones are promised to be fresh. */
  ghost predicate Good(s: Crawl) {
    s.sequence != [] && Distinct(s.sequence)
  }

  ghost predicate IsPrefix(s: Crawl) {
    Good(s) ==> s.tried <= s.sequence
  }

  /** Some strategy of a good sequence is left. */
  ghost predicate SomeLeft(s: Crawl) {
    Good(s) ==> |s.tried| < |s.sequence|
  }

  /** Over a good sequence the flag says that every strategy was tried. */
  ghost predicate FlagIsExact(s: Crawl) {
    Good(s) ==> (s.exhausted <==> |s.tried| == |s.sequence|)
  }

  ghost predicate Balanced(s: Crawl) {
    s.attemptNo == |s.errors| + |s.history|
  }

  ghost predicate Fresh(s: Crawl) {
    s.tried == [] && !s.exhausted && s.quality == Failed && s.attemptNo == 0 && s.errors == [] && s.history == []
  }

  /** What holds whenever a node is about to run. */
  ghost predicate Inv(c: Config) {
    var s := c.s;
    match c.node
    case Initialize => true
    case BuildSearchQuery => IsPrefix(s) && Fresh(s) && s.currentError.None?
    case FetchEntryUrl => IsPrefix(s) && Fresh(s) && s.currentError.None?
    case ExtractCandidateUrls => IsPrefix(s) && Fresh(s) && s.currentError.None?
    case FetchTargetPage => IsPrefix(s) && Fresh(s) && s.currentError.None?
    case SelectExtractionStrategy =>
      IsPrefix(s) && SomeLeft(s) && s.quality == Failed && Balanced(s) && s.attemptNo <= Budget(s)
      && s.currentError.None?
    case ExtractContent =>
      IsPrefix(s) && SomeLeft(s) && s.quality == Failed && Balanced(s) && s.attemptNo <= Budget(s)
      && s.currentError.None?
      && (Good(s) ==> s.current == s.sequence[|s.tried|] && (s.exhausted <==> |s.tried| + 1 == |s.sequence|))
    case ScoreQuality =>
      IsPrefix(s) && s.quality == Failed && Balanced(s) && s.attemptNo <= Budget(s) && s.currentError.None?
      && FlagIsExact(s)
    case ErrorAnalysis =>
      IsPrefix(s) && s.quality == Failed && Balanced(s) && s.attemptNo <= Budget(s) && FlagIsExact(s)
    case RetryDecision =>
      IsPrefix(s) && s.attemptNo <= Budget(s) && FlagIsExact(s)
      && s.attemptNo + 1 == |s.errors| + |s.history| + (if s.currentError.Some? then 1 else 0)
      && (s.quality == Blocked && s.currentError.Some? ==> !s.currentError.value.retryable)
      && (s.quality in {Success, Partial} ==> s.currentError.None?)
    case _ => IsPrefix(s) && Balanced(s) && s.attemptNo <= Budget(s) + 1
  }

  lemma {:induction false} RemainingAfterPrefix(sequence: seq<string>, tried: seq<string>, k: nat)
    requires Distinct(sequence) && k <= |sequence|
    requires forall i :: 0 <= i < |sequence| ==> (sequence[i] in tried <==> i < k)
    ensures Remaining(sequence, tried) == sequence[k..]
    decreases |sequence|
  {
    if sequence != [] {
      RemainingAfterPrefix(sequence[1..], tried, if k == 0 then 0 else k - 1);
      assert k > 0 ==> sequence[1..][k - 1..] == sequence[k..];
    }
  }

  lemma RemainingIsRest(s: Crawl)
    requires IsPrefix(s) && Good(s)
    ensures Remaining(s.sequence, s.tried) == s.sequence[|s.tried|..]
  {
    forall i | 0 <= i < |s.sequence| ensures s.sequence[i] in s.tried <==> i < |s.tried| {
      if i < |s.tried| { assert s.tried[i] == s.sequence[i]; }
    }
    RemainingAfterPrefix(s.sequence, s.tried, |s.tried|);
  }

  lemma SelectKeepsInv(s: Crawl, o: Oracle)
    requires Inv(Config(SelectExtractionStrategy, s))
    ensures Inv(Config(ExtractContent, SelectNode(s)))
  {
    if Good(s) { RemainingIsRest(s); }
  }

  lemma PrefixGrows(tried: seq<string>, sequence: seq<string>, current: string)
    requires tried <= sequence && |tried| < |sequence| && current == sequence[|tried|]
    ensures tried + [current] <= sequence
  {
    assert sequence[..|tried| + 1] == tried + [current];
  }

  lemma ExtractKeepsInv(s: Crawl, o: Oracle)
    requires Inv(Config(ExtractContent, s))
    ensures var t := ExtractNode(s, o.refetched, o.extraction); Inv(Config(Route(ExtractContent, t), t))
  {
    var t := ExtractNode(s, o.refetched, o.extraction);
    ExtractOutcome(s, o);
    AfterExtract(s, t);
  }

  lemma ExtractOutcome(s: Crawl, o: Oracle)
    ensures var t := ExtractNode(s, o.refetched, o.extraction);
      t == s.(tried := s.tried + [s.current], extracted := t.extracted, currentError := t.currentError)
  {
  }

  lemma AfterExtract(s: Crawl, t: Crawl)
    requires Inv(Config(ExtractContent, s))
    requires t == s.(tried := s.tried + [s.current], extracted := t.extracted, currentError := t.currentError)
    ensures Inv(Config(Route(ExtractContent, t), t))
  {
    if Good(s) { PrefixGrows(s.tried, s.sequence, s.current); }
  }

  lemma RetryKeepsInv(s: Crawl)
    requires Inv(Config(RetryDecision, s))
    ensures var t := RetryNode(s); Inv(Config(Route(RetryDecision, t), t))
  {
  }

  lemma ErrorKeepsInv(s: Crawl)
    requires Inv(Config(ErrorAnalysis, s))
    ensures Inv(Config(RetryDecision, ErrorNode(s)))
  {
  }

  lemma FetchKeepsInv(n: Node, s: Crawl, o: Oracle)
    requires (n == FetchEntryUrl || n == FetchTargetPage) && Inv(Config(n, s))
    ensures var t := Update(n, s, o); Inv(Config(Route(n, t), t))
  {
  }

  lemma StepKeepsInv(c: Config, d: Config)
    requires Inv(c) && Step(c, d)
    ensures Inv(d)
  {
    var o :| Sensible(o) && d.s == Update(c.node, c.s, o) && d.node == Route(c.node, d.s);
    match c.node
    case SelectExtractionStrategy => SelectKeepsInv(c.s, o);
    case ExtractContent => ExtractKeepsInv(c.s, o);
    case RetryDecision => RetryKeepsInv(c.s);
    case ErrorAnalysis => ErrorKeepsInv(c.s);
    case FetchEntryUrl => FetchKeepsInv(c.node, c.s, o);
    case FetchTargetPage => FetchKeepsInv(c.node, c.s, o);
    case ScoreQuality => ScoreKeepsInv(c.s, o.score);
    case _ => RestKeepsInv(c.node, c.s, o);
  }

  lemma ScoreKeepsInv(s: Crawl, score: Quality)
    requires Inv(Config(ScoreQuality, s))
    ensures Inv(Config(RetryDecision, ScoreNode(s, score)))
  {
  }

  lemma RestKeepsInv(n: Node, s: Crawl, o: Oracle)
    requires n in {Initialize, BuildSearchQuery, ExtractCandidateUrls, ExtractEventCandidates, LlmQualityJudge,
                   StrategyReflection, WriteSourceReport}
    requires Inv(Config(n, s))
    ensures var t := Update(n, s, o); Inv(Config(Route(n, t), t))
  {
  }

  lemma {:induction false} RunKeepsInv(cs: seq<Config>, i: nat)
    requires Run(cs) && i < |cs|
    ensures Inv(cs[i])
    decreases i
  {
    if i > 0 {
      RunKeepsInv(cs, i - 1);
      StepKeepsInv(cs[i - 1], cs[i]);
    }
  }

  // ---- Whole runs ----

  /** The tried strategies are always a duplicate-free prefix of the sequence, and extraction never repeats one. */
  lemma StrategiesAreFresh(cs: seq<Config>, i: nat)
    requires Run(cs) && Good(cs[0].s) && 0 < i < |cs|
    ensures cs[i].s.tried <= cs[i].s.sequence && Distinct(cs[i].s.tried)
    ensures cs[i].node == ExtractContent ==> cs[i].s.current !in cs[i].s.tried
  {
    RunKeepsInv(cs, i);
    BudgetStays(cs, i);
    StepLeavesStart(cs[i - 1], cs[i]);
    var s := cs[i].s;
    assert forall k :: 0 <= k < |s.tried| ==> s.tried[k] == s.sequence[k];
  }

  /** After every retry decision the attempt number is the number of recorded errors and scored attempts. */
  lemma AttemptsAreAccountedFor(cs: seq<Config>, i: nat)
    requires Run(cs) && 0 < i < |cs| && cs[i - 1].node == RetryDecision
    ensures cs[i].s.attemptNo == |cs[i].s.errors| + |cs[i].s.history| == cs[i - 1].s.attemptNo + 1
  {
    RunKeepsInv(cs, i - 1);
    RunKeepsInv(cs, i);
  }

  /** The decision is exactly this; whether the error was retryable never matters. */
  lemma RetryDecisionIff(cs: seq<Config>, i: nat)
    requires Run(cs) && Good(cs[0].s) && 0 < i < |cs| && cs[i - 1].node == RetryDecision
    ensures var s := cs[i - 1].s;
      && (cs[i].node == ExtractEventCandidates <==> s.quality in {Success, Partial})
      && (cs[i].node == SelectExtractionStrategy <==>
            s.quality == Failed && |s.tried| < |s.sequence| && s.attemptNo < s.maxAttempts)
      && (cs[i].node == StrategyReflection <==>
            s.quality == Blocked
              || (s.quality == Failed && (|s.tried| == |s.sequence| || s.attemptNo >= s.maxAttempts)))
  {
    RunKeepsInv(cs, i - 1);
    BudgetStays(cs, i - 1);
    DecisionOn(cs[i - 1].s);
    assert Step(cs[i - 1], cs[i]);
  }

  lemma DecisionOn(s: Crawl)
    requires Inv(Config(RetryDecision, s)) && Good(s)
    ensures var next := Route(RetryDecision, RetryNode(s));
      && (next == ExtractEventCandidates <==> s.quality in {Success, Partial})
      && (next == SelectExtractionStrategy <==>
            s.quality == Failed && |s.tried| < |s.sequence| && s.attemptNo < s.maxAttempts)
      && (next == StrategyReflection <==>
            s.quality == Blocked
              || (s.quality == Failed && (|s.tried| == |s.sequence| || s.attemptNo >= s.maxAttempts)))
  {
  }

  lemma StepLeavesStart(c: Config, d: Config)
    requires Step(c, d)
    ensures d.node != Initialize
  {
  }

  predicate Works(n: Node) {
    n in {FetchEntryUrl, FetchTargetPage, SelectExtractionStrategy, ExtractContent, ExtractCandidateUrls}
  }

  /** Past the loop only the reporting nodes run. */
  predicate Finishing(n: Node) {
    n in {ExtractEventCandidates, LlmQualityJudge, StrategyReflection, WriteSourceReport, End}
  }

  lemma {:induction false} FinishingStays(cs: seq<Config>, i: nat, j: nat)
    requires Run(cs) && i <= j < |cs| && Finishing(cs[i].node)
    ensures Finishing(cs[j].node) && cs[j].s == cs[i].s
    decreases j
  {
    if j > i {
      FinishingStays(cs, i, j - 1);
      FinishingStep(cs[j - 1], cs[j]);
    }
  }

  lemma FinishingStep(c: Config, d: Config)
    requires Step(c, d) && Finishing(c.node)
    ensures Finishing(d.node) && d.s == c.s
  {
  }

  /** Once the quality is BLOCKED nothing is fetched, selected or extracted any more. */
  lemma BlockedIsFinal(cs: seq<Config>, i: nat, j: nat)
    requires Run(cs) && 0 < i <= j < |cs| && cs[i].s.quality == Blocked
    ensures !Works(cs[j].node) && cs[j].s.quality == Blocked
  {
    RunKeepsInv(cs, i);
    assert Step(cs[i - 1], cs[i]);
    assert cs[i].node != Initialize;
    if j > i && !Finishing(cs[i].node) {
      assert cs[i].node == RetryDecision;
      assert Step(cs[i], cs[i + 1]);
      FinishingStays(cs, i + 1, j);
    } else if Finishing(cs[i].node) {
      FinishingStays(cs, i, j);
    }
  }

  // ---- Termination ----

  /** Steps left at most: four per retry decision still allowed, plus the way in and the way out. */
  ghost function StepsLeft(c: Config): int {
    var rounds := Budget(c.s) + 1 - c.s.attemptNo;
    match c.node
    case Initialize => 9 + 4 * (Budget(c.s) + 1)
    case BuildSearchQuery => 8 + 4 * rounds
    case FetchEntryUrl => 7 + 4 * rounds
    case ExtractCandidateUrls => 6 + 4 * rounds
    case FetchTargetPage => 5 + 4 * rounds
    case SelectExtractionStrategy => 4 + 4 * rounds
    case ExtractContent => 3 + 4 * rounds
    case ScoreQuality => 2 + 4 * rounds
    case ErrorAnalysis => 2 + 4 * rounds
    case RetryDecision => 1 + 4 * rounds
    case ExtractEventCandidates => 4
    case LlmQualityJudge => 3
    case StrategyReflection => 2
    case WriteSourceReport => 1
    case End => 0
  }

  lemma StepsShrink(c: Config, d: Config)
    requires Inv(c) && Step(c, d)
    ensures d.s.maxAttempts == c.s.maxAttempts && 0 <= StepsLeft(d) < StepsLeft(c)
  {
    StepKeepsInv(c, d);
    EnoughLeft(d);
    var o :| Sensible(o) && d.s == Update(c.node, c.s, o) && d.node == Route(c.node, d.s);
    if c.node == RetryDecision {
      RetryShrinks(c.s);
    } else if c.node == ExtractContent {
      ExtractShrinks(c.s, o);
    } else {
      OthersShrink(c.node, c.s, o);
    }
  }

  lemma EnoughLeft(c: Config)
    requires Inv(c)
    ensures 0 <= StepsLeft(c)
  {
  }

  ghost predicate Shrinks(n: Node, s: Crawl, t: Crawl) {
    t.maxAttempts == s.maxAttempts && StepsLeft(Config(Route(n, t), t)) < StepsLeft(Config(n, s))
  }

  lemma RetryShrinks(s: Crawl)
    requires Inv(Config(RetryDecision, s))
    ensures Shrinks(RetryDecision, s, RetryNode(s))
  {
  }

  lemma ExtractShrinks(s: Crawl, o: Oracle)
    ensures Shrinks(ExtractContent, s, ExtractNode(s, o.refetched, o.extraction))
  {
    var t := ExtractNode(s, o.refetched, o.extraction);
    assert t.maxAttempts == s.maxAttempts && t.attemptNo == s.attemptNo;
  }

  lemma OthersShrink(n: Node, s: Crawl, o: Oracle)
    requires n != RetryDecision && n != ExtractContent && n != End
    ensures Shrinks(n, s, Update(n, s, o))
  {
  }

  /** How many retry decisions the first i configurations of a run take. */
  function Decisions(cs: seq<Config>, i: nat): (n: nat)
    requires i <= |cs|
    ensures n <= i
  {
    if i == 0 then 0 else Decisions(cs, i - 1) + if cs[i - 1].node == RetryDecision then 1 else 0
  }

  lemma StepCountsDecision(c: Config, d: Config)
    requires Step(c, d) && c.node != Initialize
    ensures d.s.attemptNo == c.s.attemptNo + if c.node == RetryDecision then 1 else 0
  {
  }

  lemma StartResetsCount(c: Config, d: Config)
    requires Step(c, d) && c.node == Initialize
    ensures d.s.attemptNo == 0
  {
  }

  /** The attempt number is the number of retry decisions taken. */
  lemma {:induction false} AttemptsAreDecisions(cs: seq<Config>, i: nat)
    requires Run(cs) && 0 < i < |cs|
    ensures cs[i].s.attemptNo == Decisions(cs, i)
    decreases i
  {
    if i == 1 {
      StartResetsCount(cs[0], cs[1]);
    } else {
      AttemptsAreDecisions(cs, i - 1);
      StepLeavesStart(cs[i - 2], cs[i - 1]);
      StepCountsDecision(cs[i - 1], cs[i]);
    }
  }

  /** Every run stops within a bound that depends on max_attempts alone, after at most max_attempts + 1 decisions. */
  lemma {:induction false} RunIsBounded(cs: seq<Config>, i: nat)
    requires Run(cs) && i < |cs|
    ensures i + StepsLeft(cs[i]) <= 13 + 4 * Budget(cs[0].s) && 0 <= StepsLeft(cs[i])
    ensures Decisions(cs, i) <= Budget(cs[0].s) + 1
    decreases i
  {
    RunKeepsInv(cs, i);
    if i > 0 {
      AttemptsAreDecisions(cs, i);
      RunIsBounded(cs, i - 1);
      RunKeepsInv(cs, i - 1);
      StepsShrink(cs[i - 1], cs[i]);
      BudgetStays(cs, i);
    }
  }

  lemma StepKeepsBudget(c: Config, d: Config)
    requires Step(c, d)
    ensures d.s.maxAttempts == c.s.maxAttempts && d.s.sequence == c.s.sequence
  {
  }

  lemma {:induction false} BudgetStays(cs: seq<Config>, i: nat)
    requires Run(cs) && i < |cs|
    ensures cs[i].s.maxAttempts == cs[0].s.maxAttempts && cs[i].s.sequence == cs[0].s.sequence
    decreases i
  {
    if i > 0 {
      BudgetStays(cs, i - 1);
      StepKeepsBudget(cs[i - 1], cs[i]);
    }
  }

  /** A run that cannot go on has reached the end: no node is stuck. */
  lemma NothingIsStuck(c: Config)
    requires c.node != End
    ensures exists d :: Step(c, d)
  {
    var o := Oracle(NoPage, false, NothingExtracted, Failed);
    var t := Update(c.node, c.s, o);
    assert Sensible(o);
    assert Step(c, Config(Route(c.node, t), t));
  }
}
