/** The fetch strategy loop, its strategy selection and its retry policy
    (strategy_runner.py, strategy_selection.py, retry_policy.py). */
module StrategyLoops {
  import opened Options

  datatype Strategy =
    | HttpxDirect | HttpxMobileUa | HttpxRandomUa
    | Readability | Trafilatura | DomHeuristic
    | PlaywrightBasic | PlaywrightScroll | PlaywrightWaitNetworkIdle | PlaywrightClickMore
    | SeleniumRenderedDom

  const STRATEGY_SEQUENCE := [
    HttpxDirect, HttpxMobileUa, HttpxRandomUa, Readability, Trafilatura, DomHeuristic,
    PlaywrightBasic, PlaywrightScroll, PlaywrightWaitNetworkIdle, PlaywrightClickMore]

  const PLAYWRIGHT := {PlaywrightBasic, PlaywrightScroll, PlaywrightWaitNetworkIdle, PlaywrightClickMore}
  const HTTPX := {HttpxDirect, HttpxMobileUa, HttpxRandomUa}

  /** The place in the sequence; selenium, which is not in it, comes after its end. */
  function Place(s: Strategy): (n: nat)
    ensures n < |STRATEGY_SEQUENCE| ==> STRATEGY_SEQUENCE[n] == s
    ensures n == |STRATEGY_SEQUENCE| <==> s == SeleniumRenderedDom
    ensures n <= |STRATEGY_SEQUENCE|
  {
    match s
    case HttpxDirect => 0
    case HttpxMobileUa => 1
    case HttpxRandomUa => 2
    case Readability => 3
    case Trafilatura => 4
    case DomHeuristic => 5
    case PlaywrightBasic => 6
    case PlaywrightScroll => 7
    case PlaywrightWaitNetworkIdle => 8
    case PlaywrightClickMore => 9
    case SeleniumRenderedDom => 10
  }

  /** How an attempt can fail, as far as the loop tells failures apart. */
  datatype Failure = Blocker | RateLimited | EmptyExtraction | Other

  datatype Attempt = Attempt(strategy: Strategy, success: bool, failure: Option<Failure>, delay: real)

  /** max_strategies_per_url after the override or per-source budget, and the backoff. */
  datatype Policy = Policy(budget: int, initialDelay: real, maxDelay: real, base: real)

  /** What selection reads of a source: whether it is a feed and which browser it prefers. */
  datatype Spec = Spec(isFeed: bool, prefersSelenium: bool)

  // ---- Retry policy ----

  function NextStrategy(current: Strategy): Option<Strategy> {
    var idx := Place(current);
    if idx == |STRATEGY_SEQUENCE| then Some(STRATEGY_SEQUENCE[0])  // not in the sequence
    else if idx + 1 < |STRATEGY_SEQUENCE| then Some(STRATEGY_SEQUENCE[idx + 1])
    else None
  }

  function Power(base: real, n: nat): real {
    if n == 0 then 1.0 else base * Power(base, n - 1)
  }

  function DelayForAttempt(p: Policy, attemptNo: nat): real {
    var d := p.initialDelay * Power(p.base, if attemptNo == 0 then 0 else attemptNo - 1);
    if d < p.maxDelay then d else p.maxDelay
  }

  // ---- Selection ----

  /** The playwright strategies some attempt tried and failed. */
  function FailedPlaywright(attempts: seq<Attempt>): set<Strategy> {
    if attempts == [] then {}
    else
      var a := attempts[|attempts| - 1];
      FailedPlaywright(attempts[..|attempts| - 1]) + if !a.success && a.strategy in PLAYWRIGHT then {a.strategy} else {}
  }

  predicate AllPlaywrightFailed(attempts: seq<Attempt>) {
    PLAYWRIGHT <= FailedPlaywright(attempts)
  }

  function SelectNext(spec: Spec, attempts: seq<Attempt>, failure: Failure, policy: Policy,
                      seleniumReady: bool): Option<Strategy> {
    if failure == Blocker || failure == RateLimited then None
    else if |attempts| >= policy.budget then None
    else if attempts == [] then Some(STRATEGY_SEQUENCE[0])
    else
      var current := attempts[|attempts| - 1].strategy;
      if failure == EmptyExtraction && current in HTTPX then Some(PlaywrightBasic)
      else
        match NextStrategy(current)
        case None =>
          if (spec.prefersSelenium || AllPlaywrightFailed(attempts)) && seleniumReady
          then Some(SeleniumRenderedDom) else None
        case Some(next) =>
          if spec.isFeed && next in PLAYWRIGHT then None else Some(next)
  }

  // ---- The loop ----

  /** What a fetch answers: a page, an empty response, or an exception classified as a failure. */
  datatype Fetch = Page | NoPage | Raises(failure: Failure)

  datatype Status = Cached | Succeeded | BlockedStop | RateLimitedStop | Exhausted

  datatype LoopResult = LoopResult(status: Status, attempts: seq<Attempt>)

  function AttemptFor(strategy: Strategy, fetch: Fetch, delay: real): Attempt {
    match fetch
    case Page => Attempt(strategy, true, None, delay)
    case NoPage => Attempt(strategy, false, Some(EmptyExtraction), delay)
    case Raises(f) => Attempt(strategy, false, Some(f), delay)
  }

  // ---- What a run of the loop is ----

  /** The 429 counter after the attempts: a raised error that is no rate limit clears it, an empty page does not. */
  function Retries(attempts: seq<Attempt>, fetches: nat -> Fetch): nat {
    if attempts == [] then 0
    else
      var before := attempts[..|attempts| - 1];
      match fetches(|before|)
      case Raises(RateLimited) => 1 + Retries(before, fetches)
      case Raises(_) => 0
      case _ => Retries(before, fetches)
  }

  datatype Verdict = Try(strategy: Strategy) | Stop(status: Status)

  /** What the surroundings answer: the fetches, whether selenium is installed, and the 429 allowance. */
  datatype World = World(fetches: nat -> Fetch, seleniumReady: nat -> bool, maxRetries: int)

  /** What the attempts made so far call for next, the budget aside. */
  function VerdictOn(spec: Spec, policy: Policy, w: World, attempts: seq<Attempt>): Verdict {
    if attempts == [] then Try(STRATEGY_SEQUENCE[0])
    else
      var before := attempts[..|attempts| - 1];
      var last := attempts[|before|];
      match last.failure
      case None => Stop(Succeeded)
      case Some(Blocker) => Stop(BlockedStop)
      case Some(RateLimited) =>
        if Retries(before, w.fetches) < w.maxRetries then Try(last.strategy) else Stop(RateLimitedStop)
      case Some(f) =>
        match SelectNext(spec, attempts, f, policy, w.seleniumReady(|attempts|))
        case None => Stop(Exhausted)
        case Some(next) => Try(next)
  }

  /** Attempt k is what the k attempts before it call for, within the budget, after its backoff,
      and carries the k-th fetch's answer. */
  ghost predicate IsTrace(spec: Spec, policy: Policy, w: World, attempts: seq<Attempt>) {
    forall k: nat :: k < |attempts| ==>
      && k < policy.budget
      && VerdictOn(spec, policy, w, attempts[..k]) == Try(attempts[k].strategy)
      && attempts[k] == AttemptFor(attempts[k].strategy, w.fetches(k), Wait(policy, k))
  }

  function Wait(policy: Policy, k: nat): real {
    if k == 0 then 0.0 else DelayForAttempt(policy, k)
  }

  /** A trace that stops where the code stops, with the status it reports. */
  ghost predicate IsRun(spec: Spec, policy: Policy, w: World, r: LoopResult) {
    && IsTrace(spec, policy, w, r.attempts)
    && match VerdictOn(spec, policy, w, r.attempts)
       case Stop(status) => r.status == status
       case Try(_) => |r.attempts| >= policy.budget && r.status == Exhausted
  }

  /** The last attempt carries its fetch's answer. */
  ghost predicate AnswersTo(attempts: seq<Attempt>, w: World)
    requires attempts != []
  {
    var n: nat := |attempts| - 1;
    attempts[n] == AttemptFor(attempts[n].strategy, w.fetches(n), attempts[n].delay)
  }

  lemma TraceGrows(spec: Spec, policy: Policy, w: World, attempts: seq<Attempt>, a: Attempt)
    requires IsTrace(spec, policy, w, attempts) && |attempts| < policy.budget
    requires VerdictOn(spec, policy, w, attempts) == Try(a.strategy)
    requires a == AttemptFor(a.strategy, w.fetches(|attempts|), Wait(policy, |attempts|))
    ensures IsTrace(spec, policy, w, attempts + [a]) && (attempts + [a])[..|attempts|] == attempts
    ensures AnswersTo(attempts + [a], w)
  {
    var more := attempts + [a];
    forall k: nat | k < |more|
      ensures VerdictOn(spec, policy, w, more[..k]) == Try(more[k].strategy)
      ensures more[k] == AttemptFor(more[k].strategy, w.fetches(k), Wait(policy, k))
    {
      if k < |attempts| { assert more[..k] == attempts[..k]; } else { assert more[..k] == attempts; }
    }
  }

  /** What the loop's two variables say between iterations. */
  ghost predicate Calls(spec: Spec, policy: Policy, w: World, attempts: seq<Attempt>, current: Option<Strategy>,
                        retries: nat) {
    && retries == Retries(attempts, w.fetches)
    && VerdictOn(spec, policy, w, attempts) == if current.Some? then Try(current.value) else Stop(Exhausted)
  }

  /** The branches after one fetch: stop with a status, or go on with a strategy and a 429 counter. */
  method Settle(spec: Spec, policy: Policy, w: World, attempts: seq<Attempt>, retries: nat)
    returns (stop: Option<Status>, next: Option<Strategy>, retriesNow: nat)
    requires attempts != []
    requires AnswersTo(attempts, w) && retries == Retries(attempts[..|attempts| - 1], w.fetches)
    ensures stop.Some? ==> VerdictOn(spec, policy, w, attempts) == Stop(stop.value)
    ensures stop.None? ==> Calls(spec, policy, w, attempts, next, retriesNow)
  {
    var last := attempts[|attempts| - 1];
    var fetch := w.fetches(|attempts| - 1);
    stop, next, retriesNow := None, Some(last.strategy), retries;
    match fetch
    case Page =>
      stop := Some(Succeeded);
    case Raises(Blocker) =>
      stop := Some(BlockedStop);
    case Raises(RateLimited) =>
      if retries < w.maxRetries {
        retriesNow := retries + 1;
      } else {
        stop := Some(RateLimitedStop);
      }
    case Raises(f) =>
      retriesNow := 0;
      next := SelectNext(spec, attempts, f, policy, w.seleniumReady(|attempts|));
    case NoPage =>
      next := SelectNext(spec, attempts, EmptyExtraction, policy, w.seleniumReady(|attempts|));
  }

  /** One fetch: append its attempt, then branch on it. */
  method TryOnce(spec: Spec, policy: Policy, w: World, attempts: seq<Attempt>, strategy: Strategy, retries: nat)
    returns (more: seq<Attempt>, stop: Option<Status>, next: Option<Strategy>, retriesNow: nat)
    requires IsTrace(spec, policy, w, attempts) && |attempts| < policy.budget
    requires Calls(spec, policy, w, attempts, Some(strategy), retries)
    ensures IsTrace(spec, policy, w, more) && |more| == |attempts| + 1
    ensures if stop.Some? then VerdictOn(spec, policy, w, more) == Stop(stop.value)
            else Calls(spec, policy, w, more, next, retriesNow)
  {
    var delay := if attempts != [] then DelayForAttempt(policy, |attempts|) else 0.0;
    var a := AttemptFor(strategy, w.fetches(|attempts|), delay);
    TraceGrows(spec, policy, w, attempts, a);
    more := attempts + [a];
    stop, next, retriesNow := Settle(spec, policy, w, more, retries);
  }

  method Iterate(spec: Spec, policy: Policy, w: World) returns (r: LoopResult)
    ensures IsRun(spec, policy, w, r)
  {
    var retries: nat := 0;
    var attempts: seq<Attempt> := [];
    var current := Some(STRATEGY_SEQUENCE[0]);
    while current.Some?
      invariant IsTrace(spec, policy, w, attempts) && Calls(spec, policy, w, attempts, current, retries)
      decreases policy.budget - |attempts|, current.Some?
    {
      if |attempts| >= policy.budget {
        break;
      }
      var stop;
      attempts, stop, current, retries := TryOnce(spec, policy, w, attempts, current.value, retries);
      if stop.Some? {
        return LoopResult(stop.value, attempts);
      }
    }
    r := LoopResult(Exhausted, attempts);
  }

  method RunFetchStrategyLoop(spec: Spec, policy: Policy, w: World, cached: bool, cooling: bool)
    returns (r: LoopResult, recordedCall: bool, recordedLimit: bool)
    ensures cached ==> r == LoopResult(Cached, [])
    ensures !cached && cooling ==> r == LoopResult(RateLimitedStop, [])
    ensures !cached && !cooling ==> IsRun(spec, policy, w, r)
    ensures recordedCall <==> r.status == Succeeded
    ensures recordedLimit <==> r.status == RateLimitedStop && r.attempts != []
  {
    recordedCall, recordedLimit := false, false;
    if cached {
      return LoopResult(Cached, []), false, false;
    }
    if cooling {
      return LoopResult(RateLimitedStop, []), false, false;
    }
    r := Iterate(spec, policy, w);
    recordedCall := r.status == Succeeded;
    recordedLimit := r.status == RateLimitedStop;
  }

  // ---- Whole loops ----

  /** The surroundings decide the run: no two runs of the loop differ. */
  lemma RunIsUnique(spec: Spec, policy: Policy, w: World, r: LoopResult, s: LoopResult)
    requires IsRun(spec, policy, w, r) && IsRun(spec, policy, w, s) && |r.attempts| <= |s.attempts|
    ensures r == s
  {
    var next := Continue(spec, policy, w);
    ContinueTraces(spec, policy, w, r.attempts);
    ContinueTraces(spec, policy, w, s.attempts);
    ChoicesAgree(next, r.attempts, s.attempts, |r.attempts|);
    StopsThere(next, r.attempts, s.attempts);
  }

  lemma StopsThere(next: seq<Attempt> -> Option<Attempt>, a: seq<Attempt>, b: seq<Attempt>)
    requires Chosen(next, b) && |a| <= |b| && a == b[..|a|] && next(a) == None
    ensures a == b
  {
    if |a| < |b| {
      GoesOn(next, a, b);
    }
  }

  lemma GoesOn(next: seq<Attempt> -> Option<Attempt>, a: seq<Attempt>, b: seq<Attempt>)
    requires Chosen(next, b) && |a| < |b| && a == b[..|a|]
    ensures next(a).Some?
  {
    var k: nat := |a|;
    assert next(b[..k]) == Some(b[k]);
  }

  /** The attempt the loop adds to those made so far, if it goes on. */
  function Continue(spec: Spec, policy: Policy, w: World): seq<Attempt> -> Option<Attempt> {
    (attempts: seq<Attempt>) =>
      var v := VerdictOn(spec, policy, w, attempts);
      if v.Try? && |attempts| < policy.budget
      then Some(AttemptFor(v.strategy, w.fetches(|attempts|), Wait(policy, |attempts|))) else None
  }

  ghost predicate Chosen(next: seq<Attempt> -> Option<Attempt>, attempts: seq<Attempt>) {
    forall k: nat :: k < |attempts| ==> next(attempts[..k]) == Some(attempts[k])
  }

  lemma ContinueTraces(spec: Spec, policy: Policy, w: World, attempts: seq<Attempt>)
    requires IsTrace(spec, policy, w, attempts)
    ensures Chosen(Continue(spec, policy, w), attempts)
  {
  }

  lemma {:induction false} ChoicesAgree(next: seq<Attempt> -> Option<Attempt>, a: seq<Attempt>, b: seq<Attempt>, n: nat)
    requires Chosen(next, a) && Chosen(next, b) && n <= |a| && n <= |b|
    ensures a[..n] == b[..n]
    decreases n
  {
    if n > 0 {
      ChoicesAgree(next, a, b, n - 1);
      var k: nat := n - 1;
      assert next(a[..k]) == Some(a[k]) && next(b[..k]) == Some(b[k]);
    }
  }

  /** Never more fetches than the budget, and the status is read off the last of them. */
  lemma StatusFits(spec: Spec, policy: Policy, w: World, r: LoopResult)
    requires IsRun(spec, policy, w, r)
    ensures |r.attempts| <= if policy.budget > 0 then policy.budget else 0
    ensures r.status == Succeeded <==> r.attempts != [] && r.attempts[|r.attempts| - 1].success
    ensures r.status == BlockedStop <==> r.attempts != [] && r.attempts[|r.attempts| - 1].failure == Some(Blocker)
    ensures r.status == RateLimitedStop ==> r.attempts[|r.attempts| - 1].failure == Some(RateLimited)
  {
    if r.attempts != [] {
      At(spec, policy, w, r.attempts, |r.attempts| - 1);
      StatusOf(spec, policy, w, r.attempts);
    }
  }

  lemma StatusOf(spec: Spec, policy: Policy, w: World, attempts: seq<Attempt>)
    requires attempts != []
    ensures var v, f := VerdictOn(spec, policy, w, attempts), attempts[|attempts| - 1].failure;
      && (v == Stop(Succeeded) <==> f == None)
      && (v == Stop(BlockedStop) <==> f == Some(Blocker))
      && (v == Stop(RateLimitedStop) ==> f == Some(RateLimited))
      && (v.Try? ==> f != None && f != Some(Blocker))
  {
  }

  /** Success or a blocker can only be the last attempt. */
  lemma OnlyTheLastDecides(spec: Spec, policy: Policy, w: World, attempts: seq<Attempt>, k: nat)
    requires IsTrace(spec, policy, w, attempts) && k < |attempts| - 1
    ensures !attempts[k].success && attempts[k].failure.Some? && attempts[k].failure != Some(Blocker)
  {
    At(spec, policy, w, attempts, k);
    At(spec, policy, w, attempts, k + 1);
    TryMeansOpen(spec, policy, w, attempts[..k + 1]);
  }

  lemma At(spec: Spec, policy: Policy, w: World, attempts: seq<Attempt>, k: nat)
    requires IsTrace(spec, policy, w, attempts) && k < |attempts|
    ensures k < policy.budget && VerdictOn(spec, policy, w, attempts[..k]) == Try(attempts[k].strategy)
    ensures attempts[k].success == w.fetches(k).Page? == attempts[k].failure.None?
    ensures attempts[k].failure == Some(RateLimited) <==> w.fetches(k) == Raises(RateLimited)
  {
  }

  lemma TryMeansOpen(spec: Spec, policy: Policy, w: World, attempts: seq<Attempt>)
    requires attempts != [] && VerdictOn(spec, policy, w, attempts).Try?
    ensures var f := attempts[|attempts| - 1].failure; f.Some? && f != Some(Blocker)
  {
  }

  /** Selection only ever moves on in the sequence, with selenium after its end. */
  lemma SelectionMovesOn(spec: Spec, attempts: seq<Attempt>, failure: Failure, policy: Policy, ready: bool)
    requires attempts != [] && attempts[|attempts| - 1].strategy != SeleniumRenderedDom
    requires SelectNext(spec, attempts, failure, policy, ready).Some?
    ensures Place(attempts[|attempts| - 1].strategy) < Place(SelectNext(spec, attempts, failure, policy, ready).value)
  {
  }

  /** Up to the first selenium attempt the strategies ascend in the sequence; only a rate limit repeats one,
      and only while the 429 counter is below its allowance. */
  lemma StrategiesAscend(spec: Spec, policy: Policy, w: World, attempts: seq<Attempt>, k: nat)
    requires IsTrace(spec, policy, w, attempts) && k + 1 < |attempts|
    requires attempts[k].strategy != SeleniumRenderedDom
    ensures Ascends(w, attempts, k)
  {
    var before := attempts[..k + 1];
    assert VerdictOn(spec, policy, w, before) == Try(attempts[k + 1].strategy);
    OneStepUp(spec, policy, w, before, attempts[k + 1].strategy);
    assert before[..k] == attempts[..k];
  }

  predicate Ascends(w: World, attempts: seq<Attempt>, k: nat)
    requires k + 1 < |attempts|
  {
    if attempts[k].failure == Some(RateLimited)
    then attempts[k + 1].strategy == attempts[k].strategy && Retries(attempts[..k], w.fetches) < w.maxRetries
    else Place(attempts[k].strategy) < Place(attempts[k + 1].strategy)
  }

  lemma OneStepUp(spec: Spec, policy: Policy, w: World, before: seq<Attempt>, next: Strategy)
    requires before != [] && before[|before| - 1].strategy != SeleniumRenderedDom
    requires VerdictOn(spec, policy, w, before) == Try(next)
    ensures var last := before[|before| - 1];
      if last.failure == Some(RateLimited)
      then next == last.strategy && Retries(before[..|before| - 1], w.fetches) < w.maxRetries
      else Place(last.strategy) < Place(next)
  {
    var f := before[|before| - 1].failure;
    if f.Some? && f.value != Blocker && f.value != RateLimited {
      SelectionMovesOn(spec, before, f.value, policy, w.seleniumReady(|before|));
    }
  }

  /** So two attempts with the same strategy, before any selenium attempt, have nothing but rate limits between them. */
  lemma RepeatsAreRateLimits(spec: Spec, policy: Policy, w: World, attempts: seq<Attempt>, i: nat, j: nat)
    requires IsTrace(spec, policy, w, attempts) && i <= j < |attempts|
    requires forall k :: 0 <= k < j ==> attempts[k].strategy != SeleniumRenderedDom
    ensures Place(attempts[i].strategy) <= Place(attempts[j].strategy)
    ensures attempts[i].strategy == attempts[j].strategy ==>
      forall k :: i <= k < j ==> attempts[k].failure == Some(RateLimited)
  {
    forall k: nat | i <= k < j ensures Ascends(w, attempts, k) {
      StrategiesAscend(spec, policy, w, attempts, k);
    }
    ClimbsAdd(w, attempts, i, j);
  }

  lemma {:induction false} ClimbsAdd(w: World, attempts: seq<Attempt>, i: nat, j: nat)
    requires i <= j < |attempts| && forall k: nat :: i <= k < j ==> Ascends(w, attempts, k)
    ensures Place(attempts[i].strategy) <= Place(attempts[j].strategy)
    ensures Place(attempts[i].strategy) == Place(attempts[j].strategy) ==>
      forall k :: i <= k < j ==> attempts[k].failure == Some(RateLimited)
    decreases j
  {
    if i < j {
      ClimbsAdd(w, attempts, i, j - 1);
      assert Ascends(w, attempts, j - 1);
    }
  }

  lemma {:induction false} LimitsCount(spec: Spec, policy: Policy, w: World, attempts: seq<Attempt>, i: nat, j: nat)
    requires IsTrace(spec, policy, w, attempts) && i <= j <= |attempts|
    requires forall k :: i <= k < j ==> attempts[k].failure == Some(RateLimited)
    ensures Retries(attempts[..j], w.fetches) >= j - i
    decreases j
  {
    if i < j {
      LimitsCount(spec, policy, w, attempts, i, j - 1);
      var k: nat := j - 1;
      assert attempts[..j][..k] == attempts[..k];
      At(spec, policy, w, attempts, k);
    }
  }

  /** Hence a strategy is tried at most one time more than the 429 allowance before selenium comes in. */
  lemma RepeatsAreBounded(spec: Spec, policy: Policy, w: World, attempts: seq<Attempt>, i: nat, j: nat)
    requires IsTrace(spec, policy, w, attempts) && i < j < |attempts|
    requires forall k :: 0 <= k < j ==> attempts[k].strategy != SeleniumRenderedDom
    requires attempts[i].strategy == attempts[j].strategy
    ensures j - i <= w.maxRetries
  {
    var k: nat := j - 1;
    RepeatsAreRateLimits(spec, policy, w, attempts, i, j);
    assert Retries(attempts[..k], w.fetches) >= k - i by { LimitsCount(spec, policy, w, attempts, i, k); }
    assert Ascends(w, attempts, k) by { StrategiesAscend(spec, policy, w, attempts, k); }
  }

  // ---- Backoff ----

  lemma {:induction false} PowerAtLeastOne(base: real, n: nat)
    requires base >= 1.0
    ensures 1.0 <= Power(base, n) <= Power(base, n + 1)
    decreases n
  {
    if n > 0 {
      PowerAtLeastOne(base, n - 1);
      var p := Power(base, n - 1);
      assert base * p >= p;
      assert Power(base, n + 1) == base * Power(base, n);
      assert base * Power(base, n) >= Power(base, n);
    }
  }

  /** Delays never shrink from one attempt to the next. */
  lemma DelaysGrow(p: Policy, k: nat)
    requires p.initialDelay >= 0.0 && p.maxDelay >= 0.0 && p.base >= 1.0
    ensures 0.0 <= DelayForAttempt(p, k) <= DelayForAttempt(p, k + 1) <= p.maxDelay
  {
    var n := if k == 0 then 0 else k - 1;
    PowerAtLeastOne(p.base, n);
    var a, b := Power(p.base, n), Power(p.base, n + 1);
    assert p.initialDelay * a >= 0.0;
    assert p.initialDelay * a <= p.initialDelay * b;
  }

  function TotalDelay(attempts: seq<Attempt>): real {
    if attempts == [] then 0.0 else TotalDelay(attempts[..|attempts| - 1]) + attempts[|attempts| - 1].delay
  }

  /** sum over k in 1..n of min(2^k, 30) */
  function DoublingSum(n: nat): real {
    if n == 0 then 0.0 else DoublingSum(n - 1) + if Power(2.0, n) < 30.0 then Power(2.0, n) else 30.0
  }

  /** Under the default backoff n attempts wait min(2,30) + min(4,30) + ... in all, the first one not at all. */
  lemma DefaultBackoffSum(spec: Spec, policy: Policy, w: World, attempts: seq<Attempt>)
    requires policy.initialDelay == 2.0 && policy.maxDelay == 30.0 && policy.base == 2.0
    requires IsTrace(spec, policy, w, attempts)
    ensures TotalDelay(attempts) == if attempts == [] then 0.0 else DoublingSum(|attempts| - 1)
  {
    forall k: nat | k < |attempts| ensures attempts[k].delay == Wait(policy, k) {
      assert attempts[k] == AttemptFor(attempts[k].strategy, w.fetches(k), Wait(policy, k));
    }
    WaitsAdd(policy, attempts);
  }

  lemma {:induction false} WaitsAdd(policy: Policy, attempts: seq<Attempt>)
    requires policy.initialDelay == 2.0 && policy.maxDelay == 30.0 && policy.base == 2.0
    requires forall k: nat :: k < |attempts| ==> attempts[k].delay == Wait(policy, k)
    ensures TotalDelay(attempts) == if attempts == [] then 0.0 else DoublingSum(|attempts| - 1)
    decreases |attempts|
  {
    if |attempts| > 1 {
      var n := |attempts| - 1;
      WaitsAdd(policy, attempts[..n]);
      assert 2.0 * Power(2.0, n - 1) == Power(2.0, n);
    } else if |attempts| == 1 {
      assert TotalDelay(attempts[..0]) == 0.0;
    }
  }
}
