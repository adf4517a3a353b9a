/** Which strategy the fetch loop tries next, attempt by attempt (strategy_selection.py, retry_policy.py). */
module StrategyRules {
  import opened Options
  import opened StrategyLoops

  /** t comes right after s. */
  predicate Follows(s: Strategy, t: Strategy) {
    || (s == HttpxDirect && t == HttpxMobileUa) || (s == HttpxMobileUa && t == HttpxRandomUa)
    || (s == HttpxRandomUa && t == Readability) || (s == Readability && t == Trafilatura)
    || (s == Trafilatura && t == DomHeuristic) || (s == DomHeuristic && t == PlaywrightBasic)
    || (s == PlaywrightBasic && t == PlaywrightScroll) || (s == PlaywrightScroll && t == PlaywrightWaitNetworkIdle)
    || (s == PlaywrightWaitNetworkIdle && t == PlaywrightClickMore)
  }

  predicate IsPlainFetch(s: Strategy) {
    s == HttpxDirect || s == HttpxMobileUa || s == HttpxRandomUa
  }

  predicate IsBrowser(s: Strategy) {
    s == PlaywrightBasic || s == PlaywrightScroll || s == PlaywrightWaitNetworkIdle || s == PlaywrightClickMore
  }

  predicate TriedInVain(attempts: seq<Attempt>, s: Strategy) {
    exists i :: 0 <= i < |attempts| && attempts[i].strategy == s && !attempts[i].success
  }

  /** All four browser strategies were tried in vain. */
  predicate BrowserExhausted(attempts: seq<Attempt>) {
    && TriedInVain(attempts, PlaywrightBasic) && TriedInVain(attempts, PlaywrightScroll)
    && TriedInVain(attempts, PlaywrightWaitNetworkIdle) && TriedInVain(attempts, PlaywrightClickMore)
  }

  lemma {:induction false} FailedIff(attempts: seq<Attempt>, s: Strategy)
    requires IsBrowser(s)
    ensures s in FailedPlaywright(attempts) <==> TriedInVain(attempts, s)
    decreases |attempts|
  {
    if attempts != [] {
      var n := |attempts| - 1;
      FailedIff(attempts[..n], s);
      if i :| 0 <= i < |attempts| && attempts[i].strategy == s && !attempts[i].success {
        if i < n { assert attempts[..n][i] == attempts[i]; }
      }
      if i :| 0 <= i < n && attempts[..n][i].strategy == s && !attempts[..n][i].success {
        assert attempts[i] == attempts[..n][i];
      }
    }
  }

  lemma BrowserExhaustedIff(attempts: seq<Attempt>)
    ensures AllPlaywrightFailed(attempts) <==> BrowserExhausted(attempts)
  {
    FailedIff(attempts, PlaywrightBasic);
    FailedIff(attempts, PlaywrightScroll);
    FailedIff(attempts, PlaywrightWaitNetworkIdle);
    FailedIff(attempts, PlaywrightClickMore);
  }

  /** The strategy after an attempt that failed otherwise than by a blocker or a rate limit. */
  predicate IsNext(spec: Spec, attempts: seq<Attempt>, failure: Failure, ready: bool, next: Strategy)
    requires attempts != []
  {
    var last := attempts[|attempts| - 1].strategy;
    if failure == EmptyExtraction && IsPlainFetch(last) then next == PlaywrightBasic
    else if last == PlaywrightClickMore then
      next == SeleniumRenderedDom && ready && (spec.prefersSelenium || BrowserExhausted(attempts))
    else if last == SeleniumRenderedDom then next == HttpxDirect
    else Follows(last, next) && !(spec.isFeed && IsBrowser(next))
  }

  predicate NothingNext(spec: Spec, attempts: seq<Attempt>, failure: Failure, ready: bool)
    requires attempts != []
  {
    forall s :: !IsNext(spec, attempts, failure, ready, s)
  }

  /** Selection, for any attempts: nothing for a blocker, a rate limit or a spent budget, otherwise exactly this. */
  lemma SelectionIs(spec: Spec, attempts: seq<Attempt>, failure: Failure, policy: Policy, ready: bool)
    requires attempts != []
    ensures var next := SelectNext(spec, attempts, failure, policy, ready);
      if failure == Blocker || failure == RateLimited || |attempts| >= policy.budget then next == None
      else if next.Some? then IsNext(spec, attempts, failure, ready, next.value)
      else NothingNext(spec, attempts, failure, ready)
  {
    BrowserExhaustedIff(attempts);
  }

  /** In every run each attempt but the first follows from the one before: the same strategy after a rate limit,
      otherwise the next one. */
  lemma EachAttemptFollows(spec: Spec, policy: Policy, w: World, attempts: seq<Attempt>, k: nat)
    requires IsTrace(spec, policy, w, attempts) && k + 1 < |attempts|
    ensures attempts[0].strategy == HttpxDirect && attempts[k].failure.Some?
    ensures var f, next := attempts[k].failure.value, attempts[k + 1].strategy;
      if f == RateLimited then next == attempts[k].strategy
      else f != Blocker && IsNext(spec, attempts[..k + 1], f, w.seleniumReady(k + 1), next)
  {
    var before := attempts[..k + 1];
    assert VerdictOn(spec, policy, w, attempts[..0]) == Try(attempts[0].strategy);
    assert VerdictOn(spec, policy, w, before) == Try(attempts[k + 1].strategy);
    FollowsVerdict(spec, policy, w, before, attempts[k + 1].strategy);
  }

  lemma FollowsVerdict(spec: Spec, policy: Policy, w: World, before: seq<Attempt>, next: Strategy)
    requires before != [] && VerdictOn(spec, policy, w, before) == Try(next)
    ensures var f := before[|before| - 1].failure;
      && f.Some?
      && if f.value == RateLimited then next == before[|before| - 1].strategy
         else f.value != Blocker && IsNext(spec, before, f.value, w.seleniumReady(|before|), next)
  {
    var f := before[|before| - 1].failure;
    if f.Some? { SelectionIs(spec, before, f.value, policy, w.seleniumReady(|before|)); }
  }

  /** A run with budget left stops exhausted exactly when the last failure leaves no next strategy. */
  lemma ExhaustedMeansNothingNext(spec: Spec, policy: Policy, w: World, r: LoopResult)
    requires IsRun(spec, policy, w, r) && r.status == Exhausted && |r.attempts| < policy.budget
    ensures r.attempts != [] && r.attempts[|r.attempts| - 1].failure.Some?
    ensures NothingNext(spec, r.attempts, r.attempts[|r.attempts| - 1].failure.value, w.seleniumReady(|r.attempts|))
  {
    var last := r.attempts[|r.attempts| - 1];
    StatusFits(spec, policy, w, r);
    SelectionIs(spec, r.attempts, last.failure.value, policy, w.seleniumReady(|r.attempts|));
  }

  /** The first wait is the initial delay and every later one the base times the one before, up to the maximum. */
  lemma DelaysMultiply(p: Policy, k: nat)
    requires k >= 1 && p.initialDelay >= 0.0 && p.base >= 1.0
    ensures DelayForAttempt(p, 1) == if p.initialDelay < p.maxDelay then p.initialDelay else p.maxDelay
    ensures DelayForAttempt(p, k + 1) < p.maxDelay ==> DelayForAttempt(p, k + 1) == p.base * DelayForAttempt(p, k)
    ensures DelayForAttempt(p, k) <= p.maxDelay
  {
    var a := Power(p.base, k - 1);
    assert Power(p.base, k) == p.base * a;
    assert p.initialDelay * (p.base * a) == p.base * (p.initialDelay * a);
    PowerAtLeastOne(p.base, k - 1);
    NotLess(p.base, p.initialDelay * a);
  }

  lemma NotLess(base: real, d: real)
    requires base >= 1.0 && d >= 0.0
    ensures base * d >= d
  {
  }
}
