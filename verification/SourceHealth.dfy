/** Source health: the transition, the gate before a probe, and the retry list
    (source_health.py; _health_gate and _update_health of collection_probe.py). */
module SourceHealths {
  import opened Clock
  import opened Options

  datatype Kind =
    Healthy | Degraded | RateLimitedCooldown | QuarantinedRetryable | BlockedTerminal | DeferredSpecialRound

  /** `failures` is any number a stored file may hold. */
  datatype HealthState = HealthState(kind: Kind, failures: int, nextRetryAt: Option<string>)

  datatype ProbeStatus =
    LiveSuccess | LivePartial | DeferredProbe | BlockedProbe | RateLimitedProbe | NetworkError | TimedOut | OtherStatus

  /** The error categories the transition tells apart. */
  datatype Category = NoCategory | TerminalBlocker | TransientError | OtherCategory

  datatype Outcome = Outcome(status: ProbeStatus, category: Category, nextRetryAt: Option<string>)

  const QUARANTINE_THRESHOLD := 3
  const RECHECK_SECONDS := 21600

  // ---- The transition ----

  predicate IsSuccess(o: Outcome) {
    o.status.LiveSuccess? || o.status.LivePartial?
  }

  predicate IsTerminal(o: Outcome) {
    !IsSuccess(o) && !o.status.DeferredProbe? && (o.status.BlockedProbe? || o.category.TerminalBlocker?)
  }

  predicate IsTransient(o: Outcome) {
    && !IsSuccess(o) && !o.status.DeferredProbe? && !IsTerminal(o) && !o.status.RateLimitedProbe?
    && (o.status.NetworkError? || o.status.TimedOut? || o.category.TransientError?)
  }

  /** An outcome that adds to the failure count: all but successes, deferrals and plain rate limits. */
  predicate IsFailure(o: Outcome) {
    !IsSuccess(o) && !o.status.DeferredProbe? && (o.status.RateLimitedProbe? ==> o.category.TerminalBlocker?)
  }

  /** apply_probe_outcome. `show` prints an instant as an ISO text in whole seconds. */
  function ApplyOutcome(prev: Option<HealthState>, o: Outcome, threshold: int, show: Instant -> string,
                        now: Instant): HealthState {
    var fc := if prev.Some? then prev.value.failures else 0;
    if o.status.LiveSuccess? || o.status.LivePartial? then HealthState(Healthy, 0, None)
    else if o.status.DeferredProbe? then HealthState(DeferredSpecialRound, fc, None)
    else if o.status.BlockedProbe? || o.category.TerminalBlocker? then HealthState(BlockedTerminal, fc + 1, None)
    else if o.status.RateLimitedProbe? then HealthState(RateLimitedCooldown, fc, o.nextRetryAt)
    else if o.status.NetworkError? || o.status.TimedOut? || o.category.TransientError? then
      if fc + 1 >= threshold
      then HealthState(QuarantinedRetryable, fc + 1, Some(show(WholeSecond(now + RECHECK_SECONDS * SECOND))))
      else HealthState(Degraded, fc + 1, None)
    else HealthState(Degraded, fc + 1, None)
  }

  // ---- The gate ----

  predicate Waits(s: HealthState) {
    s.kind.RateLimitedCooldown? || s.kind.QuarantinedRetryable?
  }

  datatype Answer<T> = Got(value: T) | Raised

  /** should_skip; comparing a deadline without an offset raises. */
  function ShouldSkip(read: Reader, s: Option<HealthState>, now: Instant): Answer<bool> {
    if s.None? then Got(false)
    else if s.value.kind.BlockedTerminal? then Got(true)
    else if s.value.kind.DeferredSpecialRound? then Got(true)
    else if Waits(s.value) then
      match Read(read, s.value.nextRetryAt)
      case None => Got(false)
      case Some(Naive(_)) => Raised
      case Some(Aware(t)) => Got(t > now)
    else Got(false)
  }

  /** What the store's list_due_for_retry decides about one source. */
  function DueForRetry(read: Reader, s: HealthState, now: Instant): Answer<bool> {
    if !Waits(s) then Got(false)
    else
      match Read(read, s.nextRetryAt)
      case None => Got(true)
      case Some(Naive(_)) => Raised
      case Some(Aware(t)) => Got(t <= now)
  }

  /** For a source that cools down or is quarantined, being due for a retry is exactly not being skipped. */
  lemma RetryListIsTheSkipsComplement(read: Reader, s: HealthState, now: Instant)
    requires Waits(s)
    ensures DueForRetry(read, s, now).Got? <==> ShouldSkip(read, Some(s), now).Got?
    ensures DueForRetry(read, s, now).Got? ==> DueForRetry(read, s, now).value == !ShouldSkip(read, Some(s), now).value
  {
  }

  type States = map<string, HealthState>

  function StateOf(states: States, source: string): Option<HealthState> {
    if source in states then Some(states[source]) else None
  }

  /** One run_collection_probe: what the network would answer, or that no endpoint is configured. */
  datatype Reply = NoEndpoint | Answered(outcome: Outcome)

  datatype Probe = Probe(source: string, force: bool, now: Instant, reply: Reply)

  /** The surroundings: the ISO reader and printer. */
  datatype Iso = Iso(read: Reader, show: Instant -> string)

  predicate Admitted(iso: Iso, states: States, p: Probe) {
    p.force || ShouldSkip(iso.read, StateOf(states, p.source), p.now) == Got(false)
  }

  predicate Recorded(iso: Iso, states: States, p: Probe) {
    Admitted(iso, states, p) && p.reply.Answered?
  }

  function Step(iso: Iso, states: States, p: Probe): States {
    if Recorded(iso, states, p)
    then
      var next := ApplyOutcome(StateOf(states, p.source), p.reply.outcome, QUARANTINE_THRESHOLD, iso.show, p.now);
      states[p.source := next]
    else states
  }

  function Run(iso: Iso, states: States, probes: seq<Probe>): States {
    if probes == [] then states
    else Step(iso, Run(iso, states, probes[..|probes| - 1]), probes[|probes| - 1])
  }

  datatype ProbeResult = Gated(status: ProbeStatus) | Unconfigured | Probed(outcome: Outcome)

  /** The store with the probe entry point around it; `calls` logs the sources whose network was reached. */
  class HealthStore {
    var states: States
    ghost var calls: seq<string>

    constructor ()
      ensures states == map[] && calls == []
    {
      states, calls := map[], [];
    }

    method Gate(iso: Iso, source: string, force: bool, now: Instant) returns (r: Answer<Option<ProbeResult>>)
      ensures force ==> r == Got(None)
      ensures !force ==> (r.Raised? <==> ShouldSkip(iso.read, StateOf(states, source), now).Raised?)
      ensures !force && r.Got? ==> (r.value.Some? <==> ShouldSkip(iso.read, StateOf(states, source), now) == Got(true))
      ensures r.Got? && r.value.Some? ==> source in states && r.value.value == Gated(
        if states[source].kind.BlockedTerminal? then BlockedProbe
        else if states[source].kind.DeferredSpecialRound? then DeferredProbe else RateLimitedProbe)
    {
      if force {
        return Got(None);
      }
      var skip := ShouldSkip(iso.read, StateOf(states, source), now);
      if skip.Raised? {
        return Raised;
      }
      if !skip.value {
        return Got(None);
      }
      var kind := states[source].kind;
      if kind.BlockedTerminal? {
        r := Got(Some(Gated(BlockedProbe)));
      } else if kind.DeferredSpecialRound? {
        r := Got(Some(Gated(DeferredProbe)));
      } else {
        r := Got(Some(Gated(RateLimitedProbe)));
      }
    }

    method Update(iso: Iso, source: string, o: Outcome, now: Instant)
      modifies this`states
      ensures states == old(states)[source :=
        ApplyOutcome(StateOf(old(states), source), o, QUARANTINE_THRESHOLD, iso.show, now)]
    {
      states := states[source := ApplyOutcome(StateOf(states, source), o, QUARANTINE_THRESHOLD, iso.show, now)];
    }

    /** run_collection_probe */
    method CollectionProbe(iso: Iso, p: Probe) returns (r: Answer<ProbeResult>)
      modifies this
      ensures states == Step(iso, old(states), p)
      ensures calls == old(calls) + if Recorded(iso, old(states), p) then [p.source] else []
      ensures Admitted(iso, old(states), p) ==>
        r == Got(if p.reply.Answered? then Probed(p.reply.outcome) else Unconfigured)
      ensures !Admitted(iso, old(states), p) ==> r.Raised? || r.value.Gated?
    {
      var gated := Gate(iso, p.source, p.force, p.now);
      if gated.Raised? {
        return Raised;
      }
      if gated.value.Some? {
        return Got(gated.value.value);
      }
      if p.reply.NoEndpoint? {
        return Got(Unconfigured);
      }
      calls := calls + [p.source];
      Update(iso, p.source, p.reply.outcome, p.now);
      r := Got(Probed(p.reply.outcome));
    }

    /** list_due_for_retry, as the set of sources it lists. */
    method ListDueForRetry(iso: Iso, now: Instant) returns (r: Answer<set<string>>)
      ensures r.Raised? <==> exists s :: s in states && DueForRetry(iso.read, states[s], now).Raised?
      ensures r.Got? ==> r.value == set s | s in states && DueForRetry(iso.read, states[s], now) == Got(true)
    {
      var left := states.Keys;
      var due: set<string> := {};
      while left != {}
        invariant left <= states.Keys
        invariant forall s :: s in states && s !in left ==> DueForRetry(iso.read, states[s], now).Got?
        invariant due == set s | s in states && s !in left && DueForRetry(iso.read, states[s], now) == Got(true)
        decreases |left|
      {
        var s :| s in left;
        var d := DueForRetry(iso.read, states[s], now);
        if d.Raised? {
          return Raised;
        }
        if d.value {
          due := due + {s};
        }
        left := left - {s};
      }
      r := Got(due);
    }
  }

  // ---- Histories ----

  /** The outcomes recorded for a source during a run. */
  function History(iso: Iso, states: States, probes: seq<Probe>, source: string): seq<Outcome> {
    if probes == [] then []
    else
      var before, p := probes[..|probes| - 1], probes[|probes| - 1];
      History(iso, states, before, source)
      + if p.source == source && Recorded(iso, Run(iso, states, before), p) then [p.reply.outcome] else []
  }

  /** The failures among the outcomes since the last success; `base` if there was none. */
  function SinceSuccess(base: int, outcomes: seq<Outcome>): int {
    if outcomes == [] then base
    else
      var o := outcomes[|outcomes| - 1];
      if IsSuccess(o) then 0
      else SinceSuccess(base, outcomes[..|outcomes| - 1]) + if IsFailure(o) then 1 else 0
  }

  function FailuresOf(s: Option<HealthState>): int {
    if s.Some? then s.value.failures else 0
  }

  /** The state's kind, read off the last outcome recorded and the failures counted. */
  ghost predicate KindFits(s: HealthState, last: Outcome) {
    && (s.kind == Healthy <==> IsSuccess(last))
    && (s.kind == DeferredSpecialRound <==> last.status == DeferredProbe)
    && (s.kind == BlockedTerminal <==> IsTerminal(last))
    && (s.kind == RateLimitedCooldown <==> last.status == RateLimitedProbe && !IsTerminal(last))
    && (s.kind == QuarantinedRetryable <==> IsTransient(last) && s.failures >= 3)
  }

  /** Only a rate limit and a quarantine carry a deadline: the provider's, and six hours after the failure. */
  lemma DeadlineIs(iso: Iso, prev: Option<HealthState>, o: Outcome, now: Instant)
    ensures var s := ApplyOutcome(prev, o, QUARANTINE_THRESHOLD, iso.show, now);
      s.nextRetryAt ==
        if s.kind == RateLimitedCooldown then o.nextRetryAt
        else if s.kind == QuarantinedRetryable then Some(iso.show(WholeSecond(now + 6 * 60 * 60 * SECOND)))
        else None
  {
  }

  /** A blocked or deferred source is always skipped, one that cools down or is quarantined until its deadline, if that
      can be read, and any other never. */
  lemma SkippedIff(read: Reader, s: HealthState, now: Instant)
    ensures ShouldSkip(read, None, now) == Got(false)
    ensures var deadline :=
        if s.nextRetryAt.Some? && s.nextRetryAt.value != "" then read(s.nextRetryAt.value) else None;
      ShouldSkip(read, Some(s), now) ==
        if s.kind == BlockedTerminal || s.kind == DeferredSpecialRound then Got(true)
        else if s.kind == Healthy || s.kind == Degraded || deadline == None then Got(false)
        else if deadline.value.Naive? then Raised else Got(now < deadline.value.at)
  {
  }

  lemma OutcomeFits(iso: Iso, prev: Option<HealthState>, o: Outcome, now: Instant)
    ensures var s := ApplyOutcome(prev, o, QUARANTINE_THRESHOLD, iso.show, now);
      && KindFits(s, o)
      && s.failures == if IsSuccess(o) then 0 else FailuresOf(prev) + if IsFailure(o) then 1 else 0
  {
  }

  /** A state that began as `first` and recorded the outcomes h: its failure count is what they make it,
      and its kind follows from the last of them. */
  ghost predicate Tracks(first: Option<HealthState>, h: seq<Outcome>, s: Option<HealthState>) {
    && (h == [] ==> s == first)
    && (h != [] ==> s.Some? && KindFits(s.value, h[|h| - 1]))
    && FailuresOf(s) == SinceSuccess(FailuresOf(first), h)
  }

  lemma TracksOn(iso: Iso, first: Option<HealthState>, h: seq<Outcome>, s: Option<HealthState>, o: Outcome,
                 now: Instant)
    requires Tracks(first, h, s)
    ensures Tracks(first, h + [o], Some(ApplyOutcome(s, o, QUARANTINE_THRESHOLD, iso.show, now)))
  {
    assert (h + [o])[..|h|] == h;
    OutcomeFits(iso, s, o, now);
  }

  /** Over any run, from any store. */
  lemma {:induction false} HealthFollowsHistory(iso: Iso, states: States, probes: seq<Probe>, source: string)
    ensures Tracks(StateOf(states, source), History(iso, states, probes, source),
      StateOf(Run(iso, states, probes), source))
    decreases |probes|
  {
    if probes != [] {
      var before, p := probes[..|probes| - 1], probes[|probes| - 1];
      HealthFollowsHistory(iso, states, before, source);
      var now, h := Run(iso, states, before), History(iso, states, before, source);
      if p.source == source && Recorded(iso, now, p) {
        TracksOn(iso, StateOf(states, source), h, StateOf(now, source), p.reply.outcome, p.now);
      } else {
        assert h + [] == h;
      }
    }
  }

  /** So from an empty store a source in quarantine has failed at least three times since its last success. */
  lemma QuarantineIsEarned(iso: Iso, probes: seq<Probe>, source: string)
    ensures var s := StateOf(Run(iso, map[], probes), source);
      s.Some? && s.value.kind == QuarantinedRetryable ==>
        SinceSuccess(0, History(iso, map[], probes, source)) >= 3
  {
    HealthFollowsHistory(iso, map[], probes, source);
  }

  /** A blocked or deferred source stays as it is, whatever unforced probes do, and none of them reaches its network. */
  lemma {:induction false} TerminalIsAbsorbing(iso: Iso, states: States, probes: seq<Probe>, source: string)
    requires source in states && (states[source].kind.BlockedTerminal? || states[source].kind.DeferredSpecialRound?)
    requires forall p :: p in probes && p.source == source ==> !p.force
    ensures StateOf(Run(iso, states, probes), source) == Some(states[source])
    ensures History(iso, states, probes, source) == []
    decreases |probes|
  {
    if probes != [] {
      TerminalIsAbsorbing(iso, states, probes[..|probes| - 1], source);
      assert probes[|probes| - 1] in probes;
    }
  }

  /** A quarantined source with a printed deadline is left alone for the recheck time, to the second,
      and is admitted again from then on. */
  lemma QuarantineLasts(iso: Iso, states: States, p: Probe, later: Probe)
    requires Recorded(iso, states, p) && later.source == p.source && !later.force
    requires Step(iso, states, p)[p.source].kind == QuarantinedRetryable
    requires forall t: Instant :: IsWhole(t) ==> iso.show(t) != "" && iso.read(iso.show(t)) == Some(Aware(t))
    ensures Admitted(iso, Step(iso, states, p), later) <==> later.now >= WholeSecond(p.now) + 6 * 60 * 60 * SECOND
  {
    AddSeconds(p.now, RECHECK_SECONDS);
    WholeSecondIsWhole(p.now + RECHECK_SECONDS * SECOND);
  }
}
