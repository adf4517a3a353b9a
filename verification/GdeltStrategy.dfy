/** The GDELT query ladder over the governor and the host gate (gdelt_strategy.py). The provider and the clock
    answer as they like; a clock that always shows one instant is the caller's fixed `now`. */
module GdeltStrategies {
  import opened Clock
  import opened Options
  import opened Texts
  import HostRateGates
  import opened RateLimitGovernors

  const GDELT := "gdelt"

  datatype Rung = Rung(tag: string, query: string, limit: int, timespan: string)

  /** Thrown: the injected fetch raised, and nothing catches it. */
  datatype Reply = Thrown | Reply(success: bool, records: seq<string>, statusCode: Option<int>, error: string)

  predicate Succeeds(r: Reply) {
    r.Reply? && r.success && r.records != []
  }

  predicate IsRateLimit(r: Reply) {
    r.Reply? && (r.statusCode == Some(429) || r.error == "provider_rate_limited")
  }

  datatype FinalStatus = Alive | PendingResume

  /** `attempts` are the tags of the calls made; the last call of a run that raised is the one that threw. */
  datatype Outcome =
    | Raised(attempts: seq<string>)
    | Outcome(success: bool, records: seq<string>, attempts: seq<string>, finalStatus: FinalStatus,
              cooldownUntil: Option<Instant>, nextResumeAt: Option<Instant>)

  predicate Succeeded(out: Outcome) {
    out.Outcome? && out.success
  }

  predicate Pending(out: Outcome) {
    out.Outcome? && !out.success
  }

  /** ladder[:max_probes] */
  function Slice<T>(xs: seq<T>, n: int): seq<T> {
    xs[..SliceEnd(n, |xs|)]
  }

  /** The rungs whose reply ends the ladder. */
  predicate Ends(r: Reply) {
    r.Thrown? || Succeeds(r) || IsRateLimit(r)
  }

  /** A gate whose file is consistent, or none. */
  ghost predicate GateReady(gate: HostRateGates.HostRateGate?)
    reads gate, if gate != null then {gate.file} else {}
  {
    gate != null ==> gate.file.Valid() && (!gate.file.present ==> gate.state == map[])
  }

  /** The log grew by n calls to the host. */
  ghost predicate GrewBy(before: seq<HostRateGates.Call>, log: seq<HostRateGates.Call>, n: nat, host: string) {
    before <= log && |log| == |before| + n && forall k :: |before| <= k < |log| ==> log[k].host == host
  }

  lemma GrewOn(before: seq<HostRateGates.Call>, mid: seq<HostRateGates.Call>, log: seq<HostRateGates.Call>,
               n: nat, host: string)
    requires GrewBy(before, mid, n, host) && GrewBy(mid, log, 1, host)
    ensures GrewBy(before, log, n + 1, host)
  {
  }

  /** Announce one call to the gate and the governor, just before it is made. */
  method Announce(governor: RateLimitGovernor, gate: HostRateGates.HostRateGate?, host: string, spacing: int,
                  gateAt: Instant, governorAt: Instant)
    requires GateReady(gate)
    modifies governor, gate, if gate != null then {gate.file} else {}
    ensures governor.state == Apply(old(governor.state), Called(GDELT, governorAt))
    ensures GateReady(gate)
    ensures gate != null ==> GrewBy(old(gate.file.log), gate.file.log, 1, host)
  {
    if gate != null {
      var _ := gate.RecordCall(host, spacing, gateAt);
    }
    governor.RecordCall(GDELT, governorAt);
  }

  /** The first `made` rungs were tried, and no reply but perhaps the last ended the ladder. */
  ghost predicate Tried(attempts: seq<string>, rungs: seq<Rung>, replies: nat -> Reply) {
    && |attempts| <= |rungs|
    && (forall k :: 0 <= k < |attempts| ==> attempts[k] == rungs[k].tag)
    && (forall k: nat :: k < |attempts| - 1 ==> !Ends(replies(k)))
  }

  /** The rungs tried so far, none of which ended the ladder. */
  ghost predicate Climbing(attempts: seq<string>, rungs: seq<Rung>, replies: nat -> Reply) {
    Tried(attempts, rungs, replies) && forall k: nat :: k < |attempts| ==> !Ends(replies(k))
  }

  lemma ClimbingOn(attempts: seq<string>, rungs: seq<Rung>, replies: nat -> Reply)
    requires Climbing(attempts, rungs, replies) && |attempts| < |rungs|
    ensures var more := attempts + [rungs[|attempts|].tag];
      Tried(more, rungs, replies) && (!Ends(replies(|attempts|)) ==> Climbing(more, rungs, replies))
  {
  }

  /** How a ladder run ends, read off its attempts and the replies. */
  ghost predicate EndsRight(out: Outcome, rungs: seq<Rung>, replies: nat -> Reply) {
    && Tried(out.attempts, rungs, replies)
    && (out.Raised? <==> |out.attempts| > 0 && replies(|out.attempts| - 1).Thrown?)
    && (Succeeded(out) <==> |out.attempts| > 0 && Succeeds(replies(|out.attempts| - 1)))
    && (Succeeded(out) ==>
          && out.records == replies(|out.attempts| - 1).records
          && out.finalStatus == Alive && out.cooldownUntil.None?)
    && (Pending(out) ==> out.finalStatus == PendingResume && out.records == [] && out.nextResumeAt == out.cooldownUntil)
    && (Pending(out) && |out.attempts| < |rungs| ==> |out.attempts| > 0 && IsRateLimit(replies(|out.attempts| - 1)))
  }

  ghost predicate Rested(out: Outcome) {
    Pending(out) && out.records == [] && out.finalStatus == PendingResume && out.nextResumeAt == out.cooldownUntil
  }

  /** The outcome after a reply that ends the ladder. */
  ghost predicate RungEnds(out: Outcome, r: Reply) {
    && Ends(r)
    && if r.Thrown? then out.Raised?
       else if Succeeds(r) then out == Outcome(true, r.records, out.attempts, Alive, None, None)
       else Rested(out)
  }

  /** Such a reply decides the outcome of the run. */
  lemma EndsWithReply(out: Outcome, rungs: seq<Rung>, replies: nat -> Reply, n: nat, r: Reply)
    requires Tried(out.attempts, rungs, replies) && |out.attempts| == n + 1 && r == replies(n) && RungEnds(out, r)
    ensures EndsRight(out, rungs, replies)
  {
    assert |out.attempts| - 1 == n;
  }

  lemma EndsExhausted(out: Outcome, rungs: seq<Rung>, replies: nat -> Reply)
    requires Climbing(out.attempts, rungs, replies) && |out.attempts| == |rungs| && Rested(out)
    ensures EndsRight(out, rungs, replies)
  {
    if |rungs| > 0 { assert !Ends(replies(|rungs| - 1)); }
  }

  /** The source's entry after n calls and nothing else, the last of them at `last`. */
  ghost predicate OnlyCalled(before: Entry, after: Entry, n: nat, last: Instant) {
    if n == 0 then after == before else after == before.(lastCallAt := Some(WholeSecond(last)))
  }

  /** The cooldown refuses every instant before it, whatever interval is asked for. */
  ghost predicate RefusesUntil(e: Entry, until: Instant) {
    forall now, interval :: now < until ==> !Admits(e, interval, now)
  }

  method Rest(governor: RateLimitGovernor, attempts: seq<string>, reason: string, now: Instant) returns (out: Outcome)
    modifies governor
    ensures out == Outcome(false, [], attempts, PendingResume, Some(WholeSecond(now) + 900 * SECOND),
                           Some(WholeSecond(now) + 900 * SECOND))
    ensures RefusesUntil(EntryOf(governor.state, GDELT), WholeSecond(now) + 900 * SECOND)
  {
    var until := governor.RecordRateLimited(GDELT, Missing, "near_real_time", reason, now);
    out := Outcome(false, [], attempts, PendingResume, Some(until), Some(until));
  }

  /** What a run that ended leaves for the source: a cooldown if it found nothing, otherwise only the last call. */
  ghost predicate Leaves(before: Entry, after: Entry, out: Outcome, n: nat, endedAt: Instant) {
    if Pending(out) then
      out.cooldownUntil == Some(WholeSecond(endedAt) + 900 * SECOND) && RefusesUntil(after, out.cooldownUntil.value)
    else OnlyCalled(before, after, n, endedAt)
  }

  lemma CalledOn(before: Entry, mid: Entry, after: Entry, n: nat, last: Instant, endedAt: Instant)
    requires OnlyCalled(before, mid, n, last) && OnlyCalled(mid, after, 1, endedAt)
    ensures OnlyCalled(before, after, n + 1, endedAt)
  {
  }

  lemma LeavesOn(before: Entry, mid: Entry, after: Entry, out: Outcome, n: nat, last: Instant, endedAt: Instant)
    requires OnlyCalled(before, mid, n, last)
    requires Leaves(mid, after, out, 1, endedAt)
    ensures Leaves(before, after, out, n + 1, endedAt)
  {
  }

  /** One rung: announce the call, make it, and end the ladder if the reply does. None: on to the next rung. */
  method TryRung(governor: RateLimitGovernor, gate: HostRateGates.HostRateGate?, reply: Reply, attempts: seq<string>,
                 host: string, spacing: int, gateAt: Instant, callAt: Instant, restAt: Instant)
    returns (out: Option<Outcome>, ghost endedAt: Instant)
    requires GateReady(gate)
    modifies governor, gate, if gate != null then {gate.file} else {}
    ensures GateReady(gate)
    ensures gate != null ==> GrewBy(old(gate.file.log), gate.file.log, 1, host)
    ensures out.None? ==> !Ends(reply)
    ensures out.None? ==> OnlyCalled(EntryOf(old(governor.state), GDELT), EntryOf(governor.state, GDELT), 1, endedAt)
    ensures out.Some? ==> out.value.attempts == attempts && RungEnds(out.value, reply)
    ensures out.Some? ==>
      Leaves(EntryOf(old(governor.state), GDELT), EntryOf(governor.state, GDELT), out.value, 1, endedAt)
  {
    Announce(governor, gate, host, spacing, gateAt, callAt);
    endedAt := callAt;
    if reply.Thrown? {
      return Some(Raised(attempts)), endedAt;
    }
    if Succeeds(reply) {
      return Some(Outcome(true, reply.records, attempts, Alive, None, None)), endedAt;
    }
    if IsRateLimit(reply) {
      var rest := Rest(governor, attempts, "gdelt_provider_429", restAt);
      return Some(rest), restAt;
    }
    out := None;
  }

  /** The next rung of a climb: `before` and `log` are the source's entry and the gate's log before the first rung,
      `last` the instant of the call before. */
  method NextRung(governor: RateLimitGovernor, gate: HostRateGates.HostRateGate?, replies: nat -> Reply,
                  clock: nat -> Instant, rungs: seq<Rung>, tried: seq<string>, host: string, spacing: int,
                  ghost before: Entry, ghost log: seq<HostRateGates.Call>, ghost last: Instant)
    returns (out: Option<Outcome>, attempts: seq<string>, ghost endedAt: Instant)
    requires GateReady(gate) && |tried| < |rungs| && Climbing(tried, rungs, replies)
    requires OnlyCalled(before, EntryOf(governor.state, GDELT), |tried|, last)
    requires gate != null ==> GrewBy(log, gate.file.log, |tried|, host)
    modifies governor, gate, if gate != null then {gate.file} else {}
    ensures GateReady(gate) && |attempts| == |tried| + 1 && Tried(attempts, rungs, replies)
    ensures gate != null ==> GrewBy(log, gate.file.log, |attempts|, host)
    ensures out.None? ==>
      Climbing(attempts, rungs, replies) && OnlyCalled(before, EntryOf(governor.state, GDELT), |attempts|, endedAt)
    ensures out.Some? ==> out.value.attempts == attempts && RungEnds(out.value, replies(|tried|))
    ensures out.Some? ==> Leaves(before, EntryOf(governor.state, GDELT), out.value, |attempts|, endedAt)
  {
    ghost var mid := if gate != null then gate.file.log else [];
    ghost var entry := EntryOf(governor.state, GDELT);
    var i := |tried|;
    ClimbingOn(tried, rungs, replies);
    attempts := tried + [rungs[i].tag];
    out, endedAt := TryRung(governor, gate, replies(i), attempts, host, spacing,
                            clock(2 + 2 * i), clock(3 + 2 * i), clock(4 + 2 * i));
    if gate != null {
      GrewOn(log, mid, gate.file.log, i, host);
    }
    if out.Some? {
      LeavesOn(before, entry, EntryOf(governor.state, GDELT), out.value, i, last, endedAt);
    } else {
      CalledOn(before, entry, EntryOf(governor.state, GDELT), i, last, endedAt);
    }
  }

  /** The rungs in order until a reply ends the ladder. None: no reply did. */
  method ClimbRungs(governor: RateLimitGovernor, gate: HostRateGates.HostRateGate?, replies: nat -> Reply,
                    clock: nat -> Instant, rungs: seq<Rung>, host: string, spacing: int)
    returns (out: Option<Outcome>, attempts: seq<string>, ghost endedAt: Instant)
    requires GateReady(gate)
    modifies governor, gate, if gate != null then {gate.file} else {}
    ensures GateReady(gate)
    ensures gate != null ==> GrewBy(old(gate.file.log), gate.file.log, |attempts|, host)
    ensures Tried(attempts, rungs, replies)
    ensures out.None? ==> |attempts| == |rungs| && Climbing(attempts, rungs, replies)
    ensures out.Some? ==>
      |attempts| > 0 && out.value.attempts == attempts && RungEnds(out.value, replies(|attempts| - 1))
    ensures out.Some? ==>
      Leaves(EntryOf(old(governor.state), GDELT), EntryOf(governor.state, GDELT), out.value, |attempts|, endedAt)
  {
    ghost var before := EntryOf(governor.state, GDELT);
    ghost var log := if gate != null then gate.file.log else [];
    out, attempts, endedAt := None, [], clock(1);
    for i: nat := 0 to |rungs|
      invariant out.None? && |attempts| == i && Climbing(attempts, rungs, replies) && GateReady(gate)
      invariant OnlyCalled(before, EntryOf(governor.state, GDELT), i, endedAt)
      invariant gate != null ==> GrewBy(log, gate.file.log, i, host)
    {
      out, attempts, endedAt :=
        NextRung(governor, gate, replies, clock, rungs, attempts, host, spacing, before, log, endedAt);
      if out.Some? {
        return;
      }
    }
  }

  /** `endedAt` is the instant at which an unsuccessful run recorded its cooldown, and at which a run that succeeded
      or raised announced its last call. */
  method ClimbLadder(governor: RateLimitGovernor, gate: HostRateGates.HostRateGate?, replies: nat -> Reply,
                     clock: nat -> Instant, rungs: seq<Rung>, host: string, spacing: int)
    returns (out: Outcome, ghost endedAt: Instant)
    requires GateReady(gate)
    modifies governor, gate, if gate != null then {gate.file} else {}
    ensures EndsRight(out, rungs, replies)
    ensures Leaves(EntryOf(old(governor.state), GDELT), EntryOf(governor.state, GDELT), out, |out.attempts|, endedAt)
    ensures GateReady(gate)
    ensures gate != null ==> GrewBy(old(gate.file.log), gate.file.log, |out.attempts|, host)
  {
    var ended, attempts;
    ended, attempts, endedAt := ClimbRungs(governor, gate, replies, clock, rungs, host, spacing);
    if ended.Some? {
      out := ended.value;
      EndsWithReply(out, rungs, replies, |attempts| - 1, replies(|attempts| - 1));
    } else {
      out := Rest(governor, attempts, "gdelt_no_records", clock(2 + 2 * |rungs|));
      endedAt := clock(2 + 2 * |rungs|);
      EndsExhausted(out, rungs, replies);
    }
  }

  /** The state the gate decides on when it is next asked. */
  ghost function SeenStamp(gate: HostRateGates.HostRateGate, host: string): Option<Instant>
    reads gate, gate.file
  {
    HostRateGates.LastStamp(if gate.file.present then gate.file.stamps else gate.state, host)
  }

  method CollectGdelt(governor: RateLimitGovernor, gate: HostRateGates.HostRateGate?, replies: nat -> Reply,
                      clock: nat -> Instant, interval: int, maxProbes: int, ladder: seq<Rung>, host: string,
                      hostSpacing: Option<int>)
    returns (out: Outcome, ghost endedAt: Instant)
    requires GateReady(gate)
    modifies governor, gate, if gate != null then {gate.file} else {}
    ensures var rungs := Slice(ladder, maxProbes);
      var refused :=
        || !Admits(EntryOf(old(governor.state), GDELT), interval, clock(0))
        || (gate != null && !HostRateGates.Admits(old(SeenStamp(gate, host)),
                                                  if hostSpacing.Some? then hostSpacing.value else interval, clock(1)));
      // a refusal makes no call and leaves the governor as it was
      && (refused ==> out.attempts == [] && Pending(out) && governor.state == old(governor.state))
      // otherwise the rungs are tried in order until a reply ends the ladder
      && (!refused ==> EndsRight(out, rungs, replies))
      // without success everyone is refused for a quarter of an hour; a success or an exception leaves no cooldown
      && (!refused ==>
            Leaves(EntryOf(old(governor.state), GDELT), EntryOf(governor.state, GDELT), out, |out.attempts|, endedAt))
    // every call was announced to the other loops
    ensures GateReady(gate)
    ensures gate != null ==> GrewBy(old(gate.file.log), gate.file.log, |out.attempts|, host)
  {
    var spacing := if hostSpacing.Some? then hostSpacing.value else interval;
    endedAt := clock(0);
    var decision := governor.Decide(GDELT, interval, clock(0));
    if decision.refusal.Some? {
      out := Outcome(false, [], [], PendingResume, decision.cooldownUntil, decision.cooldownUntil);
      return;
    }
    if gate != null {
      var hd := gate.Decide(host, spacing, clock(1));
      if !hd.allowed {
        out := Outcome(false, [], [], PendingResume, hd.nextAllowedAt, hd.nextAllowedAt);
        return;
      }
    }
    out, endedAt := ClimbLadder(governor, gate, replies, clock, Slice(ladder, maxProbes), host, spacing);
  }

  /** At most max_probes calls and never more than the ladder has rungs; a negative max_probes drops that many rungs
      from the end. */
  lemma SliceIsBounded(ladder: seq<Rung>, maxProbes: int)
    ensures Slice(ladder, maxProbes) <= ladder
    ensures maxProbes >= 0 ==> |Slice(ladder, maxProbes)| == if maxProbes <= |ladder| then maxProbes else |ladder|
    ensures maxProbes < 0 ==> |Slice(ladder, maxProbes)| == if -maxProbes <= |ladder| then |ladder| + maxProbes else 0
  {
  }

  /** The replies that end the ladder: an exception, a success with records, and a rate limit by status or by name. */
  lemma EndsIff(r: Reply)
    ensures Succeeds(r) <==> r.Reply? && r.success && |r.records| > 0
    ensures IsRateLimit(r) <==> r.Reply? && ((r.statusCode.Some? && r.statusCode.value == 429)
                                             || r.error == "provider_rate_limited")
    ensures Ends(r) <==> r == Thrown || Succeeds(r) || IsRateLimit(r)
  {
  }
}
