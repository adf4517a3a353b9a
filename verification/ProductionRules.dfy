/** Which state each source is in and why, state by state (production_state.py). */
module ProductionRules {
  import opened Clock
  import opened Options
  import opened Texts
  import opened SourceHealths
  import opened ProductionStates

  /** Its health alone decides. */
  predicate HealthSpeaks(health: Option<HealthState>) {
    health.Some? && (health.value.kind == QuarantinedRetryable || health.value.kind == RateLimitedCooldown
                     || health.value.kind == BlockedTerminal)
  }

  /** The memory says nothing that decides. */
  predicate MemorySilent(memory: Option<Memory>) {
    memory.None? || memory.value.final.OtherFinal?
  }

  /** The skip reason says nothing that decides. */
  predicate SkipSilent(p: Profile) {
    p.skipReason.None? || p.skipReason.value.OtherSkip?
  }

  predicate Skips(p: Profile, reason: SkipReason) {
    p.skipReason == Some(reason)
  }

  predicate Learned(memory: Option<Memory>, f: FinalStatus) {
    memory.Some? && memory.value.final == f
  }

  predicate DataFlows(memory: Option<Memory>, caveats: bool) {
    memory.Some? && memory.value.final.DataAlive? && (memory.value.caveats != []) == caveats
  }

  /** A source that is switched off is excluded; otherwise its health decides if it speaks. */
  lemma HealthFirst(p: Profile, memory: Option<Memory>, health: Option<HealthState>, keyReady: bool)
    requires !p.enabled || HealthSpeaks(health)
    ensures var s := Derive(p, memory, health, keyReady);
      && s.status == (if !p.enabled then PolicyExcluded
                      else if health.value.kind == QuarantinedRetryable then Quarantined
                      else if health.value.kind == RateLimitedCooldown then Cooldown
                      else PolicyBlockedNoBypass)
      && s.quarantineUntil == (if s.status == Quarantined then health.value.nextRetryAt else None)
      && s.cooldownUntil == (if s.status == Cooldown then health.value.nextRetryAt else None)
      && !s.ready && s.excluded == !p.enabled
  {
  }

  function LearnedState(m: Memory): Option<State> {
    if m.final.CommunityPreviewSignalAlive? then Some(ProductionReadyCommunityPreview)
    else if m.final.DataAlive? then Some(if m.caveats != [] then ProductionReadyDegraded else ProductionReady)
    else Mapped(m.final)
  }

  function StaticState(p: Profile, keyReady: bool): State {
    if p.skipReason == Some(RequiresApiKey) then if keyReady then ProductionReady else NeedsOperatorReview
    else if p.skipReason.Some? && MappedSkip(p.skipReason.value).Some? then MappedSkip(p.skipReason.value).value
    else if p.live then ProductionReady
    else NeedsOperatorReview
  }

  /** With silent health the memory decides if it can, otherwise the profile. */
  lemma QuietStatus(p: Profile, memory: Option<Memory>, health: Option<HealthState>, keyReady: bool)
    requires p.enabled && !HealthSpeaks(health)
    ensures var s := Derive(p, memory, health, keyReady);
      && s.status == (if memory.Some? && LearnedState(memory.value).Some? then LearnedState(memory.value).value
                      else StaticState(p, keyReady))
      && s.quarantineUntil == None
      && (memory.None? || Mapped(memory.value.final) != Some(ExternalRateLimited) ==> s.cooldownUntil == None)
      && (memory.Some? && Mapped(memory.value.final) == Some(ExternalRateLimited) ==>
            s.cooldownUntil == ResumeAt(memory.value))
  {
  }

  lemma SilentMemory(memory: Option<Memory>)
    ensures MemorySilent(memory) <==> memory.None? || LearnedState(memory.value).None?
  {
  }

  /** For a source whose health is silent: exactly what leads to each state that runs, */
  lemma ReadyIff(p: Profile, memory: Option<Memory>, health: Option<HealthState>, keyReady: bool)
    requires p.enabled && !HealthSpeaks(health)
    ensures var st := Derive(p, memory, health, keyReady).status;
      && (st == ProductionReady <==>
            || DataFlows(memory, false)
            || (MemorySilent(memory) && ((Skips(p, RequiresApiKey) && keyReady) || (SkipSilent(p) && p.live))))
      && (st == ProductionReadyDegraded <==> DataFlows(memory, true))
      && (st == ProductionReadyCommunityPreview <==> Learned(memory, CommunityPreviewSignalAlive))
  {
    QuietStatus(p, memory, health, keyReady);
    SilentMemory(memory);
  }

  /** to a rate limit, the only one with a deadline, */
  lemma RateLimitedIff(p: Profile, memory: Option<Memory>, health: Option<HealthState>, keyReady: bool)
    requires p.enabled && !HealthSpeaks(health)
    ensures var s := Derive(p, memory, health, keyReady);
      && (s.status == ExternalRateLimited <==>
            || Learned(memory, ExternalRateLimitedWithRetryPolicy) || Learned(memory, RateLimitedFinal)
            || Learned(memory, ExternalRateLimitedPendingResume))
      && s.quarantineUntil == None
      && s.cooldownUntil == if s.status == ExternalRateLimited then ResumeAt(memory.value) else None
  {
    QuietStatus(p, memory, health, keyReady);
    SilentMemory(memory);
  }

  /** to a state that waits for a provider or an operator, */
  lemma WaitingIff(p: Profile, memory: Option<Memory>, health: Option<HealthState>, keyReady: bool)
    requires p.enabled && !HealthSpeaks(health)
    ensures var st := Derive(p, memory, health, keyReady).status;
      && (st == ExternalApiError <==>
            Learned(memory, ExternalApiErrorWithEvidence) || Learned(memory, ExternalApiErrorFinal))
      && (st == VendorContractRequired <==>
            || Learned(memory, RequiresOfficialApiKeyOrContract) || Learned(memory, RequiresTwoStepDetailFetch)
            || Learned(memory, RequiresVendorSpecificApiContract)
            || (MemorySilent(memory) && Skips(p, NeedsApiIntegration)))
  {
    QuietStatus(p, memory, health, keyReady);
    SilentMemory(memory);
  }

  lemma OperatorIff(p: Profile, memory: Option<Memory>, health: Option<HealthState>, keyReady: bool)
    requires p.enabled && !HealthSpeaks(health)
    ensures Derive(p, memory, health, keyReady).status == NeedsOperatorReview <==>
      || Learned(memory, ToolUnavailable) || Learned(memory, BlockedEnvKey)
      || (MemorySilent(memory) && ((Skips(p, RequiresApiKey) && !keyReady) || (SkipSilent(p) && !p.live)))
  {
    QuietStatus(p, memory, health, keyReady);
    SilentMemory(memory);
  }

  /** and to a dead end. */
  lemma ExcludedIff(p: Profile, memory: Option<Memory>, health: Option<HealthState>, keyReady: bool)
    requires p.enabled && !HealthSpeaks(health)
    ensures var st := Derive(p, memory, health, keyReady).status;
      && (st == PolicyExcluded <==>
            || Learned(memory, ExcludedByUser)
            || (MemorySilent(memory) && (Skips(p, DisabledByPolicy) || Skips(p, UserExcluded))))
      && (st == NotServiceUseful <==> Learned(memory, NotServiceUsefulFinal) || Learned(memory, DisableRecommended))
  {
    QuietStatus(p, memory, health, keyReady);
    SilentMemory(memory);
  }

  lemma BlockedIff(p: Profile, memory: Option<Memory>, health: Option<HealthState>, keyReady: bool)
    requires p.enabled && !HealthSpeaks(health)
    ensures Derive(p, memory, health, keyReady).status == PolicyBlockedNoBypass <==>
      || Learned(memory, PolicyBlockedFinal) || Learned(memory, PaywallBlocked) || Learned(memory, LoginBlocked)
      || Learned(memory, CaptchaBlocked) || Learned(memory, RobotsBlocked)
      || (MemorySilent(memory)
          && (Skips(p, RobotsOrPolicyBlock) || Skips(p, LoginWall) || Skips(p, Paywall) || Skips(p, Captcha)))
  {
    QuietStatus(p, memory, health, keyReady);
    SilentMemory(memory);
  }

  // ---- Running ----

  predicate IsReadyState(s: State) {
    s == ProductionReady || s == ProductionReadyDegraded || s == ProductionReadyCommunityPreview
  }

  /** A source in a derived state runs exactly if the state is ready, or it is held by a rate limit or a cooldown whose
      deadline can be read and has passed. */
  lemma RunsIff(read: Reader, p: Profile, memory: Option<Memory>, health: Option<HealthState>, keyReady: bool,
                now: Instant)
    ensures var s := Derive(p, memory, health, keyReady);
      DecideStrategy(read, p, memory, s, now).Run? <==>
        || IsReadyState(s.status)
        || ((s.status == ExternalRateLimited || s.status == Cooldown)
            && s.cooldownUntil.Some? && s.cooldownUntil.value != "" && read(s.cooldownUntil.value).Some?
            && read(s.cooldownUntil.value).value.at <= now)
  {
    DerivedStatesAreCoherent(p, memory, health, keyReady);
  }

  /** It runs the strategy that succeeded, else the one preferred next, else the profile's; a blank one does
      not count. */
  lemma StrategyIs(read: Reader, p: Profile, memory: Option<Memory>, s: SourceState, now: Instant)
    requires DecideStrategy(read, p, memory, s, now).Run?
    ensures DecideStrategy(read, p, memory, s, now).strategy ==
      if memory.Some? && IsNamed(memory.value.successful) then memory.value.successful
      else if memory.Some? && IsNamed(memory.value.preferredNext) then memory.value.preferredNext
      else p.preferred
  {
  }

  predicate IsNamed(s: Option<string>) {
    s.Some? && s.value != ""
  }

  // ---- The resume time of a rate-limited memory ----

  /** A policy that names a time gives it, stripped; a blank one gives none. */
  lemma PolicyGivesTime(m: Memory, time: string)
    requires m.cooldownPolicy == "respect_cooldown_until:" + time
    ensures ResumeAt(m) == if Strip(time) == "" then None else Some(Strip(time))
  {
    assert m.cooldownPolicy[|POLICY_PREFIX|..] == time;
  }

  predicate IsTimeChar(c: char) {
    '0' <= c <= '9' || c in {'T', 'Z', ':', '.', '+', '-'}
  }

  lemma TimeCharIff(c: char)
    ensures IsTimeChar(c) <==> IsStampChar(c)
  {
  }

  predicate AllStamp(s: string) {
    forall i :: 0 <= i < |s| ==> IsTimeChar(s[i])
  }

  lemma {:induction false} RunIsStamp(stamp: string, rest: string)
    requires AllStamp(stamp) && (rest == "" || !IsTimeChar(rest[0]))
    ensures StampRun(stamp + rest) == stamp
    decreases |stamp|
  {
    if stamp == "" {
      assert stamp + rest == rest;
      if rest != "" { TimeCharIff(rest[0]); }
    } else {
      TimeCharIff(stamp[0]);
      RunIsStamp(stamp[1..], rest);
      assert (stamp + rest)[1..] == stamp[1..] + rest;
    }
  }

  /** No mark, with a stamp after it, stands before place n. */
  ghost predicate NoStampBefore(evidence: string, n: nat) {
    forall k :: 0 <= k < n && k < |evidence| ==> !StartsStamp(evidence[k..])
  }

  predicate StartsStamp(s: string) {
    StartsWith(s, EVIDENCE_PREFIX) && |s| > |EVIDENCE_PREFIX| && IsTimeChar(s[|EVIDENCE_PREFIX|])
  }

  lemma {:induction false} FirstStampAt(before: string, stamp: string, rest: string)
    requires stamp != "" && AllStamp(stamp) && (rest == "" || !IsTimeChar(rest[0]))
    requires NoStampBefore(before + EVIDENCE_PREFIX + stamp + rest, |before|)
    ensures FirstStamp(before + EVIDENCE_PREFIX + stamp + rest) == Some(stamp)
    decreases |before|
  {
    var s := before + EVIDENCE_PREFIX + stamp + rest;
    if before == "" {
      assert s[|EVIDENCE_PREFIX|..] == stamp + rest && s[|EVIDENCE_PREFIX|] == stamp[0];
      TimeCharIff(stamp[0]);
      RunIsStamp(stamp, rest);
    } else {
      assert s[0..] == s;
      if |s| > |EVIDENCE_PREFIX| { TimeCharIff(s[|EVIDENCE_PREFIX|]); }
      assert s[1..] == before[1..] + EVIDENCE_PREFIX + stamp + rest;
      forall k | 0 <= k < |before| - 1 ensures !StartsStamp(s[1..][k..]) {
        assert s[1..][k..] == s[k + 1..];
      }
      FirstStampAt(before[1..], stamp, rest);
    }
  }

  /** Without such a policy the evidence gives the first stamp after its mark, up to the end of its characters. */
  lemma EvidenceGivesTime(m: Memory, before: string, stamp: string, rest: string)
    requires !StartsWith(m.cooldownPolicy, "respect_cooldown_until:")
    requires m.evidence == before + "next_resume_at=" + stamp + rest
    requires stamp != "" && AllStamp(stamp) && (rest == "" || !IsTimeChar(rest[0]))
    requires NoStampBefore(m.evidence, |before|)
    ensures ResumeAt(m) == Some(stamp)
  {
    FirstStampAt(before, stamp, rest);
  }
}
