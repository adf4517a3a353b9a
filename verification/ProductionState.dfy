/** Production states, and whether a source may run (production_state.py). */
module ProductionStates {
  import opened Clock
  import opened Options
  import opened Texts
  import opened SourceHealths

  datatype State =
    | ProductionReady | ProductionReadyDegraded | ProductionReadyCommunityPreview
    | PolicyExcluded | PolicyBlockedNoBypass | ExternalRateLimited | ExternalApiError
    | VendorContractRequired | NotServiceUseful | Quarantined | Cooldown
    | DeadEndSkipped | NeedsOperatorReview | Unknown

  const DEAD_ENDS := {PolicyExcluded, PolicyBlockedNoBypass, NotServiceUseful, DeadEndSkipped}

  predicate Resumable(s: State) {
    s == ExternalRateLimited || s == Cooldown
  }

  /** The final status a memory learned, and what the table makes of it. */
  datatype FinalStatus =
    | CommunityPreviewSignalAlive
    | DataAlive(name: string)
    | ExternalRateLimitedWithRetryPolicy | ExternalRateLimitedPendingResume | RateLimitedFinal
    | RequiresOfficialApiKeyOrContract | RequiresVendorSpecificApiContract | RequiresTwoStepDetailFetch
    | ExternalApiErrorWithEvidence | ExternalApiErrorFinal
    | NotServiceUsefulFinal | DisableRecommended
    | PolicyBlockedFinal | PaywallBlocked | LoginBlocked | CaptchaBlocked | RobotsBlocked
    | ToolUnavailable | BlockedEnvKey | ExcludedByUser
    | OtherFinal(name: string)

  function Mapped(f: FinalStatus): Option<State> {
    match f
    case ExternalRateLimitedWithRetryPolicy | ExternalRateLimitedPendingResume | RateLimitedFinal =>
      Some(ExternalRateLimited)
    case RequiresOfficialApiKeyOrContract | RequiresVendorSpecificApiContract | RequiresTwoStepDetailFetch =>
      Some(VendorContractRequired)
    case ExternalApiErrorWithEvidence | ExternalApiErrorFinal => Some(ExternalApiError)
    case NotServiceUsefulFinal | DisableRecommended => Some(NotServiceUseful)
    case PolicyBlockedFinal | PaywallBlocked | LoginBlocked | CaptchaBlocked | RobotsBlocked =>
      Some(PolicyBlockedNoBypass)
    case ToolUnavailable | BlockedEnvKey => Some(NeedsOperatorReview)
    case ExcludedByUser => Some(PolicyExcluded)
    case CommunityPreviewSignalAlive | DataAlive(_) | OtherFinal(_) => None
  }

  datatype SkipReason =
    | RobotsOrPolicyBlock | LoginWall | Paywall | Captcha | DisabledByPolicy
    | NeedsApiIntegration | RequiresApiKey | UserExcluded | OtherSkip(name: string)

  /** The reason's table entry; requires_api_key is decided before the table is read. */
  function MappedSkip(r: SkipReason): Option<State> {
    match r
    case RobotsOrPolicyBlock | LoginWall | Paywall | Captcha => Some(PolicyBlockedNoBypass)
    case DisabledByPolicy | UserExcluded => Some(PolicyExcluded)
    case NeedsApiIntegration => Some(VendorContractRequired)
    case RequiresApiKey => Some(NeedsOperatorReview)
    case OtherSkip(_) => None
  }

  datatype Profile = Profile(
    id: string, enabled: bool, skipReason: Option<SkipReason>, live: bool,
    preferred: Option<string>, minInterval: int)

  datatype Memory = Memory(
    final: FinalStatus, caveats: seq<string>, successful: Option<string>, preferredNext: Option<string>,
    cooldownPolicy: string, evidence: string)

  datatype SourceState = SourceState(
    excluded: bool, status: State, ready: bool, deadEnd: bool,
    quarantineUntil: Option<string>, cooldownUntil: Option<string>, nextStrategy: Option<string>)

  /** `a or b` on optional texts. */
  function Or(a: Option<string>, b: Option<string>): Option<string> {
    if a.Some? && a.value != "" then a else b
  }

  function PreferredStrategy(memory: Option<Memory>): Option<string> {
    if memory.None? then None else Or(memory.value.successful, memory.value.preferredNext)
  }

  // ---- The resume time inside a rate-limited memory ----

  const POLICY_PREFIX := "respect_cooldown_until:"
  const EVIDENCE_PREFIX := "next_resume_at="

  predicate IsStampChar(c: char) {
    '0' <= c <= '9' || c == 'T' || c == ':' || c == '.' || c == '+' || c == '-' || c == 'Z'
  }

  function StampRun(s: string): string {
    if s != "" && IsStampChar(s[0]) then [s[0]] + StampRun(s[1..]) else ""
  }

  /** The text after the first EVIDENCE_PREFIX that a stamp character follows. */
  function FirstStamp(evidence: string): Option<string> {
    if |evidence| <= |EVIDENCE_PREFIX| then None
    else if StartsWith(evidence, EVIDENCE_PREFIX) && IsStampChar(evidence[|EVIDENCE_PREFIX|])
    then Some(StampRun(evidence[|EVIDENCE_PREFIX|..]))
    else FirstStamp(evidence[1..])
  }

  function ResumeAt(m: Memory): Option<string> {
    if StartsWith(m.cooldownPolicy, POLICY_PREFIX)
    then var t := Strip(m.cooldownPolicy[|POLICY_PREFIX|..]); if t == "" then None else Some(t)
    else FirstStamp(m.evidence)
  }

  /** A stamp without an offset counts as UTC here. */
  predicate CooldownElapsed(read: Reader, until: Option<string>, now: Instant) {
    var t := Read(read, until);
    t.Some? && now >= t.value.at
  }

  // ---- Deriving the state ----

  /** The fields every branch fills the same way, with a status and nothing waiting. */
  function Based(p: Profile, memory: Option<Memory>, status: State, ready: bool, deadEnd: bool): SourceState {
    SourceState(!p.enabled, status, ready, deadEnd, None, None, Or(PreferredStrategy(memory), p.preferred))
  }

  function StateByHealth(h: Option<HealthState>): Option<State> {
    if h.None? then None
    else
      match h.value.kind
      case QuarantinedRetryable => Some(Quarantined)
      case RateLimitedCooldown => Some(Cooldown)
      case BlockedTerminal => Some(PolicyBlockedNoBypass)
      case Healthy | Degraded | DeferredSpecialRound => None
  }

  function Derive(p: Profile, memory: Option<Memory>, health: Option<HealthState>, keyReady: bool): SourceState {
    var h := StateByHealth(health);
    if !p.enabled then Based(p, memory, PolicyExcluded, false, true)
    else if h.Some? then
      Based(p, memory, h.value, false, h.value == PolicyBlockedNoBypass).(
        quarantineUntil := if h.value == Quarantined then health.value.nextRetryAt else None,
        cooldownUntil := if h.value == Cooldown then health.value.nextRetryAt else None)
    else if memory.Some? && memory.value.final.CommunityPreviewSignalAlive? then
      Based(p, memory, ProductionReadyCommunityPreview, true, false)
    else if memory.Some? && memory.value.final.DataAlive? then
      Based(p, memory, if memory.value.caveats != [] then ProductionReadyDegraded else ProductionReady, true, false)
    else if memory.Some? && Mapped(memory.value.final).Some? then
      var s := Mapped(memory.value.final).value;
      Based(p, memory, s, false, s in DEAD_ENDS).(
        cooldownUntil := if s == ExternalRateLimited then ResumeAt(memory.value) else None)
    else DeriveStatic(p, memory, keyReady)
  }

  /** Without health or a telling memory: from the profile alone. */
  function DeriveStatic(p: Profile, memory: Option<Memory>, keyReady: bool): SourceState {
    if p.skipReason == Some(RequiresApiKey) then
      if keyReady then Based(p, memory, ProductionReady, true, false)
      else Based(p, memory, NeedsOperatorReview, false, false)
    else if p.skipReason.Some? && MappedSkip(p.skipReason.value).Some? then
      var s := MappedSkip(p.skipReason.value).value;
      Based(p, memory, s, false, s in DEAD_ENDS)
    else if p.live then Based(p, memory, ProductionReady, true, false)
    else Based(p, memory, NeedsOperatorReview, false, false)
  }

  /** Every source gets a concrete state whose two flags say which family it is in,
      and only a state that waits for a time carries one. */
  lemma DerivedStatesAreCoherent(p: Profile, memory: Option<Memory>, health: Option<HealthState>, keyReady: bool)
    ensures var s := Derive(p, memory, health, keyReady);
      && s.status != Unknown
      && (s.ready <==> s.status == ProductionReady || s.status == ProductionReadyDegraded
                       || s.status == ProductionReadyCommunityPreview)
      && (s.deadEnd <==> s.status == PolicyExcluded || s.status == PolicyBlockedNoBypass
                         || s.status == NotServiceUseful || s.status == DeadEndSkipped)
      && (s.excluded ==> s.status == PolicyExcluded)
      && (s.quarantineUntil.Some? ==> s.status == Quarantined)
      && (s.cooldownUntil.Some? ==> Resumable(s.status))
  {
  }

  // ---- Deciding whether a source may run ----

  datatype StrategyDecision = Run(strategy: Option<string>) | SkipDeadEnd(state: State) | SkipNotReady(state: State)

  /** decide_production_strategy for a source whose state is known. */
  function DecideStrategy(read: Reader, p: Profile, memory: Option<Memory>, s: SourceState,
                          now: Instant): StrategyDecision {
    if s.deadEnd then SkipDeadEnd(s.status)
    else if !s.ready && !(Resumable(s.status) && CooldownElapsed(read, s.cooldownUntil, now)) then
      SkipNotReady(s.status)
    else Run(Or(PreferredStrategy(memory), p.preferred))
  }
}
