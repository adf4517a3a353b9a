/** The run planner: which sources are due, and why each other one is not (production_scheduler.py). */
module RunPlans {
  import opened Clock
  import opened Options
  import opened Texts
  import opened ProductionStates
  import opened SourceHealths
  import opened RateLimitGovernors

  datatype Reason =
    | NoState
    | Excluded
    | DeadEnd(state: State)
    | NotReady(state: State)
    | QuarantineUntil(text: string)
    | CooldownUntil(text: string)
    | GovernorRefused(refusal: Refusal)
    | NotDue(interval: int)
    | Deferred

  /** What the planner decides about one profile. Crash: a stamp without an offset was compared with now. */
  datatype Verdict = Due(strategy: Option<string>) | Skip(reason: Reason) | Crash

  /** Everything a plan depends on besides the profiles. */
  datatype Setting = Setting(
    states: map<string, SourceState>, memory: map<string, Memory>, lastRun: map<string, Instant>,
    governor: Option<GovernorState>, now: Instant, forced: bool, read: Reader)

  function MemoryOf(w: Setting, id: string): Option<Memory> {
    if id in w.memory then Some(w.memory[id]) else None
  }

  predicate IsDue(now: Instant, lastRun: Option<Instant>, interval: int) {
    lastRun.None? || now - lastRun.value >= interval * SECOND
  }

  // ---- The gates, each on its own ----

  predicate StateGate(w: Setting, p: Profile) {
    p.id in w.states
  }

  predicate PolicyGate(w: Setting, p: Profile)
    requires StateGate(w, p)
  {
    p.enabled && !w.states[p.id].excluded
  }

  predicate ReadyGate(w: Setting, p: Profile)
    requires StateGate(w, p)
  {
    DecideStrategy(w.read, p, MemoryOf(w, p.id), w.states[p.id], w.now).Run?
  }

  /** No deadline, an unreadable one, or one that has passed. */
  predicate Passed(w: Setting, deadline: Option<string>) {
    var t := Read(w.read, deadline);
    t.Some? ==> t.value.at <= w.now
  }

  predicate Comparable(w: Setting, deadline: Option<string>) {
    !(Read(w.read, deadline).Some? && Read(w.read, deadline).value.Naive?)
  }

  predicate GovernorGate(w: Setting, p: Profile) {
    w.governor.Some? ==> Admits(EntryOf(w.governor.value, p.id), p.minInterval, w.now)
  }

  predicate IntervalGate(w: Setting, p: Profile) {
    w.forced || p.id !in w.lastRun || w.now - w.lastRun[p.id] >= p.minInterval * SECOND
  }

  /** Before the cap a source is due exactly if it passes every gate. */
  ghost predicate PassesEveryGate(w: Setting, p: Profile) {
    && StateGate(w, p) && PolicyGate(w, p) && ReadyGate(w, p)
    && Passed(w, w.states[p.id].quarantineUntil) && Passed(w, w.states[p.id].cooldownUntil)
    && GovernorGate(w, p) && IntervalGate(w, p)
  }

  /** The planner can compare the deadlines it reaches: those of sources past the first three gates. */
  ghost predicate Judgeable(w: Setting, p: Profile) {
    StateGate(w, p) && PolicyGate(w, p) && ReadyGate(w, p) ==>
      && Comparable(w, w.states[p.id].quarantineUntil)
      && (Passed(w, w.states[p.id].quarantineUntil) ==> Comparable(w, w.states[p.id].cooldownUntil))
  }

  /** The first gate that fails gives the reason. */
  ghost predicate Blames(w: Setting, p: Profile, reason: Reason) {
    if !StateGate(w, p) then reason == NoState
    else if !PolicyGate(w, p) then reason == Excluded
    else
      var s := w.states[p.id];
      if !ReadyGate(w, p) then reason == if s.deadEnd then DeadEnd(s.status) else NotReady(s.status)
      else if !Passed(w, s.quarantineUntil) then reason.QuarantineUntil? && s.quarantineUntil == Some(reason.text)
      else if !Passed(w, s.cooldownUntil) then reason.CooldownUntil? && s.cooldownUntil == Some(reason.text)
      else if !GovernorGate(w, p) then
        reason.GovernorRefused?
          && RefusalFor(EntryOf(w.governor.value, p.id), p.minInterval, w.now) == Some(reason.refusal)
      else !IntervalGate(w, p) && reason == NotDue(p.minInterval)
  }

  /** A verdict is right about a profile. */
  ghost predicate Fits(w: Setting, p: Profile, v: Verdict) {
    match v
    case Crash => !Judgeable(w, p)
    case Skip(reason) => Judgeable(w, p) && Blames(w, p, reason)
    case Due(strategy) =>
      && Judgeable(w, p) && PassesEveryGate(w, p)
      && strategy == Or(PreferredStrategy(MemoryOf(w, p.id)), p.preferred)
  }

  lemma VerdictIsUnique(w: Setting, p: Profile, u: Verdict, v: Verdict)
    requires Fits(w, p, u) && Fits(w, p, v)
    ensures u == v
  {
  }

  /** The gates in the code's order, for one profile. */
  method Judge(w: Setting, governor: RateLimitGovernor?, p: Profile) returns (v: Verdict)
    requires w.governor == if governor == null then None else Some(governor.state)
    ensures Fits(w, p, v)
  {
    if p.id !in w.states {
      return Skip(NoState);
    }
    var s := w.states[p.id];
    if !p.enabled || s.excluded {
      return Skip(Excluded);
    }
    var decision := DecideStrategy(w.read, p, MemoryOf(w, p.id), s, w.now);
    match decision {
      case SkipDeadEnd(state) => return Skip(DeadEnd(state));
      case SkipNotReady(state) => return Skip(NotReady(state));
      case Run(_) =>
    }
    var q := Read(w.read, s.quarantineUntil);
    if q.Some? {
      if q.value.Naive? {
        return Crash;
      }
      if q.value.at > w.now {
        return Skip(QuarantineUntil(s.quarantineUntil.value));
      }
    }
    var cd := Read(w.read, s.cooldownUntil);
    if cd.Some? {
      if cd.value.Naive? {
        return Crash;
      }
      if cd.value.at > w.now {
        return Skip(CooldownUntil(s.cooldownUntil.value));
      }
    }
    if governor != null {
      var g := governor.Decide(p.id, p.minInterval, w.now);
      if g.refusal.Some? {
        return Skip(GovernorRefused(g.refusal.value));
      }
    }
    if !w.forced {
      var last := if p.id in w.lastRun then Some(w.lastRun[p.id]) else None;
      if !IsDue(w.now, last, p.minInterval) {
        return Skip(NotDue(p.minInterval));
      }
    }
    v := Due(decision.strategy);
  }

  // ---- The plan ----

  datatype Plan = Plan(
    due: seq<string>, skipped: seq<string>, reasons: map<string, Reason>,
    strategies: map<string, string>, counts: map<Category, nat>)

  ghost predicate AllFit(w: Setting, profiles: seq<Profile>, verdicts: seq<Verdict>) {
    |profiles| == |verdicts| && forall i :: 0 <= i < |profiles| ==>
      !verdicts[i].Crash? && Fits(w, profiles[i], verdicts[i])
  }

  function Ids(profiles: seq<Profile>, verdicts: seq<Verdict>, due: bool): seq<string>
    requires |profiles| == |verdicts|
  {
    if profiles == [] then []
    else
      var n := |profiles| - 1;
      Ids(profiles[..n], verdicts[..n], due) + if verdicts[n].Due? == due then [profiles[n].id] else []
  }

  function Reasons(profiles: seq<Profile>, verdicts: seq<Verdict>): map<string, Reason>
    requires |profiles| == |verdicts|
  {
    if profiles == [] then map[]
    else
      var n := |profiles| - 1;
      var before := Reasons(profiles[..n], verdicts[..n]);
      if verdicts[n].Skip? then before[profiles[n].id := verdicts[n].reason] else before
  }

  function Strategies(profiles: seq<Profile>, verdicts: seq<Verdict>): map<string, string>
    requires |profiles| == |verdicts|
  {
    if profiles == [] then map[]
    else
      var n := |profiles| - 1;
      var before := Strategies(profiles[..n], verdicts[..n]);
      if verdicts[n].Due? && verdicts[n].strategy.Some? && verdicts[n].strategy.value != ""
      then before[profiles[n].id := verdicts[n].strategy.value] else before
  }

  /** How many due sources the cap keeps: due[:max_sources]. */
  function Kept(max: Option<int>, n: nat): (k: nat)
    ensures k <= n
    ensures max.Some? && max.value >= 0 ==> k <= max.value
  {
    if max.None? then n else SliceEnd(max.value, n)
  }

  function DeferAll(reasons: map<string, Reason>, ids: seq<string>): map<string, Reason> {
    if ids == [] then reasons else DeferAll(reasons, ids[..|ids| - 1])[ids[|ids| - 1] := Deferred]
  }

  // ---- Categories ----

  datatype Category = Policy | DeadEnds | Quarantines | Cooldowns | NotDues | NotReadys | Other

  function Shown(n: int): string {
    if n < 0 then "-" + Decimal(-n) else Decimal(n)
  }

  function StateName(s: State): string {
    match s
    case ProductionReady => "PRODUCTION_READY"
    case ProductionReadyDegraded => "PRODUCTION_READY_DEGRADED"
    case ProductionReadyCommunityPreview => "PRODUCTION_READY_COMMUNITY_PREVIEW"
    case PolicyExcluded => "POLICY_EXCLUDED"
    case PolicyBlockedNoBypass => "POLICY_BLOCKED_NO_BYPASS"
    case ExternalRateLimited => "EXTERNAL_RATE_LIMITED"
    case ExternalApiError => "EXTERNAL_API_ERROR"
    case VendorContractRequired => "VENDOR_CONTRACT_REQUIRED"
    case NotServiceUseful => "NOT_SERVICE_USEFUL"
    case Quarantined => "QUARANTINED"
    case Cooldown => "COOLDOWN"
    case DeadEndSkipped => "DEAD_END_SKIPPED"
    case NeedsOperatorReview => "NEEDS_OPERATOR_REVIEW"
    case Unknown => "UNKNOWN"
  }

  /** The skip reason's text; `tail` stands for a terminal reason or the seconds in a governor's refusal. */
  function Text(r: Reason, tail: string): string {
    match r
    case NoState => "no_state"
    case Excluded => "policy_excluded:" + tail
    case DeadEnd(s) => "dead_end:" + StateName(s)
    case NotReady(s) => "not_ready:" + StateName(s)
    case QuarantineUntil(t) => "quarantine_until:" + t
    case CooldownUntil(t) => "cooldown_until:" + t
    case GovernorRefused(CooldownActive(reason)) => "cooldown_active:" + reason
    case GovernorRefused(IntervalNotElapsed) => "min_interval_not_elapsed:" + tail
    case NotDue(n) => "not_due:interval_" + Shown(n) + "s"
    case Deferred => "deferred:max_sources_cap"
  }

  predicate SpeaksOfCooldown(text: string) {
    || StartsWith(text, "cooldown") || StartsWith(text, "rate_limit") || Contains(text, "min_interval")
    || Contains(text, "EXTERNAL_RATE_LIMITED") || Contains(text, "COOLDOWN")
  }

  function CategoryOf(text: string): Category {
    if StartsWith(text, "policy_excluded") then Policy
    else if StartsWith(text, "dead_end") then DeadEnds
    else if StartsWith(text, "quarantine") then Quarantines
    else if SpeaksOfCooldown(text) then Cooldowns
    else if StartsWith(text, "not_due") then NotDues
    else if StartsWith(text, "not_ready") then NotReadys
    else Other
  }

  predicate Lacks(s: string, c: char) {
    forall i :: 0 <= i < |s| ==> s[i] != c
  }

  /** A text without the part's j-th letter does not hold the part. */
  lemma NoPart(s: string, part: string, j: nat)
    requires j < |part| && Lacks(s, part[j])
    ensures !Contains(s, part)
  {
    forall k | 0 <= k <= |s| ensures !StartsWith(s[k..], part) {
      if k + j < |s| { assert s[k..][j] == s[k + j]; }
    }
  }

  lemma HasPart(a: string, part: string)
    ensures Contains(a + part, part)
  {
    assert (a + part)[|a|..] == part;
  }

  predicate CannotSpeak(c: char) {
    c != 'm' && c != 'E' && c != 'C'
  }

  lemma NotDueHead()
    ensures forall i :: 0 <= i < |"not_due:interval_"| ==> CannotSpeak("not_due:interval_"[i])
  {
  }

  /** No text without these three characters names an interval, a limit or a cooldown. */
  lemma Silent(t: string)
    requires forall i :: 0 <= i < |t| ==> CannotSpeak(t[i])
    ensures !Contains(t, "min_interval") && !Contains(t, "EXTERNAL_RATE_LIMITED") && !Contains(t, "COOLDOWN")
  {
    NoPart(t, "min_interval", 0);
    NoPart(t, "EXTERNAL_RATE_LIMITED", 0);
    NoPart(t, "COOLDOWN", 0);
  }

  lemma Starts(head: string, rest: string, prefix: string)
    requires prefix <= head
    ensures StartsWith(head + rest, prefix)
  {
  }

  lemma Differs(s: string, prefix: string)
    requires s != "" && prefix != "" && s[0] != prefix[0]
    ensures !StartsWith(s, prefix)
  {
  }

  lemma QuarantineText(rest: string)
    ensures CategoryOf("quarantine_until:" + rest) == Quarantines
  {
    var t := "quarantine_until:" + rest;
    Starts("quarantine_until:", rest, "quarantine");
    Differs(t, "policy_excluded");
    Differs(t, "dead_end");
  }

  /** A text that speaks of a cooldown and begins like none of the first three families. */
  lemma CooldownText(t: string)
    requires t != "" && t[0] !in {'p', 'd', 'q'} && SpeaksOfCooldown(t)
    ensures CategoryOf(t) == Cooldowns
  {
    Differs(t, "policy_excluded");
    Differs(t, "dead_end");
    Differs(t, "quarantine");
  }

  lemma CooldownHead(head: string, rest: string)
    requires "cooldown" <= head
    ensures CategoryOf(head + rest) == Cooldowns
  {
    Starts(head, rest, "cooldown");
    CooldownText(head + rest);
  }

  lemma IntervalText(tail: string)
    ensures CategoryOf("min_interval_not_elapsed:" + tail) == Cooldowns
  {
    var t := "min_interval_not_elapsed:" + tail;
    Starts("min_interval_not_elapsed:", tail, "min_interval");
    assert t[0..] == t;
    CooldownText(t);
  }

  lemma NotReadyText(name: string)
    ensures CategoryOf("not_ready:" + name) ==
      if SpeaksOfCooldown("not_ready:" + name) then Cooldowns else NotReadys
  {
    var t := "not_ready:" + name;
    Starts("not_ready:", name, "not_ready");
    Differs(t, "policy_excluded");
    Differs(t, "dead_end");
    Differs(t, "quarantine");
    assert t[4] != "not_due"[4];
  }

  lemma NotDueText(head: string, number: string)
    requires "not_due" <= head && forall i :: 0 <= i < |head| ==> CannotSpeak(head[i])
    requires forall i :: 0 <= i < |number| ==> CannotSpeak(number[i])
    ensures CategoryOf(head + number) == NotDues
  {
    var t := head + number;
    forall i | 0 <= i < |t| ensures CannotSpeak(t[i]) {
      if i >= |head| { assert t[i] == number[i - |head|]; }
    }
    Silent(t);
    Starts(head, number, "not_due");
    assert t[0] == 'n';
  }

  lemma LackingSum(a: string, b: string, c: char)
    requires Lacks(a, c) && Lacks(b, c)
    ensures Lacks(a + b, c)
  {
  }

  lemma NotReadyHead()
    ensures Lacks("not_ready:", 'm') && Lacks("not_ready:", 'X') && Lacks("not_ready:", 'M')
    ensures Lacks("not_ready:", 'L') && Lacks("not_ready:", 'W')
  {
  }

  /** A text without an 'm' and without one letter of each of the other phrases. */
  predicate IsQuiet(t: string) {
    Lacks(t, 'm') && (Lacks(t, 'X') || Lacks(t, 'M')) && (Lacks(t, 'L') || Lacks(t, 'W'))
  }

  lemma QuietReadyNames()
    ensures IsQuiet("PRODUCTION_READY") && IsQuiet("PRODUCTION_READY_DEGRADED")
    ensures IsQuiet("PRODUCTION_READY_COMMUNITY_PREVIEW")
  {
  }

  lemma QuietPolicyNames()
    ensures IsQuiet("POLICY_EXCLUDED") && IsQuiet("POLICY_BLOCKED_NO_BYPASS") && IsQuiet("DEAD_END_SKIPPED")
  {
  }

  lemma QuietFaultNames()
    ensures IsQuiet("EXTERNAL_API_ERROR") && IsQuiet("VENDOR_CONTRACT_REQUIRED") && IsQuiet("NOT_SERVICE_USEFUL")
  {
  }

  lemma QuietOtherNames()
    ensures IsQuiet("QUARANTINED") && IsQuiet("NEEDS_OPERATOR_REVIEW") && IsQuiet("UNKNOWN")
  {
  }

  lemma QuietState(s: State)
    requires !Resumable(s)
    ensures IsQuiet(StateName(s))
  {
    QuietReadyNames();
    QuietPolicyNames();
    QuietFaultNames();
    QuietOtherNames();
  }

  lemma Quiet(t: string)
    requires IsQuiet(t)
    ensures !Contains(t, "min_interval") && !Contains(t, "EXTERNAL_RATE_LIMITED") && !Contains(t, "COOLDOWN")
  {
    NoPart(t, "min_interval", 0);
    NoPart(t, "EXTERNAL_RATE_LIMITED", if Lacks(t, 'X') then 1 else 16);
    NoPart(t, "COOLDOWN", if Lacks(t, 'L') then 3 else 6);
  }

  lemma QuietText(s: State)
    requires !Resumable(s)
    ensures !SpeaksOfCooldown("not_ready:" + StateName(s))
  {
    var head, name := "not_ready:", StateName(s);
    QuietState(s);
    NotReadyHead();
    forall c | c in {'m', 'X', 'M', 'L', 'W'} && Lacks(name, c) ensures Lacks(head + name, c) {
      LackingSum(head, name, c);
    }
    Quiet(head + name);
    Differs(head + name, "cooldown");
    Differs(head + name, "rate_limit");
  }

  lemma NoStateText()
    ensures CategoryOf("no_state") == Other
  {
    var t := "no_state";
    Quiet(t);
    assert t[0] == 'n' && t[3] == 's';
  }

  lemma DeferredText()
    ensures CategoryOf("deferred:max_sources_cap") == Other
  {
    var t := "deferred:max_sources_cap";
    assert Lacks(t, 'i');
    assert Lacks(t, 'X') && Lacks(t, 'L');
    NoPart(t, "min_interval", 1);
    NoPart(t, "EXTERNAL_RATE_LIMITED", 1);
    NoPart(t, "COOLDOWN", 3);
    assert t[0] == 'd' && t[2] == 'f';
  }

  /** The category is the gate that failed, whatever the values in the text, except that a source held by a rate
      limit counts as a cooldown and never as a dead end; a missing state and the cap have no category of their own. */
  lemma CategoriesFollowGates(r: Reason, tail: string)
    ensures var c := CategoryOf(Text(r, tail));
      match r
      case NoState => c == Other
      case Excluded => c == Policy
      case DeadEnd(_) => c == DeadEnds
      case NotReady(s) => c == if Resumable(s) then Cooldowns else NotReadys
      case QuarantineUntil(_) => c == Quarantines
      case CooldownUntil(_) => c == Cooldowns
      case GovernorRefused(_) => c == Cooldowns
      case NotDue(_) => c == NotDues
      case Deferred => c == Other
  {
    match r
    case NoState => NoStateText();
    case Deferred => DeferredText();
    case Excluded => Starts("policy_excluded:", tail, "policy_excluded");
    case DeadEnd(s) =>
      Starts("dead_end:", StateName(s), "dead_end");
      Differs(Text(r, tail), "policy_excluded");
    case NotReady(s) => NotReadyCategory(s);
    case QuarantineUntil(t) => QuarantineText(t);
    case CooldownUntil(t) => CooldownHead("cooldown_until:", t);
    case GovernorRefused(CooldownActive(reason)) => CooldownHead("cooldown_active:", reason);
    case GovernorRefused(IntervalNotElapsed) => IntervalText(tail);
    case NotDue(n) => NotDueCategory(n);
  }

  lemma NotReadyCategory(s: State)
    ensures CategoryOf("not_ready:" + StateName(s)) == if Resumable(s) then Cooldowns else NotReadys
  {
    NotReadyText(StateName(s));
    if Resumable(s) {
      HasPart("not_ready:", StateName(s));
    } else {
      QuietText(s);
    }
  }

  lemma NotDueCategory(n: int)
    ensures CategoryOf("not_due:interval_" + Shown(n) + "s") == NotDues
  {
    NotDueHead();
    NotDueText("not_due:interval_", Shown(n) + "s");
    assert "not_due:interval_" + (Shown(n) + "s") == "not_due:interval_" + Shown(n) + "s";
  }

  // ---- Building the plan ----

  function CategoriesOf(skipped: seq<string>, reasons: map<string, Reason>): (cs: seq<Category>)
    requires forall s :: s in skipped ==> s in reasons
    ensures |cs| == |skipped|
  {
    if skipped == [] then []
    else
      var n := |skipped| - 1;
      CategoriesOf(skipped[..n], reasons) + [Bucket(reasons[skipped[n]])]
  }

  function Bucket(r: Reason): Category {
    CategoryOf(Text(r, ""))
  }

  lemma CategoriesGrow(skipped: seq<string>, reasons: map<string, Reason>, i: nat)
    requires i < |skipped| && forall s :: s in skipped ==> s in reasons
    ensures CategoriesOf(skipped[..i + 1], reasons) ==
      CategoriesOf(skipped[..i], reasons) + [Bucket(reasons[skipped[i]])]
  {
    assert skipped[..i + 1][..i] == skipped[..i];
  }

  lemma TallyGrows(counts: map<Category, nat>, cs: seq<Category>, c: Category)
    requires Tallies(counts, cs)
    ensures Tallies(counts[c := (if c in counts then counts[c] else 0) + 1], cs + [c])
  {
    assert multiset(cs + [c]) == multiset(cs) + multiset{c};
  }

  lemma TallyStep(counts: map<Category, nat>, skipped: seq<string>, reasons: map<string, Reason>, i: nat, c: Category)
    requires i < |skipped| && forall s :: s in skipped ==> s in reasons
    requires Tallies(counts, CategoriesOf(skipped[..i], reasons)) && c == Bucket(reasons[skipped[i]])
    ensures Tallies(counts[c := (if c in counts then counts[c] else 0) + 1], CategoriesOf(skipped[..i + 1], reasons))
  {
    CategoriesGrow(skipped, reasons, i);
    TallyGrows(counts, CategoriesOf(skipped[..i], reasons), c);
  }

  /** counts holds how often each category occurs among cs. */
  ghost predicate Tallies(counts: map<Category, nat>, cs: seq<Category>) {
    && (forall c :: c in counts <==> c in multiset(cs))
    && (forall c :: c in counts ==> counts[c] == multiset(cs)[c])
  }

  ghost predicate IsPlan(profiles: seq<Profile>, verdicts: seq<Verdict>, max: Option<int>, plan: Plan)
    requires |profiles| == |verdicts|
  {
    var due := Ids(profiles, verdicts, true);
    var keep := Kept(max, |due|);
    && plan.due == due[..keep]
    && plan.skipped == Ids(profiles, verdicts, false) + due[keep..]
    && plan.reasons == DeferAll(Reasons(profiles, verdicts), due[keep..])
    && plan.strategies == Strategies(profiles, verdicts)
    && (forall s :: s in plan.skipped ==> s in plan.reasons)
    && Tallies(plan.counts, CategoriesOf(plan.skipped, plan.reasons))
  }

  /** The accumulators of the loop over the profiles, after the first i of them. */
  ghost predicate Drafted(profiles: seq<Profile>, verdicts: seq<Verdict>, due: seq<string>, skipped: seq<string>,
                          reasons: map<string, Reason>, strategies: map<string, string>)
    requires |profiles| == |verdicts|
  {
    && due == Ids(profiles, verdicts, true) && skipped == Ids(profiles, verdicts, false)
    && reasons == Reasons(profiles, verdicts) && strategies == Strategies(profiles, verdicts)
  }

  lemma DraftGrows(profiles: seq<Profile>, verdicts: seq<Verdict>, p: Profile, v: Verdict)
    requires |profiles| == |verdicts|
    ensures Ids(profiles + [p], verdicts + [v], true) == Ids(profiles, verdicts, true) + if v.Due? then [p.id] else []
    ensures Ids(profiles + [p], verdicts + [v], false) == Ids(profiles, verdicts, false) + if v.Due? then [] else [p.id]
    ensures Reasons(profiles + [p], verdicts + [v]) ==
      if v.Skip? then Reasons(profiles, verdicts)[p.id := v.reason] else Reasons(profiles, verdicts)
    ensures Strategies(profiles + [p], verdicts + [v]) ==
      if v.Due? && v.strategy.Some? && v.strategy.value != ""
      then Strategies(profiles, verdicts)[p.id := v.strategy.value] else Strategies(profiles, verdicts)
  {
    assert (profiles + [p])[..|profiles|] == profiles && (verdicts + [v])[..|profiles|] == verdicts;
  }

  lemma FitGrows(w: Setting, profiles: seq<Profile>, verdicts: seq<Verdict>, i: nat, v: Verdict)
    requires i < |profiles| && |verdicts| == i && AllFit(w, profiles[..i], verdicts)
    requires !v.Crash? && Fits(w, profiles[i], v)
    ensures AllFit(w, profiles[..i + 1], verdicts + [v])
    ensures profiles[..i + 1] == profiles[..i] + [profiles[i]]
  {
    var now := verdicts + [v];
    forall j | 0 <= j < i + 1 ensures !now[j].Crash? && Fits(w, profiles[..i + 1][j], now[j]) {
      if j < i { assert profiles[..i][j] == profiles[..i + 1][j] && now[j] == verdicts[j]; }
    }
  }

  method JudgeAll(profiles: seq<Profile>, w: Setting, governor: RateLimitGovernor?)
    returns (crashed: bool, due: seq<string>, skipped: seq<string>, reasons: map<string, Reason>,
             strategies: map<string, string>, ghost verdicts: seq<Verdict>)
    requires w.governor == if governor == null then None else Some(governor.state)
    ensures crashed <==> exists p :: p in profiles && !Judgeable(w, p)
    ensures !crashed ==> AllFit(w, profiles, verdicts) && Drafted(profiles, verdicts, due, skipped, reasons, strategies)
  {
    crashed, due, skipped, reasons, strategies, verdicts := false, [], [], map[], map[], [];
    for i := 0 to |profiles|
      invariant |verdicts| == i && AllFit(w, profiles[..i], verdicts)
      invariant Drafted(profiles[..i], verdicts, due, skipped, reasons, strategies)
    {
      var p := profiles[i];
      var v := Judge(w, governor, p);
      if v.Crash? {
        return true, due, skipped, reasons, strategies, verdicts;
      }
      FitGrows(w, profiles, verdicts, i, v);
      DraftGrows(profiles[..i], verdicts, p, v);
      verdicts := verdicts + [v];
      if v.Skip? {
        skipped := skipped + [p.id];
        reasons := reasons[p.id := v.reason];
      } else {
        due := due + [p.id];
        if v.strategy.Some? && v.strategy.value != "" {
          strategies := strategies[p.id := v.strategy.value];
        }
      }
    }
    assert profiles[..|profiles|] == profiles;
  }

  method Tally(skipped: seq<string>, reasons: map<string, Reason>) returns (counts: map<Category, nat>)
    requires forall s :: s in skipped ==> s in reasons
    ensures Tallies(counts, CategoriesOf(skipped, reasons))
  {
    counts := map[];
    for i := 0 to |skipped|
      invariant Tallies(counts, CategoriesOf(skipped[..i], reasons))
    {
      var c := Bucket(reasons[skipped[i]]);
      TallyStep(counts, skipped, reasons, i, c);
      counts := counts[c := (if c in counts then counts[c] else 0) + 1];
    }
    assert skipped[..|skipped|] == skipped;
  }

  /** None: a deadline without an offset was compared with now, and the planner raised. */
  method BuildRunPlan(profiles: seq<Profile>, w: Setting, governor: RateLimitGovernor?, max: Option<int>)
    returns (plan: Option<Plan>, ghost verdicts: seq<Verdict>)
    requires w.governor == if governor == null then None else Some(governor.state)
    ensures plan.None? <==> exists p :: p in profiles && !Judgeable(w, p)
    ensures plan.Some? ==> AllFit(w, profiles, verdicts) && IsPlan(profiles, verdicts, max, plan.value)
  {
    var crashed, due, skipped, reasons, strategies;
    crashed, due, skipped, reasons, strategies, verdicts := JudgeAll(profiles, w, governor);
    if crashed {
      return None, verdicts;
    }
    var keep := Kept(max, |due|);
    var overflow := due[keep..];
    due := due[..keep];
    ghost var before := reasons;
    ghost var early := skipped;
    for i := 0 to |overflow|
      invariant skipped == early + overflow[..i] && reasons == DeferAll(before, overflow[..i])
    {
      assert overflow[..i + 1][..i] == overflow[..i];
      skipped := skipped + [overflow[i]];
      reasons := reasons[overflow[i] := Deferred];
    }
    assert overflow[..|overflow|] == overflow;
    ReasonsCover(profiles, verdicts);
    DeferredCover(before, overflow);
    var counts := Tally(skipped, reasons);
    plan := Some(Plan(due, skipped, reasons, strategies, counts));
  }

  lemma {:induction false} ReasonsCover(profiles: seq<Profile>, verdicts: seq<Verdict>)
    requires |profiles| == |verdicts| && forall i :: 0 <= i < |verdicts| ==> !verdicts[i].Crash?
    ensures forall s :: s in Reasons(profiles, verdicts) <==> s in Ids(profiles, verdicts, false)
    decreases |profiles|
  {
    if profiles != [] {
      ReasonsCover(profiles[..|profiles| - 1], verdicts[..|profiles| - 1]);
    }
  }

  lemma {:induction false} DeferredCover(reasons: map<string, Reason>, ids: seq<string>)
    ensures var d := DeferAll(reasons, ids);
      && (forall s :: s in d <==> s in reasons || s in ids)
      && (forall s :: s in d ==> d[s] == if s in ids then Deferred else reasons[s])
    decreases |ids|
  {
    if ids != [] {
      DeferredCover(reasons, ids[..|ids| - 1]);
    }
  }

  // ---- What a plan is ----

  ghost predicate DistinctIds(profiles: seq<Profile>) {
    forall i, j :: 0 <= i < j < |profiles| ==> profiles[i].id != profiles[j].id
  }

  lemma {:induction false} IdsFollowVerdicts(profiles: seq<Profile>, verdicts: seq<Verdict>, due: bool)
    requires |profiles| == |verdicts|
    ensures forall s :: s in Ids(profiles, verdicts, due) <==>
      exists i :: 0 <= i < |profiles| && profiles[i].id == s && verdicts[i].Due? == due
    decreases |profiles|
  {
    if profiles != [] {
      var n := |profiles| - 1;
      IdsFollowVerdicts(profiles[..n], verdicts[..n], due);
      forall s | s in Ids(profiles, verdicts, due)
        ensures exists i :: 0 <= i < |profiles| && profiles[i].id == s && verdicts[i].Due? == due
      {
        if s in Ids(profiles[..n], verdicts[..n], due) {
          var i :| 0 <= i < n && profiles[..n][i].id == s && verdicts[..n][i].Due? == due;
          assert profiles[i].id == s && verdicts[i].Due? == due;
        } else {
          assert profiles[n].id == s && verdicts[n].Due? == due;
        }
      }
      forall i | 0 <= i < |profiles| && verdicts[i].Due? == due ensures profiles[i].id in Ids(profiles, verdicts, due) {
        if i < n { assert profiles[..n][i].id == profiles[i].id && verdicts[..n][i] == verdicts[i]; }
      }
    }
  }

  /** Every profile is handed on once: no id is lost, added or listed in both halves more often than it came in. */
  lemma {:induction false} IdsSplit(profiles: seq<Profile>, verdicts: seq<Verdict>)
    requires |profiles| == |verdicts|
    ensures multiset(Ids(profiles, verdicts, true)) + multiset(Ids(profiles, verdicts, false)) ==
      multiset(AllIds(profiles))
    decreases |profiles|
  {
    if profiles != [] {
      IdsSplit(profiles[..|profiles| - 1], verdicts[..|profiles| - 1]);
    }
  }

  function AllIds(profiles: seq<Profile>): seq<string> {
    if profiles == [] then [] else AllIds(profiles[..|profiles| - 1]) + [profiles[|profiles| - 1].id]
  }

  lemma {:induction false} ReasonOfVerdict(profiles: seq<Profile>, verdicts: seq<Verdict>, i: nat)
    requires |profiles| == |verdicts| && DistinctIds(profiles) && i < |profiles| && verdicts[i].Skip?
    ensures profiles[i].id in Reasons(profiles, verdicts)
      && Reasons(profiles, verdicts)[profiles[i].id] == verdicts[i].reason
    decreases |profiles|
  {
    var n := |profiles| - 1;
    if i < n {
      ReasonOfVerdict(profiles[..n], verdicts[..n], i);
    }
  }

  function Total(m: multiset<Category>): nat {
    m[Policy] + m[DeadEnds] + m[Quarantines] + m[Cooldowns] + m[NotDues] + m[NotReadys] + m[Other]
  }

  lemma TotalGrows(m: multiset<Category>, c: Category)
    ensures Total(m + multiset{c}) == Total(m) + 1
  {
    match c {
      case Policy =>
      case DeadEnds =>
      case Quarantines =>
      case Cooldowns =>
      case NotDues =>
      case NotReadys =>
      case Other =>
    }
  }

  lemma {:induction false} TallyAdds(cs: seq<Category>)
    ensures Total(multiset(cs)) == |cs|
    decreases |cs|
  {
    if cs != [] {
      var n := |cs| - 1;
      TallyAdds(cs[..n]);
      assert cs == cs[..n] + [cs[n]];
      TotalGrows(multiset(cs[..n]), cs[n]);
    }
  }

  function CountIn(counts: map<Category, nat>, c: Category): nat {
    if c in counts then counts[c] else 0
  }

  function Counted(n: map<Category, nat>): nat {
    CountIn(n, Policy) + CountIn(n, DeadEnds) + CountIn(n, Quarantines) + CountIn(n, Cooldowns)
    + CountIn(n, NotDues) + CountIn(n, NotReadys) + CountIn(n, Other)
  }

  lemma CountsAddUp(counts: map<Category, nat>, cs: seq<Category>)
    requires Tallies(counts, cs)
    ensures Counted(counts) == |cs|
  {
    TallyAdds(cs);
    forall c: Category ensures CountIn(counts, c) == multiset(cs)[c] {
    }
  }

  /** The cap cuts the due list in two without losing any of it. */
  lemma CutKeepsAll(due: seq<string>, skipped: seq<string>, keep: nat)
    requires keep <= |due|
    ensures multiset(due[..keep]) + multiset(skipped + due[keep..]) == multiset(due) + multiset(skipped)
  {
    assert due == due[..keep] + due[keep..];
  }

  /** A plan hands on every profile once, as due or as skipped; its counts add up to the skipped ones;
      and a cap that is no negative number is respected. */
  lemma PlanConserves(profiles: seq<Profile>, verdicts: seq<Verdict>, max: Option<int>, plan: Plan)
    requires |profiles| == |verdicts| && IsPlan(profiles, verdicts, max, plan)
    ensures multiset(plan.due) + multiset(plan.skipped) == multiset(AllIds(profiles))
    ensures Counted(plan.counts) == |plan.skipped|
    ensures max.Some? && max.value >= 0 ==> |plan.due| <= max.value
  {
    var due := Ids(profiles, verdicts, true);
    IdsSplit(profiles, verdicts);
    CutKeepsAll(due, Ids(profiles, verdicts, false), Kept(max, |due|));
    CountsAddUp(plan.counts, CategoriesOf(plan.skipped, plan.reasons));
  }

  /** How many sources are due under a cap: all without one, at most a cap that is no negative number, and without the
      last ones under a negative one. */
  lemma CapIs(profiles: seq<Profile>, verdicts: seq<Verdict>, max: Option<int>, plan: Plan)
    requires |profiles| == |verdicts| && IsPlan(profiles, verdicts, max, plan)
    ensures var all := Ids(profiles, verdicts, true);
      && plan.due <= all
      && |plan.due| == if max.None? || max.value >= |all| then |all|
                       else if max.value >= 0 then max.value
                       else if |all| + max.value >= 0 then |all| + max.value else 0
  {
  }

  lemma {:induction false} EachIdOnce(profiles: seq<Profile>, i: nat)
    requires DistinctIds(profiles) && i < |profiles|
    ensures multiset(AllIds(profiles))[profiles[i].id] == 1
    decreases |profiles|
  {
    var n := |profiles| - 1;
    if i < n {
      EachIdOnce(profiles[..n], i);
    } else {
      NotYet(profiles[..n], profiles[n].id);
    }
  }

  lemma {:induction false} NotYet(profiles: seq<Profile>, id: string)
    requires forall p :: p in profiles ==> p.id != id
    ensures id !in multiset(AllIds(profiles))
    decreases |profiles|
  {
    if profiles != [] {
      NotYet(profiles[..|profiles| - 1], id);
      assert profiles[|profiles| - 1] in profiles;
    }
  }

  /** An id that came in once is in one half only. */
  lemma OneHalf(a: multiset<string>, b: multiset<string>, all: multiset<string>, id: string)
    requires a + b == all && all[id] == 1
    ensures (id in a) != (id in b)
  {
    assert all[id] == a[id] + b[id];
  }

  lemma Halves(profiles: seq<Profile>, verdicts: seq<Verdict>, i: nat)
    requires |profiles| == |verdicts| && DistinctIds(profiles) && i < |profiles|
    ensures profiles[i].id in Ids(profiles, verdicts, true) <==> verdicts[i].Due?
    ensures profiles[i].id in Ids(profiles, verdicts, false) <==> !verdicts[i].Due?
  {
    var due := verdicts[i].Due?;
    EachIdOnce(profiles, i);
    IdsSplit(profiles, verdicts);
    OneHalf(multiset(Ids(profiles, verdicts, true)), multiset(Ids(profiles, verdicts, false)),
            multiset(AllIds(profiles)), profiles[i].id);
    assert profiles[i].id in Ids(profiles, verdicts, due) by { IdsFollowVerdicts(profiles, verdicts, due); }
  }

  lemma OneVerdictEach(profiles: seq<Profile>, verdicts: seq<Verdict>, max: Option<int>, plan: Plan, i: nat)
    requires |profiles| == |verdicts| && IsPlan(profiles, verdicts, max, plan)
    requires DistinctIds(profiles) && i < |profiles| && !verdicts[i].Crash?
    ensures var id := profiles[i].id;
      && (id in plan.skipped ==> id in plan.reasons)
      && if verdicts[i].Due? then id in plan.skipped ==> plan.reasons[id] == Deferred && max.Some?
         else id in plan.skipped && plan.reasons[id] == verdicts[i].reason
  {
    var id := profiles[i].id;
    var due := Ids(profiles, verdicts, true);
    Halves(profiles, verdicts, i);
    DeferredCover(Reasons(profiles, verdicts), due[Kept(max, |due|)..]);
    if verdicts[i].Skip? {
      ReasonOfVerdict(profiles, verdicts, i);
    }
  }

  lemma BlameIsDeserved(w: Setting, p: Profile, reason: Reason)
    requires Blames(w, p, reason)
    ensures !PassesEveryGate(w, p)
  {
  }

  /** With distinct ids: a source is listed in exactly one half, a skipped one with the reason of the first gate
      that failed, and a due one is either listed as due or deferred by the cap. */
  lemma OneReasonEach(w: Setting, profiles: seq<Profile>, verdicts: seq<Verdict>, max: Option<int>, plan: Plan, i: nat)
    requires AllFit(w, profiles, verdicts) && IsPlan(profiles, verdicts, max, plan)
    requires DistinctIds(profiles) && i < |profiles|
    ensures var p := profiles[i];
      && (p.id in plan.due) != (p.id in plan.skipped)
      && (p.id in plan.skipped ==> p.id in plan.reasons)
      && if PassesEveryGate(w, p) then p.id in plan.skipped ==> plan.reasons[p.id] == Deferred && max.Some?
         else p.id in plan.skipped && Blames(w, p, plan.reasons[p.id])
  {
    var p := profiles[i];
    PlanConserves(profiles, verdicts, max, plan);
    EachIdOnce(profiles, i);
    OneHalf(multiset(plan.due), multiset(plan.skipped), multiset(AllIds(profiles)), p.id);
    OneVerdictEach(profiles, verdicts, max, plan, i);
    assert Fits(w, p, verdicts[i]);
    if verdicts[i].Skip? {
      BlameIsDeserved(w, p, verdicts[i].reason);
    }
  }

  // ---- A rate limit ends by itself ----

  /** A source whose memory says "rate limited", with nothing else in its way, is due exactly from its resume time on,
      if that time carries an offset. With a time that carries none the plan crashes from then on, and with an
      unreadable or missing one the source never resumes. */
  lemma RateLimitEndsByItself(w: Setting, p: Profile, m: Memory, health: Option<HealthState>, keyReady: bool)
    requires p.enabled && StateByHealth(health).None? && Mapped(m.final) == Some(ExternalRateLimited)
    requires MemoryOf(w, p.id) == Some(m) && p.id in w.states && w.states[p.id] == Derive(p, Some(m), health, keyReady)
    requires GovernorGate(w, p) && IntervalGate(w, p)
    ensures var t := Read(w.read, ResumeAt(m));
      && (Judgeable(w, p) && PassesEveryGate(w, p) <==> t.Some? && t.value.Aware? && t.value.at <= w.now)
      && (!Judgeable(w, p) <==> t.Some? && t.value.Naive? && t.value.at <= w.now)
      && (t.None? || w.now < t.value.at ==> Blames(w, p, NotReady(ExternalRateLimited)))
  {
    var s := w.states[p.id];
    assert s.cooldownUntil == ResumeAt(m) && s.quarantineUntil == None && !s.deadEnd && !s.ready && !s.excluded;
    assert Read(w.read, None) == None;
  }

  const OFFSET_FREE := "2024-05-01T00:00:00"

  /** A rate-limited memory whose resume time carries no offset. */
  function OffsetFreeMemory(): Memory {
    Memory(ExternalRateLimitedWithRetryPolicy, [], None, None, POLICY_PREFIX + OFFSET_FREE, "")
  }

  lemma OffsetFreeResume()
    ensures ResumeAt(OffsetFreeMemory()) == Some(OFFSET_FREE)
  {
    var policy := POLICY_PREFIX + OFFSET_FREE;
    assert policy[|POLICY_PREFIX|..] == OFFSET_FREE;
    SolidStrips(OFFSET_FREE);
  }

  /** One such memory stops the plan for every source, whatever surrounds it, from that instant on. */
  method OffsetFreeStopsThePlan(profiles: seq<Profile>, w: Setting, governor: RateLimitGovernor?, max: Option<int>,
                                p: Profile, at: Instant) returns (plan: Option<Plan>)
    requires w.governor == if governor == null then None else Some(governor.state)
    requires w.read(OFFSET_FREE) == Some(Naive(at)) && at <= w.now
    requires p in profiles && p.enabled && MemoryOf(w, p.id) == Some(OffsetFreeMemory())
    requires p.id in w.states && w.states[p.id] == Derive(p, Some(OffsetFreeMemory()), None, false)
    ensures plan.None?
  {
    OffsetFreeResume();
    assert !Judgeable(w, p);
    ghost var verdicts;
    plan, verdicts := BuildRunPlan(profiles, w, governor, max);
  }
}
