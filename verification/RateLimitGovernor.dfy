/** Per-source call spacing and cooldowns (rate_limit_governor.py). */
module RateLimitGovernors {
  import opened Clock
  import opened Options

  const MAX_COOLDOWN := 86400
  const CONSERVATIVE_COOLDOWN := 3600

  function DefaultCooldown(freshness: string): int {
    if freshness == "near_real_time" then 900
    else if freshness == "short" then 1800
    else if freshness == "medium" then 3600
    else if freshness == "daily" then 21600
    else CONSERVATIVE_COOLDOWN
  }

  /** What a Retry-After value says: nothing, a number, digits, an HTTP date (as seconds from now), or noise. */
  datatype RetryAfter = Missing | Number(n: int) | Digits(d: nat) | HttpDate(secondsAhead: int) | Unreadable

  function RetrySeconds(r: RetryAfter): Option<int> {
    match r
    case Missing => None
    case Number(n) => Some(if n > 0 then n else 0)
    case Digits(d) => Some(d)
    case HttpDate(s) => Some(if s > 0 then s else 0)
    case Unreadable => None
  }

  function CooldownSeconds(r: RetryAfter, freshness: string): (secs: int)
    ensures 1 <= secs <= MAX_COOLDOWN
  {
    var wanted := match RetrySeconds(r) case Some(n) => n case None => DefaultCooldown(freshness);
    var capped := if wanted < MAX_COOLDOWN then wanted else MAX_COOLDOWN;
    if capped > 1 then capped else 1
  }

  datatype Entry = Entry(lastCallAt: Option<Instant>, cooldownUntil: Option<Instant>, reason: string)

  const NO_ENTRY := Entry(None, None, "")

  type GovernorState = map<string, Entry>

  function EntryOf(state: GovernorState, source: string): Entry {
    if source in state then state[source] else NO_ENTRY
  }

  predicate Cooling(e: Entry, now: Instant) {
    e.cooldownUntil.Some? && e.cooldownUntil.value > now
  }

  predicate IntervalElapsed(e: Entry, interval: int, now: Instant) {
    e.lastCallAt.None? || now - e.lastCallAt.value >= interval * SECOND
  }

  predicate Admits(e: Entry, interval: int, now: Instant) {
    !Cooling(e, now) && IntervalElapsed(e, interval, now)
  }

  datatype Refusal = CooldownActive(reason: string) | IntervalNotElapsed

  datatype Decision = Decision(refusal: Option<Refusal>, cooldownUntil: Option<Instant>)

  function RefusalFor(e: Entry, interval: int, now: Instant): Option<Refusal> {
    if Cooling(e, now) then Some(CooldownActive(if e.reason != "" then e.reason else "rate_limited"))
    else if !IntervalElapsed(e, interval, now) then Some(IntervalNotElapsed)
    else None
  }

  class RateLimitGovernor {
    var state: GovernorState

    constructor ()
      ensures state == map[]
    {
      state := map[];
    }

    method Decide(source: string, interval: int, now: Instant) returns (d: Decision)
      ensures d.refusal.None? <==> Admits(EntryOf(state, source), interval, now)
      ensures d.refusal == RefusalFor(EntryOf(state, source), interval, now)
      ensures d.cooldownUntil ==
        if Cooling(EntryOf(state, source), now) then EntryOf(state, source).cooldownUntil else None
    {
      var e := EntryOf(state, source);
      if e.cooldownUntil.Some? && e.cooldownUntil.value > now {
        return Decision(Some(CooldownActive(if e.reason != "" then e.reason else "rate_limited")), e.cooldownUntil);
      }
      if e.lastCallAt.Some? {
        var elapsed := now - e.lastCallAt.value;
        if elapsed < interval * SECOND {
          return Decision(Some(IntervalNotElapsed), None);
        }
      }
      return Decision(None, None);
    }

    method RecordCall(source: string, now: Instant)
      modifies this
      ensures state == Apply(old(state), Called(source, now))
    {
      state := state[source := EntryOf(state, source).(lastCallAt := Some(WholeSecond(now)))];
    }

    method RecordRateLimited(source: string, retryAfter: RetryAfter, freshness: string, reason: string, now: Instant)
      returns (cooldownUntil: Instant)
      modifies this
      ensures state == Apply(old(state), RateLimited(source, CooldownSeconds(retryAfter, freshness), reason, now))
      ensures cooldownUntil == WholeSecond(now) + CooldownSeconds(retryAfter, freshness) * SECOND
      ensures EntryOf(state, source).cooldownUntil == Some(cooldownUntil)
    {
      var secs := match RetrySeconds(retryAfter) { case Some(n) => n case None => DefaultCooldown(freshness) };
      secs := if secs < MAX_COOLDOWN then secs else MAX_COOLDOWN;
      secs := if secs > 1 then secs else 1;
      cooldownUntil := WholeSecond(now + secs * SECOND);
      AddSeconds(now, secs);
      state := state[source := Entry(Some(WholeSecond(now)), Some(cooldownUntil), reason)];
    }

    method ClearCooldown(source: string)
      modifies this
      ensures state == Apply(old(state), Cleared(source))
    {
      if source in state {
        state := state[source := state[source].(cooldownUntil := None, reason := "")];
      }
    }
  }

  // ---- Histories ----

  datatype Op =
    | Called(source: string, at: Instant)
    | RateLimited(source: string, secs: int, reason: string, at: Instant)
    | Cleared(source: string)

  function Apply(state: GovernorState, op: Op): GovernorState {
    match op
    case Called(s, at) => state[s := EntryOf(state, s).(lastCallAt := Some(WholeSecond(at)))]
    case RateLimited(s, secs, reason, at) =>
      state[s := Entry(Some(WholeSecond(at)), Some(WholeSecond(at + secs * SECOND)), reason)]
    case Cleared(s) => if s in state then state[s := state[s].(cooldownUntil := None, reason := "")] else state
  }

  function ApplyAll(state: GovernorState, ops: seq<Op>): GovernorState {
    if ops == [] then state else Apply(ApplyAll(state, ops[..|ops| - 1]), ops[|ops| - 1])
  }

  /** The instant of the last call to the source among the operations, if there was one. */
  function LastCall(ops: seq<Op>, source: string): Option<Instant> {
    if ops == [] then None
    else
      var op := ops[|ops| - 1];
      if op.source == source && (op.Called? || op.RateLimited?) then Some(op.at) else LastCall(ops[..|ops| - 1], source)
  }

  ghost predicate LeavesCooldown(ops: seq<Op>, source: string) {
    forall i :: 0 <= i < |ops| && ops[i].source == source ==> ops[i].Called?
  }

  lemma {:induction false} EntryAfter(state: GovernorState, ops: seq<Op>, source: string)
    requires LeavesCooldown(ops, source)
    ensures var e, f := EntryOf(state, source), EntryOf(ApplyAll(state, ops), source);
      && f.cooldownUntil == e.cooldownUntil
      && f.lastCallAt == match LastCall(ops, source) case Some(at) => Some(WholeSecond(at)) case None => e.lastCallAt
    decreases |ops|
  {
    if ops != [] { EntryAfter(state, ops[..|ops| - 1], source); }
  }

  /** After a rate limit of `secs` seconds recorded at t, whatever is called or recorded for whichever source,
      short of another limit or a clear for this one: every instant before the whole second of t + secs is refused,
      and from there on exactly those where the interval since the last call has passed are admitted. */
  lemma CooldownIsExact(state: GovernorState, source: string, secs: int, reason: string, t: Instant,
                        later: seq<Op>, interval: int, now: Instant)
    requires LeavesCooldown(later, source)
    ensures
      var after := ApplyAll(Apply(state, RateLimited(source, secs, reason, t)), later);
      var last := match LastCall(later, source) case Some(at) => at case None => t;
      Admits(EntryOf(after, source), interval, now) <==>
        WholeSecond(t) + secs * SECOND <= now && WholeSecond(last) + interval * SECOND <= now
  {
    EntryAfter(Apply(state, RateLimited(source, secs, reason, t)), later, source);
    AddSeconds(t, secs);
  }

  // ---- How long a cooldown is ----

  /** The seconds nearest to n between one second and a day. */
  predicate IsNearest(secs: int, n: int) {
    if n < 1 then secs == 1 else if n > 24 * 60 * 60 then secs == 24 * 60 * 60 else secs == n
  }

  /** Without a readable Retry-After: a quarter of an hour, half an hour, an hour or six hours, by freshness. */
  predicate IsUsual(secs: int, freshness: string) {
    if freshness == "near_real_time" then secs == 15 * 60
    else if freshness == "short" then secs == 30 * 60
    else if freshness == "daily" then secs == 6 * 60 * 60
    else secs == 60 * 60
  }

  /** A readable Retry-After is kept to, within a day; otherwise the freshness decides. */
  lemma CooldownLength(retryAfter: RetryAfter, freshness: string)
    ensures var secs := CooldownSeconds(retryAfter, freshness);
      match retryAfter
      case Number(n) => IsNearest(secs, n)
      case Digits(d) => IsNearest(secs, d)
      case HttpDate(ahead) => IsNearest(secs, ahead)
      case Missing => IsUsual(secs, freshness)
      case Unreadable => IsUsual(secs, freshness)
  {
  }

  /** A provider that asks for n seconds, at most a day, is left alone for n seconds, and is called again from then on
      if the interval allows it. */
  lemma RetryAfterIsKept(state: GovernorState, source: string, n: nat, freshness: string, reason: string, t: Instant,
                         interval: int, now: Instant)
    requires 1 <= n <= 86400
    ensures var after := Apply(state, RateLimited(source, CooldownSeconds(Number(n), freshness), reason, t));
      Admits(EntryOf(after, source), interval, now) <==>
        WholeSecond(t) + n * 1_000_000 <= now && WholeSecond(t) + interval * 1_000_000 <= now
  {
    CooldownLength(Number(n), freshness);
    CooldownIsExact(state, source, n, reason, t, [], interval, now);
  }

  /** A refusal names the cooldown before the interval, and the cooldown's own reason if it has one. */
  lemma RefusalIs(e: Entry, interval: int, now: Instant)
    ensures var r := RefusalFor(e, interval, now);
      var cooling := e.cooldownUntil.Some? && now < e.cooldownUntil.value;
      var tooSoon := e.lastCallAt.Some? && now < e.lastCallAt.value + interval * SECOND;
      && (r == None <==> !cooling && !tooSoon)
      && (cooling ==> r == Some(CooldownActive(if e.reason == "" then "rate_limited" else e.reason)))
      && (!cooling && tooSoon ==> r == Some(IntervalNotElapsed))
  {
  }
}
