/** The host gate shared by independent loops through one state file (host_rate_gate.py). */
module HostRateGates {
  import opened Clock
  import opened Options

  /** host -> last call stamp */
  type Stamps = map<string, Instant>

  function LastStamp(stamps: Stamps, host: string): Option<Instant> {
    if host in stamps then Some(stamps[host]) else None
  }

  // ---- What the gate promises ----

  predicate Admits(last: Option<Instant>, spacing: int, now: Instant) {
    last.None? || now - last.value >= spacing * SECOND
  }

  datatype Decision = Decision(allowed: bool, lastCallAt: Option<Instant>, nextAllowedAt: Option<Instant>)

  /** One recorded call: the real instant, the stamp stored for it, and the spacing its caller asked for. */
  datatype Call = Call(host: string, at: Instant, stamp: Instant, spacing: int)

  /** Any later call to the same host is stamped at least its spacing after every earlier one,
      and really happens more than its spacing less one second after it. */
  ghost predicate Spaced(log: seq<Call>) {
    && (forall i :: 0 <= i < |log| ==> log[i].spacing >= 0)
    && forall i, j :: 0 <= i < j < |log| && log[i].host == log[j].host ==>
         && log[j].stamp - log[i].stamp >= log[j].spacing * SECOND
         && log[j].at - log[i].at > (log[j].spacing - 1) * SECOND
  }

  /** k is the position of the host's last call. */
  ghost predicate IsLastCall(log: seq<Call>, host: string, k: nat) {
    k < |log| && log[k].host == host && forall i :: k < i < |log| ==> log[i].host != host
  }

  /** The stored stamps are those of the last calls of the log, cut to whole seconds. */
  ghost predicate Reflects(stamps: Stamps, log: seq<Call>) {
    && (forall i :: 0 <= i < |log| ==> log[i].stamp == WholeSecond(log[i].at) && log[i].host in stamps)
    && (forall h :: h in stamps ==>
      IsWhole(stamps[h]) && exists k: nat :: IsLastCall(log, h, k) && log[k].stamp == stamps[h])
  }

  /** The JSON file the loops share. */
  class StateFile {
    var present: bool
    var stamps: Stamps
    ghost var log: seq<Call>  // every call recorded through the file

    ghost predicate Valid()
      reads this
    {
      (!present ==> stamps == map[] && log == []) && Reflects(stamps, log)
    }

    constructor ()
      ensures Valid() && log == [] && stamps == map[]
    {
      present, stamps, log := false, map[], [];
    }
  }

  class HostRateGate {
    const file: StateFile
    var state: Stamps

    constructor (file: StateFile)
      ensures this.file == file && state == file.stamps
    {
      this.file := file;
      state := file.stamps;
    }

    /** Take over what other processes wrote; before the first write there is nothing to take over. */
    method Reload()
      modifies this
      ensures state == if file.present then file.stamps else old(state)
    {
      if file.present {
        state := file.stamps;
      }
    }

    method Decide(host: string, spacing: int, now: Instant) returns (d: Decision)
      modifies this
      ensures state == if file.present then file.stamps else old(state)
      ensures d.allowed <==> Admits(LastStamp(state, host), spacing, now)
      ensures d.lastCallAt == LastStamp(state, host)
      ensures d.nextAllowedAt == if d.allowed then None else Some(WholeSecond(state[host] + spacing * SECOND))
    {
      Reload();
      var last := LastStamp(state, host);
      if last.Some? {
        var elapsed := now - last.value;
        if elapsed < spacing * SECOND {
          return Decision(false, last, Some(WholeSecond(last.value + spacing * SECOND)));
        }
      }
      return Decision(true, last, None);
    }

    method RecordCall(host: string, spacing: int, now: Instant) returns (stamp: Instant)
      requires file.Valid() && (!file.present ==> state == map[])
      modifies this, file
      ensures file.Valid() && file.present && state == file.stamps
      ensures stamp == WholeSecond(now) && file.stamps == old(file.stamps)[host := stamp]
      ensures file.log == old(file.log) + [Call(host, now, stamp, spacing)]
    {
      Reload();
      stamp := WholeSecond(now);
      WholeSecondIsWhole(now);
      state := state[host := stamp];
      file.present := true;
      RecordReflects(file.stamps, file.log, Call(host, now, stamp, spacing));
      file.stamps := state;
      file.log := file.log + [Call(host, now, stamp, spacing)];
    }

    /** The call path of every loop: record only if the gate admits, with no other loop in between. */
    method Attempt(host: string, spacing: nat, now: Instant) returns (admitted: bool)
      requires file.Valid() && (!file.present ==> state == map[])
      modifies this, file
      ensures file.Valid() && (old(file.present) ==> file.present) && (!file.present ==> state == map[])
      ensures admitted <==> Admits(LastStamp(old(file.stamps), host), spacing, now)
      ensures file.stamps == if admitted then old(file.stamps)[host := WholeSecond(now)] else old(file.stamps)
      ensures file.log == old(file.log) + if admitted then [Call(host, now, WholeSecond(now), spacing)] else []
      ensures old(Spaced(file.log)) ==> Spaced(file.log)
    {
      var d := Decide(host, spacing, now);
      if !d.allowed {
        return false;
      }
      AdmittedIsSpaced(file.stamps, file.log, host, spacing, now);
      var stamp := RecordCall(host, spacing, now);
      return true;
    }
  }

  lemma RecordReflects(stamps: Stamps, log: seq<Call>, c: Call)
    requires Reflects(stamps, log) && c.stamp == WholeSecond(c.at)
    ensures Reflects(stamps[c.host := c.stamp], log + [c])
  {
    WholeSecondIsWhole(c.at);
    var more := log + [c];
    assert IsLastCall(more, c.host, |log|);
    forall h | h in stamps && h != c.host
      ensures exists k: nat :: IsLastCall(more, h, k) && more[k].stamp == stamps[h]
    {
      var k: nat :| IsLastCall(log, h, k) && log[k].stamp == stamps[h];
      assert IsLastCall(more, h, k);
    }
  }

  /** Truncation loses less than a second: an admitted call keeps the log spaced. */
  lemma AdmittedIsSpaced(stamps: Stamps, log: seq<Call>, host: string, spacing: nat, now: Instant)
    requires Reflects(stamps, log) && Admits(LastStamp(stamps, host), spacing, now)
    ensures Spaced(log) ==> Spaced(log + [Call(host, now, WholeSecond(now), spacing)])
  {
    if host in stamps && Spaced(log) {
      AddSeconds(stamps[host], spacing);
      WholeSecondKeepsBound(stamps[host] + spacing * SECOND, now);
      LastIsLatest(stamps, log, host);
    }
  }

  /** The stored stamp is the latest of the host's stamps, and no call was a second or more after its stamp. */
  lemma LastIsLatest(stamps: Stamps, log: seq<Call>, host: string)
    requires Reflects(stamps, log) && Spaced(log) && host in stamps
    ensures forall i :: 0 <= i < |log| && log[i].host == host ==>
      log[i].stamp <= stamps[host] && log[i].at < stamps[host] + SECOND
  {
    var k: nat :| IsLastCall(log, host, k) && log[k].stamp == stamps[host];
    forall i | 0 <= i < |log| && log[i].host == host ensures log[i].stamp <= stamps[host] {
      assert i <= k;
    }
  }

  /** The reported next instant is exactly the first the gate admits. */
  lemma NextAllowedIsFirst(last: Instant, spacing: int, t: Instant)
    requires IsWhole(last)
    ensures Admits(Some(last), spacing, t) <==> WholeSecond(last + spacing * SECOND) <= t
  {
    AddSeconds(last, spacing);
    WholeSecondIsWhole(last);
    var k := last / SECOND;
    assert WholeSecond(last) == last;
  }

  /** The real-time bound is tight: calls can be one microsecond more than spacing - 1 seconds apart. */
  lemma BoundIsTight(second: Instant, spacing: int)
    requires IsWhole(second)
    ensures var first, next := second + SECOND - 1, second + spacing * SECOND;
      && Admits(Some(WholeSecond(first)), spacing, next)
      && next - first == (spacing - 1) * SECOND + 1
  {
    var k := second / SECOND;
    assert second == SECOND * k;
    assert (second + SECOND - 1) / SECOND == k;
  }

  // ---- Many loops, one file ----

  /** One loop's attempt, through its own gate. */
  datatype Try = Try(gate: HostRateGate, host: string, spacing: nat, now: Instant)

  /** The stamps and the log after one attempt; which gate it goes through makes no difference. */
  function AfterTry(stamps: Stamps, log: seq<Call>, t: Try): (Stamps, seq<Call>) {
    if Admits(LastStamp(stamps, t.host), t.spacing, t.now)
    then (stamps[t.host := WholeSecond(t.now)], log + [Call(t.host, t.now, WholeSecond(t.now), t.spacing)])
    else (stamps, log)
  }

  function After(stamps: Stamps, log: seq<Call>, tries: seq<Try>): (Stamps, seq<Call>) {
    if tries == [] then (stamps, log)
    else
      var before := After(stamps, log, tries[..|tries| - 1]);
      AfterTry(before.0, before.1, tries[|tries| - 1])
  }

  /** Every gate is on the file and, before the first write, still empty. */
  ghost predicate OnFile(file: StateFile, tries: seq<Try>)
    reads file, set t | t in tries :: t.gate
  {
    forall t :: t in tries ==> t.gate.file == file && (!file.present ==> t.gate.state == map[])
  }

  lemma AfterGrows(stamps: Stamps, log: seq<Call>, tries: seq<Try>, i: nat)
    requires i < |tries|
    ensures var before := After(stamps, log, tries[..i]);
      After(stamps, log, tries[..i + 1]) == AfterTry(before.0, before.1, tries[i])
  {
    assert tries[..i + 1][..i] == tries[..i];
  }

  /** Any interleaving of attempts, through any gates on the file and at any instants, keeps the calls spaced. */
  method AttemptAll(file: StateFile, tries: seq<Try>)
    requires file.Valid() && Spaced(file.log) && OnFile(file, tries)
    modifies file, set t | t in tries :: t.gate
    ensures file.Valid() && Spaced(file.log) && OnFile(file, tries)
    ensures (file.stamps, file.log) == After(old(file.stamps), old(file.log), tries)
  {
    for i := 0 to |tries|
      invariant file.Valid() && Spaced(file.log) && OnFile(file, tries)
      invariant (file.stamps, file.log) == After(old(file.stamps), old(file.log), tries[..i])
    {
      AttemptOne(file, tries, tries[i]);
      AfterGrows(old(file.stamps), old(file.log), tries, i);
    }
    assert tries[..|tries|] == tries;
  }

  method AttemptOne(file: StateFile, tries: seq<Try>, t: Try)
    requires file.Valid() && Spaced(file.log) && OnFile(file, tries) && t in tries
    modifies file, t.gate
    ensures file.Valid() && Spaced(file.log) && OnFile(file, tries)
    ensures (file.stamps, file.log) == AfterTry(old(file.stamps), old(file.log), t)
  {
    var admitted := t.gate.Attempt(t.host, t.spacing, t.now);
    assert old(file.log) + [] == old(file.log);
  }

  /** Over any run of attempts by any loops, k calls to one host span at least k - 1 spacings. */
  lemma {:induction false} CallsSpread(log: seq<Call>, idx: seq<nat>, spacing: nat)
    requires Spaced(log) && |idx| > 0 && forall i :: 0 <= i < |idx| ==> idx[i] < |log|
    requires forall i :: 0 <= i < |idx| - 1 ==> idx[i] < idx[i + 1] && log[idx[i]].host == log[idx[i + 1]].host
    requires forall i :: 0 <= i < |idx| ==> log[idx[i]].spacing >= spacing
    ensures log[idx[|idx| - 1]].stamp - log[idx[0]].stamp >= (|idx| - 1) * spacing * SECOND
    decreases |idx|
  {
    if |idx| > 1 {
      var init := idx[..|idx| - 1];
      CallsSpread(log, init, spacing);
      var i, j := idx[|idx| - 2], idx[|idx| - 1];
      assert log[j].stamp - log[i].stamp >= log[j].spacing * SECOND;
      assert (|idx| - 1) * spacing == (|idx| - 2) * spacing + spacing;
    }
  }
}
