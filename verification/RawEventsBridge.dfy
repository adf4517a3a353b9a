/** From EventQueue records to raw_events: mapping, the deduplicating writer, and batches through it
    (bridge_to_raw_events.py). The sink may accept, report a conflict or throw, at any call. */
module RawEventsBridge {
  import opened RecordKeys

  const SOURCE_TYPES := {
    "article_candidate", "official_record", "structured_signal",
    "search_result", "community_signal", "catalog_metadata"}

  datatype Payload = Payload(recordType: string, sourceId: string, sourceUrl: string, canonicalUrl: string,
                             dedupKey: string, contentHash: string)

  datatype Mapping = Mapped(payload: Payload) | Held(heldFor: string) | Refused(refusedFor: string)

  /** The digest that content-addresses a record: the canonical URL, else the source URL. */
  function ContentHash(lex: Lexicon, canonical: string, url: string, fallback: string): string {
    lex.hash(if canonical != "" then canonical else if url != "" then url else fallback)
  }

  /** `dedupKey` is the caller's key, "" when it has none. */
  function MapRecord(lex: Lexicon, r: Record, dedupKey: string): Mapping {
    var url := ExternalUrl(r);
    if r.recordType !in SOURCE_TYPES then Refused("invalid_record_type:" + r.recordType)
    else if r.sourceId == "" then Refused("no_source_id")
    else if url == "" && r.canonicalUrl == "" then Held("missing_external_url")
    else
      var effective := if url != "" then url else r.canonicalUrl;
      var fallback := Join3(r.sourceId, r.title, NormTime(lex, r.observedAt));
      var key := if dedupKey != "" then dedupKey
                 else r.sourceId + ":" + if r.canonicalUrl != "" then r.canonicalUrl else effective;
      Mapped(Payload(r.recordType, r.sourceId, effective, r.canonicalUrl, key,
                     ContentHash(lex, r.canonicalUrl, effective, fallback)))
  }

  datatype Answer = Accepts | Conflicts | Throws

  datatype Target = Db | Mirror | NoTarget

  /** What the target makes of an answer: a mirror file knows no conflict, no target knows no failure. */
  function Effective(target: Target, a: Answer): Answer {
    match target
    case Db => a
    case Mirror => if a.Throws? then Throws else Accepts
    case NoTarget => Accepts
  }

  datatype Status = Written | DuplicateSkipped | WriteError | HeldStatus | RefusedStatus

  class BridgeWriter {
    const target: Target
    var seen: set<string>
    var written: nat
    var duplicates: nat
    var failed: nat
    ghost var delivered: seq<string>  // the hashes the sink accepted, in order

    /** The sink accepted each hash at most once, and every accepted hash is remembered. */
    ghost predicate Valid()
      reads this
    {
      && (forall h :: h in delivered ==> h in seen)
      && (forall i, j :: 0 <= i < j < |delivered| ==> delivered[i] != delivered[j])
      && |delivered| == written
    }

    constructor (target: Target)
      ensures Valid() && this.target == target && seen == {} && delivered == []
      ensures written == duplicates == failed == 0
    {
      this.target, seen, delivered := target, {}, [];
      written, duplicates, failed := 0, 0, 0;
    }

    /** `answer` is what the sink says if it is called. */
    method Write(p: Payload, answer: Answer) returns (s: Status)
      requires Valid()
      modifies this
      ensures Valid()
      ensures var known := p.contentHash in old(seen);
        var a := Effective(target, answer);
        && s == (if known || a.Conflicts? then DuplicateSkipped else if a.Throws? then WriteError else Written)
        && seen == (if known || a.Throws? then old(seen) else old(seen) + {p.contentHash})
        && delivered == old(delivered) + (if !known && a.Accepts? then [p.contentHash] else [])
        && written == old(written) + (if s.Written? then 1 else 0)
        && duplicates == old(duplicates) + (if s.DuplicateSkipped? then 1 else 0)
        && failed == old(failed) + (if s.WriteError? then 1 else 0)
    {
      if p.contentHash in seen {
        duplicates := duplicates + 1;
        return DuplicateSkipped;
      }
      match Effective(target, answer)
      case Throws =>
        failed := failed + 1;
        return WriteError;
      case Conflicts =>
        duplicates := duplicates + 1;
        seen := seen + {p.contentHash};
        return DuplicateSkipped;
      case Accepts =>
        seen := seen + {p.contentHash};
        delivered := delivered + [p.contentHash];
        written := written + 1;
        return Written;
    }
  }

  // ---- What a batch does, record by record ----

  /** A stream: records, the callers' keys, and what the sink would answer at each record. */
  datatype Stream = Stream(lex: Lexicon, recs: seq<Record>, keys: nat -> string, answers: nat -> Answer, target: Target)
  {
    function MapAt(i: nat): Mapping
      requires i < |recs|
    {
      MapRecord(lex, recs[i], keys(i))
    }

    ghost predicate Carries(i: nat, h: string) {
      i < |recs| && MapAt(i).Mapped? && MapAt(i).payload.contentHash == h
    }

    /** Before record i the writer no longer tries h: it knew it at the start,
        or the sink answered for it without throwing. */
    ghost predicate Settled(seen: set<string>, h: string, i: nat) {
      h in seen || exists j: nat :: j < i && Carries(j, h) && !Effective(target, answers(j)).Throws?
    }

    /** The sink is called for record i. */
    ghost predicate Called(seen: set<string>, i: nat) {
      i < |recs| && MapAt(i).Mapped? && !Settled(seen, MapAt(i).payload.contentHash, i)
    }

    ghost function StatusAt(seen: set<string>, i: nat): Status
      requires i < |recs|
    {
      match MapAt(i)
      case Held(_) => HeldStatus
      case Refused(_) => RefusedStatus
      case Mapped(p) =>
        if Settled(seen, p.contentHash, i) then DuplicateSkipped
        else
          match Effective(target, answers(i))
          case Accepts => Written
          case Conflicts => DuplicateSkipped
          case Throws => WriteError
    }
  }

  function Count(ss: seq<Status>, s: Status): nat {
    if ss == [] then 0 else Count(ss[..|ss| - 1], s) + if ss[|ss| - 1] == s then 1 else 0
  }

  datatype Report = Report(written: nat, duplicates: nat, held: nat, rejected: nat, schemaFailures: nat,
                           failed: nat, contractPass: bool, statuses: seq<Status>)

  /** The local counters of a batch agree with the statuses it has handed out. */
  ghost predicate Counts(ss: seq<Status>, written: nat, duplicates: nat, held: nat, rejected: nat,
                         schemaFailures: nat) {
    && written == Count(ss, Written) && duplicates == Count(ss, DuplicateSkipped)
    && held == Count(ss, HeldStatus) && schemaFailures == Count(ss, RefusedStatus)
    && rejected == schemaFailures + Count(ss, WriteError)
  }

  lemma CountAppends(ss: seq<Status>, t: Status)
    ensures forall s :: Count(ss + [t], s) == Count(ss, s) + if s == t then 1 else 0
  {
    assert (ss + [t])[..|ss|] == ss;
  }

  /** Every record so far got the status that its place in the stream demands. */
  ghost predicate AreStatuses(st: Stream, seen: set<string>, statuses: seq<Status>) {
    |statuses| <= |st.recs| && forall i: nat :: i < |statuses| ==> statuses[i] == st.StatusAt(seen, i)
  }

  lemma StatusesGrow(st: Stream, seen: set<string>, statuses: seq<Status>, status: Status)
    requires AreStatuses(st, seen, statuses) && |statuses| < |st.recs| && status == st.StatusAt(seen, |statuses|)
    ensures AreStatuses(st, seen, statuses + [status])
  {
  }

  lemma SettledGrows(st: Stream, seen: set<string>, i: nat)
    requires i < |st.recs|
    ensures forall h :: st.Settled(seen, h, i + 1) <==>
      st.Settled(seen, h, i) || (st.Carries(i, h) && !Effective(st.target, st.answers(i)).Throws?)
  {
  }

  /** One record through the mapping and the writer. */
  method BridgeOne(st: Stream, writer: BridgeWriter, i: nat, ghost seen: set<string>) returns (status: Status)
    requires i < |st.recs| && writer.Valid() && writer.target == st.target
    requires forall h :: h in writer.seen <==> st.Settled(seen, h, i)
    modifies writer
    ensures writer.Valid() && status == st.StatusAt(seen, i)
    ensures forall h :: h in writer.seen <==> st.Settled(seen, h, i + 1)
    ensures old(writer.delivered) <= writer.delivered
    ensures writer.written == old(writer.written) + (if status.Written? then 1 else 0)
    ensures writer.failed == old(writer.failed) + (if status.WriteError? then 1 else 0)
  {
    SettledGrows(st, seen, i);
    match st.MapAt(i)
    case Held(_) => return HeldStatus;
    case Refused(_) => return RefusedStatus;
    case Mapped(p) => status := writer.Write(p, st.answers(i));
  }

  /** Every record gets the status its place in the stream demands; the report counts them. */
  method BridgeRecords(st: Stream, writer: BridgeWriter) returns (r: Report)
    requires writer.Valid() && writer.target == st.target
    modifies writer
    ensures writer.Valid() && old(writer.delivered) <= writer.delivered
    ensures |r.statuses| == |st.recs|
    ensures AreStatuses(st, old(writer.seen), r.statuses)
    ensures forall h :: h in writer.seen <==> st.Settled(old(writer.seen), h, |st.recs|)
    ensures Counts(r.statuses, r.written, r.duplicates, r.held, r.rejected, r.schemaFailures)
    ensures writer.written == old(writer.written) + r.written
    ensures r.failed == writer.failed == old(writer.failed) + Count(r.statuses, WriteError)
    ensures r.contractPass <==> r.schemaFailures == 0 && r.failed == 0
  {
    var written, duplicates, held, rejected, schemaFailures := 0, 0, 0, 0, 0;
    var statuses: seq<Status> := [];
    ghost var seen := writer.seen;
    for i := 0 to |st.recs|
      invariant writer.Valid() && old(writer.delivered) <= writer.delivered && |statuses| == i
      invariant AreStatuses(st, seen, statuses)
      invariant forall h :: h in writer.seen <==> st.Settled(seen, h, i)
      invariant Counts(statuses, written, duplicates, held, rejected, schemaFailures)
      invariant writer.written == old(writer.written) + written
      invariant writer.failed == old(writer.failed) + Count(statuses, WriteError)
    {
      var status := BridgeOne(st, writer, i, seen);
      match status {
        case HeldStatus => held := held + 1;
        case RefusedStatus =>
          rejected := rejected + 1;
          schemaFailures := schemaFailures + 1;
        case Written => written := written + 1;
        case DuplicateSkipped => duplicates := duplicates + 1;
        case WriteError => rejected := rejected + 1;
      }
      CountAppends(statuses, status);
      StatusesGrow(st, seen, statuses, status);
      statuses := statuses + [status];
    }
    r := Report(written, duplicates, held, rejected, schemaFailures, writer.failed,
                schemaFailures == 0 && writer.failed == 0, statuses);
  }

  // ---- Conservation, exactly once, retry, replay ----

  lemma {:induction false} EveryRecordCounted(ss: seq<Status>, written: nat, duplicates: nat, held: nat, rejected: nat,
                                              schemaFailures: nat)
    requires Counts(ss, written, duplicates, held, rejected, schemaFailures)
    ensures written + duplicates + held + rejected == |ss|
    decreases |ss|
  {
    if ss != [] {
      var init, last := ss[..|ss| - 1], ss[|ss| - 1];
      EveryRecordCounted(init, Count(init, Written), Count(init, DuplicateSkipped), Count(init, HeldStatus),
                         Count(init, RefusedStatus) + Count(init, WriteError), Count(init, RefusedStatus));
    }
  }

  /** Only records with an external or canonical URL reach the sink, under the digest of that URL. */
  lemma OnlyUrlsReachTheSink(st: Stream, seen: set<string>, i: nat)
    requires st.Called(seen, i)
    ensures var p := st.MapAt(i).payload;
      && p.sourceUrl != ""
      && p.sourceUrl == (if ExternalUrl(st.recs[i]) != "" then ExternalUrl(st.recs[i]) else st.recs[i].canonicalUrl)
      && p.contentHash == st.lex.hash(if st.recs[i].canonicalUrl != "" then st.recs[i].canonicalUrl else p.sourceUrl)
  {
  }

  /** Within a batch the sink accepts a hash at most once, and answers for it without throwing at most once. */
  lemma AnsweredAtMostOnce(st: Stream, seen: set<string>, i: nat, j: nat)
    requires st.Called(seen, i) && st.Called(seen, j)
    requires st.MapAt(i).payload.contentHash == st.MapAt(j).payload.contentHash
    requires !Effective(st.target, st.answers(i)).Throws? && !Effective(st.target, st.answers(j)).Throws?
    ensures i == j
  {
    var h := st.MapAt(i).payload.contentHash;
    assert st.Carries(i, h) && st.Carries(j, h);
  }

  /** A record whose write threw is tried again at its next occurrence, unless something else settled it meanwhile. */
  lemma ThrownStaysRetryable(st: Stream, seen: set<string>, i: nat, k: nat, h: string)
    requires st.Called(seen, i) && Effective(st.target, st.answers(i)).Throws? && st.Carries(i, h)
    requires i < k && st.Carries(k, h)
    requires forall j: nat :: i < j < k && st.Carries(j, h) ==> Effective(st.target, st.answers(j)).Throws?
    ensures st.Called(seen, k)
  {
    if st.Settled(seen, h, k) {
      SettledSince(st, seen, h, i, k);
    }
  }

  lemma SettledSince(st: Stream, seen: set<string>, h: string, i: nat, k: nat)
    requires i <= k && st.Settled(seen, h, k) && !st.Settled(seen, h, i)
    ensures exists j: nat :: i <= j < k && st.Carries(j, h) && !Effective(st.target, st.answers(j)).Throws?
  {
    var j: nat :| j < k && st.Carries(j, h) && !Effective(st.target, st.answers(j)).Throws?;
    assert i <= j;
  }

  /** What a database with a unique index on the hash holds before record i. */
  ghost predicate Stored(st: Stream, seen: set<string>, stored: set<string>, h: string, i: nat) {
    h in stored || exists j: nat :: j < i && st.Called(seen, j) && st.Carries(j, h) && st.answers(j).Accepts?
  }

  /** The answers are those of such a database: it may throw at any time, otherwise it reports
      a conflict exactly for what it holds. */
  ghost predicate ConflictsLikeDb(st: Stream, seen: set<string>, stored: set<string>) {
    st.target == Db && forall i: nat :: st.Called(seen, i) && !st.answers(i).Throws? ==>
      (st.answers(i).Conflicts? <==> Stored(st, seen, stored, st.MapAt(i).payload.contentHash, i))
  }

  lemma {:induction false} FirstCarrier(st: Stream, h: string, i: nat) returns (f: nat)
    requires st.Carries(i, h)
    ensures f <= i && st.Carries(f, h) && forall j: nat :: j < f ==> !st.Carries(j, h)
  {
    f := 0;
    while !st.Carries(f, h)
      invariant f <= i && forall j: nat :: j < f ==> !st.Carries(j, h)
      decreases i - f
    {
      f := f + 1;
    }
  }

  /** A clean run leaves every mapped hash in the database. */
  lemma CleanRunStoresAll(st: Stream, stored: set<string>, i: nat, h: string)
    requires ConflictsLikeDb(st, {}, stored) && st.Carries(i, h)
    requires forall j: nat :: st.Called({}, j) ==> !st.answers(j).Throws?
    ensures Stored(st, {}, stored, h, |st.recs|)
  {
    var f := FirstCarrier(st, h, i);
    assert st.Called({}, f);
    if st.answers(f).Conflicts? {
      assert Stored(st, {}, stored, h, f);
    }
  }

  /** Replaying the stream with a fresh writer over that database writes nothing, whatever fails this time. */
  lemma ReplayWritesNothing(st: Stream, again: Stream, stored: set<string>, after: set<string>, i: nat)
    requires ConflictsLikeDb(st, {}, stored) && forall j: nat :: st.Called({}, j) ==> !st.answers(j).Throws?
    requires again.lex == st.lex && again.recs == st.recs && again.keys == st.keys && again.target == st.target
    requires forall h :: h in after <==> Stored(st, {}, stored, h, |st.recs|)
    requires ConflictsLikeDb(again, {}, after) && i < |again.recs|
    ensures again.StatusAt({}, i) != Written
  {
    if again.Called({}, i) && !again.answers(i).Throws? {
      var h := st.MapAt(i).payload.contentHash;
      CleanRunStoresAll(st, stored, i, h);
      assert Stored(again, {}, after, h, i);
    }
  }
}
