/** What the bridge does with each record, said on the record's own fields (bridge_to_raw_events.py). */
module BridgeRules {
  import opened RecordKeys
  import opened RawEventsBridge

  predicate IsKnownType(t: string) {
    || t == "article_candidate" || t == "official_record" || t == "structured_signal"
    || t == "search_result" || t == "community_signal" || t == "catalog_metadata"
  }

  /** One of the six types, from a named source. */
  predicate IsProper(r: Record) {
    IsKnownType(r.recordType) && r.sourceId != ""
  }

  predicate HasUrl(r: Record) {
    IsHttp(r.sourceUrl) || r.canonicalUrl != ""
  }

  /** The URL that stands for the record: its canonical one, otherwise the external one. */
  function IdentifyingUrl(r: Record): string {
    if r.canonicalUrl != "" then r.canonicalUrl else r.sourceUrl
  }

  lemma RefusedIff(lex: Lexicon, r: Record, key: string)
    ensures MapRecord(lex, r, key).Refused? <==> !IsProper(r)
    ensures MapRecord(lex, r, key).Held? <==> IsProper(r) && !HasUrl(r)
    ensures MapRecord(lex, r, key).Mapped? <==> IsProper(r) && HasUrl(r)
  {
    KnownTypesAre(r.recordType);
  }

  lemma KnownTypesAre(t: string)
    ensures t in SOURCE_TYPES <==> IsKnownType(t)
  {
  }

  lemma PayloadIs(lex: Lexicon, r: Record, key: string)
    requires IsProper(r) && HasUrl(r)
    ensures MapRecord(lex, r, key) == Mapped(Payload(
      r.recordType, r.sourceId, if IsHttp(r.sourceUrl) then r.sourceUrl else r.canonicalUrl, r.canonicalUrl,
      if key != "" then key else r.sourceId + ":" + IdentifyingUrl(r), lex.hash(IdentifyingUrl(r))))
  {
    KnownTypesAre(r.recordType);
  }

  // ---- In a stream ----

  /** The write of record j threw: only a target can. */
  predicate Failed(st: Stream, j: nat) {
    st.target != NoTarget && st.answers(j) == Throws
  }

  /** The target reports that it holds the record already: only a database does. */
  predicate Refuted(st: Stream, j: nat) {
    st.target == Db && st.answers(j) == Conflicts
  }

  predicate Stands(st: Stream, j: nat, h: string) {
    j < |st.recs| && IsProper(st.recs[j]) && HasUrl(st.recs[j]) && st.lex.hash(IdentifyingUrl(st.recs[j])) == h
  }

  /** Before record i nothing is tried for h any more: it was known, or an earlier record with it did not fail. */
  ghost predicate IsSettled(st: Stream, seen: set<string>, h: string, i: nat) {
    h in seen || exists j: nat :: j < i && Stands(st, j, h) && !Failed(st, j)
  }

  lemma CarriesIff(st: Stream, j: nat, h: string)
    ensures st.Carries(j, h) <==> Stands(st, j, h)
  {
    if j < |st.recs| {
      RefusedIff(st.lex, st.recs[j], st.keys(j));
      if IsProper(st.recs[j]) && HasUrl(st.recs[j]) { PayloadIs(st.lex, st.recs[j], st.keys(j)); }
    }
  }

  lemma FailedIff(st: Stream, j: nat)
    ensures Effective(st.target, st.answers(j)) ==
      if Failed(st, j) then Throws else if Refuted(st, j) then Conflicts else Accepts
  {
  }

  lemma SettledIff(st: Stream, seen: set<string>, h: string, i: nat)
    ensures st.Settled(seen, h, i) <==> IsSettled(st, seen, h, i)
  {
    forall j: nat ensures st.Carries(j, h) && !Effective(st.target, st.answers(j)).Throws? <==>
                          Stands(st, j, h) && !Failed(st, j) {
      CarriesIff(st, j, h);
      FailedIff(st, j);
    }
  }

  /** A batch refuses exactly the records of no known type or no source and holds exactly those of the others that
      have no URL; a record that is neither, and not settled before, is written, found written, or fails as its
      target says. */
  lemma StatusIs(st: Stream, seen: set<string>, statuses: seq<Status>, i: nat)
    requires AreStatuses(st, seen, statuses) && i < |statuses|
    ensures var r := st.recs[i];
      statuses[i] ==
        if !IsProper(r) then RefusedStatus
        else if !HasUrl(r) then HeldStatus
        else if IsSettled(st, seen, st.lex.hash(IdentifyingUrl(r)), i) then DuplicateSkipped
        else if Failed(st, i) then WriteError
        else if Refuted(st, i) then DuplicateSkipped
        else Written
  {
    var r := st.recs[i];
    RefusedIff(st.lex, r, st.keys(i));
    if IsProper(r) && HasUrl(r) {
      PayloadIs(st.lex, r, st.keys(i));
      SettledIff(st, seen, st.lex.hash(IdentifyingUrl(r)), i);
      FailedIff(st, i);
    }
  }

  /** The sink is called for exactly the proper records with a URL that are not settled, and gets their own type,
      source and URLs and the caller's key, or else the source joined to the identifying URL. */
  lemma SinkGets(st: Stream, seen: set<string>, i: nat)
    ensures st.Called(seen, i) <==>
      && i < |st.recs| && IsProper(st.recs[i]) && HasUrl(st.recs[i])
      && !IsSettled(st, seen, st.lex.hash(IdentifyingUrl(st.recs[i])), i)
    ensures st.Called(seen, i) ==>
      var r, p := st.recs[i], st.MapAt(i).payload;
      && p.recordType == r.recordType && p.sourceId == r.sourceId && p.canonicalUrl == r.canonicalUrl
      && p.sourceUrl == (if IsHttp(r.sourceUrl) then r.sourceUrl else r.canonicalUrl)
      && p.contentHash == st.lex.hash(IdentifyingUrl(r))
      && p.dedupKey == if st.keys(i) != "" then st.keys(i) else r.sourceId + ":" + IdentifyingUrl(r)
  {
    if i < |st.recs| {
      var r := st.recs[i];
      RefusedIff(st.lex, r, st.keys(i));
      if IsProper(r) && HasUrl(r) {
        PayloadIs(st.lex, r, st.keys(i));
        SettledIff(st, seen, st.lex.hash(IdentifyingUrl(r)), i);
      }
    }
  }

  lemma {:induction false} NoneCounted(ss: seq<Status>, s: Status)
    ensures Count(ss, s) == 0 <==> s !in ss
    decreases |ss|
  {
    if ss != [] {
      var n := |ss| - 1;
      NoneCounted(ss[..n], s);
      assert ss == ss[..n] + [ss[n]];
    }
  }

  /** The report's contract passes exactly if every record is proper and no write of the batch or before it failed. */
  lemma ContractPassIff(st: Stream, seen: set<string>, r: Report)
    requires AreStatuses(st, seen, r.statuses) && |r.statuses| == |st.recs|
    requires Counts(r.statuses, r.written, r.duplicates, r.held, r.rejected, r.schemaFailures)
    requires r.contractPass <==> r.schemaFailures == 0 && r.failed == 0
    ensures r.contractPass <==> r.failed == 0 && forall i :: 0 <= i < |st.recs| ==> IsProper(st.recs[i])
  {
    NoneCounted(r.statuses, RefusedStatus);
    forall i: nat | i < |st.recs| ensures r.statuses[i] == RefusedStatus <==> !IsProper(st.recs[i]) {
      StatusIs(st, seen, r.statuses, i);
    }
    if i :| 0 <= i < |st.recs| && !IsProper(st.recs[i]) {
      assert r.statuses[i] == RefusedStatus;
    }
  }
}
