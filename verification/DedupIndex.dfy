/** The seen-key index and batch dedup of eventqueue_dedup.py. */
module DedupIndexes {
  import opened Options
  import opened RecordKeys

  datatype Decision = Decision(key: Option<string>, isDuplicate: bool, reason: string, existingRef: Option<string>)

  const NO_KEY := Decision(None, false, "no_dedup_key", None)

  type Seen = map<string, string>

  // ---- What a batch must produce, said without the loop ----

  function KeyText(lex: Lexicon, r: Record): Option<string> {
    match ComputeKey(lex, r)
    case None => None
    case Some(k) => Some(k.key)
  }

  function RefAt(lex: Lexicon, recs: seq<Record>, i: nat): string
    requires i < |recs|
  {
    if recs[i].ref != "" then recs[i].ref else "batch:" + lex.show(i)
  }

  /** Record i is the first of the batch to carry the key k. */
  ghost predicate IsFirst(lex: Lexicon, recs: seq<Record>, k: string, i: nat) {
    && i < |recs| && KeyText(lex, recs[i]) == Some(k)
    && forall j :: 0 <= j < i ==> KeyText(lex, recs[j]) != Some(k)
  }

  /** What the batch must report about record i, starting from the index `seen`. */
  ghost predicate Expected(lex: Lexicon, recs: seq<Record>, seen: Seen, i: nat, d: Decision) {
    i < |recs| &&
    match ComputeKey(lex, recs[i])
    case None => d == NO_KEY
    case Some(k) =>
      if k.key in seen then
        d == Decision(Some(k.key), true, "duplicate:" + k.basis, Some(seen[k.key]))
      else if IsFirst(lex, recs, k.key, i) then
        d == Decision(Some(k.key), false, "new:" + k.basis, None)
      else
        exists f: nat :: IsFirst(lex, recs, k.key, f) && f < i
          && d == Decision(Some(k.key), true, "duplicate:" + k.basis, Some(RefAt(lex, recs, f)))
  }

  /** The index after the batch: what it held, and every new key under the ref of its first record. */
  ghost predicate ExpectedSeen(lex: Lexicon, recs: seq<Record>, before: Seen, after: Seen) {
    && (forall k :: k in before ==> k in after && after[k] == before[k])
    && (forall k :: k in after && k !in before ==>
          exists f: nat :: IsFirst(lex, recs, k, f) && after[k] == RefAt(lex, recs, f))
    && (forall i :: 0 <= i < |recs| && KeyText(lex, recs[i]).Some? ==> KeyText(lex, recs[i]).value in after)
  }

  lemma FirstIsUnique(lex: Lexicon, recs: seq<Record>, k: string, f: nat, g: nat)
    requires IsFirst(lex, recs, k, f) && IsFirst(lex, recs, k, g)
    ensures f == g
  {
  }

  /** The requirement fixes the decision: no other one meets it. */
  lemma ExpectedIsUnique(lex: Lexicon, recs: seq<Record>, seen: Seen, i: nat, d: Decision, e: Decision)
    requires Expected(lex, recs, seen, i, d) && Expected(lex, recs, seen, i, e)
    ensures d == e
  {
    var key := ComputeKey(lex, recs[i]);
    if key.Some? && key.value.key !in seen && !IsFirst(lex, recs, key.value.key, i) {
      var f: nat :| IsFirst(lex, recs, key.value.key, f) && f < i
        && d == Decision(Some(key.value.key), true, "duplicate:" + key.value.basis, Some(RefAt(lex, recs, f)));
      var g: nat :| IsFirst(lex, recs, key.value.key, g) && g < i
        && e == Decision(Some(key.value.key), true, "duplicate:" + key.value.basis, Some(RefAt(lex, recs, g)));
      FirstIsUnique(lex, recs, key.value.key, f, g);
    }
  }

  /** ... and it fixes the resulting index. */
  lemma ExpectedSeenIsUnique(lex: Lexicon, recs: seq<Record>, before: Seen, s: Seen, t: Seen)
    requires ExpectedSeen(lex, recs, before, s) && ExpectedSeen(lex, recs, before, t)
    ensures s == t
  {
    forall k | k in s ensures k in t && s[k] == t[k] { SeenAgrees(lex, recs, before, s, t, k); }
    forall k | k in t ensures k in s && s[k] == t[k] { SeenAgrees(lex, recs, before, t, s, k); }
  }

  lemma SeenAgrees(lex: Lexicon, recs: seq<Record>, before: Seen, s: Seen, t: Seen, k: string)
    requires ExpectedSeen(lex, recs, before, s) && ExpectedSeen(lex, recs, before, t) && k in s
    ensures k in t && s[k] == t[k]
  {
    if k !in before {
      var f: nat :| IsFirst(lex, recs, k, f) && s[k] == RefAt(lex, recs, f);
      assert KeyText(lex, recs[f]).value in t;
      var g: nat :| IsFirst(lex, recs, k, g) && t[k] == RefAt(lex, recs, g);
      FirstIsUnique(lex, recs, k, f, g);
    }
  }

  /** A decision on one record against the index `seen`, and the index it leaves. */
  ghost predicate Decided(lex: Lexicon, r: Record, ref: string, seen: Seen, d: Decision, now: Seen) {
    match ComputeKey(lex, r)
    case None => d == NO_KEY && now == seen
    case Some(k) =>
      if k.key in seen then d == Decision(Some(k.key), true, "duplicate:" + k.basis, Some(seen[k.key])) && now == seen
      else d == Decision(Some(k.key), false, "new:" + k.basis, None) && now == seen[k.key := ref]
  }

  class DedupIndex {
    var seen: Seen

    constructor ()
      ensures seen == map[]
    {
      seen := map[];
    }

    method Check(key: Option<string>) returns (isDuplicate: bool, ref: Option<string>)
      ensures isDuplicate <==> key.Some? && key.value in seen
      ensures ref == if isDuplicate then Some(seen[key.value]) else None
    {
      if key.Some? && key.value in seen {
        return true, Some(seen[key.value]);
      }
      return false, None;
    }

    /** The first ref of a key stays. */
    method Add(key: Option<string>, ref: string)
      modifies this
      ensures seen == if key.Some? && key.value !in old(seen) then old(seen)[key.value := ref] else old(seen)
    {
      if key.Some? && key.value !in seen {
        seen := seen[key.value := ref];
      }
    }

    method Decide(lex: Lexicon, r: Record, ref: string) returns (d: Decision)
      modifies this
      ensures Decided(lex, r, ref, old(seen), d, seen)
    {
      var computed := ComputeKey(lex, r);
      if computed.None? {
        return NO_KEY;
      }
      var key, basis := computed.value.key, computed.value.basis;
      var isDuplicate, existing := Check(Some(key));
      if isDuplicate {
        return Decision(Some(key), true, "duplicate:" + basis, existing);
      }
      Add(Some(key), ref);
      return Decision(Some(key), false, "new:" + basis, None);
    }
  }

  /** The index after the first i records: what it held, and every new key under the ref of its first record. */
  ghost predicate SeenSoFar(lex: Lexicon, recs: seq<Record>, before: Seen, seen: Seen, i: nat) {
    && i <= |recs|
    && (forall k :: k in before ==> k in seen && seen[k] == before[k])
    && (forall k :: k in seen && k !in before ==>
          exists f: nat :: f < i && IsFirst(lex, recs, k, f) && seen[k] == RefAt(lex, recs, f))
    && (forall j :: 0 <= j < i && KeyText(lex, recs[j]).Some? ==> KeyText(lex, recs[j]).value in seen)
  }

  /** What Decide does with record i meets the requirement and leaves the index one record further. */
  lemma OneMoreRecord(lex: Lexicon, recs: seq<Record>, before: Seen, seen: Seen, i: nat, d: Decision, now: Seen)
    requires i < |recs| && SeenSoFar(lex, recs, before, seen, i)
    requires Decided(lex, recs[i], RefAt(lex, recs, i), seen, d, now)
    ensures Expected(lex, recs, before, i, d)
    ensures SeenSoFar(lex, recs, before, now, i + 1)
  {
    var key := ComputeKey(lex, recs[i]);
    if key.Some? {
      var k := key.value.key;
      if k in seen && k !in before {
        var f: nat :| f < i && IsFirst(lex, recs, k, f) && seen[k] == RefAt(lex, recs, f);
        assert !IsFirst(lex, recs, k, i);
      } else if k !in seen {
        assert IsFirst(lex, recs, k, i);
      }
    }
    SeenMovesOn(lex, recs, before, seen, i, KeyText(lex, recs[i]), RefAt(lex, recs, i), now);
  }

  lemma SeenMovesOn(lex: Lexicon, recs: seq<Record>, before: Seen, seen: Seen, i: nat, key: Option<string>, ref: string,
                    now: Seen)
    requires i < |recs| && SeenSoFar(lex, recs, before, seen, i)
    requires key == KeyText(lex, recs[i]) && ref == RefAt(lex, recs, i)
    requires now == if key.None? || key.value in seen then seen else seen[key.value := ref]
    ensures SeenSoFar(lex, recs, before, now, i + 1)
  {
    forall k | k in now && k !in before
      ensures exists f: nat :: f < i + 1 && IsFirst(lex, recs, k, f) && now[k] == RefAt(lex, recs, f)
    {
      if k in seen {
        var f: nat :| f < i && IsFirst(lex, recs, k, f) && seen[k] == RefAt(lex, recs, f);
        assert now[k] == seen[k];
      } else {
        NewKeyIsFirst(lex, recs, before, seen, i, k);
        assert now[k] == RefAt(lex, recs, i);
      }
    }
  }

  lemma NewKeyIsFirst(lex: Lexicon, recs: seq<Record>, before: Seen, seen: Seen, i: nat, k: string)
    requires i < |recs| && SeenSoFar(lex, recs, before, seen, i) && k !in seen && KeyText(lex, recs[i]) == Some(k)
    ensures IsFirst(lex, recs, k, i)
  {
  }

  /** Every decision so far is the one required of its record. */
  ghost predicate AllExpected(lex: Lexicon, recs: seq<Record>, before: Seen, out: seq<Decision>) {
    forall j: nat :: j < |out| ==> Expected(lex, recs, before, j, out[j])
  }

  lemma OneMoreExpected(lex: Lexicon, recs: seq<Record>, before: Seen, out: seq<Decision>, d: Decision)
    requires AllExpected(lex, recs, before, out) && Expected(lex, recs, before, |out|, d)
    ensures AllExpected(lex, recs, before, out + [d])
  {
  }

  /** Batch dedup: every decision and the final index are the ones required of the whole batch. */
  method DedupRecords(lex: Lexicon, recs: seq<Record>, index: DedupIndex) returns (out: seq<Decision>)
    modifies index
    ensures |out| == |recs|
    ensures forall i: nat :: i < |recs| ==> Expected(lex, recs, old(index.seen), i, out[i])
    ensures ExpectedSeen(lex, recs, old(index.seen), index.seen)
  {
    out := [];
    ghost var before := index.seen;
    for i := 0 to |recs|
      invariant |out| == i && SeenSoFar(lex, recs, before, index.seen, i)
      invariant AllExpected(lex, recs, before, out)
    {
      ghost var mid := index.seen;
      var d := index.Decide(lex, recs[i], if recs[i].ref != "" then recs[i].ref else "batch:" + lex.show(i));
      OneMoreRecord(lex, recs, before, mid, i, d, index.seen);
      OneMoreExpected(lex, recs, before, out, d);
      out := out + [d];
    }
    WholeBatch(lex, recs, before, index.seen);
  }

  lemma WholeBatch(lex: Lexicon, recs: seq<Record>, before: Seen, seen: Seen)
    requires SeenSoFar(lex, recs, before, seen, |recs|)
    ensures ExpectedSeen(lex, recs, before, seen)
  {
  }

  // ---- Consequences over several batches ----

  /** A key is reported as new exactly once, at its first record, and only if the index did not hold it. */
  lemma NewExactlyOncePerKey(lex: Lexicon, recs: seq<Record>, seen: Seen, i: nat, d: Decision)
    requires Expected(lex, recs, seen, i, d) && d.key.Some?
    ensures !d.isDuplicate <==> d.key.value !in seen && IsFirst(lex, recs, d.key.value, i)
  {
    var k := ComputeKey(lex, recs[i]).value;
    if k.key !in seen && !IsFirst(lex, recs, k.key, i) {
      var f: nat :| IsFirst(lex, recs, k.key, f) && f < i
        && d == Decision(Some(k.key), true, "duplicate:" + k.basis, Some(RefAt(lex, recs, f)));
    }
  }

  /** Replaying a batch over the index it left: every keyed record is a duplicate, the index does not move. */
  lemma ReplayIsAllDuplicates(lex: Lexicon, recs: seq<Record>, before: Seen, after: Seen, again: Seen, i: nat,
                              d: Decision)
    requires ExpectedSeen(lex, recs, before, after)
    requires ExpectedSeen(lex, recs, after, again)
    requires Expected(lex, recs, after, i, d)
    ensures d.key.Some? ==> d.isDuplicate && d.existingRef == Some(after[d.key.value])
    ensures again == after
  {
    assert ExpectedSeen(lex, recs, after, after) by {
      forall i | 0 <= i < |recs| && KeyText(lex, recs[i]).Some? ensures KeyText(lex, recs[i]).value in after {}
    }
    ExpectedSeenIsUnique(lex, recs, after, again, after);
    assert KeyText(lex, recs[i]).Some? ==> KeyText(lex, recs[i]).value in after;
  }

  /** Record i carries a key neither the index nor an earlier record of the batch has. */
  ghost predicate Introduces(lex: Lexicon, recs: seq<Record>, seen: Seen, i: nat) {
    && i < |recs| && KeyText(lex, recs[i]).Some?
    && KeyText(lex, recs[i]).value !in seen && IsFirst(lex, recs, KeyText(lex, recs[i]).value, i)
  }

  /** Every record that brings a new key into the index has a ref of its own. */
  ghost predicate AllNewAreNamed(lex: Lexicon, recs: seq<Record>, seen: Seen) {
    forall i: nat :: Introduces(lex, recs, seen, i) ==> recs[i].ref != ""
  }

  /** A key absent from a is first met in a + b exactly where b first meets it. */
  lemma FirstInConcatenation(lex: Lexicon, a: seq<Record>, b: seq<Record>, k: string, i: nat)
    requires forall j :: 0 <= j < |a| ==> KeyText(lex, a[j]) != Some(k)
    ensures IsFirst(lex, a + b, k, |a| + i) <==> IsFirst(lex, b, k, i)
  {
    if IsFirst(lex, a + b, k, |a| + i) {
      forall j | 0 <= j < i ensures KeyText(lex, b[j]) != Some(k) {
        assert (a + b)[|a| + j] == b[j];
      }
    }
  }

  lemma FirstInPrefix(lex: Lexicon, a: seq<Record>, b: seq<Record>, k: string, i: nat)
    requires IsFirst(lex, a, k, i)
    ensures IsFirst(lex, a + b, k, i)
  {
    forall j | 0 <= j < i ensures KeyText(lex, (a + b)[j]) != Some(k) {
      assert (a + b)[j] == a[j];
    }
  }

  /** Splitting a stream into two batches never changes whether a record is new or a duplicate, nor why. */
  lemma SplittingKeepsVerdicts(lex: Lexicon, a: seq<Record>, b: seq<Record>, seen: Seen, mid: Seen,
                               i: nat, whole: Decision, split: Decision)
    requires ExpectedSeen(lex, a, seen, mid) && i < |b|
    requires Expected(lex, a + b, seen, |a| + i, whole) && Expected(lex, b, mid, i, split)
    ensures whole.(existingRef := None) == split.(existingRef := None)
  {
    assert (a + b)[|a| + i] == b[i];
    var key := ComputeKey(lex, b[i]);
    if key.Some? {
      var k := key.value.key;
      NewExactlyOncePerKey(lex, a + b, seen, |a| + i, whole);
      NewExactlyOncePerKey(lex, b, mid, i, split);
      FirstStaysFirst(lex, a, b, seen, mid, k, i);
    }
  }

  /** Record i of the second batch is new to the split exactly if it is new to the whole. */
  lemma FirstStaysFirst(lex: Lexicon, a: seq<Record>, b: seq<Record>, seen: Seen, mid: Seen, k: string, i: nat)
    requires ExpectedSeen(lex, a, seen, mid) && i < |b|
    ensures k !in mid && IsFirst(lex, b, k, i) <==> k !in seen && IsFirst(lex, a + b, k, |a| + i)
  {
    if j: nat :| j < |a| && KeyText(lex, a[j]) == Some(k) {
      assert KeyText(lex, a[j]).value in mid;
      assert (a + b)[j] == a[j];
    } else {
      FirstInConcatenation(lex, a, b, k, i);
      assert k in mid <==> k in seen;
    }
  }

  /** A record of the first batch gets the very same decision, its reported ref included. */
  lemma FirstBatchKeepsDecisions(lex: Lexicon, a: seq<Record>, b: seq<Record>, seen: Seen, i: nat, whole: Decision,
                                 split: Decision)
    requires i < |a| && Expected(lex, a + b, seen, i, whole) && Expected(lex, a, seen, i, split)
    ensures whole == split
  {
    assert (a + b)[i] == a[i];
    var key := ComputeKey(lex, a[i]);
    if key.Some? && key.value.key !in seen {
      var k := key.value;
      if IsFirst(lex, a, k.key, i) {
        FirstInPrefix(lex, a, b, k.key, i);
      } else {
        var f: nat :| IsFirst(lex, a, k.key, f) && f < i
          && split == Decision(Some(k.key), true, "duplicate:" + k.basis, Some(RefAt(lex, a, f)));
        FirstInPrefix(lex, a, b, k.key, f);
        RepeatReports(lex, a + b, seen, i, k, f, whole);
        assert (a + b)[f] == a[f];
      }
    }
  }

  /** A later record of a new key reports the ref of the key's first one. */
  lemma RepeatReports(lex: Lexicon, recs: seq<Record>, seen: Seen, i: nat, k: RecordKey, f: nat, d: Decision)
    requires Expected(lex, recs, seen, i, d) && ComputeKey(lex, recs[i]) == Some(k) && k.key !in seen
    requires IsFirst(lex, recs, k.key, f) && f < i
    ensures d == Decision(Some(k.key), true, "duplicate:" + k.basis, Some(RefAt(lex, recs, f)))
  {
    assert !IsFirst(lex, recs, k.key, i);
    var g: nat :| IsFirst(lex, recs, k.key, g) && g < i
      && d == Decision(Some(k.key), true, "duplicate:" + k.basis, Some(RefAt(lex, recs, g)));
    FirstIsUnique(lex, recs, k.key, f, g);
  }

  /** Record i of the second batch repeats a key that the second batch brought in under a position of its own. */
  ghost predicate RepeatsUnnamed(lex: Lexicon, b: seq<Record>, mid: Seen, i: nat) {
    && i < |b|
    && exists g: nat ::
         g < i && Introduces(lex, b, mid, g) && KeyText(lex, b[g]) == KeyText(lex, b[i]) && b[g].ref == ""
  }

  /** A record of the second batch gets the same verdict; and the same whole decision exactly unless it repeats
      a record of its batch that had no ref, whose position the split counts anew. */
  lemma SecondBatchKeepsDecisionsIff(lex: Lexicon, a: seq<Record>, b: seq<Record>, seen: Seen, mid: Seen,
                                     i: nat, whole: Decision, split: Decision)
    requires forall x, y :: lex.show(x) == lex.show(y) ==> x == y
    requires ExpectedSeen(lex, a, seen, mid) && i < |b|
    requires Expected(lex, a + b, seen, |a| + i, whole) && Expected(lex, b, mid, i, split)
    ensures whole == split <==> |a| == 0 || !RepeatsUnnamed(lex, b, mid, i)
  {
    SplittingKeepsVerdicts(lex, a, b, seen, mid, i, whole, split);
    assert (a + b)[|a| + i] == b[i];
    var key := ComputeKey(lex, b[i]);
    if key.Some? {
      if key.value.key in mid {
        KnownKeepsRef(lex, a, b, seen, mid, i, key.value, whole, split);
      } else if !IsFirst(lex, b, key.value.key, i) {
        NewKeepsRefIff(lex, a, b, seen, mid, i, key.value, whole, split);
      }
    }
  }

  /** A key known after the first batch: both ways report what it is stored under. */
  lemma KnownKeepsRef(lex: Lexicon, a: seq<Record>, b: seq<Record>, seen: Seen, mid: Seen, i: nat, k: RecordKey,
                      whole: Decision, split: Decision)
    requires ExpectedSeen(lex, a, seen, mid) && i < |b| && ComputeKey(lex, b[i]) == Some(k) && k.key in mid
    requires Expected(lex, a + b, seen, |a| + i, whole) && Expected(lex, b, mid, i, split)
    ensures whole == split
  {
    assert (a + b)[|a| + i] == b[i];
    if k.key !in seen {
      var f: nat :| IsFirst(lex, a, k.key, f) && mid[k.key] == RefAt(lex, a, f);
      FirstInPrefix(lex, a, b, k.key, f);
      RepeatReports(lex, a + b, seen, |a| + i, k, f, whole);
      assert (a + b)[f] == a[f];
    }
  }

  /** A key the second batch brought in at g: the reports agree exactly if that record had a ref, or a was empty. */
  lemma NewKeepsRefIff(lex: Lexicon, a: seq<Record>, b: seq<Record>, seen: Seen, mid: Seen, i: nat, k: RecordKey,
                       whole: Decision, split: Decision)
    requires forall x, y :: lex.show(x) == lex.show(y) ==> x == y
    requires ExpectedSeen(lex, a, seen, mid) && i < |b| && ComputeKey(lex, b[i]) == Some(k)
    requires k.key !in mid && !IsFirst(lex, b, k.key, i)
    requires Expected(lex, a + b, seen, |a| + i, whole) && Expected(lex, b, mid, i, split)
    ensures whole == split <==> |a| == 0 || !RepeatsUnnamed(lex, b, mid, i)
  {
    var g: nat :| IsFirst(lex, b, k.key, g) && g < i
      && split == Decision(Some(k.key), true, "duplicate:" + k.basis, Some(RefAt(lex, b, g)));
    WholeReports(lex, a, b, seen, mid, i, k, g, whole);
    RefsCompare(lex, a, b, g);
    RepeatsOnly(lex, b, mid, i, k.key, g);
  }

  lemma WholeReports(lex: Lexicon, a: seq<Record>, b: seq<Record>, seen: Seen, mid: Seen, i: nat, k: RecordKey, g: nat,
                     whole: Decision)
    requires ExpectedSeen(lex, a, seen, mid) && i < |b| && ComputeKey(lex, b[i]) == Some(k) && k.key !in mid
    requires IsFirst(lex, b, k.key, g) && g < i && Expected(lex, a + b, seen, |a| + i, whole)
    ensures whole == Decision(Some(k.key), true, "duplicate:" + k.basis, Some(RefAt(lex, a + b, |a| + g)))
  {
    FirstOfBoth(lex, a, b, seen, mid, k.key, g);
    assert (a + b)[|a| + i] == b[i];
    RepeatReports(lex, a + b, seen, |a| + i, k, |a| + g, whole);
  }

  lemma RepeatsOnly(lex: Lexicon, b: seq<Record>, mid: Seen, i: nat, k: string, g: nat)
    requires i < |b| && KeyText(lex, b[i]) == Some(k) && k !in mid && IsFirst(lex, b, k, g) && g < i
    ensures RepeatsUnnamed(lex, b, mid, i) <==> b[g].ref == ""
  {
    assert Introduces(lex, b, mid, g);
    forall h: nat | h < i && Introduces(lex, b, mid, h) && KeyText(lex, b[h]) == KeyText(lex, b[i]) ensures h == g {
      FirstIsUnique(lex, b, k, g, h);
    }
  }

  /** The two ways agree on the whole index exactly when no record without a ref of its own
      enters it from the second batch: such a record is stored under its position in its batch. */
  lemma SplittingKeepsIndexIff(lex: Lexicon, a: seq<Record>, b: seq<Record>, seen: Seen, mid: Seen, whole: Seen,
                               split: Seen)
    requires forall x, y :: lex.show(x) == lex.show(y) ==> x == y
    requires ExpectedSeen(lex, a, seen, mid) && ExpectedSeen(lex, b, mid, split)
    requires ExpectedSeen(lex, a + b, seen, whole)
    ensures whole == split <==> |a| == 0 || AllNewAreNamed(lex, b, mid)
  {
    if |a| == 0 || AllNewAreNamed(lex, b, mid) {
      forall k ensures (k in whole <==> k in split) && (k in whole ==> whole[k] == split[k]) {
        SplitRefsAgree(lex, a, b, seen, mid, whole, split, k);
      }
    } else {
      var i: nat :| Introduces(lex, b, mid, i) && b[i].ref == "";
      IntroducedRefs(lex, a, b, seen, mid, whole, split, i);
    }
  }

  lemma IntroducedRefs(lex: Lexicon, a: seq<Record>, b: seq<Record>, seen: Seen, mid: Seen, whole: Seen, split: Seen,
                       i: nat)
    requires forall x, y :: lex.show(x) == lex.show(y) ==> x == y
    requires ExpectedSeen(lex, a, seen, mid) && ExpectedSeen(lex, b, mid, split)
    requires ExpectedSeen(lex, a + b, seen, whole)
    requires Introduces(lex, b, mid, i)
    ensures var k := KeyText(lex, b[i]).value;
      k in whole && k in split && (whole[k] == split[k] <==> |a| == 0 || b[i].ref != "")
  {
    IntroducedAt(lex, a, b, seen, mid, whole, split, i);
    RefsCompare(lex, a, b, i);
  }

  lemma IntroducedAt(lex: Lexicon, a: seq<Record>, b: seq<Record>, seen: Seen, mid: Seen, whole: Seen, split: Seen,
                     i: nat)
    requires ExpectedSeen(lex, a, seen, mid) && ExpectedSeen(lex, b, mid, split)
    requires ExpectedSeen(lex, a + b, seen, whole)
    requires Introduces(lex, b, mid, i)
    ensures var k := KeyText(lex, b[i]).value;
      k in whole && k in split && whole[k] == RefAt(lex, a + b, |a| + i) && split[k] == RefAt(lex, b, i)
  {
    RefsOf(lex, a, b, seen, mid, whole, split, KeyText(lex, b[i]).value, i);
  }

  lemma RefsOf(lex: Lexicon, a: seq<Record>, b: seq<Record>, seen: Seen, mid: Seen, whole: Seen, split: Seen, k: string,
               i: nat)
    requires ExpectedSeen(lex, a, seen, mid) && ExpectedSeen(lex, b, mid, split)
    requires ExpectedSeen(lex, a + b, seen, whole)
    requires k !in mid && IsFirst(lex, b, k, i)
    ensures k in whole && k in split && whole[k] == RefAt(lex, a + b, |a| + i) && split[k] == RefAt(lex, b, i)
  {
    RefOfFirst(lex, b, mid, split, k, i);
    NotInTheFirst(lex, a, seen, mid, k);
    WholeRef(lex, a, b, seen, whole, k, i);
  }

  lemma WholeRef(lex: Lexicon, a: seq<Record>, b: seq<Record>, seen: Seen, whole: Seen, k: string, i: nat)
    requires ExpectedSeen(lex, a + b, seen, whole) && k !in seen
    requires IsFirst(lex, b, k, i) && forall j :: 0 <= j < |a| ==> KeyText(lex, a[j]) != Some(k)
    ensures k in whole && whole[k] == RefAt(lex, a + b, |a| + i)
  {
    FirstInConcatenation(lex, a, b, k, i);
    RefOfFirst(lex, a + b, seen, whole, k, |a| + i);
  }

  lemma FirstOfBoth(lex: Lexicon, a: seq<Record>, b: seq<Record>, seen: Seen, mid: Seen, k: string, i: nat)
    requires ExpectedSeen(lex, a, seen, mid) && k !in mid && IsFirst(lex, b, k, i)
    ensures k !in seen && IsFirst(lex, a + b, k, |a| + i)
  {
    NotInTheFirst(lex, a, seen, mid, k);
    FirstInConcatenation(lex, a, b, k, i);
  }

  lemma NotInTheFirst(lex: Lexicon, a: seq<Record>, seen: Seen, mid: Seen, k: string)
    requires ExpectedSeen(lex, a, seen, mid) && k !in mid
    ensures k !in seen && forall j :: 0 <= j < |a| ==> KeyText(lex, a[j]) != Some(k)
  {
  }

  lemma RefOfFirst(lex: Lexicon, recs: seq<Record>, before: Seen, after: Seen, k: string, n: nat)
    requires ExpectedSeen(lex, recs, before, after) && k !in before
    ensures IsFirst(lex, recs, k, n) ==> k in after && after[k] == RefAt(lex, recs, n)
  {
    if IsFirst(lex, recs, k, n) {
      assert KeyText(lex, recs[n]).value in after;
      var f: nat :| IsFirst(lex, recs, k, f) && after[k] == RefAt(lex, recs, f);
      FirstIsUnique(lex, recs, k, f, n);
    }
  }

  lemma RefsCompare(lex: Lexicon, a: seq<Record>, b: seq<Record>, i: nat)
    requires (forall x, y :: lex.show(x) == lex.show(y) ==> x == y) && i < |b|
    ensures RefAt(lex, a + b, |a| + i) == RefAt(lex, b, i) <==> |a| == 0 || b[i].ref != ""
  {
    if b[i].ref == "" {
      assert RefAt(lex, a + b, |a| + i)[6..] == lex.show(|a| + i) && RefAt(lex, b, i)[6..] == lex.show(i);
    }
  }

  lemma NothingElseEnters(lex: Lexicon, a: seq<Record>, b: seq<Record>, seen: Seen, mid: Seen, whole: Seen, split: Seen,
                          k: string)
    requires ExpectedSeen(lex, a, seen, mid) && ExpectedSeen(lex, b, mid, split)
    requires ExpectedSeen(lex, a + b, seen, whole)
    ensures k in whole ==> k in split
  {
    if k in whole && k !in seen {
      var f: nat :| IsFirst(lex, a + b, k, f) && whole[k] == RefAt(lex, a + b, f);
      if f < |a| {
        assert (a + b)[f] == a[f] && KeyText(lex, a[f]).value in mid;
      } else {
        assert (a + b)[f] == b[f - |a|] && KeyText(lex, b[f - |a|]).value in split;
      }
    }
  }

  lemma SplitRefsAgree(lex: Lexicon, a: seq<Record>, b: seq<Record>, seen: Seen, mid: Seen, whole: Seen, split: Seen,
                       k: string)
    requires forall x, y :: lex.show(x) == lex.show(y) ==> x == y
    requires ExpectedSeen(lex, a, seen, mid) && ExpectedSeen(lex, b, mid, split)
    requires ExpectedSeen(lex, a + b, seen, whole)
    requires |a| == 0 || AllNewAreNamed(lex, b, mid)
    ensures (k in whole <==> k in split) && (k in whole ==> whole[k] == split[k])
  {
    NothingElseEnters(lex, a, b, seen, mid, whole, split, k);
    if k in mid {
      if k !in seen {
        var f: nat :| IsFirst(lex, a, k, f) && mid[k] == RefAt(lex, a, f);
        FirstInPrefix(lex, a, b, k, f);
        assert KeyText(lex, (a + b)[f]).value in whole;
        var g: nat :| IsFirst(lex, a + b, k, g) && whole[k] == RefAt(lex, a + b, g);
        FirstIsUnique(lex, a + b, k, f, g);
      }
    } else if k in split {
      var i: nat :| IsFirst(lex, b, k, i) && split[k] == RefAt(lex, b, i);
      assert Introduces(lex, b, mid, i);
      IntroducedRefs(lex, a, b, seen, mid, whole, split, i);
    }
  }

  // ---- Two batches that show it ----

  function Article(url: string): Record {
    Record("article_candidate", "bbc", url, url, "", None, "", "")
  }

  /** Two articles without refs, one a batch: as one batch the second is stored under its place 1, cut in two under
      its place 0. */
  lemma SplitChangesRef(lex: Lexicon, mid: Seen, whole: Seen, split: Seen)
    requires forall x, y :: lex.show(x) == lex.show(y) ==> x == y
    requires forall x, y :: lex.hash(x) == lex.hash(y) ==> x == y
    requires var a, b := [Article("https://a.com/1")], [Article("https://a.com/2")];
      ExpectedSeen(lex, a, map[], mid) && ExpectedSeen(lex, b, mid, split) && ExpectedSeen(lex, a + b, map[], whole)
    ensures var k := "canon:" + lex.hash("https://a.com/2");
      && k in whole && k in split && whole[k] == "batch:" + lex.show(1) && split[k] == "batch:" + lex.show(0)
      && whole[k] != split[k]
  {
    var u, v := "https://a.com/1", "https://a.com/2";
    assert u[14] != v[14];
    OneArticleEach(lex, u, v, mid, whole, split);
    assert ("batch:" + lex.show(1))[6..] == lex.show(1) && ("batch:" + lex.show(0))[6..] == lex.show(0);
  }

  lemma OneArticleEach(lex: Lexicon, u: string, v: string, mid: Seen, whole: Seen, split: Seen)
    requires (forall x, y :: lex.hash(x) == lex.hash(y) ==> x == y) && u != v && u != "" && v != ""
    requires ExpectedSeen(lex, [Article(u)], map[], mid) && ExpectedSeen(lex, [Article(v)], mid, split)
    requires ExpectedSeen(lex, [Article(u)] + [Article(v)], map[], whole)
    ensures var k := "canon:" + lex.hash(v);
      k in whole && k in split && whole[k] == "batch:" + lex.show(1) && split[k] == "batch:" + lex.show(0)
  {
    var a, b := [Article(u)], [Article(v)];
    var k, j := "canon:" + lex.hash(v), "canon:" + lex.hash(u);
    ArticleKeys(lex, u, v);
    OnlyTheirKeys(lex, a, mid, j, k);
    RefsOf(lex, a, b, map[], mid, whole, split, k, 0);
  }

  lemma ArticleKeys(lex: Lexicon, u: string, v: string)
    requires (forall x, y :: lex.hash(x) == lex.hash(y) ==> x == y) && u != v && u != "" && v != ""
    ensures var k, j := "canon:" + lex.hash(v), "canon:" + lex.hash(u);
      j != k && KeyText(lex, Article(u)) == Some(j) && KeyText(lex, Article(v)) == Some(k)
  {
    var k, j := "canon:" + lex.hash(v), "canon:" + lex.hash(u);
    assert k[6..] == lex.hash(v) && j[6..] == lex.hash(u);
  }

  lemma OnlyTheirKeys(lex: Lexicon, a: seq<Record>, mid: Seen, j: string, k: string)
    requires |a| == 1 && KeyText(lex, a[0]) == Some(j) && j != k && ExpectedSeen(lex, a, map[], mid)
    ensures k !in mid
  {
  }
}
