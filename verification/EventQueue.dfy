/** The event queue's local JSONL file (event_queue.py): one record a line, rewritten by every claim. */
module EventQueues {
  import opened Options

  /** `Odd` is any other value an item brought along under the reserved key. */
  datatype Status = Pending | Processing | Done | Odd(text: string)

  /** `payload` is the JSON text of the item's other fields. */
  datatype Record = Record(id: string, status: Status, payload: string)

  /** An item to enqueue; its own `_id` and `_status`, if it has them, win over the queue's. */
  datatype Item = Item(payload: string, ownId: Option<string>, ownStatus: Option<Status>)

  predicate IsPlain(item: Item) {
    item.ownId.None? && item.ownStatus.None?
  }

  // ---- Lines ----

  /** What splitlines takes for the end of a line although json.dumps leaves it unescaped. */
  predicate BreaksLine(c: char) {
    var n := c as int;
    n == 0x85 || n == 0x2028 || n == 0x2029
  }

  predicate OneLine(text: string) {
    forall i :: 0 <= i < |text| ==> !BreaksLine(text[i])
  }

  predicate IsLine(r: Record) {
    OneLine(r.id) && OneLine(r.payload) && (r.status.Odd? ==> OneLine(r.status.text))
  }

  /** Every record is one line, so that reading the file back does not fail on half a record. */
  predicate Readable(records: seq<Record>) {
    forall r :: r in records ==> IsLine(r)
  }

  // ---- Claiming ----

  /** The places of the first `count` pending records. */
  function Picks(records: seq<Record>, count: int): (ps: seq<nat>)
    ensures |ps| <= |records|
    ensures forall k :: 0 <= k < |ps| ==> ps[k] < |records| && records[ps[k]].status == Pending
    ensures forall j, k :: 0 <= j < k < |ps| ==> ps[j] < ps[k]
  {
    if records == [] then []
    else
      var n := |records| - 1;
      var before := Picks(records[..n], count);
      if records[n].status == Pending && |before| < count then before + [n] else before
  }

  /** The file after a claim. */
  function Claimed(records: seq<Record>, count: int): (rs: seq<Record>)
    ensures |rs| == |records|
  {
    if records == [] then []
    else
      var n := |records| - 1;
      Claimed(records[..n], count) +
      [if records[n].status == Pending && |Picks(records[..n], count)| < count then records[n].(status := Processing)
       else records[n]]
  }

  /** What a claim hands out. */
  function Delivery(records: seq<Record>, count: int): seq<Record> {
    var ps := Picks(records, count);
    seq(|ps|, k requires 0 <= k < |ps| => records[ps[k]].(status := Processing))
  }

  function MarkedDone(records: seq<Record>, id: string): (rs: seq<Record>)
    ensures |rs| == |records|
    ensures forall k :: 0 <= k < |rs| ==>
      rs[k] == if records[k].id == id then records[k].(status := Done) else records[k]
  {
    if records == [] then []
    else
      var r := records[|records| - 1];
      MarkedDone(records[..|records| - 1], id) + [if r.id == id then r.(status := Done) else r]
  }

  /** A peek shows at least one record, whatever it is asked for. */
  function Wanted(count: int): int {
    if count < 1 then 1 else count
  }

  /** What a peek shows: the first pending records. */
  function Shown(records: seq<Record>, count: int): seq<Record> {
    var ps := Picks(records, Wanted(count));
    seq(|ps|, k requires 0 <= k < |ps| => records[ps[k]])
  }

  /** Every line a peek reads before it has enough is whole. */
  ghost predicate Peekable(records: seq<Record>, count: int) {
    forall k: nat :: k < |records| && |Picks(records[..k], Wanted(count))| < Wanted(count) ==> IsLine(records[k])
  }

  function RecordOf(item: Item, freshId: string): Record {
    Record(if item.ownId.Some? then item.ownId.value else freshId,
           if item.ownStatus.Some? then item.ownStatus.value else Pending, item.payload)
  }

  class EventQueue {
    var records: seq<Record>

    constructor ()
      ensures records == []
    {
      records := [];
    }

    /** `freshId` is the UUID drawn; it is returned even if the item brought its own. */
    method Enqueue(item: Item, freshId: string) returns (id: string)
      modifies this
      ensures id == freshId && records == old(records) + [RecordOf(item, freshId)]
    {
      records := records + [RecordOf(item, freshId)];
      id := freshId;
    }

    /** None: the file could not be read back. */
    method Dequeue(count: int) returns (result: Option<seq<Record>>)
      modifies this
      ensures result.Some? <==> Readable(old(records))
      ensures if result.Some?
              then result.value == Delivery(old(records), count) && records == Claimed(old(records), count)
              else records == old(records)
    {
      if exists r :: r in records && !IsLine(r) {
        return None;
      }
      var out: seq<Record> := [];
      var updated: seq<Record> := [];
      ghost var was := records;
      for i := 0 to |records|
        invariant records == was
        invariant updated == Claimed(was[..i], count) && out == Delivery(was[..i], count)
      {
        var r := records[i];
        ClaimOneMore(was, i, count);
        if r.status == Pending && |out| < count {
          r := r.(status := Processing);
          out := out + [r];
        }
        updated := updated + [r];
      }
      assert was[..|was|] == was;
      records := updated;
      result := Some(out);
    }

    method Peek(count: int) returns (result: Option<seq<Record>>)
      ensures result.Some? <==> Peekable(records, count)
      ensures result.Some? ==> result.value == Shown(records, count)
    {
      var out: seq<Record> := [];
      for i := 0 to |records|
        invariant PeekedTo(records, i, count, out)
      {
        if !IsLine(records[i]) {
          return None;
        }
        PeekOn(records, i, count, out);
        if records[i].status == Pending {
          out := out + [records[i]];
          if |out| >= count {
            PeekIsOver(records, i + 1, count, out);
            return Some(out);
          }
        }
      }
      assert records[..|records|] == records;
      result := Some(out);
    }

    method MarkDone(id: string) returns (ok: bool)
      modifies this
      ensures ok <==> Readable(old(records))
      ensures records == if ok then MarkedDone(old(records), id) else old(records)
    {
      if exists r :: r in records && !IsLine(r) {
        return false;
      }
      var updated: seq<Record> := [];
      ghost var was := records;
      for i := 0 to |records|
        invariant records == was && updated == MarkedDone(was[..i], id)
      {
        var r := records[i];
        assert was[..i + 1][..i] == was[..i];
        if r.id == id {
          r := r.(status := Done);
        }
        updated := updated + [r];
      }
      assert was[..|was|] == was;
      records := updated;
      ok := true;
    }
  }

  lemma ClaimOneMore(records: seq<Record>, i: nat, count: int)
    requires i < |records|
    ensures var picked := records[i].status == Pending && |Delivery(records[..i], count)| < count;
      && Claimed(records[..i + 1], count) ==
           Claimed(records[..i], count) + [if picked then records[i].(status := Processing) else records[i]]
      && Delivery(records[..i + 1], count) ==
           Delivery(records[..i], count) + if picked then [records[i].(status := Processing)] else []
  {
    assert records[..i + 1][..i] == records[..i];
  }

  /** The first i records are read and show `out`, which is not yet enough. */
  ghost predicate PeekedTo(records: seq<Record>, i: nat, count: int, out: seq<Record>) {
    && i <= |records| && out == Shown(records[..i], count) && |out| < Wanted(count)
    && forall k: nat :: k < i ==> IsLine(records[k])
  }

  lemma PeekOn(records: seq<Record>, i: nat, count: int, out: seq<Record>)
    requires PeekedTo(records, i, count, out) && i < |records| && IsLine(records[i])
    ensures Shown(records[..i + 1], count) == out + if records[i].status == Pending then [records[i]] else []
    ensures forall k: nat :: k < i + 1 ==> IsLine(records[k])
  {
    assert records[..i + 1][..i] == records[..i];
  }

  lemma PeekIsOver(records: seq<Record>, i: nat, count: int, out: seq<Record>)
    requires i <= |records| && out == Shown(records[..i], count) && |out| >= Wanted(count)
    requires forall k: nat :: k < i ==> IsLine(records[k])
    ensures out == Shown(records, count) && Peekable(records, count)
  {
    NoMorePicks(records, i, Wanted(count));
    forall k: nat | k < |records| && |Picks(records[..k], Wanted(count))| < Wanted(count) ensures IsLine(records[k]) {
      if k >= i {
        assert records[..k][..i] == records[..i];
        NoMorePicks(records[..k], i, Wanted(count));
        assert false;
      }
    }
  }

  lemma {:induction false} NoMorePicks(records: seq<Record>, i: nat, count: int)
    requires i <= |records| && |Picks(records[..i], count)| >= count
    ensures Picks(records, count) == Picks(records[..i], count)
    decreases |records|
  {
    if i < |records| {
      assert records[..|records| - 1][..i] == records[..i];
      NoMorePicks(records[..|records| - 1], i, count);
    } else {
      assert records[..i] == records;
    }
  }

  // ---- The file is a FIFO queue ----

  /** The abstract queue: the places of the pending records, in the order they came in. */
  function Waiting(records: seq<Record>): (ps: seq<nat>)
    ensures forall k :: 0 <= k < |ps| ==> ps[k] < |records|
  {
    if records == [] then []
    else
      var n := |records| - 1;
      Waiting(records[..n]) + if records[n].status == Pending then [n] else []
  }

  function Served(records: seq<Record>, count: int): (k: nat)
    ensures k <= |Waiting(records)|
  {
    Least(count, |Waiting(records)|)
  }

  /** A claim takes the front of the queue, */
  lemma {:induction false} ClaimTakesTheFront(records: seq<Record>, count: int)
    ensures Picks(records, count) == Waiting(records)[..Served(records, count)]
    decreases |records|
  {
    if records != [] {
      ClaimTakesTheFront(records[..|records| - 1], count);
    }
  }

  /** and leaves the rest of it waiting in its order. */
  lemma {:induction false} ClaimLeavesTheRest(records: seq<Record>, count: int)
    ensures Waiting(Claimed(records, count)) == Waiting(records)[Served(records, count)..]
    decreases |records|
  {
    if records != [] {
      var n := |records| - 1;
      ClaimLeavesTheRest(records[..n], count);
      ClaimTakesTheFront(records[..n], count);
      StillWaits(records, count);
      LastJoinsRest(records, count);
    }
  }

  lemma LastJoinsRest(records: seq<Record>, count: int)
    requires records != []
    requires var before := records[..|records| - 1];
      Picks(before, count) == Waiting(before)[..Served(before, count)]
    ensures var before := records[..|records| - 1];
      Waiting(records)[Served(records, count)..] == Waiting(before)[Served(before, count)..] + Kept(records, count)
  {
    var n := |records| - 1;
    if records[n].status == Pending {
      RestGrows(Waiting(records[..n]), n, count);
    } else {
      assert Waiting(records) == Waiting(records[..n]);
    }
  }

  /** The last record's place, if it still waits after a claim. */
  function Kept(records: seq<Record>, count: int): seq<nat>
    requires records != []
  {
    var n := |records| - 1;
    if records[n].status == Pending && |Picks(records[..n], count)| >= count then [n] else []
  }

  lemma StillWaits(records: seq<Record>, count: int)
    requires records != []
    ensures Waiting(Claimed(records, count)) == Waiting(Claimed(records[..|records| - 1], count)) + Kept(records, count)
  {
    var n := |records| - 1;
    assert Claimed(records, count)[..n] == Claimed(records[..n], count);
  }

  function Least(count: int, n: nat): (k: nat)
    ensures k <= n
  {
    if count <= 0 then 0 else if count <= n then count else n
  }

  lemma RestGrows(w: seq<nat>, n: nat, count: int)
    ensures (w + [n])[Least(count, |w| + 1)..] ==
      w[Least(count, |w|)..] + if Least(count, |w|) >= count then [n] else []
  {
  }

  /** An item without reserved keys joins the end of the queue. */
  lemma EnqueueJoinsTheEnd(records: seq<Record>, item: Item, freshId: string)
    requires IsPlain(item)
    ensures Waiting(records + [RecordOf(item, freshId)]) == Waiting(records) + [|records|]
  {
    assert (records + [RecordOf(item, freshId)])[..|records|] == records;
  }

  /** An item that brings a status other than pending is stored but never waits. */
  lemma OwnStatusWins(records: seq<Record>, item: Item, freshId: string)
    requires item.ownStatus.Some? && item.ownStatus.value != Pending
    ensures Waiting(records + [RecordOf(item, freshId)]) == Waiting(records)
  {
    assert (records + [RecordOf(item, freshId)])[..|records|] == records;
  }

  /** An item that brings an id is marked by that id and not by the one that enqueue returned. */
  lemma OwnIdWins(records: seq<Record>, item: Item, freshId: string, id: string)
    requires item.ownId.Some? && id == item.ownId.value != freshId && item.ownStatus.None?
    ensures var all := records + [RecordOf(item, freshId)];
      MarkedDone(all, id)[|records|].status == Done && MarkedDone(all, freshId)[|records|].status == Pending
  {
  }

  /** mark_done takes the records with that id out of the queue, wherever they stand, and no others. */
  lemma {:induction false} MarkingRemoves(records: seq<Record>, id: string)
    ensures Waiting(MarkedDone(records, id)) == Without(records, Waiting(records), id)
    decreases |records|
  {
    if records != [] {
      var n := |records| - 1;
      MarkingRemoves(records[..n], id);
      assert MarkedDone(records, id)[..n] == MarkedDone(records[..n], id);
      WithoutShorter(records, Waiting(records[..n]), id, n);
      var w := Waiting(records[..n]);
      if records[n].status == Pending {
        assert (w + [n])[..|w|] == w;
      } else {
        assert w + [] == w;
      }
    }
  }

  function Without(records: seq<Record>, ps: seq<nat>, id: string): seq<nat>
    requires forall k :: 0 <= k < |ps| ==> ps[k] < |records|
  {
    if ps == [] then []
    else
      var p := ps[|ps| - 1];
      Without(records, ps[..|ps| - 1], id) + if records[p].id == id then [] else [p]
  }

  lemma {:induction false} WithoutShorter(records: seq<Record>, ps: seq<nat>, id: string, n: nat)
    requires n <= |records| && forall k :: 0 <= k < |ps| ==> ps[k] < n
    ensures Without(records[..n], ps, id) == Without(records, ps, id)
    decreases |ps|
  {
    if ps != [] {
      WithoutShorter(records, ps[..|ps| - 1], id, n);
    }
  }

  /** peek(n) previews dequeue(n), except that peek(0) shows a record where dequeue(0) takes none. */
  lemma PeekPreviews(records: seq<Record>, count: int)
    ensures |Shown(records, count)| == |Delivery(records, count)| <==> count >= 1 || Waiting(records) == []
    ensures count >= 1 ==> forall k :: 0 <= k < |Shown(records, count)| ==>
      Delivery(records, count)[k] == Shown(records, count)[k].(status := Processing)
  {
    ClaimTakesTheFront(records, count);
    ClaimTakesTheFront(records, Wanted(count));
  }

  // ---- Whole runs ----

  datatype Op = Enq(item: Item, id: string) | Deq(count: int) | Mark(id: string)

  /** The file, and the places handed out so far, in the order they went out. */
  datatype History = History(records: seq<Record>, delivered: seq<nat>)

  function Step(h: History, op: Op): History {
    match op
    case Enq(item, id) => h.(records := h.records + [RecordOf(item, id)])
    case Deq(count) =>
      if Readable(h.records) then History(Claimed(h.records, count), h.delivered + Picks(h.records, count)) else h
    case Mark(id) =>
      if Readable(h.records) then h.(records := MarkedDone(h.records, id)) else h
  }

  function Run(ops: seq<Op>): History {
    if ops == [] then History([], []) else Step(Run(ops[..|ops| - 1]), ops[|ops| - 1])
  }

  /** Nothing goes out twice or out of turn, and what still waits came in after all that went out. */
  ghost predicate InTurn(h: History) {
    && (forall j, k :: 0 <= j < k < |h.delivered| ==> h.delivered[j] < h.delivered[k])
    && (forall j :: 0 <= j < |h.delivered| ==> h.delivered[j] < |h.records|)
    && (forall j, p: nat :: 0 <= j < |h.delivered| && p < |h.records| && h.records[p].status == Pending ==>
      h.delivered[j] < p)
  }

  lemma {:induction false} ClaimedAt(records: seq<Record>, count: int, p: nat)
    requires p < |records|
    ensures Claimed(records, count)[p] ==
      if p in Picks(records, count) then records[p].(status := Processing) else records[p]
    decreases |records|
  {
    var n := |records| - 1;
    if p < n {
      ClaimedAt(records[..n], count, p);
    }
  }

  /** A pending record the claim passed over stands behind all it took. */
  lemma {:induction false} PassedOverIsBehind(records: seq<Record>, count: int, p: nat)
    requires p < |records| && records[p].status == Pending && p !in Picks(records, count)
    ensures forall q :: q in Picks(records, count) ==> q < p
    decreases |records|
  {
    var n := |records| - 1;
    if p < n {
      PassedOverIsBehind(records[..n], count, p);
      FullClaim(records[..n], count, p);
    }
  }

  lemma {:induction false} FullClaim(records: seq<Record>, count: int, p: nat)
    requires p < |records| && records[p].status == Pending && p !in Picks(records, count)
    ensures |Picks(records, count)| >= count
    decreases |records|
  {
    var n := |records| - 1;
    if p < n { FullClaim(records[..n], count, p); }
  }

  lemma ClaimKeepsTurn(h: History, count: int)
    requires InTurn(h)
    ensures InTurn(History(Claimed(h.records, count), h.delivered + Picks(h.records, count)))
  {
    var ps := Picks(h.records, count);
    var now := Claimed(h.records, count);
    var out := h.delivered + ps;
    forall j, p: nat | 0 <= j < |out| && p < |now| && now[p].status == Pending ensures out[j] < p {
      ClaimedAt(h.records, count, p);
      assert p !in ps && h.records[p].status == Pending;
      if j < |h.delivered| {
        assert out[j] == h.delivered[j];
      } else {
        assert out[j] == ps[j - |h.delivered|] && out[j] in ps;
        PassedOverIsBehind(h.records, count, p);
      }
    }
  }

  lemma StepKeepsTurn(h: History, op: Op)
    requires InTurn(h)
    ensures InTurn(Step(h, op))
  {
    match op
    case Enq(item, id) =>
    case Deq(count) =>
      ClaimKeepsTurn(h, count);
    case Mark(id) =>
  }

  /** First in, first out, over every run: deliveries follow the order of enqueueing, and none is repeated. */
  lemma {:induction false} DeliveriesAreInTurn(ops: seq<Op>)
    ensures InTurn(Run(ops))
    decreases |ops|
  {
    if ops != [] {
      DeliveriesAreInTurn(ops[..|ops| - 1]);
      StepKeepsTurn(Run(ops[..|ops| - 1]), ops[|ops| - 1]);
    }
  }

  /** pending may become processing, and anything may become done; nothing else changes. */
  predicate Forward(s: Status, t: Status) {
    s == t || t == Done || (s == Pending && t == Processing)
  }

  /** Records keep their place, id and payload, and their statuses only move forward. */
  lemma StatusesMoveForward(h: History, op: Op, p: nat)
    requires p < |h.records|
    ensures p < |Step(h, op).records|
    ensures var r, s := h.records[p], Step(h, op).records[p]; s == r.(status := s.status) && Forward(r.status, s.status)
  {
    if op.Deq? {
      ClaimedAt(h.records, op.count, p);
    }
  }

  /** What a step hands out. */
  function HandedBy(h: History, op: Op): seq<Record> {
    if op.Deq? && Readable(h.records) then Delivery(h.records, op.count) else []
  }

  /** The records handed out are those at the delivered places, but for their status. */
  ghost predicate HandsOut(h: History, handed: seq<Record>) {
    && |handed| == |h.delivered|
    && forall k :: 0 <= k < |handed| ==>
         && h.delivered[k] < |h.records|
         && handed[k].(status := Done) == h.records[h.delivered[k]].(status := Done)
  }

  lemma HandsOutOn(h: History, op: Op, handed: seq<Record>)
    requires HandsOut(h, handed)
    ensures HandsOut(Step(h, op), handed + HandedBy(h, op))
  {
    forall p: nat | p < |h.records|
      ensures p < |Step(h, op).records| && Step(h, op).records[p].(status := Done) == h.records[p].(status := Done)
    {
      StatusesMoveForward(h, op, p);
    }
  }

  /** A queue object taken through a sequence of calls: its file is the one of the run, and it hands out
      the records at the run's delivered places, in that order. */
  method RunOps(queue: EventQueue, ops: seq<Op>) returns (handed: seq<Record>)
    requires queue.records == []
    modifies queue
    ensures queue.records == Run(ops).records && HandsOut(Run(ops), handed)
  {
    handed := [];
    for i := 0 to |ops|
      invariant queue.records == Run(ops[..i]).records && HandsOut(Run(ops[..i]), handed)
    {
      assert ops[..i + 1][..i] == ops[..i];
      HandsOutOn(Run(ops[..i]), ops[i], handed);
      var more := PerformOp(queue, Run(ops[..i]), ops[i]);
      handed := handed + more;
    }
    assert ops[..|ops|] == ops;
  }

  method PerformOp(queue: EventQueue, ghost h: History, op: Op) returns (handed: seq<Record>)
    requires queue.records == h.records
    modifies queue
    ensures queue.records == Step(h, op).records && handed == HandedBy(h, op)
  {
    handed := [];
    match op {
      case Enq(item, id) =>
        var _ := queue.Enqueue(item, id);
      case Deq(count) =>
        var claim := queue.Dequeue(count);
        if claim.Some? {
          handed := claim.value;
        }
      case Mark(id) =>
        var _ := queue.MarkDone(id);
    }
  }

  function Count(records: seq<Record>, s: Status): nat {
    if records == [] then 0
    else Count(records[..|records| - 1], s) + if records[|records| - 1].status == s then 1 else 0
  }

  function Enqueued(ops: seq<Op>): nat {
    if ops == [] then 0 else Enqueued(ops[..|ops| - 1]) + if ops[|ops| - 1].Enq? then 1 else 0
  }

  lemma {:induction false} CountsCover(records: seq<Record>)
    requires forall r :: r in records ==> !r.status.Odd?
    ensures Count(records, Pending) + Count(records, Processing) + Count(records, Done) == |records|
    decreases |records|
  {
    if records != [] {
      assert records[|records| - 1] in records;
      CountsCover(records[..|records| - 1]);
    }
  }

  lemma {:induction false} NoOdd(ops: seq<Op>)
    requires forall op :: op in ops && op.Enq? ==> IsPlain(op.item)
    ensures forall p :: 0 <= p < |Run(ops).records| ==> !Run(ops).records[p].status.Odd?
    ensures |Run(ops).records| == Enqueued(ops)
    decreases |ops|
  {
    if ops != [] {
      var op := ops[|ops| - 1];
      var h := Run(ops[..|ops| - 1]);
      NoOdd(ops[..|ops| - 1]);
      assert op in ops;
      forall p: nat | p < |h.records| ensures !Step(h, op).records[p].status.Odd? {
        StatusesMoveForward(h, op, p);
      }
    }
  }

  /** Every item enqueued, if free of reserved keys, is pending, processing or done, and counted once. */
  lemma NothingIsLost(ops: seq<Op>)
    requires forall op :: op in ops && op.Enq? ==> IsPlain(op.item)
    ensures var rs := Run(ops).records;
      Count(rs, Pending) + Count(rs, Processing) + Count(rs, Done) == Enqueued(ops)
  {
    NoOdd(ops);
    CountsCover(Run(ops).records);
  }

  /** The file stays readable exactly as long as no item brought a line break that JSON leaves unescaped;
      from then on every claim and every mark fails and changes nothing. */
  lemma {:induction false} OneBadItemStopsTheQueue(ops: seq<Op>)
    ensures Readable(Run(ops).records) <==> forall op :: op in ops && op.Enq? ==> IsLine(RecordOf(op.item, op.id))
    decreases |ops|
  {
    if ops != [] {
      var before, op := ops[..|ops| - 1], ops[|ops| - 1];
      OneBadItemStopsTheQueue(before);
      ReadableStep(Run(before), op);
      assert ops == before + [op];
    }
  }

  lemma ReadableStep(h: History, op: Op)
    ensures Readable(Step(h, op).records) <==> Readable(h.records) && (op.Enq? ==> IsLine(RecordOf(op.item, op.id)))
  {
    var next := Step(h, op).records;
    if op.Enq? {
      assert next[|next| - 1] == RecordOf(op.item, op.id);
      forall r | r in h.records ensures r in next {
        var p :| 0 <= p < |h.records| && h.records[p] == r;
        assert next[p] == r;
      }
    } else if Readable(h.records) {
      forall r | r in next ensures IsLine(r) {
        var p :| 0 <= p < |next| && next[p] == r;
        StatusesMoveForward(h, op, p);
        assert h.records[p] in h.records;
      }
    }
  }

  /** One item with a next line, a line separator or a paragraph separator in it: what was enqueued before it cannot
      be claimed or marked any more. */
  method LineSeparatorStopsTheQueue(before: Item, c: char, freshIds: seq<string>)
    returns (claim: Option<seq<Record>>, marked: bool)
    requires |freshIds| == 2 && IsPlain(before) && c as int in {0x85, 0x2028, 0x2029}
    ensures claim == None && !marked
  {
    var queue := new EventQueue();
    var first := queue.Enqueue(before, freshIds[0]);
    var second := queue.Enqueue(Item([c], None, None), freshIds[1]);
    assert BreaksLine(queue.records[1].payload[0]);
    assert queue.records[1] in queue.records;
    claim := queue.Dequeue(1);
    marked := queue.MarkDone(first);
  }

  /** Any other character is harmless: items without those three can always be claimed. */
  lemma OtherTextIsHarmless(ops: seq<Op>)
    requires forall op, i :: op in ops && op.Enq? && IsPlain(op.item) && 0 <= i < |op.item.payload| ==>
      op.item.payload[i] as int !in {0x85, 0x2028, 0x2029}
    requires forall op, i :: op in ops && op.Enq? && 0 <= i < |op.id| ==> op.id[i] as int !in {0x85, 0x2028, 0x2029}
    requires forall op :: op in ops && op.Enq? ==> IsPlain(op.item)
    ensures Readable(Run(ops).records)
  {
    OneBadItemStopsTheQueue(ops);
  }
}
