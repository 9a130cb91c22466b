/** What every callback of an I/O worker keeps: one place per request, one request per buffer, honest counters. */
module IoInvariant {
  import opened Basics
  import opened SpdkBufferPools
  import opened IoEngine
  import Ownership

  // ----- one place per request -------------------------------------------------------------------

  /** In how many places request r is. hand holds the worker's requests that no callback has taken up yet. */
  function Places(l: Local, hand: set<nat>, r: nat): nat
    requires r < |l.requests|
  {
    Count(r in hand) + Count(r in l.me.pending) + Count(r in l.me.inFlight) + Count(r in l.me.waiting)
    + Count(l.requests[r].completed)
  }

  predicate IsOf(l: Local, w: nat, r: nat) {
    r < |l.requests| && l.requests[r].worker == w
  }

  ghost predicate OnePlace(l: Local, w: nat, hand: set<nat>) {
    && (forall r | 0 <= r < |l.requests| && l.requests[r].worker == w :: Places(l, hand, r) == 1)
    && (forall r: nat | r in hand || r in l.me.pending || r in l.me.inFlight || r in l.me.waiting :: IsOf(l, w, r))
    && (forall i, j | 0 <= i < j < |l.me.pending| :: l.me.pending[i] != l.me.pending[j])
  }

  // ----- one request per buffer ------------------------------------------------------------------

  ghost predicate HeldBy(l: Local, b: nat, r: nat) {
    r in l.me.inFlight && r < |l.requests| && l.requests[r].buffer == Some(b)
  }

  ghost predicate IsHeld(l: Local, b: nat) {
    exists r :: HeldBy(l, b, r)
  }

  /** A write's DMA buffer holds exactly what the device must store, a read's what the device put there. */
  ghost predicate StagedRight(l: Local, r: nat)
    requires r < |l.requests| && l.requests[r].buffer.Some? && l.requests[r].buffer.value < |l.me.dma|
  {
    var req := l.requests[r];
    var front := l.me.dma[req.buffer.value];
    && |req.caller| <= req.physical <= |front|
    && (req.operation.Write? ==> front[..req.physical] == Ownership.Staged(req.caller, req.physical))
    && (req.operation.Read? && req.filled.Some? ==> front[..req.physical] == req.filled.value)
  }

  /** A request holds a buffer exactly while in flight. */
  ghost predicate HoldersRight(l: Local, w: nat) {
    forall r | 0 <= r < |l.requests| && l.requests[r].worker == w :: l.requests[r].buffer.Some? <==> r in l.me.inFlight
  }

  /** While the pool exists, every lease belongs to exactly one request in flight. */
  ghost predicate LeasesRight(l: Local) {
    && |l.me.dma| == |l.me.pool.inUse|
    && (forall r | r in l.me.inFlight ::
         r < |l.requests| && l.requests[r].buffer.Some? && l.me.pool.IsLeased(l.requests[r].buffer.value)
         && StagedRight(l, r))
    && (forall r, r' | r in l.me.inFlight && r' in l.me.inFlight && r != r' :: l.requests[r].buffer != l.requests[r'].buffer)
    && (forall b | 0 <= b < |l.me.pool.inUse| && l.me.pool.inUse[b] :: IsHeld(l, b))
  }

  ghost predicate BuffersRight(l: Local, w: nat) {
    HoldersRight(l, w) && (l.me.pool.initialized ==> LeasesRight(l))
  }

  // ----- batches and counters --------------------------------------------------------------------

  function Open(requests: seq<Request>, b: nat): set<nat> {
    set r | 0 <= r < |requests| && requests[r].batch == b && !requests[r].completed
  }

  function Done(requests: seq<Request>): set<nat> {
    set r | 0 <= r < |requests| && requests[r].completed
  }

  /** A batch's waiter is woken once, when the last of its requests has completed. */
  predicate BatchRight(requests: seq<Request>, batch: Batch, b: nat) {
    batch.remaining == |Open(requests, b)| && batch.notified == if batch.remaining == 0 then 1 else 0
  }

  predicate SlotRight(batches: seq<Batch>, req: Request) {
    && req.batch < |batches| && req.index < |batches[req.batch].results|
    && (batches[req.batch].results[req.index].Some? <==> req.completed)
  }

  /** What a request's slot says, if anything. */
  function ResultOf(batches: seq<Batch>, req: Request): Option<bool> {
    if req.batch < |batches| && req.index < |batches[req.batch].results| then batches[req.batch].results[req.index] else None
  }

  /** The requests whose slot says success. */
  function Won(requests: seq<Request>, batches: seq<Batch>): set<nat> {
    set r | 0 <= r < |requests| && ResultOf(batches, requests[r]) == Some(true)
  }

  ghost predicate SlotsApart(requests: seq<Request>) {
    forall r, r' | 0 <= r < r' < |requests| && requests[r].batch == requests[r'].batch ::
      requests[r].index != requests[r'].index
  }

  predicate CountersRight(c: Config, io: Counters) {
    && io.succeeded + io.failed == io.completed
    && io.physicalBytes + io.unusedBytes == c.segment * io.accepted
    && 0 <= io.logicalBytes <= io.physicalBytes && 0 <= io.unusedBytes
    && 0 <= io.paddingBytes <= io.physicalBytes - io.logicalBytes
    && io.inUse <= io.peak && 0 <= io.peak
  }

  ghost predicate Ledger(c: Config, l: Local) {
    && (forall b | 0 <= b < |l.batches| :: BatchRight(l.requests, l.batches[b], b))
    && (forall r | 0 <= r < |l.requests| :: SlotRight(l.batches, l.requests[r]))
    && SlotsApart(l.requests)
    && l.io.completed == |Done(l.requests)| && l.io.succeeded == |Won(l.requests, l.batches)|
    && CountersRight(c, l.io)
  }

  ghost predicate Inv(c: Config, l: Local, w: nat, hand: set<nat>) {
    Shaped(c, l) && OnePlace(l, w, hand) && BuffersRight(l, w) && Ledger(c, l)
  }

  /** A non-empty queue means that no buffer is available. */
  predicate Conserving(l: Local) {
    l.me.pending == [] || l.me.pool.free == []
  }

  // ----- completing a request --------------------------------------------------------------------

  // Requests that agree on batch, slot and completion keep the same books.
  lemma LedgerSame(c: Config, l: Local, l': Local)
    requires Ledger(c, l) && l'.batches == l.batches && |l'.requests| == |l.requests|
    requires forall r | 0 <= r < |l.requests| ::
      var a, b := l.requests[r], l'.requests[r]; a.batch == b.batch && a.index == b.index && a.completed == b.completed
    requires l'.io.completed == l.io.completed && l'.io.succeeded == l.io.succeeded && CountersRight(c, l'.io)
    ensures Ledger(c, l')
  {
    assert Won(l'.requests, l'.batches) == Won(l.requests, l.batches);
    forall b: nat ensures Open(l'.requests, b) == Open(l.requests, b) {}
    assert Done(l'.requests) == Done(l.requests);
  }

  lemma OpenAfter(requests: seq<Request>, r: nat, b: nat)
    requires r < |requests| && !requests[r].completed
    ensures var requests' := requests[r := requests[r].(completed := true)];
            && Open(requests', b) == Open(requests, b) - {r}
            && |Open(requests', b)| == |Open(requests, b)| - Count(requests[r].batch == b)
  {
    var requests' := requests[r := requests[r].(completed := true)];
    assert Open(requests', b) == Open(requests, b) - {r};
    if requests[r].batch == b { assert r in Open(requests, b); }
  }

  lemma DoneAfter(requests: seq<Request>, r: nat)
    requires r < |requests| && !requests[r].completed
    ensures |Done(requests[r := requests[r].(completed := true)])| == |Done(requests)| + 1
  {
    assert Done(requests[r := requests[r].(completed := true)]) == Done(requests) + {r};
  }

  // A completion adds its own success to those before, and touches nobody else's slot.
  lemma WonAfter(c: Config, l: Local, r: nat, ok: bool)
    requires Shaped(c, l) && Ledger(c, l) && r < |l.requests| && !l.requests[r].completed
    ensures var l' := CompleteRequest(c, l, r, ok);
            && ResultOf(l'.batches, l'.requests[r]) == Some(ok)
            && Won(l'.requests, l'.batches) == (if ok then Won(l.requests, l.batches) + {r} else Won(l.requests, l.batches))
            && r !in Won(l.requests, l.batches)
            && |Won(l'.requests, l'.batches)| == |Won(l.requests, l.batches)| + Count(ok)
  {
    hide Open, Done, BatchRight, CountersRight;
    var l' := CompleteRequest(c, l, r, ok);
    assert SlotRight(l.batches, l.requests[r]);
    forall q: nat | q < |l.requests| && q != r ensures ResultOf(l'.batches, l'.requests[q]) == ResultOf(l.batches, l.requests[q]) {
      assert SlotRight(l.batches, l.requests[q]);
    }
  }

  lemma CompleteKeepsLedger(c: Config, l: Local, r: nat, ok: bool)
    requires Shaped(c, l) && Ledger(c, l) && r < |l.requests| && !l.requests[r].completed
    ensures Ledger(c, CompleteRequest(c, l, r, ok))
  {
    hide Open, Done, Won;
    var l' := CompleteRequest(c, l, r, ok);
    DoneAfter(l.requests, r);
    WonAfter(c, l, r, ok);
    forall b | 0 <= b < |l'.batches| ensures BatchRight(l'.requests, l'.batches[b], b) {
      OpenAfter(l.requests, r, b);
      assert BatchRight(l.requests, l.batches[b], b);
    }
    forall q | 0 <= q < |l'.requests| ensures SlotRight(l'.batches, l'.requests[q]) {
      assert SlotRight(l.batches, l.requests[q]) && SlotRight(l.batches, l.requests[r]);
    }
  }

  /** Completing a request in hand takes it out of hand and writes its slot and counters once. */
  lemma CompleteKeepsInv(c: Config, l: Local, w: nat, hand: set<nat>, r: nat, ok: bool)
    requires Inv(c, l, w, hand) && r in hand
    ensures Inv(c, CompleteRequest(c, l, r, ok), w, hand - {r})
  {
    hide Ledger, Shaped;
    assert IsOf(l, w, r) && Places(l, hand, r) == 1;
    CompleteKeepsLedger(c, l, r, ok);
    var l' := CompleteRequest(c, l, r, ok);
    forall q | 0 <= q < |l'.requests| && l'.requests[q].worker == w ensures Places(l', hand - {r}, q) == 1 {
      assert Places(l, hand, q) == 1;
    }
    LeasesKept(c, l, l', w);
  }

  // Completion flags do not matter to the buffers.
  lemma LeasesKept(c: Config, l: Local, l': Local, w: nat)
    requires BuffersRight(l, w) && l'.me == l.me && |l'.requests| == |l.requests|
    requires forall r | 0 <= r < |l.requests| :: l'.requests[r] == l.requests[r].(completed := l'.requests[r].completed)
    ensures BuffersRight(l', w)
  {
    hide Ownership.Staged;
    if l.me.pool.initialized {
      forall b | 0 <= b < |l.me.pool.inUse| && l.me.pool.inUse[b] ensures IsHeld(l', b) {
        assert IsHeld(l, b);
        var r :| HeldBy(l, b, r);
        assert HeldBy(l', b, r);
      }
      forall r | r in l.me.inFlight ensures StagedRight(l', r) {
        assert StagedRight(l, r);
      }
    }
  }
}
