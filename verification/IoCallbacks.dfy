/** Every callback keeps the engine's invariant, grants buffers in arrival order and never leaves work waiting. */
module IoCallbacks {
  import opened Basics
  import opened SpdkBufferPools
  import opened IoEngine
  import opened IoInvariant
  import Ownership

  // ----- moving a request between places ---------------------------------------------------------

  lemma ParkKeepsInv(c: Config, l: Local, w: nat, hand: set<nat>, r: nat)
    requires Inv(c, l, w, hand) && r in hand
    ensures Inv(c, l.(me := l.me.(pending := l.me.pending + [r])), w, hand - {r})
  {
    hide Ledger, RequestShaped, Ownership.Staged;
    var l' := l.(me := l.me.(pending := l.me.pending + [r]));
    assert IsOf(l, w, r) && Places(l, hand, r) == 1;
    forall q | 0 <= q < |l'.requests| && l'.requests[q].worker == w ensures Places(l', hand - {r}, q) == 1 {
      assert Places(l, hand, q) == 1;
    }
    SameBuffers(l, l', w);
    BooksKept(c, l, l');
  }

  lemma PopKeepsInv(c: Config, l: Local, w: nat, hand: set<nat>)
    requires Inv(c, l, w, hand) && l.me.pending != []
    ensures Inv(c, Popped(c, l), w, hand + {l.me.pending[0]})
    ensures l.me.pending[0] !in hand
  {
    hide Ledger, RequestShaped, Ownership.Staged;
    var l', r := Popped(c, l), l.me.pending[0];
    assert IsOf(l, w, r) && Places(l, hand, r) == 1;
    assert l.me.pending == [r] + l'.me.pending;
    forall q | 0 <= q < |l'.requests| && l'.requests[q].worker == w ensures Places(l', hand + {r}, q) == 1 {
      assert Places(l, hand, q) == 1;
    }
    SameBuffers(l, l', w);
    BooksKept(c, l, l');
  }

  lemma WaitKeepsInv(c: Config, l: Local, w: nat, hand: set<nat>, r: nat)
    requires Inv(c, l, w, hand) && r in hand
    ensures Inv(c, l.(me := l.me.(waiting := l.me.waiting + {r})), w, hand - {r})
  {
    hide Ledger, RequestShaped, Ownership.Staged;
    var l' := l.(me := l.me.(waiting := l.me.waiting + {r}));
    assert IsOf(l, w, r) && Places(l, hand, r) == 1;
    forall q | 0 <= q < |l'.requests| && l'.requests[q].worker == w ensures Places(l', hand - {r}, q) == 1 {
      assert Places(l, hand, q) == 1;
    }
    SameBuffers(l, l', w);
    BooksKept(c, l, l');
  }

  lemma RetryKeepsInv(c: Config, l: Local, w: nat, hand: set<nat>, r: nat)
    requires Inv(c, l, w, hand) && r in l.me.waiting
    ensures Inv(c, l.(me := l.me.(waiting := l.me.waiting - {r})), w, hand + {r})
  {
    hide Ledger, RequestShaped, Ownership.Staged;
    var l' := l.(me := l.me.(waiting := l.me.waiting - {r}));
    assert IsOf(l, w, r) && Places(l, hand, r) == 1;
    forall q | 0 <= q < |l'.requests| && l'.requests[q].worker == w ensures Places(l', hand + {r}, q) == 1 {
      assert Places(l, hand, q) == 1;
    }
    SameBuffers(l, l', w);
    BooksKept(c, l, l');
  }

  lemma SameBuffers(l: Local, l': Local, w: nat)
    requires BuffersRight(l, w) && l'.requests == l.requests
    requires l'.me.pool == l.me.pool && l'.me.dma == l.me.dma && l'.me.inFlight == l.me.inFlight
    ensures BuffersRight(l', w)
  {
    hide Ownership.Staged;
    if l.me.pool.initialized {
      forall b | 0 <= b < |l.me.pool.inUse| && l.me.pool.inUse[b] ensures IsHeld(l', b) {
        assert IsHeld(l, b);
        var r :| HeldBy(l, b, r);
        assert HeldBy(l', b, r);
      }
      forall r | r in l.me.inFlight ensures StagedRight(l', r) {
        assert StagedRight(l, r);
      }
    }
  }

  lemma BooksKept(c: Config, l: Local, l': Local)
    requires Ledger(c, l) && l'.requests == l.requests && l'.batches == l.batches
    requires l'.io == l.io || (l'.io.completed == l.io.completed && l'.io.succeeded == l.io.succeeded && CountersRight(c, l'.io))
    ensures Ledger(c, l')
  {
    hide Open, Done;
  }

  // ----- leasing ---------------------------------------------------------------------------------

  // Filling a buffer nobody holds disturbs no write in flight.
  lemma LeaseIsFresh(c: Config, l: Local, w: nat, hand: set<nat>, r: nat)
    requires Inv(c, l, w, hand) && r in hand && l.me.pool.initialized && l.me.pool.free != []
    ensures r < |l.requests| && l.requests[r].buffer.None? && !l.requests[r].completed && r !in l.me.inFlight
    ensures Top(l.me.pool) < |l.me.dma| && !l.me.pool.inUse[Top(l.me.pool)]
    ensures forall q | q in l.me.inFlight :: q < |l.requests| && l.requests[q].buffer != Some(Top(l.me.pool))
  {
    hide Ledger, RequestShaped, StagedRight;
    assert IsOf(l, w, r) && Places(l, hand, r) == 1;
    GrantSound(l.me.pool);
  }

  /** A lease that is given straight back leaves everything but the attempt's traces as it was. */
  lemma LeaseBounces(c: Config, l: Local, w: nat, hand: set<nat>, r: nat)
    requires Inv(c, l, w, hand) && r in hand && l.me.pool.initialized && l.me.pool.free != []
    ensures var back := ReleaseBuffer(c, Lease(c, l, r), r);
            && back.requests == l.requests && back.batches == l.batches
            && back.me == l.me.(dma := back.me.dma, leases := l.me.leases + [r])
            && back.io == l.io.(attempts := l.io.attempts + 1, peak := back.io.peak) && l.io.peak <= back.io.peak
            && Inv(c, back, w, hand)
  {
    hide Ledger, RequestShaped, Ownership.Staged;
    var back := ReleaseBuffer(c, Lease(c, l, r), r);
    LeaseIsFresh(c, l, w, hand, r);
    GrantSound(l.me.pool);
    GrantThenGiveBack(l.me.pool);
    assert back.requests == l.requests;
    forall q | 0 <= q < |back.requests| && back.requests[q].worker == w ensures Places(back, hand, q) == 1 {
      assert Places(l, hand, q) == 1;
    }
    StagedElsewhere(l, back, w, Top(l.me.pool));
    LedgerCounters(c, l);
    BooksKept(c, l, back);
  }

  lemma LedgerCounters(c: Config, l: Local)
    requires Ledger(c, l)
    ensures CountersRight(c, l.io)
  {}

  lemma StagedElsewhere(l: Local, l': Local, w: nat, b: nat)
    requires BuffersRight(l, w) && l.me.pool.initialized && l'.requests == l.requests
    requires l'.me.pool == l.me.pool && l'.me.inFlight == l.me.inFlight && |l'.me.dma| == |l.me.dma|
    requires forall d | 0 <= d < |l.me.dma| && d != b :: l'.me.dma[d] == l.me.dma[d]
    requires forall q | q in l.me.inFlight :: q < |l.requests| && l.requests[q].buffer != Some(b)
    ensures BuffersRight(l', w)
  {
    hide Ownership.Staged;
    forall d | 0 <= d < |l.me.pool.inUse| && l.me.pool.inUse[d] ensures IsHeld(l', d) {
      assert IsHeld(l, d);
      var r :| HeldBy(l, d, r);
      assert HeldBy(l', d, r);
    }
    forall r | r in l.me.inFlight ensures StagedRight(l', r) {
      assert StagedRight(l, r);
    }
  }

  /** An accepted request leaves the hand for the device, holding a buffer no other request holds. */
  lemma SubmitKeepsInv(c: Config, l: Local, w: nat, hand: set<nat>, r: nat)
    requires Inv(c, l, w, hand) && r in hand && l.me.pool.initialized && l.me.pool.free != []
    ensures Inv(c, Submitted(c, Lease(c, l, r), r), w, hand - {r})
  {
    hide Ledger, RequestShaped, Ownership.Staged, BuffersRight;
    var l' := Submitted(c, Lease(c, l, r), r);
    assert IsOf(l, w, r) && Places(l, hand, r) == 1;
    forall q | 0 <= q < |l'.requests| && l'.requests[q].worker == w ensures Places(l', hand - {r}, q) == 1 {
      assert Places(l, hand, q) == 1;
    }
    SubmitBuffers(c, l, w, hand, r);
    SubmitLedger(c, l, r);
  }

  lemma SubmitLedger(c: Config, l: Local, r: nat)
    requires Shaped(c, l) && Ledger(c, l) && r < |l.requests| && l.me.pool.free != []
    ensures Ledger(c, Submitted(c, Lease(c, l, r), r))
  {
    hide Open, Done, BatchRight, SlotRight, SlotsApart;
    var l' := Submitted(c, Lease(c, l, r), r);
    assert RequestShaped(c, l.batches, l.requests[r]);
    assert c.segment * (l.io.accepted + 1) == c.segment * l.io.accepted + c.segment;
    LedgerSame(c, l, l');
  }

  lemma SubmitBuffers(c: Config, l: Local, w: nat, hand: set<nat>, r: nat)
    requires Inv(c, l, w, hand) && r in hand && l.me.pool.initialized && l.me.pool.free != []
    ensures BuffersRight(Submitted(c, Lease(c, l, r), r), w)
  {
    hide Ledger, Ownership.Staged, OnePlace, LeasesRight;
    Owned(l, w, hand, r);
    LeaseIsFresh(c, l, w, hand, r);
    MoreLeases(l, Submitted(c, Lease(c, l, r), r), r, Top(l.me.pool));
  }

  lemma MoreLeases(l: Local, l': Local, r: nat, b: nat)
    requires l.me.pool.Sound() && LeasesRight(l) && r !in l.me.inFlight && r < |l.requests| == |l'.requests|
    requires l.me.pool.free != [] && b == Top(l.me.pool) < |l.me.dma| == |l'.me.dma|
    requires l'.me.pool == Grant(l.me.pool) && l'.me.inFlight == l.me.inFlight + {r}
    requires forall d | 0 <= d < |l.me.dma| && d != b :: l'.me.dma[d] == l.me.dma[d]
    requires forall q | 0 <= q < |l.requests| && q != r :: l'.requests[q] == l.requests[q]
    requires forall q | q in l.me.inFlight :: q < |l.requests| && l.requests[q].buffer != Some(b)
    requires l'.requests[r].buffer == Some(b) && StagedRight(l', r)
    ensures LeasesRight(l')
  {
    hide Ownership.Staged;
    GrantSound(l.me.pool);
    forall d | 0 <= d < |l'.me.pool.inUse| && l'.me.pool.inUse[d] ensures IsHeld(l', d) {
      if d == b {
        assert HeldBy(l', b, r);
      } else {
        assert l'.me.pool.IsLeased(d) && l.me.pool.IsLeased(d) && IsHeld(l, d);
        var q :| HeldBy(l, d, q);
        assert HeldBy(l', d, q);
      }
    }
    forall q | q in l'.me.inFlight ensures
      q < |l'.requests| && l'.requests[q].buffer.Some? && l'.me.pool.IsLeased(l'.requests[q].buffer.value) && StagedRight(l', q)
    {
      if q != r { assert StagedRight(l, q); }
    }
  }

  lemma Owned(l: Local, w: nat, hand: set<nat>, r: nat)
    requires OnePlace(l, w, hand) && r in hand
    ensures IsOf(l, w, r)
  {}

  // ----- what one callback may change ------------------------------------------------------------

  predicate SameRequest(q: Request, q': Request) {
    && q'.worker == q.worker && q'.batch == q.batch && q'.index == q.index && q'.operation == q.operation
    && q'.physical == q.physical && |q'.caller| == |q.caller| && (q.completed ==> q' == q)
  }

  predicate SameSlots(b: Batch, b': Batch) {
    && |b'.results| == |b.results|
    && forall i | 0 <= i < |b.results| && b.results[i].Some? :: b'.results[i] == b.results[i]
  }

  /** Other workers' requests stay as they are, nothing is uncompleted, and a written result is never rewritten. */
  ghost predicate OnlyOwn(l: Local, l': Local, w: nat) {
    && |l'.requests| == |l.requests| && |l'.batches| == |l.batches|
    && (forall q | 0 <= q < |l.requests| ::
         SameRequest(l.requests[q], l'.requests[q]) && (l.requests[q].worker != w ==> l'.requests[q] == l.requests[q]))
    && (forall b | 0 <= b < |l.batches| :: SameSlots(l.batches[b], l'.batches[b]))
  }

  lemma OnlyOwnTrans(a: Local, b: Local, c: Local, w: nat)
    requires OnlyOwn(a, b, w) && OnlyOwn(b, c, w)
    ensures OnlyOwn(a, c, w)
  {
    forall q | 0 <= q < |a.requests| ensures SameRequest(a.requests[q], c.requests[q]) {
      assert SameRequest(a.requests[q], b.requests[q]) && SameRequest(b.requests[q], c.requests[q]);
    }
    forall k | 0 <= k < |a.batches| ensures SameSlots(a.batches[k], c.batches[k]) {
      assert SameSlots(a.batches[k], b.batches[k]) && SameSlots(b.batches[k], c.batches[k]);
    }
  }

  /** The in-use bytes that other workers' buffers account for. */
  function Share(c: Config, l: Local): int {
    l.io.inUse - c.segment * l.me.pool.Leased()
  }

  predicate SameStanding(l: Local, l': Local) {
    && l'.me.pool.initialized == l.me.pool.initialized && |l'.me.pool.inUse| == |l.me.pool.inUse|
    && l'.me.poolBytes == l.me.poolBytes && l'.io.poolBytes == l.io.poolBytes && l'.io.submitted == l.io.submitted
  }

  /** Buffers have been granted in the order in which requests came to the worker; the parked ones are next. */
  predicate Fifo(l: Local) {
    l.me.pool.initialized ==> l.me.arrivals == l.me.leases + l.me.pending
  }

  /** Request r, in hand, has everybody that came before it ahead of it and nobody else. */
  predicate NextInLine(l: Local, r: nat) {
    l.me.pool.initialized ==>
      l.me.arrivals == if l.me.pool.free == [] then l.me.leases + l.me.pending + [r] else l.me.leases + [r] + l.me.pending
  }

  /** The outcome of running from l to l' with the given requests left in hand. */
  ghost predicate Kept(c: Config, l: Local, l': Local, w: nat, hand: set<nat>) {
    && Inv(c, l', w, hand) && Fifo(l') && OnlyOwn(l, l', w)
    && Share(c, l') == Share(c, l) && SameStanding(l, l')
  }

  lemma KeptTrans(c: Config, l: Local, l': Local, l'': Local, w: nat, hand: set<nat>, hand': set<nat>)
    requires Kept(c, l, l', w, hand) && Kept(c, l', l'', w, hand')
    ensures Kept(c, l, l'', w, hand')
  {
    hide Inv, OnlyOwn, Share;
    OnlyOwnTrans(l, l', l'', w);
  }

  lemma CompleteOnlyOwn(c: Config, l: Local, w: nat, r: nat, ok: bool)
    requires Shaped(c, l) && Ledger(c, l) && IsOf(l, w, r)
    ensures OnlyOwn(l, CompleteRequest(c, l, r, ok), w)
  {
    hide Open, Done, BatchRight, SlotsApart, CountersRight;
    assert SlotRight(l.batches, l.requests[r]);
  }

  // A request in hand completes without touching the buffers.
  lemma CompleteKept(c: Config, l: Local, w: nat, hand: set<nat>, r: nat, ok: bool)
    requires Inv(c, l, w, hand) && r in hand && Fifo(l)
    ensures Kept(c, l, CompleteRequest(c, l, r, ok), w, hand - {r})
  {
    hide Ledger, BuffersRight, OnlyOwn, Shaped;
    Owned(l, w, hand, r);
    CompleteKeepsInv(c, l, w, hand, r, ok);
    CompleteOnlyOwn(c, l, w, r, ok);
  }

  // ----- execute and drain -----------------------------------------------------------------------

  /** execute_io_on_worker takes one request out of hand, whatever SPDK answers. */
  lemma {:induction false} ExecuteKeeps(c: Config, l: Local, w: nat, hand: set<nat>, r: nat)
    requires Inv(c, l, w, hand) && r in hand && r < |l.requests|
    requires NextInLine(l, r) && (l.me.draining || Conserving(l))
    ensures Kept(c, l, Execute(c, l, r), w, hand - {r})
    ensures !l.me.draining ==> Conserving(Execute(c, l, r))
    decreases if l.me.draining then 0 else 1, |l.me.pending|, 1
  {
    hide Inv, Kept, Drain, Lease, CompleteRequest, ReleaseBuffer, Submitted, Shaped;
    SoundPool(c, l, w, hand);
    if !l.me.pool.initialized {
      NothingHeld(c, l, w, hand, r);
      CompleteKept(c, l, w, hand, r, false);
      DrainAfter(c, l, CompleteRequest(c, l, r, false), w, hand - {r});
    } else if l.me.pool.free == [] {
      ParkKept(c, l, w, hand, r);
    } else {
      match c.spdk(l.io.attempts) {
        case Accepted => SubmitKept(c, l, w, hand, r);
        case Refused =>
          var back := ReleaseBuffer(c, Lease(c, l, r), r);
          BounceKept(c, l, back, w, hand, r);
          KeptParts(c, l, back, w, hand);
          CompleteKept(c, back, w, hand, r, false);
          KeptTrans(c, l, back, CompleteRequest(c, back, r, false), w, hand, hand - {r});
          DrainAfter(c, l, CompleteRequest(c, back, r, false), w, hand - {r});
        case WaitRefused =>
          var back := CountRetry(ReleaseBuffer(c, Lease(c, l, r), r));
          BounceKept(c, l, back, w, hand, r);
          KeptParts(c, l, back, w, hand);
          CompleteKept(c, back, w, hand, r, false);
          KeptTrans(c, l, back, CompleteRequest(c, back, r, false), w, hand, hand - {r});
          DrainAfter(c, l, CompleteRequest(c, back, r, false), w, hand - {r});
        case _ =>
          var back := CountRetry(ReleaseBuffer(c, Lease(c, l, r), r));
          BounceKept(c, l, back, w, hand, r);
          WaitKept(c, l, back, w, hand, r);
      }
    }
  }

  lemma {:induction false} DrainAfter(c: Config, l: Local, l': Local, w: nat, hand: set<nat>)
    requires Kept(c, l, l', w, hand) && Shaped(c, l')
    ensures Kept(c, l, Drain(c, l'), w, hand)
    ensures !l'.me.draining ==> Conserving(Drain(c, l'))
    decreases if l'.me.draining then 0 else 1, |l'.me.pending|, 0
  {
    hide Inv, Execute, DrainLoop, Shaped, OnlyOwn, Share;
    if !l'.me.draining {
      var guarded := l'.(me := l'.me.(draining := true));
      GuardKept(c, l, l', w, hand, true);
      KeptParts(c, l, guarded, w, hand);
      DrainLoopKeeps(c, guarded, w, hand);
      var done := DrainLoop(c, guarded);
      KeptTrans(c, l, guarded, done, w, hand, hand);
      GuardKept(c, l, done, w, hand, false);
    }
  }

  /** The drain loop leaves no parked request while a buffer is free, and serves them from the front. */
  lemma {:induction false} DrainLoopKeeps(c: Config, l: Local, w: nat, hand: set<nat>)
    requires Inv(c, l, w, hand) && Fifo(l) && l.me.draining && Shaped(c, l)
    ensures Kept(c, l, DrainLoop(c, l), w, hand)
    decreases 0, |l.me.pending|, 2
  {
    hide Inv, Execute, Shaped, OnlyOwn, Share, Kept;
    if l.me.pending != [] && l.me.pool.free != [] {
      var popped, r := Popped(c, l), l.me.pending[0];
      PopKeepsInv(c, l, w, hand);
      PoppedIsNext(c, l);
      InHand(c, popped, w, hand + {r}, r);
      ExecuteKeeps(c, popped, w, hand + {r}, r);
      var l' := Execute(c, popped, r);
      assert hand + {r} - {r} == hand;
      KeptFromPopped(c, l, l', w, hand);
      KeptParts(c, l, l', w, hand);
      DrainLoopKeeps(c, l', w, hand);
      KeptTrans(c, l, l', DrainLoop(c, l'), w, hand, hand);
    } else {
      KeptSelf(c, l, w, hand);
    }
  }

  // ----- small steps of the induction ------------------------------------------------------------

  lemma SoundPool(c: Config, l: Local, w: nat, hand: set<nat>)
    requires Inv(c, l, w, hand)
    ensures Shaped(c, l) && l.me.pool.Sound()
  {}

  lemma InHand(c: Config, l: Local, w: nat, hand: set<nat>, r: nat)
    requires Inv(c, l, w, hand) && r in hand
    ensures Shaped(c, l) && r < |l.requests|
  {
    Owned(l, w, hand, r);
  }

  lemma KeptSelf(c: Config, l: Local, w: nat, hand: set<nat>)
    requires Inv(c, l, w, hand) && Fifo(l)
    ensures Kept(c, l, l, w, hand)
  {
    hide Inv;
  }

  lemma KeptParts(c: Config, l: Local, l': Local, w: nat, hand: set<nat>)
    requires Kept(c, l, l', w, hand)
    ensures Inv(c, l', w, hand) && Fifo(l') && Shaped(c, l')
  {}

  lemma NothingHeld(c: Config, l: Local, w: nat, hand: set<nat>, r: nat)
    requires Inv(c, l, w, hand) && r in hand && !l.me.pool.initialized
    ensures Fifo(l) && Shaped(c, l) && r < |l.requests| && ReleaseBuffer(c, l, r) == l
  {
    assert IsOf(l, w, r) && Places(l, hand, r) == 1;
  }

  lemma PoppedIsNext(c: Config, l: Local)
    requires Shaped(c, l) && Fifo(l) && l.me.pending != [] && l.me.pool.free != []
    ensures NextInLine(Popped(c, l), l.me.pending[0])
  {
    hide Shaped;
    var rest := l.me.pending[1..];
    assert l.me.leases + l.me.pending == l.me.leases + [l.me.pending[0]] + rest;
  }

  lemma KeptFromPopped(c: Config, l: Local, l': Local, w: nat, hand: set<nat>)
    requires Shaped(c, l) && l.me.pending != [] && Kept(c, Popped(c, l), l', w, hand)
    ensures Kept(c, l, l', w, hand)
  {
    hide Inv, Shaped;
  }

  lemma GuardKept(c: Config, l: Local, l': Local, w: nat, hand: set<nat>, on: bool)
    requires Kept(c, l, l', w, hand)
    ensures Kept(c, l, l'.(me := l'.me.(draining := on)), w, hand)
  {
    hide Ledger, RequestShaped, HoldersRight;
    var l'' := l'.(me := l'.me.(draining := on));
    assert forall q | 0 <= q < |l'.requests| :: Places(l'', hand, q) == Places(l', hand, q);
    SameBuffers(l', l'', w);
    BooksKept(c, l', l'');
  }

  lemma ParkKept(c: Config, l: Local, w: nat, hand: set<nat>, r: nat)
    requires Inv(c, l, w, hand) && r in hand && NextInLine(l, r) && l.me.pool.free == []
    ensures Kept(c, l, l.(me := l.me.(pending := l.me.pending + [r])), w, hand - {r})
  {
    hide Inv;
    ParkKeepsInv(c, l, w, hand, r);
    assert l.me.leases + l.me.pending + [r] == l.me.leases + (l.me.pending + [r]);
  }

  lemma SubmitKept(c: Config, l: Local, w: nat, hand: set<nat>, r: nat)
    requires Inv(c, l, w, hand) && r in hand && l.me.pool.initialized && l.me.pool.free != [] && NextInLine(l, r)
    ensures Shaped(c, l) && r < |l.requests|
    ensures Kept(c, l, Submitted(c, Lease(c, l, r), r), w, hand - {r})
    ensures SameQueue(l, Submitted(c, Lease(c, l, r), r))
  {
    hide Inv, Shaped, Lease, Submitted, OnlyOwn, Share;
    InHand(c, l, w, hand, r);
    OwnedBy(c, l, w, hand, r);
    SubmitKeepsInv(c, l, w, hand, r);
    SubmitOwn(c, l, w, r);
  }

  // The new lease and its in-use bytes are booked together.
  lemma SubmitOwn(c: Config, l: Local, w: nat, r: nat)
    requires Shaped(c, l) && IsOf(l, w, r) && !l.requests[r].completed
    requires l.me.pool.initialized && l.me.pool.free != [] && NextInLine(l, r)
    ensures var l' := Submitted(c, Lease(c, l, r), r);
            Fifo(l') && OnlyOwn(l, l', w) && Share(c, l') == Share(c, l) && SameStanding(l, l') && SameQueue(l, l')
  {
    hide RequestShaped, Pool.Sound, Ownership.Staged;
    Pooled(c, l);
    GrantSound(l.me.pool);
    var n := l.me.pool.Leased();
    assert c.segment * (n + 1) == c.segment * n + c.segment;
  }

  lemma Pooled(c: Config, l: Local)
    requires Shaped(c, l)
    ensures l.me.pool.Sound()
  {}

  lemma OwnedBy(c: Config, l: Local, w: nat, hand: set<nat>, r: nat)
    requires Inv(c, l, w, hand) && r in hand
    ensures IsOf(l, w, r) && !l.requests[r].completed
  {
    Owned(l, w, hand, r);
    assert Places(l, hand, r) == 1;
  }

  lemma BounceKept(c: Config, l: Local, back: Local, w: nat, hand: set<nat>, r: nat)
    requires Inv(c, l, w, hand) && r in hand && l.me.pool.initialized && l.me.pool.free != [] && NextInLine(l, r)
    requires Shaped(c, l) && r < |l.requests|
    requires back == ReleaseBuffer(c, Lease(c, l, r), r) || back == CountRetry(ReleaseBuffer(c, Lease(c, l, r), r))
    ensures Kept(c, l, back, w, hand) && SameQueue(l, back) && Shaped(c, back) && back.me.pool == l.me.pool
  {
    hide Inv, Shaped, Lease, ReleaseBuffer, OnlyOwn;
    LeaseBounces(c, l, w, hand, r);
    var first := ReleaseBuffer(c, Lease(c, l, r), r);
    RetryCounted(c, first, back, w, hand);
    SoundPool(c, back, w, hand);
    SameOwn(l, back, w);
  }

  lemma SameOwn(l: Local, l': Local, w: nat)
    requires l'.requests == l.requests && l'.batches == l.batches
    ensures OnlyOwn(l, l', w)
  {}

  lemma RetryCounted(c: Config, l: Local, l': Local, w: nat, hand: set<nat>)
    requires Inv(c, l, w, hand) && (l' == l || l' == CountRetry(l))
    ensures Inv(c, l', w, hand)
  {
    hide RequestShaped, HoldersRight, Open, Done, SlotsApart;
    assert forall q | 0 <= q < |l.requests| :: Places(l', hand, q) == Places(l, hand, q);
    SameBuffers(l, l', w);
  }

  lemma WaitKept(c: Config, l: Local, back: Local, w: nat, hand: set<nat>, r: nat)
    requires Kept(c, l, back, w, hand) && r in hand
    ensures Kept(c, l, back.(me := back.me.(waiting := back.me.waiting + {r})), w, hand - {r})
  {
    hide Inv, OnlyOwn;
    WaitKeepsInv(c, back, w, hand, r);
    SameOwn(back, back.(me := back.me.(waiting := back.me.waiting + {r})), w);
    OnlyOwnTrans(l, back, back.(me := back.me.(waiting := back.me.waiting + {r})), w);
  }
}
