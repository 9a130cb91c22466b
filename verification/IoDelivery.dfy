/** The callbacks of one worker as a whole: dispatch, retry, completion and shutdown. */
module IoDelivery {
  import opened Basics
  import opened SpdkBufferPools
  import opened IoEngine
  import opened IoInvariant
  import opened IoCallbacks
  import Ownership

  /** The state between two callbacks of worker w. */
  ghost predicate AtRest(c: Config, l: Local, w: nat, hand: set<nat>) {
    Inv(c, l, w, hand) && Fifo(l) && Conserving(l) && !l.me.draining
  }

  // ----- arrivals --------------------------------------------------------------------------------

  lemma HistoryKept(c: Config, l: Local, l': Local, w: nat, hand: set<nat>)
    requires Inv(c, l, w, hand) && l' == l.(me := l.me.(arrivals := l'.me.arrivals))
    ensures Inv(c, l', w, hand)
  {
    hide Ledger, RequestShaped, HoldersRight;
    assert forall q | 0 <= q < |l.requests| :: Places(l', hand, q) == Places(l, hand, q);
    SameBuffers(l, l', w);
    BooksKept(c, l, l');
  }

  lemma KeptFromArrival(c: Config, l: Local, noted: Local, l': Local, w: nat, hand: set<nat>)
    requires noted == l.(me := l.me.(arrivals := noted.me.arrivals)) && Kept(c, noted, l', w, hand)
    ensures Kept(c, l, l', w, hand)
  {
    hide Inv;
  }

  /** A request that comes to a worker gets a buffer only when nobody is parked before it. */
  lemma ArriveKeeps(c: Config, l: Local, w: nat, hand: set<nat>, r: nat)
    requires AtRest(c, l, w, hand) && r in hand
    ensures Shaped(c, l) && r < |l.requests|
    ensures Kept(c, l, Arrive(c, l, r), w, hand - {r}) && AtRest(c, Arrive(c, l, r), w, hand - {r})
  {
    hide Inv, Kept, Execute;
    var noted := l.(me := l.me.(arrivals := l.me.arrivals + [r]));
    InHand(c, l, w, hand, r);
    HistoryKept(c, l, noted, w, hand);
    InHand(c, noted, w, hand, r);
    NextAfter(l, noted, r);
    ExecuteKeeps(c, noted, w, hand, r);
    KeptFromArrival(c, l, noted, Execute(c, noted, r), w, hand - {r});
    KeptParts(c, l, Execute(c, noted, r), w, hand - {r});
  }

  lemma NextAfter(l: Local, noted: Local, r: nat)
    requires Fifo(l) && Conserving(l) && noted == l.(me := l.me.(arrivals := l.me.arrivals + [r]))
    ensures NextInLine(noted, r)
  {
    assert l.me.leases + [] == l.me.leases && l.me.leases + [r] + [] == l.me.leases + [r];
  }

  ghost function FirstOf(rs: seq<nat>, n: nat): set<nat>
    requires n <= |rs|
  {
    set i | 0 <= i < n :: rs[i]
  }

  lemma FirstOfNext(rs: seq<nat>, n: nat)
    requires n < |rs|
    ensures FirstOf(rs, n + 1) == FirstOf(rs, n) + {rs[n]}
  {}

  predicate NoRepeats(rs: seq<nat>) {
    forall i, j | 0 <= i < j < |rs| :: rs[i] != rs[j]
  }

  /** A dispatch message: all its requests are taken up, in order. */
  lemma {:induction false} ArriveAllKeeps(c: Config, l: Local, w: nat, hand: set<nat>, rs: seq<nat>, n: nat)
    requires AtRest(c, l, w, hand) && n <= |rs| && NoRepeats(rs) && FirstOf(rs, |rs|) <= hand
    ensures Shaped(c, l) && forall i | 0 <= i < |rs| :: rs[i] < |l.requests|
    ensures Kept(c, l, ArriveAll(c, l, rs, n), w, hand - FirstOf(rs, n))
    ensures AtRest(c, ArriveAll(c, l, rs, n), w, hand - FirstOf(rs, n))
  {
    hide Inv, Kept, Arrive;
    SoundPool(c, l, w, hand);
    forall i | 0 <= i < |rs| ensures rs[i] < |l.requests| {
      assert rs[i] in FirstOf(rs, |rs|);
      InHand(c, l, w, hand, rs[i]);
    }
    if n == 0 {
      assert hand - FirstOf(rs, 0) == hand;
      KeptSelf(c, l, w, hand);
    } else {
      ArriveAllKeeps(c, l, w, hand, rs, n - 1);
      var before := ArriveAll(c, l, rs, n - 1);
      assert rs[n - 1] in FirstOf(rs, |rs|);
      ArriveKeeps(c, before, w, hand - FirstOf(rs, n - 1), rs[n - 1]);
      FirstOfNext(rs, n - 1);
      assert hand - FirstOf(rs, n - 1) - {rs[n - 1]} == hand - FirstOf(rs, n);
      KeptTrans(c, l, before, ArriveAll(c, l, rs, n), w, hand - FirstOf(rs, n - 1), hand - FirstOf(rs, n));
    }
  }

  lemma RetryKeeps(c: Config, l: Local, w: nat, hand: set<nat>, r: nat)
    requires AtRest(c, l, w, hand) && r in l.me.waiting
    ensures Shaped(c, l) && r < |l.requests|
    ensures Kept(c, l, Retry(c, l, r), w, hand) && AtRest(c, Retry(c, l, r), w, hand)
  {
    hide Inv, Kept, Arrive;
    var resumed := l.(me := l.me.(waiting := l.me.waiting - {r}));
    RetryKeepsInv(c, l, w, hand, r);
    SoundPool(c, l, w, hand);
    InHand(c, resumed, w, hand + {r}, r);
    WaitingNotInHand(c, l, w, hand, r);
    ArriveKeeps(c, resumed, w, hand + {r}, r);
    assert hand + {r} - {r} == hand;
    KeptFromWaiting(c, l, resumed, Arrive(c, resumed, r), w, hand);
  }

  lemma WaitingNotInHand(c: Config, l: Local, w: nat, hand: set<nat>, r: nat)
    requires Inv(c, l, w, hand) && r in l.me.waiting
    ensures r !in hand
  {
    assert IsOf(l, w, r) && Places(l, hand, r) == 1;
  }

  lemma KeptFromWaiting(c: Config, l: Local, resumed: Local, l': Local, w: nat, hand: set<nat>)
    requires resumed == l.(me := l.me.(waiting := resumed.me.waiting)) && Kept(c, resumed, l', w, hand)
    ensures Kept(c, l, l', w, hand)
  {
    hide Inv;
  }

  // ----- completions -----------------------------------------------------------------------------

  /** The engine's part of a completion before the request is reported: the buffer is free, the request in hand. */
  function TakenBack(c: Config, l: Local, r: nat, copy: bool): (l': Local)
    requires Shaped(c, l) && r < |l.requests| && (copy ==> Readable(l, r))
    ensures Shaped(c, l') && |l'.requests| == |l.requests|
  {
    var called := l.(me := l.me.(inFlight := l.me.inFlight - {r}));
    ReleaseBuffer(c, if copy then CopyOut(c, called, r) else called, r)
  }

  lemma TakenBackIs(c: Config, l: Local, w: nat, hand: set<nat>, r: nat, copy: bool)
    requires Inv(c, l, w, hand) && r in l.me.inFlight && r < |l.requests| && (copy ==> Readable(l, r))
    requires l.me.pool.initialized
    ensures l.requests[r].buffer.Some? && l.me.pool.IsLeased(l.requests[r].buffer.value)
    ensures var l', b := TakenBack(c, l, r, copy), l.requests[r].buffer.value;
            && l'.me == l.me.(inFlight := l.me.inFlight - {r}, pool := GiveBack(l.me.pool, b))
            && |l'.requests| == |l.requests|
            && l'.requests[r].worker == l.requests[r].worker && l'.requests[r].buffer == None
            && forall q | 0 <= q < |l.requests| && q != r :: l'.requests[q] == l.requests[q]
  {
    hide Ledger, Ownership.Staged, RequestShaped;
  }

  lemma TakeBackBuffers(c: Config, l: Local, w: nat, hand: set<nat>, r: nat, copy: bool)
    requires Inv(c, l, w, hand) && r in l.me.inFlight && r < |l.requests| && (copy ==> Readable(l, r))
    ensures BuffersRight(TakenBack(c, l, r, copy), w)
  {
    hide Inv, LeasesRight, CopyOut, ReleaseBuffer;
    Buffered(c, l, w, hand, r);
    var l' := TakenBack(c, l, r, copy);
    if l.me.pool.initialized {
      TakenBackIs(c, l, w, hand, r, copy);
      FewerLeases(l, l', r, l.requests[r].buffer.value);
    } else {
      Unleased(c, l, r, copy);
    }
  }

  lemma Buffered(c: Config, l: Local, w: nat, hand: set<nat>, r: nat)
    requires Inv(c, l, w, hand) && r in l.me.inFlight
    ensures Shaped(c, l) && BuffersRight(l, w) && l.me.pool.Sound() && IsOf(l, w, r)
  {}

  lemma Unleased(c: Config, l: Local, r: nat, copy: bool)
    requires Shaped(c, l) && r < |l.requests| && (copy ==> Readable(l, r)) && !l.me.pool.initialized
    ensures var l' := TakenBack(c, l, r, copy);
            && l'.me == l.me.(inFlight := l.me.inFlight - {r}) && l'.requests[r].buffer == None
            && forall q | 0 <= q < |l.requests| && q != r :: l'.requests[q] == l.requests[q]
  {}

  lemma FewerLeases(l: Local, l': Local, r: nat, b: nat)
    requires l.me.pool.Sound() && LeasesRight(l) && r in l.me.inFlight && r < |l.requests| == |l'.requests|
    requires l.requests[r].buffer == Some(b) && l.me.pool.IsLeased(b)
    requires l'.me == l.me.(inFlight := l.me.inFlight - {r}, pool := GiveBack(l.me.pool, b))
    requires forall q | 0 <= q < |l.requests| && q != r :: l'.requests[q] == l.requests[q]
    ensures LeasesRight(l')
  {
    hide Ownership.Staged;
    GiveBackSound(l.me.pool, b);
    forall d | 0 <= d < |l'.me.pool.inUse| && l'.me.pool.inUse[d] ensures IsHeld(l', d) {
      assert l'.me.pool.IsLeased(d) && l.me.pool.inUse[d] && IsHeld(l, d);
      var q :| HeldBy(l, d, q);
      assert HeldBy(l', d, q);
    }
    forall q | q in l'.me.inFlight ensures
      q < |l'.requests| && l'.requests[q].buffer.Some? && l'.me.pool.IsLeased(l'.requests[q].buffer.value) && StagedRight(l', q)
    {
      assert StagedRight(l, q);
    }
  }

  lemma TakeBackKeepsInv(c: Config, l: Local, w: nat, hand: set<nat>, r: nat, copy: bool)
    requires Inv(c, l, w, hand) && r in l.me.inFlight && r < |l.requests| && (copy ==> Readable(l, r))
    ensures Inv(c, TakenBack(c, l, r, copy), w, hand + {r}) && r !in hand
  {
    hide Ledger, Ownership.Staged, RequestShaped, BuffersRight;
    var l' := TakenBack(c, l, r, copy);
    assert IsOf(l, w, r) && Places(l, hand, r) == 1;
    forall q | 0 <= q < |l'.requests| && l'.requests[q].worker == w ensures Places(l', hand + {r}, q) == 1 {
      assert Places(l, hand, q) == 1;
    }
    TakeBackBuffers(c, l, w, hand, r, copy);
    TakeBackLedger(c, l, r, copy);
  }

  lemma TakeBackLedger(c: Config, l: Local, r: nat, copy: bool)
    requires Shaped(c, l) && Ledger(c, l) && r < |l.requests| && (copy ==> Readable(l, r))
    ensures Ledger(c, TakenBack(c, l, r, copy))
  {
    hide Open, Done, BatchRight, SlotRight, SlotsApart;
    LedgerSame(c, l, TakenBack(c, l, r, copy));
  }

  lemma TakeBackKept(c: Config, l: Local, w: nat, hand: set<nat>, r: nat, copy: bool)
    requires Inv(c, l, w, hand) && Fifo(l) && r in l.me.inFlight && r < |l.requests| && (copy ==> Readable(l, r))
    ensures Kept(c, l, TakenBack(c, l, r, copy), w, hand + {r}) && r !in hand
    ensures TakenBack(c, l, r, copy).me.draining == l.me.draining
  {
    hide Inv, Shaped, OnlyOwn;
    SoundPool(c, l, w, hand);
    TakeBackKeepsInv(c, l, w, hand, r, copy);
    TakeBackOwn(c, l, w, hand, r, copy);
    LeaseOf(c, l, w, hand, r);
    if l.me.pool.initialized {
      GiveBackSound(l.me.pool, l.requests[r].buffer.value);
      var n := l.me.pool.Leased();
      assert c.segment * (n - 1) == c.segment * n - c.segment;
    }
  }

  lemma LeaseOf(c: Config, l: Local, w: nat, hand: set<nat>, r: nat)
    requires Inv(c, l, w, hand) && r in l.me.inFlight && r < |l.requests|
    ensures l.requests[r].buffer.Some?
    ensures l.me.pool.initialized ==> l.me.pool.IsLeased(l.requests[r].buffer.value) && Readable(l, r)
    ensures !l.me.pool.initialized ==> l.me.pool == EMPTY
  {
    assert IsOf(l, w, r);
  }

  lemma TakeBackOwn(c: Config, l: Local, w: nat, hand: set<nat>, r: nat, copy: bool)
    requires Inv(c, l, w, hand) && r in l.me.inFlight && r < |l.requests| && (copy ==> Readable(l, r))
    ensures OnlyOwn(l, TakenBack(c, l, r, copy), w)
  {
    hide Ledger, BuffersRight;
    assert IsOf(l, w, r);
    assert RequestShaped(c, l.batches, l.requests[r]);
  }

  /** A completion returns the buffer, writes the result once and lets the next parked request run. */
  lemma CompleteIoKeeps(c: Config, l: Local, w: nat, hand: set<nat>, r: nat, ok: bool)
    requires AtRest(c, l, w, hand) && r in l.me.inFlight
    ensures Shaped(c, l) && r < |l.requests|
    ensures Kept(c, l, CompleteIo(c, l, r, ok), w, hand) && AtRest(c, CompleteIo(c, l, r, ok), w, hand)
  {
    hide Inv, Kept, Drain, CompleteRequest, ReleaseBuffer, CopyOut, Shaped;
    SoundPool(c, l, w, hand);
    Flying(c, l, w, hand, r);
    var reading := ok && l.requests[r].operation.Read?;
    var copy := reading && Readable(l, r);
    var result := ok && (l.requests[r].operation.Write? || copy);
    var back := TakenBack(c, l, r, copy);
    TakeBackKept(c, l, w, hand, r, copy);
    KeptParts(c, l, back, w, hand + {r});
    CompleteKept(c, back, w, hand + {r}, r, result);
    assert hand + {r} - {r} == hand;
    var done := CompleteRequest(c, back, r, result);
    KeptTrans(c, l, back, done, w, hand + {r}, hand);
    DrainAfter(c, l, done, w, hand);
    assert CompleteIo(c, l, r, ok) == Drain(c, done);
    KeptParts(c, l, Drain(c, done), w, hand);
  }

  lemma Flying(c: Config, l: Local, w: nat, hand: set<nat>, r: nat)
    requires Inv(c, l, w, hand) && r in l.me.inFlight
    ensures r < |l.requests|
  {
    assert IsOf(l, w, r);
  }

  // ----- shutdown --------------------------------------------------------------------------------

  lemma {:induction false} FailPendingKeeps(c: Config, l: Local, w: nat, hand: set<nat>)
    requires Inv(c, l, w, hand)
    ensures Shaped(c, l) && Inv(c, FailPending(c, l), w, hand) && OnlyOwn(l, FailPending(c, l), w)
    ensures FailPending(c, l).io.inUse == l.io.inUse && FailPending(c, l).io.poolBytes == l.io.poolBytes
    ensures FailPending(c, l).io.submitted == l.io.submitted
    decreases |l.me.pending|
  {
    hide Inv, OnlyOwn, Shaped, Popped;
    SoundPool(c, l, w, hand);
    if l.me.pending == [] {
      SameOwn(l, l, w);
    } else {
      var popped, r := Popped(c, l), l.me.pending[0];
      PopKeepsInv(c, l, w, hand);
      InHand(c, popped, w, hand + {r}, r);
      FailOne(c, l, popped, w, hand, r);
      FailPendingKeeps(c, CompleteRequest(c, popped, r, false), w, hand);
      OnlyOwnTrans(l, CompleteRequest(c, popped, r, false), FailPending(c, l), w);
    }
  }

  lemma FailOne(c: Config, l: Local, popped: Local, w: nat, hand: set<nat>, r: nat)
    requires Shaped(c, l) && l.me.pending != [] && popped == Popped(c, l) && r !in hand
    requires Inv(c, popped, w, hand + {r}) && Shaped(c, popped) && r < |popped.requests|
    ensures var l' := CompleteRequest(c, popped, r, false);
            && Inv(c, l', w, hand) && OnlyOwn(l, l', w) && |l'.me.pending| < |l.me.pending|
            && l'.io.inUse == l.io.inUse && l'.io.poolBytes == l.io.poolBytes && l'.io.submitted == l.io.submitted
  {
    hide BuffersRight, OnlyOwn, Shaped, OnePlace;
    Owned(popped, w, hand + {r}, r);
    CompleteKeepsInv(c, popped, w, hand + {r}, r, false);
    assert hand + {r} - {r} == hand;
    CompleteOnlyOwn(c, popped, w, r, false);
    SameOwn(l, popped, w);
    OnlyOwnTrans(l, popped, CompleteRequest(c, popped, r, false), w);
  }

  lemma DropPoolKeeps(c: Config, l: Local, w: nat, hand: set<nat>)
    requires Inv(c, l, w, hand)
    ensures Shaped(c, l) && Inv(c, DropPool(c, l), w, hand) && OnlyOwn(l, DropPool(c, l), w)
    ensures Fifo(DropPool(c, l)) && Conserving(DropPool(c, l))
  {
    hide Ledger, RequestShaped;
    var l' := DropPool(c, l);
    assert forall q | 0 <= q < |l.requests| :: Places(l', hand, q) == Places(l, hand, q);
    LedgerDrop(c, l, l');
    SameOwn(l, l', w);
  }

  lemma LedgerDrop(c: Config, l: Local, l': Local)
    requires Ledger(c, l) && l'.requests == l.requests && l'.batches == l.batches
    requires l'.io == l.io.(poolBytes := l'.io.poolBytes)
    ensures Ledger(c, l')
  {
    hide Open, Done, BatchRight, SlotRight, SlotsApart;
    BooksKept(c, l, l');
  }

  /** shutdown_io_worker completes every parked request as a failure before the pool goes. */
  lemma ShutdownKeeps(c: Config, l: Local, w: nat, hand: set<nat>)
    requires AtRest(c, l, w, hand)
    ensures Shaped(c, l) && AtRest(c, Shutdown(c, l), w, hand) && OnlyOwn(l, Shutdown(c, l), w)
    ensures Shutdown(c, l).me.pending == [] && Shutdown(c, l).me.pool == EMPTY
    ensures forall i | 0 <= i < |l.me.pending| ::
              l.me.pending[i] < |l.requests| && Shutdown(c, l).requests[l.me.pending[i]].completed
  {
    hide Inv, OnlyOwn, Shaped, FailPending;
    FailPendingKeeps(c, l, w, hand);
    var failed := FailPending(c, l);
    DropPoolKeeps(c, failed, w, hand);
    OnlyOwnTrans(l, failed, Shutdown(c, l), w);
    forall i | 0 <= i < |l.me.pending|
      ensures l.me.pending[i] < |l.requests| && failed.requests[l.me.pending[i]].completed
    {
      ParkedThenDone(c, l, failed, w, hand, l.me.pending[i]);
    }
  }

  // A parked request of a queue that was emptied has nowhere to be but completed.
  lemma ParkedThenDone(c: Config, l: Local, l': Local, w: nat, hand: set<nat>, r: nat)
    requires Inv(c, l, w, hand) && Inv(c, l', w, hand) && OnlyOwn(l, l', w)
    requires l'.me == l.me.(pending := []) && r in l.me.pending
    ensures r < |l.requests| == |l'.requests| && l'.requests[r].completed
  {
    hide Ledger, BuffersRight, Shaped;
    assert IsOf(l, w, r) && Places(l, hand, r) == 1;
    assert SameRequest(l.requests[r], l'.requests[r]);
    assert Places(l', hand, r) == 1;
  }

  // ----- data ------------------------------------------------------------------------------------

  lemma FillKeeps(c: Config, l: Local, w: nat, hand: set<nat>, r: nat, bytes: Bytes)
    requires AtRest(c, l, w, hand) && r in l.me.inFlight && r < |l.requests| && l.requests[r].operation.Read?
    requires Readable(l, r) && |bytes| == l.requests[r].physical
    ensures Shaped(c, l) && Kept(c, l, Fill(c, l, r, bytes), w, hand) && AtRest(c, Fill(c, l, r, bytes), w, hand)
  {
    hide Ledger, Ownership.Staged, RequestShaped, BuffersRight, OnlyOwn;
    var l' := Fill(c, l, r, bytes);
    assert IsOf(l, w, r) && Places(l, hand, r) == 1;
    forall q | 0 <= q < |l'.requests| && l'.requests[q].worker == w ensures Places(l', hand, q) == 1 {
      assert Places(l, hand, q) == 1;
    }
    FillBuffers(c, l, w, hand, r, bytes);
    FillOwn(c, l, w, r, bytes);
  }

  lemma FillOwn(c: Config, l: Local, w: nat, r: nat, bytes: Bytes)
    requires Shaped(c, l) && Ledger(c, l) && IsOf(l, w, r) && !l.requests[r].completed
    requires Readable(l, r) && |bytes| == l.requests[r].physical
    ensures OnlyOwn(l, Fill(c, l, r, bytes), w) && Ledger(c, Fill(c, l, r, bytes))
  {
    hide Open, Done, BatchRight, SlotRight, SlotsApart, CountersRight;
    LedgerCounters(c, l);
    LedgerSame(c, l, Fill(c, l, r, bytes));
  }

  lemma FillBuffers(c: Config, l: Local, w: nat, hand: set<nat>, r: nat, bytes: Bytes)
    requires Inv(c, l, w, hand) && r in l.me.inFlight && r < |l.requests| && l.requests[r].operation.Read?
    requires Readable(l, r) && |bytes| == l.requests[r].physical
    ensures BuffersRight(Fill(c, l, r, bytes), w)
  {
    hide Ledger, Ownership.Staged, OnePlace;
    var l' := Fill(c, l, r, bytes);
    assert RequestShaped(c, l.batches, l.requests[r]);
    forall d | 0 <= d < |l.me.pool.inUse| && l.me.pool.inUse[d] ensures IsHeld(l', d) {
      assert IsHeld(l, d);
      var q :| HeldBy(l, d, q);
      assert HeldBy(l', d, q);
    }
    forall q | q in l.me.inFlight ensures StagedRight(l', q) {
      assert StagedRight(l, q);
    }
  }

  /** A read that succeeds gives its caller the first bytes of what the device put into its own buffer. */
  lemma ReadDelivers(c: Config, l: Local, w: nat, hand: set<nat>, r: nat)
    requires AtRest(c, l, w, hand) && r in l.me.inFlight && r < |l.requests| && l.me.pool.initialized
    requires l.requests[r].operation.Read? && l.requests[r].filled.Some?
    ensures Shaped(c, l)
    ensures var req, req' := l.requests[r], CompleteIo(c, l, r, true).requests[r];
            && req'.completed && |req.caller| <= |req.filled.value|
            && req'.caller == req.filled.value[..|req.caller|]
            && ResultOf(l.batches, req).None? && ResultOf(CompleteIo(c, l, r, true).batches, req) == Some(true)
  {
    hide Inv, Kept, Drain, Shaped, Ownership.Staged, OnlyOwn;
    SoundPool(c, l, w, hand);
    LeaseOf(c, l, w, hand, r);
    var back := TakenBack(c, l, r, true);
    TakeBackKept(c, l, w, hand, r, true);
    KeptParts(c, l, back, w, hand + {r});
    CompleteKept(c, back, w, hand + {r}, r, true);
    assert hand + {r} - {r} == hand;
    var done := CompleteRequest(c, back, r, true);
    KeptParts(c, back, done, w, hand);
    KeptSelf(c, done, w, hand);
    DrainAfter(c, done, done, w, hand);
    CopiedBytes(c, l, w, hand, r);
    Finished(c, done, Drain(c, done), w, hand, r);
  }

  lemma CopiedBytes(c: Config, l: Local, w: nat, hand: set<nat>, r: nat)
    requires Inv(c, l, w, hand) && r in l.me.inFlight && r < |l.requests| && l.me.pool.initialized
    requires l.requests[r].operation.Read? && l.requests[r].filled.Some? && Readable(l, r)
    ensures var req := l.requests[r];
            var done := CompleteRequest(c, TakenBack(c, l, r, true), r, true);
            && done.requests[r].completed && |req.caller| <= |req.filled.value|
            && done.requests[r].caller == req.filled.value[..|req.caller|]
            && done.requests[r].batch == req.batch && done.requests[r].index == req.index
            && ResultOf(l.batches, req).None? && ResultOf(done.batches, req) == Some(true)
  {
    hide Ownership.Staged, Open, Done, BatchRight, SlotsApart, CountersRight, HoldersRight;
    var req := l.requests[r];
    assert IsOf(l, w, r) && Places(l, hand, r) == 1 && StagedRight(l, r) && SlotRight(l.batches, req);
    var front := l.me.dma[req.buffer.value];
    assert front[..req.physical][..|req.caller|] == front[..|req.caller|];
  }

  lemma Finished(c: Config, l: Local, l': Local, w: nat, hand: set<nat>, r: nat)
    requires Inv(c, l, w, hand) && Kept(c, l, l', w, hand) && r < |l.requests| && l.requests[r].completed
    ensures r < |l'.requests| && l'.requests[r] == l.requests[r]
    ensures ResultOf(l'.batches, l.requests[r]) == ResultOf(l.batches, l.requests[r])
  {
    hide Shaped, OnePlace, BuffersRight, Open, Done, BatchRight, SlotsApart, CountersRight;
    assert SameRequest(l.requests[r], l'.requests[r]) && SlotRight(l.batches, l.requests[r]);
    assert SameSlots(l.batches[l.requests[r].batch], l'.batches[l.requests[r].batch]);
  }
}
