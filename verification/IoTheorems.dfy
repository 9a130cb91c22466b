/**
 * What the I/O engine promises over every run: each accepted request is in one place and completes at most
 * once, no buffer idles while work waits, and buffers go out in arrival order.
 */
module IoTheorems {
  import opened Basics
  import opened SpdkBufferPools
  import opened IoEngine
  import opened IoInvariant
  import opened IoCallbacks
  import opened IoDelivery
  import opened IoMachine
  import Ownership
  import Segments

  // ----- submission ------------------------------------------------------------------------------

  /** The requests of one new batch, appended to the engine's. */
  ghost predicate NewBatch(c: Config, l: Local, fresh': seq<Request>) {
    forall i | 0 <= i < |fresh'| ::
      && fresh'[i].batch == |l.batches| && fresh'[i].index == i && fresh'[i].buffer.None? && !fresh'[i].completed
      && |fresh'[i].caller| <= fresh'[i].physical <= c.segment
  }

  function Grown(l: Local, more: seq<Request>): Local {
    l.(requests := l.requests + more,
       batches := l.batches + [Batch(|more|, seq(|more|, _ => None), 0)],
       io := l.io.(submitted := l.io.submitted + |more|))
  }

  lemma GrownLedger(c: Config, l: Local, more: seq<Request>)
    requires Shaped(c, l) && Ledger(c, l) && NewBatch(c, l, more) && more != []
    ensures Ledger(c, Grown(l, more))
  {
    var l', n := Grown(l, more), |l.requests|;
    assert Done(l'.requests) == Done(l.requests);
    GrownWon(c, l, more);
    forall b | 0 <= b < |l'.batches| ensures BatchRight(l'.requests, l'.batches[b], b) {
      if b < |l.batches| {
        GrownOpen(c, l, more, b);
        assert BatchRight(l.requests, l.batches[b], b);
      } else {
        NewOpen(c, l, more);
      }
    }
    forall r | 0 <= r < |l'.requests| ensures SlotRight(l'.batches, l'.requests[r]) {
      if r < n { assert SlotRight(l.batches, l.requests[r]); }
    }
    GrownSlots(c, l, more);
  }

  lemma GrownWon(c: Config, l: Local, more: seq<Request>)
    requires Shaped(c, l) && NewBatch(c, l, more)
    ensures Won(Grown(l, more).requests, Grown(l, more).batches) == Won(l.requests, l.batches)
  {
    var l', n := Grown(l, more), |l.requests|;
    forall r: nat | r < |l'.requests|
      ensures r < n ==> ResultOf(l'.batches, l'.requests[r]) == ResultOf(l.batches, l.requests[r])
      ensures n <= r ==> ResultOf(l'.batches, l'.requests[r]) == None
    {
      if r < n { assert RequestShaped(c, l.batches, l.requests[r]); }
    }
  }

  lemma GrownSlots(c: Config, l: Local, more: seq<Request>)
    requires Shaped(c, l) && SlotsApart(l.requests) && NewBatch(c, l, more)
    ensures SlotsApart(Grown(l, more).requests)
  {
    var n := |l.requests|;
    assert forall r | 0 <= r < n :: RequestShaped(c, l.batches, l.requests[r]);
  }

  lemma GrownOpen(c: Config, l: Local, more: seq<Request>, b: nat)
    requires NewBatch(c, l, more) && b < |l.batches|
    ensures Open(l.requests + more, b) == Open(l.requests, b)
  {}

  lemma NewOpen(c: Config, l: Local, more: seq<Request>)
    requires Shaped(c, l) && NewBatch(c, l, more)
    ensures |Open(l.requests + more, |l.batches|)| == |more|
  {
    var n, all := |l.requests|, l.requests + more;
    forall r: nat ensures r in Open(all, |l.batches|) <==> r in Range(n, |more|) {
      if r < n { assert RequestShaped(c, l.batches, l.requests[r]); }
    }
    assert Open(all, |l.batches|) == Range(n, |more|);
    RangeSize(n, |more|);
  }

  /** Request r is one of the new ones, numbered from n, and goes to worker v. */
  predicate NewFor(n: nat, more: seq<Request>, v: nat, r: nat) {
    n <= r < n + |more| && more[r - n].worker == v
  }

  /** A new batch's requests are on their way to their workers; nothing else moves. */
  lemma GrownAtRest(c: Config, l: Local, more: seq<Request>, v: nat, hand: set<nat>, hand': set<nat>)
    requires AtRest(c, l, v, hand) && NewBatch(c, l, more) && more != []
    requires forall r: nat :: r in hand' <==> r in hand || NewFor(|l.requests|, more, v, r)
    ensures AtRest(c, Grown(l, more), v, hand')
  {
    hide Ledger, Ownership.Staged;
    var l', n := Grown(l, more), |l.requests|;
    GrownLedger(c, l, more);
    forall r: nat | r in hand || r in l.me.pending || r in l.me.inFlight || r in l.me.waiting
      ensures r < n && IsOf(l, v, r) && IsOf(l', v, r)
    {
      assert IsOf(l, v, r);
    }
    forall r | 0 <= r < |l'.requests| && l'.requests[r].worker == v ensures Places(l', hand', r) == 1 {
      if r < n { assert Places(l, hand, r) == 1; }
    }
    GrownBuffers(l, l', v);
    GrownShaped(c, l, more);
  }

  lemma GrownShaped(c: Config, l: Local, more: seq<Request>)
    requires Shaped(c, l) && NewBatch(c, l, more)
    ensures Shaped(c, Grown(l, more))
  {
    var l' := Grown(l, more);
    forall r | 0 <= r < |l'.requests| ensures RequestShaped(c, l'.batches, l'.requests[r]) {
      if r < |l.requests| { assert RequestShaped(c, l.batches, l.requests[r]); }
    }
  }

  lemma GrownBuffers(l: Local, l': Local, v: nat)
    requires BuffersRight(l, v) && l'.me == l.me && |l.requests| <= |l'.requests|
    requires forall r | r in l.me.inFlight :: r < |l.requests|
    requires forall r | 0 <= r < |l.requests| :: l'.requests[r] == l.requests[r]
    requires forall r | |l.requests| <= r < |l'.requests| :: l'.requests[r].buffer.None?
    ensures BuffersRight(l', v)
  {
    hide Ownership.Staged;
    if l.me.pool.initialized {
      forall d | 0 <= d < |l.me.pool.inUse| && l.me.pool.inUse[d] ensures IsHeld(l', d) {
        assert IsHeld(l, d);
        var r :| HeldBy(l, d, r);
        assert HeldBy(l', d, r);
      }
      forall r | r in l.me.inFlight ensures StagedRight(l', r) {
        assert StagedRight(l, r);
      }
    }
  }

  /** Round robin puts every request of a batch into exactly one message, to its own worker. */
  lemma MailOf(c: Config, s: Engine, operation: Operation, items: seq<Item>, first: nat, v: nat, r: nat)
    requires DispatchesRight(s) && v < |s.workers| && items != [] && ValidPrefix(c, items) == |items|
    ensures var s' := Submitting(c, s, operation, items, first);
            r in Undelivered(s', v) <==>
              r in Undelivered(s, v) || NewFor(|s.requests|, Built(|s.workers|, |s.batches|, operation, items, first), v, r)
  {
    hide ValidPrefix;
    var s' := Submitting(c, s, operation, items, first);
    if r in Undelivered(s, v) {
      OldMail(s, s', v, r);
    } else if NewFor(|s.requests|, Built(|s.workers|, |s.batches|, operation, items, first), v, r) {
      assert r in PartOf(|s.requests|, |items|, first, |s.workers|, v);
      assert Carries(s'.dispatches[|s.dispatches| + v], v, r);
    } else if r in Undelivered(s', v) {
      NewMail(c, s, operation, items, first, v, r);
    }
  }

  lemma OldMail(s: Engine, s': Engine, v: nat, r: nat)
    requires s.dispatches <= s'.dispatches && |s.requests| <= |s'.requests| && r in Undelivered(s, v)
    ensures r in Undelivered(s', v)
  {
    var d :| 0 <= d < |s.dispatches| && Carries(s.dispatches[d], v, r);
    assert Carries(s'.dispatches[d], v, r);
  }

  lemma NewMail(c: Config, s: Engine, operation: Operation, items: seq<Item>, first: nat, v: nat, r: nat)
    requires DispatchesRight(s) && v < |s.workers| && items != [] && ValidPrefix(c, items) == |items|
    requires r in Undelivered(Submitting(c, s, operation, items, first), v)
    ensures r in Undelivered(s, v) || NewFor(|s.requests|, Built(|s.workers|, |s.batches|, operation, items, first), v, r)
  {
    hide ValidPrefix, PartOf;
    var s', m := Submitting(c, s, operation, items, first), |s.dispatches|;
    var d :| 0 <= d < |s'.dispatches| && Carries(s'.dispatches[d], v, r);
    if d < m {
      assert s'.dispatches[d] == s.dispatches[d] && r in s.dispatches[d].requests;
      assert Carries(s.dispatches[d], v, r);
    } else {
      assert r in PartOf(|s.requests|, |items|, first, |s.workers|, d - m);
    }
  }

  lemma MailApart(c: Config, s: Engine, operation: Operation, items: seq<Item>, first: nat)
    requires DispatchesRight(s) && |s.workers| > 0 && items != [] && ValidPrefix(c, items) == |items|
    ensures DispatchesRight(Submitting(c, s, operation, items, first))
  {
    var s', n, m := Submitting(c, s, operation, items, first), |s.requests|, |s.dispatches|;
    forall d, r | 0 <= d < |s'.dispatches| && r in s'.dispatches[d].requests
      ensures r < |s'.requests| && (r < n <==> d < m) && (d >= m ==> (first + (r - n)) % |s.workers| == d - m)
    {
      if d >= m { assert r in PartOf(n, |items|, first, |s.workers|, d - m); }
    }
  }

  lemma SubmitStep(c: Config, s: Engine, operation: Operation, items: seq<Item>, first: nat)
    requires EngineInv(c, s) && Enabled(c, s, Submit(operation, items, first))
    ensures EngineInv(c, Next(c, s, Submit(operation, items, first)))
  {
    hide AtRest, Undelivered, DispatchesRight, StandingRight, Dispatches;
    var s' := Next(c, s, Submit(operation, items, first));
    if items != [] {
      if ValidPrefix(c, items) < |items| {
        SameMessages(s, s');
        forall v | 0 <= v < |s.workers| ensures AtRest(c, At(s', v), v, Undelivered(s', v)) {
          CountersOnly(c, At(s, v), At(s', v), v, Undelivered(s, v));
        }
      } else {
        MailApart(c, s, operation, items, first);
        forall v | 0 <= v < |s.workers| ensures AtRest(c, At(s', v), v, Undelivered(s', v)) {
          SubmitFor(c, s, operation, items, first, v);
        }
      }
    }
  }

  lemma SubmitFor(c: Config, s: Engine, operation: Operation, items: seq<Item>, first: nat, v: nat)
    requires |s.workers| > 0 && DispatchesRight(s) && v < |s.workers| && AtRest(c, At(s, v), v, Undelivered(s, v))
    requires items != [] && ValidPrefix(c, items) == |items|
    ensures var s' := Submitting(c, s, operation, items, first); AtRest(c, At(s', v), v, Undelivered(s', v))
  {
    hide AtRest, Undelivered, DispatchesRight, Dispatches;
    var s', more := Submitting(c, s, operation, items, first), Built(|s.workers|, |s.batches|, operation, items, first);
    assert NewBatch(c, At(s, v), more);
    forall r: nat ensures r in Undelivered(s', v) <==> r in Undelivered(s, v) || NewFor(|s.requests|, more, v, r) {
      MailOf(c, s, operation, items, first, v, r);
    }
    GrownAtRest(c, At(s, v), more, v, Undelivered(s, v), Undelivered(s', v));
    assert At(s', v) == Grown(At(s, v), more);
  }

  // ----- every run -------------------------------------------------------------------------------

  lemma EveryStep(c: Config, s: Engine, a: Action)
    requires EngineInv(c, s) && Enabled(c, s, a)
    ensures EngineInv(c, Next(c, s, a))
  {
    hide EngineInv, Enabled, Next;
    match a {
      case Submit(operation, items, first) => SubmitStep(c, s, operation, items, first);
      case Post(d, ok) => PostStep(c, s, d, ok);
      case Deliver(d) => DeliverStep(c, s, d);
      case DeviceFill(r, bytes) => FillStep(c, s, r, bytes);
      case Complete(r, ok) => CompleteStep(c, s, r, ok);
      case RetryNow(r) => RetryStep(c, s, r);
      case Stop(w) => StopStep(c, s, w);
      case Strand(w) => StrandStep(c, s, w);
      case Finish => FinishStep(c, s);
    }
  }

  lemma InitHolds(c: Config, s: Engine)
    requires Init(c, s)
    ensures EngineInv(c, s)
  {
    assert Open([], 0) == {} && Done([]) == {};
    forall w | 0 <= w < |s.workers| ensures AtRest(c, At(s, w), w, Undelivered(s, w)) && StandingRight(c, s.workers[w]) {
      FreshAtRest(c, s, w);
    }
    NothingLeased(c, s.workers);
    assert c.segment * 0 == 0;
  }

  lemma FreshAtRest(c: Config, s: Engine, w: nat)
    requires Init(c, s) && w < |s.workers|
    ensures AtRest(c, At(s, w), w, Undelivered(s, w)) && StandingRight(c, s.workers[w])
  {
    var m := s.workers[w];
    FreshSound(|m.pool.inUse|);
    assert Done([]) == {} && c.segment * 0 == 0;
    assert m.leases + m.pending == [];
  }

  lemma {:induction false} NothingLeased(c: Config, ws: seq<Worker>)
    requires forall w | 0 <= w < |ws| :: Fresh(c, ws[w])
    ensures SumLeased(ws) == 0
  {
    if ws == [] {
    } else {
      NothingLeased(c, ws[..|ws| - 1]);
    }
  }

  ghost predicate Runs(c: Config, s: Engine, actions: seq<Action>)
    decreases |actions|
  {
    actions == [] || (Enabled(c, s, actions[0]) && Runs(c, Next(c, s, actions[0]), actions[1..]))
  }

  ghost function End(c: Config, s: Engine, actions: seq<Action>): Engine
    requires Runs(c, s, actions)
    decreases |actions|
  {
    if actions == [] then s else End(c, Next(c, s, actions[0]), actions[1..])
  }

  ghost predicate Reachable(c: Config, s: Engine) {
    exists s0, actions :: Init(c, s0) && Runs(c, s0, actions) && End(c, s0, actions) == s
  }

  lemma {:induction false} RunKeepsInv(c: Config, s: Engine, actions: seq<Action>)
    requires EngineInv(c, s) && Runs(c, s, actions)
    ensures EngineInv(c, End(c, s, actions))
    decreases |actions|
  {
    hide EngineInv, Enabled, Next;
    if actions == [] {
    } else {
      EveryStep(c, s, actions[0]);
      RunKeepsInv(c, Next(c, s, actions[0]), actions[1..]);
    }
  }

  lemma ReachableInv(c: Config, s: Engine)
    requires Reachable(c, s)
    ensures EngineInv(c, s)
  {
    hide EngineInv, Init, Enabled, Next;
    var s0, actions :| Init(c, s0) && Runs(c, s0, actions) && End(c, s0, actions) == s;
    InitHolds(c, s0);
    RunKeepsInv(c, s0, actions);
  }

  // ----- the promises ----------------------------------------------------------------------------

  /** In which of the five places request r is, counted. */
  ghost function PlacesOf(s: Engine, r: nat): nat
    requires r < |s.requests| && s.requests[r].worker < |s.workers|
  {
    var w := s.requests[r].worker;
    Count(IsUndelivered(s.dispatches, w, r)) + Count(r in s.workers[w].pending) + Count(r in s.workers[w].inFlight)
    + Count(r in s.workers[w].waiting) + Count(s.requests[r].completed)
  }

  /** Every accepted request is undelivered, parked, in flight, awaiting a retry or completed: exactly one of these. */
  lemma ExactlyOnePlace(c: Config, s: Engine, r: nat)
    requires Reachable(c, s) && r < |s.requests|
    ensures s.requests[r].worker < |s.workers| && PlacesOf(s, r) == 1
    ensures s.requests[r].buffer.Some? <==> r in s.workers[s.requests[r].worker].inFlight
  {
    hide Reachable, Ledger, LeasesRight, DispatchesRight, BooksRight, IsUndelivered, Shaped;
    ReachableInv(c, s);
    var w := s.requests[r].worker;
    Resting(c, s, w);
    assert Places(At(s, w), Undelivered(s, w), r) == 1;
  }

  /** While a worker's pool exists, no two requests share a buffer, and each holds its own bytes for the device. */
  lemma BuffersAreExclusive(c: Config, s: Engine, r: nat, r': nat)
    requires Reachable(c, s) && r < |s.requests| && r' < |s.requests| && r != r'
    requires s.requests[r].buffer.Some? && s.requests[r'].buffer == s.requests[r].buffer
    requires s.requests[r].worker == s.requests[r'].worker < |s.workers|
    ensures !s.workers[s.requests[r].worker].pool.initialized
  {
    hide Reachable, Ledger, OnePlace, DispatchesRight, BooksRight, Undelivered, Shaped, StagedRight;
    ReachableInv(c, s);
    Resting(c, s, s.requests[r].worker);
    ExactlyOnePlace(c, s, r);
    ExactlyOnePlace(c, s, r');
  }

  /** A write in flight has its caller's bytes, zero-padded to whole pages, in the buffer the device reads. */
  lemma WritesAreStaged(c: Config, s: Engine, r: nat)
    requires Reachable(c, s) && r < |s.requests| && s.requests[r].operation.Write?
    requires s.requests[r].worker < |s.workers| && s.workers[s.requests[r].worker].pool.initialized
    requires r in s.workers[s.requests[r].worker].inFlight
    ensures var m, req := s.workers[s.requests[r].worker], s.requests[r];
            && req.buffer.Some? && req.buffer.value < |m.dma| && |req.caller| <= req.physical <= |m.dma[req.buffer.value]|
            && m.dma[req.buffer.value][..req.physical] == Ownership.Staged(req.caller, req.physical)
  {
    hide Reachable, Ledger, OnePlace, DispatchesRight, BooksRight, Undelivered, Shaped, Ownership.Staged;
    ReachableInv(c, s);
    Resting(c, s, s.requests[r].worker);
    assert StagedRight(At(s, s.requests[r].worker), r);
  }

  /**
   * Work conservation: if a running worker has parked requests, none of its buffers is free, and every one
   * of them is held by a request in flight, whose completion will drain the queue.
   */
  lemma NoIdleBuffer(c: Config, s: Engine, w: nat)
    requires Reachable(c, s) && w < |s.workers| && s.workers[w].pool.initialized && s.workers[w].pending != []
    ensures s.workers[w].pool.free == [] && s.workers[w].inFlight != {}
    ensures forall b | 0 <= b < |s.workers[w].pool.inUse| :: s.workers[w].pool.inUse[b] && IsHeld(At(s, w), b)
  {
    hide Reachable, Ledger, OnePlace, DispatchesRight, BooksRight, Undelivered, RequestShaped, StagedRight;
    ReachableInv(c, s);
    Resting(c, s, w);
    LeaseBounds(s.workers[w].pool);
    assert s.workers[w].pool.inUse[0];
    var r :| HeldBy(At(s, w), 0, r);
  }

  /** Buffers go out strictly in the order in which requests reached the worker; the parked queue is next in line. */
  lemma StrictArrivalOrder(c: Config, s: Engine, w: nat)
    requires Reachable(c, s) && w < |s.workers| && s.workers[w].pool.initialized
    ensures s.workers[w].arrivals == s.workers[w].leases + s.workers[w].pending
  {
    hide Reachable, Inv, DispatchesRight, BooksRight, Undelivered;
    ReachableInv(c, s);
    Resting(c, s, w);
  }

  /** A batch's counter is the number of its incomplete requests, and its waiter is woken exactly when there are none. */
  lemma WokenOnce(c: Config, s: Engine, b: nat)
    requires Reachable(c, s) && b < |s.batches|
    ensures s.batches[b].remaining == |Open(s.requests, b)|
    ensures s.batches[b].notified == if Open(s.requests, b) == {} then 1 else 0
    ensures forall r | 0 <= r < |s.requests| && s.requests[r].batch == b ::
              ResultOf(s.batches, s.requests[r]).Some? <==> s.requests[r].completed
  {
    hide Reachable, OnePlace, BuffersRight, DispatchesRight, BooksRight, Undelivered, RequestShaped, Open;
    ReachableInv(c, s);
    Resting(c, s, 0);
    assert BatchRight(s.requests, s.batches[b], b);
    forall r | 0 <= r < |s.requests| && s.requests[r].batch == b
      ensures ResultOf(s.batches, s.requests[r]).Some? <==> s.requests[r].completed
    {
      assert SlotRight(s.batches, s.requests[r]);
    }
    EmptySize(Open(s.requests, b));
  }

  lemma EmptySize<T>(a: set<T>)
    ensures |a| == 0 <==> a == {}
  {
    if a != {} { var x :| x in a; assert a == (a - {x}) + {x}; }
  }

  /** The metrics: what was submitted has completed, is outstanding, or belongs to an abandoned batch. */
  lemma CountersBalance(c: Config, s: Engine)
    requires Reachable(c, s)
    ensures s.io.submitted == s.io.completed + |Outstanding(s)| + s.leaked
    ensures s.io.succeeded + s.io.failed == s.io.completed
    ensures s.io.physicalBytes + s.io.unusedBytes == c.segment * s.io.accepted
    ensures 0 <= s.io.paddingBytes <= s.io.physicalBytes - s.io.logicalBytes && s.io.inUse <= s.io.peak
    ensures s.io.inUse == c.segment * (SumLeased(s.workers) + s.lost) && s.io.poolBytes == SumBytes(s.workers)
  {
    hide Reachable, OnePlace, BuffersRight, DispatchesRight, Undelivered, RequestShaped, BatchRight, SlotRight;
    ReachableInv(c, s);
    Resting(c, s, 0);
    Balance(c, s);
  }

  lemma Balance(c: Config, s: Engine)
    requires EngineInv(c, s)
    ensures s.io.submitted == s.io.completed + |Outstanding(s)| + s.leaked
  {
    hide OnePlace, BuffersRight, DispatchesRight, Undelivered, RequestShaped, BatchRight, SlotRight;
    Resting(c, s, 0);
    DoneOrOutstanding(s);
  }

  /**
   * A batch with an invalid item leaves the requests made before it counted as submitted for ever: the
   * metrics balance after a submission exactly when all its items are valid or the very first is not.
   */
  lemma SubmitBalancesIff(c: Config, s: Engine, operation: Operation, items: seq<Item>, first: nat)
    requires Reachable(c, s) && s.leaked == 0 && Enabled(c, s, Submit(operation, items, first))
    ensures var s' := Next(c, s, Submit(operation, items, first));
            s'.io.submitted == s'.io.completed + |Outstanding(s')|
            <==> ((forall i | 0 <= i < |items| :: ValidItem(c, items[i])) || !ValidItem(c, items[0]))
  {
    hide Reachable, EngineInv, Dispatches, Built, ValidItem, Outstanding;
    ReachableInv(c, s);
    EveryStep(c, s, Submit(operation, items, first));
    Balance(c, Next(c, s, Submit(operation, items, first)));
  }

  /** A connector's command on its caller's buffer, which may be null. */
  function ItemOf(buffer: Option<Bytes>, command: Segments.IoBatchItem): Item
    requires buffer.Some? ==> command.bufferOffset + command.logicalLength <= |buffer.value|
    requires 0 <= command.byteOffset && 0 <= command.physicalLength
  {
    Item(if buffer.None? then None
         else Some(buffer.value[command.bufferOffset..command.bufferOffset + command.logicalLength]),
         command.byteOffset, command.physicalLength)
  }

  /** Every command that the connector makes for an entry is valid, unless the caller's buffer is null. */
  lemma OnlyNullIsInvalid(c: Config, e: Segments.Entry, buffer: Option<Bytes>, q: nat)
    requires Ownership.EntryOk(c.Layout(), e) && q < |Segments.SegmentsOf(c.Layout(), e)|
    requires buffer.Some? ==> |buffer.value| == e.logicalSize
    ensures var command := Segments.SegmentsOf(c.Layout(), e)[q];
            && command.bufferOffset + command.logicalLength <= e.logicalSize
            && 0 <= command.byteOffset && 0 <= command.physicalLength
            && (ValidItem(c, ItemOf(buffer, command)) <==> buffer.Some?)
  {
    hide Ownership.EntryOk, Segments.SegmentsOf;
    Ownership.SegmentsAreCommands(c.Layout(), e);
    assert Ownership.CommandOf(c.Layout(), e, Segments.SegmentsOf(c.Layout(), e)[q]);
  }

  function Outstanding(s: Engine): set<nat> {
    set r | 0 <= r < |s.requests| && !s.requests[r].completed
  }

  lemma DoneOrOutstanding(s: Engine)
    ensures |Done(s.requests)| + |Outstanding(s)| == |s.requests|
  {
    RangeSize(0, |s.requests|);
    forall r: nat | r < |s.requests| ensures r in Range(0, |s.requests|) { assert InRange(0, |s.requests|, r); }
    assert Range(0, |s.requests|) == Done(s.requests) + Outstanding(s);
  }

  /** Until a worker stops, the bytes in use are those of leased buffers and fit in what was set aside. */
  lemma InUseFits(c: Config, s: Engine)
    requires Reachable(c, s) && s.lost == 0
    ensures 0 <= s.io.inUse == c.segment * SumLeased(s.workers) <= s.io.poolBytes
  {
    hide Reachable, Inv, DispatchesRight, Undelivered;
    ReachableInv(c, s);
    forall w | 0 <= w < |s.workers| ensures StandingRight(c, s.workers[w]) && s.workers[w].pool.Sound() {
      Resting(c, s, w);
    }
    SumsOrdered(c, s.workers);
  }

  lemma {:induction false} SumsOrdered(c: Config, ws: seq<Worker>)
    requires forall w | 0 <= w < |ws| :: StandingRight(c, ws[w]) && ws[w].pool.Sound()
    ensures 0 <= c.segment * SumLeased(ws) <= SumBytes(ws)
  {
    if ws == [] {
    } else {
      var m := ws[|ws| - 1];
      SumsOrdered(c, ws[..|ws| - 1]);
      LeaseBounds(m.pool);
      MulMonotone(c.segment, 0, m.pool.Leased());
      MulMonotone(c.segment, m.pool.Leased(), |m.pool.inUse|);
      var before := SumLeased(ws[..|ws| - 1]);
      assert c.segment * (before + m.pool.Leased()) == c.segment * before + c.segment * m.pool.Leased();
    }
  }

  // ----- progress --------------------------------------------------------------------------------

  /** An incomplete request always has a callback or a message coming, unless its worker was stopped under it. */
  lemma NoLostWork(c: Config, s: Engine, r: nat)
    requires Reachable(c, s) && r < |s.requests| && !s.requests[r].completed
    ensures s.requests[r].worker < |s.workers|
    ensures var m := s.workers[s.requests[r].worker];
            || (exists d: nat :: Enabled(c, s, Post(d, true)) && r in s.dispatches[d].requests)
            || (exists d: nat :: Enabled(c, s, Deliver(d)) && r in s.dispatches[d].requests)
            || Enabled(c, s, Complete(r, true)) || Enabled(c, s, RetryNow(r))
            || (r in m.pending && m.pool.initialized && exists q: nat :: q in m.inFlight && Enabled(c, s, Complete(q, true)))
            || (r in m.pending && !m.pool.initialized)
  {
    hide Reachable, Ledger, BuffersRight, BooksRight, RequestShaped;
    ReachableInv(c, s);
    ExactlyOnePlace(c, s, r);
    var w := s.requests[r].worker;
    Resting(c, s, w);
    if IsUndelivered(s.dispatches, w, r) {
      var d :| 0 <= d < |s.dispatches| && Carries(s.dispatches[d], w, r);
      assert forall i | 0 <= i < |s.dispatches[d].requests| :: s.dispatches[d].requests[i] in s.dispatches[d].requests;
      assert Addressed(c, s, d);
      assert Enabled(c, s, Post(d, true)) || Enabled(c, s, Deliver(d));
    } else if r in s.workers[w].pending && s.workers[w].pool.initialized {
      NoIdleBuffer(c, s, w);
      var q :| q in s.workers[w].inFlight;
      assert IsOf(At(s, w), w, q);
      assert Enabled(c, s, Complete(q, true));
    }
  }
}
