/**
 * What a submitter is told: which result every request's slot holds, over every run. A slot says success exactly
 * when the device completed the command so and, for a read, the worker still had the buffer to copy from.
 */
module IoResults {
  import opened Basics
  import opened SpdkBufferPools
  import opened IoEngine
  import opened IoInvariant
  import opened IoCallbacks
  import opened IoDelivery
  import opened IoMachine
  import opened IoTheorems

  // ----- one callback ----------------------------------------------------------------------------

  // Written slots stay, so what was won stays won; without a new success counted there is none.
  lemma WonGrows(c: Config, l: Local, l': Local, w: nat)
    requires Shaped(c, l) && Ledger(c, l) && Ledger(c, l') && OnlyOwn(l, l', w)
    ensures forall r: nat | r < |l.requests| && ResultOf(l.batches, l.requests[r]).Some? ::
              ResultOf(l'.batches, l'.requests[r]) == ResultOf(l.batches, l.requests[r])
    ensures Won(l.requests, l.batches) <= Won(l'.requests, l'.batches)
    ensures l'.io.succeeded == l.io.succeeded ==> Won(l'.requests, l'.batches) == Won(l.requests, l.batches)
  {
    hide Open, Done, BatchRight, SlotsApart, CountersRight;
    forall r: nat | r < |l.requests| && ResultOf(l.batches, l.requests[r]).Some?
      ensures ResultOf(l'.batches, l'.requests[r]) == ResultOf(l.batches, l.requests[r])
    {
      assert SameRequest(l.requests[r], l'.requests[r]);
      assert SameSlots(l.batches[l.requests[r].batch], l'.batches[l.requests[r].batch]);
    }
    if l'.io.succeeded == l.io.succeeded {
      SameSizeSubset(Won(l.requests, l.batches), Won(l'.requests, l'.batches));
    }
  }

  lemma LedgerOf(c: Config, l: Local, w: nat, hand: set<nat>)
    requires Inv(c, l, w, hand)
    ensures Shaped(c, l) && Ledger(c, l)
  {}

  lemma KeptOwn(c: Config, l: Local, l': Local, w: nat, hand: set<nat>)
    requires Kept(c, l, l', w, hand)
    ensures Inv(c, l', w, hand) && OnlyOwn(l, l', w)
  {}

  lemma TakenBackSlots(c: Config, l: Local, r: nat, copy: bool)
    requires Shaped(c, l) && r < |l.requests| && (copy ==> Readable(l, r))
    ensures var back := TakenBack(c, l, r, copy);
            && back.batches == l.batches && |back.requests| == |l.requests|
            && Won(back.requests, back.batches) == Won(l.requests, l.batches)
            && back.requests[r].completed == l.requests[r].completed
            && back.requests[r].batch == l.requests[r].batch && back.requests[r].index == l.requests[r].index
  {
    hide Shaped;
    var back := TakenBack(c, l, r, copy);
    assert forall q: nat | q < |l.requests| :: ResultOf(back.batches, back.requests[q]) == ResultOf(l.batches, l.requests[q]);
  }

  /** What a completion with result ok tells the submitter. */
  predicate Succeeds(l: Local, r: nat, ok: bool)
    requires r < |l.requests|
  {
    ok && (l.requests[r].operation.Write? || l.me.pool.initialized)
  }

  /** A completion fills its request's slot with the device's result and no other slot with a success. */
  lemma CompleteIoTells(c: Config, l: Local, w: nat, hand: set<nat>, r: nat, ok: bool)
    requires AtRest(c, l, w, hand) && r in l.me.inFlight
    ensures Shaped(c, l) && r < |l.requests|
    ensures var l' := CompleteIo(c, l, r, ok);
            && |l'.requests| == |l.requests| && ResultOf(l.batches, l.requests[r]) == None
            && ResultOf(l'.batches, l'.requests[r]) == Some(Succeeds(l, r, ok))
            && Won(l'.requests, l'.batches) == Won(l.requests, l.batches) + if Succeeds(l, r, ok) then {r} else {}
  {
    hide Inv, Kept, Drain, CompleteRequest, ReleaseBuffer, CopyOut, Shaped, OnlyOwn, Won, ResultOf, TakenBack;
    SoundPool(c, l, w, hand);
    Flying(c, l, w, hand, r);
    LeaseOf(c, l, w, hand, r);
    var copy := ok && l.requests[r].operation.Read? && Readable(l, r);
    var result := ok && (l.requests[r].operation.Write? || copy);
    var back := TakenBack(c, l, r, copy);
    NotYetTold(c, l, w, hand, r);
    TakeBackKept(c, l, w, hand, r, copy);
    TakenBackSlots(c, l, r, copy);
    KeptParts(c, l, back, w, hand + {r});
    LedgerOf(c, back, w, hand + {r});
    WonAfter(c, back, r, result);
    CompleteKept(c, back, w, hand + {r}, r, result);
    assert hand + {r} - {r} == hand;
    var done := CompleteRequest(c, back, r, result);
    KeptParts(c, back, done, w, hand);
    KeptSelf(c, done, w, hand);
    DrainAfter(c, done, done, w, hand);
    KeptOwn(c, done, Drain(c, done), w, hand);
    LedgerOf(c, done, w, hand);
    LedgerOf(c, Drain(c, done), w, hand);
    WonGrows(c, done, Drain(c, done), w);
    CompleteIoIs(c, l, w, hand, r, ok, copy, result);
  }

  lemma NotYetTold(c: Config, l: Local, w: nat, hand: set<nat>, r: nat)
    requires Inv(c, l, w, hand) && r in l.me.inFlight && r < |l.requests|
    ensures !l.requests[r].completed && ResultOf(l.batches, l.requests[r]) == None
  {
    hide BuffersRight, Open, Done, BatchRight, SlotsApart, CountersRight;
    assert IsOf(l, w, r) && Places(l, hand, r) == 1 && SlotRight(l.batches, l.requests[r]);
  }

  lemma CompleteIoIs(c: Config, l: Local, w: nat, hand: set<nat>, r: nat, ok: bool, copy: bool, result: bool)
    requires Inv(c, l, w, hand) && Shaped(c, l) && r < |l.requests|
    requires copy == (ok && l.requests[r].operation.Read? && Readable(l, r))
    requires result == (ok && (l.requests[r].operation.Write? || copy))
    ensures CompleteIo(c, l, r, ok) == Drain(c, CompleteRequest(c, TakenBack(c, l, r, copy), r, result))
  {
    hide Inv, Drain, CompleteRequest, ReleaseBuffer, CopyOut, Shaped;
  }

  // ----- what SPDK's answer leads to -------------------------------------------------------------

  /** Where a request goes when it comes to its worker with no one parked before it. */
  ghost predicate Answered(c: Config, l: Local, l': Local, r: nat)
    requires r < |l'.requests|
  {
    if !l.me.pool.initialized then ResultOf(l'.batches, l'.requests[r]) == Some(false)
    else if l.me.pool.free == [] then r in l'.me.pending
    else
      match c.spdk(l.io.attempts)
      case Accepted => r in l'.me.inFlight
      case Refused => ResultOf(l'.batches, l'.requests[r]) == Some(false)
      case WaitRefused => ResultOf(l'.batches, l'.requests[r]) == Some(false)
      case _ => r in l'.me.waiting
  }

  // Failing a request in hand and then draining leaves its slot saying failure.
  lemma FailThenDrain(c: Config, l: Local, w: nat, hand: set<nat>, r: nat)
    requires Inv(c, l, w, hand) && r in hand && Fifo(l) && Shaped(c, l) && r < |l.requests|
    ensures var l' := Drain(c, CompleteRequest(c, l, r, false));
            |l'.requests| == |l.requests| && ResultOf(l'.batches, l'.requests[r]) == Some(false)
  {
    hide Inv, Kept, Drain, CompleteRequest, Shaped, OnlyOwn, Won, ResultOf;
    var done := CompleteRequest(c, l, r, false);
    OwnedBy(c, l, w, hand, r);
    LedgerOf(c, l, w, hand);
    WonAfter(c, l, r, false);
    CompleteKept(c, l, w, hand, r, false);
    KeptParts(c, l, done, w, hand - {r});
    KeptSelf(c, done, w, hand - {r});
    DrainAfter(c, done, done, w, hand - {r});
    KeptOwn(c, done, Drain(c, done), w, hand - {r});
    LedgerOf(c, done, w, hand - {r});
    LedgerOf(c, Drain(c, done), w, hand - {r});
    WonGrows(c, done, Drain(c, done), w);
    SameIdentity(done, Drain(c, done), w, r);
  }

  lemma SameIdentity(l: Local, l': Local, w: nat, r: nat)
    requires OnlyOwn(l, l', w) && r < |l.requests|
    ensures r < |l'.requests| && ResultOf(l'.batches, l'.requests[r]) == ResultOf(l'.batches, l.requests[r])
  {
    assert SameRequest(l.requests[r], l'.requests[r]);
  }

  /** A request whose turn it is goes to the device, waits for a retry, is parked, or fails, as SPDK answers. */
  lemma ExecuteAnswers(c: Config, l: Local, w: nat, hand: set<nat>, r: nat)
    requires Inv(c, l, w, hand) && r in hand && NextInLine(l, r) && !l.me.draining && Conserving(l)
    ensures Shaped(c, l) && r < |l.requests| && Answered(c, l, Execute(c, l, r), r)
  {
    hide Inv, Kept, Drain, Lease, CompleteRequest, ReleaseBuffer, Submitted, Shaped, ResultOf;
    InHand(c, l, w, hand, r);
    if !l.me.pool.initialized {
      NothingHeld(c, l, w, hand, r);
      FailThenDrain(c, l, w, hand, r);
    } else if l.me.pool.free != [] {
      match c.spdk(l.io.attempts) {
        case Accepted => SubmittedFlies(c, Lease(c, l, r), r);
        case Refused =>
          var back := ReleaseBuffer(c, Lease(c, l, r), r);
          BounceKept(c, l, back, w, hand, r);
          KeptParts(c, l, back, w, hand);
          FailThenDrain(c, back, w, hand, r);
        case WaitRefused =>
          var back := CountRetry(ReleaseBuffer(c, Lease(c, l, r), r));
          BounceKept(c, l, back, w, hand, r);
          KeptParts(c, l, back, w, hand);
          FailThenDrain(c, back, w, hand, r);
        case _ =>
      }
    }
  }

  lemma SubmittedFlies(c: Config, l: Local, r: nat)
    requires Shaped(c, l) && r < |l.requests|
    ensures r in Submitted(c, l, r).me.inFlight
  {
    hide Shaped;
  }

  // A callback that counts no success leaves the set of winners as it is.
  lemma NoneWon(c: Config, s: Engine, s': Engine, w: nat, l': Local)
    requires EngineInv(c, s) && w < |s.workers| && OnlyOwn(At(s, w), l', w) && Ledger(c, l')
    requires s'.requests == l'.requests && s'.batches == l'.batches && l'.io.succeeded == s.io.succeeded
    ensures Told(s, s', {})
  {
    hide Undelivered, Inv, OnlyOwn, Ledger, Shaped, Won, ResultOf;
    Resting(c, s, w);
    LedgerOf(c, At(s, w), w, Undelivered(s, w));
    WonGrows(c, At(s, w), l', w);
    OwnLength(At(s, w), l', w);
  }

  // ----- every step ------------------------------------------------------------------------------

  function SlotOf(s: Engine, r: nat): Option<bool>
    requires r < |s.requests|
  {
    ResultOf(s.batches, s.requests[r])
  }

  /** No filled slot changes, and exactly the given requests win. */
  ghost predicate Told(s: Engine, s': Engine, winners: set<nat>) {
    && |s.requests| <= |s'.requests|
    && (forall r: nat | r < |s.requests| && SlotOf(s, r).Some? :: SlotOf(s', r) == SlotOf(s, r))
    && Won(s'.requests, s'.batches) == Won(s.requests, s.batches) + winners
  }

  /** The request that a step lets succeed, if any. */
  ghost function WinnerOf(c: Config, s: Engine, a: Action): set<nat>
    requires Enabled(c, s, a)
  {
    if a.Complete? && Succeeds(At(s, s.requests[a.request].worker), a.request, a.ok) then {a.request} else {}
  }

  lemma SubmitTells(c: Config, s: Engine, operation: Operation, items: seq<Item>, first: nat)
    requires EngineInv(c, s) && Enabled(c, s, Submit(operation, items, first))
    ensures Told(s, Next(c, s, Submit(operation, items, first)), {})
  {
    hide AtRest, Undelivered, DispatchesRight, StandingRight, Dispatches, ValidPrefix, Won, BooksRight;
    Resting(c, s, 0);
    var s' := Next(c, s, Submit(operation, items, first));
    if items != [] && ValidPrefix(c, items) == |items| {
      var more := Built(|s.workers|, |s.batches|, operation, items, first);
      BuiltIsNew(c, s, operation, items, first);
      GrownWon(c, At(s, 0), more);
      forall r: nat | r < |s.requests| ensures SlotOf(s', r) == SlotOf(s, r) {
        assert RequestShaped(c, s.batches, s.requests[r]);
      }
    }
  }

  lemma BuiltIsNew(c: Config, s: Engine, operation: Operation, items: seq<Item>, first: nat)
    requires |s.workers| > 0 && ValidPrefix(c, items) == |items|
    ensures NewBatch(c, At(s, 0), Built(|s.workers|, |s.batches|, operation, items, first))
  {}

  lemma PostTells(c: Config, s: Engine, d: nat, ok: bool)
    requires EngineInv(c, s) && Enabled(c, s, Post(d, ok))
    ensures Told(s, Next(c, s, Post(d, ok)), {})
    ensures !ok ==> forall i | 0 <= i < |s.dispatches[d].requests| ::
              var r := s.dispatches[d].requests[i]; r < |s.requests| && SlotOf(Next(c, s, Post(d, ok)), r) == Some(false)
  {
    hide Undelivered, Inv, FailAll, Shaped, OnlyOwn, Won, Share, BooksRight, StandingRight, Told;
    var s', w, rs := Next(c, s, Post(d, ok)), s.dispatches[d].worker, s.dispatches[d].requests;
    if ok {
      Unchanged(s, s');
    } else {
      var l' := FailAll(c, At(s, w), rs, |rs|);
      MessageGone(s, s', d);
      Resting(c, s, w);
      FailAllKeeps(c, At(s, w), w, Undelivered(s, w), rs, |rs|);
      LedgerOf(c, l', w, Undelivered(s, w) - FirstOf(rs, |rs|));
      NoneWon(c, s, s', w, l');
      forall i | 0 <= i < |rs| ensures rs[i] < |s.requests| && SlotOf(s', rs[i]) == Some(false) {
        assert rs[i] in FirstOf(rs, |rs|);
        LeftHand(c, At(s, w), l', w, Undelivered(s, w), Undelivered(s, w) - FirstOf(rs, |rs|), rs[i]);
        LosesThen(c, s, s', w, rs[i], l', Undelivered(s, w) - FirstOf(rs, |rs|));
      }
    }
  }

  lemma Unchanged(s: Engine, s': Engine)
    requires s'.requests == s.requests && s'.batches == s.batches
    ensures Told(s, s', {})
  {}

  // A request that left the worker's hand, while nothing else of the worker changed, has completed.
  lemma LeftHand(c: Config, l: Local, l': Local, w: nat, hand: set<nat>, hand': set<nat>, r: nat)
    requires Inv(c, l, w, hand) && Inv(c, l', w, hand') && OnlyOwn(l, l', w) && l'.me == l.me
    requires r in hand && r !in hand'
    ensures r < |l.requests| == |l'.requests| && !l.requests[r].completed && l'.requests[r].completed
  {
    hide Ledger, BuffersRight, Shaped;
    assert IsOf(l, w, r) && Places(l, hand, r) == 1;
    assert SameRequest(l.requests[r], l'.requests[r]);
    assert Places(l', hand', r) == 1;
  }

  lemma OnlyTwo(o: Option<bool>)
    ensures o == None || o == Some(true) || o == Some(false)
  {
    match o {
      case None =>
      case Some(x) => if x { assert o == Some(true); } else { assert o == Some(false); }
    }
  }

  // A request that completes in a step without winners has failed.
  lemma LosesThen(c: Config, s: Engine, s': Engine, w: nat, r: nat, l': Local, hand': set<nat>)
    requires EngineInv(c, s) && Told(s, s', {}) && w < |s.workers| && r < |s.requests| && !s.requests[r].completed
    requires l' == Local(l'.me, s'.requests, s'.batches, l'.io) && Inv(c, l', w, hand') && s'.requests[r].completed
    ensures SlotOf(s', r) == Some(false)
  {
    hide Undelivered, BuffersRight, OnePlace, Open, Done, BatchRight, SlotsApart, CountersRight, Shaped;
    Resting(c, s, w);
    assert SlotRight(s.batches, s.requests[r]) && SlotRight(s'.batches, s'.requests[r]);
    assert r !in Won(s.requests, s.batches);
    OnlyTwo(SlotOf(s', r));
    assert SlotOf(s', r) == Some(true) <==> r in Won(s'.requests, s'.batches);
  }

  lemma CallbackTells(c: Config, s: Engine, s': Engine, w: nat, l': Local, hand: set<nat>)
    requires EngineInv(c, s) && w < |s.workers| && Kept(c, At(s, w), l', w, hand)
    requires s'.requests == l'.requests && s'.batches == l'.batches && l'.io.succeeded == s.io.succeeded
    ensures Told(s, s', {})
  {
    hide EngineInv, Kept, Inv, OnlyOwn, Ledger, Told, Shaped;
    KeptOwn(c, At(s, w), l', w, hand);
    LedgerOf(c, l', w, hand);
    NoneWon(c, s, s', w, l');
  }

  lemma DeliverTells(c: Config, s: Engine, d: nat)
    requires EngineInv(c, s) && Enabled(c, s, Deliver(d))
    ensures Told(s, Next(c, s, Deliver(d)), {})
  {
    hide AtRest, Kept, Undelivered, ArriveAll, Shaped, BooksRight, StandingRight, Told;
    var s', w, rs := Next(c, s, Deliver(d)), s.dispatches[d].worker, s.dispatches[d].requests;
    MessageGone(s, SetStage(s, d, Gone), d);
    Resting(c, s, w);
    ArriveAllKeeps(c, At(s, w), w, Undelivered(s, w), rs, |rs|);
    CallbackTells(c, s, s', w, ArriveAll(c, At(s, w), rs, |rs|), Undelivered(s, w) - FirstOf(rs, |rs|));
  }

  lemma RetryTells(c: Config, s: Engine, r: nat)
    requires EngineInv(c, s) && Enabled(c, s, RetryNow(r))
    ensures Told(s, Next(c, s, RetryNow(r)), {})
  {
    hide EngineInv, AtRest, Kept, Undelivered, Retry, Shaped, Told;
    var w := s.requests[r].worker;
    Resting(c, s, w);
    RetryKeeps(c, At(s, w), w, Undelivered(s, w), r);
    CallbackTells(c, s, Next(c, s, RetryNow(r)), w, Retry(c, At(s, w), r), Undelivered(s, w));
  }

  lemma FillTells(c: Config, s: Engine, r: nat, bytes: Bytes)
    requires EngineInv(c, s) && Enabled(c, s, DeviceFill(r, bytes))
    ensures Told(s, Next(c, s, DeviceFill(r, bytes)), {})
  {
    hide EngineInv, AtRest, Kept, Undelivered, Fill, Shaped, Told;
    var w := s.requests[r].worker;
    Resting(c, s, w);
    FillKeeps(c, At(s, w), w, Undelivered(s, w), r, bytes);
    CallbackTells(c, s, Next(c, s, DeviceFill(r, bytes)), w, Fill(c, At(s, w), r, bytes), Undelivered(s, w));
  }

  lemma CompleteTells(c: Config, s: Engine, r: nat, ok: bool)
    requires EngineInv(c, s) && Enabled(c, s, Complete(r, ok))
    ensures var s' := Next(c, s, Complete(r, ok));
            && Told(s, s', WinnerOf(c, s, Complete(r, ok)))
            && r < |s'.requests| && SlotOf(s', r) == Some(Succeeds(At(s, s.requests[r].worker), r, ok))
  {
    hide EngineInv, Inv, Kept, Undelivered, CompleteIo, Shaped, Won, Ledger, OnlyOwn;
    var w := s.requests[r].worker;
    Resting(c, s, w);
    CompleteIoTells(c, At(s, w), w, Undelivered(s, w), r, ok);
    CompleteIoKeeps(c, At(s, w), w, Undelivered(s, w), r, ok);
    var l' := CompleteIo(c, At(s, w), r, ok);
    KeptOwn(c, At(s, w), l', w, Undelivered(s, w));
    LedgerOf(c, At(s, w), w, Undelivered(s, w));
    LedgerOf(c, l', w, Undelivered(s, w));
    WonGrows(c, At(s, w), l', w);
  }

  lemma StopTells(c: Config, s: Engine, w: nat)
    requires EngineInv(c, s) && Enabled(c, s, Stop(w))
    ensures Told(s, Next(c, s, Stop(w)), {})
    ensures forall i | 0 <= i < |s.workers[w].pending| ::
              var r := s.workers[w].pending[i]; r < |s.requests| && SlotOf(Next(c, s, Stop(w)), r) == Some(false)
  {
    hide EngineInv, Inv, Undelivered, Shutdown, Shaped, OnlyOwn, Ledger, Told;
    var s', l', hand := Next(c, s, Stop(w)), Shutdown(c, At(s, w)), Undelivered(s, w);
    Resting(c, s, w);
    ShutdownKeeps(c, At(s, w), w, hand);
    LedgerOf(c, l', w, hand);
    NoneWon(c, s, s', w, l');
    forall i | 0 <= i < |s.workers[w].pending|
      ensures s.workers[w].pending[i] < |s.requests| && SlotOf(s', s.workers[w].pending[i]) == Some(false)
    {
      ParkedNow(c, At(s, w), w, hand, s.workers[w].pending[i]);
      LosesThen(c, s, s', w, s.workers[w].pending[i], l', hand);
    }
  }

  lemma ParkedNow(c: Config, l: Local, w: nat, hand: set<nat>, r: nat)
    requires Inv(c, l, w, hand) && r in l.me.pending
    ensures r < |l.requests| && !l.requests[r].completed
  {
    hide Ledger, BuffersRight, Shaped;
    assert IsOf(l, w, r) && Places(l, hand, r) == 1;
  }

  lemma StrandTells(c: Config, s: Engine, w: nat)
    requires EngineInv(c, s) && Enabled(c, s, Strand(w))
    ensures Told(s, Next(c, s, Strand(w)), {})
  {
    hide EngineInv, Shaped;
    Unchanged(s, Next(c, s, Strand(w)));
  }

  /** In every step filled slots stay, and exactly the request of a successful completion gains a success. */
  lemma EveryStepTells(c: Config, s: Engine, a: Action)
    requires EngineInv(c, s) && Enabled(c, s, a)
    ensures Told(s, Next(c, s, a), WinnerOf(c, s, a))
  {
    hide EngineInv, Enabled, Next, Told;
    match a {
      case Submit(operation, items, first) => SubmitTells(c, s, operation, items, first);
      case Post(d, ok) => PostTells(c, s, d, ok);
      case Deliver(d) => DeliverTells(c, s, d);
      case DeviceFill(r, bytes) => FillTells(c, s, r, bytes);
      case Complete(r, ok) => CompleteTells(c, s, r, ok);
      case RetryNow(r) => RetryTells(c, s, r);
      case Stop(w) => StopTells(c, s, w);
      case Strand(w) => StrandTells(c, s, w);
      case Finish => FinishTells(c, s);
    }
  }

  lemma FinishTells(c: Config, s: Engine)
    requires Enabled(c, s, Finish)
    ensures Told(s, Next(c, s, Finish), {})
  {
    Unchanged(s, Next(c, s, Finish));
  }

  // ----- over runs -------------------------------------------------------------------------------

  /** The run has a completion that lets request r succeed. */
  ghost predicate SucceedsIn(c: Config, s: Engine, actions: seq<Action>, r: nat)
    requires Runs(c, s, actions)
    decreases |actions|
  {
    actions != [] && (r in WinnerOf(c, s, actions[0]) || SucceedsIn(c, Next(c, s, actions[0]), actions[1..], r))
  }

  lemma {:induction false} RunTells(c: Config, s: Engine, actions: seq<Action>)
    requires EngineInv(c, s) && Runs(c, s, actions)
    ensures var t := End(c, s, actions);
            && |s.requests| <= |t.requests|
            && (forall r: nat | r < |s.requests| && SlotOf(s, r).Some? :: SlotOf(t, r) == SlotOf(s, r))
            && forall r: nat :: r in Won(t.requests, t.batches)
                 <==> r in Won(s.requests, s.batches) || SucceedsIn(c, s, actions, r)
    decreases |actions|
  {
    hide EngineInv, Enabled, Next, Won, WinnerOf;
    if actions == [] {
    } else {
      EveryStep(c, s, actions[0]);
      EveryStepTells(c, s, actions[0]);
      RunTells(c, Next(c, s, actions[0]), actions[1..]);
    }
  }

  /**
   * Over every run from the start: a request's slot says success exactly when the device completed it so, for a
   * read while its worker had its buffers; it says failure exactly when the request completed otherwise; and it
   * says nothing until the request has completed.
   */
  lemma SlotTells(c: Config, s0: Engine, actions: seq<Action>, r: nat)
    requires Init(c, s0) && Runs(c, s0, actions) && r < |End(c, s0, actions).requests|
    ensures var s := End(c, s0, actions);
            && (SlotOf(s, r) == Some(true) <==> SucceedsIn(c, s0, actions, r))
            && (SlotOf(s, r) == Some(false) <==> s.requests[r].completed && !SucceedsIn(c, s0, actions, r))
            && (SlotOf(s, r) == None <==> !s.requests[r].completed)
  {
    hide EngineInv, Enabled, Next, SucceedsIn, Init;
    InitHolds(c, s0);
    RunKeepsInv(c, s0, actions);
    RunTells(c, s0, actions);
    NoneAtFirst(c, s0);
    SlotsFollow(c, End(c, s0, actions), r);
    OnlyTwo(SlotOf(End(c, s0, actions), r));
  }

  lemma NoneAtFirst(c: Config, s: Engine)
    requires Init(c, s)
    ensures Won(s.requests, s.batches) == {}
  {}

  lemma SlotsFollow(c: Config, s: Engine, r: nat)
    requires EngineInv(c, s) && r < |s.requests|
    ensures SlotOf(s, r).Some? <==> s.requests[r].completed
  {
    hide Undelivered, BuffersRight, OnePlace, Open, Done, BatchRight, SlotsApart, CountersRight, Shaped, BooksRight;
    Resting(c, s, 0);
    assert SlotRight(s.batches, s.requests[r]);
  }

  /** A slot once filled says the same for ever. */
  lemma SlotStays(c: Config, s: Engine, actions: seq<Action>, r: nat)
    requires Reachable(c, s) && Runs(c, s, actions) && r < |s.requests| && SlotOf(s, r).Some?
    ensures r < |End(c, s, actions).requests| && SlotOf(End(c, s, actions), r) == SlotOf(s, r)
  {
    hide EngineInv, Reachable;
    ReachableInv(c, s);
    RunTells(c, s, actions);
  }

  /** The requests whose slot says failure. */
  function Failed(requests: seq<Request>, batches: seq<Batch>): set<nat> {
    set r | 0 <= r < |requests| && ResultOf(batches, requests[r]) == Some(false)
  }

  /** The metrics count the slots: succeeded those that say success, failed those that say failure. */
  lemma CountersTell(c: Config, s: Engine)
    requires Reachable(c, s)
    ensures s.io.succeeded == |Won(s.requests, s.batches)| && s.io.failed == |Failed(s.requests, s.batches)|
  {
    hide Reachable, EngineInv;
    ReachableInv(c, s);
    Counted(c, s);
    forall r: nat ensures r in Done(s.requests) <==> r in Won(s.requests, s.batches) || r in Failed(s.requests, s.batches) {
      if r < |s.requests| {
        SlotsFollow(c, s, r);
        OnlyTwo(SlotOf(s, r));
      }
    }
    assert Done(s.requests) == Won(s.requests, s.batches) + Failed(s.requests, s.batches);
    UnionSize(Won(s.requests, s.batches), Failed(s.requests, s.batches));
  }

  lemma Counted(c: Config, s: Engine)
    requires EngineInv(c, s)
    ensures s.io.succeeded == |Won(s.requests, s.batches)| && s.io.completed == |Done(s.requests)|
    ensures s.io.succeeded + s.io.failed == s.io.completed
  {
    hide Undelivered, BuffersRight, OnePlace, BatchRight, SlotRight, SlotsApart, Shaped, BooksRight, Won, Done;
    Resting(c, s, 0);
  }
}
