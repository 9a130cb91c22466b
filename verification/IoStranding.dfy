/**
 * Stopping a worker whose release message cannot be posted frees its pool but not its queue: parked requests
 * never complete and their submitter waits forever. This happens exactly when something is parked.
 */
module IoStranding {
  import opened IoEngine
  import opened IoInvariant
  import opened IoCallbacks
  import opened IoDelivery
  import opened IoMachine
  import opened IoTheorems

  /** Requests parked at a worker whose pool is gone. */
  ghost predicate Stranded(s: Engine, w: nat, r: nat) {
    && w < |s.workers| && !s.workers[w].pool.initialized && r in s.workers[w].pending && r < |s.requests|
    && s.requests[r].worker == w && !s.requests[r].completed
  }

  lemma ParkedIsOpen(c: Config, s: Engine, w: nat, r: nat)
    requires EngineInv(c, s) && w < |s.workers| && r in s.workers[w].pending
    ensures r < |s.requests| && s.requests[r].worker == w && !s.requests[r].completed
  {
    hide DispatchesRight, BooksRight, Ledger, BuffersRight, RequestShaped, StandingRight, Undelivered;
    assert AtRest(c, At(s, w), w, Undelivered(s, w));
    assert IsOf(At(s, w), w, r) && Places(At(s, w), Undelivered(s, w), r) == 1;
  }

  /** The abnormal stop strands a request if and only if one is parked; the orderly one never does. */
  lemma StrandsIffParked(c: Config, s: Engine, w: nat)
    requires EngineInv(c, s) && Enabled(c, s, Strand(w))
    ensures (exists r :: Stranded(Next(c, s, Strand(w)), w, r)) <==> s.workers[w].pending != []
    ensures !exists r :: Stranded(Next(c, s, Stop(w)), w, r)
    ensures DropPool(c, At(s, w)) == Shutdown(c, At(s, w)) <==> s.workers[w].pending == []
  {
    hide EngineInv, Shaped;
    if s.workers[w].pending != [] {
      var r := s.workers[w].pending[0];
      ParkedIsOpen(c, s, w, r);
      assert Stranded(Next(c, s, Strand(w)), w, r);
    }
  }

  // ----- once stranded, always stranded ----------------------------------------------------------

  lemma QuietDrain(c: Config, l: Local)
    requires Shaped(c, l) && !l.me.pool.initialized
    ensures Drain(c, l).me.pending == l.me.pending && Drain(c, l).me.pool == l.me.pool
  {
    hide RequestShaped;
  }

  lemma QuietExecute(c: Config, l: Local, r: nat)
    requires Shaped(c, l) && r < |l.requests| && !l.me.pool.initialized
    ensures Execute(c, l, r).me.pending == l.me.pending && Execute(c, l, r).me.pool == l.me.pool
  {
    hide RequestShaped, Drain;
    QuietDrain(c, CompleteRequest(c, ReleaseBuffer(c, l, r), r, false));
  }

  lemma {:induction false} QuietArrivals(c: Config, l: Local, rs: seq<nat>, n: nat)
    requires Shaped(c, l) && n <= |rs| && (forall i | 0 <= i < |rs| :: rs[i] < |l.requests|) && !l.me.pool.initialized
    ensures ArriveAll(c, l, rs, n).me.pending == l.me.pending && ArriveAll(c, l, rs, n).me.pool == l.me.pool
  {
    hide Shaped, Execute;
    if n == 0 {
    } else {
      QuietArrivals(c, l, rs, n - 1);
      var before := ArriveAll(c, l, rs, n - 1);
      Noted(c, before, before.(me := before.me.(arrivals := before.me.arrivals + [rs[n - 1]])));
      QuietExecute(c, before.(me := before.me.(arrivals := before.me.arrivals + [rs[n - 1]])), rs[n - 1]);
    }
  }

  lemma Noted(c: Config, l: Local, l': Local)
    requires Shaped(c, l) && l'.requests == l.requests && l'.batches == l.batches
    requires l'.me.pending == l.me.pending && l'.me.pool == l.me.pool && l'.me.dma == l.me.dma
    ensures Shaped(c, l')
  {
    hide RequestShaped;
  }

  lemma QuietRetry(c: Config, l: Local, r: nat)
    requires Shaped(c, l) && r < |l.requests| && !l.me.pool.initialized
    ensures Retry(c, l, r).me.pending == l.me.pending && Retry(c, l, r).me.pool == l.me.pool
  {
    hide Shaped, Execute;
    var noted := l.(me := l.me.(waiting := l.me.waiting - {r}, arrivals := l.me.arrivals + [r]));
    Noted(c, l, noted);
    QuietExecute(c, noted, r);
  }

  lemma QuietCompletion(c: Config, l: Local, r: nat, ok: bool)
    requires Shaped(c, l) && r < |l.requests| && !l.me.pool.initialized
    ensures CompleteIo(c, l, r, ok).me.pending == l.me.pending && CompleteIo(c, l, r, ok).me.pool == l.me.pool
  {
    hide Shaped, Drain;
    var called := l.(me := l.me.(inFlight := l.me.inFlight - {r}));
    Noted(c, l, called);
    var result := ok && l.requests[r].operation.Write?;
    QuietDrain(c, CompleteRequest(c, ReleaseBuffer(c, called, r), r, result));
  }

  lemma PendingStays(c: Config, s: Engine, w: nat, a: Action)
    requires EngineInv(c, s) && w < |s.workers| && !s.workers[w].pool.initialized && Enabled(c, s, a)
    ensures |Next(c, s, a).workers| == |s.workers|
    ensures Next(c, s, a).workers[w].pending == s.workers[w].pending && !Next(c, s, a).workers[w].pool.initialized
  {
    hide EngineInv, Shaped, Retry, CompleteIo, ArriveAll, FailAll, Fill, Shutdown, DropPool, Submitting;
    match a {
      case Submit(operation, items, first) => SubmitMovesNobody(c, s, operation, items, first);
      case Post(d, ok) =>
      case Deliver(d) =>
        if s.dispatches[d].worker == w {
          QuietArrivals(c, At(s, w), s.dispatches[d].requests, |s.dispatches[d].requests|);
        }
      case DeviceFill(r, bytes) =>
      case Complete(r, ok) => if s.requests[r].worker == w { QuietCompletion(c, At(s, w), r, ok); }
      case RetryNow(r) => if s.requests[r].worker == w { QuietRetry(c, At(s, w), r); }
      case Stop(v) =>
      case Strand(v) =>
      case Finish =>
    }
  }

  lemma SubmitMovesNobody(c: Config, s: Engine, operation: Operation, items: seq<Item>, first: nat)
    requires |s.workers| > 0
    ensures Submitting(c, s, operation, items, first).workers == s.workers
  {}

  /** No message, completion, retry or later stop ever completes a stranded request. */
  lemma StrandedForever(c: Config, s: Engine, w: nat, r: nat, a: Action)
    requires EngineInv(c, s) && Stranded(s, w, r) && Enabled(c, s, a)
    ensures Stranded(Next(c, s, a), w, r)
  {
    hide EngineInv, Enabled, Next;
    EveryStep(c, s, a);
    PendingStays(c, s, w, a);
    ParkedIsOpen(c, Next(c, s, a), w, r);
  }

  /** Its batch's waiter is therefore never woken. */
  lemma StrandedWaiterSleeps(c: Config, s: Engine, w: nat, r: nat)
    requires Reachable(c, s) && Stranded(s, w, r)
    ensures s.requests[r].batch < |s.batches| && s.batches[s.requests[r].batch].notified == 0
  {
    hide EngineInv, Reachable;
    ReachableInv(c, s);
    BatchExists(c, s, w, r);
    WokenOnce(c, s, s.requests[r].batch);
    assert r in Open(s.requests, s.requests[r].batch);
  }

  lemma BatchExists(c: Config, s: Engine, w: nat, r: nat)
    requires EngineInv(c, s) && w < |s.workers| && r < |s.requests|
    ensures s.requests[r].batch < |s.batches|
  {
    hide DispatchesRight, BooksRight, OnePlace, BuffersRight, StandingRight, Undelivered;
    assert AtRest(c, At(s, w), w, Undelivered(s, w));
    assert SlotRight(s.batches, s.requests[r]);
  }
}
