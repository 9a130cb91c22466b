/**
 * The engine as the program runs it: worker objects that change their queues in place, and the context they
 * share. Each method is proved to do what IoEngine says.
 */
module SpdkBdevContexts {
  import opened Basics
  import opened SpdkBufferPools
  import opened IoEngine
  import opened IoMachine
  import Ownership

  /** Stands for the worker in statements that concern no worker. */
  const NOBODY := Worker(EMPTY, [], 0, [], false, {}, {}, [], [])

  class SpdkBdevContext {
    const config: Config
    var requests: seq<Request>
    var batches: seq<Batch>
    var io: Counters
    var dispatches: seq<Dispatch>
    var nextIoWorker: nat

    constructor (config: Config)
      ensures this.config == config && requests == [] && batches == [] && dispatches == []
      ensures Valid()
    {
      this.config := config;
      requests, batches, dispatches := [], [], [];
      nextIoWorker := 0;
      io := Counters(0, 0, 0, 0, 0, 0, 0, 0, 0, 0, 0, 0, 0, 0);
    }

    /** Requests, batches and counters, as no worker's callback sees them. */
    function Books(): Local
      reads this
    {
      Local(NOBODY, requests, batches, io)
    }

    ghost predicate Valid()
      reads this
    {
      Shaped(config, Books())
    }

    /** The result slot is written and the batch's counter lowered, unless the request had completed already. */
    method CompleteRequest(r: nat, ok: bool)
      requires Valid() && r < |requests|
      modifies this
      ensures Valid() && Books() == IoEngine.CompleteRequest(config, old(Books()), r, ok)
      ensures dispatches == old(dispatches) && nextIoWorker == old(nextIoWorker)
    {
      ghost var before := Books();
      var request := requests[r];
      if request.completed { return; }
      assert RequestShaped(config, batches, request);
      requests := requests[r := request.(completed := true)];
      io := io.(completed := io.completed + 1);
      if ok {
        io := io.(succeeded := io.succeeded + 1);
      } else {
        io := io.(failed := io.failed + 1);
      }
      var batch := batches[request.batch];
      batch := batch.(results := batch.results[request.index := Some(ok)], remaining := batch.remaining - 1);
      if batch.remaining == 0 {
        batch := batch.(notified := batch.notified + 1);
      }
      batches := batches[request.batch := batch];
      assert Books() == IoEngine.CompleteRequest(config, before, r, ok);
    }

    /**
     * submit_batch_and_wait up to its first message: requests are made one by one and dealt out round robin,
     * and an invalid item abandons those made before it, which stay counted.
     */
    method BuildBatch(operation: Operation, items: seq<Item>, workerCount: nat) returns (accepted: bool)
      requires Valid() && workerCount > 0
      modifies this
      ensures Valid()
      ensures accepted <==> items != [] && ValidPrefix(config, items) == |items|
      ensures var first, valid := old(nextIoWorker) % workerCount, ValidPrefix(config, items);
              && io == old(io).(submitted := old(io).submitted + valid)
              && requests == old(requests)
                 + (if accepted then Built(workerCount, |old(batches)|, operation, items, first) else [])
              && batches == old(batches) + (if accepted then [Batch(|items|, seq(|items|, _ => None), 0)] else [])
              && dispatches == old(dispatches)
                 + (if accepted then Dispatches(|old(requests)|, workerCount, |items|, first) else [])
    {
      hide RequestShaped, ValidPrefix, PartOf;
      if items == [] { return false; }
      var first := nextIoWorker % workerCount;
      nextIoWorker := nextIoWorker + 1;
      var base, made := |requests|, [];
      NoneDealt(base, first, workerCount);
      var parts := seq(workerCount, _ => []);
      var index := 0;
      while index < |items|
        invariant 0 <= index <= |items| && index <= ValidPrefix(config, items)
        invariant made == Built(workerCount, |batches|, operation, items[..index], first)
        invariant |parts| == workerCount
        invariant forall w | 0 <= w < workerCount :: parts[w] == PartOf(base, index, first, workerCount, w)
        invariant io == old(io).(submitted := old(io).submitted + index)
        invariant requests == old(requests) && batches == old(batches) && dispatches == old(dispatches)
      {
        var item := items[index];
        if !ValidItem(config, item) {
          NotPastInvalid(config, items, index);
          return false;
        }
        PastValid(config, items, index);
        OneDealt(base, index, first, workerCount);
        var worker := (first + index) % workerCount;
        parts := parts[worker := parts[worker] + [base + index]];
        made := made + [Request(worker, |batches|, index, operation, item.byteOffset, item.physical, item.Data(), None, false, None)];
        io := io.(submitted := io.submitted + 1);
        index := index + 1;
        assert items[..index][..index - 1] == items[..index - 1];
      }
      assert items[..index] == items;
      Enlist(operation, items, workerCount, first, made, parts);
      return true;
    }

    /** The finished batch and its messages join those under way. */
    method Enlist(operation: Operation, items: seq<Item>, workerCount: nat, first: nat, made: seq<Request>, parts: seq<seq<nat>>)
      requires Valid() && workerCount > 0 && ValidPrefix(config, items) == |items| && |parts| == workerCount
      requires made == Built(workerCount, |batches|, operation, items, first)
      requires forall w | 0 <= w < workerCount :: parts[w] == PartOf(|requests|, |items|, first, workerCount, w)
      modifies this
      ensures Valid() && requests == old(requests) + made && io == old(io)
      ensures batches == old(batches) + [Batch(|items|, seq(|items|, _ => None), 0)]
      ensures dispatches == old(dispatches) + Dispatches(|old(requests)|, workerCount, |items|, first)
    {
      hide RequestShaped, ValidPrefix, PartOf;
      var messages := Addressed(parts);
      assert messages == Dispatches(|requests|, workerCount, |items|, first);
      requests := requests + made;
      batches := batches + [Batch(|items|, seq(|items|, _ => None), 0)];
      dispatches := dispatches + messages;
      BuiltShaped(config, old(Books()), workerCount, operation, items, first, Books());
    }

    static method Addressed(parts: seq<seq<nat>>) returns (messages: seq<Dispatch>)
      ensures |messages| == |parts|
      ensures forall w | 0 <= w < |parts| :: messages[w] == Dispatch(w, parts[w], if parts[w] == [] then Gone else Unsent)
    {
      messages := [];
      for w := 0 to |parts|
        invariant |messages| == w
        invariant forall v | 0 <= v < w :: messages[v] == Dispatch(v, parts[v], if parts[v] == [] then Gone else Unsent)
      {
        messages := messages + [Dispatch(w, parts[w], if parts[w] == [] then Gone else Unsent)];
      }
    }

    /** One message is sent, or its requests fail one after the other on the submitting thread. */
    method PostDispatch(d: nat, sent: bool)
      requires Valid() && d < |dispatches| && forall r | r in dispatches[d].requests :: r < |requests|
      modifies this
      ensures Valid()
      ensures dispatches == old(dispatches)[d := old(dispatches)[d].(stage := if sent then Sent else Gone)]
      ensures sent ==> Books() == old(Books())
      ensures !sent ==>
                && (forall i | 0 <= i < |old(dispatches)[d].requests| :: old(dispatches)[d].requests[i] < |old(requests)|)
                && Books() == FailAll(config, old(Books()), old(dispatches)[d].requests, |old(dispatches)[d].requests|)
    {
      hide RequestShaped, IoEngine.CompleteRequest, FailAll;
      var rs := dispatches[d].requests;
      assert forall i | 0 <= i < |rs| :: rs[i] in rs;
      if !sent {
        FailRequests(rs);
      }
      dispatches := dispatches[d := dispatches[d].(stage := if sent then Sent else Gone)];
    }

    method FailRequests(rs: seq<nat>)
      requires Valid() && forall i | 0 <= i < |rs| :: rs[i] < |requests|
      modifies this
      ensures Valid() && Books() == FailAll(config, old(Books()), rs, |rs|)
      ensures dispatches == old(dispatches) && nextIoWorker == old(nextIoWorker)
    {
      hide RequestShaped, IoEngine.CompleteRequest, FailAll;
      FailNone(config, Books(), rs);
      var i := 0;
      while i < |rs|
        invariant 0 <= i <= |rs| && Valid() && |requests| == old(|requests|)
        invariant Books() == FailAll(config, old(Books()), rs, i)
        invariant dispatches == old(dispatches) && nextIoWorker == old(nextIoWorker)
      {
        CompleteRequest(rs[i], false);
        FailOneMore(config, old(Books()), rs, i);
        i := i + 1;
      }
    }
  }

  lemma FailNone(c: Config, l: Local, rs: seq<nat>)
    requires Shaped(c, l) && forall i | 0 <= i < |rs| :: rs[i] < |l.requests|
    ensures FailAll(c, l, rs, 0) == l
  {}

  lemma FailOneMore(c: Config, l: Local, rs: seq<nat>, n: nat)
    requires Shaped(c, l) && n < |rs| && forall i | 0 <= i < |rs| :: rs[i] < |l.requests|
    ensures FailAll(c, l, rs, n + 1) == CompleteRequest(c, FailAll(c, l, rs, n), rs[n], false)
  {
    hide CompleteRequest, RequestShaped;
  }

  lemma NoneArrived(c: Config, l: Local, rs: seq<nat>)
    requires Shaped(c, l) && forall i | 0 <= i < |rs| :: rs[i] < |l.requests|
    ensures ArriveAll(c, l, rs, 0) == l
  {}

  lemma OneMoreArrives(c: Config, l: Local, rs: seq<nat>, n: nat)
    requires Shaped(c, l) && n < |rs| && forall i | 0 <= i < |rs| :: rs[i] < |l.requests|
    ensures ArriveAll(c, l, rs, n + 1) == Arrive(c, ArriveAll(c, l, rs, n), rs[n])
  {
    hide Arrive, RequestShaped;
  }

  lemma NoneDealt(base: nat, first: nat, workers: nat)
    requires workers > 0
    ensures forall w: nat :: PartOf(base, 0, first, workers, w) == []
  {}

  // The next request goes to one worker's part and leaves the others alone.
  lemma OneDealt(base: nat, count: nat, first: nat, workers: nat)
    requires workers > 0
    ensures forall w: nat :: PartOf(base, count + 1, first, workers, w) ==
              PartOf(base, count, first, workers, w) + (if (first + count) % workers == w then [base + count] else [])
  {
    assert first + (count + 1) - 1 == first + count;
  }

  lemma {:induction false} NotPastInvalid(c: Config, items: seq<Item>, i: nat)
    requires i < |items| && i <= ValidPrefix(c, items) && !ValidItem(c, items[i])
    ensures ValidPrefix(c, items) == i
  {}

  lemma PastValid(c: Config, items: seq<Item>, i: nat)
    requires i < |items| && i <= ValidPrefix(c, items) && ValidItem(c, items[i])
    ensures i < ValidPrefix(c, items)
  {}

  lemma BuiltShaped(c: Config, l: Local, workers: nat, operation: Operation, items: seq<Item>, first: nat, l': Local)
    requires Shaped(c, l) && workers > 0 && ValidPrefix(c, items) == |items| && l'.me == l.me
    requires l'.requests == l.requests + Built(workers, |l.batches|, operation, items, first)
    requires l'.batches == l.batches + [Batch(|items|, seq(|items|, _ => None), 0)]
    ensures Shaped(c, l')
  {
    forall r | 0 <= r < |l'.requests| ensures RequestShaped(c, l'.batches, l'.requests[r]) {
      if r < |l.requests| {
        assert RequestShaped(c, l.batches, l.requests[r]);
      } else {
        assert ValidItem(c, items[r - |l.requests|]);
      }
    }
  }

  class IoWorker {
    const context: SpdkBdevContext
    const pool: SpdkBufferPool
    var dma: seq<Bytes>
    var poolBytes: int
    var pending: seq<nat>
    var draining: bool
    ghost var inFlight: set<nat>
    ghost var waiting: set<nat>
    ghost var arrivals: seq<nat>
    ghost var leases: seq<nat>

    ghost function View(): Local
      reads this, pool, context
    {
      Local(Worker(pool.View(), dma, poolBytes, pending, draining, inFlight, waiting, arrivals, leases),
            context.requests, context.batches, context.io)
    }

    ghost function Config(): IoEngine.Config {
      context.config
    }

    ghost predicate Valid()
      reads this, pool, context
    {
      pool.Valid() && Shaped(context.config, View())
    }

    constructor (context: SpdkBdevContext, pool: SpdkBufferPool, dma: seq<Bytes>)
      requires context.Valid() && pool.Valid() && |dma| == |pool.inUse|
      requires forall b | 0 <= b < |dma| :: |dma[b]| == context.config.segment
      ensures Valid() && this.context == context && this.pool == pool && pending == [] && !draining
      ensures View() == Local(Worker(pool.View(), dma, context.config.segment * |dma|, [], false, {}, {}, [], []),
                              context.requests, context.batches, context.io)
    {
      this.context, this.pool, this.dma := context, pool, dma;
      poolBytes := context.config.segment * |dma|;
      pending, draining := [], false;
      inFlight, waiting, arrivals, leases := {}, {}, [], [];
    }

    method Complete(r: nat, ok: bool)
      requires Valid() && r < |context.requests|
      modifies context
      ensures Valid() && View() == CompleteRequest(Config(), old(View()), r, ok)
    {
      ghost var before := View();
      BooksShaped();
      context.CompleteRequest(r, ok);
      assert View() == CompleteRequest(Config(), before, r, ok);
    }

    lemma BooksShaped()
      requires Valid()
      ensures context.Valid()
    {}

    method ReleaseBuffer(r: nat)
      requires Valid() && r < |context.requests|
      modifies pool, context
      ensures Valid() && View() == IoEngine.ReleaseBuffer(Config(), old(View()), r)
    {
      ghost var before := View();
      var request := context.requests[r];
      if request.buffer.None? { return; }
      var failure := pool.Release(request.buffer.value);
      if failure.None? {
        context.io := context.io.(inUse := context.io.inUse - context.config.segment);
      }
      context.requests := context.requests[r := request.(buffer := None)];
      assert View() == IoEngine.ReleaseBuffer(Config(), before, r);
    }

    /** execute_io_on_worker. */
    method ExecuteIo(r: nat)
      requires Valid() && r < |context.requests|
      modifies this, pool, context
      ensures Valid() && View() == Execute(Config(), old(View()), r)
      decreases if draining then 0 else 1, |pending|, 3
    {
      hide RequestShaped, Drain, DrainLoop, IoEngine.CompleteRequest, IoEngine.ReleaseBuffer, Lease, Submitted, Grant;
      ghost var before := View();
      var buffer := pool.TryAcquire();
      if buffer.Err? {
        ReleaseBuffer(r);
        FailAndDrain(r);
        return;
      }
      if buffer.value.None? {
        pending := pending + [r];
        return;
      }
      var answer := LeaseAndSubmit(r, buffer.value.value, before);
      ActOnAnswer(r, answer);
    }

    /** SPDK accepted the request, asked for patience, or refused it. */
    method ActOnAnswer(r: nat, answer: Answer)
      requires Valid() && r < |context.requests|
      modifies this, pool, context
      ensures Valid()
      ensures View() ==
                match answer
                case Accepted => Submitted(Config(), old(View()), r)
                case Refused =>
                  Drain(Config(), CompleteRequest(Config(), IoEngine.ReleaseBuffer(Config(), old(View()), r), r, false))
                case WaitRefused =>
                  var back := CountRetry(IoEngine.ReleaseBuffer(Config(), old(View()), r));
                  Drain(Config(), CompleteRequest(Config(), back, r, false))
                case _ =>
                  var back := CountRetry(IoEngine.ReleaseBuffer(Config(), old(View()), r));
                  back.(me := back.me.(waiting := back.me.waiting + {r}))
      decreases if draining then 0 else 1, |pending|, 2
    {
      hide RequestShaped, Drain, DrainLoop, IoEngine.CompleteRequest, IoEngine.ReleaseBuffer, Submitted;
      match answer {
        case Accepted =>
          RecordSubmission(r);
        case Refused =>
          ReleaseBuffer(r);
          FailAndDrain(r);
        case WaitRefused =>
          ReleaseBuffer(r);
          NoteRetry();
          FailAndDrain(r);
        case _ =>
          ReleaseBuffer(r);
          NoteRetry();
          waiting := waiting + {r};
      }
    }

    method FailAndDrain(r: nat)
      requires Valid() && r < |context.requests|
      modifies this, pool, context
      ensures Valid() && View() == Drain(Config(), CompleteRequest(Config(), old(View()), r, false))
      decreases if draining then 0 else 1, |pending|, 1
    {
      hide Shaped, Drain, IoEngine.CompleteRequest;
      Complete(r, false);
      DrainPending();
    }

    method NoteRetry()
      requires Valid()
      modifies context
      ensures Valid() && View() == CountRetry(old(View()))
    {
      context.io := context.io.(retries := context.io.retries + 1);
    }

    /** The buffer just acquired is recorded, staged for a write, and submitted; SPDK answers. */
    method LeaseAndSubmit(r: nat, b: nat, ghost before: Local) returns (answer: Answer)
      requires r < |context.requests| && Shaped(Config(), before) && before.me.pool.free != [] && pool.Valid()
      requires b == Top(before.me.pool) && b < |before.me.pool.inUse| && pool.View() == Grant(before.me.pool)
      requires View() == before.(me := before.me.(pool := Grant(before.me.pool)))
      modifies this, context
      ensures Valid() && View() == Lease(Config(), before, r) && answer == Config().spdk(before.io.attempts)
    {
      GrantSound(before.me.pool);
      assert RequestShaped(Config(), before.batches, before.requests[r]);
      context.requests := context.requests[r := context.requests[r].(buffer := Some(b))];
      var inUse := context.io.inUse + context.config.segment;
      context.io := context.io.(inUse := inUse);
      if context.io.peak < inUse {
        context.io := context.io.(peak := inUse);
      }
      var request := context.requests[r];
      if request.operation.Write? {
        dma := dma[b := PutFront(dma[b], Ownership.Staged(request.caller, request.physical))];
      }
      answer := context.config.spdk(context.io.attempts);
      context.io := context.io.(attempts := context.io.attempts + 1);
      leases := leases + [r];
      assert View() == Lease(Config(), before, r);
    }

    method RecordSubmission(r: nat)
      requires Valid() && r < |context.requests|
      modifies this, context
      ensures Valid() && View() == Submitted(Config(), old(View()), r)
    {
      ghost var before := View();
      var request := context.requests[r];
      var io := context.io.(accepted := context.io.accepted + 1,
                            logicalBytes := context.io.logicalBytes + |request.caller|,
                            physicalBytes := context.io.physicalBytes + request.physical,
                            unusedBytes := context.io.unusedBytes + (context.config.segment - request.physical));
      if request.operation.Write? {
        io := io.(paddingBytes := io.paddingBytes + (request.physical - |request.caller|));
      }
      context.io := io;
      context.requests := context.requests[r := request.(filled := None)];
      inFlight := inFlight + {r};
      assert View() == Submitted(Config(), before, r);
    }

    /** drain_pending_io: parked requests run from the front while buffers last; a nested call returns at once. */
    method DrainPending()
      requires Valid()
      modifies this, pool, context
      ensures Valid() && View() == Drain(Config(), old(View()))
      decreases if draining then 0 else 1, |pending|, 0
    {
      hide RequestShaped, Execute;
      if draining { return; }
      draining := true;
      ghost var start := View();
      while pending != [] && pool.Available() != 0
        invariant Valid() && draining && |pending| <= |old(pending)|
        invariant DrainLoop(Config(), View()) == DrainLoop(Config(), start)
        decreases |pending|
      {
        var request := pending[0];
        assert Shaped(Config(), View());
        ghost var before := View();
        pending := pending[1..];
        assert View() == Popped(Config(), before);
        ExecuteIo(request);
      }
      draining := false;
    }

    /** execute_worker_batch. */
    method ExecuteWorkerBatch(rs: seq<nat>)
      requires Valid() && forall i | 0 <= i < |rs| :: rs[i] < |context.requests|
      modifies this, pool, context
      ensures Valid() && View() == ArriveAll(Config(), old(View()), rs, |rs|)
    {
      hide RequestShaped, Execute, ArriveAll;
      NoneArrived(Config(), View(), rs);
      var i := 0;
      while i < |rs|
        invariant 0 <= i <= |rs| && Valid() && |context.requests| == old(|context.requests|)
        invariant View() == ArriveAll(Config(), old(View()), rs, i)
      {
        OneMoreArrives(Config(), old(View()), rs, i);
        arrivals := arrivals + [rs[i]];
        ExecuteIo(rs[i]);
        i := i + 1;
      }
    }

    /** RetryIoCallback. */
    method RetryIo(r: nat)
      requires Valid() && r < |context.requests|
      modifies this, pool, context
      ensures Valid() && View() == Retry(Config(), old(View()), r)
    {
      hide RequestShaped, Execute;
      waiting := waiting - {r};
      arrivals := arrivals + [r];
      ExecuteIo(r);
    }

    /** complete_io_on_worker. */
    method CompleteIo(r: nat, ok: bool)
      requires Valid() && r < |context.requests|
      modifies this, pool, context
      ensures Valid() && View() == IoEngine.CompleteIo(Config(), old(View()), r, ok)
    {
      hide RequestShaped, Drain, IoEngine.CompleteRequest, IoEngine.ReleaseBuffer, CopyOut;
      ghost var before := View();
      var request := context.requests[r];
      inFlight := inFlight - {r};
      var result := ok;
      if ok && request.operation.Read? {
        var buffer := Err(NotLeased);
        if request.buffer.Some? {
          buffer := pool.Data(request.buffer.value);
        }
        if buffer.Ok? {
          CopyToCaller(r);
        } else {
          result := false;
        }
      }
      ReleaseBuffer(r);
      Complete(r, result);
      DrainPending();
    }

    method CopyToCaller(r: nat)
      requires Valid() && r < |context.requests| && Readable(View(), r)
      modifies context
      ensures Valid() && View() == CopyOut(Config(), old(View()), r)
    {
      ghost var before := View();
      var request := context.requests[r];
      assert RequestShaped(Config(), before.batches, request);
      context.requests := context.requests[r := request.(caller := dma[request.buffer.value][..|request.caller|])];
      assert View() == CopyOut(Config(), before, r);
    }

    /** shutdown_io_worker: parked requests fail in order, then the pool goes. */
    method ShutdownIoWorker()
      requires Valid()
      modifies this, pool, context
      ensures Valid() && View() == Shutdown(Config(), old(View()))
    {
      hide RequestShaped, IoEngine.CompleteRequest, DropPool;
      while pending != []
        invariant Valid() && FailPending(Config(), View()) == FailPending(Config(), old(View()))
        decreases |pending|
      {
        var request := pending[0];
        assert Shaped(Config(), View());
        ghost var before := View();
        pending := pending[1..];
        assert View() == Popped(Config(), before);
        Complete(request, false);
      }
      ghost var emptied := View();
      ReleaseAll();
      assert View() == DropPool(Config(), emptied);
    }

    method ReleaseAll()
      requires Valid()
      modifies this, pool, context
      ensures Valid() && View() == DropPool(Config(), old(View()))
    {
      ghost var before := View();
      pool.ReleaseAll();
      dma := [];
      context.io := context.io.(poolBytes := context.io.poolBytes - poolBytes);
      poolBytes := 0;
      assert View() == DropPool(Config(), before);
    }
  }
}
