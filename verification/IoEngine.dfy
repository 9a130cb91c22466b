/**
 * What one I/O worker does in one callback: lease a buffer or park the request, submit it, give the buffer
 * back, complete it, drain the parked queue. These functions specify the methods of SpdkBdevContext.
 */
module IoEngine {
  import opened Basics
  import opened SpdkBufferPools
  import Ownership
  import Segments

  datatype Operation = Read | Write

  /** SPDK's answer to one submission attempt. */
  datatype Answer =
    | Accepted     // one completion will follow
    | Queued       // -ENOMEM, and the wait entry is queued: one retry will follow
    | Resent       // -ENOMEM, capacity is back already, and a retry message is posted
    | WaitRefused  // -ENOMEM, and no retry could be arranged
    | Refused      // any other error

  type Positive = n: int | 0 < n witness 1

  /** spdk(n) is the answer to the n-th attempt; segment is the size of every DMA buffer. */
  datatype Config = Config(spdk: nat -> Answer, page: Positive, segment: nat, pageCount: nat) {
    function Layout(): (l: Segments.Layout)
      ensures l.page == page
    {
      Segments.Layout(page, segment, pageCount)
    }
  }

  /** filled records what the device last put into a read's buffer; nothing reads it. */
  datatype Request = Request(worker: nat, batch: nat, index: nat, operation: Operation, byteOffset: nat, physical: nat,
                             caller: Bytes, buffer: Option<nat>, completed: bool, filled: Option<Bytes>)

  /**
   * inFlight and waiting are what the worker's channel owes callbacks for. arrivals and leases record in
   * which order requests came to the worker and were granted buffers; nothing reads them.
   */
  datatype Worker = Worker(pool: Pool, dma: seq<Bytes>, poolBytes: int, pending: seq<nat>, draining: bool,
                           inFlight: set<nat>, waiting: set<nat>, arrivals: seq<nat>, leases: seq<nat>)

  datatype Batch = Batch(remaining: int, results: seq<Option<bool>>, notified: nat)

  datatype Counters = Counters(attempts: nat, submitted: nat, completed: nat, succeeded: nat, failed: nat, retries: nat,
                               poolBytes: int, inUse: int, peak: int, accepted: nat, logicalBytes: int, physicalBytes: int,
                               unusedBytes: int, paddingBytes: int)

  /** What a callback of one worker can reach. */
  datatype Local = Local(me: Worker, requests: seq<Request>, batches: seq<Batch>, io: Counters)

  ghost predicate RequestShaped(c: Config, batches: seq<Batch>, req: Request) {
    && req.batch < |batches| && req.index < |batches[req.batch].results|
    && |req.caller| <= req.physical <= c.segment
  }

  ghost predicate Shaped(c: Config, l: Local) {
    && (forall r | 0 <= r < |l.requests| :: RequestShaped(c, l.batches, l.requests[r]))
    && (forall i | 0 <= i < |l.me.pending| :: l.me.pending[i] < |l.requests|)
    && l.me.pool.Sound() && |l.me.dma| == |l.me.pool.inUse|
    && (forall b | 0 <= b < |l.me.dma| :: |l.me.dma[b]| == c.segment)
  }

  /** The queue and its guard are as before. */
  predicate SameQueue(l: Local, l': Local) {
    && l'.me.pending == l.me.pending && l'.me.draining == l.me.draining
    && |l'.requests| == |l.requests|
  }

  // ----- completion ------------------------------------------------------------------------------

  function CompleteRequest(c: Config, l: Local, r: nat, ok: bool): (l': Local)
    requires Shaped(c, l) && r < |l.requests|
    ensures Shaped(c, l') && SameQueue(l, l') && l'.me == l.me
    ensures l'.io.succeeded == l.io.succeeded + if ok && !l.requests[r].completed then 1 else 0
  {
    var req := l.requests[r];
    if req.completed then l
    else
      var batch := l.batches[req.batch];
      var left := batch.remaining - 1;
      l.(requests := l.requests[r := req.(completed := true)],
         batches := l.batches[req.batch := Batch(left, batch.results[req.index := Some(ok)],
                                                 if left == 0 then batch.notified + 1 else batch.notified)],
         io := l.io.(completed := l.io.completed + 1,
                     succeeded := if ok then l.io.succeeded + 1 else l.io.succeeded,
                     failed := if ok then l.io.failed else l.io.failed + 1))
  }

  function ReleaseBuffer(c: Config, l: Local, r: nat): (l': Local)
    requires Shaped(c, l) && r < |l.requests|
    ensures Shaped(c, l') && SameQueue(l, l')
    ensures l'.io.succeeded == l.io.succeeded
  {
    var req := l.requests[r];
    if req.buffer.None? then l
    else
      var cleared := l.(requests := l.requests[r := req.(buffer := None)]);
      if l.me.pool.initialized && l.me.pool.IsLeased(req.buffer.value) then
        GiveBackSound(l.me.pool, req.buffer.value);
        cleared.(me := l.me.(pool := GiveBack(l.me.pool, req.buffer.value)), io := l.io.(inUse := l.io.inUse - c.segment))
      else cleared
  }

  // ----- submission ------------------------------------------------------------------------------

  /** The device's end of buffer b: its first |bytes| bytes are replaced. */
  function PutFront(buffer: Bytes, bytes: Bytes): (b: Bytes)
    requires |bytes| <= |buffer|
    ensures |b| == |buffer| && b[..|bytes|] == bytes
  {
    bytes + buffer[|bytes|..]
  }

  /** A free buffer is leased to request r and, for a write, filled with its bytes and zeros. */
  function Lease(c: Config, l: Local, r: nat): (l': Local)
    requires Shaped(c, l) && r < |l.requests| && l.me.pool.free != []
    ensures Shaped(c, l') && SameQueue(l, l')
    ensures l'.io.succeeded == l.io.succeeded
  {
    GrantSound(l.me.pool);
    var req, b := l.requests[r], Top(l.me.pool);
    assert RequestShaped(c, l.batches, req);
    var dma := if req.operation.Write? then
                 l.me.dma[b := PutFront(l.me.dma[b], Ownership.Staged(req.caller, req.physical))]
               else l.me.dma;
    var inUse := l.io.inUse + c.segment;
    l.(me := l.me.(pool := Grant(l.me.pool), dma := dma, leases := l.me.leases + [r]),
       requests := l.requests[r := req.(buffer := Some(b))],
       io := l.io.(attempts := l.io.attempts + 1, inUse := inUse, peak := if l.io.peak < inUse then inUse else l.io.peak))
  }

  function Submitted(c: Config, l: Local, r: nat): (l': Local)
    requires Shaped(c, l) && r < |l.requests|
    ensures Shaped(c, l') && SameQueue(l, l')
    ensures l'.io.succeeded == l.io.succeeded
  {
    var req := l.requests[r];
    l.(me := l.me.(inFlight := l.me.inFlight + {r}),
       requests := l.requests[r := req.(filled := None)],
       io := l.io.(accepted := l.io.accepted + 1,
                   logicalBytes := l.io.logicalBytes + |req.caller|,
                   physicalBytes := l.io.physicalBytes + req.physical,
                   unusedBytes := l.io.unusedBytes + (c.segment - req.physical),
                   paddingBytes := if req.operation.Write? then l.io.paddingBytes + (req.physical - |req.caller|)
                                   else l.io.paddingBytes))
  }

  function CountRetry(l: Local): Local {
    l.(io := l.io.(retries := l.io.retries + 1))
  }

  /** execute_io_on_worker. */
  function Execute(c: Config, l: Local, r: nat): (l': Local)
    requires Shaped(c, l) && r < |l.requests|
    ensures Shaped(c, l') && |l'.requests| == |l.requests| && l'.me.draining == l.me.draining
    ensures l.me.draining && l.me.pool.free != [] ==> l'.me.pending == l.me.pending
    ensures l'.io.succeeded == l.io.succeeded
    decreases if l.me.draining then 0 else 1, |l.me.pending|, 1
  {
    if !l.me.pool.initialized then
      Drain(c, CompleteRequest(c, ReleaseBuffer(c, l, r), r, false))
    else if l.me.pool.free == [] then
      l.(me := l.me.(pending := l.me.pending + [r]))
    else
      var leased := Lease(c, l, r);
      match c.spdk(l.io.attempts)
      case Accepted => Submitted(c, leased, r)
      case Refused => Drain(c, CompleteRequest(c, ReleaseBuffer(c, leased, r), r, false))
      case WaitRefused => Drain(c, CompleteRequest(c, CountRetry(ReleaseBuffer(c, leased, r)), r, false))
      case _ =>
        var back := CountRetry(ReleaseBuffer(c, leased, r));
        back.(me := back.me.(waiting := back.me.waiting + {r}))
  }

  /** drain_pending_io: a drain inside a drain returns at once. */
  function Drain(c: Config, l: Local): (l': Local)
    requires Shaped(c, l)
    ensures Shaped(c, l') && |l'.requests| == |l.requests| && l'.me.draining == l.me.draining
    ensures l.me.draining ==> l' == l
    ensures l'.io.succeeded == l.io.succeeded
    decreases if l.me.draining then 0 else 1, |l.me.pending|, 0
  {
    if l.me.draining then l
    else
      var done := DrainLoop(c, l.(me := l.me.(draining := true)));
      done.(me := done.me.(draining := false))
  }

  function DrainLoop(c: Config, l: Local): (l': Local)
    requires Shaped(c, l) && l.me.draining
    ensures Shaped(c, l') && |l'.requests| == |l.requests| && l'.me.draining
    ensures l'.me.pending == [] || l'.me.pool.free == []
    ensures l'.io.succeeded == l.io.succeeded
    decreases 0, |l.me.pending|, 2
  {
    if l.me.pending != [] && l.me.pool.free != [] then
      DrainLoop(c, Execute(c, Popped(c, l), l.me.pending[0]))
    else l
  }

  function Popped(c: Config, l: Local): (l': Local)
    requires Shaped(c, l) && l.me.pending != []
    ensures Shaped(c, l') && l'.requests == l.requests
    ensures l'.io.succeeded == l.io.succeeded
  {
    l.(me := l.me.(pending := l.me.pending[1..]))
  }

  /** The device puts the bytes of a read in flight into its buffer. */
  function Fill(c: Config, l: Local, r: nat, bytes: Bytes): (l': Local)
    requires Shaped(c, l) && r < |l.requests| && Readable(l, r) && |bytes| == l.requests[r].physical
    ensures Shaped(c, l') && SameQueue(l, l')
    ensures l'.io.succeeded == l.io.succeeded
  {
    var req := l.requests[r];
    assert RequestShaped(c, l.batches, req);
    var b := req.buffer.value;
    l.(me := l.me.(dma := l.me.dma[b := PutFront(l.me.dma[b], bytes)]),
       requests := l.requests[r := req.(filled := Some(bytes))])
  }

  // ----- callbacks -------------------------------------------------------------------------------

  /** A request reaches its worker, in a dispatch message or in a retry. */
  function Arrive(c: Config, l: Local, r: nat): (l': Local)
    requires Shaped(c, l) && r < |l.requests|
    ensures Shaped(c, l') && |l'.requests| == |l.requests| && l'.me.draining == l.me.draining
    ensures l'.io.succeeded == l.io.succeeded
  {
    Execute(c, l.(me := l.me.(arrivals := l.me.arrivals + [r])), r)
  }

  /** execute_worker_batch, for the first n requests of a dispatch. */
  function ArriveAll(c: Config, l: Local, rs: seq<nat>, n: nat): (l': Local)
    requires Shaped(c, l) && n <= |rs| && forall i | 0 <= i < |rs| :: rs[i] < |l.requests|
    ensures Shaped(c, l') && |l'.requests| == |l.requests| && l'.me.draining == l.me.draining
    ensures l'.io.succeeded == l.io.succeeded
  {
    if n == 0 then l else Arrive(c, ArriveAll(c, l, rs, n - 1), rs[n - 1])
  }

  /** RetryIoCallback. */
  function Retry(c: Config, l: Local, r: nat): (l': Local)
    requires Shaped(c, l) && r < |l.requests|
    ensures Shaped(c, l') && |l'.requests| == |l.requests| && l'.me.draining == l.me.draining
    ensures l'.io.succeeded == l.io.succeeded
  {
    Arrive(c, l.(me := l.me.(waiting := l.me.waiting - {r})), r)
  }

  predicate Readable(l: Local, r: nat)
    requires r < |l.requests|
  {
    l.me.pool.initialized && l.requests[r].buffer.Some? && l.me.pool.IsLeased(l.requests[r].buffer.value)
  }

  /** A read's logical bytes go from the DMA buffer to the caller. */
  function CopyOut(c: Config, l: Local, r: nat): (l': Local)
    requires Shaped(c, l) && r < |l.requests| && Readable(l, r)
    ensures Shaped(c, l') && SameQueue(l, l')
    ensures l'.io.succeeded == l.io.succeeded
  {
    var req := l.requests[r];
    assert RequestShaped(c, l.batches, req);
    l.(requests := l.requests[r := req.(caller := l.me.dma[req.buffer.value][..|req.caller|])])
  }

  /** complete_io_on_worker. */
  function CompleteIo(c: Config, l: Local, r: nat, ok: bool): (l': Local)
    requires Shaped(c, l) && r < |l.requests|
    ensures Shaped(c, l') && |l'.requests| == |l.requests| && l'.me.draining == l.me.draining
  {
    var called := l.(me := l.me.(inFlight := l.me.inFlight - {r}));
    if ok && l.requests[r].operation.Read? then
      if Readable(l, r) then
        Drain(c, CompleteRequest(c, ReleaseBuffer(c, CopyOut(c, called, r), r), r, true))
      else Drain(c, CompleteRequest(c, ReleaseBuffer(c, called, r), r, false))
    else Drain(c, CompleteRequest(c, ReleaseBuffer(c, called, r), r, ok))
  }

  /** The parked requests of a stopping worker complete as failures, in order. */
  function FailPending(c: Config, l: Local): (l': Local)
    requires Shaped(c, l)
    ensures Shaped(c, l') && |l'.requests| == |l.requests| && l'.me == l.me.(pending := [])
    ensures l'.io.succeeded == l.io.succeeded
    decreases |l.me.pending|
  {
    if l.me.pending == [] then l
    else FailPending(c, CompleteRequest(c, Popped(c, l), l.me.pending[0], false))
  }

  /** release_all on a worker's pool, and its share of the allocation counter. */
  function DropPool(c: Config, l: Local): (l': Local)
    requires Shaped(c, l)
    ensures Shaped(c, l') && SameQueue(l, l')
    ensures l'.io.succeeded == l.io.succeeded
  {
    l.(me := l.me.(pool := EMPTY, dma := [], poolBytes := 0), io := l.io.(poolBytes := l.io.poolBytes - l.me.poolBytes))
  }

  /** shutdown_io_worker. */
  function Shutdown(c: Config, l: Local): (l': Local)
    requires Shaped(c, l)
    ensures Shaped(c, l') && |l'.requests| == |l.requests| && l'.me.draining == l.me.draining
    ensures l'.io.succeeded == l.io.succeeded
  {
    DropPool(c, FailPending(c, l))
  }
}
