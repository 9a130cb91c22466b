/**
 * The whole I/O engine: many single-threaded workers, batches shared between them, and dispatch messages
 * on the way. A run is any interleaving of submissions, deliveries, completions, retries and shutdowns.
 */
module IoMachine {
  import opened Basics
  import opened SpdkBufferPools
  import opened IoEngine
  import opened IoInvariant
  import opened IoCallbacks
  import opened IoDelivery
  import Ownership
  import Segments

  datatype Stage = Unsent | Sent | Gone

  /** One message to one worker: its part of a batch. */
  datatype Dispatch = Dispatch(worker: nat, requests: seq<nat>, stage: Stage)

  /**
   * lost counts buffers whose pool went away while leased; leaked counts requests that were counted as
   * submitted but never queued. Both only keep the books.
   */
  datatype Engine = Engine(workers: seq<Worker>, requests: seq<Request>, batches: seq<Batch>, io: Counters,
                           dispatches: seq<Dispatch>, lost: int, leaked: nat)

  /** One command as the caller asks for it; no bytes is a null buffer. */
  datatype Item = Item(caller: Option<Bytes>, byteOffset: nat, physical: nat) {
    function Data(): Bytes {
      if caller.Some? then caller.value else []
    }
    /** Its lengths and its place on the device. */
    function Command(): Segments.IoBatchItem {
      Segments.IoBatchItem(0, |Data()|, byteOffset, physical)
    }
  }

  datatype Action =
    | Submit(operation: Operation, items: seq<Item>, first: nat)
    | Post(dispatch: nat, ok: bool)
    | Deliver(dispatch: nat)
    | DeviceFill(request: nat, bytes: Bytes)
    | Complete(request: nat, ok: bool)
    | RetryNow(request: nat)
    | Stop(worker: nat)
    | Strand(worker: nat)
    | Finish

  function At(s: Engine, w: nat): Local
    requires w < |s.workers|
  {
    Local(s.workers[w], s.requests, s.batches, s.io)
  }

  function With(s: Engine, w: nat, l: Local): Engine
    requires w < |s.workers|
  {
    s.(workers := s.workers[w := l.me], requests := l.requests, batches := l.batches, io := l.io)
  }

  // ----- submission ------------------------------------------------------------------------------

  /** validate_item: the buffer, and everything a segment of the connector is checked for. */
  predicate ValidItem(c: Config, item: Item) {
    item.caller.Some? && Segments.ValidItem(c.Layout(), item.Command())
  }

  /** How many items come before the first invalid one. */
  function ValidPrefix(c: Config, items: seq<Item>): (n: nat)
    ensures n <= |items| && (forall i | 0 <= i < n :: ValidItem(c, items[i])) && (n < |items| ==> !ValidItem(c, items[n]))
  {
    if items == [] || !ValidItem(c, items[0]) then 0 else 1 + ValidPrefix(c, items[1..])
  }

  function NewRequest(workers: nat, batch: nat, operation: Operation, item: Item, first: nat, i: nat): Request
    requires workers > 0
  {
    Request((first + i) % workers, batch, i, operation, item.byteOffset, item.physical, item.Data(), None, false, None)
  }

  /** The requests of a whole batch. */
  function Built(workers: nat, batch: nat, operation: Operation, items: seq<Item>, first: nat): seq<Request>
    requires workers > 0
  {
    seq(|items|, i requires 0 <= i < |items| => NewRequest(workers, batch, operation, items[i], first, i))
  }

  /** The requests, numbered from base, that round robin gives to worker w. */
  function PartOf(base: nat, count: nat, first: nat, workers: nat, w: nat): (rs: seq<nat>)
    requires workers > 0
    ensures forall r :: r in rs <==> base <= r < base + count && (first + (r - base)) % workers == w
    ensures forall i | 0 <= i < |rs| :: rs[i] < base + count
    ensures forall i, j | 0 <= i < j < |rs| :: rs[i] < rs[j]
  {
    if count == 0 then []
    else
      var before := PartOf(base, count - 1, first, workers, w);
      if (first + count - 1) % workers == w then before + [base + count - 1] else before
  }

  /** One message per worker; a worker without requests gets none. */
  function Dispatches(base: nat, workers: nat, count: nat, first: nat): (ds: seq<Dispatch>)
    requires workers > 0
    ensures |ds| == workers
  {
    seq(workers, w requires 0 <= w < workers =>
      var rs := PartOf(base, count, first, workers, w);
      Dispatch(w, rs, if rs == [] then Gone else Unsent))
  }

  /** submit_batch_and_wait up to its first message; an invalid item abandons the batch half built. */
  function Submitting(c: Config, s: Engine, operation: Operation, items: seq<Item>, first: nat): Engine
    requires |s.workers| > 0
  {
    var valid := ValidPrefix(c, items);
    if items == [] then s
    else if valid < |items| then
      s.(io := s.io.(submitted := s.io.submitted + valid), leaked := s.leaked + valid)
    else
      s.(requests := s.requests + Built(|s.workers|, |s.batches|, operation, items, first),
         batches := s.batches + [Batch(|items|, seq(|items|, _ => None), 0)],
         io := s.io.(submitted := s.io.submitted + |items|),
         dispatches := s.dispatches + Dispatches(|s.requests|, |s.workers|, |items|, first))
  }

  /** A message that cannot be posted fails its requests on the submitting thread. */
  function FailAll(c: Config, l: Local, rs: seq<nat>, n: nat): (l': Local)
    requires Shaped(c, l) && n <= |rs| && forall i | 0 <= i < |rs| :: rs[i] < |l.requests|
    ensures Shaped(c, l') && |l'.requests| == |l.requests| && l'.me == l.me
    ensures l'.io.succeeded == l.io.succeeded
  {
    if n == 0 then l else CompleteRequest(c, FailAll(c, l, rs, n - 1), rs[n - 1], false)
  }

  // ----- steps -----------------------------------------------------------------------------------

  ghost predicate Addressed(c: Config, s: Engine, d: nat) {
    && d < |s.dispatches| && s.dispatches[d].worker < |s.workers| && Shaped(c, At(s, s.dispatches[d].worker))
    && forall i | 0 <= i < |s.dispatches[d].requests| :: s.dispatches[d].requests[i] < |s.requests|
  }

  ghost predicate Served(c: Config, s: Engine, r: nat) {
    && r < |s.requests| && s.requests[r].worker < |s.workers| && Shaped(c, At(s, s.requests[r].worker))
  }

  ghost predicate Enabled(c: Config, s: Engine, a: Action) {
    match a
    case Submit(_, _, _) => |s.workers| > 0
    case Post(d, _) => Addressed(c, s, d) && s.dispatches[d].stage == Unsent
    case Deliver(d) => Addressed(c, s, d) && s.dispatches[d].stage == Sent
    case DeviceFill(r, bytes) =>
      && Served(c, s, r) && r in s.workers[s.requests[r].worker].inFlight && s.requests[r].operation.Read?
      && Readable(At(s, s.requests[r].worker), r) && |bytes| == s.requests[r].physical
    case Complete(r, _) => Served(c, s, r) && r in s.workers[s.requests[r].worker].inFlight
    case RetryNow(r) => Served(c, s, r) && r in s.workers[s.requests[r].worker].waiting
    case Stop(w) => w < |s.workers| && Shaped(c, At(s, w)) && s.workers[w].pool.initialized
    case Strand(w) => 0 < w < |s.workers| && Shaped(c, At(s, w)) && s.workers[w].pool.initialized
    case Finish => forall w | 0 <= w < |s.workers| :: !s.workers[w].pool.initialized
  }

  function SetStage(s: Engine, d: nat, stage: Stage): Engine
    requires d < |s.dispatches|
  {
    s.(dispatches := s.dispatches[d := s.dispatches[d].(stage := stage)])
  }

  ghost function Next(c: Config, s: Engine, a: Action): Engine
    requires Enabled(c, s, a)
  {
    match a
    case Submit(operation, items, first) => Submitting(c, s, operation, items, first)
    case Post(d, ok) =>
      if ok then SetStage(s, d, Sent)
      else
        var w, rs := s.dispatches[d].worker, s.dispatches[d].requests;
        SetStage(With(s, w, FailAll(c, At(s, w), rs, |rs|)), d, Gone)
    case Deliver(d) =>
      var w, rs := s.dispatches[d].worker, s.dispatches[d].requests;
      SetStage(With(s, w, ArriveAll(c, At(s, w), rs, |rs|)), d, Gone)
    case DeviceFill(r, bytes) => var w := s.requests[r].worker; With(s, w, Fill(c, At(s, w), r, bytes))
    case Complete(r, ok) => var w := s.requests[r].worker; With(s, w, CompleteIo(c, At(s, w), r, ok))
    case RetryNow(r) => var w := s.requests[r].worker; With(s, w, Retry(c, At(s, w), r))
    case Stop(w) => With(s, w, Shutdown(c, At(s, w))).(lost := s.lost + s.workers[w].pool.Leased())
    case Strand(w) => With(s, w, DropPool(c, At(s, w))).(lost := s.lost + s.workers[w].pool.Leased())
    case Finish => s.(io := s.io.(inUse := 0), lost := 0)
  }

  // ----- the invariant ---------------------------------------------------------------------------

  predicate Carries(d: Dispatch, w: nat, r: nat) {
    d.stage != Gone && d.worker == w && r in d.requests
  }

  ghost predicate IsUndelivered(ds: seq<Dispatch>, w: nat, r: nat) {
    exists d :: 0 <= d < |ds| && Carries(ds[d], w, r)
  }

  /** The requests still on their way to worker w. */
  ghost function Undelivered(s: Engine, w: nat): set<nat> {
    set r | 0 <= r < |s.requests| && IsUndelivered(s.dispatches, w, r)
  }

  /** A request is in at most one message, once, and addressed to its own worker. */
  ghost predicate DispatchesRight(s: Engine) {
    && (forall d | 0 <= d < |s.dispatches| :: NoRepeats(s.dispatches[d].requests) && s.dispatches[d].worker < |s.workers|)
    && (forall d, r | 0 <= d < |s.dispatches| && r in s.dispatches[d].requests :: r < |s.requests|)
    && (forall d, d', r | 0 <= d < d' < |s.dispatches| && r in s.dispatches[d].requests :: r !in s.dispatches[d'].requests)
  }

  function SumLeased(ws: seq<Worker>): int {
    if ws == [] then 0 else SumLeased(ws[..|ws| - 1]) + ws[|ws| - 1].pool.Leased()
  }

  function SumBytes(ws: seq<Worker>): int {
    if ws == [] then 0 else SumBytes(ws[..|ws| - 1]) + ws[|ws| - 1].poolBytes
  }

  /** A worker's share of the DMA memory. */
  predicate StandingRight(c: Config, m: Worker) {
    m.poolBytes == c.segment * |m.pool.inUse| && (m.pool.initialized <==> m.pool.inUse != [])
  }

  predicate BooksRight(c: Config, s: Engine) {
    && s.io.inUse == c.segment * (SumLeased(s.workers) + s.lost)
    && s.io.poolBytes == SumBytes(s.workers)
    && s.io.submitted == |s.requests| + s.leaked
  }

  ghost predicate EngineInv(c: Config, s: Engine) {
    && |s.workers| > 0 && DispatchesRight(s) && BooksRight(c, s)
    && (forall r | 0 <= r < |s.requests| :: s.requests[r].worker < |s.workers|)
    && (forall w | 0 <= w < |s.workers| :: AtRest(c, At(s, w), w, Undelivered(s, w)) && StandingRight(c, s.workers[w]))
  }

  ghost predicate Fresh(c: Config, m: Worker) {
    && m.pool.inUse != [] && m.pool == Pool(true, seq(|m.pool.inUse|, _ => false), Descending(|m.pool.inUse|))
    && |m.dma| == |m.pool.inUse| && (forall b | 0 <= b < |m.dma| :: |m.dma[b]| == c.segment)
    && m.poolBytes == c.segment * |m.pool.inUse|
    && m.pending == [] && !m.draining && m.inFlight == {} && m.waiting == {} && m.arrivals == [] && m.leases == []
  }

  ghost predicate Init(c: Config, s: Engine) {
    && |s.workers| > 0 && (forall w | 0 <= w < |s.workers| :: Fresh(c, s.workers[w]))
    && s.requests == [] && s.batches == [] && s.dispatches == [] && s.lost == 0 && s.leaked == 0
    && s.io == Counters(s.io.attempts, 0, 0, 0, 0, 0, SumBytes(s.workers), 0, 0, 0, 0, 0, 0, 0)
  }

  // ----- one worker's callback against the others ------------------------------------------------

  // A callback of worker w means nothing to worker v.
  lemma OthersAtRest(c: Config, l: Local, l': Local, w: nat, v: nat, m: Worker, hand: set<nat>)
    requires AtRest(c, l.(me := m), v, hand) && OnlyOwn(l, l', w) && v != w
    requires Shaped(c, l') && Ledger(c, l')
    ensures AtRest(c, l'.(me := m), v, hand)
  {
    hide Open, Done, BatchRight, SlotRight, SlotsApart, CountersRight, Ownership.Staged, RequestShaped;
    var a, b := l.(me := m), l'.(me := m);
    forall r | 0 <= r < |b.requests| && b.requests[r].worker == v ensures b.requests[r] == a.requests[r] {
      assert SameRequest(l.requests[r], l'.requests[r]);
    }
    forall r: nat | r < |b.requests| && b.requests[r].worker == v ensures Places(b, hand, r) == Places(a, hand, r) {}
    forall r: nat | IsOf(a, v, r) ensures IsOf(b, v, r) && b.requests[r] == a.requests[r] {
      assert SameRequest(l.requests[r], l'.requests[r]);
    }
    OthersBuffers(a, b, v);
  }

  lemma OthersBuffers(a: Local, b: Local, v: nat)
    requires BuffersRight(a, v) && b.me == a.me && |b.requests| == |a.requests|
    requires forall r | r in a.me.inFlight :: IsOf(a, v, r)
    requires forall r: nat | IsOf(a, v, r) :: b.requests[r] == a.requests[r]
    requires forall r: nat | IsOf(b, v, r) :: b.requests[r] == a.requests[r]
    ensures BuffersRight(b, v)
  {
    hide Ownership.Staged;
    forall r | 0 <= r < |b.requests| && b.requests[r].worker == v
      ensures b.requests[r].buffer.Some? <==> r in b.me.inFlight
    {
      assert IsOf(b, v, r);
    }
    if a.me.pool.initialized {
      forall d | 0 <= d < |a.me.pool.inUse| && a.me.pool.inUse[d] ensures IsHeld(b, d) {
        assert IsHeld(a, d);
        var r :| HeldBy(a, d, r);
        assert HeldBy(b, d, r);
      }
      forall r | r in a.me.inFlight ensures StagedRight(b, r) && b.requests[r] == a.requests[r] {
        assert IsOf(a, v, r) && StagedRight(a, r);
      }
    }
  }

  /** When one worker's callback is done, every worker is at rest. */
  lemma AllAtRest(c: Config, s: Engine, s': Engine, w: nat, l': Local)
    requires EngineInv(c, s) && w < |s.workers| && s'.workers == s.workers[w := l'.me]
    requires s'.requests == l'.requests && s'.batches == l'.batches && s'.io == l'.io
    requires OnlyOwn(At(s, w), l', w) && AtRest(c, l', w, Undelivered(s', w)) && StandingRight(c, l'.me)
    requires forall v | 0 <= v < |s.workers| && v != w :: Undelivered(s', v) == Undelivered(s, v)
    ensures forall v | 0 <= v < |s'.workers| :: AtRest(c, At(s', v), v, Undelivered(s', v)) && StandingRight(c, s'.workers[v])
    ensures |s'.requests| == |s.requests| && forall r | 0 <= r < |s'.requests| :: s'.requests[r].worker < |s'.workers|
  {
    hide Undelivered, Ledger, OnePlace, BuffersRight, RequestShaped, DispatchesRight, BooksRight, StandingRight;
    forall v | 0 <= v < |s'.workers| ensures AtRest(c, At(s', v), v, Undelivered(s', v)) {
      if v == w {
        assert At(s', w) == l';
      } else {
        assert At(s, v) == At(s, w).(me := s.workers[v]);
        OthersAtRest(c, At(s, w), l', w, v, s.workers[v], Undelivered(s, v));
        assert At(s', v) == l'.(me := s.workers[v]);
      }
    }
    forall r | 0 <= r < |s'.requests| ensures s'.requests[r].worker < |s'.workers| {
      assert SameRequest(s.requests[r], s'.requests[r]);
    }
  }

  // ----- sums ------------------------------------------------------------------------------------

  lemma {:induction false} SumsAfter(ws: seq<Worker>, w: nat, m: Worker)
    requires w < |ws|
    ensures SumLeased(ws[w := m]) == SumLeased(ws) - ws[w].pool.Leased() + m.pool.Leased()
    ensures SumBytes(ws[w := m]) == SumBytes(ws) - ws[w].poolBytes + m.poolBytes
  {
    var n := |ws| - 1;
    if w < n {
      SumsAfter(ws[..n], w, m);
      assert ws[w := m][..n] == ws[..n][w := m];
    } else {
      assert ws[w := m][..n] == ws[..n];
    }
  }

  lemma BooksAfter(c: Config, s: Engine, s': Engine, w: nat, l': Local)
    requires BooksRight(c, s) && w < |s.workers| && s'.workers == s.workers[w := l'.me] && s'.io == l'.io
    requires |s'.requests| == |s.requests| && s'.leaked == s.leaked && s'.lost == s.lost
    requires Share(c, l') == Share(c, At(s, w)) && SameStanding(At(s, w), l')
    ensures BooksRight(c, s')
  {
    SumsAfter(s.workers, w, l'.me);
    var a, b, sum := s.workers[w].pool.Leased(), l'.me.pool.Leased(), SumLeased(s.workers) + s.lost;
    assert c.segment * (sum - a + b) == c.segment * sum - c.segment * a + c.segment * b;
  }

  // ----- callbacks -------------------------------------------------------------------------------

  lemma SameMessages(s: Engine, s': Engine)
    requires s'.dispatches == s.dispatches && |s'.requests| == |s.requests| && |s'.workers| == |s.workers|
    ensures forall w :: Undelivered(s', w) == Undelivered(s, w)
    ensures DispatchesRight(s) ==> DispatchesRight(s')
  {
    hide IsUndelivered;
  }

  /** A callback of one worker keeps the whole engine in order. */
  lemma CallbackStep(c: Config, s: Engine, w: nat, l': Local)
    requires EngineInv(c, s) && w < |s.workers|
    requires Kept(c, At(s, w), l', w, Undelivered(s, w)) && AtRest(c, l', w, Undelivered(s, w))
    ensures EngineInv(c, With(s, w, l'))
  {
    hide Undelivered, Inv, DispatchesRight, BooksRight, AtRest, OnlyOwn, Share;
    var s' := With(s, w, l');
    OwnLength(At(s, w), l', w);
    SameMessages(s, s');
    AllAtRest(c, s, s', w, l');
    BooksAfter(c, s, s', w, l');
  }

  lemma OwnLength(l: Local, l': Local, w: nat)
    requires OnlyOwn(l, l', w)
    ensures |l'.requests| == |l.requests| && |l'.batches| == |l.batches|
  {}

  lemma Resting(c: Config, s: Engine, w: nat)
    requires EngineInv(c, s) && w < |s.workers|
    ensures AtRest(c, At(s, w), w, Undelivered(s, w)) && Shaped(c, At(s, w)) && StandingRight(c, s.workers[w])
  {
    hide Undelivered, Ledger, OnePlace, BuffersRight, RequestShaped, DispatchesRight, BooksRight, StandingRight;
  }

  lemma CompleteStep(c: Config, s: Engine, r: nat, ok: bool)
    requires EngineInv(c, s) && Enabled(c, s, Complete(r, ok))
    ensures EngineInv(c, Next(c, s, Complete(r, ok)))
  {
    hide EngineInv, AtRest, Kept, Undelivered, CompleteIo, Shaped;
    var w := s.requests[r].worker;
    Resting(c, s, w);
    CompleteIoKeeps(c, At(s, w), w, Undelivered(s, w), r, ok);
    CallbackStep(c, s, w, CompleteIo(c, At(s, w), r, ok));
  }

  lemma RetryStep(c: Config, s: Engine, r: nat)
    requires EngineInv(c, s) && Enabled(c, s, RetryNow(r))
    ensures EngineInv(c, Next(c, s, RetryNow(r)))
  {
    hide EngineInv, AtRest, Kept, Undelivered, Retry, Shaped;
    var w := s.requests[r].worker;
    Resting(c, s, w);
    RetryKeeps(c, At(s, w), w, Undelivered(s, w), r);
    CallbackStep(c, s, w, Retry(c, At(s, w), r));
  }

  lemma FillStep(c: Config, s: Engine, r: nat, bytes: Bytes)
    requires EngineInv(c, s) && Enabled(c, s, DeviceFill(r, bytes))
    ensures EngineInv(c, Next(c, s, DeviceFill(r, bytes)))
  {
    hide EngineInv, AtRest, Kept, Undelivered, Fill, Shaped;
    var w := s.requests[r].worker;
    Resting(c, s, w);
    FillKeeps(c, At(s, w), w, Undelivered(s, w), r, bytes);
    CallbackStep(c, s, w, Fill(c, At(s, w), r, bytes));
  }

  // ----- messages --------------------------------------------------------------------------------

  // A message that is delivered or given up leaves the rest of the mail as it was.
  lemma MessageGone(s: Engine, s': Engine, d: nat)
    requires DispatchesRight(s) && d < |s.dispatches| && s.dispatches[d].stage != Gone
    requires s'.dispatches == s.dispatches[d := s.dispatches[d].(stage := Gone)]
    requires |s'.requests| == |s.requests| && |s'.workers| == |s.workers|
    ensures DispatchesRight(s')
    ensures var w, rs := s.dispatches[d].worker, s.dispatches[d].requests;
            && FirstOf(rs, |rs|) <= Undelivered(s, w)
            && Undelivered(s', w) == Undelivered(s, w) - FirstOf(rs, |rs|)
            && forall v | v != w :: Undelivered(s', v) == Undelivered(s, v)
  {
    var w, rs := s.dispatches[d].worker, s.dispatches[d].requests;
    forall r | r in rs ensures r < |s.requests| && IsUndelivered(s.dispatches, w, r) {
      assert Carries(s.dispatches[d], w, r);
    }
    forall v: nat, r: nat
      ensures IsUndelivered(s'.dispatches, v, r) <==> IsUndelivered(s.dispatches, v, r) && !(v == w && r in rs)
    {
      MailWithout(s, s', d, v, r);
    }
    assert forall r :: r in FirstOf(rs, |rs|) <==> r in rs;
  }

  lemma MailWithout(s: Engine, s': Engine, d: nat, v: nat, r: nat)
    requires DispatchesRight(s) && d < |s.dispatches| && s.dispatches[d].stage != Gone
    requires s'.dispatches == s.dispatches[d := s.dispatches[d].(stage := Gone)]
    ensures IsUndelivered(s'.dispatches, v, r) <==>
            IsUndelivered(s.dispatches, v, r) && !(v == s.dispatches[d].worker && r in s.dispatches[d].requests)
  {
    if e :| 0 <= e < |s'.dispatches| && Carries(s'.dispatches[e], v, r) {
      assert e != d && Carries(s.dispatches[e], v, r);
      assert r !in s.dispatches[d].requests;
    }
    if e :| 0 <= e < |s.dispatches| && Carries(s.dispatches[e], v, r)
            && !(v == s.dispatches[d].worker && r in s.dispatches[d].requests) {
      assert e != d && Carries(s'.dispatches[e], v, r);
    }
  }

  lemma DeliverStep(c: Config, s: Engine, d: nat)
    requires EngineInv(c, s) && Enabled(c, s, Deliver(d))
    ensures EngineInv(c, Next(c, s, Deliver(d)))
  {
    hide AtRest, Inv, OnlyOwn, Share, Undelivered, ArriveAll, Shaped, BooksRight, StandingRight;
    var s', w, rs := Next(c, s, Deliver(d)), s.dispatches[d].worker, s.dispatches[d].requests;
    var l' := ArriveAll(c, At(s, w), rs, |rs|);
    MessageGone(s, s', d);
    Resting(c, s, w);
    ArriveAllKeeps(c, At(s, w), w, Undelivered(s, w), rs, |rs|);
    StandingKept(c, At(s, w), l');
    AllAtRest(c, s, s', w, l');
    BooksAfter(c, s, s', w, l');
  }

  lemma StandingKept(c: Config, l: Local, l': Local)
    requires StandingRight(c, l.me) && SameStanding(l, l')
    ensures StandingRight(c, l'.me)
  {}

  lemma {:induction false} FailAllKeeps(c: Config, l: Local, w: nat, hand: set<nat>, rs: seq<nat>, n: nat)
    requires AtRest(c, l, w, hand) && n <= |rs| && NoRepeats(rs) && FirstOf(rs, |rs|) <= hand
    ensures Shaped(c, l) && forall i | 0 <= i < |rs| :: rs[i] < |l.requests|
    ensures Kept(c, l, FailAll(c, l, rs, n), w, hand - FirstOf(rs, n))
    ensures AtRest(c, FailAll(c, l, rs, n), w, hand - FirstOf(rs, n))
  {
    hide Inv, Kept, CompleteRequest, Shaped;
    SoundPool(c, l, w, hand);
    forall i | 0 <= i < |rs| ensures rs[i] < |l.requests| {
      assert rs[i] in FirstOf(rs, |rs|);
      InHand(c, l, w, hand, rs[i]);
    }
    if n == 0 {
      assert hand - FirstOf(rs, 0) == hand;
      KeptSelf(c, l, w, hand);
    } else {
      FailAllKeeps(c, l, w, hand, rs, n - 1);
      var before := FailAll(c, l, rs, n - 1);
      assert rs[n - 1] in FirstOf(rs, |rs|) && rs[n - 1] !in FirstOf(rs, n - 1);
      CompleteKept(c, before, w, hand - FirstOf(rs, n - 1), rs[n - 1], false);
      FirstOfNext(rs, n - 1);
      assert hand - FirstOf(rs, n - 1) - {rs[n - 1]} == hand - FirstOf(rs, n);
      KeptTrans(c, l, before, FailAll(c, l, rs, n), w, hand - FirstOf(rs, n - 1), hand - FirstOf(rs, n));
      KeptParts(c, l, FailAll(c, l, rs, n), w, hand - FirstOf(rs, n));
    }
  }

  lemma PostStep(c: Config, s: Engine, d: nat, ok: bool)
    requires EngineInv(c, s) && Enabled(c, s, Post(d, ok))
    ensures EngineInv(c, Next(c, s, Post(d, ok)))
  {
    hide AtRest, Inv, OnlyOwn, Share, Undelivered, FailAll, Shaped, BooksRight, StandingRight;
    var s', w, rs := Next(c, s, Post(d, ok)), s.dispatches[d].worker, s.dispatches[d].requests;
    if ok {
      SentKeepsMail(c, s, d);
    } else {
      var l' := FailAll(c, At(s, w), rs, |rs|);
      MessageGone(s, s', d);
      Resting(c, s, w);
      FailAllKeeps(c, At(s, w), w, Undelivered(s, w), rs, |rs|);
      StandingKept(c, At(s, w), l');
      AllAtRest(c, s, s', w, l');
      BooksAfter(c, s, s', w, l');
    }
  }

  lemma SentKeepsMail(c: Config, s: Engine, d: nat)
    requires EngineInv(c, s) && Enabled(c, s, Post(d, true))
    ensures EngineInv(c, SetStage(s, d, Sent))
  {
    hide AtRest, BooksRight, StandingRight, Shaped;
    var s' := SetStage(s, d, Sent);
    forall w | 0 <= w < |s.workers|
      ensures Undelivered(s', w) == Undelivered(s, w) && AtRest(c, At(s', w), w, Undelivered(s', w))
    {
      forall r ensures IsUndelivered(s'.dispatches, w, r) <==> IsUndelivered(s.dispatches, w, r) {
        if e :| 0 <= e < |s.dispatches| && Carries(s.dispatches[e], w, r) { assert Carries(s'.dispatches[e], w, r); }
        if e :| 0 <= e < |s.dispatches| && Carries(s'.dispatches[e], w, r) { assert Carries(s.dispatches[e], w, r); }
      }
      assert At(s', w) == At(s, w);
    }
    BooksSent(c, s, s');
  }

  lemma BooksSent(c: Config, s: Engine, s': Engine)
    requires BooksRight(c, s) && s' == s.(dispatches := s'.dispatches)
    ensures BooksRight(c, s')
  {}

  // ----- shutdown --------------------------------------------------------------------------------

  /** A stopped worker's pool is gone; the buffers its device still owned are lost to the books. */
  lemma StoppedStep(c: Config, s: Engine, w: nat, l': Local)
    requires EngineInv(c, s) && w < |s.workers| && OnlyOwn(At(s, w), l', w)
    requires AtRest(c, l', w, Undelivered(s, w)) && l'.me.pool == EMPTY && l'.me.poolBytes == 0
    requires l'.io.inUse == s.io.inUse && l'.io.poolBytes == s.io.poolBytes - s.workers[w].poolBytes
    requires l'.io.submitted == s.io.submitted
    ensures EngineInv(c, With(s, w, l').(lost := s.lost + s.workers[w].pool.Leased()))
  {
    hide Undelivered, Inv, DispatchesRight, AtRest, OnlyOwn, Shaped;
    var s' := With(s, w, l').(lost := s.lost + s.workers[w].pool.Leased());
    OwnLength(At(s, w), l', w);
    SameMessages(s, s');
    AllAtRest(c, s, s', w, l');
    SumsAfter(s.workers, w, l'.me);
  }

  lemma StopStep(c: Config, s: Engine, w: nat)
    requires EngineInv(c, s) && Enabled(c, s, Stop(w))
    ensures EngineInv(c, Next(c, s, Stop(w)))
  {
    hide EngineInv, AtRest, Undelivered, Inv, OnlyOwn, Shaped, FailPending;
    Resting(c, s, w);
    ShutdownKeeps(c, At(s, w), w, Undelivered(s, w));
    StopBooks(c, At(s, w), w, Undelivered(s, w));
    StoppedStep(c, s, w, Shutdown(c, At(s, w)));
  }

  lemma StopBooks(c: Config, l: Local, w: nat, hand: set<nat>)
    requires AtRest(c, l, w, hand) && Shaped(c, l)
    ensures var l' := Shutdown(c, l);
            && l'.me.poolBytes == 0 && l'.io.inUse == l.io.inUse && l'.io.submitted == l.io.submitted
            && l'.io.poolBytes == l.io.poolBytes - l.me.poolBytes
  {
    hide Inv, OnlyOwn, Shaped, FailPending;
    FailPendingKeeps(c, l, w, hand);
  }

  lemma StrandStep(c: Config, s: Engine, w: nat)
    requires EngineInv(c, s) && Enabled(c, s, Strand(w))
    ensures EngineInv(c, Next(c, s, Strand(w)))
  {
    hide EngineInv, Undelivered, Inv, OnlyOwn, Shaped;
    Resting(c, s, w);
    DropPoolKeeps(c, At(s, w), w, Undelivered(s, w));
    StoppedStep(c, s, w, DropPool(c, At(s, w)));
  }

  lemma {:induction false} NoneLeft(ws: seq<Worker>)
    requires forall w | 0 <= w < |ws| :: ws[w].pool.Sound() && !ws[w].pool.initialized
    ensures SumLeased(ws) == 0
  {
    if ws == [] {
    } else {
      NoneLeft(ws[..|ws| - 1]);
    }
  }

  lemma ShapedSound(c: Config, l: Local)
    requires Shaped(c, l)
    ensures l.me.pool.Sound()
  {}

  lemma FinishBooks(c: Config, s: Engine)
    requires BooksRight(c, s) && forall w | 0 <= w < |s.workers| :: s.workers[w].pool.Sound() && !s.workers[w].pool.initialized
    ensures BooksRight(c, s.(io := s.io.(inUse := 0), lost := 0))
  {
    NoneLeft(s.workers);
  }

  /** The end of the teardown: with every pool gone, the bytes in use are set to zero. */
  lemma FinishStep(c: Config, s: Engine)
    requires EngineInv(c, s) && Enabled(c, s, Finish)
    ensures EngineInv(c, Next(c, s, Finish))
  {
    hide AtRest, Undelivered, DispatchesRight, BooksRight, Shaped, StandingRight;
    var s' := Next(c, s, Finish);
    forall w | 0 <= w < |s.workers| ensures s.workers[w].pool.Sound() {
      Resting(c, s, w);
      ShapedSound(c, At(s, w));
    }
    FinishBooks(c, s);
    SameMessages(s, s');
    forall v | 0 <= v < |s.workers| ensures AtRest(c, At(s', v), v, Undelivered(s', v)) {
      CountersOnly(c, At(s, v), At(s', v), v, Undelivered(s, v));
    }
  }

  // Counters that still add up are all that changed.
  lemma CountersOnly(c: Config, l: Local, l': Local, v: nat, hand: set<nat>)
    requires AtRest(c, l, v, hand) && l' == l.(io := l'.io)
    requires l'.io.completed == l.io.completed && l'.io.succeeded == l.io.succeeded
    requires (CountersRight(c, l.io) ==> CountersRight(c, l'.io))
    ensures AtRest(c, l', v, hand)
  {
    hide Ledger, RequestShaped, HoldersRight;
    assert forall q | 0 <= q < |l.requests| :: Places(l', hand, q) == Places(l, hand, q);
    SameBuffers(l, l', v);
    LedgerCounters(c, l);
    BooksKept(c, l, l');
  }
}
