/** What holds in every reachable state of the concurrent store. */
module StoreInvariant {
  import opened Basics
  import opened Segments
  import opened Ownership
  import opened StoreSystem

  // ----- locks -----------------------------------------------------------------------------------

  /** The keys whose locks a worker holds. */
  function Locked(wk: Worker): seq<Key> {
    if wk.freed <= wk.got <= |wk.order| then wk.order[wk.freed..wk.got] else []
  }

  /** How far a worker's lock list is acquired in each stage. */
  ghost predicate LockShape(c: Config, wk: Worker) {
    && wk.freed <= wk.got <= |wk.order|
    && Ranked(c, wk.order)
    && (wk.stage.Idle? ==> wk.order == [])
    && (!wk.stage.Finished? ==> wk.freed == 0)
    && (!wk.stage.Idle? && !wk.stage.Locking? && !wk.stage.Finished? ==> wk.got == |wk.order|)
    && (!wk.stage.Idle? ==> forall k :: k in wk.order <==> k in KeysOf(wk.req.parts))
    && (wk.req.kind in {Delete, Exists} && !wk.stage.Idle? ==> |wk.req.parts| == 1)
  }

  /** The lock table and the workers' lists agree: a key lock has one owner, who lists it as acquired. */
  ghost predicate LocksOk(c: Config, s: State) {
    && (forall w | 0 <= w < |s.workers| :: LockShape(c, s.workers[w]))
    && (forall k | k in s.locks :: s.locks[k] < |s.workers| && k in Locked(s.workers[s.locks[k]]))
    && (forall w, k | 0 <= w < |s.workers| && k in Locked(s.workers[w]) :: k in s.locks && s.locks[k] == w)
  }

  // ----- what each worker knows ------------------------------------------------------------------

  /** The reservations a worker holds in each stage. */
  predicate HoldsReserved(stage: Stage, p: nat) {
    match stage
    case Reserving(next, rs) => p < |rs|
    case Writing(rs, _, _) => p < |rs|
    case RollingBack(rs, next) => next <= p < |rs|
    case _ => false
  }

  predicate HoldsRetiring(stage: Stage, p: nat) {
    stage.Retire? && stage.next <= p < stage.count
  }

  ghost predicate HoldersOk(s: State, w: nat)
    requires w < |s.workers|
  {
    && (forall p: nat :: Reserved(w, p) in s.held <==> HoldsReserved(s.workers[w].stage, p))
    && (forall p: nat | Retiring(w, p) in s.held :: HoldsRetiring(s.workers[w].stage, p))
  }

  ghost predicate IsReserved(rs: seq<nat>, i: nat) {
    exists p :: 0 <= p < |rs| && rs[p] == i
  }

  /** Every reservation is for an earlier part of that size, in request order. */
  ghost predicate Chosen(s: State, w: nat, parts: seq<Part>, rs: seq<nat>, n: nat)
    requires n <= |parts|
  {
    && (forall p | 0 <= p < |rs| ::
          && rs[p] < n && !Mismatch(s.held, parts[rs[p]])
          && Reserved(w, p) in s.held && s.held[Reserved(w, p)].logicalSize == |parts[rs[p]].buffer|)
    && (forall p, q | 0 <= p < q < |rs| :: rs[p] < rs[q])
  }

  /** Every part so far is skipped or reserved. */
  ghost predicate Covered(held: Holdings, parts: seq<Part>, rs: seq<nat>, n: nat)
    requires n <= |parts|
  {
    forall i | 0 <= i < n :: Mismatch(held, parts[i]) || IsReserved(rs, i)
  }

  ghost predicate DistinctKeys(parts: seq<Part>, n: nat)
    requires n <= |parts|
  {
    forall i, j | 0 <= i < j < n :: parts[i].key != parts[j].key
  }

  /** Reservations rs for the first n parts: distinct keys, skipped sizes left out, sizes right. */
  ghost predicate ReservedFor(s: State, w: nat, parts: seq<Part>, rs: seq<nat>, n: nat) {
    n <= |parts| && Chosen(s, w, parts, rs, n) && Covered(s.held, parts, rs, n) && DistinctKeys(parts, n)
  }

  /** Command (p, q) of a store is done: its range holds the staged bytes. */
  ghost predicate CommandWritten(c: Config, s: State, w: nat, buffer: Bytes, p: nat, q: nat)
    requires c.l.Valid()
  {
    var items := CommandsAt(c, s.held, Reserved(w, p));
    && q < |items| && items[q].bufferOffset + items[q].logicalLength <= |buffer|
    && items[q].logicalLength <= items[q].physicalLength
    && Written(s.content, items[q], buffer)
  }

  ghost predicate WritesDone(c: Config, s: State, w: nat, parts: seq<Part>, rs: seq<nat>, todo: set<Command>)
    requires c.l.Valid()
  {
    forall p: nat, q: nat | p < |rs| && q < |CommandsAt(c, s.held, Reserved(w, p))| && (p, q) !in todo ::
      rs[p] < |parts| && CommandWritten(c, s, w, parts[rs[p]].buffer, p, q)
  }

  /** A load's progress: served requests match, and every finished command's bytes are in place. */
  ghost predicate ReadsDone(c: Config, s: State, parts: seq<Part>, todo: set<Command>, success: seq<bool>, out: seq<Bytes>)
    requires c.l.Valid()
  {
    && |success| == |out| == |parts|
    && (forall i | 0 <= i < |parts| :: |out[i]| == |parts[i].buffer|)
    && (forall i | 0 <= i < |parts| && success[i] :: Matches(s.held, parts[i]))
    && (forall i: nat, q: nat | i < |parts| && success[i] && (i, q) !in todo
                                && q < |CommandsAt(c, s.held, Published(parts[i].key))| ::
          Copied(s.content, CommandsAt(c, s.held, Published(parts[i].key))[q], out[i]))
  }

  /** What a successful load returned, as long as it still holds its locks. */
  ghost predicate ReadResult(c: Config, s: State, parts: seq<Part>, success: seq<bool>, out: seq<Bytes>) {
    && |success| == |out| == |parts|
    && forall i | 0 <= i < |parts| && success[i] :: AbsAt(c, s, parts[i].key) == Some(out[i])
  }

  ghost predicate StageOk(c: Config, s: State, w: nat)
    requires c.l.Valid() && w < |s.workers|
  {
    var me := s.workers[w];
    var parts := me.req.parts;
    match me.stage
    case Reserving(next, rs) => me.req.kind == Set && ReservedFor(s, w, parts, rs, next)
    case Writing(rs, todo, failed) =>
      && me.req.kind == Set && ReservedFor(s, w, parts, rs, |parts|)
      && todo <= WriteCommands(c, s.held, w, |rs|)
      && (!failed ==> WritesDone(c, s, w, parts, rs, todo))
    case Reading(todo, success, out) =>
      && me.req.kind == Get && todo <= ReadCommands(c, s.held, parts, |parts|)
      && ReadsDone(c, s, parts, todo, success, out)
    case Finished(success, out) =>
      me.req.kind == Get && me.freed == 0 && me.got == |me.order| ==> ReadResult(c, s, parts, success, out)
    case RollingBack(_, _) => me.req.kind == Set
    case Retire(_, _) => me.req.kind in {Set, Delete}
    case _ => true
  }

  ghost predicate WorkerOk(c: Config, s: State, w: nat)
    requires c.l.Valid() && w < |s.workers|
  {
    HoldersOk(s, w) && StageOk(c, s, w)
  }

  /** Published and log agree key by key. */
  ghost predicate LogOk(c: Config, s: State) {
    forall k :: AbsAt(c, s, k) == Replay(s.log, k)
  }

  /** Only existing workers hold unpublished pages. */
  ghost predicate KnownWorkers(s: State) {
    forall h | h in s.held && !h.Published? :: h.worker < |s.workers|
  }

  ghost predicate Inv(c: Config, s: State) {
    && c.l.Valid() && DistinctRanks(c) && |s.content| == c.l.Capacity() && KnownWorkers(s)
    && OneOwner(c.l, s.held, s.free)
    && LocksOk(c, s)
    && (forall w | 0 <= w < |s.workers| :: WorkerOk(c, s, w))
    && LogOk(c, s)
  }

  // ----- interference ----------------------------------------------------------------------------

  /** The holders whose entries only worker w may change. */
  predicate Mine(wk: Worker, w: nat, h: Holder) {
    match h
    case Published(k) => k in Locked(wk)
    case Reserved(v, _) => v == w
    case Retiring(v, _) => v == w
  }

  /** A step of worker w: other workers, other holders and bytes outside `touched` stay as they are. */
  ghost predicate OnlyMine(c: Config, s: State, s': State, w: nat, touched: set<int>)
    requires c.l.Valid() && w < |s.workers|
  {
    && |s'.workers| == |s.workers|
    && (forall v | 0 <= v < |s.workers| && v != w :: s'.workers[v] == s.workers[v])
    && (forall h | !Mine(s.workers[w], w, h) :: Find(s'.held, h) == Find(s.held, h))
    && OnlyPages(c.l, s.content, s'.content, touched)
    && (forall h | h in s.held && !Mine(s.workers[w], w, h) :: Pages(s.held[h]) !! touched)
  }

  // A key locked by one worker is not locked by another.
  lemma LockedApart(c: Config, s: State, v: nat, w: nat, k: Key)
    requires LocksOk(c, s) && v < |s.workers| && w < |s.workers| && v != w
    requires k in Locked(s.workers[v])
    ensures k !in Locked(s.workers[w])
  {
    hide Locked, LockShape;
    assert s.locks[k] == v;
  }

  // Bytes of an entry's commands survive writes outside its pages.
  lemma CommandBytesKept(l: Layout, e: Entry, q: nat, content: Bytes, content': Bytes, touched: set<int>)
    requires l.Valid() && EntryOk(l, e) && |content| == l.Capacity() && OnlyPages(l, content, content', touched)
    requires Pages(e) !! touched && q < |SegmentsOf(l, e)|
    ensures var item := SegmentsOf(l, e)[q];
            && ValidItem(l, item) && item.byteOffset + item.physicalLength <= |content|
            && content'[item.byteOffset..item.byteOffset + item.physicalLength]
               == content[item.byteOffset..item.byteOffset + item.physicalLength]
            && content'[item.byteOffset..item.byteOffset + item.logicalLength]
               == content[item.byteOffset..item.byteOffset + item.logicalLength]
  {
    hide EntryOk, SegmentsOf, Pages, CommandsOf;
    var item := SegmentsOf(l, e)[q];
    CommandRange(l, e, q);
    forall a | Touches(item, a) ensures content'[a] == content[a] {}
    var lo, mid, hi := item.byteOffset, item.byteOffset + item.logicalLength, item.byteOffset + item.physicalLength;
    SameRange(content, content', lo, hi);
    SameRange(content, content', lo, mid);
  }

  lemma SameRange(content: Bytes, content': Bytes, lo: nat, hi: nat)
    requires lo <= hi <= |content| == |content'|
    requires forall a | lo <= a < hi :: content'[a] == content[a]
    ensures content'[lo..hi] == content[lo..hi]
  {}

  lemma CommandRange(l: Layout, e: Entry, q: nat)
    requires l.Valid() && EntryOk(l, e) && q < |SegmentsOf(l, e)|
    ensures var item := SegmentsOf(l, e)[q];
            && ValidItem(l, item) && 0 <= item.byteOffset && item.byteOffset + item.physicalLength <= l.Capacity()
            && 0 < item.logicalLength && item.bufferOffset + item.logicalLength <= e.logicalSize
            && forall a | Touches(item, a) :: a / l.page in Pages(e)
  {
    hide EntryOk, SegmentsOf, Pages;
    SegmentsAreCommands(l, e);
    assert CommandOf(l, e, SegmentsOf(l, e)[q]);
  }

  /** Worker v's view of the store is the same in both states. */
  ghost predicate SameView(c: Config, s: State, s': State, v: nat)
    requires c.l.Valid() && v < |s.workers|
  {
    && |s'.workers| == |s.workers| && s'.workers[v] == s.workers[v]
    && |s'.content| == |s.content| == c.l.Capacity()
    && (forall h | Mine(s.workers[v], v, h) :: Find(s'.held, h) == Find(s.held, h))
    && (forall h | Mine(s.workers[v], v, h) && h in s.held :: EntryOk(c.l, s.held[h]) && SameBytes(c, s, s', s.held[h]))
  }

  ghost predicate SameBytes(c: Config, s: State, s': State, e: Entry)
    requires c.l.Valid()
  {
    exists touched :: OnlyPages(c.l, s.content, s'.content, touched) && Pages(e) !! touched
  }

  lemma InterferenceFree(c: Config, s: State, s': State, w: nat, touched: set<int>, v: nat)
    requires c.l.Valid() && |s.content| == c.l.Capacity()
    requires LocksOk(c, s) && OneOwner(c.l, s.held, s.free)
    requires w < |s.workers| && v < |s.workers| && v != w && OnlyMine(c, s, s', w, touched)
    ensures SameView(c, s, s', v)
  {
    hide OneOwner, EntryOk, Pages, LocksOk, Locked, OnlyPages;
    LengthKept(c.l, s.content, s'.content, touched);
    forall h | Mine(s.workers[v], v, h) ensures !Mine(s.workers[w], w, h) {
      if h.Published? { LockedApart(c, s, v, w, h.key); }
    }
    forall h | Mine(s.workers[v], v, h) && h in s.held
      ensures EntryOk(c.l, s.held[h]) && SameBytes(c, s, s', s.held[h])
    {
      HoldersApart(c.l, s.held, s.free, h, h);
    }
  }

  lemma LengthKept(l: Layout, content: Bytes, content': Bytes, touched: set<int>)
    requires 0 < l.page && OnlyPages(l, content, content', touched)
    ensures |content'| == |content|
  {}

  lemma SameCommandBytes(c: Config, s: State, s': State, e: Entry, q: nat)
    requires c.l.Valid() && EntryOk(c.l, e) && |s.content| == c.l.Capacity() && SameBytes(c, s, s', e)
    requires q < |SegmentsOf(c.l, e)|
    ensures var item := SegmentsOf(c.l, e)[q];
            && (forall buffer: Bytes :: item.bufferOffset + item.logicalLength <= |buffer|
                 && item.logicalLength <= item.physicalLength && Written(s.content, item, buffer)
                 ==> Written(s'.content, item, buffer))
            && (forall buffer: Bytes :: Copied(s.content, item, buffer) ==> Copied(s'.content, item, buffer))
  {
    hide EntryOk, SegmentsOf, Pages, OnlyPages, Ownership.Staged, Slice;
    var touched :| OnlyPages(c.l, s.content, s'.content, touched) && Pages(e) !! touched;
    LengthKept(c.l, s.content, s'.content, touched);
    CommandBytesKept(c.l, e, q, s.content, s'.content, touched);
  }

  lemma SameValue(c: Config, s: State, s': State, e: Entry)
    requires c.l.Valid() && EntryOk(c.l, e) && |s.content| == c.l.Capacity() && SameBytes(c, s, s', e)
    ensures Value(c.l, s'.content, e) == Value(c.l, s.content, e)
  {
    var touched :| OnlyPages(c.l, s.content, s'.content, touched) && Pages(e) !! touched;
    ValueUndisturbed(c.l, s.content, s'.content, e, touched);
  }

  lemma {:induction false} WriteCommandsKept(c: Config, held: Holdings, held': Holdings, w: nat, n: nat)
    requires c.l.Valid() && forall p: nat | p < n :: Find(held', Reserved(w, p)) == Find(held, Reserved(w, p))
    ensures WriteCommands(c, held', w, n) == WriteCommands(c, held, w, n)
  {
    hide SegmentsOf;
    if n == 0 {
    } else {
      WriteCommandsKept(c, held, held', w, n - 1);
    }
  }

  lemma {:induction false} ReadCommandsKept(c: Config, held: Holdings, held': Holdings, parts: seq<Part>, n: nat)
    requires c.l.Valid() && n <= |parts|
    requires forall i | 0 <= i < n :: Find(held', Published(parts[i].key)) == Find(held, Published(parts[i].key))
    ensures ReadCommands(c, held', parts, n) == ReadCommands(c, held, parts, n)
  {
    hide SegmentsOf;
    if n == 0 {
    } else {
      ReadCommandsKept(c, held, held', parts, n - 1);
    }
  }

  // While all its locks are held, every key of a request is the worker's own.
  lemma PartsAreMine(c: Config, s: State, v: nat)
    requires v < |s.workers| && LockShape(c, s.workers[v])
    requires !s.workers[v].stage.Idle? && s.workers[v].freed == 0 && s.workers[v].got == |s.workers[v].order|
    ensures forall i | 0 <= i < |s.workers[v].req.parts| :: Mine(s.workers[v], v, Published(s.workers[v].req.parts[i].key))
  {
    var me := s.workers[v];
    forall i | 0 <= i < |me.req.parts| ensures Mine(me, v, Published(me.req.parts[i].key)) {
      assert KeysOf(me.req.parts)[i] in KeysOf(me.req.parts);
      assert me.order[0..|me.order|] == me.order;
    }
  }

  /** A worker that sees no difference knows what it knew. */
  lemma ViewKeepsWorker(c: Config, s: State, s': State, v: nat)
    requires c.l.Valid() && v < |s.workers| && LockShape(c, s.workers[v])
    requires WorkerOk(c, s, v) && SameView(c, s, s', v)
    ensures WorkerOk(c, s', v)
  {
    hide SegmentsOf, EntryOk, SameBytes, Value, Locked;
    var me := s.workers[v];
    forall p: nat ensures Reserved(v, p) in s'.held <==> Reserved(v, p) in s.held {
      assert Mine(me, v, Reserved(v, p));
    }
    forall p: nat ensures Retiring(v, p) in s'.held <==> Retiring(v, p) in s.held {
      assert Mine(me, v, Retiring(v, p));
    }
    match me.stage {
      case Reserving(next, rs) =>
        PartsAreMine(c, s, v);
        ReservedForKept(c, s, s', v, rs, next);
      case Writing(rs, todo, failed) =>
        PartsAreMine(c, s, v);
        ReservedForKept(c, s, s', v, rs, |me.req.parts|);
        WriteCommandsKept(c, s.held, s'.held, v, |rs|);
        if !failed { WritesDoneKept(c, s, s', v, rs, todo); }
      case Reading(todo, success, out) =>
        PartsAreMine(c, s, v);
        ReadCommandsKept(c, s.held, s'.held, me.req.parts, |me.req.parts|);
        ReadsDoneKept(c, s, s', v, todo, success, out);
      case Finished(success, out) =>
        if me.req.kind == Get && me.freed == 0 && me.got == |me.order| {
          PartsAreMine(c, s, v);
          ReadResultKept(c, s, s', v, success, out);
        }
      case _ =>
    }
  }

  lemma ReservedForKept(c: Config, s: State, s': State, v: nat, rs: seq<nat>, n: nat)
    requires c.l.Valid() && v < |s.workers| && SameView(c, s, s', v)
    requires n <= |s.workers[v].req.parts| && ReservedFor(s, v, s.workers[v].req.parts, rs, n)
    requires forall i | 0 <= i < |s.workers[v].req.parts| :: Mine(s.workers[v], v, Published(s.workers[v].req.parts[i].key))
    ensures ReservedFor(s', v, s.workers[v].req.parts, rs, n)
  {
    hide SegmentsOf, EntryOk, SameBytes, Locked;
    var parts := s.workers[v].req.parts;
    forall i | 0 <= i < |parts| ensures Mismatch(s'.held, parts[i]) <==> Mismatch(s.held, parts[i]) {
      assert Find(s'.held, Published(parts[i].key)) == Find(s.held, Published(parts[i].key));
    }
    forall p | 0 <= p < |rs| ensures Find(s'.held, Reserved(v, p)) == Find(s.held, Reserved(v, p)) {
      assert Mine(s.workers[v], v, Reserved(v, p));
    }
  }

  lemma WritesDoneKept(c: Config, s: State, s': State, v: nat, rs: seq<nat>, todo: set<Command>)
    requires c.l.Valid() && v < |s.workers| && SameView(c, s, s', v)
    requires WritesDone(c, s, v, s.workers[v].req.parts, rs, todo)
    ensures WritesDone(c, s', v, s.workers[v].req.parts, rs, todo)
  {
    hide SegmentsOf, EntryOk, SameBytes, Locked, Written;
    var parts := s.workers[v].req.parts;
    forall p: nat, q: nat | p < |rs| && q < |CommandsAt(c, s'.held, Reserved(v, p))| && (p, q) !in todo
      ensures rs[p] < |parts| && CommandWritten(c, s', v, parts[rs[p]].buffer, p, q)
    {
      var h := Reserved(v, p);
      assert Mine(s.workers[v], v, h) && Find(s'.held, h) == Find(s.held, h);
      assert CommandWritten(c, s, v, parts[rs[p]].buffer, p, q);
      SameCommandBytes(c, s, s', s.held[h], q);
    }
  }

  lemma ReadsDoneKept(c: Config, s: State, s': State, v: nat, todo: set<Command>, success: seq<bool>, out: seq<Bytes>)
    requires c.l.Valid() && v < |s.workers| && SameView(c, s, s', v)
    requires ReadsDone(c, s, s.workers[v].req.parts, todo, success, out)
    requires forall i | 0 <= i < |s.workers[v].req.parts| :: Mine(s.workers[v], v, Published(s.workers[v].req.parts[i].key))
    ensures ReadsDone(c, s', s.workers[v].req.parts, todo, success, out)
  {
    hide SegmentsOf, EntryOk, SameBytes, Locked, Copied;
    var parts := s.workers[v].req.parts;
    forall i | 0 <= i < |parts|
      ensures Find(s'.held, Published(parts[i].key)) == Find(s.held, Published(parts[i].key))
    {
      assert Mine(s.workers[v], v, Published(parts[i].key));
    }
    forall i: nat, q: nat | i < |parts| && success[i] && (i, q) !in todo
                            && q < |CommandsAt(c, s'.held, Published(parts[i].key))|
      ensures Copied(s'.content, CommandsAt(c, s'.held, Published(parts[i].key))[q], out[i])
    {
      var h := Published(parts[i].key);
      assert Find(s'.held, h) == Find(s.held, h);
      assert Copied(s.content, CommandsAt(c, s.held, h)[q], out[i]);
      SameCommandBytes(c, s, s', s.held[h], q);
    }
  }

  lemma ReadResultKept(c: Config, s: State, s': State, v: nat, success: seq<bool>, out: seq<Bytes>)
    requires c.l.Valid() && v < |s.workers| && SameView(c, s, s', v)
    requires ReadResult(c, s, s.workers[v].req.parts, success, out)
    requires forall i | 0 <= i < |s.workers[v].req.parts| :: Mine(s.workers[v], v, Published(s.workers[v].req.parts[i].key))
    ensures ReadResult(c, s', s.workers[v].req.parts, success, out)
  {
    hide EntryOk, SameBytes, Locked, Value;
    var parts := s.workers[v].req.parts;
    forall i | 0 <= i < |parts| && success[i] ensures AbsAt(c, s', parts[i].key) == Some(out[i]) {
      var h := Published(parts[i].key);
      assert Mine(s.workers[v], v, h) && Find(s'.held, h) == Find(s.held, h);
      assert AbsAt(c, s, parts[i].key) == Some(out[i]);
      SameValue(c, s, s', s.held[h]);
    }
  }
}
