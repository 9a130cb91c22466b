/** Every step of the concurrent store keeps the invariant and is an atomic step of the abstract store. */
module StoreSteps {
  import opened Basics
  import opened Segments
  import opened Ownership
  import opened StoreSystem
  import opened StoreInvariant

  // ----- assembling a step -----------------------------------------------------------------------

  lemma StepKeepsInv(c: Config, s: State, s': State, w: nat, touched: set<int>)
    requires Inv(c, s) && w < |s.workers| && OnlyMine(c, s, s', w, touched)
    requires OneOwner(c.l, s'.held, s'.free) && LocksOk(c, s') && WorkerOk(c, s', w) && LogOk(c, s')
    ensures Inv(c, s')
  {
    hide OneOwner, LocksOk, LogOk, DistinctRanks, WorkerOk, OnlyPages, LockShape;
    LengthKept(c.l, s.content, s'.content, touched);
    forall h | h in s'.held && !h.Published? ensures h.worker < |s'.workers| {
      if h.worker != w { assert Find(s'.held, h) == Find(s.held, h); }
    }
    forall v | 0 <= v < |s'.workers| ensures WorkerOk(c, s', v) {
      if v != w {
        InterferenceFree(c, s, s', w, touched, v);
        Shapes(c, s, v);
        ViewKeepsWorker(c, s, s', v);
      }
    }
  }

  lemma Shapes(c: Config, s: State, v: nat)
    requires LocksOk(c, s) && v < |s.workers|
    ensures LockShape(c, s.workers[v])
  {}

  /** No published entry moves and no byte of one changes. */
  ghost predicate PublishedAlone(c: Config, s: State, s': State, touched: set<int>)
    requires c.l.Valid()
  {
    && (forall k :: Find(s'.held, Published(k)) == Find(s.held, Published(k)))
    && OnlyPages(c.l, s.content, s'.content, touched)
    && (forall k | Published(k) in s.held :: Pages(s.held[Published(k)]) !! touched)
  }

  lemma AbsAlone(c: Config, s: State, s': State, touched: set<int>)
    requires Inv(c, s) && PublishedAlone(c, s, s', touched) && s'.log == s.log
    ensures forall k :: AbsAt(c, s', k) == AbsAt(c, s, k)
    ensures LogOk(c, s')
  {
    hide EntryOk, Pages, OnlyPages, LocksOk, WorkerOk, OneOwner, DistinctRanks;
    forall k ensures AbsAt(c, s', k) == AbsAt(c, s, k) {
      var h := Published(k);
      assert Find(s'.held, h) == Find(s.held, h);
      if h in s.held {
        HoldersApart(c.l, s.held, s.free, h, h);
        ValueUndisturbed(c.l, s.content, s'.content, s.held[h], touched);
      }
    }
    forall k ensures AbsAt(c, s', k) == Replay(s'.log, k) {
      assert AbsAt(c, s, k) == Replay(s.log, k);
    }
  }

  lemma NothingTouched(l: Layout, content: Bytes)
    requires 0 < l.page
    ensures OnlyPages(l, content, content, {})
  {}

  /** Only the worker's own record and the lock table change. */
  lemma BookkeepingStep(c: Config, s: State, s': State, w: nat)
    requires Inv(c, s) && w < |s.workers|
    requires s'.held == s.held && s'.free == s.free && s'.content == s.content && s'.log == s.log
    requires |s'.workers| == |s.workers| && forall v | 0 <= v < |s.workers| && v != w :: s'.workers[v] == s.workers[v]
    requires LocksOk(c, s') && WorkerOk(c, s', w)
    ensures Inv(c, s') && forall k :: AbsAt(c, s', k) == AbsAt(c, s, k)
  {
    hide OneOwner, LocksOk, WorkerOk, OnlyPages, DistinctRanks, Mine;
    NothingTouched(c.l, s.content);
    AbsAlone(c, s, s', {});
    StepKeepsInv(c, s, s', w, {});
  }

  /** A worker's lock list and the lock table change together, for keys nobody else holds. */
  lemma LocksChange(c: Config, s: State, s': State, w: nat)
    requires LocksOk(c, s) && w < |s.workers| == |s'.workers| && LockShape(c, s'.workers[w])
    requires forall v | 0 <= v < |s.workers| && v != w :: s'.workers[v] == s.workers[v]
    requires forall k | k in Locked(s'.workers[w]) ::
      k in s'.locks && s'.locks[k] == w && (k in s.locks ==> k in Locked(s.workers[w]))
    requires forall k | k in Locked(s.workers[w]) && k !in Locked(s'.workers[w]) :: k !in s'.locks
    requires forall k | k !in Locked(s.workers[w]) && k !in Locked(s'.workers[w]) ::
      (k in s'.locks <==> k in s.locks) && (k in s.locks ==> s'.locks[k] == s.locks[k])
    ensures LocksOk(c, s')
  {
    hide Locked, LockShape;
    forall k | k in s'.locks ensures s'.locks[k] < |s'.workers| && k in Locked(s'.workers[s'.locks[k]]) {
      if k !in Locked(s'.workers[w]) {
        assert k in s.locks;
        assert k in Locked(s.workers[s.locks[k]]);
      }
    }
    forall v, k | 0 <= v < |s'.workers| && k in Locked(s'.workers[v]) ensures k in s'.locks && s'.locks[k] == v {
      if v != w { LockOwner(c, s, v, w, k); }
    }
  }

  lemma LockOwner(c: Config, s: State, v: nat, w: nat, k: Key)
    requires LocksOk(c, s) && v < |s.workers| && w < |s.workers| && v != w
    requires k in Locked(s.workers[v])
    ensures k !in Locked(s.workers[w]) && k in s.locks && s.locks[k] == v
  {
    LockedApart(c, s, v, w, k);
    hide Locked, LockShape;
  }

  lemma OwnLocks(c: Config, s: State, w: nat)
    requires LocksOk(c, s) && w < |s.workers|
    ensures LockShape(c, s.workers[w])
    ensures forall k | k in Locked(s.workers[w]) :: k in s.locks && s.locks[k] == w
  {
    hide Locked, LockShape;
  }

  /** A worker that changes its stage only keeps the lock table right. */
  lemma StageKeepsLocks(c: Config, s: State, s': State, w: nat)
    requires LocksOk(c, s) && w < |s.workers| && s'.locks == s.locks
    requires |s'.workers| == |s.workers| && forall v | 0 <= v < |s.workers| && v != w :: s'.workers[v] == s.workers[v]
    requires var me, me' := s.workers[w], s'.workers[w];
             && me'.req == me.req && me'.order == me.order && me'.got == me.got && me'.freed == me.freed
    requires LockShape(c, s'.workers[w])
    ensures LocksOk(c, s')
  {
    hide LockShape, LocksOk;
    OwnLocks(c, s, w);
    LocksChange(c, s, s', w);
  }

  // ----- lock steps ------------------------------------------------------------------------------

  lemma BeginStep(c: Config, s: State, w: nat, req: Request)
    requires Inv(c, s) && Enabled(c, s, w, Begin(req))
    ensures Inv(c, Next(c, s, w, Begin(req)))
    ensures forall k :: AbsAt(c, Next(c, s, w, Begin(req)), k) == AbsAt(c, s, k)
  {
    hide OneOwner, LogOk, LockOrder, Value, LocksOk, DistinctRanks;
    var s' := Next(c, s, w, Begin(req));
    LockOrderRanked(c, KeysOf(req.parts));
    OwnLocks(c, s, w);
    LocksChange(c, s, s', w);
    assert WorkerOk(c, s, w);
    BookkeepingStep(c, s, s', w);
  }

  lemma AcquireStep(c: Config, s: State, w: nat)
    requires Inv(c, s) && Enabled(c, s, w, Acquire)
    ensures Inv(c, Next(c, s, w, Acquire))
    ensures forall k :: AbsAt(c, Next(c, s, w, Acquire), k) == AbsAt(c, s, k)
  {
    hide OneOwner, LogOk, Value, DistinctRanks, LocksOk;
    var s', me := Next(c, s, w, Acquire), s.workers[w];
    OwnLocks(c, s, w);
    assert Locked(s'.workers[w]) == Locked(me) + [me.order[me.got]];
    LocksChange(c, s, s', w);
    assert WorkerOk(c, s, w);
    BookkeepingStep(c, s, s', w);
  }

  lemma UnlockStep(c: Config, s: State, w: nat)
    requires Inv(c, s) && Enabled(c, s, w, Unlock)
    ensures Inv(c, Next(c, s, w, Unlock))
    ensures forall k :: AbsAt(c, Next(c, s, w, Unlock), k) == AbsAt(c, s, k)
  {
    hide OneOwner, LogOk, Value, DistinctRanks, LocksOk, Ranked, KeysOf, AbsAt, Locked;
    var s', me := Next(c, s, w, Unlock), s.workers[w];
    OwnLocks(c, s, w);
    if me.freed < me.got {
      FirstLock(c, me);
    } else {
      NoLocks(c, me);
    }
    LocksChange(c, s, s', w);
    assert WorkerOk(c, s, w);
    BookkeepingStep(c, s, s', w);
  }

  lemma NoLocks(c: Config, me: Worker)
    requires LockShape(c, me) && me.freed == me.got
    ensures Locked(me) == [] && Locked(Worker(me.req, [], 0, 0, Idle, me.since)) == []
    ensures LockShape(c, Worker(me.req, [], 0, 0, Idle, me.since))
  {}

  // The lowest lock still held is held once.
  lemma FirstLock(c: Config, me: Worker)
    requires LockShape(c, me) && me.freed < me.got
    ensures var rest := me.(freed := me.freed + 1);
            && (forall k :: k in Locked(me) <==> k == me.order[me.freed] || k in Locked(rest))
            && me.order[me.freed] !in Locked(rest)
  {
    var rest := me.(freed := me.freed + 1);
    assert Locked(me) == [me.order[me.freed]] + Locked(rest);
    OrderDistinct(c, me.order);
  }

  lemma OrderDistinct(c: Config, order: seq<Key>)
    requires Ranked(c, order)
    ensures forall i, j | 0 <= i < j < |order| :: order[i] != order[j]
  {}

  // ----- steps that only change the worker's stage -----------------------------------------------

  lemma StageStep(c: Config, s: State, w: nat, stage: Stage)
    requires Inv(c, s) && w < |s.workers| && !s.workers[w].stage.Idle? && !s.workers[w].stage.Finished?
    requires s.workers[w].got == |s.workers[w].order| && !stage.Idle? && !stage.Locking?
    requires WorkerOk(c, SetStage(s, w, stage), w)
    ensures Inv(c, SetStage(s, w, stage))
    ensures forall k :: AbsAt(c, SetStage(s, w, stage), k) == AbsAt(c, s, k)
  {
    hide OneOwner, LogOk, Value, DistinctRanks, LocksOk, WorkerOk;
    var s' := SetStage(s, w, stage);
    OwnLocks(c, s, w);
    StageKeepsLocks(c, s, s', w);
    BookkeepingStep(c, s, s', w);
  }

  lemma {:induction false} InWriteCommands(c: Config, held: Holdings, w: nat, n: nat, p: nat, q: nat)
    requires c.l.Valid()
    ensures (p, q) in WriteCommands(c, held, w, n) <==> p < n && q < |CommandsAt(c, held, Reserved(w, p))|
  {
    hide SegmentsOf;
    if n == 0 {
    } else {
      InWriteCommands(c, held, w, n - 1, p, q);
    }
  }

  lemma {:induction false} InReadCommands(c: Config, held: Holdings, parts: seq<Part>, n: nat, i: nat, q: nat)
    requires c.l.Valid() && n <= |parts|
    ensures (i, q) in ReadCommands(c, held, parts, n)
            <==> i < n && Matches(held, parts[i]) && q < |CommandsAt(c, held, Published(parts[i].key))|
  {
    hide SegmentsOf;
    if n == 0 {
    } else {
      InReadCommands(c, held, parts, n - 1, i, q);
    }
  }

  /** The event a step adds to the history: a finished store that wrote everything, or a delete that found its key. */
  ghost function EventOf(c: Config, s: State, w: nat, a: Action): Option<Event>
    requires c.l.Valid() && Enabled(c, s, w, a)
  {
    var me := s.workers[w];
    if a.FinishWrite? && !me.stage.failed then Some(Stored(w, me.req.parts))
    else if a.Enter? && me.req.kind == Delete && Published(me.req.parts[0].key) in s.held
      then Some(Deleted(w, me.req.parts[0].key))
    else None
  }

  ghost predicate AtomicStep(c: Config, s: State, w: nat, a: Action)
    requires c.l.Valid() && Enabled(c, s, w, a)
  {
    var s', e := Next(c, s, w, a), EventOf(c, s, w, a);
    && s'.log == (if e.Some? then s.log + [e.value] else s.log)
    && forall k :: AbsAt(c, s', k) == if e.Some? then After(AbsAt(c, s, k), e.value, k) else AbsAt(c, s, k)
  }

  lemma EnterStep(c: Config, s: State, w: nat)
    requires Inv(c, s) && Enabled(c, s, w, Enter)
    ensures Inv(c, Next(c, s, w, Enter)) && AtomicStep(c, s, w, Enter)
  {
    hide OneOwner, LogOk, Value, DistinctRanks, LocksOk, SegmentsOf, Copied;
    var me := s.workers[w];
    var parts, s' := me.req.parts, Next(c, s, w, Enter);
    OwnLocks(c, s, w);
    assert WorkerOk(c, s, w);
    match me.req.kind {
      case Set => StageStep(c, s, w, Reserving(0, []));
      case Get =>
        var stage := s'.workers[w].stage;
        forall i: nat, q: nat | i < |parts| && stage.success[i] && q < |CommandsAt(c, s.held, Published(parts[i].key))|
          ensures (i, q) in stage.todo
        {
          InReadCommands(c, s.held, parts, |parts|, i, q);
        }
        StageStep(c, s, w, stage);
      case Delete =>
        if Published(parts[0].key) in s.held {
          UnpublishStep(c, s, w, parts[0].key);
        } else {
          StageStep(c, s, w, Finished([false], []));
        }
      case Exists => StageStep(c, s, w, s'.workers[w].stage);
    }
  }

  // Delete: the entry leaves the key for retirement.
  lemma UnpublishStep(c: Config, s: State, w: nat, key: Key)
    requires Inv(c, s) && Enabled(c, s, w, Enter) && s.workers[w].req.kind == Delete
    requires s.workers[w].req.parts[0].key == key && Published(key) in s.held
    ensures Inv(c, Next(c, s, w, Enter))
    ensures forall k :: AbsAt(c, Next(c, s, w, Enter), k) == After(AbsAt(c, s, k), Deleted(w, key), k)
  {
    hide OneOwner, Value, DistinctRanks, LocksOk, SegmentsOf, Pages, OnlyPages;
    var s', me := Next(c, s, w, Enter), s.workers[w];
    OwnLocks(c, s, w);
    assert WorkerOk(c, s, w);
    assert Retiring(w, 0) !in s.held;
    PassPages(c.l, s.held, s.free, Published(key), Retiring(w, 0));
    StageKeepsLocks(c, s, s', w);
    NothingTouched(c.l, s.content);
    PartsAreMine(c, s, w);
    ReplaySnoc(s.log, Deleted(w, key));
    assert forall k :: AbsAt(c, s, k) == Replay(s.log, k);
    StepKeepsInv(c, s, s', w, {});
  }

  lemma ReplaySnoc(log: seq<Event>, e: Event)
    ensures forall k :: Replay(log + [e], k) == After(Replay(log, k), e, k)
  {
    assert (log + [e])[..|log|] == log;
  }

  // ----- reservation -----------------------------------------------------------------------------

  lemma SameMismatch(held: Holdings, held': Holdings, parts: seq<Part>)
    requires forall k :: Find(held', Published(k)) == Find(held, Published(k))
    ensures forall i | 0 <= i < |parts| :: Mismatch(held', parts[i]) <==> Mismatch(held, parts[i])
  {
    forall i | 0 <= i < |parts| ensures Mismatch(held', parts[i]) <==> Mismatch(held, parts[i]) {
      assert Find(held', Published(parts[i].key)) == Find(held, Published(parts[i].key));
    }
  }

  lemma SameReserved(s: State, s': State, w: nat, parts: seq<Part>, rs: seq<nat>, n: nat)
    requires ReservedFor(s, w, parts, rs, n)
    requires forall k :: Find(s'.held, Published(k)) == Find(s.held, Published(k))
    requires forall p: nat | p < |rs| :: Find(s'.held, Reserved(w, p)) == Find(s.held, Reserved(w, p))
    ensures ReservedFor(s', w, parts, rs, n)
  {
    hide Mismatch;
    SameMismatch(s.held, s'.held, parts);
    forall p | 0 <= p < |rs| ensures Find(s'.held, Reserved(w, p)) == Find(s.held, Reserved(w, p)) {}
  }

  // A fresh key extends the reservations by at most one.
  lemma ReservedExtended(s: State, w: nat, parts: seq<Part>, rs: seq<nat>, n: nat, more: bool)
    requires n < |parts| && ReservedFor(s, w, parts, rs, n) && parts[n].key !in KeysOf(parts[..n])
    requires more <==> !Mismatch(s.held, parts[n])
    requires more ==> Reserved(w, |rs|) in s.held && s.held[Reserved(w, |rs|)].logicalSize == |parts[n].buffer|
    ensures ReservedFor(s, w, parts, if more then rs + [n] else rs, n + 1)
  {
    hide Mismatch, Chosen, Covered, DistinctKeys;
    ChosenExtended(s, w, parts, rs, n, more);
    CoveredExtended(s.held, parts, rs, n, more);
    DistinctExtended(parts, n);
  }

  lemma ChosenExtended(s: State, w: nat, parts: seq<Part>, rs: seq<nat>, n: nat, more: bool)
    requires n < |parts| && Chosen(s, w, parts, rs, n) && (more ==> !Mismatch(s.held, parts[n]))
    requires more ==> Reserved(w, |rs|) in s.held && s.held[Reserved(w, |rs|)].logicalSize == |parts[n].buffer|
    ensures Chosen(s, w, parts, if more then rs + [n] else rs, n + 1)
  {
    hide Mismatch;
    if more {
      var rs' := rs + [n];
      forall p | 0 <= p < |rs'|
        ensures rs'[p] < n + 1 && !Mismatch(s.held, parts[rs'[p]])
                && Reserved(w, p) in s.held && s.held[Reserved(w, p)].logicalSize == |parts[rs'[p]].buffer|
      {
        if p < |rs| { assert rs'[p] == rs[p]; }
      }
      forall p, q | 0 <= p < q < |rs'| ensures rs'[p] < rs'[q] {
        if q < |rs| { assert rs'[p] == rs[p] && rs'[q] == rs[q]; }
      }
    }
  }

  lemma DistinctExtended(parts: seq<Part>, n: nat)
    requires n < |parts| && DistinctKeys(parts, n) && parts[n].key !in KeysOf(parts[..n])
    ensures DistinctKeys(parts, n + 1)
  {
    forall i | 0 <= i < n ensures parts[i].key != parts[n].key {
      assert KeysOf(parts[..n])[i] in KeysOf(parts[..n]);
    }
  }

  lemma CoveredExtended(held: Holdings, parts: seq<Part>, rs: seq<nat>, n: nat, more: bool)
    requires n < |parts| && Covered(held, parts, rs, n) && (more <==> !Mismatch(held, parts[n]))
    ensures Covered(held, parts, if more then rs + [n] else rs, n + 1)
  {
    hide Mismatch;
    var rs' := if more then rs + [n] else rs;
    forall i | 0 <= i < n + 1 && !Mismatch(held, parts[i]) ensures IsReserved(rs', i) {
      var p := if i == n then |rs| else var q :| 0 <= q < |rs| && rs[q] == i; q;
      assert rs'[p] == i;
    }
  }

  lemma ReserveStep(c: Config, s: State, w: nat, entry: Option<Entry>)
    requires Inv(c, s) && Enabled(c, s, w, Reserve(entry))
    ensures Inv(c, Next(c, s, w, Reserve(entry)))
    ensures forall k :: AbsAt(c, Next(c, s, w, Reserve(entry)), k) == AbsAt(c, s, k)
  {
    hide OneOwner, LogOk, Value, DistinctRanks, LocksOk, SegmentsOf, ReservedFor, AbsAt, Pages, EntryOk;
    var me := s.workers[w];
    var parts, next, rs := me.req.parts, me.stage.next, me.stage.rs;
    OwnLocks(c, s, w);
    assert WorkerOk(c, s, w);
    if parts[next].key in KeysOf(parts[..next]) || parts[next].buffer == [] {
      StageStep(c, s, w, RollingBack(rs, 0));
    } else if Mismatch(s.held, parts[next]) {
      SameReserved(s, Next(c, s, w, Reserve(entry)), w, parts, rs, next);
      ReservedExtended(Next(c, s, w, Reserve(entry)), w, parts, rs, next, false);
      StageStep(c, s, w, Reserving(next + 1, rs));
    } else if entry.None? {
      StageStep(c, s, w, RollingBack(rs, 0));
    } else {
      TakeStep(c, s, w, entry.value);
    }
  }

  lemma TakeStep(c: Config, s: State, w: nat, e: Entry)
    requires Inv(c, s) && Enabled(c, s, w, Reserve(Some(e)))
    ensures Inv(c, Next(c, s, w, Reserve(Some(e))))
    ensures forall k :: AbsAt(c, Next(c, s, w, Reserve(Some(e))), k) == AbsAt(c, s, k)
  {
    hide OneOwner, LogOk, Value, DistinctRanks, LocksOk, SegmentsOf, ReservedFor, AbsAt, Pages, EntryOk, OnlyPages;
    var s', me := Next(c, s, w, Reserve(Some(e))), s.workers[w];
    var rs := me.stage.rs;
    OwnLocks(c, s, w);
    assert WorkerOk(c, s, w);
    assert Reserved(w, |rs|) !in s.held;
    TakePages(c.l, s.held, s.free, Reserved(w, |rs|), e);
    StageKeepsLocks(c, s, s', w);
    NothingTouched(c.l, s.content);
    SameReserved(s, s', w, me.req.parts, rs, me.stage.next);
    ReservedExtended(s', w, me.req.parts, rs, me.stage.next, true);
    AbsAlone(c, s, s', {});
    StepKeepsInv(c, s, s', w, {});
  }

  // ----- device writes ---------------------------------------------------------------------------

  lemma StartWriteStep(c: Config, s: State, w: nat)
    requires Inv(c, s) && Enabled(c, s, w, StartWrite)
    ensures Inv(c, Next(c, s, w, StartWrite))
    ensures forall k :: AbsAt(c, Next(c, s, w, StartWrite), k) == AbsAt(c, s, k)
  {
    hide OneOwner, LogOk, Value, DistinctRanks, LocksOk, SegmentsOf, Chosen, Covered, DistinctKeys, AbsAt, CommandWritten;
    var me := s.workers[w];
    var rs, parts, todo := me.stage.rs, me.req.parts, WriteCommands(c, s.held, w, |me.stage.rs|);
    OwnLocks(c, s, w);
    assert WorkerOk(c, s, w);
    var s' := SetStage(s, w, Writing(rs, todo, false));
    SameReserved(s, s', w, parts, rs, |parts|);
    forall p: nat, q: nat | p < |rs| && q < |CommandsAt(c, s.held, Reserved(w, p))| ensures (p, q) in todo {
      InWriteCommands(c, s.held, w, |rs|, p, q);
    }
    StageStep(c, s, w, Writing(rs, todo, false));
  }

  lemma WriteUnavailableStep(c: Config, s: State, w: nat)
    requires Inv(c, s) && Enabled(c, s, w, WriteUnavailable)
    ensures Inv(c, Next(c, s, w, WriteUnavailable))
    ensures forall k :: AbsAt(c, Next(c, s, w, WriteUnavailable), k) == AbsAt(c, s, k)
  {
    hide OneOwner, LogOk, Value, DistinctRanks, LocksOk, SegmentsOf, ReservedFor, AbsAt, WritesDone, WriteCommands;
    OwnLocks(c, s, w);
    assert WorkerOk(c, s, w);
    StageStep(c, s, w, RollingBack(s.workers[w].stage.rs, 0));
  }

  // Bytes written by one command of an entry stay inside the entry's pages.
  lemma OverwriteInEntry(l: Layout, e: Entry, q: nat, content: Bytes, data: Bytes)
    requires l.Valid() && EntryOk(l, e) && q < |SegmentsOf(l, e)| && |content| == l.Capacity()
    requires |data| == SegmentsOf(l, e)[q].physicalLength
    ensures var item := SegmentsOf(l, e)[q];
            && 0 <= item.byteOffset && item.byteOffset + |data| <= |content|
            && OnlyPages(l, content, Overwrite(content, item.byteOffset, data), Pages(e))
  {
    hide EntryOk, SegmentsOf, Pages;
    CommandRange(l, e, q);
    var item := SegmentsOf(l, e)[q];
    var content' := Overwrite(content, item.byteOffset, data);
    forall a | 0 <= a < |content| && content'[a] != content[a] ensures a / l.page in Pages(e) {
      assert Touches(item, a);
    }
  }

  lemma CommandsApart(l: Layout, e: Entry, q: nat, q': nat)
    requires l.Valid() && EntryOk(l, e) && q < |SegmentsOf(l, e)| && q' < |SegmentsOf(l, e)| && q != q'
    ensures RangesApart(SegmentsOf(l, e)[q], SegmentsOf(l, e)[q'])
  {
    hide EntryOk, SegmentsOf;
    SegmentsAreCommands(l, e);
  }

  lemma ApartKeepsWritten(content: Bytes, offset: nat, data: Bytes, other: IoBatchItem, buffer: Bytes)
    requires offset + |data| <= |content|
    requires other.bufferOffset + other.logicalLength <= |buffer| && other.logicalLength <= other.physicalLength
    requires Written(content, other, buffer)
    requires offset + |data| <= other.byteOffset || other.byteOffset + other.physicalLength <= offset
    ensures Written(Overwrite(content, offset, data), other, buffer)
  {
    hide Staged, Slice;
    SameRange(content, Overwrite(content, offset, data), other.byteOffset, other.byteOffset + other.physicalLength);
  }

  // A command's range survives any other command of the same store.
  lemma WrittenStays(c: Config, s: State, s': State, w: nat, cmd: Command, data: Bytes, buffer: Bytes, p: nat, q: nat)
    requires Inv(c, s) && CanWrite(c, s, w, cmd) && |data| == WriteItem(c, s, w, cmd).physicalLength
    requires s'.held == s.held && s'.content == Overwrite(s.content, WriteItem(c, s, w, cmd).byteOffset, data)
    requires (p, q) != cmd && Reserved(w, p) in s.held && CommandWritten(c, s, w, buffer, p, q)
    ensures CommandWritten(c, s', w, buffer, p, q)
  {
    hide OneOwner, LogOk, Value, DistinctRanks, LocksOk, SegmentsOf, Pages, EntryOk, OnlyPages, WorkerOk, Written;
    var h, g := Reserved(w, cmd.0), Reserved(w, p);
    HoldersApart(c.l, s.held, s.free, h, g);
    if p == cmd.0 {
      CommandsApart(c.l, s.held[h], cmd.1, q);
      ApartKeepsWritten(s.content, WriteItem(c, s, w, cmd).byteOffset, data, SegmentsOf(c.l, s.held[g])[q], buffer);
    } else {
      OverwriteInEntry(c.l, s.held[h], cmd.1, s.content, data);
      SameBytesByPages(c, s, s', s.held[g], Pages(s.held[h]));
      SameCommandBytes(c, s, s', s.held[g], q);
    }
  }

  lemma SameBytesByPages(c: Config, s: State, s': State, e: Entry, touched: set<int>)
    requires c.l.Valid() && OnlyPages(c.l, s.content, s'.content, touched) && Pages(e) !! touched
    ensures SameBytes(c, s, s', e)
  {
    hide Pages, OnlyPages;
  }

  /** Bytes put on the device inside one of a store's own reservations are invisible to everybody else. */
  lemma DeviceStep(c: Config, s: State, s': State, w: nat, cmd: Command, data: Bytes, stage: Stage)
    requires Inv(c, s) && CanWrite(c, s, w, cmd) && |data| == WriteItem(c, s, w, cmd).physicalLength
    requires s' == SetStage(s.(content := Overwrite(s.content, WriteItem(c, s, w, cmd).byteOffset, data)), w, stage)
    requires stage.Writing? && stage.rs == s.workers[w].stage.rs && stage.todo <= s.workers[w].stage.todo
    requires !stage.failed ==> WritesDone(c, s', w, s.workers[w].req.parts, stage.rs, stage.todo)
    ensures Inv(c, s') && forall k :: AbsAt(c, s', k) == AbsAt(c, s, k)
  {
    hide OneOwner, LogOk, Value, DistinctRanks, LocksOk, SegmentsOf, Chosen, Covered, DistinctKeys, AbsAt, Pages, EntryOk,
      OnlyPages, WritesDone;
    var me := s.workers[w];
    var h := Reserved(w, cmd.0);
    OwnLocks(c, s, w);
    assert WorkerOk(c, s, w);
    OverwriteInEntry(c.l, s.held[h], cmd.1, s.content, data);
    forall g | g in s.held && g != h ensures Pages(s.held[g]) !! Pages(s.held[h]) {
      HoldersApart(c.l, s.held, s.free, g, h);
    }
    StageKeepsLocks(c, s, s', w);
    SameReserved(s, s', w, me.req.parts, stage.rs, |me.req.parts|);
    WriteCommandsKept(c, s.held, s'.held, w, |stage.rs|);
    AbsAlone(c, s, s', Pages(s.held[h]));
    StepKeepsInv(c, s, s', w, Pages(s.held[h]));
  }

  lemma WriteCommandStep(c: Config, s: State, w: nat, cmd: Command, ok: bool, junk: Bytes)
    requires Inv(c, s) && Enabled(c, s, w, WriteCommand(cmd, ok, junk))
    ensures Inv(c, Next(c, s, w, WriteCommand(cmd, ok, junk)))
    ensures forall k :: AbsAt(c, Next(c, s, w, WriteCommand(cmd, ok, junk)), k) == AbsAt(c, s, k)
  {
    hide OneOwner, LogOk, Value, DistinctRanks, LocksOk, SegmentsOf, ReservedFor, AbsAt, Pages, EntryOk, WriteCommands, HoldersOk;
    var me, s' := s.workers[w], Next(c, s, w, WriteCommand(cmd, ok, junk));
    var rs, parts, item := me.stage.rs, me.req.parts, WriteItem(c, s, w, cmd);
    var buffer := parts[rs[cmd.0]].buffer;
    var data := if ok then Staged(Slice(buffer, item), item.physicalLength) else junk;
    var stage := s'.workers[w].stage;
    assert WorkerOk(c, s, w);
    if !stage.failed {
      forall p: nat, q: nat | p < |rs| && q < |CommandsAt(c, s'.held, Reserved(w, p))| && (p, q) !in stage.todo
        ensures rs[p] < |parts| && CommandWritten(c, s', w, parts[rs[p]].buffer, p, q)
      {
        if (p, q) != cmd { WrittenStays(c, s, s', w, cmd, data, parts[rs[p]].buffer, p, q); }
      }
    }
    DeviceStep(c, s, s', w, cmd, data, stage);
  }

  lemma ScrambleStep(c: Config, s: State, w: nat, cmd: Command, junk: Bytes)
    requires Inv(c, s) && Enabled(c, s, w, Scramble(cmd, junk))
    ensures Inv(c, Next(c, s, w, Scramble(cmd, junk)))
    ensures forall k :: AbsAt(c, Next(c, s, w, Scramble(cmd, junk)), k) == AbsAt(c, s, k)
  {
    hide OneOwner, LogOk, Value, DistinctRanks, LocksOk, SegmentsOf, ReservedFor, AbsAt, Pages, EntryOk, WriteCommands, HoldersOk;
    var me, s' := s.workers[w], Next(c, s, w, Scramble(cmd, junk));
    var rs, parts := me.stage.rs, me.req.parts;
    assert WorkerOk(c, s, w);
    if !me.stage.failed {
      forall p: nat, q: nat | p < |rs| && q < |CommandsAt(c, s'.held, Reserved(w, p))| && (p, q) !in me.stage.todo
        ensures rs[p] < |parts| && CommandWritten(c, s', w, parts[rs[p]].buffer, p, q)
      {
        WrittenStays(c, s, s', w, cmd, junk, parts[rs[p]].buffer, p, q);
      }
    }
    assert s'.workers == s.workers[w := me.(stage := me.stage)];
    DeviceStep(c, s, s', w, cmd, junk, me.stage);
  }
}
