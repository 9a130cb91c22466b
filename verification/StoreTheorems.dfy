/**
 * What the concurrent store promises, over every run: it is an atomic map from keys to bytes whose loads see
 * the last store that took effect, and every page has one owner.
 */
module StoreTheorems {
  import opened Basics
  import opened FreeMap
  import opened Segments
  import opened Ownership
  import opened StoreSystem
  import opened StoreInvariant
  import opened StoreSteps
  import opened StorePublication
  import opened PageExtentAllocators

  // ----- loads -----------------------------------------------------------------------------------

  // Copying one command's bytes into the buffer leaves the other commands' bytes in place.
  lemma CopiedStays(l: Layout, e: Entry, content: Bytes, out: Bytes, q: nat, q': nat)
    requires l.Valid() && EntryOk(l, e) && |content| == l.Capacity() && |out| == e.logicalSize
    requires q < |SegmentsOf(l, e)| && q' < |SegmentsOf(l, e)|
    requires q' != q ==> Copied(content, SegmentsOf(l, e)[q'], out)
    ensures var item := SegmentsOf(l, e)[q];
            && 0 <= item.byteOffset && item.byteOffset + item.logicalLength <= |content|
            && item.bufferOffset + item.logicalLength <= |out|
            && Copied(content, SegmentsOf(l, e)[q'],
                 Overwrite(out, item.bufferOffset, content[item.byteOffset..item.byteOffset + item.logicalLength]))
  {
    hide EntryOk, SegmentsOf, CommandsOf, Overwrite;
    var items := SegmentsOf(l, e);
    SegmentsAreCommands(l, e);
    CommandRange(l, e, q);
    if q < q' {
      BuffersAscend(l, e, items, q, q');
    } else if q' < q {
      BuffersAscend(l, e, items, q', q);
    }
    var item, other := items[q], items[q'];
    var out' := Overwrite(out, item.bufferOffset, content[item.byteOffset..item.byteOffset + item.logicalLength]);
    if q' != q {
      SameRange(out, out', other.bufferOffset, other.bufferOffset + other.logicalLength);
    }
  }

  lemma ReadCommandStep(c: Config, s: State, w: nat, cmd: Command, ok: bool)
    requires Inv(c, s) && Enabled(c, s, w, ReadCommand(cmd, ok))
    ensures Inv(c, Next(c, s, w, ReadCommand(cmd, ok)))
    ensures forall k :: AbsAt(c, Next(c, s, w, ReadCommand(cmd, ok)), k) == AbsAt(c, s, k)
  {
    hide OneOwner, LogOk, Value, DistinctRanks, LocksOk, SegmentsOf, AbsAt, Pages, EntryOk, ReadCommands, Overwrite, Copied;
    var me, s' := s.workers[w], Next(c, s, w, ReadCommand(cmd, ok));
    var parts, stage := me.req.parts, s'.workers[w].stage;
    OwnLocks(c, s, w);
    assert WorkerOk(c, s, w);
    forall i: nat, q: nat | i < |parts| && stage.success[i] && (i, q) !in stage.todo
                            && q < |CommandsAt(c, s.held, Published(parts[i].key))|
      ensures Copied(s.content, CommandsAt(c, s.held, Published(parts[i].key))[q], stage.out[i])
    {
      if i == cmd.0 {
        CopiedStays(c.l, s.held[Published(parts[i].key)], s.content, me.stage.out[i], cmd.1, q);
      }
    }
    StageStep(c, s, w, stage);
  }

  lemma ReadUnavailableStep(c: Config, s: State, w: nat)
    requires Inv(c, s) && Enabled(c, s, w, ReadUnavailable)
    ensures Inv(c, Next(c, s, w, ReadUnavailable))
    ensures forall k :: AbsAt(c, Next(c, s, w, ReadUnavailable), k) == AbsAt(c, s, k)
  {
    hide OneOwner, LogOk, Value, DistinctRanks, LocksOk, AbsAt, ReadCommands, SegmentsOf, Copied;
    OwnLocks(c, s, w);
    assert WorkerOk(c, s, w);
    StageStep(c, s, w, Next(c, s, w, ReadUnavailable).workers[w].stage);
  }

  // A part still marked successful when all commands are done holds its key's value.
  lemma LoadedValue(c: Config, s: State, w: nat, i: nat)
    requires Inv(c, s) && Enabled(c, s, w, FinishRead)
    requires i < |s.workers[w].req.parts| && i < |s.workers[w].stage.success| && s.workers[w].stage.success[i]
    ensures i < |s.workers[w].stage.out|
    ensures AbsAt(c, s, s.workers[w].req.parts[i].key) == Some(s.workers[w].stage.out[i])
  {
    hide OneOwner, LogOk, DistinctRanks, LocksOk, SegmentsOf, Pages, EntryOk, ReadCommands, Copied, Value;
    assert WorkerOk(c, s, w);
    var h := Published(s.workers[w].req.parts[i].key);
    HoldersApart(c.l, s.held, s.free, h, h);
    forall q | 0 <= q < |SegmentsOf(c.l, s.held[h])|
      ensures Copied(s.content, SegmentsOf(c.l, s.held[h])[q], s.workers[w].stage.out[i])
    {
      assert q < |CommandsAt(c, s.held, h)|;
    }
    AllCopied(c.l, s.held[h], s.content, s.workers[w].stage.out[i]);
  }

  lemma FinishReadStep(c: Config, s: State, w: nat)
    requires Inv(c, s) && Enabled(c, s, w, FinishRead)
    ensures Inv(c, Next(c, s, w, FinishRead))
    ensures forall k :: AbsAt(c, Next(c, s, w, FinishRead), k) == AbsAt(c, s, k)
  {
    hide OneOwner, LogOk, DistinctRanks, LocksOk, SegmentsOf, EntryOk, ReadCommands, Copied, Value;
    var me := s.workers[w];
    OwnLocks(c, s, w);
    assert WorkerOk(c, s, w);
    forall i | 0 <= i < |me.req.parts| && me.stage.success[i]
      ensures AbsAt(c, s, me.req.parts[i].key) == Some(me.stage.out[i])
    {
      LoadedValue(c, s, w, i);
    }
    StageStep(c, s, w, Finished(me.stage.success, me.stage.out));
  }

  // ----- every step ------------------------------------------------------------------------------

  /**
   * Every step of every worker keeps the invariant and is, on the abstract map, either invisible or
   * one whole store or delete.
   */
  lemma EveryStep(c: Config, s: State, w: nat, a: Action)
    requires Inv(c, s) && Enabled(c, s, w, a)
    ensures Inv(c, Next(c, s, w, a)) && AtomicStep(c, s, w, a)
  {
    hide Inv, AbsAt, CanWrite, CanRead, WriteItem, ReadItem;
    match a {
      case Begin(req) => BeginStep(c, s, w, req);
      case Acquire => AcquireStep(c, s, w);
      case Enter => EnterStep(c, s, w);
      case Reserve(entry) => ReserveStep(c, s, w, entry);
      case StartWrite => StartWriteStep(c, s, w);
      case WriteCommand(cmd, ok, junk) => WriteCommandStep(c, s, w, cmd, ok, junk);
      case Scramble(cmd, junk) => ScrambleStep(c, s, w, cmd, junk);
      case WriteUnavailable => WriteUnavailableStep(c, s, w);
      case FinishWrite => FinishWriteStep(c, s, w);
      case RollBackOne => RollBackStep(c, s, w);
      case RetireOne => RetireStep(c, s, w);
      case ReadCommand(cmd, ok) => ReadCommandStep(c, s, w, cmd, ok);
      case ReadUnavailable => ReadUnavailableStep(c, s, w);
      case FinishRead => FinishReadStep(c, s, w);
      case Unlock => UnlockStep(c, s, w);
    }
  }

  lemma InitInv(c: Config, s: State)
    requires Init(c, s)
    ensures Inv(c, s)
  {}

  // ----- runs ------------------------------------------------------------------------------------

  type Step = (nat, Action)

  ghost predicate Runs(c: Config, s: State, steps: seq<Step>)
    requires c.l.Valid()
    decreases |steps|
  {
    steps == [] || (Enabled(c, s, steps[0].0, steps[0].1) && Runs(c, Next(c, s, steps[0].0, steps[0].1), steps[1..]))
  }

  ghost function End(c: Config, s: State, steps: seq<Step>): State
    requires c.l.Valid() && Runs(c, s, steps)
    decreases |steps|
  {
    if steps == [] then s else End(c, Next(c, s, steps[0].0, steps[0].1), steps[1..])
  }

  ghost predicate Reachable(c: Config, s: State) {
    c.l.Valid() && exists s0, steps :: Init(c, s0) && Runs(c, s0, steps) && End(c, s0, steps) == s
  }

  lemma {:induction false} RunKeepsInv(c: Config, s: State, steps: seq<Step>)
    requires Inv(c, s) && Runs(c, s, steps)
    ensures Inv(c, End(c, s, steps))
    decreases |steps|
  {
    hide Inv, Enabled, Next;
    if steps == [] {
    } else {
      Configured(c, s);
      EveryStep(c, s, steps[0].0, steps[0].1);
      RunKeepsInv(c, Next(c, s, steps[0].0, steps[0].1), steps[1..]);
    }
  }

  lemma Configured(c: Config, s: State)
    requires Inv(c, s)
    ensures c.l.Valid()
  {}

  lemma ReachableInv(c: Config, s: State)
    requires Reachable(c, s)
    ensures Inv(c, s)
  {
    hide Inv, Init, Enabled, Next;
    var s0, steps :| Init(c, s0) && Runs(c, s0, steps) && End(c, s0, steps) == s;
    InitInv(c, s0);
    RunKeepsInv(c, s0, steps);
  }

  // ----- refinement ------------------------------------------------------------------------------

  /** In every reachable state the readable bytes are what the history of successful calls says. */
  lemma StoreIsItsHistory(c: Config, s: State, k: Key)
    requires Reachable(c, s)
    ensures AbsAt(c, s, k) == Replay(s.log, k)
  {
    hide Reachable, AbsAt, OneOwner, LocksOk, WorkerOk;
    ReachableInv(c, s);
  }

  /** Entry j of the history put v under k, and nothing later changed it. */
  ghost predicate LastStored(log: seq<Event>, k: Key, v: Bytes, j: nat) {
    && j < |log| && log[j].Stored? && Part(k, v) in log[j].parts
    && After(Replay(log[..j], k), log[j], k) == Some(v)
    && forall i | j < i < |log| :: After(Some(v), log[i], k) == Some(v)
  }

  lemma {:induction false} AppliedSource(prior: Option<Bytes>, parts: seq<Part>, k: Key)
    ensures Applied(prior, parts, k) == prior
            || (Applied(prior, parts, k).Some? && Part(k, Applied(prior, parts, k).value) in parts)
  {
    if parts != [] && parts[0].key != k {
      AppliedSource(prior, parts[1..], k);
    }
  }

  /** A key's value in the history is v exactly when its last effective store was of v. */
  lemma {:induction false} ReplayIsLastStore(log: seq<Event>, k: Key, v: Bytes)
    ensures Replay(log, k) == Some(v) <==> exists j: nat :: LastStored(log, k, v, j)
  {
    if log == [] {
    } else {
      var before, e, n := log[..|log| - 1], log[|log| - 1], |log| - 1;
      ReplayIsLastStore(before, k, v);
      assert log[..n] == before;
      if j: nat :| LastStored(log, k, v, j) {
        if j < n { StoredEarlier(log, k, v, j); }
      }
      if Replay(log, k) == Some(v) {
        if Replay(before, k) == Some(v) {
          var j: nat :| LastStored(before, k, v, j);
          assert j < |before| && log[..j] == before[..j];
          assert LastStored(log, k, v, j);
        } else {
          AppliedSource(Replay(before, k), e.parts, k);
          assert LastStored(log, k, v, n);
        }
      }
    }
  }

  lemma StoredEarlier(log: seq<Event>, k: Key, v: Bytes, j: nat)
    requires LastStored(log, k, v, j) && j < |log| - 1
    ensures LastStored(log[..|log| - 1], k, v, j) && After(Some(v), log[|log| - 1], k) == Some(v)
  {
    hide After, Replay;
    assert log[..|log| - 1][..j] == log[..j];
  }

  /** A load that reports success for a key returns the bytes of that key's last successful store. */
  lemma LoadReturnsLastStore(c: Config, s: State, w: nat, i: nat)
    requires Reachable(c, s) && Enabled(c, s, w, FinishRead)
    requires i < |s.workers[w].stage.success| && s.workers[w].stage.success[i]
    ensures var s', me := Next(c, s, w, FinishRead), s.workers[w];
            && s'.workers[w].stage == Finished(me.stage.success, me.stage.out)
            && |me.req.parts| == |me.stage.success| == |me.stage.out|
            && Replay(s.log, me.req.parts[i].key) == Some(me.stage.out[i])
            && exists j: nat :: LastStored(s.log, me.req.parts[i].key, me.stage.out[i], j)
  {
    hide Reachable, AbsAt, OneOwner, LocksOk, LastStored, ReadCommands, Copied, SegmentsOf;
    ReachableInv(c, s);
    assert WorkerOk(c, s, w);
    var k := s.workers[w].req.parts[i].key;
    LoadedValue(c, s, w, i);
    StoreIsItsHistory(c, s, k);
    ReplayIsLastStore(s.log, k, s.workers[w].stage.out[i]);
  }

  /**
   * A load starts by serving exactly the keys whose last stored value has the buffer's length; a lookup
   * reports exactly the keys with a value; a delete succeeds exactly when there is one.
   */
  lemma EntrySeesHistory(c: Config, s: State, w: nat)
    requires Reachable(c, s) && Enabled(c, s, w, Enter)
    ensures var parts, stage := s.workers[w].req.parts, Next(c, s, w, Enter).workers[w].stage;
               match s.workers[w].req.kind
               case Get =>
                 && stage.Reading? && |stage.success| == |parts|
                 && forall i | 0 <= i < |parts| :: stage.success[i] <==>
                      Replay(s.log, parts[i].key).Some? && |Replay(s.log, parts[i].key).value| == |parts[i].buffer|
               case Exists => stage == Finished([Replay(s.log, parts[0].key).Some?], [])
               case Delete =>
                 && (stage.Retire? <==> Replay(s.log, parts[0].key).Some?)
                 && (!stage.Retire? ==> stage == Finished([false], []))
               case Set => stage == Reserving(0, [])
  {
    hide Reachable, OneOwner, LocksOk, WorkerOk, LogOk, Value, Replay;
    ReachableInv(c, s);
    var parts := s.workers[w].req.parts;
    forall i | 0 <= i < |parts|
      ensures Published(parts[i].key) in s.held <==> Replay(s.log, parts[i].key).Some?
      ensures Published(parts[i].key) in s.held ==>
                s.held[Published(parts[i].key)].logicalSize == |Replay(s.log, parts[i].key).value|
    {
      StoreIsItsHistory(c, s, parts[i].key);
      if Published(parts[i].key) in s.held { PublishedSize(c, s, parts[i].key); }
    }
  }

  // ----- page ownership --------------------------------------------------------------------------

  /** In every reachable state each page of the device is free or has exactly one holder, never both. */
  lemma ExactlyOneOwner(c: Config, s: State, p: int)
    requires Reachable(c, s) && 0 <= p < c.l.pageCount
    ensures p in s.free <==> !IsHeld(s.held, p)
    ensures forall h, h' | h in s.held && h' in s.held && p in Pages(s.held[h]) && p in Pages(s.held[h']) :: h == h'
  {
    hide Reachable, Pages, EntryOk, LocksOk, WorkerOk, LogOk, AbsAt;
    ReachableInv(c, s);
    assert Within(0, p, c.l.pageCount);
    assert p in s.free || p in Interval(0, c.l.pageCount) - s.free;
  }

  /** The pages of a holder are an outstanding allocation, which the allocator takes back without error. */
  lemma ReleasesAreAccepted(c: Config, s: State, w: nat, a: Action)
    requires Reachable(c, s) && Enabled(c, s, w, a) && (a.RollBackOne? || a.RetireOne?)
    ensures var stage := s.workers[w].stage;
            var h := if a.RollBackOne? then Reserved(w, stage.next) else Retiring(w, stage.next);
            && (a.RollBackOne? && stage.next < |stage.rs| ==> h in s.held)
            && (h in s.held ==> Returnable(s.held[h].extents, c.l.pageCount, s.free))
  {
    hide Reachable, LocksOk, LogOk, AbsAt, Fits, PagesInAll;
    ReachableInv(c, s);
    assert WorkerOk(c, s, w);
  }

  ghost predicate Quiet(s: State) {
    forall w | 0 <= w < |s.workers| :: s.workers[w].stage.Idle? || s.workers[w].stage.Finished?
  }

  /** Once no operation is in progress, exactly the pages of published entries are in use. */
  lemma QuietConservation(c: Config, s: State, p: int)
    requires Reachable(c, s) && Quiet(s) && 0 <= p < c.l.pageCount
    ensures p !in s.free <==> exists k :: Published(k) in s.held && p in Pages(s.held[Published(k)])
  {
    hide Pages, EntryOk, LocksOk, LogOk, AbsAt, OneOwner, Reachable;
    ReachableInv(c, s);
    ExactlyOneOwner(c, s, p);
    if p !in s.free {
      var h :| h in s.held && p in Pages(s.held[h]);
      assert h.Published? || WorkerOk(c, s, h.worker);
      assert Published(h.key) in s.held;
    }
  }
}
