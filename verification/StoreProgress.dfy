/** Key locks are taken in address order, so the concurrent store cannot deadlock. */
module StoreProgress {
  import opened Basics
  import opened Segments
  import opened Ownership
  import opened StoreSystem
  import opened StoreInvariant
  import opened StoreSteps
  import opened StoreTheorems

  /** A step that moves a request on: not a new request, not an unavailable device, not bytes spoiled in flight. */
  predicate Forward(a: Action) {
    !a.Begin? && !a.Scramble? && !a.WriteUnavailable? && !a.ReadUnavailable?
  }

  ghost predicate CanMove(c: Config, s: State, w: nat)
    requires c.l.Valid()
  {
    exists a :: Forward(a) && Enabled(c, s, w, a)
  }

  /** Worker w waits for a key lock somebody holds. */
  predicate Waits(s: State, w: nat)
    requires w < |s.workers|
  {
    var me := s.workers[w];
    me.stage.Locking? && me.got < |me.order| && me.order[me.got] in s.locks
  }

  function Wanted(s: State, w: nat): Key
    requires w < |s.workers| && Waits(s, w)
  {
    s.workers[w].order[s.workers[w].got]
  }

  // ----- a worker that waits for no lock can move ------------------------------------------------

  lemma WriterMoves(c: Config, s: State, w: nat)
    requires Inv(c, s) && w < |s.workers| && s.workers[w].stage.Writing?
    ensures CanMove(c, s, w)
  {
    hide OneOwner, LogOk, DistinctRanks, LocksOk, SegmentsOf, EntryOk, Covered, DistinctKeys, WritesDone, WriteCommands;
    assert WorkerOk(c, s, w);
    var stage := s.workers[w].stage;
    if stage.todo == {} {
      assert Enabled(c, s, w, FinishWrite);
    } else {
      var cmd :| cmd in stage.todo;
      var h := Reserved(w, cmd.0);
      InWriteCommands(c, s.held, w, |stage.rs|, cmd.0, cmd.1);
      HoldersApart(c.l, s.held, s.free, h, h);
      CommandRange(c.l, s.held[h], cmd.1);
      assert Enabled(c, s, w, WriteCommand(cmd, true, Zeros(WriteItem(c, s, w, cmd).physicalLength)));
    }
  }

  lemma ReaderMoves(c: Config, s: State, w: nat)
    requires Inv(c, s) && w < |s.workers| && s.workers[w].stage.Reading?
    ensures CanMove(c, s, w)
  {
    hide OneOwner, LogOk, DistinctRanks, LocksOk, SegmentsOf, EntryOk, ReadCommands, Copied;
    assert WorkerOk(c, s, w);
    var stage, parts := s.workers[w].stage, s.workers[w].req.parts;
    if stage.todo == {} {
      assert Enabled(c, s, w, FinishRead);
    } else {
      var cmd :| cmd in stage.todo;
      InReadCommands(c, s.held, parts, |parts|, cmd.0, cmd.1);
      var h := Published(parts[cmd.0].key);
      HoldersApart(c.l, s.held, s.free, h, h);
      CommandRange(c.l, s.held[h], cmd.1);
      assert Enabled(c, s, w, ReadCommand(cmd, true));
    }
  }

  lemma ReserverMoves(c: Config, s: State, w: nat)
    requires Inv(c, s) && w < |s.workers| && s.workers[w].stage.Reserving?
    ensures CanMove(c, s, w)
  {
    hide OneOwner, LogOk, DistinctRanks, LocksOk, SegmentsOf, EntryOk, Chosen, Covered, DistinctKeys, Allocatable, Mismatch;
    assert WorkerOk(c, s, w);
    var stage, parts := s.workers[w].stage, s.workers[w].req.parts;
    if stage.next == |parts| {
      assert Enabled(c, s, w, StartWrite);
    } else {
      FreeOnDevice(c, s);
      var part := parts[stage.next];
      if part.buffer != [] && |part.buffer| <= |s.free| * c.l.page {
        AllocatableIff(c.l, s.free, |part.buffer|);
        var e :| Allocatable(c.l, s.free, |part.buffer|, e);
        assert Enabled(c, s, w, Reserve(Some(e))) || Enabled(c, s, w, Reserve(None));
      } else {
        assert Enabled(c, s, w, Reserve(None));
      }
    }
  }

  lemma FreeOnDevice(c: Config, s: State)
    requires Inv(c, s)
    ensures s.free <= Interval(0, c.l.pageCount)
  {}

  lemma RunnableMoves(c: Config, s: State, w: nat)
    requires Inv(c, s) && w < |s.workers| && !s.workers[w].stage.Idle? && !Waits(s, w)
    ensures CanMove(c, s, w)
  {
    hide OneOwner, LogOk, DistinctRanks, LocksOk, WorkerOk, CanWrite, CanRead, Ranked, Locked;
    OwnLocks(c, s, w);
    match s.workers[w].stage {
      case Locking =>
        assert Enabled(c, s, w, Acquire) || Enabled(c, s, w, Enter);
      case Reserving(_, _) => ReserverMoves(c, s, w);
      case Writing(_, _, _) => WriterMoves(c, s, w);
      case RollingBack(_, _) => assert Enabled(c, s, w, RollBackOne);
      case Retire(_, _) => assert Enabled(c, s, w, RetireOne);
      case Reading(_, _, _) => ReaderMoves(c, s, w);
      case Finished(_, _) => assert Enabled(c, s, w, Unlock);
    }
  }

  // ----- waiting goes upwards --------------------------------------------------------------------

  /** Every lock a worker holds is below the one it waits for; in particular it never waits for itself. */
  lemma WaitsUpward(c: Config, s: State, w: nat)
    requires Inv(c, s) && w < |s.workers| && Waits(s, w)
    ensures forall k | k in Locked(s.workers[w]) :: c.rank(k) < c.rank(Wanted(s, w))
    ensures var v := s.locks[Wanted(s, w)];
            && v < |s.workers| && v != w && Wanted(s, w) in Locked(s.workers[v]) && !s.workers[v].stage.Idle?
  {
    hide OneOwner, LogOk, DistinctRanks, WorkerOk, KeysOf;
    OwnLocks(c, s, w);
    OwnLocks(c, s, s.locks[Wanted(s, w)]);
  }

  /** A chain of workers, each waiting for a lock the next one holds, never comes back to its start. */
  lemma {:induction false} NoWaitCycle(c: Config, s: State, chain: seq<nat>)
    requires Inv(c, s) && |chain| >= 2
    requires forall i | 0 <= i < |chain| :: chain[i] < |s.workers| && Waits(s, chain[i])
    requires forall i | 0 <= i < |chain| - 1 :: s.locks[Wanted(s, chain[i])] == chain[i + 1]
    ensures c.rank(Wanted(s, chain[0])) < c.rank(Wanted(s, chain[|chain| - 1]))
    ensures chain[0] != chain[|chain| - 1]
    decreases |chain|
  {
    hide Inv, Waits, Locked;
    var n := |chain|;
    WaitsUpward(c, s, chain[n - 2]);
    WaitsUpward(c, s, chain[n - 1]);
    if n > 2 { NoWaitCycle(c, s, chain[..n - 1]); }
  }

  /** The locks above the one a worker waits for. */
  ghost function Above(c: Config, s: State, w: nat): set<Key>
    requires w < |s.workers|
  {
    set k | k in s.locks && Waits(s, w) && c.rank(Wanted(s, w)) < c.rank(k)
  }

  lemma {:induction false} SomeoneMoves(c: Config, s: State, w: nat) returns (v: nat)
    requires Inv(c, s) && w < |s.workers| && !s.workers[w].stage.Idle?
    ensures v < |s.workers| && !s.workers[v].stage.Idle? && CanMove(c, s, v)
    decreases |Above(c, s, w)|
  {
    hide Inv, CanMove, Locked;
    if !Waits(s, w) {
      RunnableMoves(c, s, w);
      return w;
    }
    WaitsUpward(c, s, w);
    v := s.locks[Wanted(s, w)];
    if Waits(s, v) {
      WaitsUpward(c, s, v);
      Shrinks(Above(c, s, v), Above(c, s, w), Wanted(s, v));
      v := SomeoneMoves(c, s, v);
    } else {
      RunnableMoves(c, s, v);
    }
  }

  lemma Shrinks<T>(a: set<T>, b: set<T>, x: T)
    requires a <= b && x in b && x !in a
    ensures |a| < |b|
  {
    assert b == a + {x} + (b - a - {x});
  }

  /** While any request is in progress, some request can take a step of its own. */
  lemma NoDeadlock(c: Config, s: State, w: nat)
    requires Reachable(c, s) && w < |s.workers| && !s.workers[w].stage.Idle?
    ensures c.l.Valid() && exists v :: 0 <= v < |s.workers| && !s.workers[v].stage.Idle? && CanMove(c, s, v)
  {
    hide Reachable, Inv, CanMove;
    ReachableInv(c, s);
    Configured(c, s);
    var v := SomeoneMoves(c, s, w);
  }

  // ----- a request takes finitely many steps -----------------------------------------------------

  function Phase(stage: Stage): nat {
    match stage
    case Idle => 0
    case Finished(_, _) => 1
    case RollingBack(_, _) => 2
    case Retire(_, _) => 2
    case Writing(_, _, _) => 3
    case Reading(_, _, _) => 3
    case Reserving(_, _) => 4
    case Locking => 5
  }

  /** How much of the current phase is left. */
  function Left(wk: Worker): int {
    match wk.stage
    case Idle => 0
    case Finished(_, _) => wk.got - wk.freed
    case RollingBack(rs, next) => |rs| - next
    case Retire(count, next) => count - next
    case Writing(_, todo, _) => |todo|
    case Reading(todo, _, _) => |todo|
    case Reserving(next, _) => |wk.req.parts| - next
    case Locking => |wk.order| - wk.got
  }

  ghost predicate Descends(me: Worker, me': Worker) {
    || Phase(me'.stage) < Phase(me.stage)
    || (Phase(me'.stage) == Phase(me.stage) && 0 <= Left(me') < Left(me))
  }

  /** Every step forward finishes part of a phase or moves to a later one, so no request runs forever. */
  lemma ForwardDescends(c: Config, s: State, w: nat, a: Action)
    requires c.l.Valid() && Enabled(c, s, w, a) && Forward(a)
    ensures Descends(s.workers[w], Next(c, s, w, a).workers[w])
  {
    hide Allocatable, CanWrite, CanRead, WriteItem, ReadItem, WriteCommands, ReadCommands, Mismatch, Matches, KeysOf,
      PublishFirst, Descends;
    match a {
      case WriteCommand(cmd, _, _) => CommandDescends(c, s, w, a, cmd);
      case ReadCommand(cmd, _) => CommandDescends(c, s, w, a, cmd);
      case Reserve(_) => ReserveDescends(c, s, w, a);
      case Enter => EnterDescends(c, s, w);
      case _ => OtherDescends(c, s, w, a);
    }
  }

  lemma CommandDescends(c: Config, s: State, w: nat, a: Action, cmd: Command)
    requires c.l.Valid() && Enabled(c, s, w, a) && ((a.WriteCommand? || a.ReadCommand?) && a.cmd == cmd)
    ensures Descends(s.workers[w], Next(c, s, w, a).workers[w])
  {
    hide IsCommand, WriteItem, ReadItem;
    Shrinks(s.workers[w].stage.todo - {cmd}, s.workers[w].stage.todo, cmd);
  }

  lemma ReserveDescends(c: Config, s: State, w: nat, a: Action)
    requires c.l.Valid() && Enabled(c, s, w, a) && a.Reserve?
    ensures Descends(s.workers[w], Next(c, s, w, a).workers[w])
  {
    hide Allocatable, Mismatch, KeysOf;
  }

  lemma EnterDescends(c: Config, s: State, w: nat)
    requires c.l.Valid() && Enabled(c, s, w, Enter)
    ensures Descends(s.workers[w], Next(c, s, w, Enter).workers[w])
  {
    hide ReadCommands, Matches;
  }

  lemma OtherDescends(c: Config, s: State, w: nat, a: Action)
    requires c.l.Valid() && Enabled(c, s, w, a) && Forward(a)
    requires !a.WriteCommand? && !a.ReadCommand? && !a.Reserve? && !a.Enter?
    ensures Descends(s.workers[w], Next(c, s, w, a).workers[w])
  {
    hide WriteCommands, ReadCommands, Mismatch, Matches, KeysOf, PublishFirst, EnterNext, ReserveNext, LockOrder;
  }
}
