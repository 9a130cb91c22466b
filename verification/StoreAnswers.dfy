/**
 * What loads, lookups and deletes report, over every run and whatever the other workers do: exactly what was
 * readable when their locks were all held, and for a load what the device let through.
 */
module StoreAnswers {
  import opened Basics
  import opened Segments
  import opened Ownership
  import opened StoreSystem
  import opened StoreInvariant
  import opened StoreSteps
  import opened StorePublication
  import opened StoreTheorems
  import opened StoreReports

  /** The history at the moment worker w starts the body of its request. */
  ghost function EnteredLog(c: Config, s: State, w: nat, steps: seq<Step>): Option<seq<Event>>
    requires c.l.Valid() && Runs(c, s, steps)
    decreases |steps|
  {
    if steps == [] then None
    else if steps[0] == (w, Enter) then Some(s.log)
    else EnteredLog(c, Next(c, s, steps[0].0, steps[0].1), w, steps[1..])
  }

  /** A failed device command for key i of worker w's load, or a device that accepts none. */
  predicate Hurts(step: Step, w: nat, i: nat) {
    step.0 == w && match step.1
                   case ReadCommand(cmd, ok) => !ok && cmd.0 == i
                   case ReadUnavailable => true
                   case _ => false
  }

  ghost predicate HurtIn(steps: seq<Step>, w: nat, i: nat) {
    exists j :: 0 <= j < |steps| && Hurts(steps[j], w, i)
  }

  /** The history has bytes of the part's length under its key. */
  predicate Fitting(log: seq<Event>, part: Part) {
    Replay(log, part.key).Some? && |Replay(log, part.key).value| == |part.buffer|
  }

  // ----- locked keys -----------------------------------------------------------------------------

  // Another worker's step says nothing about a key that worker w has locked.
  lemma LockedKeyStays(c: Config, s: State, w: nat, v: nat, a: Action, k: Key)
    requires Inv(c, s) && w < |s.workers| && Enabled(c, s, v, a) && v != w && k in Locked(s.workers[w])
    ensures Replay(Next(c, s, v, a).log, k) == Replay(s.log, k)
  {
    hide OneOwner, LogOk, DistinctRanks, WorkerOk, Locked, AbsAt, Next, ReadCommands, WriteCommands, CanWrite, CanRead;
    EveryStep(c, s, v, a);
    var e := EventOf(c, s, v, a);
    if e.Some? {
      LockedApart(c, s, w, v, k);
      EventLocked(c, s, v, a, k);
      assert (s.log + [e.value])[..|s.log|] == s.log;
    }
  }

  lemma EventLocked(c: Config, s: State, v: nat, a: Action, k: Key)
    requires Inv(c, s) && Enabled(c, s, v, a) && EventOf(c, s, v, a).Some? && k !in Locked(s.workers[v])
    ensures forall prior :: After(prior, EventOf(c, s, v, a).value, k) == prior
  {
    hide OneOwner, LogOk, DistinctRanks, WorkerOk, Applied, ReadCommands, WriteCommands, CanWrite, CanRead;
    var parts := s.workers[v].req.parts;
    PartsAreMine(c, s, v);
    forall i | 0 <= i < |parts| ensures parts[i].key != k {
      assert Mine(s.workers[v], v, Published(parts[i].key));
    }
    forall prior ensures Applied(prior, parts, k) == prior {
      AppliedElsewhere(prior, parts, k);
    }
  }

  // ----- after the entry -------------------------------------------------------------------------

  /** A request whose body started on history entered, and what it will report. */
  ghost predicate Serving(s: State, w: nat, entered: seq<Event>)
    requires w < |s.workers|
  {
    var me := s.workers[w];
    var parts := me.req.parts;
    match me.req.kind
    case Get =>
      || (&& me.stage.Reading? && |me.stage.success| == |me.stage.out| == |parts|
          && forall i | 0 <= i < |parts| :: Replay(s.log, parts[i].key) == Replay(entered, parts[i].key))
      || (me.stage.Finished? && |me.stage.success| == |parts| && Delivered(entered, parts, me.stage.success, me.stage.out))
    case Delete =>
      && |parts| == 1
      && ((me.stage.Retire? && Replay(entered, parts[0].key).Some?)
          || (me.stage.Finished? && me.stage.success == [Replay(entered, parts[0].key).Some?]))
    case Exists => |parts| == 1 && me.stage.Finished? && me.stage.success == [Replay(entered, parts[0].key).Some?]
    case Set => false
  }

  /** Every key marked successful has its bytes in its buffer. */
  ghost predicate Delivered(entered: seq<Event>, parts: seq<Part>, success: seq<bool>, out: seq<Bytes>) {
    && |success| == |out| == |parts|
    && forall i | 0 <= i < |parts| && success[i] :: Replay(entered, parts[i].key) == Some(out[i])
  }

  /** A step that is not the worker's next Begin keeps what is served and marks exactly the hurt keys. */
  ghost predicate ServedOn(c: Config, s: State, w: nat, step: Step, entered: seq<Event>)
    requires c.l.Valid() && w < |s.workers| && Enabled(c, s, step.0, step.1)
  {
    var me, s' := s.workers[w], Next(c, s, step.0, step.1);
    && |s'.workers| == |s.workers|
    && (!s'.workers[w].stage.Idle? ==>
          && Serving(s', w, entered) && s'.workers[w].req == me.req
          && (me.req.kind == Get ==>
                && (me.stage.Reading? || me.stage.Finished?) && |me.stage.success| == |me.req.parts|
                && (s'.workers[w].stage.Reading? || s'.workers[w].stage.Finished?)
                && |s'.workers[w].stage.success| == |me.req.parts|
                && forall i: nat | i < |me.req.parts| ::
                     s'.workers[w].stage.success[i] <==> me.stage.success[i] && !Hurts(step, w, i)))
  }

  lemma PartsLocked(c: Config, s: State, w: nat)
    requires Inv(c, s) && w < |s.workers| && s.workers[w].stage.Reading?
    ensures forall i | 0 <= i < |s.workers[w].req.parts| :: s.workers[w].req.parts[i].key in Locked(s.workers[w])
  {
    hide OneOwner, LogOk, DistinctRanks, WorkerOk;
    PartsAreMine(c, s, w);
    var parts := s.workers[w].req.parts;
    forall i | 0 <= i < |parts| ensures parts[i].key in Locked(s.workers[w]) {
      assert Mine(s.workers[w], w, Published(parts[i].key));
    }
  }

  lemma OthersServe(c: Config, s: State, w: nat, step: Step, entered: seq<Event>)
    requires Inv(c, s) && w < |s.workers| && Serving(s, w, entered) && Enabled(c, s, step.0, step.1) && step.0 != w
    ensures ServedOn(c, s, w, step, entered)
  {
    hide Inv, Enabled, Next, Replay, Locked;
    Configured(c, s);
    LogStep(c, s, step.0, step.1);
    if s.workers[w].stage.Reading? {
      PartsLocked(c, s, w);
      forall i | 0 <= i < |s.workers[w].req.parts|
        ensures Replay(Next(c, s, step.0, step.1).log, s.workers[w].req.parts[i].key)
                == Replay(s.log, s.workers[w].req.parts[i].key)
      {
        LockedKeyStays(c, s, w, step.0, step.1, s.workers[w].req.parts[i].key);
      }
    }
  }

  // What a load has in its buffers at the end is what it entered on.
  lemma LoadDelivers(c: Config, s: State, w: nat, entered: seq<Event>)
    requires Inv(c, s) && w < |s.workers| && Serving(s, w, entered) && Enabled(c, s, w, FinishRead)
    ensures Delivered(entered, s.workers[w].req.parts, s.workers[w].stage.success, s.workers[w].stage.out)
  {
    hide OneOwner, DistinctRanks, LocksOk, ReadCommands, Copied, Replay, AbsAt, SegmentsOf;
    assert WorkerOk(c, s, w);
    forall i | 0 <= i < |s.workers[w].req.parts| && s.workers[w].stage.success[i]
      ensures Replay(entered, s.workers[w].req.parts[i].key) == Some(s.workers[w].stage.out[i])
    {
      LoadedValue(c, s, w, i);
    }
  }

  lemma OwnServes(c: Config, s: State, w: nat, a: Action, entered: seq<Event>)
    requires Inv(c, s) && w < |s.workers| && Serving(s, w, entered) && Enabled(c, s, w, a) && !a.Begin?
    ensures c.l.Valid() && ServedOn(c, s, w, (w, a), entered)
  {
    hide OneOwner, DistinctRanks, LogOk, LocksOk, ReadCommands, WriteCommands, Copied, Replay, SegmentsOf, PublishFirst, Overwrite;
    hide ReadsDone, ReadResult, HoldersOk, Pages, Locked;
    assert WorkerOk(c, s, w);
    if a.FinishRead? {
      LoadDelivers(c, s, w, entered);
    }
  }

  lemma {:induction false} ServedRun(c: Config, s: State, w: nat, steps: seq<Step>, entered: seq<Event>)
    requires w < |s.workers| && Inv(c, s) && Runs(c, s, steps) && NoBegin(steps, w) && Serving(s, w, entered)
    ensures |End(c, s, steps).workers| == |s.workers|
    ensures var me, t := s.workers[w], End(c, s, steps).workers[w];
            !t.stage.Idle? ==>
              && Serving(End(c, s, steps), w, entered) && t.req == me.req
              && (me.req.kind == Get ==>
                    && (me.stage.Reading? || me.stage.Finished?) && |me.stage.success| == |me.req.parts|
                    && (t.stage.Reading? || t.stage.Finished?) && |t.stage.success| == |me.req.parts|
                    && forall i: nat | i < |me.req.parts| ::
                         t.stage.success[i] <==> me.stage.success[i] && !HurtIn(steps, w, i))
    decreases |steps|
  {
    hide Inv, Next, Enabled, Hurts, HurtIn, Delivered, Replay;
    if steps == [] {
      NothingHurts(w);
    } else {
      Configured(c, s);
      var next := Next(c, s, steps[0].0, steps[0].1);
      EveryStep(c, s, steps[0].0, steps[0].1);
      if steps[0].0 == w { OwnServes(c, s, w, steps[0].1, entered); } else { OthersServe(c, s, w, steps[0], entered); }
      if next.workers[w].stage.Idle? {
        StaysIdle(c, next, w, steps[1..]);
      } else {
        ServedRun(c, next, w, steps[1..], entered);
        forall i: nat ensures HurtIn(steps, w, i) <==> Hurts(steps[0], w, i) || HurtIn(steps[1..], w, i) {
          HurtOnwards(steps, w, i);
        }
      }
    }
  }

  lemma NothingHurts(w: nat)
    ensures forall i: nat :: !HurtIn([], w, i)
  {}

  lemma HurtOnwards(steps: seq<Step>, w: nat, i: nat)
    requires steps != []
    ensures HurtIn(steps, w, i) <==> Hurts(steps[0], w, i) || HurtIn(steps[1..], w, i)
  {
    hide Hurts;
    if j :| 0 <= j < |steps[1..]| && Hurts(steps[1..][j], w, i) { assert Hurts(steps[j + 1], w, i); }
    if j :| 0 < j < |steps| && Hurts(steps[j], w, i) { assert Hurts(steps[1..][j - 1], w, i); }
  }

  lemma {:induction false} StaysIdle(c: Config, s: State, w: nat, steps: seq<Step>)
    requires w < |s.workers| && Inv(c, s) && Runs(c, s, steps) && NoBegin(steps, w) && s.workers[w].stage.Idle?
    ensures |End(c, s, steps).workers| == |s.workers| && End(c, s, steps).workers[w].stage.Idle?
    decreases |steps|
  {
    hide Inv, Next, KindFits;
    if steps == [] {
    } else {
      Configured(c, s);
      EveryStep(c, s, steps[0].0, steps[0].1);
      LogStep(c, s, steps[0].0, steps[0].1);
      StaysIdle(c, Next(c, s, steps[0].0, steps[0].1), w, steps[1..]);
    }
  }

  // ----- the entry -------------------------------------------------------------------------------

  /** Waiting for locks, with a request that logs no store. */
  predicate Waiting(s: State, w: nat) {
    && w < |s.workers| && s.workers[w].stage.Locking? && s.workers[w].req.kind != Set
  }

  /** With all locks held, a load serves exactly the keys whose readable bytes fit; the others know their answer. */
  lemma EntryServes(c: Config, s: State, w: nat)
    requires Inv(c, s) && Waiting(s, w) && Enabled(c, s, w, Enter)
    ensures c.l.Valid()
    ensures var me, s' := s.workers[w], Next(c, s, w, Enter);
            && |s'.workers| == |s.workers| && s'.workers[w].req == me.req && Serving(s', w, s.log)
            && (me.req.kind == Get ==>
                  && s'.workers[w].stage.Reading?
                  && forall i: nat | i < |me.req.parts| :: s'.workers[w].stage.success[i] <==> Fitting(s.log, me.req.parts[i]))
  {
    hide OneOwner, DistinctRanks, LocksOk, WorkerOk, Replay, Value, ReadCommands;
    var parts := s.workers[w].req.parts;
    forall i | 0 <= i < |parts|
      ensures Published(parts[i].key) in s.held <==> Replay(s.log, parts[i].key).Some?
      ensures Matches(s.held, parts[i]) <==> Fitting(s.log, parts[i])
    {
      assert AbsAt(c, s, parts[i].key) == Replay(s.log, parts[i].key);
      if Published(parts[i].key) in s.held { PublishedSize(c, s, parts[i].key); }
    }
    EveryStep(c, s, w, Enter);
  }

  // While a request waits, its own steps take locks or start its body.
  lemma WaitingStep(c: Config, s: State, w: nat, step: Step)
    requires Inv(c, s) && Waiting(s, w) && Enabled(c, s, step.0, step.1) && (step.0 == w ==> !step.1.Begin?)
    ensures c.l.Valid() && step != (w, Enter) ==>
              Waiting(Next(c, s, step.0, step.1), w) && Next(c, s, step.0, step.1).workers[w].req == s.workers[w].req
    ensures forall i: nat :: !Hurts(step, w, i)
  {
    hide Inv, ReadCommands, WriteCommands, PublishFirst, SegmentsOf, IsCommand, WriteItem, ReadItem, Overwrite;
    Configured(c, s);
    LogStep(c, s, step.0, step.1);
    if step.0 == w && step.1 != Enter {
      assert step.1.Acquire?;
    }
  }

  /** What worker w's request has been told: nothing before its body started, then exactly the truth. */
  ghost predicate Truthful(c: Config, s: State, w: nat, steps: seq<Step>, stage: Stage)
    requires c.l.Valid() && w < |s.workers| && Runs(c, s, steps)
  {
    var req, entered := s.workers[w].req, EnteredLog(c, s, w, steps);
    stage.Finished? ==>
      && entered.Some?
      && match req.kind
         case Get =>
           && Delivered(entered.value, req.parts, stage.success, stage.out)
           && forall i: nat | i < |req.parts| ::
                stage.success[i] <==> Fitting(entered.value, req.parts[i]) && !HurtIn(steps, w, i)
         case _ => |req.parts| == 1 && stage.success == [Replay(entered.value, req.parts[0].key).Some?]
  }

  lemma {:induction false} WaitedRun(c: Config, s: State, w: nat, steps: seq<Step>)
    requires Inv(c, s) && Waiting(s, w) && Runs(c, s, steps) && NoBegin(steps, w)
    ensures c.l.Valid() && |End(c, s, steps).workers| == |s.workers|
    ensures Truthful(c, s, w, steps, End(c, s, steps).workers[w].stage)
    decreases |steps|
  {
    hide Inv, Next, Enabled, Hurts, HurtIn, Delivered, Replay;
    Configured(c, s);
    if steps == [] {
    } else {
      var next := Next(c, s, steps[0].0, steps[0].1);
      EveryStep(c, s, steps[0].0, steps[0].1);
      WaitingStep(c, s, w, steps[0]);
      LogStep(c, s, steps[0].0, steps[0].1);
      forall i: nat ensures HurtIn(steps, w, i) <==> HurtIn(steps[1..], w, i) {
        HurtOnwards(steps, w, i);
      }
      if steps[0] == (w, Enter) {
        EntryServes(c, s, w);
        ServedRun(c, next, w, steps[1..], s.log);
      } else {
        WaitedRun(c, next, w, steps[1..]);
      }
    }
  }

  // ----- what a caller is told -------------------------------------------------------------------

  lemma BeginsWaiting(c: Config, s: State, w: nat, req: Request)
    requires Inv(c, s) && Enabled(c, s, w, Begin(req)) && req.kind != Set
    ensures c.l.Valid()
    ensures var s' := Next(c, s, w, Begin(req)); Inv(c, s') && Waiting(s', w) && s'.workers[w].req == req
  {
    hide Inv, LockOrder;
    Configured(c, s);
    EveryStep(c, s, w, Begin(req));
  }

  /**
   * A load that has returned reports success for a key exactly when the bytes readable under it, at the moment
   * all locks were held, had the buffer's length, and neither one of the key's commands nor the device as a
   * whole failed. The buffer then holds exactly those bytes.
   */
  lemma LoadOutcome(c: Config, s: State, w: nat, req: Request, steps: seq<Step>)
    requires Reachable(c, s) && Enabled(c, s, w, Begin(req)) && req.kind == Get
    requires Runs(c, Next(c, s, w, Begin(req)), steps) && NoBegin(steps, w)
    ensures var s1 := Next(c, s, w, Begin(req));
            var t, entered := End(c, s1, steps), EnteredLog(c, s1, w, steps);
            w < |t.workers| && (t.workers[w].stage.Finished? ==>
              && entered.Some? && Delivered(entered.value, req.parts, t.workers[w].stage.success, t.workers[w].stage.out)
              && forall i: nat | i < |req.parts| ::
                   t.workers[w].stage.success[i] <==> Fitting(entered.value, req.parts[i]) && !HurtIn(steps, w, i))
  {
    hide Reachable, Inv, Enabled, Next, Delivered, Fitting, HurtIn;
    ReachableInv(c, s);
    BeginsWaiting(c, s, w, req);
    WaitedRun(c, Next(c, s, w, Begin(req)), w, steps);
  }

  /** A lookup or delete that has returned reports whether its key had bytes when its lock was held. */
  lemma PresenceOutcome(c: Config, s: State, w: nat, req: Request, steps: seq<Step>)
    requires Reachable(c, s) && Enabled(c, s, w, Begin(req)) && req.kind in {Delete, Exists}
    requires Runs(c, Next(c, s, w, Begin(req)), steps) && NoBegin(steps, w)
    ensures var s1 := Next(c, s, w, Begin(req));
            var t, entered := End(c, s1, steps), EnteredLog(c, s1, w, steps);
            w < |t.workers| && (t.workers[w].stage.Finished? ==>
              && entered.Some? && |req.parts| == 1
              && t.workers[w].stage.success == [Replay(entered.value, req.parts[0].key).Some?])
  {
    hide Reachable, Inv, Enabled, Next, Replay;
    ReachableInv(c, s);
    BeginsWaiting(c, s, w, req);
    WaitedRun(c, Next(c, s, w, Begin(req)), w, steps);
  }
}
