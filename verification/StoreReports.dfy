/**
 * What a store or delete reports is what it did: its result against the history of atomic effects, over
 * every run and whatever the other workers do meanwhile.
 */
module StoreReports {
  import opened Segments
  import opened Ownership
  import opened StoreSystem
  import opened StoreInvariant
  import opened StoreTheorems

  /** Worker w's entries of the history from position since on. */
  function Own(log: seq<Event>, w: nat, since: nat): seq<Event> {
    if |log| <= since then []
    else
      var n := |log| - 1;
      Own(log[..n], w, since) + if log[n].worker == w then [log[n]] else []
  }

  /** What worker w's request has logged by its stage. */
  function Expected(wk: Worker, w: nat): seq<Event> {
    if wk.stage.Retire? || (wk.stage.Finished? && wk.stage.success == [true]) then
      if wk.req.kind == Set then [Stored(w, wk.req.parts)]
      else if wk.req.kind == Delete && wk.req.parts != [] then [Deleted(w, wk.req.parts[0].key)]
      else []
    else []
  }

  ghost predicate ReportOk(s: State, w: nat)
    requires w < |s.workers|
  {
    var me := s.workers[w];
    !me.stage.Idle? ==>
      && me.since <= |s.log| && Own(s.log, w, me.since) == Expected(me, w)
      && (me.req.kind in {Set, Delete} && me.stage.Finished? ==> me.stage.success in {[true], [false]})
  }

  /** A store that will report failure. */
  predicate Doomed(wk: Worker) {
    match wk.stage
    case Writing(_, _, failed) => failed
    case RollingBack(_, _) => true
    case Finished(success, _) => success == [false]
    case _ => false
  }

  /**
   * The steps that fail a store: a repeated key, an empty buffer, too little free space for a value that
   * is not skipped, a failed device command, and a device that accepts no command at all.
   */
  ghost predicate Fails(c: Config, s: State, w: nat, a: Action)
    requires c.l.Valid() && Enabled(c, s, w, a)
  {
    var me := s.workers[w];
    match a
    case Reserve(_) =>
      var part := me.req.parts[me.stage.next];
      || part.key in KeysOf(me.req.parts[..me.stage.next]) || part.buffer == []
      || (!Mismatch(s.held, part) && |s.free| * c.l.page < |part.buffer|)
    case WriteCommand(_, ok, _) => !ok
    case WriteUnavailable => true
    case _ => false
  }

  /** Some step of worker w in the run fails its store. */
  ghost predicate FailsIn(c: Config, s: State, w: nat, steps: seq<Step>)
    requires c.l.Valid() && Runs(c, s, steps)
    decreases |steps|
  {
    steps != []
    && ((steps[0].0 == w && Fails(c, s, w, steps[0].1))
        || FailsIn(c, Next(c, s, steps[0].0, steps[0].1), w, steps[1..]))
  }

  /** Worker w begins no request in the run. */
  predicate NoBegin(steps: seq<Step>, w: nat) {
    forall i | 0 <= i < |steps| && steps[i].0 == w :: !steps[i].1.Begin?
  }

  lemma OwnGrows(log: seq<Event>, e: Event, w: nat, since: nat)
    requires since <= |log|
    ensures Own(log + [e], w, since) == Own(log, w, since) + if e.worker == w then [e] else []
  {
    assert (log + [e])[..|log|] == log;
  }

  // ----- one step --------------------------------------------------------------------------------

  // A step changes its own worker and adds at most one event, its own, to the history.
  lemma LogStep(c: Config, s: State, v: nat, a: Action)
    requires c.l.Valid() && Enabled(c, s, v, a)
    ensures var s' := Next(c, s, v, a);
            && v < |s.workers| == |s'.workers| && s'.workers == s.workers[v := s'.workers[v]]
            && (s'.log == s.log || exists e: Event :: e.worker == v && s'.log == s.log + [e])
  {
    hide ReadCommands, WriteCommands, PublishFirst, CanWrite, CanRead, SegmentsOf, Allocatable, Overwrite, LockOrder;
    hide Staged, Slice, Matches, Mismatch, KeysOf;
    var s' := Next(c, s, v, a);
    assert s'.workers == s.workers[v := s'.workers[v]];
    if |s'.log| > |s.log| {
      var e := s'.log[|s.log|];
      assert e.worker == v && s'.log == s.log + [e];
    }
  }

  // Another worker's step leaves worker w and its part of the history alone.
  lemma OthersStep(c: Config, s: State, w: nat, v: nat, a: Action)
    requires c.l.Valid() && Enabled(c, s, v, a) && w < |s.workers| && v != w
    ensures var s' := Next(c, s, v, a);
            && |s'.workers| == |s.workers| && s'.workers[w] == s.workers[w]
            && (ReportOk(s, w) ==> ReportOk(s', w))
  {
    hide Next, Enabled, Own, Expected;
    LogStep(c, s, v, a);
    if s.workers[w].since <= |s.log| {
      forall e: Event | e.worker == v {
        OwnGrows(s.log, e, w, s.workers[w].since);
      }
    }
  }

  /** Which kinds of request pass through each stage. */
  predicate KindFits(wk: Worker) {
    && (wk.stage.Reserving? || wk.stage.Writing? || wk.stage.RollingBack? ==> wk.req.kind == Set)
    && (wk.stage.Reading? ==> wk.req.kind == Get)
    && (wk.stage.Retire? ==> wk.req.kind in {Set, Delete})
    && (wk.req.kind == Delete && !wk.stage.Idle? ==> |wk.req.parts| == 1)
  }

  lemma KindsFit(c: Config, s: State, w: nat)
    requires Inv(c, s) && w < |s.workers|
    ensures c.l.Valid() && KindFits(s.workers[w])
  {
    hide OneOwner, LogOk, DistinctRanks, ReservedFor, ReadsDone, WritesDone, ReadResult, HoldersOk;
    assert WorkerOk(c, s, w);
  }

  /** An own step keeps the request and its report; failing steps doom a store. */
  ghost predicate Reported(c: Config, s: State, w: nat, a: Action)
    requires c.l.Valid() && Enabled(c, s, w, a)
  {
    var me, s' := s.workers[w], Next(c, s, w, a);
    && |s'.workers| == |s.workers| && s'.workers[w].req == me.req && s'.workers[w].since == me.since
    && ReportOk(s', w)
    && (!s'.workers[w].stage.Idle? && me.req.kind == Set ==>
          (Doomed(s'.workers[w]) <==> Doomed(me) || Fails(c, s, w, a)))
  }

  lemma ReservationReported(c: Config, s: State, w: nat, a: Action)
    requires c.l.Valid() && Enabled(c, s, w, a) && a.Reserve?
    requires ReportOk(s, w) && KindFits(s.workers[w])
    ensures Reported(c, s, w, a)
  {
    hide Allocatable, Own, Pages;
    var part := s.workers[w].req.parts[s.workers[w].stage.next];
    if a.entry.Some? { AllocatedFits(c.l, s.free, |part.buffer|, a.entry.value); }
  }

  // The two steps that may enter the history.
  lemma EffectReported(c: Config, s: State, w: nat, a: Action)
    requires c.l.Valid() && Enabled(c, s, w, a) && (a.Enter? || a.FinishWrite?)
    requires ReportOk(s, w) && KindFits(s.workers[w])
    ensures Reported(c, s, w, a)
  {
    hide ReadCommands, WriteCommands, PublishFirst, Own, Matches;
    forall e: Event | e.worker == w {
      OwnGrows(s.log, e, w, s.workers[w].since);
    }
  }

  lemma CommandReported(c: Config, s: State, w: nat, a: Action)
    requires c.l.Valid() && Enabled(c, s, w, a)
    requires a.StartWrite? || a.WriteCommand? || a.Scramble? || a.WriteUnavailable? || a.ReadCommand?
    requires ReportOk(s, w) && KindFits(s.workers[w])
    ensures Reported(c, s, w, a)
  {
    hide WriteCommands, SegmentsOf, Own, Overwrite, IsCommand, Staged, Slice;
  }

  lemma PlainReported(c: Config, s: State, w: nat, a: Action)
    requires c.l.Valid() && Enabled(c, s, w, a)
    requires a.Acquire? || a.RollBackOne? || a.RetireOne? || a.ReadUnavailable? || a.FinishRead? || a.Unlock?
    requires ReportOk(s, w) && KindFits(s.workers[w])
    ensures Reported(c, s, w, a)
  {
    hide Own, Pages;
  }

  lemma OwnStep(c: Config, s: State, w: nat, a: Action)
    requires w < |s.workers| && Inv(c, s) && Enabled(c, s, w, a) && !a.Begin? && ReportOk(s, w)
    ensures Reported(c, s, w, a)
  {
    hide Inv, Enabled, KindFits, ReportOk, Reported;
    KindsFit(c, s, w);
    match a {
      case Reserve(_) => ReservationReported(c, s, w, a);
      case Enter => EffectReported(c, s, w, a);
      case FinishWrite => EffectReported(c, s, w, a);
      case StartWrite => CommandReported(c, s, w, a);
      case WriteCommand(_, _, _) => CommandReported(c, s, w, a);
      case Scramble(_, _) => CommandReported(c, s, w, a);
      case WriteUnavailable => CommandReported(c, s, w, a);
      case ReadCommand(_, _) => CommandReported(c, s, w, a);
      case _ => PlainReported(c, s, w, a);
    }
  }

  /** Any worker's step, seen from worker w, which does not begin a request. */
  ghost predicate Followed(c: Config, s: State, w: nat, step: Step)
    requires c.l.Valid() && w < |s.workers| && Enabled(c, s, step.0, step.1)
  {
    var me, s' := s.workers[w], Next(c, s, step.0, step.1);
    && |s'.workers| == |s.workers| && s'.workers[w].req == me.req && s'.workers[w].since == me.since
    && (me.stage.Idle? ==> s'.workers[w].stage.Idle?)
    && ReportOk(s', w)
    && (!s'.workers[w].stage.Idle? && me.req.kind == Set ==>
          (Doomed(s'.workers[w]) <==> Doomed(me) || (step.0 == w && Fails(c, s, w, step.1))))
  }

  lemma StepFollowed(c: Config, s: State, w: nat, step: Step)
    requires w < |s.workers| && Inv(c, s) && Enabled(c, s, step.0, step.1) && ReportOk(s, w)
    requires step.0 == w ==> !step.1.Begin?
    ensures Followed(c, s, w, step)
  {
    hide Inv, Next, KindFits, Fails, ReportOk;
    Configured(c, s);
    if step.0 == w {
      OwnStep(c, s, w, step.1);
    } else {
      OthersStep(c, s, w, step.0, step.1);
    }
  }

  // A request begins with nothing logged and no failure.
  lemma BeginsClean(c: Config, s: State, w: nat, req: Request)
    requires Inv(c, s) && Enabled(c, s, w, Begin(req))
    ensures var s' := Next(c, s, w, Begin(req));
            && Inv(c, s') && w < |s'.workers| && ReportOk(s', w)
            && s'.workers[w].req == req && s'.workers[w].since == |s.log| && !Doomed(s'.workers[w])
  {
    hide Inv, LockOrder;
    EveryStep(c, s, w, Begin(req));
  }

  // ----- over runs -------------------------------------------------------------------------------

  /** A store is doomed at the end of a run exactly when it was before or a step of the run failed it. */
  lemma {:induction false} RunFollowed(c: Config, s: State, w: nat, steps: seq<Step>)
    requires w < |s.workers| && Inv(c, s) && Runs(c, s, steps) && NoBegin(steps, w) && ReportOk(s, w)
    ensures |End(c, s, steps).workers| == |s.workers|
    ensures s.workers[w].stage.Idle? ==> End(c, s, steps).workers[w].stage.Idle?
    ensures var me, t := s.workers[w], End(c, s, steps);
            !t.workers[w].stage.Idle? ==>
              && t.workers[w].req == me.req && t.workers[w].since == me.since && ReportOk(t, w)
              && (me.req.kind == Set ==> (Doomed(t.workers[w]) <==> Doomed(me) || FailsIn(c, s, w, steps)))
    decreases |steps|
  {
    hide Inv, Next, Enabled, ReportOk, Doomed, Fails;
    if steps == [] {
    } else {
      Configured(c, s);
      StepFollowed(c, s, w, steps[0]);
      EveryStep(c, s, steps[0].0, steps[0].1);
      RunFollowed(c, Next(c, s, steps[0].0, steps[0].1), w, steps[1..]);
    }
  }

  /** In every reachable state every worker's request has logged exactly what its stage says. */
  lemma ReachableReports(c: Config, s: State, w: nat)
    requires Reachable(c, s) && w < |s.workers|
    ensures ReportOk(s, w)
  {
    hide Inv, Enabled, Next, ReportOk;
    var s0, steps :| Init(c, s0) && Runs(c, s0, steps) && End(c, s0, steps) == s;
    InitInv(c, s0);
    forall v | 0 <= v < |s0.workers| ensures ReportOk(s0, v) {
      NewWorkerReports(c, s0, v);
    }
    RunReports(c, s0, steps);
  }

  lemma NewWorkerReports(c: Config, s: State, w: nat)
    requires Init(c, s) && w < |s.workers|
    ensures ReportOk(s, w)
  {}

  lemma {:induction false} RunReports(c: Config, s: State, steps: seq<Step>)
    requires Inv(c, s) && Runs(c, s, steps)
    requires forall w | 0 <= w < |s.workers| :: ReportOk(s, w)
    ensures forall w | 0 <= w < |End(c, s, steps).workers| :: ReportOk(End(c, s, steps), w)
    decreases |steps|
  {
    hide Inv, Enabled, Next, ReportOk;
    if steps == [] {
    } else {
      Configured(c, s);
      var v, a := steps[0].0, steps[0].1;
      var s' := Next(c, s, v, a);
      EveryStep(c, s, v, a);
      forall w | 0 <= w < |s'.workers| ensures ReportOk(s', w) {
        AnyStepReports(c, s, w, v, a);
      }
      RunReports(c, s', steps[1..]);
    }
  }

  lemma AnyStepReports(c: Config, s: State, w: nat, v: nat, a: Action)
    requires Inv(c, s) && Enabled(c, s, v, a)
    requires forall u | 0 <= u < |s.workers| :: ReportOk(s, u)
    ensures |Next(c, s, v, a).workers| == |s.workers|
    ensures w < |s.workers| ==> ReportOk(Next(c, s, v, a), w)
  {
    hide Inv, ReportOk, Next, Enabled;
    Configured(c, s);
    LogStep(c, s, v, a);
    if w < |s.workers| {
      if v == w && a.Begin? {
        BeginsClean(c, s, w, a.req);
      } else {
        StepFollowed(c, s, w, (v, a));
      }
    }
  }

  // ----- what a caller is told -------------------------------------------------------------------

  /**
   * A store that has returned reports failure exactly when one of its steps failed it. Reporting success,
   * it has entered the history exactly once since it began, with its own keys and buffers; reporting
   * failure, not at all. Nothing else can be reported.
   */
  lemma StoreOutcome(c: Config, s: State, w: nat, req: Request, steps: seq<Step>)
    requires Reachable(c, s) && Enabled(c, s, w, Begin(req)) && req.kind == Set
    requires Runs(c, Next(c, s, w, Begin(req)), steps) && NoBegin(steps, w)
    ensures var s1 := Next(c, s, w, Begin(req));
            var t := End(c, s1, steps);
            w < |t.workers| && (t.workers[w].stage.Finished? ==>
              && (t.workers[w].stage.success == [false] <==> FailsIn(c, s1, w, steps))
              && t.workers[w].stage.success == [!FailsIn(c, s1, w, steps)]
              && Own(t.log, w, |s.log|) == if FailsIn(c, s1, w, steps) then [] else [Stored(w, req.parts)])
  {
    hide Reachable, Inv, Enabled, Next, Own;
    ReachableInv(c, s);
    Configured(c, s);
    BeginsClean(c, s, w, req);
    RunFollowed(c, Next(c, s, w, Begin(req)), w, steps);
  }

  /** A delete reports success exactly when it entered the history, once and with its own key. */
  lemma DeleteOutcome(c: Config, s: State, w: nat, req: Request, steps: seq<Step>)
    requires Reachable(c, s) && Enabled(c, s, w, Begin(req)) && req.kind == Delete
    requires Runs(c, Next(c, s, w, Begin(req)), steps) && NoBegin(steps, w)
    ensures var t := End(c, Next(c, s, w, Begin(req)), steps);
            w < |t.workers| && (t.workers[w].stage.Finished? ==>
              || (t.workers[w].stage.success == [true] && Own(t.log, w, |s.log|) == [Deleted(w, req.parts[0].key)])
              || (t.workers[w].stage.success == [false] && Own(t.log, w, |s.log|) == []))
  {
    hide Reachable, Inv, Next, Own;
    ReachableInv(c, s);
    Configured(c, s);
    BeginsClean(c, s, w, req);
    RunFollowed(c, Next(c, s, w, Begin(req)), w, steps);
  }

  /** A load or lookup never enters the history. */
  lemma ReadersLogNothing(c: Config, s: State, w: nat, req: Request, steps: seq<Step>)
    requires Reachable(c, s) && Enabled(c, s, w, Begin(req)) && req.kind in {Get, Exists}
    requires Runs(c, Next(c, s, w, Begin(req)), steps) && NoBegin(steps, w)
    ensures var t := End(c, Next(c, s, w, Begin(req)), steps);
            w < |t.workers| && (!t.workers[w].stage.Idle? ==> Own(t.log, w, |s.log|) == [])
  {
    hide Reachable, Inv, Next, Own;
    ReachableInv(c, s);
    Configured(c, s);
    BeginsClean(c, s, w, req);
    RunFollowed(c, Next(c, s, w, Begin(req)), w, steps);
  }

  /**
   * From the step that fails it, whatever the others do, a store stays out of the history and, once it
   * returns, has reported failure.
   */
  lemma FailureIsReported(c: Config, s: State, w: nat, a: Action, steps: seq<Step>)
    requires Reachable(c, s) && w < |s.workers| && s.workers[w].req.kind == Set
    requires Enabled(c, s, w, a) && Fails(c, s, w, a) && Runs(c, Next(c, s, w, a), steps) && NoBegin(steps, w)
    ensures var t := End(c, Next(c, s, w, a), steps);
            w < |t.workers| && (!t.workers[w].stage.Idle? ==>
              && Doomed(t.workers[w]) && Own(t.log, w, s.workers[w].since) == [])
  {
    hide Reachable, Inv, Next, Own;
    ReachableInv(c, s);
    Configured(c, s);
    ReachableReports(c, s, w);
    StepFollowed(c, s, w, (w, a));
    EveryStep(c, s, w, a);
    RunFollowed(c, Next(c, s, w, a), w, steps);
  }
}
