/** Concrete runs: one that strands a parked request, one that leaves the submission counter off balance. */
module IoExamples {
  import opened Basics
  import opened SpdkBufferPools
  import opened IoEngine
  import opened IoMachine
  import opened IoTheorems
  import opened IoStranding

  const ALWAYS := Config(_ => Accepted, 1, 1, 4)
  const ITEM := Item(Some([0]), 0, 1)
  const FOUR := [ITEM, ITEM, ITEM, ITEM]

  /** Workers with one buffer of one byte each. */
  predicate Small(ws: seq<Worker>) {
    forall w | 0 <= w < |ws| :: ws[w] == Worker(Pool(true, [false], [0]), [[0]], 1, [], false, {}, {}, [], [])
  }

  lemma SmallStarts() returns (s: Engine)
    ensures Init(ALWAYS, s) && Small(s.workers) && |s.workers| == 2
  {
    var m := Worker(Pool(true, [false], [0]), [[0]], 1, [], false, {}, {}, [], []);
    s := Engine([m, m], [], [], Counters(0, 0, 0, 0, 0, 0, 2, 0, 0, 0, 0, 0, 0, 0), [], 0, 0);
    assert m.pool.inUse == seq(1, _ => false) && m.pool.free == Descending(1);
    assert SumBytes([m]) == SumBytes([]) + 1;
    assert [m, m][..1] == [m] && SumBytes(s.workers) == SumBytes([m]) + 1;
  }

  // ----- a stranded request ----------------------------------------------------------------------

  lemma RoundRobin()
    ensures PartOf(0, 4, 0, 2, 0) == [0, 2] && PartOf(0, 4, 0, 2, 1) == [1, 3]
  {
    assert PartOf(0, 1, 0, 2, 0) == [0] && PartOf(0, 1, 0, 2, 1) == [];
    assert PartOf(0, 2, 0, 2, 0) == [0] && PartOf(0, 2, 0, 2, 1) == [1];
    assert PartOf(0, 3, 0, 2, 0) == [0, 2] && PartOf(0, 3, 0, 2, 1) == [1];
  }

  lemma FourValid()
    ensures ValidPrefix(ALWAYS, FOUR) == 4
  {
    assert ValidItem(ALWAYS, ITEM);
    assert ValidPrefix(ALWAYS, FOUR[3..]) == 1;
    assert ValidPrefix(ALWAYS, FOUR[2..]) == 2;
    assert ValidPrefix(ALWAYS, FOUR[1..]) == 3;
  }

  lemma SmallSubmits(s: Engine)
    requires Init(ALWAYS, s) && Small(s.workers) && |s.workers| == 2
    ensures Enabled(ALWAYS, s, Submit(Write, FOUR, 0))
    ensures var s' := Next(ALWAYS, s, Submit(Write, FOUR, 0));
            && Small(s'.workers) && |s'.workers| == 2 && |s'.requests| == 4
            && s'.dispatches == [Dispatch(0, [0, 2], Unsent), Dispatch(1, [1, 3], Unsent)]
  {
    hide PartOf, ValidPrefix;
    FourValid();
    RoundRobin();
  }

  lemma SmallPosts(s: Engine)
    requires EngineInv(ALWAYS, s) && Small(s.workers) && |s.workers| == 2 && |s.requests| == 4
    requires s.dispatches == [Dispatch(0, [0, 2], Unsent), Dispatch(1, [1, 3], Unsent)]
    ensures Enabled(ALWAYS, s, Post(1, true))
    ensures var s' := Next(ALWAYS, s, Post(1, true));
            && Small(s'.workers) && |s'.workers| == 2 && |s'.requests| == 4
            && s'.dispatches == [Dispatch(0, [0, 2], Unsent), Dispatch(1, [1, 3], Sent)]
  {
    hide EngineInv, Shaped, Small, StandingRight, Undelivered;
    Resting(ALWAYS, s, 1);
  }

  // The first request takes the only buffer.
  lemma FirstArrives(l: Local)
    requires Shaped(ALWAYS, l) && |l.requests| == 4 && Small([l.me])
    ensures var me := Arrive(ALWAYS, l, 1).me; me.pool.free == [] && me.pending == [] && me.pool.initialized
  {
    var noted := l.(me := l.me.(arrivals := l.me.arrivals + [1]));
    Noted(ALWAYS, l, noted);
    assert [l.me][0].pool == Pool(true, [false], [0]);
    hide Shaped, Drain, ReleaseBuffer, CompleteRequest;
    assert Execute(ALWAYS, noted, 1) == Submitted(ALWAYS, Lease(ALWAYS, noted, 1), 1);
  }

  lemma SecondParks(l: Local)
    requires Shaped(ALWAYS, l) && |l.requests| == 4
    requires l.me.pool.free == [] && l.me.pending == [] && l.me.pool.initialized
    ensures Arrive(ALWAYS, l, 3).me.pending == [3] && Arrive(ALWAYS, l, 3).me.pool == l.me.pool
  {
    hide RequestShaped, Drain, ReleaseBuffer, CompleteRequest, Lease;
  }

  lemma SmallDelivers(s: Engine)
    requires EngineInv(ALWAYS, s) && Small(s.workers) && |s.workers| == 2 && |s.requests| == 4
    requires s.dispatches == [Dispatch(0, [0, 2], Unsent), Dispatch(1, [1, 3], Sent)]
    ensures Enabled(ALWAYS, s, Deliver(1))
    ensures Next(ALWAYS, s, Deliver(1)).workers[1].pending == [3]
    ensures Next(ALWAYS, s, Deliver(1)).workers[1].pool.initialized && |Next(ALWAYS, s, Deliver(1)).workers| == 2
  {
    hide EngineInv, Shaped, Arrive;
    Resting(ALWAYS, s, 1);
    var l, rs := At(s, 1), [1, 3];
    assert Small([l.me]);
    assert ArriveAll(ALWAYS, l, rs, 0) == l;
    FirstArrives(l);
    assert ArriveAll(ALWAYS, l, rs, 1) == Arrive(ALWAYS, l, 1);
    SecondParks(Arrive(ALWAYS, l, 1));
    assert ArriveAll(ALWAYS, l, rs, 2) == Arrive(ALWAYS, Arrive(ALWAYS, l, 1), 3);
  }

  lemma SmallStrands(s: Engine)
    requires EngineInv(ALWAYS, s) && |s.workers| == 2 && s.workers[1].pending == [3] && s.workers[1].pool.initialized
    ensures Enabled(ALWAYS, s, Strand(1))
    ensures Stranded(Next(ALWAYS, s, Strand(1)), 1, 3)
  {
    hide EngineInv, Shaped;
    Resting(ALWAYS, s, 1);
    ParkedIsOpen(ALWAYS, s, 1, 3);
  }

  /**
   * Four writes on two workers with one buffer each, then a stop message to the second worker that cannot be
   * posted: its second write is stranded.
   */
  lemma StrandingHappens() returns (s: Engine)
    ensures Reachable(ALWAYS, s) && Stranded(s, 1, 3)
  {
    hide EngineInv, Enabled, Next, Stranded, Reachable, Small;
    s := SmallSubmitted();
    ReachableInv(ALWAYS, s);
    SmallPosts(s);
    s := OneMore(ALWAYS, s, Post(1, true));
    ReachableInv(ALWAYS, s);
    SmallDelivers(s);
    s := OneMore(ALWAYS, s, Deliver(1));
    ReachableInv(ALWAYS, s);
    SmallStrands(s);
    s := OneMore(ALWAYS, s, Strand(1));
  }

  lemma SmallSubmitted() returns (s: Engine)
    ensures Reachable(ALWAYS, s)
    ensures Small(s.workers) && |s.workers| == 2 && |s.requests| == 4
    ensures s.dispatches == [Dispatch(0, [0, 2], Unsent), Dispatch(1, [1, 3], Unsent)]
  {
    hide Init, Next, Enabled, Small;
    s := SmallStarts();
    assert Runs(ALWAYS, s, []) && End(ALWAYS, s, []) == s;
    SmallSubmits(s);
    s := OneMore(ALWAYS, s, Submit(Write, FOUR, 0));
  }

  // ----- a leaked count --------------------------------------------------------------------------

  const NULL := Item(None, 1, 1)

  lemma NullLeaks(s: Engine)
    requires Init(ALWAYS, s)
    ensures Enabled(ALWAYS, s, Submit(Write, [ITEM, NULL], 0))
    ensures var s' := Next(ALWAYS, s, Submit(Write, [ITEM, NULL], 0));
            s'.io.submitted == 1 && s'.io.completed == 0 && Outstanding(s') == {}
  {
    assert ValidItem(ALWAYS, ITEM) && !ValidItem(ALWAYS, NULL);
    assert [ITEM, NULL][1..] == [NULL];
    assert ValidPrefix(ALWAYS, [NULL]) == 0;
    assert ValidPrefix(ALWAYS, [ITEM, NULL]) == 1;
  }

  /** A batch of one good item and one with a null buffer: it throws, and one request stays counted as submitted. */
  lemma LeakHappens() returns (s: Engine)
    ensures Reachable(ALWAYS, s)
    ensures s.io.submitted > s.io.completed + |Outstanding(s)|
  {
    hide Init, Next, Enabled, Outstanding;
    s := SmallStarts();
    assert Runs(ALWAYS, s, []) && End(ALWAYS, s, []) == s;
    NullLeaks(s);
    s := OneMore(ALWAYS, s, Submit(Write, [ITEM, NULL], 0));
  }

  // ----- runs grow at the end --------------------------------------------------------------------

  lemma OneMore(c: Config, s: Engine, a: Action) returns (s': Engine)
    requires Reachable(c, s) && Enabled(c, s, a)
    ensures s' == Next(c, s, a) && Reachable(c, s')
  {
    hide Init, Next, Enabled;
    s' := Next(c, s, a);
    var s0, actions :| Init(c, s0) && Runs(c, s0, actions) && End(c, s0, actions) == s;
    RunsOneMore(c, s0, actions, a);
  }

  lemma {:induction false} RunsOneMore(c: Config, s: Engine, actions: seq<Action>, a: Action)
    requires Runs(c, s, actions) && Enabled(c, End(c, s, actions), a)
    ensures Runs(c, s, actions + [a]) && End(c, s, actions + [a]) == Next(c, End(c, s, actions), a)
    decreases |actions|
  {
    hide Next, Enabled;
    if actions == [] {
      assert [a][1..] == [];
      assert [] + [a] == [a];
    } else {
      assert (actions + [a])[1..] == actions[1..] + [a];
      RunsOneMore(c, Next(c, s, actions[0]), actions[1..], a);
    }
  }
}
