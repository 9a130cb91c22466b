/**
 * Teardown of one bdev context. Requests from close() and device events converge on the application thread,
 * which asks every worker to release its channel and buffers and closes the descriptor after the last answer.
 */
module ShutdownHandshakes {
  import opened Basics

  /**
   * stopping and acking are the workers with a stop request, or an answer to it, in the mail; mail is true
   * while the begin message is. starts, acked, closes and claimReleases count what happened; nothing reads them.
   */
  datatype Life = Life(available: bool, requested: bool, started: bool, complete: bool, closed: bool, claimed: bool,
                       closing: bool, mail: bool, awaited: nat, descriptorOpen: bool,
                       released: seq<bool>, stopping: set<nat>, acking: set<nat>, lostAcks: set<nat>,
                       starts: nat, acked: seq<nat>, closes: nat, claimReleases: nat)

  datatype Action =
    | Event(posted: bool)
    | Close(posted: bool)
    | CloseReturns
    | RuntimeLost
    | Begin(stops: seq<bool>)
    | StopWorker(worker: nat, posted: bool)
    | Acknowledge(worker: nat)

  // ----- the code's steps ------------------------------------------------------------------------

  /** request_shutdown: only the first caller posts the begin message. */
  function Request(s: Life, posted: bool): Life {
    if !s.requested && s.available then
      if posted then s.(requested := true, mail := true) else s.(requested := true, complete := true)
    else s
  }

  /** finish_shutdown_on_app_thread. */
  function Finish(s: Life): Life {
    s.(closes := if s.descriptorOpen then s.closes + 1 else s.closes, descriptorOpen := false, complete := true)
  }

  function CountAnswer(s: Life, w: nat): Life
    requires w < |s.acked|
  {
    s.(awaited := if s.awaited != 0 then s.awaited - 1 else 0, acked := s.acked[w := s.acked[w] + 1])
  }

  /** on_io_worker_shutdown, for worker w. */
  function OnAcknowledged(s: Life, w: nat): (s': Life)
    requires w < |s.acked|
    ensures |s'.released| == |s.released| && |s'.acked| == |s.acked|
  {
    var counted := CountAnswer(s, w);
    if counted.awaited == 0 then Finish(counted) else counted
  }

  function ReleaseWorker(s: Life, w: nat): Life
    requires w < |s.released|
  {
    s.(released := s.released[w := true])
  }

  /** Stop requests to workers 1 up to n; a worker that cannot be reached is released from here. */
  function SendStops(s: Life, posted: seq<bool>, n: nat): (s': Life)
    requires |s.released| == |s.acked| && n <= |s.released| && |posted| == |s.released|
    ensures |s'.released| == |s.released| && |s'.acked| == |s.acked|
  {
    if n <= 1 then s
    else
      var before := SendStops(s, posted, n - 1);
      if posted[n - 1] then before.(stopping := before.stopping + {n - 1})
      else OnAcknowledged(ReleaseWorker(before, n - 1), n - 1)
  }

  function MarkStarted(s: Life): Life {
    s.(started := true, starts := s.starts + 1, mail := false, awaited := |s.released|)
  }

  /** begin_shutdown_on_app_thread: the application's own worker is released last, and directly. */
  function Began(s: Life, posted: seq<bool>): Life
    requires |s.released| == |s.acked| == |posted|
  {
    if s.started then s.(mail := false)
    else
      var begun := MarkStarted(s);
      if s.released == [] then Finish(begun)
      else OnAcknowledged(ReleaseWorker(SendStops(begun, posted, |s.released|), 0), 0)
  }

  /** shutdown_io_worker on a secondary worker's thread: release, then answer. */
  function StopHere(s: Life, w: nat, posted: bool): Life
    requires w < |s.released|
  {
    var freed := ReleaseWorker(s.(stopping := s.stopping - {w}), w);
    if posted then freed.(acking := freed.acking + {w}) else freed.(lostAcks := freed.lostAcks + {w})
  }

  /** close() up to its wait. */
  function CloseCalled(s: Life, posted: bool): Life {
    if s.closed then s
    else
      var marked := s.(closed := true, closing := true);
      if s.descriptorOpen || s.released != [] then Request(marked, posted) else marked.(complete := true)
  }

  predicate Enabled(s: Life, a: Action) {
    && |s.released| == |s.acked|
    && match a
       case Event(_) => true
       case Close(_) => true
       case CloseReturns => s.closing && s.complete
       case RuntimeLost => true
       case Begin(posted) => s.mail && |posted| == |s.released|
       case StopWorker(w, _) => w in s.stopping && w < |s.released|
       case Acknowledge(w) => w in s.acking && w < |s.released|
  }

  function Next(s: Life, a: Action): Life
    requires Enabled(s, a)
  {
    match a
    case Event(posted) => Request(s, posted)
    case Close(posted) => CloseCalled(s, posted)
    case CloseReturns =>
      s.(closing := false, claimed := false, claimReleases := if s.claimed then s.claimReleases + 1 else s.claimReleases)
    case RuntimeLost => s.(available := false)
    case Begin(posted) => Began(s, posted)
    case StopWorker(w, posted) => StopHere(s, w, posted)
    case Acknowledge(w) => OnAcknowledged(s.(acking := s.acking - {w}), w)
  }

  // ----- the invariant ---------------------------------------------------------------------------

  predicate InMail(s: Life, w: nat) {
    w in s.stopping || w in s.acking || w in s.lostAcks
  }

  /** After the start, worker w is being stopped, or has been released and its answer is somewhere. */
  predicate WorkerRight(s: Life, w: nat)
    requires w < |s.released| && w < |s.acked|
  {
    && Count(w in s.stopping) + Count(w in s.acking) + Count(w in s.lostAcks) + s.acked[w] == Count(s.started)
    && s.released[w] == (s.started && w !in s.stopping)
  }

  predicate Untouched(s: Life, w: nat)
    requires w < |s.released| && w < |s.acked|
  {
    s.acked[w] == 0 && !s.released[w] && !InMail(s, w)
  }

  ghost predicate MailRight(s: Life) {
    |s.released| == |s.acked| && forall w: nat | InMail(s, w) :: w < |s.acked|
  }

  predicate ClaimRight(s: Life) {
    s.claimReleases == Count(!s.claimed) && (s.closing ==> s.closed && s.claimed) && (!s.closed ==> s.claimed)
  }

  /** The workers whose answer has not been counted. */
  function Unanswered(acked: seq<nat>): set<nat> {
    set w | 0 <= w < |acked| && acked[w] == 0
  }

  /** The teardown is under way and waits for the answers not yet counted. */
  predicate UnderWay(s: Life) {
    && s.started && s.requested && !s.mail && s.starts == 1
    && s.awaited == |Unanswered(s.acked)| && s.descriptorOpen && s.closes == 0 && !s.complete
  }

  predicate Finished(s: Life) {
    && s.started && s.requested && !s.mail && s.starts == 1
    && s.awaited == 0 == |Unanswered(s.acked)| && !s.descriptorOpen && s.closes == 1 && s.complete
  }

  predicate NotStarted(s: Life) {
    && !s.started && (s.mail ==> s.requested && !s.complete) && s.starts == 0
    && (s.requested ==> s.mail || s.complete)
    && s.awaited == 0 && s.descriptorOpen && s.closes == 0
  }

  /** Whoever waits in close() has had the teardown requested, unless the runtime was gone by then. */
  predicate WaiterRight(s: Life) {
    (s.complete ==> s.requested) && (s.closing && !s.requested ==> !s.available)
  }

  ghost predicate Inv(s: Life) {
    && MailRight(s) && (forall w | 0 <= w < |s.acked| :: WorkerRight(s, w))
    && (NotStarted(s) || (UnderWay(s) && s.awaited > 0) || Finished(s))
    && ClaimRight(s) && WaiterRight(s)
  }

  ghost predicate Init(s: Life) {
    && s.available && !s.requested && !s.started && !s.complete && !s.closed && s.claimed && !s.closing && !s.mail
    && s.awaited == 0 && s.descriptorOpen && s.released == seq(|s.released|, _ => false)
    && s.acked == seq(|s.released|, _ => 0) && s.stopping == s.acking == s.lostAcks == {}
    && s.starts == s.closes == s.claimReleases == 0
  }

  lemma AllUnanswered(acked: seq<nat>)
    requires forall w | 0 <= w < |acked| :: acked[w] == 0
    ensures |Unanswered(acked)| == |acked|
  {
    RangeSize(0, |acked|);
    assert forall w: nat | w < |acked| :: InRange(0, |acked|, w);
    assert Unanswered(acked) == Range(0, |acked|);
  }

  lemma OneFewer(acked: seq<nat>, w: nat)
    requires w < |acked| && acked[w] == 0
    ensures |Unanswered(acked)| > 0 && |Unanswered(acked[w := 1])| == |Unanswered(acked)| - 1
  {
    assert Unanswered(acked[w := 1]) == Unanswered(acked) - {w};
    assert w in Unanswered(acked);
  }

  /** Part way through begin_shutdown: worker 0 and the workers from n on have not been dealt with. */
  ghost predicate Sending(s: Life, n: nat) {
    && MailRight(s) && 1 <= n <= |s.acked| && UnderWay(s) && ClaimRight(s)
    && (forall w | 1 <= w < n :: WorkerRight(s, w))
    && Untouched(s, 0) && (forall w | n <= w < |s.acked| :: Untouched(s, w))
  }

  /** Worker w has been released; its answer is being counted. */
  ghost predicate Answering(s: Life, w: nat) {
    && MailRight(s) && w < |s.acked| && UnderWay(s) && ClaimRight(s)
    && (forall v | 0 <= v < |s.acked| && v != w :: WorkerRight(s, v))
    && s.acked[w] == 0 && s.released[w] && !InMail(s, w)
  }

  // An answer lowers the count; the last one closes the descriptor.
  lemma AnswerCounts(s: Life, w: nat)
    requires w < |s.acked| && s.acked[w] == 0 && UnderWay(s)
    ensures var s' := OnAcknowledged(s, w);
            && s'.acked == s.acked[w := 1] && s'.released == s.released
            && s'.stopping == s.stopping && s'.acking == s.acking && s'.lostAcks == s.lostAcks
            && ((UnderWay(s') && s'.awaited > 0) || Finished(s')) && (ClaimRight(s) ==> ClaimRight(s'))
  {
    OneFewer(s.acked, w);
  }

  /** While stop requests go out, answers given on the spot never make the count run out: worker 0 comes last. */
  lemma {:induction false} SendStopsKeeps(s: Life, posted: seq<bool>, n: nat)
    requires Sending(s, 1) && |posted| == |s.released| && 1 <= n <= |s.released|
    ensures Sending(SendStops(s, posted, n), n)
  {
    hide Unanswered, OnAcknowledged;
    if n > 1 {
      SendStopsKeeps(s, posted, n - 1);
      var before := SendStops(s, posted, n - 1);
      if !posted[n - 1] {
        var freed := ReleaseWorker(before, n - 1);
        assert Untouched(before, n - 1);
        AnswerCounts(freed, n - 1);
        StillOne(SendStops(s, posted, n), 0);
      }
      StopSent(before, SendStops(s, posted, n), posted[n - 1], n);
    }
  }

  lemma StillOne(s: Life, w: nat)
    requires w < |s.acked| && s.acked[w] == 0
    ensures !Finished(s)
  {
    OneFewer(s.acked, w);
  }

  lemma StopSent(before: Life, after: Life, posted: bool, n: nat)
    requires 1 < n <= |before.acked| && Sending(before, n - 1) && UnderWay(after) && ClaimRight(after)
    requires after.released == if posted then before.released else before.released[n - 1 := true]
    requires after.acked == if posted then before.acked else before.acked[n - 1 := 1]
    requires posted ==> after.stopping == before.stopping + {n - 1}
    requires !posted ==> after.stopping == before.stopping
    requires after.acking == before.acking && after.lostAcks == before.lostAcks
    ensures Sending(after, n)
  {
    hide UnderWay, ClaimRight;
    assert before.started && after.started by { Started(before); Started(after); }
    assert Untouched(before, n - 1);
    forall w | 1 <= w < n ensures WorkerRight(after, w) {
      if w < n - 1 { assert WorkerRight(before, w); }
    }
    forall w | w == 0 || n <= w < |after.acked| ensures Untouched(after, w) {
      assert Untouched(before, w);
    }
    forall w: nat | InMail(after, w) ensures w < |after.acked| {
      assert w == n - 1 || InMail(before, w);
    }
  }

  lemma Started(s: Life)
    requires UnderWay(s)
    ensures s.started
  {}

  lemma BeginKeeps(s: Life, posted: seq<bool>)
    requires Inv(s) && Enabled(s, Begin(posted))
    ensures Inv(Next(s, Begin(posted)))
  {
    hide SendStops, OnAcknowledged;
    var n := |s.released|;
    var begun := MarkStarted(s);
    forall w | 0 <= w < n ensures Untouched(begun, w) && s.acked[w] == 0 {
      assert WorkerRight(s, w);
    }
    AllUnanswered(s.acked);
    forall w: nat | InMail(begun, w) ensures w < n {
      assert InMail(s, w);
    }
    if n == 0 {
      var s' := Finish(begun);
      assert forall w: nat :: InMail(s', w) == InMail(begun, w);
    } else {
      SendStopsKeeps(begun, posted, n);
      ReleasedLast(SendStops(begun, posted, n));
      LastAnswer(ReleaseWorker(SendStops(begun, posted, n), 0), 0);
    }
  }

  lemma ReleasedLast(s: Life)
    requires Sending(s, |s.acked|)
    ensures Answering(ReleaseWorker(s, 0), 0)
  {
    hide Unanswered;
    var s' := ReleaseWorker(s, 0);
    forall v | 0 <= v < |s'.acked| && v != 0 ensures WorkerRight(s', v) {
      assert WorkerRight(s, v);
    }
    forall w: nat | InMail(s', w) ensures w < |s'.acked| {
      assert InMail(s, w);
    }
  }

  lemma LastAnswer(s: Life, w: nat)
    requires Answering(s, w)
    ensures Inv(OnAcknowledged(s, w))
  {
    hide Unanswered, OnAcknowledged;
    var s' := OnAcknowledged(s, w);
    AnswerCounts(s, w);
    forall v | 0 <= v < |s'.acked| ensures WorkerRight(s', v) {
      assert v == w || WorkerRight(s, v);
    }
    forall v: nat | InMail(s', v) ensures v < |s'.acked| {
      assert InMail(s, v);
    }
  }

  lemma AcknowledgeKeeps(s: Life, w: nat)
    requires Inv(s) && Enabled(s, Acknowledge(w))
    ensures Inv(Next(s, Acknowledge(w)))
  {
    hide Unanswered, OnAcknowledged;
    var heard := s.(acking := s.acking - {w});
    assert WorkerRight(s, w);
    StillOne(s, w);
    forall v | 0 <= v < |s.acked| && v != w ensures WorkerRight(heard, v) {
      assert WorkerRight(s, v);
    }
    forall v: nat | InMail(heard, v) ensures v < |s.acked| {
      assert InMail(s, v);
    }
    LastAnswer(heard, w);
  }

  lemma StopKeeps(s: Life, w: nat, posted: bool)
    requires Inv(s) && Enabled(s, StopWorker(w, posted))
    ensures Inv(Next(s, StopWorker(w, posted)))
  {
    hide Unanswered;
    var s' := Next(s, StopWorker(w, posted));
    assert WorkerRight(s, w);
    forall v | 0 <= v < |s.acked| ensures WorkerRight(s', v) {
      assert WorkerRight(s, v);
    }
    forall v: nat | InMail(s', v) ensures v < |s.acked| {
      assert InMail(s, v);
    }
  }

  // Steps that touch no worker.
  lemma WorkersAlone(s: Life, s': Life)
    requires MailRight(s) && forall w | 0 <= w < |s.acked| :: WorkerRight(s, w)
    requires s'.released == s.released && s'.acked == s.acked && s'.started == s.started
    requires s'.stopping == s.stopping && s'.acking == s.acking && s'.lostAcks == s.lostAcks
    ensures MailRight(s') && forall w | 0 <= w < |s'.acked| :: WorkerRight(s', w)
  {
    forall w | 0 <= w < |s'.acked| ensures WorkerRight(s', w) {
      assert WorkerRight(s, w);
    }
    forall w: nat | InMail(s', w) ensures w < |s'.acked| {
      assert InMail(s, w);
    }
  }

  lemma EveryStep(s: Life, a: Action)
    requires Inv(s) && Enabled(s, a)
    ensures Inv(Next(s, a))
  {
    match a {
      case Begin(posted) => BeginKeeps(s, posted);
      case StopWorker(w, posted) => StopKeeps(s, w, posted);
      case Acknowledge(w) => AcknowledgeKeeps(s, w);
      case _ => OutsideKeeps(s, a);
    }
  }

  lemma OutsideKeeps(s: Life, a: Action)
    requires Inv(s) && Enabled(s, a) && (a.Event? || a.Close? || a.CloseReturns? || a.RuntimeLost?)
    ensures Inv(Next(s, a))
  {
    hide Unanswered, WorkerRight, MailRight;
    WorkersAlone(s, Next(s, a));
  }

  lemma InitHolds(s: Life)
    requires Init(s)
    ensures Inv(s)
  {
    assert forall w: nat :: !InMail(s, w);
  }

  // ----- runs ------------------------------------------------------------------------------------

  predicate Runs(s: Life, actions: seq<Action>)
    decreases |actions|
  {
    actions == [] || (Enabled(s, actions[0]) && Runs(Next(s, actions[0]), actions[1..]))
  }

  function End(s: Life, actions: seq<Action>): Life
    requires Runs(s, actions)
    decreases |actions|
  {
    if actions == [] then s else End(Next(s, actions[0]), actions[1..])
  }

  lemma {:induction false} RunKeepsInv(s: Life, actions: seq<Action>)
    requires Inv(s) && Runs(s, actions)
    ensures Inv(End(s, actions))
    decreases |actions|
  {
    hide Inv, Enabled, Next;
    if actions == [] {
    } else {
      EveryStep(s, actions[0]);
      RunKeepsInv(Next(s, actions[0]), actions[1..]);
    }
  }

  /**
   * However close(), resize and remove events and lost messages interleave: teardown starts at most once, no
   * worker's answer is counted twice, the descriptor is closed at most once, and only after every worker has
   * released its resources and every answer was counted.
   */
  lemma TeardownIsOrderly(s0: Life, actions: seq<Action>)
    requires Init(s0) && Runs(s0, actions)
    ensures var s := End(s0, actions);
            && s.starts <= 1 && s.closes <= 1 && s.claimReleases <= 1
            && |s.acked| == |s.released| && (forall w | 0 <= w < |s.acked| :: s.acked[w] <= 1)
            && (s.closes == 1 <==> s.started && forall w | 0 <= w < |s.acked| :: s.acked[w] == 1)
            && (s.closes == 1 ==> s.complete && forall w | 0 <= w < |s.released| :: s.released[w])
  {
    InitHolds(s0);
    RunKeepsInv(s0, actions);
    var s := End(s0, actions);
    forall w | 0 <= w < |s.acked| ensures s.acked[w] <= 1 && (s.acked[w] == 1 ==> s.released[w]) {
      assert WorkerRight(s, w);
    }
    if s.started && s.awaited > 0 {
      var w :| w in Unanswered(s.acked);
      assert s.acked[w] == 0;
    } else if s.started {
      forall w | 0 <= w < |s.acked| ensures s.acked[w] == 1 {
        if s.acked[w] == 0 { OneFewer(s.acked, w); }
      }
    }
  }

  /** No stop request and no answer is on its way or lost. */
  predicate NothingInMail(s: Life) {
    s.stopping == {} && s.acking == {} && s.lostAcks == {}
  }

  /** A teardown that has started and lost no answer is finished once nothing is left in the mail. */
  lemma TeardownCompletes(s0: Life, actions: seq<Action>)
    requires Init(s0) && Runs(s0, actions)
    requires End(s0, actions).started && NothingInMail(End(s0, actions))
    ensures End(s0, actions).closes == 1 && End(s0, actions).complete
  {
    InitHolds(s0);
    RunKeepsInv(s0, actions);
    var s := End(s0, actions);
    forall w | 0 <= w < |s.acked| ensures s.acked[w] == 1 { assert WorkerRight(s, w); }
    assert Unanswered(s.acked) == {};
  }

  /** Nothing is on its way any more. */
  predicate Silent(s: Life) {
    !s.mail && s.stopping == {} && s.acking == {}
  }

  lemma SilentOutcome(s: Life)
    requires Inv(s) && Silent(s)
    ensures s.complete <==> s.requested && s.lostAcks == {}
  {
    hide Unanswered;
    if w: nat :| w in s.lostAcks {
      assert InMail(s, w) && WorkerRight(s, w);
      StillOne(s, w);
    } else if s.started {
      forall w | 0 <= w < |s.acked| ensures s.acked[w] == 1 { assert WorkerRight(s, w); }
      NoneUnanswered(s.acked);
    }
  }

  lemma NoneUnanswered(acked: seq<nat>)
    requires forall w | 0 <= w < |acked| :: acked[w] == 1
    ensures |Unanswered(acked)| == 0
  {
    assert Unanswered(acked) == {};
  }

  /**
   * When nothing is on its way any more, a caller of close() gets out exactly if the teardown was requested and
   * no worker's answer was lost; it was not requested only if the runtime had gone before.
   */
  lemma CloseReturnsIff(s0: Life, actions: seq<Action>)
    requires Init(s0) && Runs(s0, actions) && End(s0, actions).closing && Silent(End(s0, actions))
    ensures var s := End(s0, actions);
            && (Enabled(s, CloseReturns) <==> s.requested && s.lostAcks == {})
            && (!s.requested ==> !s.available)
  {
    InitHolds(s0);
    RunKeepsInv(s0, actions);
    SilentOutcome(End(s0, actions));
  }

  /** Every begin message of the run could be posted. */
  predicate AllPosted(actions: seq<Action>) {
    forall i | 0 <= i < |actions| :: actions[i] != Event(false) && actions[i] != Close(false)
  }

  lemma {:induction false} CompletesByFinishing(s: Life, actions: seq<Action>)
    requires Inv(s) && Runs(s, actions) && AllPosted(actions) && (s.complete ==> Finished(s))
    ensures End(s, actions).complete ==> Finished(End(s, actions))
    decreases |actions|
  {
    hide WorkerRight, MailRight, Unanswered;
    if actions == [] {
    } else {
      EveryStep(s, actions[0]);
      CompletesByFinishing(Next(s, actions[0]), actions[1..]);
    }
  }

  /**
   * Unless a begin message could not be posted, the wait in close() ends only after the whole teardown: every
   * worker has released its buffers and channel, every answer was counted and the descriptor is closed.
   */
  lemma CompleteMeansClosed(s0: Life, actions: seq<Action>)
    requires Init(s0) && Runs(s0, actions) && AllPosted(actions) && End(s0, actions).complete
    ensures var s := End(s0, actions);
            && s.started && !s.descriptorOpen && s.closes == 1
            && |s.acked| == |s.released| && forall w | 0 <= w < |s.released| :: s.released[w] && s.acked[w] == 1
  {
    InitHolds(s0);
    CompletesByFinishing(s0, actions);
    TeardownIsOrderly(s0, actions);
  }

  /** A caller that does not get out then never does: nothing that can still happen completes the teardown. */
  lemma {:induction false} CloseHangs(s: Life, actions: seq<Action>)
    requires Inv(s) && s.closing && Silent(s) && !s.complete && Runs(s, actions)
    ensures End(s, actions).closing && !End(s, actions).complete
    decreases |actions|
  {
    hide Unanswered, WorkerRight, MailRight;
    if actions == [] {
    } else {
      EveryStep(s, actions[0]);
      CloseHangs(Next(s, actions[0]), actions[1..]);
    }
  }

  /** Both ways to hang happen: the runtime goes before close(), or a worker's answer cannot be posted. */
  lemma HangsHappen(s0: Life, posted: bool)
    requires Init(s0)
    ensures var lost := [RuntimeLost, Close(posted)];
            Runs(s0, lost) && End(s0, lost).closing && Silent(End(s0, lost)) && !End(s0, lost).complete
    ensures |s0.released| == 2 ==>
              var unheard := [Close(true), Begin([true, true]), StopWorker(1, false)];
              Runs(s0, unheard) && End(s0, unheard).closing && Silent(End(s0, unheard)) && !End(s0, unheard).complete
  {
    var gone := Next(s0, RuntimeLost);
    RunsTwo(s0, RuntimeLost, Close(posted));
    if |s0.released| == 2 {
      UnheardAnswer(s0);
    }
  }

  lemma RunsTwo(s: Life, a: Action, b: Action)
    requires Enabled(s, a) && Enabled(Next(s, a), b)
    ensures Runs(s, [a, b]) && End(s, [a, b]) == Next(Next(s, a), b)
  {
    hide Enabled, Next;
    assert [a, b][1..] == [b] && [b][1..] == [];
    assert Runs(Next(s, a), [b]) && End(Next(s, a), [b]) == Next(Next(s, a), b);
  }

  lemma UnheardAnswer(s0: Life)
    requires Init(s0) && |s0.released| == 2
    ensures var unheard := [Close(true), Begin([true, true]), StopWorker(1, false)];
            Runs(s0, unheard) && End(s0, unheard).closing && Silent(End(s0, unheard)) && !End(s0, unheard).complete
  {
    var asked := Next(s0, Close(true));
    var begun := Next(asked, Begin([true, true]));
    assert SendStops(MarkStarted(asked), [true, true], 1) == MarkStarted(asked);
    assert begun.stopping == {1} && begun.awaited == 1;
    RunsTwo(asked, Begin([true, true]), StopWorker(1, false));
    var unheard := [Close(true), Begin([true, true]), StopWorker(1, false)];
    assert unheard[1..] == [Begin([true, true]), StopWorker(1, false)];
  }

  // ----- the program's form ----------------------------------------------------------------------

  /** The lifecycle fields of the context; the counts and the mail are history. */
  class Lifecycle {
    var shutdownRequested: bool
    var shutdownStarted: bool
    var shutdownComplete: bool
    var closed: bool
    var bdevClaimed: bool
    var workersShuttingDown: nat
    var descriptorOpen: bool
    ghost var life: Life

    ghost predicate Valid()
      reads this
    {
      && life.requested == shutdownRequested && life.started == shutdownStarted && life.complete == shutdownComplete
      && life.closed == closed && life.claimed == bdevClaimed && life.awaited == workersShuttingDown
      && life.descriptorOpen == descriptorOpen && |life.released| == |life.acked|
    }

    constructor (workers: nat)
      ensures Valid() && Init(life) && |life.released| == workers
    {
      shutdownRequested, shutdownStarted, shutdownComplete, closed := false, false, false, false;
      bdevClaimed, workersShuttingDown, descriptorOpen := true, 0, true;
      life := Life(true, false, false, false, false, true, false, false, 0, true, seq(workers, _ => false), {}, {}, {},
                   0, seq(workers, _ => 0), 0, 0);
    }

    method RequestShutdown(runtimeAvailable: bool, posted: bool)
      requires Valid() && runtimeAvailable == life.available
      modifies this
      ensures Valid() && life == Request(old(life), posted)
    {
      if !shutdownRequested && runtimeAvailable {
        shutdownRequested := true;
        if !posted {
          shutdownComplete := true;
        }
        life := Request(life, posted);
      }
    }

    method BeginShutdown(workerCount: nat, posted: seq<bool>)
      requires Valid() && |posted| == |life.released| == workerCount
      modifies this
      ensures Valid() && life == Began(old(life), posted)
    {
      hide Finish, OnAcknowledged, SendStops;
      if shutdownStarted {
        life := life.(mail := false);
        return;
      }
      shutdownStarted := true;
      workersShuttingDown := workerCount;
      life := MarkStarted(life);
      if workerCount == 0 {
        FinishShutdown();
        return;
      }
      SendStopRequests(workerCount, posted);
      life := ReleaseWorker(life, 0);
      OnIoWorkerShutdown(0);
    }

    method SendStopRequests(workerCount: nat, posted: seq<bool>)
      requires Valid() && |posted| == |life.released| == workerCount > 0
      modifies this
      ensures Valid() && life == SendStops(old(life), posted, workerCount)
    {
      hide Finish, OnAcknowledged, ReleaseWorker;
      var index := 1;
      while index < workerCount
        invariant 1 <= index <= workerCount && Valid() && |life.released| == workerCount
        invariant life == SendStops(old(life), posted, index)
      {
        SendStop(index, posted[index]);
        index := index + 1;
      }
    }

    method SendStop(index: nat, posted: bool)
      requires Valid() && index < |life.released|
      modifies this
      ensures Valid() && |life.released| == |old(life).released|
      ensures life == if posted then old(life).(stopping := old(life).stopping + {index})
                      else OnAcknowledged(ReleaseWorker(old(life), index), index)
    {
      hide OnAcknowledged;
      if posted {
        life := life.(stopping := life.stopping + {index});
      } else {
        life := ReleaseWorker(life, index);
        OnIoWorkerShutdown(index);
      }
    }

    method OnIoWorkerShutdown(ghost worker: nat)
      requires Valid() && worker < |life.acked|
      modifies this
      ensures Valid() && life == OnAcknowledged(old(life), worker)
    {
      hide Finish;
      if workersShuttingDown != 0 {
        workersShuttingDown := workersShuttingDown - 1;
      }
      life := CountAnswer(life, worker);
      if workersShuttingDown == 0 {
        FinishShutdown();
      }
    }

    method FinishShutdown()
      requires Valid()
      modifies this
      ensures Valid() && life == Finish(old(life))
    {
      ghost var before := life;
      ReleaseDescriptor();
      shutdownComplete := true;
      life := Finish(before);
    }

    method ReleaseDescriptor()
      requires Valid()
      modifies this
      ensures Valid() && !descriptorOpen && shutdownComplete == old(shutdownComplete)
      ensures life == old(life).(descriptorOpen := false,
                                 closes := if old(descriptorOpen) then old(life).closes + 1 else old(life).closes)
    {
      life := life.(descriptorOpen := false, closes := if descriptorOpen then life.closes + 1 else life.closes);
      if descriptorOpen {
        descriptorOpen := false;
      }
    }

    method CloseBegins(workerCount: nat, runtimeAvailable: bool, posted: bool)
      requires Valid() && runtimeAvailable == life.available && workerCount == |life.released|
      modifies this
      ensures Valid() && life == CloseCalled(old(life), posted)
    {
      if closed { return; }
      closed := true;
      life := life.(closed := true, closing := true);
      if descriptorOpen || workerCount != 0 {
        RequestShutdown(runtimeAvailable, posted);
      } else {
        shutdownComplete := true;
        life := life.(complete := true);
      }
    }
  }
}
