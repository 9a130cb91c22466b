/** Publication of a store: all of a batch's keys change together, and only when every command succeeded. */
module StorePublication {
  import opened Basics
  import opened Segments
  import opened Ownership
  import opened StoreSystem
  import opened StoreInvariant
  import opened StoreSteps

  // ----- what publication does to each holder ----------------------------------------------------

  /** The reservation among the first m that is for key k. */
  ghost function ForKey(parts: seq<Part>, rs: seq<nat>, m: nat, k: Key): (r: Option<nat>)
    requires m <= |rs| && forall p | 0 <= p < |rs| :: rs[p] < |parts|
    ensures r.Some? ==> r.value < m && parts[rs[r.value]].key == k
    ensures r.None? ==> forall p | 0 <= p < m :: parts[rs[p]].key != k
  {
    if m == 0 then None
    else if parts[rs[m - 1]].key == k then Some(m - 1)
    else ForKey(parts, rs, m - 1, k)
  }

  /** Who holds what after the first m reservations are published. */
  ghost function HeldAfter(held: Holdings, w: nat, parts: seq<Part>, rs: seq<nat>, m: nat, h: Holder): Option<Entry>
    requires m <= |rs| && forall p | 0 <= p < |rs| :: rs[p] < |parts|
  {
    match h
    case Reserved(v, p) => if v == w && p < m then None else Find(held, h)
    case Retiring(v, p) => if v == w && p < m then Find(held, Published(parts[rs[p]].key)) else Find(held, h)
    case Published(k) =>
      var p := ForKey(parts, rs, m, k);
      if p.Some? then Find(held, Reserved(w, p.value)) else Find(held, h)
  }

  /** The reservations are for different keys, all present, and nothing of the worker's is retiring. */
  ghost predicate Publishable(held: Holdings, w: nat, parts: seq<Part>, rs: seq<nat>) {
    && (forall p | 0 <= p < |rs| :: rs[p] < |parts| && Reserved(w, p) in held && Retiring(w, p) !in held)
    && (forall p, q | 0 <= p < q < |rs| :: parts[rs[p]].key != parts[rs[q]].key)
  }

  lemma ForKeyUnique(held: Holdings, w: nat, parts: seq<Part>, rs: seq<nat>, m: nat, p: nat)
    requires Publishable(held, w, parts, rs) && m <= |rs| && p < |rs|
    ensures ForKey(parts, rs, m, parts[rs[p]].key) == if p < m then Some(p) else None
  {}

  /** Publication hands the pages over without freeing, duplicating or losing any. */
  lemma {:induction false} PublishFirstHolders(l: Layout, held: Holdings, free: set<int>, w: nat, parts: seq<Part>,
                                               rs: seq<nat>, m: nat)
    requires OneOwner(l, held, free) && Publishable(held, w, parts, rs) && m <= |rs|
    ensures OneOwner(l, PublishFirst(held, w, parts, rs, m), free)
    ensures forall h :: Find(PublishFirst(held, w, parts, rs, m), h) == HeldAfter(held, w, parts, rs, m, h)
  {
    hide OneOwner, ForKey;
    if m == 0 {
    } else {
      PublishFirstHolders(l, held, free, w, parts, rs, m - 1);
      var before := PublishFirst(held, w, parts, rs, m - 1);
      var k := parts[rs[m - 1]].key;
      PublishedOnce(l, held, before, free, w, parts, rs, m);
      forall h ensures Find(PublishFirst(held, w, parts, rs, m), h) == HeldAfter(held, w, parts, rs, m, h) {
        HandOver(held, before, w, parts, rs, m, h);
      }
    }
  }

  lemma PublishedOnce(l: Layout, held: Holdings, before: Holdings, free: set<int>, w: nat, parts: seq<Part>,
                      rs: seq<nat>, m: nat)
    requires Publishable(held, w, parts, rs) && 0 < m <= |rs|
    requires before == PublishFirst(held, w, parts, rs, m - 1) && OneOwner(l, before, free)
    requires forall h :: Find(before, h) == HeldAfter(held, w, parts, rs, m - 1, h)
    ensures OneOwner(l, PublishFirst(held, w, parts, rs, m), free)
  {
    hide OneOwner, ForKey;
    var P, R, T := Published(parts[rs[m - 1]].key), Reserved(w, m - 1), Retiring(w, m - 1);
    assert Find(before, R) == Find(held, R) && Find(before, T) == Find(held, T);
    var vacated := if P in before then (before - {P})[T := before[P]] else before;
    if P in before { PassPages(l, before, free, P, T); }
    PassPages(l, vacated, free, R, P);
  }

  lemma HandOver(held: Holdings, before: Holdings, w: nat, parts: seq<Part>, rs: seq<nat>, m: nat, h: Holder)
    requires Publishable(held, w, parts, rs) && 0 < m <= |rs|
    requires before == PublishFirst(held, w, parts, rs, m - 1)
    requires forall g :: Find(before, g) == HeldAfter(held, w, parts, rs, m - 1, g)
    ensures Find(PublishFirst(held, w, parts, rs, m), h) == HeldAfter(held, w, parts, rs, m, h)
  {
    var P, R, T := Published(parts[rs[m - 1]].key), Reserved(w, m - 1), Retiring(w, m - 1);
    ForKeyUnique(held, w, parts, rs, m - 1, m - 1);
    assert Find(before, R) == Find(held, R);
    assert Find(before, T) == Find(held, T);
    assert Find(before, P) == Find(held, P);
    assert Find(before, h) == HeldAfter(held, w, parts, rs, m - 1, h);
  }

  // ----- what publication does to the abstract store ---------------------------------------------

  lemma {:induction false} AppliedAt(prior: Option<Bytes>, parts: seq<Part>, i: nat, k: Key)
    requires i < |parts| && parts[i].key == k && forall j | 0 <= j < i :: parts[j].key != k
    ensures Applied(prior, parts, k) ==
            if prior.Some? && |prior.value| != |parts[i].buffer| then prior else Some(parts[i].buffer)
  {
    if i == 0 {
    } else {
      AppliedAt(prior, parts[1..], i - 1, k);
    }
  }

  lemma {:induction false} AppliedElsewhere(prior: Option<Bytes>, parts: seq<Part>, k: Key)
    requires forall j | 0 <= j < |parts| :: parts[j].key != k
    ensures Applied(prior, parts, k) == prior
  {
    if parts == [] {
    } else {
      AppliedElsewhere(prior, parts[1..], k);
    }
  }

  ghost predicate WroteAll(c: Config, s: State, w: nat, rs: seq<nat>)
    requires c.l.Valid() && w < |s.workers|
  {
    && Publishable(s.held, w, s.workers[w].req.parts, rs)
    && ReservedFor(s, w, s.workers[w].req.parts, rs, |s.workers[w].req.parts|)
    && WritesDone(c, s, w, s.workers[w].req.parts, rs, {})
  }

  // A reservation whose commands all succeeded holds the caller's bytes.
  lemma ReservationHoldsBuffer(c: Config, s: State, w: nat, rs: seq<nat>, p: nat)
    requires Inv(c, s) && w < |s.workers| && p < |rs| && WroteAll(c, s, w, rs)
    ensures Reserved(w, p) in s.held && rs[p] < |s.workers[w].req.parts|
    ensures Value(c.l, s.content, s.held[Reserved(w, p)]) == s.workers[w].req.parts[rs[p]].buffer
  {
    hide OneOwner, LogOk, Value, DistinctRanks, LocksOk, SegmentsOf, Covered, DistinctKeys, Pages, EntryOk, Written, WorkerOk;
    var h, buffer := Reserved(w, p), s.workers[w].req.parts[rs[p]].buffer;
    HoldersApart(c.l, s.held, s.free, h, h);
    var items := SegmentsOf(c.l, s.held[h]);
    forall q | 0 <= q < |items|
      ensures items[q].bufferOffset + items[q].logicalLength <= |buffer|
              && items[q].logicalLength <= items[q].physicalLength && Written(s.content, items[q], buffer)
    {
      assert q < |CommandsAt(c, s.held, h)|;
      assert CommandWritten(c, s, w, buffer, p, q);
    }
    AllWritten(c.l, s.held[h], s.content, buffer);
  }

  lemma PublishedSize(c: Config, s: State, k: Key)
    requires Inv(c, s) && Published(k) in s.held
    ensures AbsAt(c, s, k).Some? && |AbsAt(c, s, k).value| == s.held[Published(k)].logicalSize
  {
    hide LogOk, DistinctRanks, LocksOk, Pages, EntryOk, WorkerOk, OneOwner;
    HoldersApart(c.l, s.held, s.free, Published(k), Published(k));
  }

  /** Publishing a store whose commands all succeeded is the abstract batch store, for every key. */
  lemma PublishedIsApplied(c: Config, s: State, s': State, w: nat, rs: seq<nat>, k: Key)
    requires Inv(c, s) && w < |s.workers| && WroteAll(c, s, w, rs) && s'.content == s.content
    requires s'.held == PublishFirst(s.held, w, s.workers[w].req.parts, rs, |rs|)
    ensures AbsAt(c, s', k) == Applied(AbsAt(c, s, k), s.workers[w].req.parts, k)
  {
    hide OneOwner, LogOk, Value, DistinctRanks, LocksOk, PublishFirst, WorkerOk, WritesDone, Applied, EntryOk;
    var parts := s.workers[w].req.parts;
    PublishFirstHolders(c.l, s.held, s.free, w, parts, rs, |rs|);
    assert Find(s'.held, Published(k)) == HeldAfter(s.held, w, parts, rs, |rs|, Published(k));
    var p := ForKey(parts, rs, |rs|, k);
    if p.Some? {
      ReservationHoldsBuffer(c, s, w, rs, p.value);
      if Published(k) in s.held { PublishedSize(c, s, k); }
      AppliedAt(AbsAt(c, s, k), parts, rs[p.value], k);
    } else if i :| 0 <= i < |parts| && parts[i].key == k {
      assert Mismatch(s.held, parts[i]) || IsReserved(rs, i);
      PublishedSize(c, s, k);
      AppliedAt(AbsAt(c, s, k), parts, i, k);
    } else {
      AppliedElsewhere(AbsAt(c, s, k), parts, k);
    }
  }

  // ----- the step --------------------------------------------------------------------------------

  lemma FinishWriteStep(c: Config, s: State, w: nat)
    requires Inv(c, s) && Enabled(c, s, w, FinishWrite)
    ensures Inv(c, Next(c, s, w, FinishWrite))
    ensures var s' := Next(c, s, w, FinishWrite);
            forall k :: AbsAt(c, s', k) == if s.workers[w].stage.failed then AbsAt(c, s, k)
                                           else Applied(AbsAt(c, s, k), s.workers[w].req.parts, k)
  {
    hide OneOwner, LogOk, Value, DistinctRanks, LocksOk, SegmentsOf, ReservedFor, AbsAt, WritesDone, WriteCommands, Applied;
    OwnLocks(c, s, w);
    assert WorkerOk(c, s, w);
    if s.workers[w].stage.failed {
      StageStep(c, s, w, RollingBack(s.workers[w].stage.rs, 0));
    } else {
      PublishStep(c, s, w);
    }
  }

  lemma ReadyToPublish(c: Config, s: State, w: nat)
    requires Inv(c, s) && Enabled(c, s, w, FinishWrite) && !s.workers[w].stage.failed
    ensures WroteAll(c, s, w, s.workers[w].stage.rs)
  {
    hide OneOwner, LogOk, Value, DistinctRanks, LocksOk, SegmentsOf, AbsAt, CommandWritten, WriteCommands;
    assert WorkerOk(c, s, w);
  }

  lemma PublishStep(c: Config, s: State, w: nat)
    requires Inv(c, s) && Enabled(c, s, w, FinishWrite) && !s.workers[w].stage.failed
    ensures Inv(c, Next(c, s, w, FinishWrite))
    ensures forall k :: AbsAt(c, Next(c, s, w, FinishWrite), k) == Applied(AbsAt(c, s, k), s.workers[w].req.parts, k)
  {
    hide OneOwner, Value, DistinctRanks, LocksOk, SegmentsOf, ReservedFor, AbsAt, WritesDone, WriteCommands, Applied,
      PublishFirst, Publishable, OnlyPages, Pages, ForKey;
    var s', me := Next(c, s, w, FinishWrite), s.workers[w];
    var parts, rs := me.req.parts, me.stage.rs;
    OwnLocks(c, s, w);
    assert WorkerOk(c, s, w);
    ReadyToPublish(c, s, w);
    PublishFirstHolders(c.l, s.held, s.free, w, parts, rs, |rs|);
    StageKeepsLocks(c, s, s', w);
    NothingTouched(c.l, s.content);
    PartsAreMine(c, s, w);
    forall k ensures AbsAt(c, s', k) == Applied(AbsAt(c, s, k), parts, k) {
      PublishedIsApplied(c, s, s', w, rs, k);
    }
    ReplaySnoc(s.log, Stored(w, parts));
    HeldByRetirement(s, s', w, parts, rs);
    StepKeepsInv(c, s, s', w, {});
  }

  lemma HeldByRetirement(s: State, s': State, w: nat, parts: seq<Part>, rs: seq<nat>)
    requires w < |s.workers| == |s'.workers| && forall p | 0 <= p < |rs| :: rs[p] < |parts|
    requires HoldersOk(s, w) && s.workers[w].stage.Writing? && s.workers[w].stage.rs == rs
    requires forall h :: Find(s'.held, h) == HeldAfter(s.held, w, parts, rs, |rs|, h)
    requires s'.workers[w].stage == Retire(|rs|, 0)
    ensures HoldersOk(s', w)
  {
    forall p: nat ensures Reserved(w, p) !in s'.held {
      assert Find(s'.held, Reserved(w, p)) == HeldAfter(s.held, w, parts, rs, |rs|, Reserved(w, p));
    }
    forall p: nat | Retiring(w, p) in s'.held ensures p < |rs| {
      assert Find(s'.held, Retiring(w, p)) == HeldAfter(s.held, w, parts, rs, |rs|, Retiring(w, p));
    }
  }

  // ----- freeing ---------------------------------------------------------------------------------

  /** Pages of one of the worker's private holders go back to the allocator. */
  lemma ReleaseStep(c: Config, s: State, w: nat, h: Holder, stage: Stage)
    requires Inv(c, s) && w < |s.workers| && !h.Published? && h.worker == w
    requires s.workers[w].stage.RollingBack? || s.workers[w].stage.Retire?
    requires stage.RollingBack? <==> s.workers[w].stage.RollingBack?
    requires stage.Retire? <==> s.workers[w].stage.Retire?
    requires HoldersOk(SetStage(Released(s, h), w, stage), w)
    ensures Inv(c, SetStage(Released(s, h), w, stage))
    ensures forall k :: AbsAt(c, SetStage(Released(s, h), w, stage), k) == AbsAt(c, s, k)
  {
    hide OneOwner, LogOk, Value, DistinctRanks, LocksOk, SegmentsOf, AbsAt, Pages, OnlyPages;
    var s' := SetStage(Released(s, h), w, stage);
    OwnLocks(c, s, w);
    assert WorkerOk(c, s, w);
    if h in s.held { GivePages(c.l, s.held, s.free, h); }
    StageKeepsLocks(c, s, s', w);
    NothingTouched(c.l, s.content);
    AbsAlone(c, s, s', {});
    StepKeepsInv(c, s, s', w, {});
  }

  lemma RollBackStep(c: Config, s: State, w: nat)
    requires Inv(c, s) && Enabled(c, s, w, RollBackOne)
    ensures Inv(c, Next(c, s, w, RollBackOne))
    ensures forall k :: AbsAt(c, Next(c, s, w, RollBackOne), k) == AbsAt(c, s, k)
  {
    hide OneOwner, LogOk, Value, DistinctRanks, LocksOk, SegmentsOf, AbsAt, Pages, OnlyPages;
    var me := s.workers[w];
    OwnLocks(c, s, w);
    assert WorkerOk(c, s, w);
    if me.stage.next < |me.stage.rs| {
      ReleaseStep(c, s, w, Reserved(w, me.stage.next), RollingBack(me.stage.rs, me.stage.next + 1));
    } else {
      StageStep(c, s, w, Finished([false], []));
    }
  }

  lemma RetireStep(c: Config, s: State, w: nat)
    requires Inv(c, s) && Enabled(c, s, w, RetireOne)
    ensures Inv(c, Next(c, s, w, RetireOne))
    ensures forall k :: AbsAt(c, Next(c, s, w, RetireOne), k) == AbsAt(c, s, k)
  {
    hide OneOwner, LogOk, Value, DistinctRanks, LocksOk, SegmentsOf, AbsAt, Pages, OnlyPages;
    var me := s.workers[w];
    OwnLocks(c, s, w);
    assert WorkerOk(c, s, w);
    if me.stage.next < me.stage.count {
      ReleaseStep(c, s, w, Retiring(w, me.stage.next), Retire(me.stage.count, me.stage.next + 1));
    } else {
      StageStep(c, s, w, Finished([true], []));
    }
  }
}
