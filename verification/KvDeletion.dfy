/**
 * Deleting clients among storing and loading ones, with crashes anywhere: objects stay whole as long as no
 * delete of an identity overlaps a store of it, and are lost in exactly one way when one does.
 */
module KvDeletion {
  import opened Basics
  import opened KvFormat
  import opened KvMachine
  import opened KvPublication
  import opened KvCrash

  predicate Storing(c: Client) {
    c.Look? || c.Put? || c.Compare? || c.Publish? || c.Reread?
  }

  predicate Deleting(c: Client) {
    c.DeleteLook? || c.DropRecord? || c.Hide? || c.DropChunk?
  }

  /** A store and a delete of one identity. */
  predicate Clash(a: Client, b: Client) {
    Storing(a) && Deleting(b) && a.job.identity == b.identity
  }

  /** No delete of an identity is in progress beside a store of it. */
  ghost predicate Apart(s: Cluster) {
    forall v, w | 0 <= v < |s.clients| && 0 <= w < |s.clients| && s.clients[v].Some? && s.clients[w].Some? ::
      !Clash(s.clients[v].value, s.clients[w].value)
  }

  ghost predicate RunsApart(g: Setting, s: Cluster, actions: seq<Action>)
    requires Runs(g, s, actions)
    decreases |actions|
  {
    Apart(s) && (actions == [] || RunsApart(g, Next(g, s, actions[0]), actions[1..]))
  }

  // ----- without overlap -------------------------------------------------------------------------

  /** What a client has established; loads may see anything. */
  ghost predicate Follows(g: Setting, d: Device, c: Client) {
    c.LoadLook? || c.Fetch? || KnowsAlone(g, d, c)
  }

  ghost predicate ApartInv(g: Setting, s: Cluster) {
    && Healthy(g, s.device)
    && forall w | 0 <= w < |s.clients| && s.clients[w].Some? :: Follows(g, s.device, s.clients[w].value)
  }

  // A storing client writes at most one record, of its own identity.
  lemma StoreWrites(g: Setting, d: Device, c: Client, id: Bytes)
    requires SettingOk(g) && Storing(c) && KnowsAlone(g, d, c)
    requires (id, MANIFEST_INDEX) in g.used && id != c.job.identity && MKey(g.f, id) !in d
    ensures MKey(g.f, id) !in Step(g.f, c, d).1
  {
    hide Lawful, Decode, JobOk, HasChunks, DeriveKey;
    JobKeys(g, c.job);
    var s, t := (c.job.identity, MANIFEST_INDEX), (id, MANIFEST_INDEX);
    assert KeyOf(g.f, s.0, s.1) != KeyOf(g.f, t.0, t.1);
    if c.Put? { ChunkIsNoManifest(g, c.job, c.i, id); }
  }

  // A deleting client removes at most one record, of its own identity.
  lemma DeleteRemoves(g: Setting, d: Device, c: Client)
    requires SettingOk(g) && Deleting(c) && KnowsAlone(g, d, c)
    ensures var d' := Step(g.f, c, d).1;
            if c.DeleteLook? then d' == d
            else
              var slot := if c.DropChunk? then (c.identity, c.i) else (c.identity, MANIFEST_INDEX);
              slot in g.used && slot.1 <= MANIFEST_INDEX && d' == d - {KeyOf(g.f, slot.0, slot.1)}
  {
    hide Lawful, Decode, DeriveKey;
    if !c.DeleteLook? {
      var slot := if c.DropChunk? then (c.identity, c.i) else (c.identity, MANIFEST_INDEX);
      assert slot in g.used;
      SlotInRange(g, slot);
    }
  }

  // Removing a record of another identity takes no chunk from a job.
  lemma ChunksSurvive(g: Setting, d: Device, slot: Slot, job: Job, n: nat)
    requires SettingOk(g) && Accepted(g, job) && HasChunks(d, job, n)
    requires slot in g.used && slot.0 != job.identity && slot.1 <= MANIFEST_INDEX
    ensures HasChunks(d - {KeyOf(g.f, slot.0, slot.1)}, job, n)
  {
    hide SettingOk, JobOk;
    JobKeys(g, job);
    forall i | 0 <= i < n ensures job.plan.chunks[i].key != KeyOf(g.f, slot.0, slot.1) {
      ChunkElsewhere(g, slot, job.identity, i);
    }
  }

  lemma BesideStore(g: Setting, d: Device, c: Client, other: Client)
    requires Healthy(g, d) && Storing(c) && KnowsAlone(g, d, c) && Follows(g, d, other) && !Clash(c, other)
    ensures Follows(g, Step(g.f, c, d).1, other)
  {
    hide Sound, Covers, SettingOk, Accepted, HasChunks, Step;
    StepKeeps(g, d, c);
    if Storing(other) {
      KnowsGrows(g, d, Step(g.f, c, d).1, other);
    } else if other.DropChunk? {
      StoreWrites(g, d, c, other.identity);
    }
  }

  lemma BesideDelete(g: Setting, d: Device, c: Client, other: Client)
    requires SettingOk(g) && Deleting(c) && KnowsAlone(g, d, c) && Follows(g, d, other) && !Clash(other, c)
    ensures Follows(g, Step(g.f, c, d).1, other)
  {
    hide SettingOk, Accepted, HasChunks, Step;
    DeleteRemoves(g, d, c);
    if Storing(other) && !c.DeleteLook? && !other.Look? && !other.Reread? {
      var slot := if c.DropChunk? then (c.identity, c.i) else (c.identity, MANIFEST_INDEX);
      var n := if other.Publish? then |other.job.plan.chunks| else other.i;
      ChunksSurvive(g, d, slot, other.job, n);
    }
  }

  lemma ReadersLeave(f: Library, d: Device, c: Client)
    requires !Storing(c) && !Deleting(c)
    ensures var (c', d') := Step(f, c, d); d' == d && (c'.LoadLook? || c'.Fetch? || c'.Done?)
  {}

  /** The only ways in which a step of client c changes what identity id loads as. */
  ghost predicate Effect(g: Setting, d: Device, d': Device, c: Client, id: Bytes) {
    || Loaded(g.f, d', id) == Loaded(g.f, d, id)
    || (c.Publish? && c.job.identity == id && Loaded(g.f, d, id) == None && Loaded(g.f, d', id) == Some(c.job.payload))
    || (Deleting(c) && c.identity == id && Loaded(g.f, d', id) == None)
  }

  lemma StoreEffect(g: Setting, d: Device, c: Client)
    requires Healthy(g, d) && Storing(c) && KnowsAlone(g, d, c)
    ensures forall id | (id, MANIFEST_INDEX) in g.used :: Effect(g, d, Step(g.f, c, d).1, c, id)
    ensures c.Publish? && Step(g.f, c, d).0 == Done(Published) ==>
              Loaded(g.f, Step(g.f, c, d).1, c.job.identity) == Some(c.job.payload)
  {
    hide SettingOk, Covers, Loaded, ManifestAt, InUse, HasChunks, JobOk, Sound;
    StoreStep(g, d, c);
    StepKeeps(g, d, c);
    OwnManifest(g, d, c);
    InUseNamed(g, c.job.identity, c.job.requested.chunkCount);
    if !(c.Publish? && c.job.plan.manifestKey !in d) {
      SameVisible(g, d, Step(g.f, c, d).1, c.job.identity);
    }
  }

  lemma InUseNamed(g: Setting, identity: Bytes, n: int)
    requires InUse(g, identity, n)
    ensures (identity, MANIFEST_INDEX) in g.used
  {}

  // A step of the client itself.
  lemma OwnFollow(g: Setting, d: Device, c: Client)
    requires Healthy(g, d) && Follows(g, d, c)
    ensures var (c', d') := Step(g.f, c, d);
            && Healthy(g, d') && Follows(g, d', c') && forall id | (id, MANIFEST_INDEX) in g.used :: Effect(g, d, d', c, id)
  {
    hide Healthy, KnowsAlone, Step, Loaded;
    if Storing(c) {
      StoreStep(g, d, c);
      StoreEffect(g, d, c);
    } else if Deleting(c) {
      DeleteStep(g, d, c);
    } else {
      ReadersLeave(g.f, d, c);
      DoneKnows(g, d, Step(g.f, c, d).0);
    }
  }

  lemma DoneKnows(g: Setting, d: Device, c: Client)
    ensures c.Done? ==> KnowsAlone(g, d, c)
  {}

  // A step beside a client that the two do not clash with.
  lemma OthersFollow(g: Setting, d: Device, c: Client, other: Client)
    requires Healthy(g, d) && Follows(g, d, c) && Follows(g, d, other) && !Clash(c, other) && !Clash(other, c)
    ensures Follows(g, Step(g.f, c, d).1, other)
  {
    hide Sound, Covers, SettingOk, KnowsAlone, Step;
    if Storing(c) {
      BesideStore(g, d, c, other);
    } else if Deleting(c) {
      BesideDelete(g, d, c, other);
    } else {
      ReadersLeave(g.f, d, c);
    }
  }

  lemma StartKnows(g: Setting, s: Cluster, a: Action)
    requires Enabled(g, s, a) && !a.Advance? && !a.Crash?
    ensures Next(g, s, a).clients[a.w].Some? && Follows(g, s.device, Next(g, s, a).clients[a.w].value)
  {
    hide MakeObjectPlan, ManifestFor;
  }

  /**
   * As long as no delete of an identity overlaps a store of it, every step leaves every valid manifest
   * complete and changes at most one identity: a publication from nothing to its payload, or a delete to
   * nothing.
   */
  lemma ApartStep(g: Setting, s: Cluster, a: Action)
    requires ApartInv(g, s) && Apart(s) && Enabled(g, s, a)
    ensures ApartInv(g, Next(g, s, a))
    ensures forall id | (id, MANIFEST_INDEX) in g.used ::
              if a.Advance? then Effect(g, s.device, Next(g, s, a).device, s.clients[a.w].value, id)
              else Loaded(g.f, Next(g, s, a).device, id) == Loaded(g.f, s.device, id)
  {
    hide Healthy, Follows, Step, Loaded, Clash, Effect, MakeObjectPlan;
    var s' := Next(g, s, a);
    if a.Advance? {
      var c := s.clients[a.w].value;
      assert !Clash(c, c);
      OwnFollow(g, s.device, c);
      forall w | 0 <= w < |s'.clients| && s'.clients[w].Some? ensures Follows(g, s'.device, s'.clients[w].value) {
        if w != a.w { OthersFollow(g, s.device, c, s.clients[w].value); }
      }
    } else if !a.Crash? {
      StartKnows(g, s, a);
    }
  }

  lemma {:induction false} ApartRun(g: Setting, s: Cluster, actions: seq<Action>)
    requires ApartInv(g, s) && Runs(g, s, actions) && RunsApart(g, s, actions)
    ensures ApartInv(g, End(g, s, actions))
    decreases |actions|
  {
    hide ApartInv, Apart, Enabled, Next;
    if actions == [] {
    } else {
      ApartStep(g, s, actions[0]);
      ApartRun(g, Next(g, s, actions[0]), actions[1..]);
    }
  }

  /** In every run in which no delete of an identity overlaps a store of it, every valid manifest is complete. */
  lemma DeletingIsSafe(g: Setting, s0: Cluster, actions: seq<Action>)
    requires Init(g, s0) && Covers(g, s0.device) && Runs(g, s0, actions) && RunsApart(g, s0, actions)
    ensures Sound(g, End(g, s0, actions).device)
  {
    hide Sound, Covers, SettingOk;
    ApartRun(g, s0, actions);
  }

  /** Then, too, a store that reports success has made its payload loadable at that moment. */
  lemma ApartStoreLoads(g: Setting, s: Cluster, w: nat)
    requires ApartInv(g, s) && w < |s.clients| && s.clients[w].Some? && s.clients[w].value.Publish?
    requires Step(g.f, s.clients[w].value, s.device).0 == Done(Published)
    ensures Enabled(g, s, Advance(w))
    ensures var job := s.clients[w].value.job; Loaded(g.f, Next(g, s, Advance(w)).device, job.identity) == Some(job.payload)
  {
    hide Healthy, KnowsAlone, Step, Loaded;
    StoreEffect(g, s.device, s.clients[w].value);
  }
}
