/**
 * Any number of clients storing, loading and deleting at once, with crashes anywhere. Without deletes,
 * whatever becomes visible is complete, belongs to one publisher and never changes.
 */
module KvPublication {
  import opened Basics
  import opened KvFormat
  import opened KvMachine

  /** clients[w] is None while client w is idle or after it crashed. published lists the stores that returned true. */
  datatype Cluster = Cluster(clients: seq<Option<Client>>, device: Device, published: seq<Job>)

  datatype Action =
    | StartStore(w: nat, identity: Bytes, payload: Bytes)
    | StartLoad(w: nat, identity: Bytes)
    | StartDelete(w: nat, identity: Bytes)
    | Advance(w: nat)
    | Crash(w: nat)

  /** The namespace's value limit and the records that clients may use. */
  datatype Setting = Setting(f: Library, limit: int, used: set<Slot>)

  ghost predicate SettingOk(g: Setting) {
    Lawful(g.f) && CollisionFree(g.f, g.used)
  }

  ghost predicate InUse(g: Setting, identity: Bytes, n: int) {
    (identity, MANIFEST_INDEX) in g.used && forall i | 0 <= i < n :: (identity, i) in g.used
  }

  function JobFor(g: Setting, identity: Bytes, payload: Bytes): Job
    requires MakeObjectPlan(g.f, identity, payload, g.limit).Ok?
  {
    Job(identity, payload, MakeObjectPlan(g.f, identity, payload, g.limit).value,
        ManifestFor(g.f, identity, payload, g.limit))
  }

  ghost predicate Enabled(g: Setting, s: Cluster, a: Action) {
    && a.w < |s.clients|
    && match a
       case StartStore(w, identity, payload) =>
         && s.clients[w].None? && MakeObjectPlan(g.f, identity, payload, g.limit).Ok?
         && InUse(g, identity, |JobFor(g, identity, payload).plan.chunks|)
       case StartLoad(w, identity) => s.clients[w].None? && identity != [] && (identity, MANIFEST_INDEX) in g.used
       case StartDelete(w, identity) => s.clients[w].None? && identity != [] && (identity, MANIFEST_INDEX) in g.used
       case Advance(w) => s.clients[w].Some?
       case Crash(w) => s.clients[w].Some?
  }

  ghost function Next(g: Setting, s: Cluster, a: Action): Cluster
    requires Enabled(g, s, a)
  {
    match a
    case StartStore(w, identity, payload) => s.(clients := s.clients[w := Some(Look(JobFor(g, identity, payload)))])
    case StartLoad(w, identity) => s.(clients := s.clients[w := Some(LoadLook(identity))])
    case StartDelete(w, identity) => s.(clients := s.clients[w := Some(DeleteLook(identity))])
    case Crash(w) => s.(clients := s.clients[w := None])
    case Advance(w) =>
      var c := s.clients[w].value;
      var (c', d') := Step(g.f, c, s.device);
      Cluster(s.clients[w := if c.Done? then None else Some(c')], d',
              if c.Publish? && c'.Done? then s.published + [c.job] else s.published)
  }

  // ----- devices that only grow ------------------------------------------------------------------

  predicate Grows(d: Device, d': Device) {
    forall k | k in d :: k in d' && d'[k] == d[k]
  }

  lemma FindGrows(d: Device, d': Device, k: Bytes)
    requires Grows(d, d') && Find(d, k).Some?
    ensures Find(d', k) == Find(d, k)
  {}

  /** Whatever can be loaded once can be loaded for ever, unchanged. */
  lemma LoadedGrows(f: Library, d: Device, d': Device, identity: Bytes)
    requires Grows(d, d') && Loaded(f, d, identity).Some?
    ensures ManifestAt(f, d', identity) == ManifestAt(f, d, identity)
    ensures Loaded(f, d', identity) == Loaded(f, d, identity)
    ensures var m := ManifestAt(f, d, identity).value;
            m.chunkCount >= 0 && AllPresent(ChunksAt(f, d, identity, m.chunkCount))
            && ChunksAt(f, d', identity, m.chunkCount) == ChunksAt(f, d, identity, m.chunkCount)
  {
    var m := ManifestAt(f, d, identity).value;
    FindGrows(d, d', MKey(f, identity));
    var got := ChunksAt(f, d, identity, m.chunkCount);
    forall i | 0 <= i < m.chunkCount ensures Find(d', CKey(f, identity, i)) == got[i] {
      assert got[i].Some?;
    }
    assert ChunksAt(f, d', identity, m.chunkCount) == got;
  }

  // ----- the invariant ---------------------------------------------------------------------------

  /** Every valid manifest in use is complete: its object loads. */
  ghost predicate Sound(g: Setting, d: Device) {
    forall identity | (identity, MANIFEST_INDEX) in g.used ::
      ManifestAt(g.f, d, identity).Some? ==> Loaded(g.f, d, identity).Some?
  }

  /** The first n chunks of a job are on the device. */
  ghost predicate HasChunks(d: Device, job: Job, n: nat) {
    n <= |job.plan.chunks| && forall i | 0 <= i < n :: Find(d, job.plan.chunks[i].key) == Some(job.plan.chunks[i].value)
  }

  ghost predicate Accepted(g: Setting, job: Job) {
    JobOk(g.f, g.limit, job) && InUse(g, job.identity, |job.plan.chunks|)
  }

  /** What a client has established so far. */
  ghost predicate Knows(g: Setting, d: Device, c: Client) {
    match c
    case Look(job) => Accepted(g, job)
    case Put(job, i) => Accepted(g, job) && HasChunks(d, job, i) && i < |job.plan.chunks|
    case Compare(job, i) => Accepted(g, job) && HasChunks(d, job, i) && i < |job.plan.chunks|
    case Publish(job) => Accepted(g, job) && HasChunks(d, job, |job.plan.chunks|)
    case Reread(job) => Accepted(g, job)
    case LoadLook(identity) => (identity, MANIFEST_INDEX) in g.used
    case Fetch(identity, m, got) =>
      && (identity, MANIFEST_INDEX) in g.used && ManifestAt(g.f, d, identity) == Some(m)
      && |got| < m.chunkCount && got == ChunksAt(g.f, d, identity, |got|)
    case Done(_) => true
    case _ => false
  }

  ghost predicate PublishedRight(g: Setting, d: Device, published: seq<Job>) {
    && (forall i | 0 <= i < |published| ::
         && Accepted(g, published[i]) && Loaded(g.f, d, published[i].identity) == Some(published[i].payload)
         && ManifestAt(g.f, d, published[i].identity) == Some(published[i].requested))
    && (forall i, j | 0 <= i < j < |published| :: published[i].identity != published[j].identity)
  }

  ghost predicate Inv(g: Setting, s: Cluster) {
    && SettingOk(g) && Sound(g, s.device)
    && (forall w | 0 <= w < |s.clients| && s.clients[w].Some? :: Knows(g, s.device, s.clients[w].value))
    && PublishedRight(g, s.device, s.published)
  }

  lemma KnowsGrows(g: Setting, d: Device, d': Device, c: Client)
    requires Sound(g, d) && Knows(g, d, c) && Grows(d, d')
    ensures Knows(g, d', c)
  {
    if c.Fetch? {
      LoadedGrows(g.f, d, d', c.identity);
      var all := ChunksAt(g.f, d, c.identity, c.m.chunkCount);
      forall i | 0 <= i < |c.got| ensures c.got[i] == Find(d', CKey(g.f, c.identity, i)) {
        assert all[i].Some? && c.got[i] == all[i];
      }
      assert c.got == ChunksAt(g.f, d', c.identity, |c.got|);
    }
  }

  lemma PublishedGrows(g: Setting, d: Device, d': Device, published: seq<Job>)
    requires PublishedRight(g, d, published) && Grows(d, d')
    ensures PublishedRight(g, d', published)
  {
    forall i | 0 <= i < |published|
      ensures Loaded(g.f, d', published[i].identity) == Some(published[i].payload)
      ensures ManifestAt(g.f, d', published[i].identity) == ManifestAt(g.f, d, published[i].identity)
    {
      LoadedGrows(g.f, d, d', published[i].identity);
    }
  }

  // ----- what each store operation does to the device --------------------------------------------

  // Keys of an accepted job's records.
  lemma JobKeys(g: Setting, job: Job)
    requires SettingOk(g) && Accepted(g, job)
    ensures |job.plan.chunks| < MANIFEST_INDEX && job.identity != []
    ensures job.plan.manifestKey == MKey(g.f, job.identity) && ManifestValid(g.f, job.requested)
    ensures job.requested.identity == job.identity && job.requested.chunkCount == |job.plan.chunks| > 0
    ensures Decode(g.f, job.plan.manifestValue) == Ok(job.requested)
    ensures ValidatePayload(g.f, job.requested, Values(job.plan.chunks)) == Ok(job.payload)
    ensures forall i | 0 <= i < |job.plan.chunks| :: job.plan.chunks[i].key == CKey(g.f, job.identity, i)
  {
    PlanRoundTrip(g.f, job.identity, job.payload, g.limit);
    ManifestRoundTrip(g.f, job.requested, job.plan.manifestValue);
  }

  /** A chunk record never turns up under the manifest key of an object in use. */
  lemma ChunkIsNoManifest(g: Setting, job: Job, i: nat, identity: Bytes)
    requires SettingOk(g) && Accepted(g, job) && i < |job.plan.chunks| && (identity, MANIFEST_INDEX) in g.used
    ensures job.plan.chunks[i].key != MKey(g.f, identity)
  {
    JobKeys(g, job);
    assert (job.identity, i) in g.used;
    var s, t := (job.identity, i), (identity, MANIFEST_INDEX);
    assert s != t;
    assert KeyOf(g.f, s.0, s.1) != KeyOf(g.f, t.0, t.1);
  }

  lemma ChunkKeepsSound(g: Setting, d: Device, job: Job, i: nat)
    requires SettingOk(g) && Sound(g, d) && Accepted(g, job) && i < |job.plan.chunks|
    ensures Sound(g, StoreIfAbsent(d, job.plan.chunks[i].key, job.plan.chunks[i].value))
  {
    hide Loaded;
    var d' := StoreIfAbsent(d, job.plan.chunks[i].key, job.plan.chunks[i].value);
    forall identity | (identity, MANIFEST_INDEX) in g.used && ManifestAt(g.f, d', identity).Some?
      ensures Loaded(g.f, d', identity).Some?
    {
      ChunkIsNoManifest(g, job, i, identity);
      LoadedGrows(g.f, d, d', identity);
    }
  }

  lemma LoadsFrom(f: Library, d: Device, identity: Bytes, m: Manifest, vs: seq<Bytes>, payload: Bytes)
    requires ManifestAt(f, d, identity) == Some(m) && m.chunkCount == |vs| && ValidatePayload(f, m, vs) == Ok(payload)
    requires forall i | 0 <= i < |vs| :: Find(d, CKey(f, identity, i)) == Some(vs[i])
    ensures Loaded(f, d, identity) == Some(payload)
  {
    hide ManifestAt, ValidatePayload, CKey;
    assert Present(ChunksAt(f, d, identity, |vs|)) == vs;
  }

  /** A manifest over all its chunks is the whole object. */
  lemma Complete(g: Setting, d: Device, job: Job)
    requires SettingOk(g) && Accepted(g, job) && HasChunks(d, job, |job.plan.chunks|)
    requires Find(d, job.plan.manifestKey) == Some(job.plan.manifestValue)
    ensures Loaded(g.f, d, job.identity) == Some(job.payload)
  {
    hide Accepted, SettingOk, Decode, ValidatePayload, CKey, Loaded;
    JobKeys(g, job);
    LoadsFrom(g.f, d, job.identity, job.requested, Values(job.plan.chunks), job.payload);
  }

  lemma ManifestKeepsSound(g: Setting, d: Device, job: Job)
    requires SettingOk(g) && Sound(g, d) && Accepted(g, job) && HasChunks(d, job, |job.plan.chunks|)
    requires job.plan.manifestKey !in d
    ensures var d' := StoreIfAbsent(d, job.plan.manifestKey, job.plan.manifestValue);
            Sound(g, d') && Loaded(g.f, d', job.identity) == Some(job.payload) && Loaded(g.f, d, job.identity).None?
  {
    hide Loaded;
    var d' := StoreIfAbsent(d, job.plan.manifestKey, job.plan.manifestValue);
    JobKeys(g, job);
    NotYet(g, d, job.identity);
    forall i | 0 <= i < |job.plan.chunks| ensures Find(d', job.plan.chunks[i].key) == Some(job.plan.chunks[i].value) {
      FindGrows(d, d', job.plan.chunks[i].key);
    }
    Complete(g, d', job);
    forall identity | (identity, MANIFEST_INDEX) in g.used && ManifestAt(g.f, d', identity).Some?
      ensures Loaded(g.f, d', identity).Some?
    {
      if identity != job.identity {
        var s, t := (job.identity, MANIFEST_INDEX), (identity, MANIFEST_INDEX);
        assert KeyOf(g.f, s.0, s.1) != KeyOf(g.f, t.0, t.1);
        LoadedGrows(g.f, d, d', identity);
      }
    }
  }

  lemma NotYet(g: Setting, d: Device, identity: Bytes)
    requires MKey(g.f, identity) !in d
    ensures Loaded(g.f, d, identity).None?
  {}

  // ----- steps -----------------------------------------------------------------------------------

  /** Storing and loading clients only add records, and keep what they know. */
  lemma StepKeeps(g: Setting, d: Device, c: Client)
    requires SettingOk(g) && Sound(g, d) && Knows(g, d, c)
    ensures var (c', d') := Step(g.f, c, d); Grows(d, d') && Sound(g, d') && Knows(g, d', c')
    ensures c.Publish? && c.job.plan.manifestKey !in d ==>
              Loaded(g.f, d, c.job.identity).None? && Loaded(g.f, Step(g.f, c, d).1, c.job.identity) == Some(c.job.payload)
  {
    hide Sound, SettingOk, Accepted, HasChunks, Loaded, Step;
    match c {
      case Look(job) => LookKeeps(g, d, job);
      case Put(job, i) => PutKeeps(g, d, job, i);
      case Compare(job, i) => CompareKeeps(g, d, job, i);
      case Publish(job) => PublishKeeps(g, d, job);
      case Reread(job) => ReadersKeep(g, d, c);
      case LoadLook(identity) => ReadersKeep(g, d, c);
      case Fetch(identity, m, got) => ReadersKeep(g, d, c);
      case Done(_) => ReadersKeep(g, d, c);
    }
  }

  lemma LookKeeps(g: Setting, d: Device, job: Job)
    requires SettingOk(g) && Sound(g, d) && Knows(g, d, Look(job))
    ensures var (c', d') := Step(g.f, Look(job), d); d' == d && Knows(g, d', c')
  {
    hide Sound, Accepted, SettingOk;
    JobKeys(g, job);
  }

  lemma CompareKeeps(g: Setting, d: Device, job: Job, i: nat)
    requires Sound(g, d) && Knows(g, d, Compare(job, i))
    ensures var (c', d') := Step(g.f, Compare(job, i), d); d' == d && Knows(g, d', c')
  {
    hide Sound, Accepted, HasChunks;
    MoreChunks(d, job, i);
    assert i + 1 >= |job.plan.chunks| ==> i + 1 == |job.plan.chunks|;
  }

  lemma PublishKeeps(g: Setting, d: Device, job: Job)
    requires SettingOk(g) && Sound(g, d) && Knows(g, d, Publish(job))
    ensures var (c', d') := Step(g.f, Publish(job), d); Grows(d, d') && Sound(g, d') && Knows(g, d', c')
    ensures job.plan.manifestKey !in d ==>
              Loaded(g.f, d, job.identity).None? && Loaded(g.f, Step(g.f, Publish(job), d).1, job.identity) == Some(job.payload)
  {
    hide Sound, SettingOk, Accepted, HasChunks, Loaded;
    if job.plan.manifestKey !in d { ManifestKeepsSound(g, d, job); }
  }

  lemma ReadersKeep(g: Setting, d: Device, c: Client)
    requires Knows(g, d, c) && (c.Reread? || c.LoadLook? || c.Fetch? || c.Done?)
    ensures var (c', d') := Step(g.f, c, d); d' == d && Knows(g, d', c')
  {
    hide Accepted, Verified, CheckExisting, ManifestValid;
    if c.LoadLook? && ManifestAt(g.f, d, c.identity).Some? {
      assert ChunksAt(g.f, d, c.identity, 0) == [];
    }
    if c.Fetch? {
      assert c.got + [Find(d, CKey(g.f, c.identity, |c.got|))] == ChunksAt(g.f, d, c.identity, |c.got| + 1);
    }
  }

  lemma MoreChunks(d: Device, job: Job, i: nat)
    requires HasChunks(d, job, i) && i < |job.plan.chunks|
    ensures Find(d, job.plan.chunks[i].key) == Some(job.plan.chunks[i].value) ==> HasChunks(d, job, i + 1)
  {}

  lemma PutKeeps(g: Setting, d: Device, job: Job, i: nat)
    requires SettingOk(g) && Sound(g, d) && Knows(g, d, Put(job, i))
    ensures var (c', d') := Step(g.f, Put(job, i), d); Grows(d, d') && Sound(g, d') && Knows(g, d', c')
  {
    hide Sound, CollisionFree, Lawful;
    var d' := StoreIfAbsent(d, job.plan.chunks[i].key, job.plan.chunks[i].value);
    ChunkKeepsSound(g, d, job, i);
    forall j | 0 <= j < i ensures Find(d', job.plan.chunks[j].key) == Some(job.plan.chunks[j].value) {
      FindGrows(d, d', job.plan.chunks[j].key);
    }
    MoreChunks(d', job, i);
  }

  lemma EveryStep(g: Setting, s: Cluster, a: Action)
    requires Inv(g, s) && Enabled(g, s, a) && !a.StartDelete?
    ensures Inv(g, Next(g, s, a)) && Grows(s.device, Next(g, s, a).device)
  {
    hide Sound, SettingOk, PublishedRight, Step;
    if a.Advance? {
      var c, s' := s.clients[a.w].value, Next(g, s, a);
      StepKeeps(g, s.device, c);
      forall w | 0 <= w < |s'.clients| && s'.clients[w].Some? ensures Knows(g, s'.device, s'.clients[w].value) {
        if w != a.w { KnowsGrows(g, s.device, s'.device, s.clients[w].value); }
      }
      PublishedGrows(g, s.device, s'.device, s.published);
      if c.Publish? && Step(g.f, c, s.device).0.Done? {
        OnePublisher(g, s, c.job);
      }
    }
  }

  lemma OnePublisher(g: Setting, s: Cluster, job: Job)
    requires Inv(g, s) && Knows(g, s.device, Publish(job)) && Step(g.f, Publish(job), s.device).0.Done?
    ensures PublishedRight(g, Step(g.f, Publish(job), s.device).1, s.published + [job])
  {
    hide Sound, SettingOk, Loaded;
    StepKeeps(g, s.device, Publish(job));
    PublishedManifest(g, s.device, job);
    PublishedGrows(g, s.device, Step(g.f, Publish(job), s.device).1, s.published);
  }

  lemma PublishedManifest(g: Setting, d: Device, job: Job)
    requires SettingOk(g) && Accepted(g, job) && job.plan.manifestKey !in d
    ensures ManifestAt(g.f, Step(g.f, Publish(job), d).1, job.identity) == Some(job.requested)
  {
    hide SettingOk, Accepted;
    JobKeys(g, job);
  }

  // ----- runs ------------------------------------------------------------------------------------

  ghost predicate Runs(g: Setting, s: Cluster, actions: seq<Action>)
    decreases |actions|
  {
    actions == [] || (Enabled(g, s, actions[0]) && Runs(g, Next(g, s, actions[0]), actions[1..]))
  }

  ghost function End(g: Setting, s: Cluster, actions: seq<Action>): Cluster
    requires Runs(g, s, actions)
    decreases |actions|
  {
    if actions == [] then s else End(g, Next(g, s, actions[0]), actions[1..])
  }

  /** The run deletes nothing. */
  predicate NoDeletes(actions: seq<Action>) {
    forall i | 0 <= i < |actions| :: !actions[i].StartDelete?
  }

  /** All clients idle, nothing published yet, on a device whose objects are complete. */
  ghost predicate Init(g: Setting, s: Cluster) {
    SettingOk(g) && Sound(g, s.device) && s.published == [] && forall w | 0 <= w < |s.clients| :: s.clients[w].None?
  }

  lemma {:induction false} RunKeepsInv(g: Setting, s: Cluster, actions: seq<Action>)
    requires Inv(g, s) && Runs(g, s, actions) && NoDeletes(actions)
    ensures Inv(g, End(g, s, actions)) && Grows(s.device, End(g, s, actions).device)
    decreases |actions|
  {
    hide Inv, Enabled, Next;
    if actions == [] {
    } else {
      EveryStep(g, s, actions[0]);
      RunKeepsInv(g, Next(g, s, actions[0]), actions[1..]);
    }
  }

  /**
   * Concurrent publication: in every run of storing and loading clients with crashes, a valid manifest has
   * all its chunks, each store that returned true is what its identity loads as, and no two were of one identity.
   */
  lemma PublicationIsSafe(g: Setting, s0: Cluster, actions: seq<Action>)
    requires Init(g, s0) && Runs(g, s0, actions) && NoDeletes(actions)
    ensures var s := End(g, s0, actions);
            && Sound(g, s.device)
            && (forall i | 0 <= i < |s.published| :: Loaded(g.f, s.device, s.published[i].identity) == Some(s.published[i].payload))
            && (forall i, j | 0 <= i < j < |s.published| :: s.published[i].identity != s.published[j].identity)
  {
    hide Sound;
    RunKeepsInv(g, s0, actions);
  }

  /** What load returns for a visible identity never changes again. */
  lemma VisibleForEver(g: Setting, s: Cluster, actions: seq<Action>, identity: Bytes)
    requires Inv(g, s) && Runs(g, s, actions) && NoDeletes(actions) && Loaded(g.f, s.device, identity).Some?
    ensures Loaded(g.f, End(g, s, actions).device, identity) == Loaded(g.f, s.device, identity)
  {
    hide Inv;
    RunKeepsInv(g, s, actions);
    LoadedGrows(g.f, s.device, End(g, s, actions).device, identity);
  }

  /** However its reads interleave with stores, a load returns what one read of the final device would. */
  lemma LoadsAreAtomic(g: Setting, s: Cluster, w: nat)
    requires Inv(g, s) && w < |s.clients| && s.clients[w].Some?
    requires var c := s.clients[w].value; (c.LoadLook? || c.Fetch?) && Step(g.f, c, s.device).0.Done?
    ensures var c := s.clients[w].value;
            Step(g.f, c, s.device).0 == Done(Read(Loaded(g.f, s.device, c.identity)))
  {
    hide Sound, Step;
    var c := s.clients[w].value;
    assert Knows(g, s.device, c);
    LastRead(g, s.device, c);
  }

  lemma LastRead(g: Setting, d: Device, c: Client)
    requires (c.LoadLook? || c.Fetch?) && Knows(g, d, c) && Lawful(g.f) && Step(g.f, c, d).0.Done?
    ensures Step(g.f, c, d).0 == Done(Read(Loaded(g.f, d, c.identity)))
  {
    hide Verified, CKey;
    if c.Fetch? {
      assert c.got + [Find(d, CKey(g.f, c.identity, |c.got|))] == ChunksAt(g.f, d, c.identity, |c.got| + 1);
    }
  }

  /**
   * Stores that come after a published one of their identity, or lose the race against it, report the object as
   * already there exactly when they ask for the same manifest, and a conflict otherwise.
   */
  lemma LatecomersAgree(g: Setting, s: Cluster, w: nat, i: nat)
    requires Inv(g, s) && w < |s.clients| && s.clients[w].Some? && i < |s.published|
    requires var c := s.clients[w].value; (c.Look? || c.Reread?) && c.job.identity == s.published[i].identity
    ensures var c := s.clients[w].value;
            Step(g.f, c, s.device).0
            == Done(if c.job.requested == s.published[i].requested then AlreadyStored else Conflict(ManifestDiffers))
  {
    hide Sound;
    var c := s.clients[w].value;
    assert Knows(g, s.device, c);
    JobKeys(g, c.job);
  }

  /** A store that returns false found an object of the same length and checksum, which loads. */
  lemma AlreadyStoredIsLoadable(g: Setting, s: Cluster, w: nat)
    requires Inv(g, s) && w < |s.clients| && s.clients[w].Some?
    requires var c := s.clients[w].value;
             (c.Look? || c.Reread?) && Step(g.f, c, s.device).0 == Done(AlreadyStored)
    ensures var job := s.clients[w].value.job;
            && Loaded(g.f, s.device, job.identity).Some?
            && |Loaded(g.f, s.device, job.identity).value| == |job.payload|
            && Checksum(g.f, Loaded(g.f, s.device, job.identity).value) == Checksum(g.f, job.payload)
  {
    var c := s.clients[w].value;
    assert Knows(g, s.device, c);
    JobKeys(g, c.job);
    assert ManifestAt(g.f, s.device, c.job.identity) == Some(c.job.requested);
  }
}
