/**
 * One client crashing between any two engine operations: the interrupted call happened wholly or not at all,
 * and a store can be retried. Also the exact condition under which a store succeeds, and a race it can lose.
 */
module KvCrash {
  import opened Basics
  import opened KvFormat
  import opened KvMachine
  import opened KvPublication

  // ----- what a device operation means to other objects ------------------------------------------

  /** The records of every visible object are in use. */
  ghost predicate Covers(g: Setting, d: Device) {
    forall identity | (identity, MANIFEST_INDEX) in g.used && ManifestAt(g.f, d, identity).Some? ::
      InUse(g, identity, ManifestAt(g.f, d, identity).value.chunkCount)
  }

  ghost predicate Healthy(g: Setting, d: Device) {
    SettingOk(g) && Sound(g, d) && Covers(g, d)
  }

  function Without(d: Device, key: Bytes): Device {
    d - {key}
  }

  /** Removing one record does not change what another identity loads as. */
  lemma RemovedElsewhere(g: Setting, d: Device, slot: Slot, identity: Bytes)
    requires SettingOk(g) && Covers(g, d) && slot in g.used && slot.0 != identity
    requires (identity, MANIFEST_INDEX) in g.used && slot.1 <= MANIFEST_INDEX
    ensures var d' := Without(d, KeyOf(g.f, slot.0, slot.1));
            ManifestAt(g.f, d', identity) == ManifestAt(g.f, d, identity) && Loaded(g.f, d', identity) == Loaded(g.f, d, identity)
  {
    hide Lawful, Verified, Decode, DeriveKey;
    var d' := Without(d, KeyOf(g.f, slot.0, slot.1));
    var t := (identity, MANIFEST_INDEX);
    assert KeyOf(g.f, t.0, t.1) != KeyOf(g.f, slot.0, slot.1);
    assert ManifestAt(g.f, d', identity) == ManifestAt(g.f, d, identity);
    if ManifestAt(g.f, d, identity).Some? {
      var n := ManifestAt(g.f, d, identity).value.chunkCount;
      if n >= 0 {
        forall i | 0 <= i < n ensures Find(d', CKey(g.f, identity, i)) == Find(d, CKey(g.f, identity, i)) {
          ChunkElsewhere(g, slot, identity, i);
        }
        assert ChunksAt(g.f, d', identity, n) == ChunksAt(g.f, d, identity, n);
      }
    }
  }

  lemma ChunkElsewhere(g: Setting, slot: Slot, identity: Bytes, i: nat)
    requires SettingOk(g) && slot in g.used && slot.0 != identity && (identity, i) in g.used && slot.1 <= MANIFEST_INDEX
    ensures CKey(g.f, identity, i) != KeyOf(g.f, slot.0, slot.1)
  {
    var u := (identity, i);
    assert u in g.used && KeyOf(g.f, u.0, u.1) != KeyOf(g.f, slot.0, slot.1);
  }

  // ----- what a call intends ---------------------------------------------------------------------

  /** The identity a client works on and what that identity loads as once the call has taken effect. */
  ghost function Intends(c: Client): (Bytes, Option<Bytes>) {
    match c
    case Look(job) => (job.identity, Some(job.payload))
    case Put(job, _) => (job.identity, Some(job.payload))
    case Compare(job, _) => (job.identity, Some(job.payload))
    case Publish(job) => (job.identity, Some(job.payload))
    case Reread(job) => (job.identity, Some(job.payload))
    case DeleteLook(identity) => (identity, None)
    case DropRecord(identity) => (identity, None)
    case Hide(identity, _) => (identity, None)
    case DropChunk(identity, _, _) => (identity, None)
    case LoadLook(identity) => (identity, None)
    case Fetch(identity, _, _) => (identity, None)
    case Done(_) => ([], None)
  }

  /** What a storing or deleting client with the device to itself has established. */
  ghost predicate KnowsAlone(g: Setting, d: Device, c: Client) {
    match c
    case DeleteLook(identity) => (identity, MANIFEST_INDEX) in g.used
    case DropRecord(identity) => (identity, MANIFEST_INDEX) in g.used
    case Hide(identity, m) => InUse(g, identity, m.chunkCount)
    case DropChunk(identity, m, i) =>
      && InUse(g, identity, m.chunkCount) && i < m.chunkCount && MKey(g.f, identity) !in d
    case LoadLook(_) => false
    case Fetch(_, _, _) => false
    case _ => Knows(g, d, c)
  }

  /** Every identity loads as before, except that the given one may load as v. */
  ghost predicate WhollyOrNot(g: Setting, d: Device, d': Device, identity: Bytes, v: Option<Bytes>) {
    forall id | (id, MANIFEST_INDEX) in g.used ::
      || Loaded(g.f, d', id) == Loaded(g.f, d, id)
      || (id == identity && Loaded(g.f, d', id) == v)
  }

  // ----- one step alone --------------------------------------------------------------------------

  lemma SameVisible(g: Setting, d: Device, d': Device, id: Bytes)
    requires Sound(g, d) && Grows(d, d') && (id, MANIFEST_INDEX) in g.used
    requires ManifestAt(g.f, d', id) == ManifestAt(g.f, d, id)
    ensures Loaded(g.f, d', id) == Loaded(g.f, d, id)
  {
    hide Verified;
    if Loaded(g.f, d, id).Some? { LoadedGrows(g.f, d, d', id); }
  }

  /** A put or a publication changes at most the publisher's own object. */
  lemma StoreStep(g: Setting, d: Device, c: Client)
    requires Healthy(g, d) && KnowsAlone(g, d, c) && (c.Look? || c.Put? || c.Compare? || c.Publish? || c.Reread?)
    ensures var (c', d') := Step(g.f, c, d);
            && Healthy(g, d') && KnowsAlone(g, d', c') && (c'.Done? || Intends(c') == Intends(c))
            && WhollyOrNot(g, d, d', c.job.identity, Some(c.job.payload))
  {
    hide Loaded, Lawful, CollisionFree, Sound, HasChunks, JobOk, Decode;
    var (c', d') := Step(g.f, c, d);
    StepKeeps(g, d, c);
    JobKeys(g, c.job);
    forall id | (id, MANIFEST_INDEX) in g.used && id != c.job.identity
      ensures ManifestAt(g.f, d', id) == ManifestAt(g.f, d, id) && Loaded(g.f, d', id) == Loaded(g.f, d, id)
    {
      OtherManifest(g, d, c, id);
      SameVisible(g, d, d', id);
    }
    OwnManifest(g, d, c);
    if !(c.Publish? && c.job.plan.manifestKey !in d) {
      SameVisible(g, d, d', c.job.identity);
    }
  }

  lemma OtherManifest(g: Setting, d: Device, c: Client, id: Bytes)
    requires SettingOk(g) && KnowsAlone(g, d, c) && (c.Look? || c.Put? || c.Compare? || c.Publish? || c.Reread?)
    requires (id, MANIFEST_INDEX) in g.used && id != c.job.identity
    ensures ManifestAt(g.f, Step(g.f, c, d).1, id) == ManifestAt(g.f, d, id)
  {
    hide Lawful, Decode, JobOk, HasChunks, DeriveKey;
    JobKeys(g, c.job);
    var s, t := (c.job.identity, MANIFEST_INDEX), (id, MANIFEST_INDEX);
    assert KeyOf(g.f, s.0, s.1) != KeyOf(g.f, t.0, t.1);
    if c.Put? { ChunkIsNoManifest(g, c.job, c.i, id); }
  }

  // The job's own manifest changes only when it is published.
  lemma OwnManifest(g: Setting, d: Device, c: Client)
    requires SettingOk(g) && KnowsAlone(g, d, c) && (c.Look? || c.Put? || c.Compare? || c.Publish? || c.Reread?)
    ensures var d' := Step(g.f, c, d).1;
            if c.Publish? && c.job.plan.manifestKey !in d then ManifestAt(g.f, d', c.job.identity) == Some(c.job.requested)
            else ManifestAt(g.f, d', c.job.identity) == ManifestAt(g.f, d, c.job.identity)
    ensures InUse(g, c.job.identity, c.job.requested.chunkCount)
  {
    hide Lawful, Decode, JobOk, HasChunks, DeriveKey;
    JobKeys(g, c.job);
    if c.Put? { ChunkIsNoManifest(g, c.job, c.i, c.job.identity); }
  }

  /** Hiding a manifest removes one object; removing records of a hidden object changes nothing. */
  lemma DeleteStep(g: Setting, d: Device, c: Client)
    requires Healthy(g, d) && KnowsAlone(g, d, c) && (c.DeleteLook? || c.DropRecord? || c.Hide? || c.DropChunk?)
    ensures var (c', d') := Step(g.f, c, d);
            && Healthy(g, d') && KnowsAlone(g, d', c') && (c'.Done? || Intends(c') == Intends(c))
            && WhollyOrNot(g, d, d', c.identity, None)
  {
    hide Loaded, Lawful, CollisionFree, ManifestValid;
    var (c', d') := Step(g.f, c, d);
    if !c.DeleteLook? {
      var slot := if c.DropChunk? then (c.identity, c.i) else (c.identity, MANIFEST_INDEX);
      assert slot in g.used;
      SlotInRange(g, slot);
      assert d' == Without(d, KeyOf(g.f, slot.0, slot.1));
      forall id | (id, MANIFEST_INDEX) in g.used && id != c.identity
        ensures ManifestAt(g.f, d', id) == ManifestAt(g.f, d, id) && Loaded(g.f, d', id) == Loaded(g.f, d, id)
      {
        RemovedElsewhere(g, d, slot, id);
      }
      NotYet(g, d', c.identity);
    }
  }

  lemma SlotInRange(g: Setting, slot: Slot)
    requires SettingOk(g) && slot in g.used
    ensures slot.1 <= MANIFEST_INDEX
  {}

  lemma WholeTrans(g: Setting, a: Device, b: Device, c: Device, identity: Bytes, v: Option<Bytes>)
    requires WhollyOrNot(g, a, b, identity, v) && WhollyOrNot(g, b, c, identity, v)
    ensures WhollyOrNot(g, a, c, identity, v)
  {
    hide Loaded;
  }

  // ----- crashes ---------------------------------------------------------------------------------

  lemma {:induction false} RunAlone(g: Setting, d: Device, c: Client, n: nat, identity: Bytes, v: Option<Bytes>)
    requires Healthy(g, d) && KnowsAlone(g, d, c) && (c.Done? || Intends(c) == (identity, v))
    ensures Healthy(g, After(g.f, c, d, n).1) && WhollyOrNot(g, d, After(g.f, c, d, n).1, identity, v)
    decreases n
  {
    hide Healthy, KnowsAlone, Step, Loaded;
    if n > 0 && !c.Done? {
      var (c', d') := Step(g.f, c, d);
      if c.DeleteLook? || c.DropRecord? || c.Hide? || c.DropChunk? {
        DeleteStep(g, d, c);
      } else {
        StoresOnly(g, d, c);
        StoreStep(g, d, c);
      }
      RunAlone(g, d', c', n - 1, identity, v);
      WholeTrans(g, d, d', After(g.f, c, d, n).1, identity, v);
    } else if n > 0 {
      DoneStays(g.f, c, d, n);
    }
  }

  lemma StoresOnly(g: Setting, d: Device, c: Client)
    requires KnowsAlone(g, d, c) && !c.Done? && !(c.DeleteLook? || c.DropRecord? || c.Hide? || c.DropChunk?)
    ensures c.Look? || c.Put? || c.Compare? || c.Publish? || c.Reread?
  {}

  lemma {:induction false} DoneStays(f: Library, c: Client, d: Device, n: nat)
    requires c.Done?
    ensures After(f, c, d, n) == (c, d)
  {
    if n == 0 {
    } else {
      DoneStays(f, c, d, n - 1);
    }
  }

  /**
   * A store cut off after any number of operations, or finished: every valid manifest is complete, its own
   * identity loads as before or as the payload, and every other identity as before.
   */
  lemma StoreCrash(g: Setting, d: Device, job: Job, n: nat)
    requires Healthy(g, d) && Accepted(g, job)
    ensures var d' := After(g.f, Look(job), d, n).1;
            Sound(g, d') && WhollyOrNot(g, d, d', job.identity, Some(job.payload))
  {
    hide Sound, Loaded, Step, JobOk, Accepted;
    RunAlone(g, d, Look(job), n, job.identity, Some(job.payload));
  }

  /** A delete cut off after any number of operations: its identity loads as before or not at all. */
  lemma DeleteCrash(g: Setting, d: Device, identity: Bytes, n: nat)
    requires Healthy(g, d) && (identity, MANIFEST_INDEX) in g.used
    ensures var d' := After(g.f, DeleteLook(identity), d, n).1;
            Sound(g, d') && WhollyOrNot(g, d, d', identity, None)
  {
    hide Sound, Loaded, Step;
    RunAlone(g, d, DeleteLook(identity), n, identity, None);
  }

  // ----- when a store succeeds -------------------------------------------------------------------

  /** No record of the job's chunks holds other bytes. */
  ghost predicate Compatible(d: Device, job: Job) {
    forall i | 0 <= i < |job.plan.chunks| ::
      job.plan.chunks[i].key in d ==> d[job.plan.chunks[i].key] == job.plan.chunks[i].value
  }

  predicate Succeeded(outcome: Outcome) {
    outcome == Published || outcome == AlreadyStored
  }

  /** Nothing on the device stands in the way of the job. */
  ghost predicate Ready(f: Library, d: Device, job: Job) {
    if job.plan.manifestKey in d then Decode(f, d[job.plan.manifestKey]) == Ok(job.requested) else Compatible(d, job)
  }

  // A job's own chunk records have different keys.
  lemma OwnKeysApart(g: Setting, job: Job, i: nat, j: nat)
    requires SettingOk(g) && Accepted(g, job) && i < |job.plan.chunks| && j < |job.plan.chunks| && i != j
    ensures job.plan.chunks[i].key != job.plan.chunks[j].key
  {
    JobKeys(g, job);
    var s, t := (job.identity, i), (job.identity, j);
    assert s in g.used && t in g.used && s != t;
    assert KeyOf(g.f, s.0, s.1) != KeyOf(g.f, t.0, t.1);
  }

  lemma PutKeepsCompatible(g: Setting, d: Device, job: Job, i: nat)
    requires SettingOk(g) && Accepted(g, job) && i < |job.plan.chunks| && job.plan.manifestKey !in d
    ensures var d' := StoreIfAbsent(d, job.plan.chunks[i].key, job.plan.chunks[i].value);
            (Compatible(d', job) <==> Compatible(d, job)) && job.plan.manifestKey !in d'
  {
    hide Lawful, CollisionFree, Accepted;
    var d' := StoreIfAbsent(d, job.plan.chunks[i].key, job.plan.chunks[i].value);
    Named(g, job);
    ChunkIsNoManifest(g, job, i, job.identity);
    forall j | 0 <= j < |job.plan.chunks|
      ensures (job.plan.chunks[j].key in d' ==> d'[job.plan.chunks[j].key] == job.plan.chunks[j].value)
              <==> (job.plan.chunks[j].key in d ==> d[job.plan.chunks[j].key] == job.plan.chunks[j].value)
    {
      if j != i { OwnKeysApart(g, job, i, j); }
    }
  }

  lemma Named(g: Setting, job: Job)
    requires SettingOk(g) && Accepted(g, job)
    ensures job.plan.manifestKey == MKey(g.f, job.identity) && (job.identity, MANIFEST_INDEX) in g.used
  {
    JobKeys(g, job);
  }

  /** What a finished store leaves behind. */
  ghost predicate Whole(d: Device, job: Job) {
    Find(d, job.plan.manifestKey) == Some(job.plan.manifestValue) && HasChunks(d, job, |job.plan.chunks|)
  }

  /** No chunk of the job has the manifest's own key. */
  predicate KeysApart(job: Job) {
    forall i | 0 <= i < |job.plan.chunks| :: job.plan.chunks[i].key != job.plan.manifestKey
  }

  lemma {:induction false} PutsTell(f: Library, job: Job, i: nat, d: Device)
    requires KeysApart(job) && i <= |job.plan.chunks| && job.plan.manifestKey !in d
    ensures var (outcome, d') := Finish(f, PutFrom(job, i), d);
            && (outcome == Published <==> Find(d', job.plan.manifestKey) == Some(job.plan.manifestValue))
            && outcome in {Published, Conflict(ChunkDiffers)}
    decreases |job.plan.chunks| - i
  {
    hide Finish;
    if i == |job.plan.chunks| {
      PublishUnfolds(f, job, d);
    } else {
      var chunk := job.plan.chunks[i];
      PutUnfolds(f, job, i, d);
      if chunk.key !in d {
        PutsTell(f, job, i + 1, d[chunk.key := chunk.value]);
      } else if d[chunk.key] == chunk.value {
        PutsTell(f, job, i + 1, d);
      }
    }
  }

  /**
   * A store reports that it published exactly when the manifest's record was absent and is now the plan's;
   * that the object was there exactly when nothing changed and the record decodes to the plan's manifest;
   * and a conflict otherwise.
   */
  lemma StoreTells(f: Library, job: Job, d: Device)
    requires KeysApart(job)
    ensures var (outcome, d') := Finish(f, Look(job), d);
            var key := job.plan.manifestKey;
            && (outcome == Published <==> key !in d && Find(d', key) == Some(job.plan.manifestValue))
            && (outcome == AlreadyStored <==> d' == d && key in d && Decode(f, d[key]) == Ok(job.requested))
            && (outcome != Published && outcome != AlreadyStored ==> outcome.Conflict?)
  {
    hide Finish, Decode;
    LookUnfolds(f, job, d);
    if job.plan.manifestKey !in d { PutsTell(f, job, 0, d); }
  }

  /** From chunk i on, a store alone is published exactly when no chunk record differs. */
  lemma {:induction false} PutsFinish(g: Setting, d: Device, job: Job, i: nat)
    requires SettingOk(g) && Accepted(g, job) && i <= |job.plan.chunks|
    requires HasChunks(d, job, i) && job.plan.manifestKey !in d
    ensures var (outcome, d') := Finish(g.f, PutFrom(job, i), d);
            && (outcome == Published <==> Compatible(d, job)) && (outcome == Published <==> Whole(d', job))
            && (outcome == Published || outcome == Conflict(ChunkDiffers)) && (outcome != Published ==> job.plan.manifestKey !in d')
    decreases |job.plan.chunks| - i
  {
    hide Lawful, CollisionFree, Accepted, Compatible, Finish, HasChunks;
    if i == |job.plan.chunks| {
      PublishFinishes(g, d, job);
    } else {
      var chunk := job.plan.chunks[i];
      if chunk.key !in d {
        var d' := d[chunk.key := chunk.value];
        PutKeepsCompatible(g, d, job, i);
        PutUnfolds(g.f, job, i, d);
        ChunksGrow(d, d', job, i);
        PutsFinish(g, d', job, i + 1);
      } else if d[chunk.key] == chunk.value {
        PutUnfolds(g.f, job, i, d);
        ChunksGrow(d, d, job, i);
        PutsFinish(g, d, job, i + 1);
      } else {
        PutUnfolds(g.f, job, i, d);
        Differs(d, job, i);
      }
    }
  }

  lemma Differs(d: Device, job: Job, i: nat)
    requires i < |job.plan.chunks| && job.plan.chunks[i].key in d && d[job.plan.chunks[i].key] != job.plan.chunks[i].value
    ensures !Compatible(d, job) && !Whole(d, job)
  {}

  lemma ChunksGrow(d: Device, d': Device, job: Job, i: nat)
    requires HasChunks(d, job, i) && i < |job.plan.chunks| && Grows(d, d')
    requires Find(d', job.plan.chunks[i].key) == Some(job.plan.chunks[i].value)
    ensures HasChunks(d', job, i + 1)
  {
    forall j | 0 <= j < i ensures Find(d', job.plan.chunks[j].key) == Some(job.plan.chunks[j].value) {
      FindGrows(d, d', job.plan.chunks[j].key);
    }
  }

  lemma PublishFinishes(g: Setting, d: Device, job: Job)
    requires SettingOk(g) && Accepted(g, job) && HasChunks(d, job, |job.plan.chunks|) && job.plan.manifestKey !in d
    ensures Finish(g.f, Publish(job), d) == (Published, d[job.plan.manifestKey := job.plan.manifestValue])
    ensures Whole(d[job.plan.manifestKey := job.plan.manifestValue], job) && Compatible(d, job)
  {
    hide Lawful, CollisionFree, Accepted;
    var d' := d[job.plan.manifestKey := job.plan.manifestValue];
    forall i | 0 <= i < |job.plan.chunks|
      ensures Find(d', job.plan.chunks[i].key) == Some(job.plan.chunks[i].value)
      ensures job.plan.chunks[i].key in d ==> d[job.plan.chunks[i].key] == job.plan.chunks[i].value
    {
      FindGrows(d, d', job.plan.chunks[i].key);
    }
    PublishUnfolds(g.f, job, d);
  }

  /**
   * A store on an otherwise quiet device succeeds exactly when the identity's manifest is absent and none of
   * its chunk records holds other bytes, or when the very same manifest is already there.
   */
  lemma StoreSucceedsIff(g: Setting, d: Device, job: Job)
    requires SettingOk(g) && Accepted(g, job)
    ensures var (outcome, d') := Finish(g.f, Look(job), d);
            && (Succeeded(outcome) <==> Ready(g.f, d, job))
            && (outcome == Published <==> job.plan.manifestKey !in d && Compatible(d, job))
            && (outcome == Published ==> Loaded(g.f, d', job.identity) == Some(job.payload))
  {
    hide Lawful, CollisionFree, Accepted, Compatible, Finish, Loaded, HasChunks;
    LookUnfolds(g.f, job, d);
    if job.plan.manifestKey !in d {
      Nothing(d, job);
      PutsFinish(g, d, job, 0);
      var (outcome, d') := Finish(g.f, Look(job), d);
      if outcome == Published { Complete(g, d', job); }
    }
  }

  lemma Nothing(d: Device, job: Job)
    ensures HasChunks(d, job, 0)
  {}

  /** A chunk left behind by another payload blocks the identity: the store conflicts and nothing becomes visible. */
  lemma OrphanBlocks(g: Setting, d: Device, job: Job, i: nat)
    requires SettingOk(g) && Accepted(g, job) && job.plan.manifestKey !in d
    requires i < |job.plan.chunks| && job.plan.chunks[i].key in d && d[job.plan.chunks[i].key] != job.plan.chunks[i].value
    ensures var (outcome, d') := Finish(g.f, Look(job), d);
            outcome == Conflict(ChunkDiffers) && Loaded(g.f, d', job.identity) == None
  {
    hide Lawful, CollisionFree, Accepted, Finish, Loaded, Whole, Step, HasChunks;
    LookUnfolds(g.f, job, d);
    Nothing(d, job);
    PutsFinish(g, d, job, 0);
    Named(g, job);
    NotYet(g, Finish(g.f, Look(job), d).1, job.identity);
  }

  // ----- retry -----------------------------------------------------------------------------------

  /** A store that meets no conflict: not yet published with compatible records, or published and whole. */
  ghost predicate OnTrack(g: Setting, d: Device, job: Job, c: Client) {
    match c
    case Look(j) => j == job && job.plan.manifestKey !in d && Compatible(d, job)
    case Put(j, i) => j == job && job.plan.manifestKey !in d && Compatible(d, job) && HasChunks(d, job, i) && i < |job.plan.chunks|
    case Compare(j, i) =>
      && j == job && job.plan.manifestKey !in d && Compatible(d, job) && HasChunks(d, job, i) && i < |job.plan.chunks|
      && job.plan.chunks[i].key in d
    case Publish(j) => j == job && job.plan.manifestKey !in d && Compatible(d, job) && HasChunks(d, job, |job.plan.chunks|)
    case Done(outcome) => outcome == Published && Whole(d, job)
    case _ => false
  }

  lemma TrackStep(g: Setting, d: Device, job: Job, c: Client)
    requires SettingOk(g) && Accepted(g, job) && OnTrack(g, d, job, c)
    ensures var (c', d') := Step(g.f, c, d); OnTrack(g, d', job, c')
  {
    hide Lawful, CollisionFree, Accepted;
    Chunked(g, job);
    match c {
      case Look(_) => Nothing(d, job);
      case Put(_, i) =>
        var d' := StoreIfAbsent(d, job.plan.chunks[i].key, job.plan.chunks[i].value);
        PutKeepsCompatible(g, d, job, i);
        if job.plan.chunks[i].key !in d { ChunksGrow(d, d', job, i); }
      case Compare(_, i) => ChunksGrow(d, d, job, i);
      case Publish(_) => PublishFinishes(g, d, job);
      case _ =>
    }
  }

  lemma Chunked(g: Setting, job: Job)
    requires SettingOk(g) && Accepted(g, job)
    ensures |job.plan.chunks| > 0
  {
    JobKeys(g, job);
  }

  lemma {:induction false} TrackRun(g: Setting, d: Device, job: Job, c: Client, n: nat)
    requires SettingOk(g) && Accepted(g, job) && OnTrack(g, d, job, c)
    ensures OnTrack(g, After(g.f, c, d, n).1, job, After(g.f, c, d, n).0)
    decreases n
  {
    hide SettingOk, Accepted, OnTrack, Step;
    if n == 0 {
    } else {
      TrackStep(g, d, job, c);
      TrackRun(g, Step(g.f, c, d).1, job, Step(g.f, c, d).0, n - 1);
    }
  }

  /** A store of which some chunk record differs: it never reaches publication. */
  ghost predicate Blocked(d: Device, job: Job, c: Client) {
    && job.plan.manifestKey !in d && !Compatible(d, job)
    && match c
       case Look(j) => j == job
       case Put(j, i) => j == job && HasChunks(d, job, i) && i < |job.plan.chunks|
       case Compare(j, i) => j == job && HasChunks(d, job, i) && i < |job.plan.chunks|
       case Done(outcome) => outcome == Conflict(ChunkDiffers)
       case _ => false
  }

  lemma AllChunksCompatible(d: Device, job: Job)
    requires HasChunks(d, job, |job.plan.chunks|)
    ensures Compatible(d, job)
  {
    forall i | 0 <= i < |job.plan.chunks| && job.plan.chunks[i].key in d
      ensures d[job.plan.chunks[i].key] == job.plan.chunks[i].value
    {
      assert Find(d, job.plan.chunks[i].key) == Some(job.plan.chunks[i].value);
    }
  }

  // Past chunk i a blocked store is still blocked: were it the last chunk, all would be compatible.
  lemma BlockedOnwards(d: Device, job: Job, i: nat)
    requires job.plan.manifestKey !in d && !Compatible(d, job)
    requires i < |job.plan.chunks| && HasChunks(d, job, i + 1)
    ensures Blocked(d, job, PutFrom(job, i + 1))
  {
    hide HasChunks, Compatible;
    if i + 1 >= |job.plan.chunks| {
      assert i + 1 == |job.plan.chunks|;
      AllChunksCompatible(d, job);
    }
  }

  lemma BlockedStep(g: Setting, d: Device, job: Job, c: Client)
    requires SettingOk(g) && Accepted(g, job) && Blocked(d, job, c)
    ensures var (c', d') := Step(g.f, c, d); Blocked(d', job, c')
  {
    hide Lawful, CollisionFree, Accepted, Compatible;
    Chunked(g, job);
    match c {
      case Look(_) => Nothing(d, job);
      case Put(_, i) =>
        var d' := StoreIfAbsent(d, job.plan.chunks[i].key, job.plan.chunks[i].value);
        PutKeepsCompatible(g, d, job, i);
        if job.plan.chunks[i].key !in d {
          ChunksGrow(d, d', job, i);
          BlockedOnwards(d', job, i);
        }
      case Compare(_, i) =>
        if Find(d, job.plan.chunks[i].key) == Some(job.plan.chunks[i].value) {
          ChunksGrow(d, d, job, i);
          BlockedOnwards(d, job, i);
        }
      case _ =>
    }
  }

  lemma {:induction false} BlockedRun(g: Setting, d: Device, job: Job, c: Client, n: nat)
    requires SettingOk(g) && Accepted(g, job) && Blocked(d, job, c)
    ensures var (c', d') := After(g.f, c, d, n); Blocked(d', job, c')
    decreases n
  {
    hide SettingOk, Accepted, Blocked, Step;
    if n == 0 {
    } else {
      BlockedStep(g, d, job, c);
      BlockedRun(g, Step(g.f, c, d).1, job, Step(g.f, c, d).0, n - 1);
    }
  }

  // With a manifest already there, a store alone changes nothing.
  lemma LookOnly(g: Setting, d: Device, job: Job, n: nat)
    requires job.plan.manifestKey in d
    ensures After(g.f, Look(job), d, n).1 == d
  {
    hide CheckExisting;
    if n > 0 { DoneStays(g.f, Step(g.f, Look(job), d).0, d, n - 1); }
  }

  /**
   * A store cut off anywhere and then retried with the same payload succeeds exactly when the first attempt
   * could have; and what it then published, or finds published by that attempt, loads as the payload.
   */
  lemma RetrySucceedsIff(g: Setting, d: Device, job: Job, n: nat)
    requires SettingOk(g) && Accepted(g, job)
    ensures var crashed := After(g.f, Look(job), d, n).1;
            var (outcome, d') := Finish(g.f, Look(job), crashed);
            && (Succeeded(outcome) <==> Ready(g.f, d, job))
            && (Succeeded(outcome) && job.plan.manifestKey !in d ==> Loaded(g.f, d', job.identity) == Some(job.payload))
  {
    hide Lawful, CollisionFree, Accepted, Compatible, Finish, Loaded, HasChunks, Step;
    var crashed := After(g.f, Look(job), d, n).1;
    StoreSucceedsIff(g, crashed, job);
    if job.plan.manifestKey in d {
      LookOnly(g, d, job, n);
    } else if Compatible(d, job) {
      TrackRun(g, d, job, Look(job), n);
      LookUnfolds(g.f, job, crashed);
      if job.plan.manifestKey in crashed {
        JobKeys(g, job);
        Complete(g, crashed, job);
      }
    } else {
      BlockedRun(g, d, job, Look(job), n);
    }
  }

  // ----- chunks put so far -----------------------------------------------------------------------

  /** The device after the first n chunks of a job were added. */
  ghost function WithChunks(d: Device, job: Job, n: nat): Device
    requires n <= |job.plan.chunks|
  {
    if n == 0 then d else WithChunks(d, job, n - 1)[job.plan.chunks[n - 1].key := job.plan.chunks[n - 1].value]
  }

  /** None of the job's records is on the device. */
  ghost predicate Unwritten(d: Device, job: Job) {
    job.plan.manifestKey !in d && forall i | 0 <= i < |job.plan.chunks| :: job.plan.chunks[i].key !in d
  }

  predicate IsChunkKey(job: Job, n: nat, k: Bytes) {
    exists i :: 0 <= i < n && i < |job.plan.chunks| && job.plan.chunks[i].key == k
  }

  lemma {:induction false} WithChunksHas(d: Device, job: Job, n: nat, k: Bytes)
    requires n <= |job.plan.chunks|
    ensures k in WithChunks(d, job, n) <==> k in d || IsChunkKey(job, n, k)
    ensures k in d && !IsChunkKey(job, n, k) ==> WithChunks(d, job, n)[k] == d[k]
  {
    if n == 0 {
    } else {
      WithChunksHas(d, job, n - 1, k);
      assert IsChunkKey(job, n, k) <==> IsChunkKey(job, n - 1, k) || k == job.plan.chunks[n - 1].key by {
        if k == job.plan.chunks[n - 1].key { assert 0 <= n - 1 < n; }
      }
    }
  }

  lemma {:induction false} FreshStore(g: Setting, d: Device, job: Job, i: nat)
    requires SettingOk(g) && Accepted(g, job) && Unwritten(d, job) && i <= |job.plan.chunks|
    ensures Finish(g.f, PutFrom(job, i), WithChunks(d, job, i))
            == (Published, WithChunks(d, job, |job.plan.chunks|)[job.plan.manifestKey := job.plan.manifestValue])
    decreases |job.plan.chunks| - i
  {
    hide SettingOk, Accepted, Finish;
    var here := WithChunks(d, job, i);
    if i == |job.plan.chunks| {
      OwnManifestApart(g, job, i);
      WithChunksHas(d, job, i, job.plan.manifestKey);
      PublishUnfolds(g.f, job, here);
    } else {
      ChunkApart(g, job, i);
      WithChunksHas(d, job, i, job.plan.chunks[i].key);
      PutUnfolds(g.f, job, i, here);
      FreshStore(g, d, job, i + 1);
    }
  }

  lemma OwnManifestApart(g: Setting, job: Job, n: nat)
    requires SettingOk(g) && Accepted(g, job)
    ensures !IsChunkKey(job, n, job.plan.manifestKey)
  {
    hide Accepted, SettingOk;
    Named(g, job);
    forall i | 0 <= i < |job.plan.chunks| ensures job.plan.chunks[i].key != job.plan.manifestKey {
      ChunkIsNoManifest(g, job, i, job.identity);
    }
  }

  lemma ChunkApart(g: Setting, job: Job, i: nat)
    requires SettingOk(g) && Accepted(g, job) && i < |job.plan.chunks|
    ensures !IsChunkKey(job, i, job.plan.chunks[i].key)
  {
    hide Accepted, SettingOk;
    forall j | 0 <= j < i ensures job.plan.chunks[j].key != job.plan.chunks[i].key {
      OwnKeysApart(g, job, j, i);
    }
  }

  // ----- orphans ---------------------------------------------------------------------------------

  // From chunk j on, a store of a new object puts m more chunks in m operations.
  lemma {:induction false} PutsSoFar(g: Setting, d: Device, job: Job, j: nat, m: nat)
    requires SettingOk(g) && Accepted(g, job) && Unwritten(d, job) && j + m <= |job.plan.chunks|
    ensures After(g.f, PutFrom(job, j), WithChunks(d, job, j), m) == (PutFrom(job, j + m), WithChunks(d, job, j + m))
    decreases m
  {
    hide SettingOk, Accepted;
    if m == 0 {
    } else {
      ChunkApart(g, job, j);
      WithChunksHas(d, job, j, job.plan.chunks[j].key);
      assert Step(g.f, PutFrom(job, j), WithChunks(d, job, j)) == (PutFrom(job, j + 1), WithChunks(d, job, j + 1));
      PutsSoFar(g, d, job, j + 1, m - 1);
    }
  }

  /**
   * Orphans arise: a store of another payload of the identity, cut off before its manifest but past chunk i,
   * leaves that chunk behind; a store whose chunk i differs then conflicts and nothing becomes visible.
   */
  lemma OrphanFromCrash(g: Setting, d: Device, other: Job, job: Job, i: nat, n: nat)
    requires SettingOk(g) && Accepted(g, other) && Accepted(g, job) && other.identity == job.identity
    requires Unwritten(d, other) && i < n <= |other.plan.chunks| && i < |job.plan.chunks|
    requires other.plan.chunks[i].value != job.plan.chunks[i].value
    ensures var crashed := After(g.f, Look(other), d, n + 1).1;
            var (outcome, d') := Finish(g.f, Look(job), crashed);
            outcome == Conflict(ChunkDiffers) && Loaded(g.f, d', job.identity) == None
  {
    hide SettingOk, Accepted, Finish, Loaded, WithChunks, DeriveKey, Decode;
    LookThenPuts(g, d, other, n);
    JobKeys(g, other);
    JobKeys(g, job);
    var crashed, key := WithChunks(d, other, n), other.plan.chunks[i].key;
    OwnManifestApart(g, other, n);
    WithChunksHas(d, other, n, other.plan.manifestKey);
    ChunkThere(g, d, other, i, n);
    OrphanBlocks(g, crashed, job, i);
  }

  lemma LookThenPuts(g: Setting, d: Device, job: Job, n: nat)
    requires SettingOk(g) && Accepted(g, job) && Unwritten(d, job) && n <= |job.plan.chunks|
    ensures After(g.f, Look(job), d, n + 1).1 == WithChunks(d, job, n)
  {
    hide SettingOk, Accepted;
    assert Step(g.f, Look(job), d) == (PutFrom(job, 0), WithChunks(d, job, 0));
    PutsSoFar(g, d, job, 0, n);
  }

  lemma {:induction false} ChunkThere(g: Setting, d: Device, job: Job, i: nat, n: nat)
    requires SettingOk(g) && Accepted(g, job) && i < n <= |job.plan.chunks|
    ensures Find(WithChunks(d, job, n), job.plan.chunks[i].key) == Some(job.plan.chunks[i].value)
    decreases n
  {
    hide SettingOk, Accepted;
    if i < n - 1 {
      ChunkThere(g, d, job, i, n - 1);
      OwnKeysApart(g, job, i, n - 1);
    }
  }

  // ----- what a delete leaves --------------------------------------------------------------------

  /** The chunk keys from i on that a delete removes. */
  ghost function Dropped(f: Library, identity: Bytes, m: Manifest, i: nat): set<Bytes> {
    set j | i <= j < m.chunkCount :: CKey(f, identity, j)
  }

  /** A delete removes every chunk record the manifest counts, and nothing else. */
  lemma {:induction false} DropFinishes(f: Library, identity: Bytes, m: Manifest, i: nat, d: Device)
    ensures Finish(f, DropFrom(identity, m, i), d) == (Removed(true), d - Dropped(f, identity, m, i))
    decreases m.chunkCount - i
  {
    hide Finish, CKey;
    if i < m.chunkCount {
      DropUnfolds(f, identity, m, i, d);
      DropFinishes(f, identity, m, i + 1, d - {CKey(f, identity, i)});
      assert Dropped(f, identity, m, i) == Dropped(f, identity, m, i + 1) + {CKey(f, identity, i)};
      assert d - Dropped(f, identity, m, i) == d - {CKey(f, identity, i)} - Dropped(f, identity, m, i + 1);
    } else {
      DropEnds(f, identity, m, i, d);
      assert Dropped(f, identity, m, i) == {};
      assert d - Dropped(f, identity, m, i) == d;
    }
  }

  /** A delete reports true exactly when it removed the manifest's record, and never adds or changes one. */
  lemma DeleteTells(f: Library, identity: Bytes, d: Device)
    requires Lawful(f)
    ensures var (outcome, d') := Finish(f, DeleteLook(identity), d);
            && outcome.Removed?
            && (outcome.existed <==> MKey(f, identity) in d && MKey(f, identity) !in d')
            && (!outcome.existed ==> d' == d)
            && (forall k | k in d' :: k in d && d'[k] == d[k])
            && (forall k | k in d && k !in d' :: k == MKey(f, identity) || IsChunkOf(f, d, identity, k))
            && (ManifestAt(f, d, identity).Some? ==>
                 outcome.existed && forall k | IsChunkOf(f, d, identity, k) :: k !in d')
  {
    hide Finish, CKey, MKey, ManifestValid;
    DeleteUnfolds(f, identity, d);
    if ManifestAt(f, d, identity).Some? {
      DropFinishes(f, identity, ManifestAt(f, d, identity).value, 0, d - {MKey(f, identity)});
    }
  }

  /** Key k is that of a chunk which the identity's manifest counts. */
  ghost predicate IsChunkOf(f: Library, d: Device, identity: Bytes, k: Bytes) {
    ManifestAt(f, d, identity).Some? && k in Dropped(f, identity, ManifestAt(f, d, identity).value, 0)
  }

  /** Storing a new object and deleting it again leaves every record of the device as it was. */
  lemma DeleteUndoesStore(g: Setting, d: Device, job: Job)
    requires SettingOk(g) && Accepted(g, job) && Unwritten(d, job)
    ensures Finish(g.f, Look(job), d).0 == Published
    ensures Finish(g.f, DeleteLook(job.identity), Finish(g.f, Look(job), d).1) == (Removed(true), d)
  {
    hide SettingOk, Accepted, Finish, Decode, CKey;
    var n, M := |job.plan.chunks|, job.plan.manifestKey;
    LookUnfolds(g.f, job, d);
    FreshStore(g, d, job, 0);
    JobKeys(g, job);
    var full := WithChunks(d, job, n)[M := job.plan.manifestValue];
    DeleteUnfolds(g.f, job.identity, full);
    DropFinishes(g.f, job.identity, job.requested, 0, full - {M});
    var gone := Dropped(g.f, job.identity, job.requested, 0);
    forall k ensures (k in full - {M} - gone <==> k in d) && (k in d ==> (full - {M} - gone)[k] == d[k]) {
      WithChunksHas(d, job, n, k);
      DroppedIs(g, job, k);
    }
    assert full - {M} - gone == d;
  }

  lemma DroppedIs(g: Setting, job: Job, k: Bytes)
    requires SettingOk(g) && Accepted(g, job)
    ensures k in Dropped(g.f, job.identity, job.requested, 0) <==> IsChunkKey(job, |job.plan.chunks|, k)
  {
    hide SettingOk, Accepted, CKey;
    JobKeys(g, job);
    if IsChunkKey(job, |job.plan.chunks|, k) {
      var i :| 0 <= i < |job.plan.chunks| && job.plan.chunks[i].key == k;
      assert CKey(g.f, job.identity, i) == k;
    }
  }

  // ----- a race ----------------------------------------------------------------------------------

  /**
   * A delete that overlaps a store of the same identity: the store finds the old chunk still there, the delete
   * removes it, and the store publishes its manifest. The manifest stays, and its object loads as missing.
   */
  lemma DeleteRace(g: Setting, d: Device, job: Job) returns (d': Device)
    requires SettingOk(g) && Accepted(g, job) && |job.plan.chunks| == 1 && Whole(d, job)
    ensures var (deleting, d1) := After(g.f, DeleteLook(job.identity), d, 2);
            var (storing, d2) := After(g.f, Look(job), d1, 3);
            var (deleted, d3) := After(g.f, deleting, d2, 1);
            var (stored, d4) := After(g.f, storing, d3, 1);
            deleted == Done(Removed(true)) && stored == Done(Published) && d' == d4
    ensures ManifestAt(g.f, d', job.identity) == Some(job.requested) && Loaded(g.f, d', job.identity) == None
  {
    hide Lawful, CollisionFree, Accepted, Decode, ValidatePayload, DeriveKey;
    JobKeys(g, job);
    Named(g, job);
    ChunkIsNoManifest(g, job, 0, job.identity);
    var m, M, K := job.requested, job.plan.manifestKey, job.plan.chunks[0].key;
    var hidden := d - {M};
    OneStep(g.f, DeleteLook(job.identity), d);
    assert Step(g.f, DeleteLook(job.identity), d) == (Hide(job.identity, m), d);
    TwoSteps(g.f, DeleteLook(job.identity), d);
    assert Step(g.f, Hide(job.identity, m), d) == (DropChunk(job.identity, m, 0), hidden);
    assert Step(g.f, Look(job), hidden) == (Put(job, 0), hidden);
    assert Step(g.f, Put(job, 0), hidden) == (Compare(job, 0), hidden);
    assert Step(g.f, Compare(job, 0), hidden) == (Publish(job), hidden);
    ThreeSteps(g.f, Look(job), hidden);
    var bare := hidden - {K};
    OneStep(g.f, DropChunk(job.identity, m, 0), hidden);
    assert Step(g.f, DropChunk(job.identity, m, 0), hidden) == (Done(Removed(true)), bare);
    OneStep(g.f, Publish(job), bare);
    d' := bare[M := job.plan.manifestValue];
    var got := ChunksAt(g.f, d', job.identity, 1);
    assert got[0] == None;
  }

  lemma OneStep(f: Library, c: Client, d: Device)
    ensures After(f, c, d, 1) == Step(f, c, d)
  {
    hide Step;
    assert After(f, Step(f, c, d).0, Step(f, c, d).1, 0) == Step(f, c, d);
  }

  lemma TwoSteps(f: Library, c: Client, d: Device)
    ensures After(f, c, d, 2) == Step(f, Step(f, c, d).0, Step(f, c, d).1)
  {
    hide Step;
    OneStep(f, Step(f, c, d).0, Step(f, c, d).1);
  }

  lemma ThreeSteps(f: Library, c: Client, d: Device)
    ensures var (c', d') := Step(f, c, d);
            var (c'', d'') := Step(f, c', d');
            After(f, c, d, 3) == Step(f, c'', d'')
  {
    hide Step;
    TwoSteps(f, Step(f, c, d).0, Step(f, c, d).1);
  }
}
