/**
 * Stores and deletes of one identity overlapping at will: an object is incomplete exactly when a delete
 * removed one of its chunks after its store had found or put it there.
 */
module KvLoss {
  import opened Basics
  import opened KvFormat
  import opened KvMachine
  import opened KvPublication
  import opened KvCrash
  import opened KvDeletion

  /**
   * The history of a run: the chunks each identity's manifest was last published over, and the chunk records
   * that deletes removed and nobody stored again since.
   */
  datatype Books = Books(parts: map<Bytes, seq<Bytes>>, gone: set<(Slot, Bytes)>)

  ghost function Booked(f: Library, d: Device, b: Books, c: Client): Books {
    match c
    case Put(job, i) =>
      if i < |job.plan.chunks| && job.plan.chunks[i].key !in d then
        b.(gone := b.gone - {((job.identity, i), job.plan.chunks[i].value)})
      else b
    case Publish(job) =>
      if job.plan.manifestKey in d then b else b.(parts := b.parts[job.identity := Values(job.plan.chunks)])
    case DropChunk(identity, _, i) =>
      if CKey(f, identity, i) in d then b.(gone := b.gone + {((identity, i), d[CKey(f, identity, i)])}) else b
    case _ => b
  }

  ghost function BooksNext(g: Setting, s: Cluster, b: Books, a: Action): Books
    requires Enabled(g, s, a)
  {
    if a.Advance? then Booked(g.f, s.device, b, s.clients[a.w].value) else b
  }

  ghost function EndBooks(g: Setting, s: Cluster, b: Books, actions: seq<Action>): Books
    requires Runs(g, s, actions)
    decreases |actions|
  {
    if actions == [] then b else EndBooks(g, Next(g, s, actions[0]), BooksNext(g, s, b, actions[0]), actions[1..])
  }

  // ----- the invariant ---------------------------------------------------------------------------

  /** Chunk i of the identity is on the device as v, or was and a delete took it. */
  ghost predicate Kept(f: Library, d: Device, gone: set<(Slot, Bytes)>, identity: Bytes, i: nat, v: Bytes) {
    Find(d, CKey(f, identity, i)) == Some(v) || ((identity, i), v) in gone
  }

  ghost predicate KeptFirst(g: Setting, d: Device, b: Books, job: Job, n: nat) {
    n <= |job.plan.chunks| && forall i: nat | i < n :: Kept(g.f, d, b.gone, job.identity, i, job.plan.chunks[i].value)
  }

  /** What a client has established, up to later deletes. */
  ghost predicate KnowsLoosely(g: Setting, d: Device, b: Books, c: Client) {
    match c
    case Look(job) => Accepted(g, job)
    case Put(job, i) => Accepted(g, job) && i < |job.plan.chunks| && KeptFirst(g, d, b, job, i)
    case Compare(job, i) => Accepted(g, job) && i < |job.plan.chunks| && KeptFirst(g, d, b, job, i)
    case Publish(job) => Accepted(g, job) && KeptFirst(g, d, b, job, |job.plan.chunks|)
    case Reread(job) => Accepted(g, job)
    case DeleteLook(identity) => (identity, MANIFEST_INDEX) in g.used
    case DropRecord(identity) => (identity, MANIFEST_INDEX) in g.used
    case Hide(identity, m) => InUse(g, identity, m.chunkCount) && m.chunkCount < MANIFEST_INDEX
    case DropChunk(identity, m, i) => InUse(g, identity, m.chunkCount) && i < m.chunkCount < MANIFEST_INDEX
    case _ => true
  }

  /** No record is both gone and there. */
  ghost predicate GoneOk(g: Setting, d: Device, gone: set<(Slot, Bytes)>) {
    forall r | r in gone :: r.0 in g.used && r.0.1 < MANIFEST_INDEX && Find(d, KeyOf(g.f, r.0.0, r.0.1)) != Some(r.1)
  }

  /** Manifest m was published over the chunks vs, each of which is there or gone. */
  ghost predicate PublishedOver(g: Setting, d: Device, b: Books, identity: Bytes, m: Manifest) {
    && identity in b.parts
    && var vs := b.parts[identity];
       && |vs| == m.chunkCount < MANIFEST_INDEX && ValidatePayload(g.f, m, vs).Ok?
       && forall i: nat | i < |vs| :: Kept(g.f, d, b.gone, identity, i, vs[i])
  }

  ghost predicate VisibleOk(g: Setting, d: Device, b: Books) {
    forall id | (id, MANIFEST_INDEX) in g.used && ManifestAt(g.f, d, id).Some? ::
      PublishedOver(g, d, b, id, ManifestAt(g.f, d, id).value)
  }

  ghost predicate BooksOk(g: Setting, d: Device, b: Books) {
    SettingOk(g) && Covers(g, d) && GoneOk(g, d, b.gone) && VisibleOk(g, d, b)
  }

  ghost predicate LooseInv(g: Setting, s: Cluster, b: Books) {
    && BooksOk(g, s.device, b)
    && forall w | 0 <= w < |s.clients| && s.clients[w].Some? :: KnowsLoosely(g, s.device, b, s.clients[w].value)
  }

  // ----- one device operation --------------------------------------------------------------------

  /** Every chunk in use that was kept is still kept. */
  ghost predicate StillKept(g: Setting, d: Device, b: Books, d': Device, b': Books) {
    forall id, i: nat, v | (id, i) in g.used && i < MANIFEST_INDEX && Kept(g.f, d, b.gone, id, i, v) ::
      Kept(g.f, d', b'.gone, id, i, v)
  }

  lemma ApartKeys(g: Setting, s: Slot, t: Slot)
    requires SettingOk(g) && s in g.used && t in g.used && s != t
    ensures KeyOf(g.f, s.0, s.1) != KeyOf(g.f, t.0, t.1)
  {}

  /** The devices differ at most at one key. */
  ghost predicate Elsewhere(d: Device, d': Device, key: Bytes) {
    forall k | k != key :: Find(d', k) == Find(d, k)
  }

  // A record of a chunk is added.
  lemma AddChunk(g: Setting, d: Device, b: Books, slot: Slot, v: Bytes)
    requires SettingOk(g) && GoneOk(g, d, b.gone) && slot in g.used && slot.1 < MANIFEST_INDEX
    requires KeyOf(g.f, slot.0, slot.1) !in d
    ensures var d', b' := d[KeyOf(g.f, slot.0, slot.1) := v], b.(gone := b.gone - {(slot, v)});
            GoneOk(g, d', b'.gone) && StillKept(g, d, b, d', b')
  {
    hide SettingOk, DeriveKey;
    var d', b' := d[KeyOf(g.f, slot.0, slot.1) := v], b.(gone := b.gone - {(slot, v)});
    forall r | r in b'.gone ensures Find(d', KeyOf(g.f, r.0.0, r.0.1)) != Some(r.1) {
      if r.0 != slot { ApartKeys(g, r.0, slot); }
    }
  }

  // A chunk's record is removed.
  lemma RemoveChunk(g: Setting, d: Device, b: Books, slot: Slot)
    requires SettingOk(g) && GoneOk(g, d, b.gone) && slot in g.used && slot.1 < MANIFEST_INDEX
    requires KeyOf(g.f, slot.0, slot.1) in d
    ensures var key := KeyOf(g.f, slot.0, slot.1);
            var d', b' := d - {key}, b.(gone := b.gone + {(slot, d[key])});
            GoneOk(g, d', b'.gone) && StillKept(g, d, b, d', b')
  {
    hide SettingOk, DeriveKey;
    var key := KeyOf(g.f, slot.0, slot.1);
    var d', b' := d - {key}, b.(gone := b.gone + {(slot, d[key])});
    forall id, i: nat, v | (id, i) in g.used && i < MANIFEST_INDEX && Kept(g.f, d, b.gone, id, i, v)
      ensures Kept(g.f, d', b'.gone, id, i, v)
    {
      if (id, i) != slot { ApartKeys(g, (id, i), slot); }
    }
  }

  // A manifest's record is added or removed.
  lemma ChangeManifest(g: Setting, d: Device, b: Books, id: Bytes, d': Device, b': Books)
    requires SettingOk(g) && GoneOk(g, d, b.gone) && (id, MANIFEST_INDEX) in g.used && b'.gone == b.gone
    requires Elsewhere(d, d', MKey(g.f, id))
    ensures GoneOk(g, d', b'.gone) && StillKept(g, d, b, d', b')
  {
    hide SettingOk, DeriveKey;
    var slot := (id, MANIFEST_INDEX);
    forall r | r in b.gone ensures Find(d', KeyOf(g.f, r.0.0, r.0.1)) == Find(d, KeyOf(g.f, r.0.0, r.0.1)) {
      ApartKeys(g, r.0, slot);
    }
    forall x, i: nat, v | (x, i) in g.used && i < MANIFEST_INDEX && Kept(g.f, d, b.gone, x, i, v)
      ensures Kept(g.f, d', b'.gone, x, i, v)
    {
      ApartKeys(g, (x, i), slot);
    }
  }

  lemma OtherManifests(g: Setting, d: Device, d': Device, slot: Slot)
    requires SettingOk(g) && slot in g.used && Elsewhere(d, d', KeyOf(g.f, slot.0, slot.1))
    ensures forall id | (id, MANIFEST_INDEX) in g.used && (id, MANIFEST_INDEX) != slot ::
              ManifestAt(g.f, d', id) == ManifestAt(g.f, d, id)
  {
    hide SettingOk, DeriveKey, Decode;
    forall id | (id, MANIFEST_INDEX) in g.used && (id, MANIFEST_INDEX) != slot
      ensures Find(d', MKey(g.f, id)) == Find(d, MKey(g.f, id))
    {
      ApartKeys(g, (id, MANIFEST_INDEX), slot);
    }
  }

  /** The manifests in use are as before, except that the given identity's may be gone. */
  ghost predicate SameManifests(g: Setting, d: Device, d': Device) {
    forall id | (id, MANIFEST_INDEX) in g.used :: ManifestAt(g.f, d', id) in {None, ManifestAt(g.f, d, id)}
  }

  lemma OverKept(g: Setting, d: Device, b: Books, d': Device, b': Books, id: Bytes, m: Manifest)
    requires PublishedOver(g, d, b, id, m) && StillKept(g, d, b, d', b') && InUse(g, id, m.chunkCount)
    requires Find(b'.parts, id) == Find(b.parts, id)
    ensures PublishedOver(g, d', b', id, m)
  {
    hide ValidatePayload, Kept;
  }

  // Chunks were added or removed, or a manifest was removed.
  lemma QuietBooks(g: Setting, d: Device, b: Books, d': Device, b': Books)
    requires BooksOk(g, d, b) && GoneOk(g, d', b'.gone) && StillKept(g, d, b, d', b')
    requires b'.parts == b.parts && SameManifests(g, d, d')
    ensures BooksOk(g, d', b')
  {
    hide SettingOk, GoneOk, StillKept, PublishedOver, ManifestAt, InUse;
    forall id | (id, MANIFEST_INDEX) in g.used && ManifestAt(g.f, d', id).Some?
      ensures InUse(g, id, ManifestAt(g.f, d', id).value.chunkCount)
      ensures PublishedOver(g, d', b', id, ManifestAt(g.f, d', id).value)
    {
      OverKept(g, d, b, d', b', id, ManifestAt(g.f, d, id).value);
    }
  }

  lemma LooselyKept(g: Setting, d: Device, b: Books, d': Device, b': Books, c: Client)
    requires SettingOk(g) && KnowsLoosely(g, d, b, c) && StillKept(g, d, b, d', b')
    ensures KnowsLoosely(g, d', b', c)
  {
    hide SettingOk, Kept, JobOk;
    if c.Put? || c.Compare? || c.Publish? { JobKeys(g, c.job); }
  }

  // ----- steps -----------------------------------------------------------------------------------

  /** What a client's step does to the device, the history and its own knowledge. */
  ghost predicate LooseStep(g: Setting, d: Device, b: Books, c: Client) {
    var (c', d') := Step(g.f, c, d);
    var b' := Booked(g.f, d, b, c);
    BooksOk(g, d', b') && StillKept(g, d, b, d', b') && KnowsLoosely(g, d', b', c')
  }

  lemma Onwards(g: Setting, d: Device, b: Books, job: Job, i: nat)
    requires Accepted(g, job) && i < |job.plan.chunks| && KeptFirst(g, d, b, job, i)
    requires Kept(g.f, d, b.gone, job.identity, i, job.plan.chunks[i].value)
    ensures KnowsLoosely(g, d, b, PutFrom(job, i + 1))
  {
    hide Accepted, Kept;
    assert i + 1 >= |job.plan.chunks| ==> i + 1 == |job.plan.chunks|;
  }

  lemma LoosePut(g: Setting, d: Device, b: Books, job: Job, i: nat)
    requires BooksOk(g, d, b) && KnowsLoosely(g, d, b, Put(job, i))
    ensures LooseStep(g, d, b, Put(job, i))
  {
    hide SettingOk, Covers, GoneOk, VisibleOk, DeriveKey, Accepted, ManifestAt;
    JobKeys(g, job);
    ChunkInUse(g, job, i);
    var slot, chunk := (job.identity, i), job.plan.chunks[i];
    if chunk.key !in d {
      var d', b' := d[chunk.key := chunk.value], b.(gone := b.gone - {(slot, chunk.value)});
      AddChunk(g, d, b, slot, chunk.value);
      OtherManifests(g, d, d', slot);
      QuietBooks(g, d, b, d', b');
      LooselyKept(g, d, b, d', b', Put(job, i));
      Onwards(g, d', b', job, i);
    }
  }

  lemma ChunkInUse(g: Setting, job: Job, i: nat)
    requires Accepted(g, job) && i < |job.plan.chunks|
    ensures (job.identity, i) in g.used && (job.identity, MANIFEST_INDEX) in g.used
  {}

  lemma LooseCompare(g: Setting, d: Device, b: Books, job: Job, i: nat)
    requires BooksOk(g, d, b) && KnowsLoosely(g, d, b, Compare(job, i))
    ensures LooseStep(g, d, b, Compare(job, i))
  {
    hide BooksOk, Accepted, DeriveKey;
    InBooks(g, d, b);
    JobKeys(g, job);
    if Find(d, job.plan.chunks[i].key) == Some(job.plan.chunks[i].value) {
      Onwards(g, d, b, job, i);
    }
  }

  lemma InBooks(g: Setting, d: Device, b: Books)
    requires BooksOk(g, d, b)
    ensures SettingOk(g) && Covers(g, d) && GoneOk(g, d, b.gone) && VisibleOk(g, d, b)
  {}

  lemma LoosePublish(g: Setting, d: Device, b: Books, job: Job)
    requires BooksOk(g, d, b) && KnowsLoosely(g, d, b, Publish(job))
    ensures LooseStep(g, d, b, Publish(job))
  {
    hide SettingOk, GoneOk, DeriveKey, JobOk, ManifestAt, StillKept, Kept, ValidatePayload, ManifestValid;
    JobKeys(g, job);
    var id, M := job.identity, job.plan.manifestKey;
    if M !in d {
      var d', b' := d[M := job.plan.manifestValue], b.(parts := b.parts[id := Values(job.plan.chunks)]);
      ChangeManifest(g, d, b, id, d', b');
      OtherManifests(g, d, d', (id, MANIFEST_INDEX));
      LooselyKept(g, d, b, d', b', Publish(job));
      NewManifest(g.f, d', id, job.requested);
      forall x | (x, MANIFEST_INDEX) in g.used && x != id && ManifestAt(g.f, d', x).Some?
        ensures PublishedOver(g, d', b', x, ManifestAt(g.f, d', x).value)
      {
        OverKept(g, d, b, d', b', x, ManifestAt(g.f, d, x).value);
      }
    } else {
      SameStays(g, d, b);
    }
  }

  lemma NewManifest(f: Library, d: Device, id: Bytes, m: Manifest)
    requires MKey(f, id) in d && Decode(f, d[MKey(f, id)]) == Ok(m) && m.identity == id
    ensures ManifestAt(f, d, id) == Some(m)
  {}

  lemma LooseHide(g: Setting, d: Device, b: Books, c: Client)
    requires BooksOk(g, d, b) && KnowsLoosely(g, d, b, c) && (c.Hide? || c.DropRecord?)
    ensures LooseStep(g, d, b, c)
  {
    hide SettingOk, Covers, GoneOk, VisibleOk, DeriveKey, StillKept;
    var d' := d - {MKey(g.f, c.identity)};
    ChangeManifest(g, d, b, c.identity, d', b);
    OtherManifests(g, d, d', (c.identity, MANIFEST_INDEX));
    QuietBooks(g, d, b, d', b);
  }

  lemma LooseDrop(g: Setting, d: Device, b: Books, identity: Bytes, m: Manifest, i: nat)
    requires BooksOk(g, d, b) && KnowsLoosely(g, d, b, DropChunk(identity, m, i))
    ensures LooseStep(g, d, b, DropChunk(identity, m, i))
  {
    hide SettingOk, Covers, GoneOk, VisibleOk, DeriveKey, StillKept, ManifestAt;
    var slot, key := (identity, i), CKey(g.f, identity, i);
    assert slot in g.used;
    if key in d {
      RemoveChunk(g, d, b, slot);
      OtherManifests(g, d, d - {key}, slot);
      QuietBooks(g, d, b, d - {key}, b.(gone := b.gone + {(slot, d[key])}));
    } else {
      assert d - {key} == d;
      SameStays(g, d, b);
    }
  }

  lemma SameStays(g: Setting, d: Device, b: Books)
    ensures StillKept(g, d, b, d, b)
  {}

  lemma LooseLook(g: Setting, d: Device, b: Books, c: Client)
    requires BooksOk(g, d, b) && KnowsLoosely(g, d, b, c) && (c.Look? || c.Reread?)
    ensures LooseStep(g, d, b, c)
  {
    hide BooksOk, Accepted, CheckExisting, StillKept, VisibleOk, GoneOk, Covers, SettingOk, Kept, InUse;
    InBooks(g, d, b);
    SameStays(g, d, b);
    JobKeys(g, c.job);
  }

  lemma LooseDeleteLook(g: Setting, d: Device, b: Books, identity: Bytes)
    requires BooksOk(g, d, b) && KnowsLoosely(g, d, b, DeleteLook(identity))
    ensures LooseStep(g, d, b, DeleteLook(identity))
  {
    hide BooksOk, StillKept, GoneOk, VisibleOk, SettingOk, InUse;
    InBooks(g, d, b);
    SameStays(g, d, b);
  }

  lemma LooseReader(g: Setting, d: Device, b: Books, c: Client)
    requires BooksOk(g, d, b) && (c.LoadLook? || c.Fetch? || c.Done?)
    ensures LooseStep(g, d, b, c)
  {
    hide BooksOk, StillKept, Step, Booked;
    SameStays(g, d, b);
    ReadersLeave(g.f, d, c);
    ReadersBookNothing(g, d, b, c);
  }

  lemma ReadersBookNothing(g: Setting, d: Device, b: Books, c: Client)
    requires c.LoadLook? || c.Fetch? || c.Done?
    ensures Booked(g.f, d, b, c) == b
  {}

  lemma EveryLooseStep(g: Setting, d: Device, b: Books, c: Client)
    requires BooksOk(g, d, b) && KnowsLoosely(g, d, b, c)
    ensures LooseStep(g, d, b, c)
  {
    hide BooksOk, KnowsLoosely, LooseStep;
    match c {
      case Put(job, i) => LoosePut(g, d, b, job, i);
      case Compare(job, i) => LooseCompare(g, d, b, job, i);
      case Publish(job) => LoosePublish(g, d, b, job);
      case Hide(_, _) => LooseHide(g, d, b, c);
      case DropRecord(_) => LooseHide(g, d, b, c);
      case DropChunk(identity, m, i) => LooseDrop(g, d, b, identity, m, i);
      case Look(_) => LooseLook(g, d, b, c);
      case Reread(_) => LooseLook(g, d, b, c);
      case DeleteLook(identity) => LooseDeleteLook(g, d, b, identity);
      case _ => LooseReader(g, d, b, c);
    }
  }

  // ----- runs ------------------------------------------------------------------------------------

  lemma StartKnowsLoosely(g: Setting, s: Cluster, b: Books, a: Action)
    requires Enabled(g, s, a) && !a.Advance? && !a.Crash?
    ensures Next(g, s, a).clients[a.w].Some? && KnowsLoosely(g, s.device, b, Next(g, s, a).clients[a.w].value)
  {
    hide MakeObjectPlan, ManifestFor;
  }

  lemma LooseAction(g: Setting, s: Cluster, b: Books, a: Action)
    requires LooseInv(g, s, b) && Enabled(g, s, a)
    ensures LooseInv(g, Next(g, s, a), BooksNext(g, s, b, a))
  {
    hide BooksOk, KnowsLoosely, StillKept, Step, Booked, MakeObjectPlan;
    var s', b' := Next(g, s, a), BooksNext(g, s, b, a);
    InBooks(g, s.device, b);
    if a.Advance? {
      EveryLooseStep(g, s.device, b, s.clients[a.w].value);
      forall w | 0 <= w < |s'.clients| && s'.clients[w].Some? ensures KnowsLoosely(g, s'.device, b', s'.clients[w].value) {
        if w != a.w { LooselyKept(g, s.device, b, s'.device, b', s.clients[w].value); }
      }
    } else if !a.Crash? {
      StartKnowsLoosely(g, s, b, a);
    }
  }

  lemma {:induction false} LooseRun(g: Setting, s: Cluster, b: Books, actions: seq<Action>)
    requires LooseInv(g, s, b) && Runs(g, s, actions)
    ensures LooseInv(g, End(g, s, actions), EndBooks(g, s, b, actions))
    decreases |actions|
  {
    hide LooseInv, Enabled, Next, BooksNext;
    if actions == [] {
    } else {
      LooseAction(g, s, b, actions[0]);
      LooseRun(g, Next(g, s, actions[0]), BooksNext(g, s, b, actions[0]), actions[1..]);
    }
  }

  /** The history at the start: nothing is gone, every visible object is published over the chunks it has. */
  ghost function StartBooks(g: Setting, d: Device): Books {
    var ids := set r | r in g.used && Loaded(g.f, d, r.0).Some? :: r.0;
    Books(map id | id in ids :: ChunksNow(g.f, d, id), {})
  }

  ghost function ChunksNow(f: Library, d: Device, id: Bytes): seq<Bytes> {
    if ManifestAt(f, d, id).None? || ManifestAt(f, d, id).value.chunkCount < 0 then []
    else
      var got := ChunksAt(f, d, id, ManifestAt(f, d, id).value.chunkCount);
      if AllPresent(got) then Present(got) else []
  }

  lemma StartsInBooks(g: Setting, d: Device)
    requires SettingOk(g) && Sound(g, d) && Covers(g, d)
    ensures BooksOk(g, d, StartBooks(g, d))
  {
    hide Lawful, CollisionFree, Covers, DeriveKey, ValidatePayload;
    var b := StartBooks(g, d);
    forall id | (id, MANIFEST_INDEX) in g.used && ManifestAt(g.f, d, id).Some?
      ensures PublishedOver(g, d, b, id, ManifestAt(g.f, d, id).value)
    {
      var r := (id, MANIFEST_INDEX);
      assert r in g.used && Loaded(g.f, d, r.0).Some?;
      assert id in b.parts && b.parts[id] == ChunksNow(g.f, d, id);
    }
  }

  // ----- when an object is lost ------------------------------------------------------------------

  /** Chunk i of the identity's manifest was deleted since and not stored again. */
  predicate Lost(b: Books, id: Bytes, i: nat) {
    id in b.parts && i < |b.parts[id]| && ((id, i), b.parts[id][i]) in b.gone
  }

  /**
   * In every state reached by storing, loading and deleting clients with crashes, a manifest misses a chunk
   * it was published over exactly when a delete took that chunk after the manifest's store had found or put
   * it. With none lost the object loads; with one lost and nothing stored in its place it does not.
   */
  lemma LostIff(g: Setting, s: Cluster, b: Books, id: Bytes)
    requires LooseInv(g, s, b) && (id, MANIFEST_INDEX) in g.used && ManifestAt(g.f, s.device, id).Some?
    ensures var m := ManifestAt(g.f, s.device, id).value;
            && id in b.parts && |b.parts[id]| == m.chunkCount
            && (forall i: nat | i < |b.parts[id]| ::
                 Lost(b, id, i) <==> Find(s.device, CKey(g.f, id, i)) != Some(b.parts[id][i]))
            && ((forall i: nat | i < |b.parts[id]| :: !Lost(b, id, i)) ==>
                 ValidatePayload(g.f, m, b.parts[id]).Ok?
                 && Loaded(g.f, s.device, id) == Some(ValidatePayload(g.f, m, b.parts[id]).value))
            && (forall i: nat | Lost(b, id, i) && CKey(g.f, id, i) !in s.device :: Loaded(g.f, s.device, id) == None)
  {
    hide Lawful, CollisionFree, Covers, DeriveKey, ValidatePayload, ManifestAt, KnowsLoosely;
    var d, m, vs := s.device, ManifestAt(g.f, s.device, id).value, b.parts[id];
    forall i: nat | i < |vs| ensures Lost(b, id, i) <==> Find(d, CKey(g.f, id, i)) != Some(vs[i]) {
      assert Kept(g.f, d, b.gone, id, i, vs[i]);
    }
    if forall i: nat | i < |vs| :: !Lost(b, id, i) {
      LoadsFrom(g.f, d, id, m, vs, ValidatePayload(g.f, m, vs).value);
    }
    forall i: nat | Lost(b, id, i) && CKey(g.f, id, i) !in d ensures Loaded(g.f, d, id) == None {
      assert ChunksAt(g.f, d, id, m.chunkCount)[i] == None;
    }
  }

  /** When a store has just put or found a chunk, that chunk is not among the deleted ones. */
  lemma FoundIsNotGone(g: Setting, s: Cluster, b: Books, w: nat)
    requires LooseInv(g, s, b) && w < |s.clients| && s.clients[w].Some?
    requires var c := s.clients[w].value;
             (c.Put? || c.Compare?) && Step(g.f, c, s.device).0 == PutFrom(c.job, c.i + 1)
    ensures var c := s.clients[w].value;
            && Enabled(g, s, Advance(w)) && c.i < |c.job.plan.chunks|
            && ((c.job.identity, c.i), c.job.plan.chunks[c.i].value) !in BooksNext(g, s, b, Advance(w)).gone
  {
    hide SettingOk, Covers, VisibleOk, DeriveKey, JobOk, Kept;
    var c := s.clients[w].value;
    assert KnowsLoosely(g, s.device, b, c);
    JobKeys(g, c.job);
  }

  lemma LooseReachable(g: Setting, s0: Cluster, actions: seq<Action>)
    requires Init(g, s0) && Covers(g, s0.device) && Runs(g, s0, actions)
    ensures LooseInv(g, End(g, s0, actions), EndBooks(g, s0, StartBooks(g, s0.device), actions))
  {
    hide BooksOk, KnowsLoosely, SettingOk, Sound, Covers;
    StartsInBooks(g, s0.device);
    LooseRun(g, s0, StartBooks(g, s0.device), actions);
  }

  /**
   * In every run, an object whose manifest is visible loads as nothing only if a delete took one of its
   * chunks after its store had found or put it there; and it does so if nothing was stored in that place.
   */
  lemma IncompleteIff(g: Setting, s0: Cluster, actions: seq<Action>, id: Bytes)
    requires Init(g, s0) && Covers(g, s0.device) && Runs(g, s0, actions)
    requires (id, MANIFEST_INDEX) in g.used && ManifestAt(g.f, End(g, s0, actions).device, id).Some?
    ensures var d, b := End(g, s0, actions).device, EndBooks(g, s0, StartBooks(g, s0.device), actions);
            && (Loaded(g.f, d, id) == None ==> exists i :: Lost(b, id, i))
            && (forall i: nat | Lost(b, id, i) && CKey(g.f, id, i) !in d :: Loaded(g.f, d, id) == None)
  {
    hide LooseInv, Loaded, ManifestAt, ValidatePayload, CKey;
    LooseReachable(g, s0, actions);
    LostIff(g, End(g, s0, actions), EndBooks(g, s0, StartBooks(g, s0.device), actions), id);
  }
}
