/**
 * Clients of the key-value object store as small-step programs: every engine operation is one atomic step,
 * and a client may crash between any two.
 */
module KvMachine {
  import opened Basics
  import opened KvFormat

  type Device = map<Bytes, Bytes>

  /** One store call whose plan has been made. */
  datatype Job = Job(identity: Bytes, payload: Bytes, plan: Plan, requested: Manifest)

  datatype Reason = ChunkDiffers | ManifestMalformed | ManifestDiffers | ManifestGone

  datatype Outcome = Published | AlreadyStored | Conflict(reason: Reason) | Removed(existed: bool) | Read(found: Option<Bytes>)

  /** Where a client is: about to perform the named engine operation, or done. */
  datatype Client =
    | Look(job: Job)
    | Put(job: Job, i: nat)
    | Compare(job: Job, i: nat)
    | Publish(job: Job)
    | Reread(job: Job)
    | DeleteLook(identity: Bytes)
    | DropRecord(identity: Bytes)
    | Hide(identity: Bytes, m: Manifest)
    | DropChunk(identity: Bytes, m: Manifest, i: nat)
    | LoadLook(identity: Bytes)
    | Fetch(identity: Bytes, m: Manifest, got: seq<Option<Bytes>>)
    | Done(outcome: Outcome)

  function StoreIfAbsent(d: Device, key: Bytes, value: Bytes): Device {
    if key in d then d else d[key := value]
  }

  function MKey(f: Library, identity: Bytes): Bytes {
    KeyOf(f, identity, MANIFEST_INDEX)
  }

  function CKey(f: Library, identity: Bytes, i: nat): Bytes {
    if i <= MANIFEST_INDEX then KeyOf(f, identity, i) else []
  }

  /** A job's plan is the one make_object_plan returns. */
  ghost predicate JobOk(f: Library, limit: int, job: Job) {
    && MakeObjectPlan(f, job.identity, job.payload, limit) == Ok(job.plan)
    && job.requested == ManifestFor(f, job.identity, job.payload, limit)
  }

  // ----- steps -----------------------------------------------------------------------------------

  /** _check_existing_manifest. */
  function CheckExisting(f: Library, value: Bytes, requested: Manifest): Outcome {
    match Decode(f, value)
    case Err(_) => Conflict(ManifestMalformed)
    case Ok(existing) => if existing != requested then Conflict(ManifestDiffers) else AlreadyStored
  }

  function PutFrom(job: Job, i: nat): Client {
    if i < |job.plan.chunks| then Put(job, i) else Publish(job)
  }

  function DropFrom(identity: Bytes, m: Manifest, i: nat): Client {
    if i < m.chunkCount then DropChunk(identity, m, i) else Done(Removed(true))
  }

  function AllPresent(got: seq<Option<Bytes>>): bool {
    forall i | 0 <= i < |got| :: got[i].Some?
  }

  function Present(got: seq<Option<Bytes>>): seq<Bytes>
    requires AllPresent(got)
  {
    seq(|got|, i requires 0 <= i < |got| => got[i].value)
  }

  /** The end of load: nothing missing and the payload verified. */
  function Verified(f: Library, m: Manifest, got: seq<Option<Bytes>>): Option<Bytes> {
    if !AllPresent(got) then None
    else
      match ValidatePayload(f, m, Present(got))
      case Err(_) => None
      case Ok(payload) => Some(payload)
  }

  function FetchFrom(f: Library, identity: Bytes, m: Manifest, got: seq<Option<Bytes>>): Client {
    if |got| < m.chunkCount then Fetch(identity, m, got) else Done(Read(Verified(f, m, got)))
  }

  /** The next engine operation of a client that is not done. */
  function Step(f: Library, c: Client, d: Device): (Client, Device) {
    match c
    case Look(job) =>
      (match Find(d, job.plan.manifestKey)
       case Some(value) => Done(CheckExisting(f, value, job.requested))
       case None => PutFrom(job, 0), d)
    case Put(job, i) =>
      if i < |job.plan.chunks| then
        var chunk := job.plan.chunks[i];
        (if chunk.key in d then Compare(job, i) else PutFrom(job, i + 1), StoreIfAbsent(d, chunk.key, chunk.value))
      else (Publish(job), d)
    case Compare(job, i) =>
      if i < |job.plan.chunks| && Find(d, job.plan.chunks[i].key) == Some(job.plan.chunks[i].value) then
        (PutFrom(job, i + 1), d)
      else (Done(Conflict(ChunkDiffers)), d)
    case Publish(job) =>
      (if job.plan.manifestKey in d then Reread(job) else Done(Published),
       StoreIfAbsent(d, job.plan.manifestKey, job.plan.manifestValue))
    case Reread(job) =>
      (match Find(d, job.plan.manifestKey)
       case Some(value) => Done(CheckExisting(f, value, job.requested))
       case None => Done(Conflict(ManifestGone)), d)
    case DeleteLook(identity) =>
      (match Find(d, MKey(f, identity))
       case None => Done(Removed(false))
       case Some(value) =>
         match Decode(f, value)
         case Err(_) => DropRecord(identity)
         case Ok(m) => if m.identity != identity then Done(Removed(false)) else Hide(identity, m), d)
    case DropRecord(identity) => (Done(Removed(MKey(f, identity) in d)), d - {MKey(f, identity)})
    case Hide(identity, m) => (DropFrom(identity, m, 0), d - {MKey(f, identity)})
    case DropChunk(identity, m, i) => (DropFrom(identity, m, i + 1), d - {CKey(f, identity, i)})
    case LoadLook(identity) =>
      (match Find(d, MKey(f, identity))
       case None => Done(Read(None))
       case Some(value) =>
         match Decode(f, value)
         case Err(_) => Done(Read(None))
         case Ok(m) => if m.identity != identity then Done(Read(None)) else FetchFrom(f, identity, m, []), d)
    case Fetch(identity, m, got) => (FetchFrom(f, identity, m, got + [Find(d, CKey(f, identity, |got|))]), d)
    case Done(_) => (c, d)
  }

  // ----- what a device holds ---------------------------------------------------------------------

  /** The valid manifest of an identity. */
  function ManifestAt(f: Library, d: Device, identity: Bytes): Option<Manifest> {
    match Find(d, MKey(f, identity))
    case None => None
    case Some(value) =>
      match Decode(f, value)
      case Err(_) => None
      case Ok(m) => if m.identity != identity then None else Some(m)
  }

  function ChunksAt(f: Library, d: Device, identity: Bytes, n: nat): (got: seq<Option<Bytes>>)
    ensures |got| == n && forall i | 0 <= i < n :: got[i] == Find(d, CKey(f, identity, i))
  {
    seq(n, i requires 0 <= i < n => Find(d, CKey(f, identity, i)))
  }

  /** What load returns when nothing else happens meanwhile. */
  function Loaded(f: Library, d: Device, identity: Bytes): Option<Bytes> {
    match ManifestAt(f, d, identity)
    case None => None
    case Some(m) => if m.chunkCount < 0 then None else Verified(f, m, ChunksAt(f, d, identity, m.chunkCount))
  }

  // ----- one client alone ------------------------------------------------------------------------

  /** n steps of a client with the device to itself. */
  function After(f: Library, c: Client, d: Device, n: nat): (Client, Device)
    decreases n
  {
    if n == 0 then (c, d) else var (c', d') := Step(f, c, d); After(f, c', d', n - 1)
  }

  /** An upper bound on the operations left. */
  function Left(c: Client): nat {
    match c
    case Look(job) => 2 * |job.plan.chunks| + 4
    case Put(job, i) => 2 * (if i < |job.plan.chunks| then |job.plan.chunks| - i else 0) + 3
    case Compare(job, i) => 2 * (if i < |job.plan.chunks| then |job.plan.chunks| - i else 0) + 2
    case Publish(_) => 2
    case Reread(_) => 1
    case DeleteLook(_) => 0x1_0000_0003
    case DropRecord(_) => 1
    case Hide(_, m) => (if m.chunkCount < 0 then 0 else m.chunkCount) + 2
    case DropChunk(_, m, i) => (if i < m.chunkCount then m.chunkCount - i else 0) + 1
    case LoadLook(_) => 0x1_0000_0003
    case Fetch(_, m, got) => (if |got| < m.chunkCount then m.chunkCount - |got| else 0) + 1
    case Done(_) => 0
  }

  /** A client runs to its end. */
  function Finish(f: Library, c: Client, d: Device): (r: (Outcome, Device))
    decreases Left(c)
  {
    match c
    case Done(outcome) => (outcome, d)
    case _ => StepDescends(f, c, d); var (c', d') := Step(f, c, d); Finish(f, c', d')
  }

  lemma StepDescends(f: Library, c: Client, d: Device)
    requires !c.Done?
    ensures Left(Step(f, c, d).0) < Left(c)
  {}

  /** A client with the device to itself is done after finitely many operations. */
  lemma {:induction false} FinishIsAfter(f: Library, c: Client, d: Device) returns (n: nat)
    ensures After(f, c, d, n) == (Done(Finish(f, c, d).0), Finish(f, c, d).1)
    decreases Left(c)
  {
    if c.Done? { return 0; }
    StepDescends(f, c, d);
    var (c', d') := Step(f, c, d);
    n := FinishIsAfter(f, c', d');
    n := n + 1;
  }

  /** Read alone, the loader's steps give what Loaded says. */
  lemma LoaderReads(f: Library, d: Device, identity: Bytes)
    ensures Finish(f, LoadLook(identity), d) == (Read(Loaded(f, d, identity)), d)
  {
    var m := ManifestAt(f, d, identity);
    if m.Some? {
      assert ChunksAt(f, d, identity, 0) == [];
      FetchAll(f, d, identity, m.value, 0);
    }
  }

  lemma {:induction false} FetchAll(f: Library, d: Device, identity: Bytes, m: Manifest, n: nat)
    requires ManifestValid(f, m) && n <= m.chunkCount
    ensures Finish(f, FetchFrom(f, identity, m, ChunksAt(f, d, identity, n)), d)
            == (Read(Verified(f, m, ChunksAt(f, d, identity, m.chunkCount))), d)
    decreases m.chunkCount - n
  {
    if n < m.chunkCount {
      FetchAll(f, d, identity, m, n + 1);
      assert ChunksAt(f, d, identity, n) + [Find(d, CKey(f, identity, n))] == ChunksAt(f, d, identity, n + 1);
    }
  }

  /** Whatever loads has the length and the digest that its manifest states, and is its chunk records joined. */
  lemma LoadedDigest(f: Library, d: Device, identity: Bytes)
    requires Loaded(f, d, identity).Some?
    ensures ManifestAt(f, d, identity).Some?
    ensures var m, payload := ManifestAt(f, d, identity).value, Loaded(f, d, identity).value;
            && m.identity == identity && m.chunkCount >= 0 && |payload| == m.logicalBytes
            && Unhex(m.checksum) == Some(f.sha(payload))
            && AllPresent(ChunksAt(f, d, identity, m.chunkCount))
            && payload == Join(Present(ChunksAt(f, d, identity, m.chunkCount)))
  {
    hide Unhex, Decode, CKey, Checksum, ManifestValid;
    var m := ManifestAt(f, d, identity).value;
    ValidatedDigest(f, m, Present(ChunksAt(f, d, identity, m.chunkCount)));
  }

  /** Under a published manifest, chunk records that join to a payload of another digest load as nothing. */
  lemma CorruptionIsAMiss(f: Library, d: Device, identity: Bytes, payload: Bytes, limit: nat)
    requires limit > 0 && ManifestAt(f, d, identity) == Some(ManifestFor(f, identity, payload, limit))
    requires var got := ChunksAt(f, d, identity, ManifestFor(f, identity, payload, limit).chunkCount);
             AllPresent(got) && f.sha(Join(Present(got))) != f.sha(payload)
    ensures Loaded(f, d, identity) == None
  {
    hide Unhex, Checksum, ManifestAt;
    PlannedDigest(f, identity, payload, limit);
    if Loaded(f, d, identity).Some? {
      LoadedDigest(f, d, identity);
    }
  }

  // ----- one operation at a time -----------------------------------------------------------------

  lemma LookUnfolds(f: Library, job: Job, d: Device)
    ensures Finish(f, Look(job), d) ==
              if job.plan.manifestKey in d then (CheckExisting(f, d[job.plan.manifestKey], job.requested), d)
              else Finish(f, PutFrom(job, 0), d)
  {}

  lemma PutUnfolds(f: Library, job: Job, i: nat, d: Device)
    requires i < |job.plan.chunks|
    ensures var chunk := job.plan.chunks[i];
            Finish(f, PutFrom(job, i), d) ==
              if chunk.key !in d then Finish(f, PutFrom(job, i + 1), d[chunk.key := chunk.value])
              else if d[chunk.key] == chunk.value then Finish(f, PutFrom(job, i + 1), d)
              else (Conflict(ChunkDiffers), d)
  {
    var chunk := job.plan.chunks[i];
    if chunk.key in d {
      assert Finish(f, Put(job, i), d) == Finish(f, Compare(job, i), d);
      if d[chunk.key] != chunk.value {
        assert Finish(f, Compare(job, i), d) == Finish(f, Done(Conflict(ChunkDiffers)), d);
      }
    }
  }

  lemma PublishUnfolds(f: Library, job: Job, d: Device)
    ensures Finish(f, PutFrom(job, |job.plan.chunks|), d) ==
              if job.plan.manifestKey !in d then (Published, d[job.plan.manifestKey := job.plan.manifestValue])
              else (CheckExisting(f, d[job.plan.manifestKey], job.requested), d)
  {
    var key := job.plan.manifestKey;
    if key in d {
      assert Step(f, Publish(job), d) == (Reread(job), d);
      assert Step(f, Reread(job), d) == (Done(CheckExisting(f, d[key], job.requested)), d);
      assert Finish(f, Done(CheckExisting(f, d[key], job.requested)), d) == (CheckExisting(f, d[key], job.requested), d);
      assert Finish(f, Publish(job), d) == Finish(f, Reread(job), d);
    } else {
      var d' := d[key := job.plan.manifestValue];
      assert Step(f, Publish(job), d) == (Done(Published), d');
      assert Finish(f, Done(Published), d') == (Published, d');
    }
  }

  lemma DeleteUnfolds(f: Library, identity: Bytes, d: Device)
    ensures var key := MKey(f, identity);
            Finish(f, DeleteLook(identity), d) ==
              if key !in d then (Removed(false), d)
              else if Decode(f, d[key]).Err? then (Removed(true), d - {key})
              else if Decode(f, d[key]).value.identity != identity then (Removed(false), d)
              else Finish(f, DropFrom(identity, Decode(f, d[key]).value, 0), d - {key})
  {
    hide ManifestValid;
    var key := MKey(f, identity);
    if key in d {
      match Decode(f, d[key]) {
        case Err(_) => assert Finish(f, DeleteLook(identity), d) == Finish(f, DropRecord(identity), d);
        case Ok(m) =>
          if m.identity == identity {
            assert Finish(f, DeleteLook(identity), d) == Finish(f, Hide(identity, m), d);
          }
      }
    }
  }

  lemma DropUnfolds(f: Library, identity: Bytes, m: Manifest, i: nat, d: Device)
    requires i < m.chunkCount
    ensures Finish(f, DropFrom(identity, m, i), d) == Finish(f, DropFrom(identity, m, i + 1), d - {CKey(f, identity, i)})
  {}

  lemma DropEnds(f: Library, identity: Bytes, m: Manifest, i: nat, d: Device)
    requires i >= m.chunkCount
    ensures Finish(f, DropFrom(identity, m, i), d) == (Removed(true), d)
  {}
}
