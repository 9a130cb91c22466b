/**
 * The object layer as the program runs it: store, load, delete and recovery over an engine whose records they
 * change in place, each proved to do what a lone small-step client does.
 */
module KvObjectStores {
  import opened Basics
  import opened KvFormat
  import opened KvMachine
  import opened KvCrash

  datatype StoreError = Format(error: FormatError) | ObjectConflict(reason: Reason)

  /** The four operations the object layer needs of a device. */
  class KvEngine {
    const maxValueBytes: int
    var records: Device

    constructor (maxValueBytes: int)
      ensures this.maxValueBytes == maxValueBytes && records == map[]
    {
      this.maxValueBytes, records := maxValueBytes, map[];
    }

    method StoreIfAbsent(key: Bytes, value: Bytes) returns (stored: bool)
      modifies this
      ensures stored == (key !in old(records)) && records == KvMachine.StoreIfAbsent(old(records), key, value)
    {
      stored := key !in records;
      if stored { records := records[key := value]; }
    }

    method Retrieve(key: Bytes) returns (value: Option<Bytes>)
      ensures value == Find(records, key)
    {
      value := Find(records, key);
    }

    method Delete(key: Bytes) returns (existed: bool)
      modifies this
      ensures existed == (key in old(records)) && records == old(records) - {key}
    {
      existed := key in records;
      records := records - {key};
    }

    /** A snapshot of all keys, in any order. */
    method ListKeys() returns (keys: seq<Bytes>)
      ensures forall k :: k in keys <==> k in records
      ensures forall i, j | 0 <= i < j < |keys| :: keys[i] != keys[j]
    {
      keys := [];
      var left := records.Keys;
      while left != {}
        invariant left <= records.Keys
        invariant forall k :: k in keys <==> k in records && k !in left
        invariant forall i, j | 0 <= i < j < |keys| :: keys[i] != keys[j]
        decreases |left|
      {
        var k :| k in left;
        assert k !in keys;
        keys := keys + [k];
        left := left - {k};
      }
    }
  }

  function Answer(outcome: Outcome): Result<bool, StoreError> {
    match outcome
    case Published => Ok(true)
    case Conflict(reason) => Err(ObjectConflict(reason))
    case Removed(existed) => Ok(existed)
    case _ => Ok(false)
  }

  class KvObjectStore {
    const engine: KvEngine
    const f: Library

    constructor (engine: KvEngine, f: Library)
      ensures this.engine == engine && this.f == f
    {
      this.engine, this.f := engine, f;
    }

    /** Chunks first, manifest last; what a lone storing client does. */
    method Store(identity: Bytes, payload: Bytes) returns (r: Result<bool, StoreError>)
      requires Lawful(f)
      modifies engine
      ensures match MakeObjectPlan(f, identity, payload, engine.maxValueBytes)
              case Err(e) => r == Err(Format(e)) && engine.records == old(engine.records)
              case Ok(plan) =>
                var job := Job(identity, payload, plan, ManifestFor(f, identity, payload, engine.maxValueBytes));
                var (outcome, d') := Finish(f, Look(job), old(engine.records));
                r == Answer(outcome) && engine.records == d'
      ensures match MakeObjectPlan(f, identity, payload, engine.maxValueBytes)
              case Err(_) => true
              case Ok(plan) =>
                (forall i | 0 <= i < |plan.chunks| :: plan.chunks[i].key != plan.manifestKey) ==>
                  var before, key := old(engine.records), plan.manifestKey;
                  && (r == Ok(true) <==> key !in before && Find(engine.records, key) == Some(plan.manifestValue))
                  && (r == Ok(false) <==>
                        && engine.records == before && key in before
                        && Decode(f, before[key]) == Ok(ManifestFor(f, identity, payload, engine.maxValueBytes)))
                  && (r.Ok? || r.error.ObjectConflict?)
    {
      hide Lawful, MakeObjectPlan, Decode, ManifestFor;
      var made := MakeObjectPlan(f, identity, payload, engine.maxValueBytes);
      if made.Err? { return Err(Format(made.error)); }
      var plan := made.value;
      Requested(f, identity, payload, engine.maxValueBytes);
      var requested := Decode(f, plan.manifestValue).value;
      ghost var job := Job(identity, payload, plan, requested);
      ghost var end := Finish(f, Look(job), engine.records);
      if KeysApart(job) { StoreTells(f, job, engine.records); }
      LookUnfolds(f, job, engine.records);
      var existing := engine.Retrieve(plan.manifestKey);
      if existing.Some? {
        return Answer(CheckExisting(f, existing.value, requested));
      }
      var i := 0;
      while i < |plan.chunks|
        invariant 0 <= i <= |plan.chunks| && Finish(f, PutFrom(job, i), engine.records) == end
      {
        PutUnfolds(f, job, i, engine.records);
        var absent := engine.StoreIfAbsent(plan.chunks[i].key, plan.chunks[i].value);
        if !absent {
          var existingChunk := engine.Retrieve(plan.chunks[i].key);
          if existingChunk != Some(plan.chunks[i].value) {
            return Err(ObjectConflict(ChunkDiffers));
          }
        }
        i := i + 1;
      }
      PublishUnfolds(f, job, engine.records);
      var published := engine.StoreIfAbsent(plan.manifestKey, plan.manifestValue);
      if published { return Ok(true); }
      existing := engine.Retrieve(plan.manifestKey);
      if existing.None? { return Err(ObjectConflict(ManifestGone)); }
      return Answer(CheckExisting(f, existing.value, requested));
    }

    /** A verified object, or nothing for any miss or corruption. */
    method Load(identity: Bytes) returns (r: Result<Option<Bytes>, FormatError>)
      ensures r == if identity == [] then Err(EmptyIdentity) else Ok(Loaded(f, engine.records, identity))
      ensures r.Ok? && r.value.Some? ==>
                && ManifestAt(f, engine.records, identity).Some?
                && var m := ManifestAt(f, engine.records, identity).value;
                   Unhex(m.checksum) == Some(f.sha(r.value.value)) && |r.value.value| == m.logicalBytes
    {
      hide Unhex;
      if Loaded(f, engine.records, identity).Some? { LoadedDigest(f, engine.records, identity); }
      var key := ManifestKey(f, identity);
      if key.Err? { return Err(key.error); }
      var encoded := engine.Retrieve(key.value);
      if encoded.None? { return Ok(None); }
      var manifest := Decode(f, encoded.value);
      if manifest.Err? || manifest.value.identity != identity { return Ok(None); }
      var m := manifest.value;
      var got := [];
      var index := 0;
      while index < m.chunkCount
        invariant 0 <= index <= m.chunkCount && got == ChunksAt(f, engine.records, identity, index)
      {
        var chunk := engine.Retrieve(CKey(f, identity, index));
        got := got + [chunk];
        index := index + 1;
      }
      if !AllPresent(got) { return Ok(None); }
      var payload := ValidatePayload(f, m, Present(got));
      return Ok(if payload.Ok? then Some(payload.value) else None);
    }

    /** The manifest goes first, then its chunks; what a lone deleting client does. */
    method Delete(identity: Bytes) returns (r: Result<bool, FormatError>)
      requires Lawful(f)
      modifies engine
      ensures identity == [] ==> r == Err(EmptyIdentity) && engine.records == old(engine.records)
      ensures identity != [] ==>
                var (outcome, d') := Finish(f, DeleteLook(identity), old(engine.records));
                outcome.Removed? && r == Ok(outcome.existed) && engine.records == d'
      ensures identity != [] ==>
                && (r == Ok(true) <==> MKey(f, identity) in old(engine.records) && MKey(f, identity) !in engine.records)
                && (r == Ok(true) || (r == Ok(false) && engine.records == old(engine.records)))
                && (forall k | k in engine.records :: Find(old(engine.records), k) == Some(engine.records[k]))
                && (forall k | k in old(engine.records) && k !in engine.records ::
                      k == MKey(f, identity) || IsChunkOf(f, old(engine.records), identity, k))
    {
      DeleteTells(f, identity, engine.records);
      hide Lawful, ManifestValid, Finish, IsChunkOf;
      var key := ManifestKey(f, identity);
      if key.Err? { return Err(key.error); }
      DeleteUnfolds(f, identity, engine.records);
      var encoded := engine.Retrieve(key.value);
      if encoded.None? { return Ok(false); }
      var manifest := Decode(f, encoded.value);
      if manifest.Err? {
        var existed := engine.Delete(key.value);
        return Ok(existed);
      }
      var m := manifest.value;
      if m.identity != identity { return Ok(false); }
      var hidden := engine.Delete(key.value);
      var index := 0;
      while index < m.chunkCount
        invariant 0 <= index && (index <= m.chunkCount || m.chunkCount < 0)
        invariant Finish(f, DropFrom(identity, m, index), engine.records) == Finish(f, DeleteLook(identity), old(engine.records))
      {
        DropUnfolds(f, identity, m, index, engine.records);
        var dropped := engine.Delete(CKey(f, identity, index));
        index := index + 1;
      }
      DropEnds(f, identity, m, index, engine.records);
      return Ok(true);
    }

    /**
     * Recovery by scan: in ascending order and without repetition, exactly the identities that load, whatever
     * else the device holds.
     */
    method RecoverIdentities() returns (identities: seq<Bytes>)
      ensures forall id :: id in identities <==> Loaded(f, engine.records, id).Some?
      ensures forall i, j | 0 <= i < j < |identities| :: Before(identities[i], identities[j])
    {
      hide Loaded, ManifestValid;
      var keys := engine.ListKeys();
      var found := [];
      for k := 0 to |keys|
        invariant forall id :: id in found <==> Loaded(f, engine.records, id).Some? && MKey(f, id) in keys[..k]
        invariant Distinct(found)
      {
        assert keys[..k + 1] == keys[..k] + [keys[k]];
        var encoded := engine.Retrieve(keys[k]);
        if encoded.Some? {
          var manifest := Decode(f, encoded.value);
          OnlyNamed(f, engine.records, keys[k]);
          if manifest.Ok? && ManifestKey(f, manifest.value.identity) == Ok(keys[k]) {
            var loaded := Load(manifest.value.identity);
            if loaded.Ok? && loaded.value.Some? {
              found := found + [manifest.value.identity];
            }
          }
        }
      }
      assert keys[..|keys|] == keys;
      VisibleHasKey(f, engine.records);
      identities := Sort(found);
      SortIsRight(found);
    }
  }

  // ----- lone clients, one operation at a time ---------------------------------------------------

  lemma Requested(f: Library, identity: Bytes, payload: Bytes, limit: int)
    requires Lawful(f) && MakeObjectPlan(f, identity, payload, limit).Ok?
    ensures limit > 0
    ensures Decode(f, MakeObjectPlan(f, identity, payload, limit).value.manifestValue)
            == Ok(ManifestFor(f, identity, payload, limit))
    ensures MakeObjectPlan(f, identity, payload, limit).value.chunks != []
  {
    PlanRoundTrip(f, identity, payload, limit);
  }

  // ----- recovery --------------------------------------------------------------------------------

  predicate Distinct(s: seq<Bytes>) {
    forall i, j | 0 <= i < j < |s| :: s[i] != s[j]
  }

  // A key names at most one identity: the one in the manifest under it.
  lemma OnlyNamed(f: Library, d: Device, key: Bytes)
    requires key in d
    ensures forall id :: MKey(f, id) == key && Loaded(f, d, id).Some? ==>
              Decode(f, d[key]).Ok? && Decode(f, d[key]).value.identity == id && ManifestKey(f, id) == Ok(key)
    ensures Decode(f, d[key]).Ok? && ManifestKey(f, Decode(f, d[key]).value.identity) == Ok(key) ==>
              MKey(f, Decode(f, d[key]).value.identity) == key && Decode(f, d[key]).value.identity != []
  {
    hide Verified;
  }

  lemma VisibleHasKey(f: Library, d: Device)
    ensures forall id :: Loaded(f, d, id).Some? ==> MKey(f, id) in d
  {
    hide Verified;
  }

  /** The order of Python's bytes: the first byte that differs is smaller, or a is a proper prefix of b. */
  predicate Before(a: Bytes, b: Bytes) {
    || (|a| < |b| && a == b[..|a|])
    || exists n :: 0 <= n < |a| && n < |b| && a[..n] == b[..n] && a[n] < b[n]
  }

  predicate AtMost(a: Bytes, b: Bytes) {
    a == [] || (b != [] && (a[0] < b[0] || (a[0] == b[0] && AtMost(a[1..], b[1..]))))
  }

  /** Comparing from the front decides that order. */
  lemma {:induction false} AtMostIs(a: Bytes, b: Bytes)
    ensures AtMost(a, b) && a != b <==> Before(a, b)
  {
    if a == [] || b == [] {
      assert a == [] && b != [] ==> b[..0] == a;
    } else {
      AtMostIs(a[1..], b[1..]);
      FirstAndRest(a, b);
    }
  }

  lemma BeforeIsBelow()
    ensures forall a, b :: Before(a, b) <==> AtMost(a, b) && a != b
  {
    hide Before, AtMost;
    forall a, b ensures Before(a, b) <==> AtMost(a, b) && a != b { AtMostIs(a, b); }
  }

  lemma FirstAndRest(a: Bytes, b: Bytes)
    requires a != [] && b != []
    ensures Before(a, b) <==> a[0] < b[0] || (a[0] == b[0] && Before(a[1..], b[1..]))
    ensures a == b <==> a[0] == b[0] && a[1..] == b[1..]
  {
    assert a == [a[0]] + a[1..] && b == [b[0]] + b[1..];
    if a[0] < b[0] {
      assert a[..0] == b[..0];
    }
    if n :| 0 < n < |a| && n < |b| && a[..n] == b[..n] && a[n] < b[n] {
      assert a[1..][..n - 1] == a[..n][1..] && b[1..][..n - 1] == b[..n][1..];
      assert a[..n][0] == b[..n][0];
      assert a[1..][n - 1] < b[1..][n - 1];
    }
    if n :| 0 <= n < |a[1..]| && n < |b[1..]| && a[1..][..n] == b[1..][..n] && a[1..][n] < b[1..][n] && a[0] == b[0] {
      assert a[..n + 1] == [a[0]] + a[1..][..n] && b[..n + 1] == [b[0]] + b[1..][..n];
      assert a[n + 1] < b[n + 1];
    }
    if |a| < |b| {
      assert b[..|a|] == [b[0]] + b[1..][..|a| - 1];
    }
  }

  lemma {:induction false} AtMostTotal(a: Bytes, b: Bytes)
    ensures AtMost(a, b) || AtMost(b, a)
  {
    if a != [] && b != [] { AtMostTotal(a[1..], b[1..]); }
  }

  lemma {:induction false} AtMostTrans(a: Bytes, b: Bytes, c: Bytes)
    requires AtMost(a, b) && AtMost(b, c)
    ensures AtMost(a, c)
  {
    if a != [] && a[0] == b[0] && b[0] == c[0] { AtMostTrans(a[1..], b[1..], c[1..]); }
  }

  lemma {:induction false} AtMostSelf(a: Bytes)
    ensures AtMost(a, a)
  {
    if a == [] {
    } else {
      AtMostSelf(a[1..]);
    }
  }

  function Insert(x: Bytes, s: seq<Bytes>): seq<Bytes> {
    if s == [] || AtMost(x, s[0]) then [x] + s else [s[0]] + Insert(x, s[1..])
  }

  function Sort(s: seq<Bytes>): seq<Bytes> {
    if s == [] then [] else Insert(s[|s| - 1], Sort(s[..|s| - 1]))
  }

  ghost predicate Ordered(s: seq<Bytes>) {
    forall i, j | 0 <= i < j < |s| :: Before(s[i], s[j])
  }

  lemma {:induction false} InsertIsRight(x: Bytes, s: seq<Bytes>)
    requires Ordered(s) && x !in s
    ensures Ordered(Insert(x, s)) && forall y :: y in Insert(x, s) <==> y == x || y in s
  {
    hide Before;
    BeforeIsBelow();
    if s == [] {
    } else if AtMost(x, s[0]) {
      forall j | 0 <= j < |s| ensures Before(x, s[j]) {
        assert s[j] in s;
        if j > 0 { AtMostTrans(x, s[0], s[j]); }
      }
    } else {
      var tail, rest := s[1..], Insert(x, s[1..]);
      assert s == [s[0]] + tail;
      InsertIsRight(x, tail);
      forall j | 0 <= j < |rest| ensures Before(s[0], rest[j]) {
        assert rest[j] in rest;
        if rest[j] == x {
          AtMostTotal(x, s[0]);
        } else {
          var i :| 0 <= i < |tail| && tail[i] == rest[j];
          assert s[i + 1] == rest[j];
        }
      }
    }
  }

  /** Sorting keeps the elements and puts them in strictly ascending order when none is repeated. */
  lemma {:induction false} SortIsRight(s: seq<Bytes>)
    requires Distinct(s)
    ensures Ordered(Sort(s)) && forall y :: y in Sort(s) <==> y in s
  {
    if s == [] {
    } else {
      var front, x := s[..|s| - 1], s[|s| - 1];
      assert s == front + [x];
      SortIsRight(front);
      InsertIsRight(x, Sort(front));
    }
  }
}
