/** How one object becomes a manifest and chunks under device-sized keys, and how it is put together again. */
module KvFormat {
  import opened Basics

  datatype FormatError =
    | EmptyIdentity | EmptyPayload | BadLimit | BadIndex | BadManifest | ManifestTooLong
    | Malformed | CountDiffers | LengthDiffers | ChecksumDiffers

  datatype Manifest = Manifest(identity: Bytes, logicalBytes: int, chunkCount: int, checksum: string)

  datatype Chunk = Chunk(key: Bytes, value: Bytes)

  datatype Plan = Plan(manifestKey: Bytes, manifestValue: Bytes, chunks: seq<Chunk>)

  /**
   * The library functions the format rests on: SHA-256, the JSON text of a manifest and its parser (None for
   * text that is not a document of this version and these field types), and what int(text, 16) accepts.
   */
  datatype Library = Library(sha: Bytes -> Bytes, render: Manifest -> Bytes, parse: Bytes -> Option<Manifest>,
                             isHex: string -> bool)

  /** What is assumed of them. Collision resistance is not: see CollisionFree. */
  ghost predicate Lawful(f: Library) {
    && (forall b :: |f.sha(b)| == 32)
    && (forall m | ManifestValid(f, m) :: f.parse(f.render(m)) == Some(m))
    && (forall b: Bytes | |b| == 32 :: f.isHex(Hex(b)))
  }

  const KEY_BYTES := 16
  const MANIFEST_INDEX := 0xFFFF_FFFF

  function Ascii(s: string): Bytes {
    seq(|s|, i requires 0 <= i < |s| => s[i] as int % 256)
  }

  const DOMAIN := Ascii("lmcache-spdk-nvme-kv/v1") + [0]

  // ----- keys ------------------------------------------------------------------------------------

  function BigEndian(n: nat): (b: Bytes)
    ensures |b| == 4
  {
    [n / 0x100_0000 % 256, n / 0x1_0000 % 256, n / 0x100 % 256, n % 256]
  }

  lemma BigEndianInjective(n: nat, m: nat)
    requires n <= MANIFEST_INDEX && m <= MANIFEST_INDEX && BigEndian(n) == BigEndian(m)
    ensures n == m
  {
    var a, b := BigEndian(n), BigEndian(m);
    assert a[0] == b[0] && a[1] == b[1] && a[2] == b[2] && a[3] == b[3];
    FromDigits(n);
    FromDigits(m);
  }

  function Number(b: Bytes): int
    requires |b| == 4
  {
    var a: int, b': int, c: int, d: int := b[0], b[1], b[2], b[3];
    a * 0x100_0000 + b' * 0x1_0000 + c * 0x100 + d
  }

  lemma FromDigits(n: nat)
    requires n <= MANIFEST_INDEX
    ensures n == Number(BigEndian(n))
  {
    assert n / 0x1_0000 == n / 0x100 / 0x100;
    assert n / 0x100_0000 == n / 0x1_0000 / 0x100;
  }

  /** What is hashed into the key of chunk index of an object, or of its manifest. */
  function Material(identity: Bytes, index: nat): Bytes {
    DOMAIN + identity + BigEndian(index)
  }

  /** Identities may be prefixes of each other: the index's fixed width keeps the materials apart. */
  lemma MaterialInjective(identity: Bytes, index: nat, identity': Bytes, index': nat)
    requires index <= MANIFEST_INDEX && index' <= MANIFEST_INDEX
    requires Material(identity, index) == Material(identity', index')
    ensures identity == identity' && index == index'
  {
    var a, b := Material(identity, index), Material(identity', index');
    var n := |DOMAIN|;
    assert |a| == n + |identity| + 4 && |b| == n + |identity'| + 4;
    assert identity == a[n..|a| - 4] && identity' == b[n..|b| - 4];
    assert BigEndian(index) == a[|a| - 4..] && BigEndian(index') == b[|b| - 4..];
    BigEndianInjective(index, index');
  }

  function DeriveKey(f: Library, identity: Bytes, index: int): Result<Bytes, FormatError> {
    if !(0 <= index <= MANIFEST_INDEX) then Err(BadIndex)
    else
      var digest := f.sha(Material(identity, index));
      Ok(if |digest| < KEY_BYTES then digest else digest[..KEY_BYTES])
  }

  /** The key of an index in range. */
  function KeyOf(f: Library, identity: Bytes, index: nat): Bytes
    requires index <= MANIFEST_INDEX
  {
    DeriveKey(f, identity, index).value
  }

  function ManifestKey(f: Library, identity: Bytes): Result<Bytes, FormatError> {
    if identity == [] then Err(EmptyIdentity) else DeriveKey(f, identity, MANIFEST_INDEX)
  }

  // ----- manifests -------------------------------------------------------------------------------

  const DIGITS := "0123456789abcdef"

  function Hex(b: Bytes): (s: string)
    ensures |s| == 2 * |b|
  {
    if b == [] then "" else [DIGITS[b[0] / 16], DIGITS[b[0] % 16]] + Hex(b[1..])
  }

  /** The value of a lower-case hexadecimal digit. */
  function Digit(c: char): Option<nat> {
    if '0' <= c <= '9' then Some(c as int - '0' as int)
    else if 'a' <= c <= 'f' then Some(c as int - 'a' as int + 10)
    else None
  }

  /** The bytes that a string of digit pairs spells. */
  function Unhex(s: string): (b: Option<Bytes>) {
    if s == "" then Some([])
    else if |s| == 1 || Digit(s[0]).None? || Digit(s[1]).None? || Unhex(s[2..]).None? then None
    else Some([Digit(s[0]).value * 16 + Digit(s[1]).value] + Unhex(s[2..]).value)
  }

  /** The hexadecimal digest spells the digest. */
  lemma {:induction false} UnhexHex(b: Bytes)
    ensures Unhex(Hex(b)) == Some(b)
  {
    if b == [] {
    } else {
      UnhexHex(b[1..]);
      DigitsSpell(b[0]);
      UnhexPair(DIGITS[b[0] / 16], DIGITS[b[0] % 16], Hex(b[1..]));
      assert [b[0]] + b[1..] == b;
    }
  }

  lemma UnhexPair(high: char, low: char, rest: string)
    requires Digit(high).Some? && Digit(low).Some? && Unhex(rest).Some?
    ensures Digit(high).value < 16 && Digit(low).value < 16
    ensures Unhex([high, low] + rest) == Some([Digit(high).value * 16 + Digit(low).value] + Unhex(rest).value)
  {
    var s := [high, low] + rest;
    assert s[2..] == rest;
  }

  lemma DigitsSpell(x: Byte)
    ensures Digit(DIGITS[x / 16]) == Some(x / 16) && Digit(DIGITS[x % 16]) == Some(x % 16)
    ensures x / 16 * 16 + x % 16 == x
  {
    forall i | 0 <= i < 16 ensures Digit(DIGITS[i]) == Some(i) {
      DigitAt(i);
    }
  }

  lemma DigitAt(i: nat)
    requires i < 16
    ensures Digit(DIGITS[i]) == Some(i)
  {
    assert i == 0 || i == 1 || i == 2 || i == 3 || i == 4 || i == 5 || i == 6 || i == 7 || i == 8 || i == 9
           || i == 10 || i == 11 || i == 12 || i == 13 || i == 14 || i == 15;
  }

  function Checksum(f: Library, payload: Bytes): string {
    Hex(f.sha(payload))
  }

  predicate ManifestValid(f: Library, m: Manifest) {
    m.identity != [] && m.logicalBytes > 0 && 0 < m.chunkCount < MANIFEST_INDEX && |m.checksum| == 64 && f.isHex(m.checksum)
  }

  function Encode(f: Library, m: Manifest): Result<Bytes, FormatError> {
    if ManifestValid(f, m) then Ok(f.render(m)) else Err(BadManifest)
  }

  function Decode(f: Library, value: Bytes): Result<Manifest, FormatError> {
    match f.parse(value)
    case None => Err(Malformed)
    case Some(m) => if ManifestValid(f, m) then Ok(m) else Err(BadManifest)
  }

  /** Every manifest that can be encoded is read back, and whatever is read is valid. */
  lemma ManifestRoundTrip(f: Library, m: Manifest, value: Bytes)
    requires Lawful(f)
    ensures Encode(f, m).Ok? ==> Decode(f, Encode(f, m).value) == Ok(m)
    ensures Decode(f, value).Ok? ==> ManifestValid(f, Decode(f, value).value)
  {}

  // ----- chunking --------------------------------------------------------------------------------

  /** Chunks of at most limit bytes, in order. */
  function Split(payload: Bytes, limit: nat): (parts: seq<Bytes>)
    requires limit > 0
    ensures forall i | 0 <= i < |parts| :: 0 < |parts[i]| <= limit
    ensures payload != [] ==> parts != []
  {
    if payload == [] then []
    else if |payload| <= limit then [payload]
    else [payload[..limit]] + Split(payload[limit..], limit)
  }

  function Join(parts: seq<Bytes>): Bytes {
    if parts == [] then [] else parts[0] + Join(parts[1..])
  }

  lemma {:induction false} JoinSplit(payload: Bytes, limit: nat)
    requires limit > 0
    ensures Join(Split(payload, limit)) == payload
  {
    if |payload| <= limit {
      if payload != [] {
        assert Join([payload]) == payload + Join([]);
      }
    } else {
      JoinSplit(payload[limit..], limit);
      var rest := Split(payload[limit..], limit);
      assert ([payload[..limit]] + rest)[1..] == rest;
    }
  }

  /** Chunk i holds bytes i * limit up to (i + 1) * limit, and every chunk but the last is full. */
  lemma {:induction false} SplitAt(payload: Bytes, limit: nat, i: nat)
    requires limit > 0 && i < |Split(payload, limit)|
    ensures 0 <= i * limit < |payload|
    ensures Split(payload, limit)[i] == payload[i * limit..Min(i * limit + limit, |payload|)]
    ensures i + 1 < |Split(payload, limit)| ==> |Split(payload, limit)[i]| == limit
  {
    if |payload| > limit && i > 0 {
      SplitAt(payload[limit..], limit, i - 1);
      Shifted(payload, limit, i);
    } else {
      assert i == 0 && i * limit == 0;
    }
  }

  lemma Shifted(payload: Bytes, limit: nat, i: nat)
    requires 0 < limit < |payload| && 0 < i && (i - 1) * limit < |payload| - limit
    ensures (i - 1) * limit + limit == i * limit
    ensures var rest, lo := payload[limit..], (i - 1) * limit;
            && 0 <= lo
            && rest[lo..Min(lo + limit, |rest|)] == payload[i * limit..Min(i * limit + limit, |payload|)]
  {
    assert (i - 1) * limit + limit == i * limit;
    MulMonotone(limit, 0, i - 1);
    var lo, hi := (i - 1) * limit, Min((i - 1) * limit + limit, |payload| - limit);
    assert payload[limit..][lo..hi] == payload[lo + limit..hi + limit];
  }

  function ManifestFor(f: Library, identity: Bytes, payload: Bytes, limit: nat): Manifest
    requires limit > 0
  {
    Manifest(identity, |payload|, |Split(payload, limit)|, Checksum(f, payload))
  }

  function ChunksFor(f: Library, identity: Bytes, parts: seq<Bytes>): (chunks: seq<Chunk>)
    requires |parts| <= MANIFEST_INDEX
    ensures |chunks| == |parts|
  {
    seq(|parts|, i requires 0 <= i < |parts| => Chunk(KeyOf(f, identity, i), parts[i]))
  }

  /** make_object_plan. An index past the last derivable one is refused before the manifest is looked at. */
  function MakeObjectPlan(f: Library, identity: Bytes, payload: Bytes, limit: int): Result<Plan, FormatError> {
    if identity == [] then Err(EmptyIdentity)
    else if payload == [] then Err(EmptyPayload)
    else if limit <= 0 then Err(BadLimit)
    else
      var parts := Split(payload, limit);
      if |parts| > MANIFEST_INDEX + 1 then Err(BadIndex)
      else
        match Encode(f, ManifestFor(f, identity, payload, limit))
        case Err(e) => Err(e)
        case Ok(value) =>
          if |value| > limit then Err(ManifestTooLong)
          else Ok(Plan(KeyOf(f, identity, MANIFEST_INDEX), value, ChunksFor(f, identity, parts)))
  }

  /** validate_payload. */
  function ValidatePayload(f: Library, m: Manifest, parts: seq<Bytes>): Result<Bytes, FormatError> {
    if !ManifestValid(f, m) then Err(BadManifest)
    else if |parts| != m.chunkCount then Err(CountDiffers)
    else
      var payload := Join(parts);
      if |payload| != m.logicalBytes then Err(LengthDiffers)
      else if Checksum(f, payload) != m.checksum then Err(ChecksumDiffers)
      else Ok(payload)
  }

  function Values(chunks: seq<Chunk>): (vs: seq<Bytes>)
    ensures |vs| == |chunks| && forall i | 0 <= i < |chunks| :: vs[i] == chunks[i].value
  {
    seq(|chunks|, i requires 0 <= i < |chunks| => chunks[i].value)
  }

  // A plan's parts, read off make_object_plan.
  lemma PlanParts(f: Library, identity: Bytes, payload: Bytes, limit: int)
    requires MakeObjectPlan(f, identity, payload, limit).Ok?
    ensures identity != [] && payload != [] && limit > 0 && |Split(payload, limit)| < MANIFEST_INDEX
    ensures var plan, m := MakeObjectPlan(f, identity, payload, limit).value, ManifestFor(f, identity, payload, limit);
            && Encode(f, m) == Ok(plan.manifestValue) && ManifestValid(f, m) && |plan.manifestValue| <= limit
            && plan.manifestKey == KeyOf(f, identity, MANIFEST_INDEX)
            && plan.chunks == ChunksFor(f, identity, Split(payload, limit))
  {
    hide Split, Hex, DeriveKey, ChunksFor;
  }

  lemma KeyLength(f: Library, identity: Bytes, index: nat)
    requires Lawful(f) && index <= MANIFEST_INDEX
    ensures |KeyOf(f, identity, index)| == KEY_BYTES
  {
    hide Material, Hex, ManifestValid;
  }

  /** A payload that validates against a manifest has the length and the digest that the manifest states. */
  lemma ValidatedDigest(f: Library, m: Manifest, parts: seq<Bytes>)
    requires ValidatePayload(f, m, parts).Ok?
    ensures var payload := ValidatePayload(f, m, parts).value;
            |payload| == m.logicalBytes && Unhex(m.checksum) == Some(f.sha(payload)) && payload == Join(parts)
  {
    UnhexHex(f.sha(ValidatePayload(f, m, parts).value));
  }

  /** The manifest of a plan states the digest of the plan's payload. */
  lemma PlannedDigest(f: Library, identity: Bytes, payload: Bytes, limit: nat)
    requires limit > 0
    ensures var m := ManifestFor(f, identity, payload, limit);
            m.logicalBytes == |payload| && Unhex(m.checksum) == Some(f.sha(payload)) && m.identity == identity
  {
    UnhexHex(f.sha(payload));
  }

  /** A plan's records put together again are the payload, and every record fits the device. */
  lemma PlanRoundTrip(f: Library, identity: Bytes, payload: Bytes, limit: int)
    requires Lawful(f) && MakeObjectPlan(f, identity, payload, limit).Ok?
    ensures var plan := MakeObjectPlan(f, identity, payload, limit).value;
            var m := ManifestFor(f, identity, payload, limit);
            && Decode(f, plan.manifestValue) == Ok(m) && m.identity == identity && m.chunkCount == |plan.chunks|
            && ValidatePayload(f, m, Values(plan.chunks)) == Ok(payload)
            && ManifestKey(f, identity) == Ok(plan.manifestKey) && |plan.manifestKey| == KEY_BYTES
            && |plan.manifestValue| <= limit
            && forall i | 0 <= i < |plan.chunks| ::
                 && plan.chunks[i].key == KeyOf(f, identity, i) && |plan.chunks[i].key| == KEY_BYTES
                 && 0 < |plan.chunks[i].value| <= limit
  {
    hide MakeObjectPlan, Lawful, Split, Hex, Material, Encode, Decode, ManifestValid;
    PlanParts(f, identity, payload, limit);
    var plan, parts := MakeObjectPlan(f, identity, payload, limit).value, Split(payload, limit);
    ManifestRoundTrip(f, ManifestFor(f, identity, payload, limit), plan.manifestValue);
    JoinSplit(payload, limit);
    KeyLength(f, identity, MANIFEST_INDEX);
    forall i | 0 <= i < |parts| ensures |KeyOf(f, identity, i)| == KEY_BYTES {
      KeyLength(f, identity, i);
    }
    assert Values(plan.chunks) == parts;
  }

  /** A plan exists exactly for a named, non-empty payload of countable chunks whose manifest fits one value. */
  lemma PlanExistsIff(f: Library, identity: Bytes, payload: Bytes, limit: int)
    requires Lawful(f)
    ensures MakeObjectPlan(f, identity, payload, limit).Ok? <==>
            && identity != [] && payload != [] && limit > 0 && |Split(payload, limit)| < MANIFEST_INDEX
            && |f.render(ManifestFor(f, identity, payload, limit))| <= limit
  {
    if payload != [] && limit > 0 {
      assert |Checksum(f, payload)| == 64 && f.isHex(Checksum(f, payload));
    }
  }

  // ----- collisions ------------------------------------------------------------------------------

  /** One record an object may use: an identity with a chunk index or the manifest's. */
  type Slot = (Bytes, nat)

  /** No two of these records share a key. */
  ghost predicate CollisionFree(f: Library, used: set<Slot>) {
    && (forall s | s in used :: s.1 <= MANIFEST_INDEX)
    && forall s, t | s in used && t in used && KeyOf(f, s.0, s.1) == KeyOf(f, t.0, t.1) :: s == t
  }

  /** The hash's first bytes tell the materials of these records apart. */
  ghost predicate HashApart(f: Library, used: set<Slot>)
    requires Lawful(f)
  {
    forall s, t | s in used && t in used && f.sha(Material(s.0, s.1))[..KEY_BYTES] == f.sha(Material(t.0, t.1))[..KEY_BYTES] ::
      Material(s.0, s.1) == Material(t.0, t.1)
  }

  /** A hash without collisions on the materials in use gives keys without collisions: the layout adds none. */
  lemma CollisionsComeFromHash(f: Library, used: set<Slot>)
    requires forall s | s in used :: s.1 <= MANIFEST_INDEX
    requires Lawful(f) && HashApart(f, used)
    ensures CollisionFree(f, used)
  {
    hide Material, Hex, ManifestValid;
    forall s, t | s in used && t in used && KeyOf(f, s.0, s.1) == KeyOf(f, t.0, t.1) ensures s == t {
      MaterialInjective(s.0, s.1, t.0, t.1);
    }
  }
}
