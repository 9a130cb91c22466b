/**
 * The connector under concurrency: any number of workers, each running one store, load, delete or lookup
 * at a time, interleaved at every lock, allocator call and device command.
 */
module StoreSystem {
  import opened Basics
  import opened Segments
  import opened Ownership

  datatype Kind = Set | Get | Delete | Exists

  /** One key of a request and, for loads and stores, the caller's buffer. */
  datatype Part = Part(key: Key, buffer: Bytes)

  /** A single-key load or store is a batch of one. */
  datatype Request = Request(kind: Kind, parts: seq<Part>)

  /** Command (p, q) is command q of reservation p of a store, or of key p of a load. */
  type Command = (nat, nat)

  datatype Stage =
    | Idle
    | Locking
    | Reserving(next: nat, rs: seq<nat>)
    | Writing(rs: seq<nat>, todo: set<Command>, failed: bool)
    | RollingBack(rs: seq<nat>, next: nat)
    | Retire(count: nat, next: nat)
    | Reading(todo: set<Command>, success: seq<bool>, out: seq<Bytes>)
    | Finished(success: seq<bool>, out: seq<Bytes>)

  /**
   * A worker holds the key locks order[freed..got]. since is the length of the history when its request
   * began; nothing reads it.
   */
  datatype Worker = Worker(req: Request, order: seq<Key>, got: nat, freed: nat, stage: Stage, since: nat)

  datatype Event = Stored(worker: nat, parts: seq<Part>) | Deleted(worker: nat, key: Key)

  /** The log is a history of the store's atomic effects; nothing reads it. */
  datatype State = State(held: Holdings, free: set<int>, content: Bytes, locks: map<Key, nat>,
                         workers: seq<Worker>, log: seq<Event>)

  /** rank is the address of each key's state object, by which lock sets are sorted. */
  datatype Config = Config(l: Layout, rank: Key -> nat)

  datatype Action =
    | Begin(req: Request)
    | Acquire
    | Enter
    | Reserve(entry: Option<Entry>)
    | StartWrite
    | WriteCommand(cmd: Command, ok: bool, junk: Bytes)
    | Scramble(cmd: Command, junk: Bytes)
    | WriteUnavailable
    | FinishWrite
    | RollBackOne
    | RetireOne
    | ReadCommand(cmd: Command, ok: bool)
    | ReadUnavailable
    | FinishRead
    | Unlock

  // ----- lock order ------------------------------------------------------------------------------

  ghost predicate Ranked(c: Config, order: seq<Key>) {
    forall i, j | 0 <= i < j < |order| :: c.rank(order[i]) < c.rank(order[j])
  }

  ghost predicate DistinctRanks(c: Config) {
    forall k, k' | c.rank(k) == c.rank(k') :: k == k'
  }

  /** Insertion into a ranked list; a key already present stays single. */
  function Insert(c: Config, k: Key, order: seq<Key>): seq<Key> {
    if order == [] || c.rank(k) < c.rank(order[0]) then [k] + order
    else if c.rank(k) == c.rank(order[0]) then order
    else [order[0]] + Insert(c, k, order[1..])
  }

  /** LockStates: the distinct states of a request, sorted by address. */
  function LockOrder(c: Config, keys: seq<Key>): seq<Key> {
    if keys == [] then [] else Insert(c, keys[0], LockOrder(c, keys[1..]))
  }

  lemma SameRank(c: Config, k: Key, k': Key)
    requires DistinctRanks(c)
    ensures c.rank(k) == c.rank(k') ==> k == k'
  {}

  lemma {:induction false} InsertRanked(c: Config, k: Key, order: seq<Key>)
    requires DistinctRanks(c) && Ranked(c, order)
    ensures Ranked(c, Insert(c, k, order))
    ensures forall x :: x in Insert(c, k, order) <==> x == k || x in order
  {
    hide DistinctRanks;
    if order == [] || c.rank(k) < c.rank(order[0]) {
    } else if c.rank(k) == c.rank(order[0]) {
      SameRank(c, k, order[0]);
    } else {
      var tail, rest := order[1..], Insert(c, k, order[1..]);
      assert order == [order[0]] + tail;
      InsertRanked(c, k, tail);
      forall j | 0 <= j < |rest| ensures c.rank(order[0]) < c.rank(rest[j]) {
        assert rest[j] in rest;
        if rest[j] != k {
          var i :| 0 <= i < |tail| && tail[i] == rest[j];
          assert order[i + 1] == rest[j];
        }
      }
    }
  }

  /** The lock order holds exactly the request's keys, each once, by ascending address. */
  lemma {:induction false} LockOrderRanked(c: Config, keys: seq<Key>)
    requires DistinctRanks(c)
    ensures Ranked(c, LockOrder(c, keys))
    ensures forall k :: k in LockOrder(c, keys) <==> k in keys
  {
    if keys == [] {
    } else {
      LockOrderRanked(c, keys[1..]);
      InsertRanked(c, keys[0], LockOrder(c, keys[1..]));
      assert keys == [keys[0]] + keys[1..];
    }
  }

  // ----- the abstract store ----------------------------------------------------------------------

  /** The bytes readable under key k. */
  ghost function AbsAt(c: Config, s: State, k: Key): Option<Bytes> {
    if Published(k) in s.held then Some(Value(c.l, s.content, s.held[Published(k)])) else None
  }

  /** A batch store of distinct keys: a value of another size stays, everything else is replaced. */
  function Applied(prior: Option<Bytes>, parts: seq<Part>, k: Key): Option<Bytes> {
    if parts == [] then prior
    else if parts[0].key == k then
      if prior.Some? && |prior.value| != |parts[0].buffer| then prior else Some(parts[0].buffer)
    else Applied(prior, parts[1..], k)
  }

  function After(prior: Option<Bytes>, e: Event, k: Key): Option<Bytes> {
    match e
    case Stored(_, parts) => Applied(prior, parts, k)
    case Deleted(_, key) => if key == k then None else prior
  }

  /** What the history says about key k. */
  function Replay(log: seq<Event>, k: Key): Option<Bytes> {
    if log == [] then None else After(Replay(log[..|log| - 1], k), log[|log| - 1], k)
  }

  // ----- the pieces of a step --------------------------------------------------------------------

  function KeysOf(parts: seq<Part>): (keys: seq<Key>)
    ensures |keys| == |parts| && forall i | 0 <= i < |parts| :: keys[i] == parts[i].key
  {
    seq(|parts|, i requires 0 <= i < |parts| => parts[i].key)
  }

  /** A load or store whose published entry has the buffer's size. */
  predicate Matches(held: Holdings, part: Part) {
    Published(part.key) in held && held[Published(part.key)].logicalSize == |part.buffer|
  }

  /** A store of another size than the published entry's: silently skipped. */
  predicate Mismatch(held: Holdings, part: Part) {
    Published(part.key) in held && held[Published(part.key)].logicalSize != |part.buffer|
  }

  /** The commands of the entry held by h. */
  function CommandsAt(c: Config, held: Holdings, h: Holder): seq<IoBatchItem>
    requires c.l.Valid()
  {
    if h in held then SegmentsOf(c.l, held[h]) else []
  }

  function CommandIndexes(p: nat, count: nat): set<Command> {
    set q: nat | 0 <= q < count :: (p, q)
  }

  /** All commands of the first n reservations of a store. */
  function WriteCommands(c: Config, held: Holdings, w: nat, n: nat): set<Command>
    requires c.l.Valid()
  {
    if n == 0 then {}
    else WriteCommands(c, held, w, n - 1) + CommandIndexes(n - 1, |CommandsAt(c, held, Reserved(w, n - 1))|)
  }

  /** All commands of the first n parts of a load, missing keys and wrong sizes left out. */
  function ReadCommands(c: Config, held: Holdings, parts: seq<Part>, n: nat): set<Command>
    requires c.l.Valid() && n <= |parts|
  {
    if n == 0 then {}
    else
      var before, part := ReadCommands(c, held, parts, n - 1), parts[n - 1];
      if Matches(held, part) then
        before + CommandIndexes(n - 1, |CommandsAt(c, held, Published(part.key))|)
      else before
  }

  /** Publication: each reservation's entry goes to its key, the key's old entry to retirement. */
  function PublishFirst(held: Holdings, w: nat, parts: seq<Part>, rs: seq<nat>, m: nat): Holdings
    requires m <= |rs| && forall p | 0 <= p < |rs| :: rs[p] < |parts|
  {
    if m == 0 then held
    else
      var before := PublishFirst(held, w, parts, rs, m - 1);
      var P, R, T := Published(parts[rs[m - 1]].key), Reserved(w, m - 1), Retiring(w, m - 1);
      var vacated := if P in before then (before - {P})[T := before[P]] else before;
      if R in vacated then (vacated - {R})[P := vacated[R]] else vacated
  }

  /** The entry a command belongs to. */
  ghost predicate IsCommand(c: Config, held: Holdings, h: Holder, q: nat, content: Bytes) {
    && c.l.Valid() && h in held && EntryOk(c.l, held[h]) && q < |SegmentsOf(c.l, held[h])|
    && |content| == c.l.Capacity()
    && var item := SegmentsOf(c.l, held[h])[q];
       0 <= item.byteOffset && item.byteOffset + item.physicalLength <= |content|
       && item.logicalLength <= item.physicalLength && item.bufferOffset + item.logicalLength <= held[h].logicalSize
  }

  // ----- steps -----------------------------------------------------------------------------------

  ghost predicate Enabled(c: Config, s: State, w: nat, a: Action)
    requires c.l.Valid()
  {
    && w < |s.workers|
    && var me := s.workers[w];
       var parts := me.req.parts;
       match a
       case Begin(req) => me.stage.Idle? && (req.kind in {Delete, Exists} ==> |req.parts| == 1)
       case Acquire => me.stage.Locking? && me.got < |me.order| && me.order[me.got] !in s.locks
       case Enter => me.stage.Locking? && me.got == |me.order| && (me.req.kind in {Delete, Exists} ==> |parts| == 1)
       case Reserve(entry) =>
         && me.stage.Reserving? && me.stage.next < |parts|
         && var part := parts[me.stage.next];
            var asks := part.key !in KeysOf(parts[..me.stage.next]) && part.buffer != [] && !Mismatch(s.held, part);
            if entry.Some? then asks && Allocatable(c.l, s.free, |part.buffer|, entry.value)
            else asks ==> |s.free| * c.l.page < |part.buffer|
       case StartWrite => me.stage.Reserving? && me.stage.next == |parts|
       case WriteCommand(cmd, ok, junk) => CanWrite(c, s, w, cmd) && |junk| == WriteItem(c, s, w, cmd).physicalLength
       case Scramble(cmd, junk) => CanWrite(c, s, w, cmd) && |junk| == WriteItem(c, s, w, cmd).physicalLength
       case WriteUnavailable =>
         me.stage.Writing? && {} != me.stage.todo == WriteCommands(c, s.held, w, |me.stage.rs|)
       case FinishWrite => me.stage.Writing? && me.stage.todo == {} && forall p | 0 <= p < |me.stage.rs| :: me.stage.rs[p] < |parts|
       case RollBackOne => me.stage.RollingBack?
       case RetireOne => me.stage.Retire?
       case ReadCommand(cmd, ok) => CanRead(c, s, w, cmd)
       case ReadUnavailable => me.stage.Reading? && {} != me.stage.todo == ReadCommands(c, s.held, parts, |parts|)
       case FinishRead => me.stage.Reading? && me.stage.todo == {}
       case Unlock => me.stage.Finished? && me.freed <= me.got <= |me.order|
  }

  ghost predicate CanWrite(c: Config, s: State, w: nat, cmd: Command) {
    && w < |s.workers|
    && var me := s.workers[w];
       && me.stage.Writing? && cmd in me.stage.todo
       && IsCommand(c, s.held, Reserved(w, cmd.0), cmd.1, s.content)
       && cmd.0 < |me.stage.rs| && me.stage.rs[cmd.0] < |me.req.parts|
       && s.held[Reserved(w, cmd.0)].logicalSize == |me.req.parts[me.stage.rs[cmd.0]].buffer|
  }

  ghost function WriteItem(c: Config, s: State, w: nat, cmd: Command): IoBatchItem
    requires CanWrite(c, s, w, cmd)
  {
    SegmentsOf(c.l, s.held[Reserved(w, cmd.0)])[cmd.1]
  }

  ghost predicate CanRead(c: Config, s: State, w: nat, cmd: Command) {
    && w < |s.workers|
    && var me := s.workers[w];
       && me.stage.Reading? && cmd in me.stage.todo
       && cmd.0 < |me.req.parts| == |me.stage.success| == |me.stage.out|
       && IsCommand(c, s.held, Published(me.req.parts[cmd.0].key), cmd.1, s.content)
       && s.held[Published(me.req.parts[cmd.0].key)].logicalSize == |me.stage.out[cmd.0]|
  }

  ghost function ReadItem(c: Config, s: State, w: nat, cmd: Command): IoBatchItem
    requires CanRead(c, s, w, cmd)
  {
    SegmentsOf(c.l, s.held[Published(s.workers[w].req.parts[cmd.0].key)])[cmd.1]
  }

  ghost function SetStage(s: State, w: nat, stage: Stage): State
    requires w < |s.workers|
  {
    s.(workers := s.workers[w := s.workers[w].(stage := stage)])
  }

  ghost function Next(c: Config, s: State, w: nat, a: Action): State
    requires c.l.Valid() && Enabled(c, s, w, a)
  {
    var me := s.workers[w];
    var parts := me.req.parts;
    match a
    case Begin(req) =>
      s.(workers := s.workers[w := Worker(req, LockOrder(c, KeysOf(req.parts)), 0, 0, Locking, |s.log|)])
    case Acquire =>
      s.(locks := s.locks[me.order[me.got] := w], workers := s.workers[w := me.(got := me.got + 1)])
    case Enter => EnterNext(c, s, w)
    case Reserve(entry) => ReserveNext(c, s, w, entry)
    case StartWrite =>
      SetStage(s, w, Writing(me.stage.rs, WriteCommands(c, s.held, w, |me.stage.rs|), false))
    case WriteCommand(cmd, ok, junk) =>
      var item, buffer := WriteItem(c, s, w, cmd), parts[me.stage.rs[cmd.0]].buffer;
      var bytes := if ok then Staged(Slice(buffer, item), item.physicalLength) else junk;
      SetStage(s.(content := Overwrite(s.content, item.byteOffset, bytes)), w,
               Writing(me.stage.rs, me.stage.todo - {cmd}, me.stage.failed || !ok))
    case Scramble(cmd, junk) =>
      s.(content := Overwrite(s.content, WriteItem(c, s, w, cmd).byteOffset, junk))
    case WriteUnavailable => SetStage(s, w, RollingBack(me.stage.rs, 0))
    case FinishWrite =>
      if me.stage.failed then SetStage(s, w, RollingBack(me.stage.rs, 0))
      else SetStage(s.(held := PublishFirst(s.held, w, parts, me.stage.rs, |me.stage.rs|), log := s.log + [Stored(w, parts)]),
                    w, Retire(|me.stage.rs|, 0))
    case RollBackOne =>
      var rs, next := me.stage.rs, me.stage.next;
      if next < |rs| then SetStage(Released(s, Reserved(w, next)), w, RollingBack(rs, next + 1))
      else SetStage(s, w, Finished([false], []))
    case RetireOne =>
      var count, next := me.stage.count, me.stage.next;
      if next < count then SetStage(Released(s, Retiring(w, next)), w, Retire(count, next + 1))
      else SetStage(s, w, Finished([true], []))
    case ReadCommand(cmd, ok) =>
      var item := ReadItem(c, s, w, cmd);
      var out := me.stage.out[cmd.0];
      var bytes := s.content[item.byteOffset..item.byteOffset + item.logicalLength];
      SetStage(s, w, Reading(me.stage.todo - {cmd},
                             if ok then me.stage.success else me.stage.success[cmd.0 := false],
                             if ok then me.stage.out[cmd.0 := Overwrite(out, item.bufferOffset, bytes)] else me.stage.out))
    case ReadUnavailable => SetStage(s, w, Finished(seq(|me.stage.success|, _ => false), me.stage.out))
    case FinishRead => SetStage(s, w, Finished(me.stage.success, me.stage.out))
    case Unlock =>
      if me.freed < me.got then
        s.(locks := s.locks - {me.order[me.freed]}, workers := s.workers[w := me.(freed := me.freed + 1)])
      else s.(workers := s.workers[w := Worker(me.req, [], 0, 0, Idle, me.since)])
  }

  /** The allocator takes an entry's pages back. */
  ghost function Released(s: State, h: Holder): State {
    if h in s.held then s.(held := s.held - {h}, free := s.free + Pages(s.held[h])) else s
  }

  // All key locks are held: the body of the operation starts.
  ghost function EnterNext(c: Config, s: State, w: nat): State
    requires c.l.Valid() && Enabled(c, s, w, Enter)
  {
    var parts := s.workers[w].req.parts;
    match s.workers[w].req.kind
    case Set => SetStage(s, w, Reserving(0, []))
    case Get =>
      SetStage(s, w, Reading(ReadCommands(c, s.held, parts, |parts|),
                             seq(|parts|, i requires 0 <= i < |parts| => Matches(s.held, parts[i])),
                             seq(|parts|, i requires 0 <= i < |parts| => parts[i].buffer)))
    case Delete =>
      var P, T := Published(parts[0].key), Retiring(w, 0);
      if P in s.held then
        SetStage(s.(held := (s.held - {P})[T := s.held[P]], log := s.log + [Deleted(w, parts[0].key)]), w, Retire(1, 0))
      else SetStage(s, w, Finished([false], []))
    case Exists => SetStage(s, w, Finished([Published(parts[0].key) in s.held], []))
  }

  // One round of the reservation loop. No entry: the key repeats, the value is empty, the key is skipped,
  // or the allocator refuses.
  ghost function ReserveNext(c: Config, s: State, w: nat, entry: Option<Entry>): State
    requires c.l.Valid() && Enabled(c, s, w, Reserve(entry))
  {
    var me := s.workers[w];
    var next, rs := me.stage.next, me.stage.rs;
    var part := me.req.parts[next];
    if part.key in KeysOf(me.req.parts[..next]) || part.buffer == [] then SetStage(s, w, RollingBack(rs, 0))
    else if Mismatch(s.held, part) then SetStage(s, w, Reserving(next + 1, rs))
    else if entry.None? then SetStage(s, w, RollingBack(rs, 0))
    else
      SetStage(s.(held := s.held[Reserved(w, |rs|) := entry.value], free := s.free - Pages(entry.value)),
               w, Reserving(next + 1, rs + [next]))
  }

  ghost predicate Init(c: Config, s: State) {
    && c.l.Valid() && DistinctRanks(c)
    && s.held == map[] && s.free == Interval(0, c.l.pageCount) && |s.content| == c.l.Capacity()
    && s.locks == map[] && s.log == []
    && forall w | 0 <= w < |s.workers| ::
         s.workers[w].stage.Idle? && s.workers[w].order == [] && s.workers[w].got == s.workers[w].freed == 0
  }
}
