/** The clipboard store as a transition system: any number of copies and pastes,
    the garbage collector, expiry, DropAll and crashes, one atomic step a time. */
module Store {
  import opened GoInt
  import opened Wrappers

  /** A ULID is a 128-bit number. */
  const ULID_LIMIT: nat := 0x1_0000_0000_0000_0000_0000_0000_0000_0000

  /** The record under the LATEST key. It is visible until its time to live ends. */
  datatype Clipboard = Clipboard(
    sequence: nat, expireAt: int, compressed: bool,
    masterKeyNonce: Bytes, keyNonce: Bytes, iv: Bytes, checksum: Bytes, size: nat)

  /** A chunk key `<version>/<ulid>/chunk`. */
  datatype ChunkId = ChunkId(version: nat, ulid: nat)

  datatype StoredChunk = StoredChunk(ulid: nat, data: Bytes)

  /** What the database holds: the LATEST and PENDING keys and the chunk keys. */
  datatype Db = Db(latest: Option<Clipboard>, pending: set<nat>, chunks: map<ChunkId, Bytes>)

  /** A copy in progress: the chunks it has set so far; the first `published` of
      them are in the database, the others in its write batch. */
  datatype Phase = Writing | Finished | Closing | Released

  datatype CopyState = CopyState(phase: Phase, locked: bool, chunks: seq<StoredChunk>, published: nat,
      index: Option<Clipboard>)

  /** The mutex around PENDING, and what its holder has read of PENDING. */
  datatype Mutex = Free | Held(version: nat, seen: set<nat>)

  /** A transaction sees the database as it was when it began. */
  datatype PasteState = Opened(snapshot: Db) | Reading(snapshot: Db, index: Clipboard)

  datatype Gc = NoGc | GcOpened(snapshot: Db) | GcRunning(snapshot: Db, keep: Option<nat>, locked: set<nat>)

  datatype State = State(
    db: Db, now: int, nextVersion: nat, nextUlid: nat,
    writers: map<nat, CopyState>, mutex: Mutex, readers: map<nat, PasteState>, gc: Gc,
    leaked: set<nat>)

  datatype Event =
    | Tick
    | Begin(version: nat)
    | Draw(ulid: nat)
    | SetEntry(version: nat, ulid: nat, data: Bytes)
    | LockRead(version: nat)
    | LockWrite(version: nat)
    | LockFail(version: nat)
    | FlushPart(version: nat, upTo: nat)
    | Finish(version: nat, index: Clipboard)
    | UnlockRead(version: nat)
    | UnlockWrite(version: nat)
    | UnlockFail(version: nat)
    | ReadBegin(reader: nat)
    | ReadIndex(reader: nat)
    | ReadEnd(reader: nat)
    | GcBegin
    | GcIndex
    | GcCommit(deleted: set<ChunkId>)
    | GcEnd
    | DropAll
    | Crash

  const EMPTY_DB := Db(None, {}, map[])

  function Init(): State {
    State(EMPTY_DB, 0, 0, 0, map[], Free, map[], NoGc, {})
  }

  /** The LATEST record as a `Get` at time `now` finds it. */
  function Visible(db: Db, now: int): Option<Clipboard> {
    if db.latest.Some? && now < db.latest.value.expireAt then db.latest else None
  }

  /** The entries a batch adds to the chunk keys. */
  function Put(chunks: map<ChunkId, Bytes>, v: nat, cs: seq<StoredChunk>): map<ChunkId, Bytes> {
    if cs == [] then chunks
    else Put(chunks, v, cs[..|cs| - 1])[ChunkId(v, cs[|cs| - 1].ulid) := cs[|cs| - 1].data]
  }

  /** The keys a collector run may delete. */
  function Garbage(gc: Gc): set<ChunkId> {
    if gc.GcRunning? then
      set id | id in gc.snapshot.chunks && gc.keep != Some(id.version) && id.version !in gc.locked
    else {}
  }

  predicate InPhase(s: State, v: nat, phase: Phase) {
    v in s.writers && s.writers[v].phase == phase
  }

  predicate Holds(s: State, v: nat) {
    s.mutex.Held? && s.mutex.version == v
  }

  predicate Enabled(s: State, e: Event) {
    match e
    case Tick => true
    case Begin(v) => v >= s.nextVersion
    case Draw(u) => s.nextUlid <= u < ULID_LIMIT
    case SetEntry(v, u, _) =>
      && InPhase(s, v, Writing) && u < s.nextUlid
      && (forall c :: c in s.writers[v].chunks ==> c.ulid < u)
    case LockRead(v) => InPhase(s, v, Writing) && !s.writers[v].locked && s.mutex == Free
    case LockWrite(v) => InPhase(s, v, Writing) && Holds(s, v)
    case LockFail(v) => InPhase(s, v, Writing) && Holds(s, v)
    case FlushPart(v, n) =>
      InPhase(s, v, Writing) && s.writers[v].locked && s.writers[v].published <= n <= |s.writers[v].chunks|
    case Finish(v, index) => InPhase(s, v, Writing) && index.sequence == v && !Holds(s, v)
    case UnlockRead(v) => (InPhase(s, v, Writing) || InPhase(s, v, Finished)) && s.mutex == Free
    case UnlockWrite(v) => InPhase(s, v, Closing) && Holds(s, v)
    case UnlockFail(v) => InPhase(s, v, Closing) && Holds(s, v)
    case ReadBegin(r) => r !in s.readers
    case ReadIndex(r) => r in s.readers && s.readers[r].Opened? && Visible(s.readers[r].snapshot, s.now).Some?
    case ReadEnd(r) => r in s.readers
    case GcBegin => s.gc == NoGc
    case GcIndex => s.gc.GcOpened?
    case GcCommit(deleted) => s.gc.GcRunning? && deleted <= Garbage(s.gc)
    case GcEnd => s.gc != NoGc
    case DropAll =>
      (forall v :: v in s.writers ==> s.writers[v].phase == Released) && s.readers == map[] && s.gc == NoGc
    case Crash => true
  }

  /** The versions that have locked and not yet released. */
  function LockedActive(s: State): set<nat> {
    set v | v in s.writers && s.writers[v].locked && s.writers[v].phase != Released
  }

  /** The copy an event belongs to. */
  function Owner(e: Event): Option<nat> {
    match e
    case SetEntry(v, _, _) => Some(v)
    case LockRead(v) => Some(v)
    case LockWrite(v) => Some(v)
    case LockFail(v) => Some(v)
    case FlushPart(v, _) => Some(v)
    case Finish(v, _) => Some(v)
    case UnlockRead(v) => Some(v)
    case UnlockWrite(v) => Some(v)
    case UnlockFail(v) => Some(v)
    case _ => None
  }

  /** What an event of its own does to a copy. */
  function NextWriter(w: CopyState, e: Event): CopyState {
    match e
    case SetEntry(_, u, data) => w.(chunks := w.chunks + [StoredChunk(u, data)])
    case LockWrite(_) => w.(locked := true)
    case FlushPart(_, n) => w.(published := n)
    case Finish(_, index) => w.(published := |w.chunks|, phase := Finished, index := Some(index))
    case UnlockRead(_) => w.(phase := Closing)
    case UnlockWrite(_) => w.(phase := Released)
    case UnlockFail(_) => w.(phase := Released)
    case _ => w
  }

  function NextWriters(s: State, e: Event): map<nat, CopyState> {
    match e
    case Begin(v) => s.writers[v := CopyState(Writing, false, [], 0, None)]
    case Crash => map v | v in s.writers :: s.writers[v].(phase := Released)
    case _ =>
      var v := Owner(e);
      if v.Some? && v.value in s.writers then s.writers[v.value := NextWriter(s.writers[v.value], e)] else s.writers
  }

  /** What a writer's flush publishes. */
  function Flushed(w: CopyState, n: nat): seq<StoredChunk> {
    if w.published <= n <= |w.chunks| then w.chunks[w.published..n] else []
  }

  function NextChunks(s: State, e: Event): map<ChunkId, Bytes> {
    match e
    case FlushPart(v, n) => if v in s.writers then Put(s.db.chunks, v, Flushed(s.writers[v], n)) else s.db.chunks
    case Finish(v, _) =>
      if v in s.writers then Put(s.db.chunks, v, Flushed(s.writers[v], |s.writers[v].chunks|)) else s.db.chunks
    case GcCommit(deleted) => s.db.chunks - deleted
    case DropAll => map[]
    case _ => s.db.chunks
  }

  function NextLatest(s: State, e: Event): Option<Clipboard> {
    match e
    case Finish(_, index) => Some(index)
    case DropAll => None
    case _ => s.db.latest
  }

  function NextPending(s: State, e: Event): set<nat> {
    match e
    case LockWrite(v) => if s.mutex.Held? then s.mutex.seen + {v} else s.db.pending
    case UnlockWrite(v) => if s.mutex.Held? then s.mutex.seen - {v} else s.db.pending
    case DropAll => {}
    case _ => s.db.pending
  }

  function NextMutex(s: State, e: Event): Mutex {
    match e
    case LockRead(v) => Held(v, s.db.pending)
    case UnlockRead(v) => Held(v, s.db.pending)
    case LockWrite(_) => Free
    case LockFail(_) => Free
    case UnlockWrite(_) => Free
    case UnlockFail(_) => Free
    case Crash => Free
    case _ => s.mutex
  }

  function NextReaders(s: State, e: Event): map<nat, PasteState> {
    match e
    case ReadBegin(r) => s.readers[r := Opened(s.db)]
    case ReadIndex(r) =>
      if r in s.readers && s.readers[r].snapshot.latest.Some? then
        s.readers[r := Reading(s.readers[r].snapshot, s.readers[r].snapshot.latest.value)]
      else s.readers
    case ReadEnd(r) => s.readers - {r}
    case Crash => map[]
    case _ => s.readers
  }

  function NextGc(s: State, e: Event): Gc {
    match e
    case GcBegin => GcOpened(s.db)
    case GcIndex =>
      if s.gc == NoGc then s.gc
      else
        var index := Visible(s.gc.snapshot, s.now);
        GcRunning(s.gc.snapshot, if index.Some? then Some(index.value.sequence) else None, s.gc.snapshot.pending)
    case GcEnd => NoGc
    case Crash => NoGc
    case _ => s.gc
  }

  function NextLeaked(s: State, e: Event): set<nat> {
    match e
    case UnlockFail(v) => if v in s.writers && s.writers[v].locked then s.leaked + {v} else s.leaked
    case DropAll => {}
    case Crash => s.leaked + LockedActive(s)
    case _ => s.leaked
  }

  function Next(s: State, e: Event): State {
    State(
      Db(NextLatest(s, e), NextPending(s, e), NextChunks(s, e)),
      if e.Tick? then s.now + 1 else s.now,
      if e.Begin? then e.version + 1 else s.nextVersion,
      if e.Draw? then e.ulid + 1 else s.nextUlid,
      NextWriters(s, e), NextMutex(s, e), NextReaders(s, e), NextGc(s, e), NextLeaked(s, e))
  }

  /** A run: every event is enabled where it happens. */
  ghost predicate Run(s: State, es: seq<Event>, t: State)
    decreases |es|
  {
    if es == [] then s == t
    else Enabled(s, es[0]) && Run(Next(s, es[0]), es[1..], t)
  }

  // ----------------------------------------------------------------- meaning

  /** The chunk keys of version v in `chunks` are exactly cs. */
  ghost predicate Exactly(chunks: map<ChunkId, Bytes>, v: nat, cs: seq<StoredChunk>) {
    && (forall i :: 0 <= i < |cs| ==> Stored(chunks, v, cs[i]))
    && (forall id :: id in chunks && id.version == v ==> Listed(cs, id.ulid, chunks[id]))
  }

  predicate Stored(chunks: map<ChunkId, Bytes>, v: nat, c: StoredChunk) {
    ChunkId(v, c.ulid) in chunks && chunks[ChunkId(v, c.ulid)] == c.data
  }

  predicate Listed(cs: seq<StoredChunk>, ulid: nat, data: Bytes) {
    StoredChunk(ulid, data) in cs
  }

  /** What LATEST names is complete: all the chunks its copy wrote, and no others. */
  ghost predicate LatestComplete(s: State) {
    var index := Visible(s.db, s.now);
    index.Some? ==>
      var v := index.value.sequence;
      && v in s.writers && s.writers[v].index == Some(index.value)
      && Exactly(s.db.chunks, v, s.writers[v].chunks)
  }

  /** v will never again be what LATEST names. */
  predicate Dead(s: State, v: nat) {
    && v in s.writers && s.writers[v].phase != Writing
    && (Visible(s.db, s.now).Some? ==> Visible(s.db, s.now).value.sequence != v)
  }
}
