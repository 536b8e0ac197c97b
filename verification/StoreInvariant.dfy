/** The invariant of the store, and that every step keeps it. */
module StoreInvariant {
  import opened GoInt
  import opened Wrappers
  import opened Store

  // ------------------------------------------------------- the invariant

  ghost predicate Ascending(cs: seq<StoredChunk>) {
    forall i, j :: 0 <= i < j < |cs| ==> cs[i].ulid < cs[j].ulid
  }

  ghost predicate Below(cs: seq<StoredChunk>, ulid: nat) {
    forall c :: c in cs ==> c.ulid < ulid
  }

  /** What a copy has published, and when it has locked and written LATEST. */
  predicate FlagsOk(w: CopyState, v: nat) {
    && w.published <= |w.chunks|
    && (w.phase == Writing ==> w.index == None && (w.published > 0 ==> w.locked))
    && (w.phase == Finished ==> w.index.Some?)
    && (w.index.Some? ==> w.index.value.sequence == v && w.published == |w.chunks|)
  }

  /** Versions and ULIDs were handed out; a writer's ULIDs ascend. */
  ghost predicate WriterOk(s: State, v: nat)
    requires v in s.writers
  {
    var w := s.writers[v];
    v < s.nextVersion && FlagsOk(w, v) && Below(w.chunks, s.nextUlid) && Ascending(w.chunks)
  }

  ghost predicate WritersOk(s: State) {
    s.nextUlid <= ULID_LIMIT && forall v :: v in s.writers ==> WriterOk(s, v)
  }

  /** A key's content was published by the copy of its version. */
  predicate FromWriter(s: State, id: ChunkId, data: Bytes) {
    && id.version in s.writers
    && s.writers[id.version].published <= |s.writers[id.version].chunks|
    && Listed(s.writers[id.version].chunks[..s.writers[id.version].published], id.ulid, data)
  }

  /** No chunk key comes from anywhere else. */
  ghost predicate ChunksOk(s: State, chunks: map<ChunkId, Bytes>) {
    forall id :: id in chunks ==> FromWriter(s, id, chunks[id])
  }

  /** Versions whose published chunks must all be there. */
  predicate Live(s: State, v: nat) {
    && v in s.writers
    && (s.writers[v].phase == Writing ||
        (Visible(s.db, s.now).Some? && Visible(s.db, s.now).value.sequence == v))
  }

  ghost predicate AllStored(chunks: map<ChunkId, Bytes>, v: nat, w: CopyState) {
    forall i :: 0 <= i < w.published && i < |w.chunks| ==> Stored(chunks, v, w.chunks[i])
  }

  ghost predicate LiveOk(s: State) {
    forall v :: Live(s, v) ==> AllStored(s.db.chunks, v, s.writers[v])
  }

  /** A LATEST record was written by the copy it names, at its end. */
  predicate IndexOk(s: State, latest: Option<Clipboard>) {
    latest.Some? ==>
      var v := latest.value.sequence;
      v in s.writers && s.writers[v].index == latest
  }

  ghost predicate PendingOk(s: State) {
    && s.db.pending == LockedActive(s) + s.leaked
    && (forall v :: v in s.leaked ==> v in s.writers && s.writers[v].phase == Released && s.writers[v].locked)
  }

  ghost predicate MutexOk(s: State) {
    s.mutex.Held? ==>
      && s.mutex.seen == s.db.pending
      && s.mutex.version in s.writers
      && var w := s.writers[s.mutex.version];
         (w.phase == Writing && !w.locked) || w.phase == Closing
  }

  /** A snapshot of the database, however old: each of its chunk keys is of a
      pending version, of the version its LATEST names, or of a dead one. */
  ghost predicate SnapshotOk(s: State, sn: Db) {
    && ChunksOk(s, sn.chunks)
    && IndexOk(s, sn.latest)
    && (forall id :: id in sn.chunks ==> Sheltered(s, sn, id.version))
  }

  predicate Sheltered(s: State, sn: Db, v: nat) {
    && (v in sn.pending || (sn.latest.Some? && sn.latest.value.sequence == v) || Dead(s, v))
    && (v in s.db.pending ==> v in sn.pending)
  }

  ghost predicate GcOk(s: State) {
    && (s.gc != NoGc ==> SnapshotOk(s, s.gc.snapshot))
    && (s.gc.GcRunning? ==> s.gc.locked == s.gc.snapshot.pending)
    && (forall id :: id in Garbage(s.gc) ==> Dead(s, id.version))
  }

  /** A reader's snapshot holds all the chunks of the version its LATEST names. */
  ghost predicate ReaderOk(s: State, r: PasteState) {
    && IndexOk(s, r.snapshot.latest)
    && (r.Opened? && Visible(r.snapshot, s.now).Some? ==> SnapshotComplete(s, r.snapshot, r.snapshot.latest.value))
    && (r.Reading? ==> r.snapshot.latest == Some(r.index) && SnapshotComplete(s, r.snapshot, r.index))
  }

  ghost predicate SnapshotComplete(s: State, sn: Db, index: Clipboard) {
    index.sequence in s.writers && Exactly(sn.chunks, index.sequence, s.writers[index.sequence].chunks)
  }

  ghost predicate ReadersOk(s: State) {
    forall r :: r in s.readers ==> ReaderOk(s, s.readers[r])
  }

  ghost predicate Inv(s: State) {
    && WritersOk(s)
    && ChunksOk(s, s.db.chunks)
    && LiveOk(s)
    && IndexOk(s, s.db.latest)
    && PendingOk(s)
    && MutexOk(s)
    && GcOk(s)
    && ReadersOk(s)
  }

  lemma VisibleIs(sn: Db, at: int)
    ensures Visible(sn, at) == if sn.latest.Some? && at < sn.latest.value.expireAt then sn.latest else None
  {}

  lemma InitOk()
    ensures Inv(Init())
  {
    assert LockedActive(Init()) == {};
  }

  // ------------------------------------------------------------ batch entries

  lemma {:induction false} PutKeys(chunks: map<ChunkId, Bytes>, v: nat, cs: seq<StoredChunk>)
    requires forall i, j :: 0 <= i < j < |cs| ==> cs[i].ulid < cs[j].ulid
    ensures forall i :: 0 <= i < |cs| ==> Stored(Put(chunks, v, cs), v, cs[i])
    ensures forall id :: id in Put(chunks, v, cs) ==>
      || (id in chunks && Put(chunks, v, cs)[id] == chunks[id])
      || (id.version == v && Listed(cs, id.ulid, Put(chunks, v, cs)[id]))
    ensures forall id :: id in chunks && (id.version != v || forall c :: c in cs ==> c.ulid != id.ulid) ==>
      id in Put(chunks, v, cs) && Put(chunks, v, cs)[id] == chunks[id]
  {
    if cs != [] {
      var n := |cs| - 1;
      PutKeys(chunks, v, cs[..n]);
      assert cs == cs[..n] + [cs[n]];
      forall i | 0 <= i < |cs| ensures Stored(Put(chunks, v, cs), v, cs[i]) {
        if i < n { assert Stored(Put(chunks, v, cs[..n]), v, cs[..n][i]); }
      }
      forall id | id in Put(chunks, v, cs)
        ensures
          || (id in chunks && Put(chunks, v, cs)[id] == chunks[id])
          || (id.version == v && Listed(cs, id.ulid, Put(chunks, v, cs)[id]))
      {
        if id == ChunkId(v, cs[n].ulid) { assert cs[n] in cs; }
      }
    }
  }

  // ------------------------------------------------------------ one step ahead

  /** How a writer can change: what it has published stays, and a writer that is
      past writing changes nothing but its phase. */
  predicate WriterEvolves(w: CopyState, w': CopyState) {
    && w.chunks <= w'.chunks && w.published <= w'.published && (w.locked ==> w'.locked)
    && (w.phase != Writing ==>
          w'.phase != Writing && w'.chunks == w.chunks && w'.published == w.published
          && w'.index == w.index && w'.locked == w.locked)
    && (w.index.Some? ==> w'.index == w.index)
  }

  ghost predicate Evolves(s: State, t: State) {
    && s.now <= t.now && s.nextVersion <= t.nextVersion && s.nextUlid <= t.nextUlid
    && (forall v :: v in s.writers ==> v in t.writers && WriterEvolves(s.writers[v], t.writers[v]))
    && (forall v :: v in t.writers && v !in s.writers ==> v >= s.nextVersion)
    && (t.db.latest == s.db.latest || t.db.latest == None || EndedSince(s, t, t.db.latest))
  }

  /** LATEST is the record of a copy that ended between the two states. */
  predicate EndedSince(s: State, t: State, latest: Option<Clipboard>) {
    && latest.Some?
    && var v := latest.value.sequence;
       && v in t.writers && t.writers[v].index == latest
       && (v in s.writers ==> s.writers[v].index == None)
  }

  /** The record of a copy after a step. */
  lemma WriterAfter(s: State, e: Event, v: nat)
    requires Enabled(s, e) && v in s.writers && v < s.nextVersion
    ensures v in NextWriters(s, e)
    ensures NextWriters(s, e)[v] ==
      if e == Crash then s.writers[v].(phase := Released)
      else if Owner(e) == Some(v) then NextWriter(s.writers[v], e) else s.writers[v]
  {}

  lemma OwnStep(s: State, e: Event, v: nat)
    requires Enabled(s, e) && Owner(e) == Some(v)
    ensures v in s.writers && (s.writers[v].phase == Released ==> s.writers[v] == NextWriter(s.writers[v], e))
    ensures e.SetEntry? || e.FlushPart? || e.Finish? || e.LockWrite? ==> s.writers[v].phase == Writing
    ensures e.SetEntry? ==> Below(s.writers[v].chunks, e.ulid) && e.ulid < s.nextUlid
    ensures e.FlushPart? ==> s.writers[v].locked && s.writers[v].published <= e.upTo <= |s.writers[v].chunks|
    ensures e.Finish? ==> e.index.sequence == v
  {}

  lemma StepEvolves(s: State, e: Event)
    requires WritersOk(s) && Enabled(s, e)
    ensures Evolves(s, Next(s, e))
  {
    hide Enabled, NextWriters, NextChunks, NextLatest, NextPending, NextMutex, NextReaders, NextGc, NextLeaked,
      Ascending, Below;
    var t := Next(s, e);
    NewVersions(s, e);
    forall v | v in s.writers ensures v in t.writers && WriterEvolves(s.writers[v], t.writers[v]) {
      assert WriterOk(s, v);
      WriterAfter(s, e, v);
      if Owner(e) == Some(v) { OwnStep(s, e, v); }
    }
    if e.Finish? {
      FinishSetsLatest(s, e);
      WriterAfter(s, e, e.version);
    } else {
      OthersKeepLatest(s, e);
    }
  }

  lemma FinishSetsLatest(s: State, e: Event)
    requires WritersOk(s) && Enabled(s, e) && e.Finish?
    ensures NextLatest(s, e) == Some(e.index) && e.index.sequence == e.version
    ensures e.version in s.writers && e.version < s.nextVersion && s.writers[e.version].index == None
  {
    assert WriterOk(s, e.version);
  }

  lemma OthersKeepLatest(s: State, e: Event)
    requires !e.Finish?
    ensures NextLatest(s, e) == s.db.latest || NextLatest(s, e) == None
  {}

  lemma NewVersions(s: State, e: Event)
    requires Enabled(s, e)
    ensures Next(s, e).nextVersion >= s.nextVersion && Next(s, e).nextUlid >= s.nextUlid
    ensures s.nextUlid <= ULID_LIMIT ==> Next(s, e).nextUlid <= ULID_LIMIT
    ensures forall v :: v in NextWriters(s, e) && v !in s.writers ==>
      && v >= s.nextVersion && Next(s, e).nextVersion == v + 1
      && NextWriters(s, e)[v] == CopyState(Writing, false, [], 0, None)
  {
    hide NextChunks, NextLatest, NextPending, NextMutex, NextReaders, NextGc, NextLeaked;
  }

  lemma StepWriters(s: State, e: Event)
    requires WritersOk(s) && Enabled(s, e)
    ensures WritersOk(Next(s, e))
  {
    hide Enabled, NextWriters, NextWriter, NextChunks, NextLatest, NextPending, NextMutex, NextReaders, NextGc,
      NextLeaked, Ascending, Below;
    var t := Next(s, e);
    NewVersions(s, e);
    forall v | v in t.writers ensures WriterOk(t, v) {
      if v in s.writers {
        assert WriterOk(s, v);
        WriterAfter(s, e, v);
        if Owner(e) == Some(v) {
          OwnStep(s, e, v);
          FlagsAfter(s.writers[v], e, v);
          ChunksAfter(s.writers[v], e, s.nextUlid);
        }
        BelowMore(t.writers[v].chunks, s.nextUlid, t.nextUlid);
      } else {
        NoChunks(t.nextUlid);
      }
    }
  }

  lemma FlagsAfter(w: CopyState, e: Event, v: nat)
    requires FlagsOk(w, v) && Owner(e) == Some(v)
    requires e.SetEntry? || e.FlushPart? || e.Finish? || e.LockWrite? ==> w.phase == Writing
    requires e.FlushPart? ==> w.locked && w.published <= e.upTo <= |w.chunks|
    requires e.Finish? ==> e.index.sequence == v
    ensures FlagsOk(NextWriter(w, e), v)
  {}

  lemma ChunksAfter(w: CopyState, e: Event, ulid: nat)
    requires Ascending(w.chunks) && Below(w.chunks, ulid)
    requires e.SetEntry? ==> Below(w.chunks, e.ulid) && e.ulid < ulid
    ensures Ascending(NextWriter(w, e).chunks) && Below(NextWriter(w, e).chunks, ulid)
  {}

  lemma BelowMore(cs: seq<StoredChunk>, a: nat, b: nat)
    requires Below(cs, a) && a <= b
    ensures Below(cs, b)
  {}

  lemma NoChunks(ulid: nat)
    ensures Ascending([]) && Below([], ulid)
  {}

  lemma FromWriterStays(s: State, t: State, id: ChunkId, data: Bytes)
    requires Evolves(s, t) && WritersOk(t) && FromWriter(s, id, data)
    ensures FromWriter(t, id, data)
  {
    var w, w' := s.writers[id.version], t.writers[id.version];
    assert WriterEvolves(w, w') && WriterOk(t, id.version);
    var i :| 0 <= i < w.published && w.chunks[i] == StoredChunk(id.ulid, data);
    assert w'.chunks[..w'.published][i] == StoredChunk(id.ulid, data);
  }

  lemma ChunksStay(s: State, t: State, chunks: map<ChunkId, Bytes>)
    requires Evolves(s, t) && WritersOk(t) && ChunksOk(s, chunks)
    ensures ChunksOk(t, chunks)
  {
    hide FromWriter;
    forall id | id in chunks ensures FromWriter(t, id, chunks[id]) {
      FromWriterStays(s, t, id, chunks[id]);
    }
  }

  /** Publishing w's entries up to n: its own keys are there, */
  lemma PublishOwn(chunks: map<ChunkId, Bytes>, v: nat, w: CopyState, n: nat)
    requires w.published <= n <= |w.chunks| && Ascending(w.chunks) && AllStored(chunks, v, w)
    ensures AllStored(Put(chunks, v, Flushed(w, n)), v, w.(published := n))
  {
    hide Put;
    var added := w.chunks[w.published..n];
    PutKeys(chunks, v, added);
    forall i | 0 <= i < n ensures Stored(Put(chunks, v, added), v, w.chunks[i]) {
      if i < w.published {
        assert Stored(chunks, v, w.chunks[i]);
        LaterUlids(w.chunks, i, w.published, n);
      } else {
        assert added[i - w.published] == w.chunks[i];
      }
    }
  }

  lemma LaterUlids(cs: seq<StoredChunk>, i: nat, from: nat, n: nat)
    requires Ascending(cs) && i < from <= n <= |cs|
    ensures forall c :: c in cs[from..n] ==> c.ulid != cs[i].ulid
  {}

  /** nobody else's change, */
  lemma PublishOthers(chunks: map<ChunkId, Bytes>, v: nat, added: seq<StoredChunk>, u: nat, w: CopyState)
    requires Ascending(added) && u != v && AllStored(chunks, u, w)
    ensures AllStored(Put(chunks, v, added), u, w)
  {
    PutKeys(chunks, v, added);
    forall i | 0 <= i < w.published && i < |w.chunks| ensures Stored(Put(chunks, v, added), u, w.chunks[i]) {
      assert Stored(chunks, u, w.chunks[i]);
    }
  }

  /** and every key still comes from a writer. */
  lemma PublishFrom(t: State, chunks: map<ChunkId, Bytes>, v: nat, from: nat)
    requires v in t.writers && from <= t.writers[v].published <= |t.writers[v].chunks| && Ascending(t.writers[v].chunks)
    requires ChunksOk(t, chunks)
    ensures ChunksOk(t, Put(chunks, v, t.writers[v].chunks[from..t.writers[v].published]))
  {
    var w := t.writers[v];
    var added := w.chunks[from..w.published];
    var more := Put(chunks, v, added);
    PutKeys(chunks, v, added);
    forall id | id in more ensures FromWriter(t, id, more[id]) {
      if !(id in chunks && more[id] == chunks[id]) {
        assert StoredChunk(id.ulid, more[id]) in added;
        assert added <= w.chunks[..w.published][from..];
      } else {
        assert FromWriter(t, id, chunks[id]);
      }
    }
  }

  lemma StepChunks(s: State, e: Event)
    requires WritersOk(s) && Enabled(s, e) && ChunksOk(s, s.db.chunks)
    ensures ChunksOk(Next(s, e), Next(s, e).db.chunks)
  {
    hide FromWriter, WriterOk, Evolves;
    var t := Next(s, e);
    StepEvolves(s, e);
    StepWriters(s, e);
    ChunksStay(s, t, s.db.chunks);
    match e {
      case FlushPart(v, n) =>
        WriterFacts(t, v);
        PublishFrom(t, s.db.chunks, v, s.writers[v].published);
      case Finish(v, _) =>
        WriterFacts(s, v);
        WriterFacts(t, v);
        PublishFrom(t, s.db.chunks, v, s.writers[v].published);
      case _ =>
    }
  }

  lemma WriterFacts(s: State, v: nat)
    requires WritersOk(s) && v in s.writers
    ensures s.writers[v].published <= |s.writers[v].chunks| && Ascending(s.writers[v].chunks)
    ensures v < s.nextVersion && FlagsOk(s.writers[v], v)
  {
    assert WriterOk(s, v);
  }

  lemma StepIndex(s: State, e: Event)
    requires WritersOk(s) && Enabled(s, e) && IndexOk(s, s.db.latest)
    ensures IndexOk(Next(s, e), Next(s, e).db.latest)
  {
    StepEvolves(s, e);
  }

  lemma IndexStays(s: State, t: State, latest: Option<Clipboard>)
    requires Evolves(s, t) && IndexOk(s, latest)
    ensures IndexOk(t, latest)
  {
    if latest.Some? { assert WriterEvolves(s.writers[latest.value.sequence], t.writers[latest.value.sequence]); }
  }

  /** Dead versions stay dead. */
  lemma StepDead(s: State, e: Event, v: nat)
    requires WritersOk(s) && Enabled(s, e) && Dead(s, v)
    ensures Dead(Next(s, e), v)
  {
    hide WriterOk;
    StepEvolves(s, e);
    assert WriterEvolves(s.writers[v], Next(s, e).writers[v]);
  }

  lemma StepLive(s: State, e: Event)
    requires WritersOk(s) && Enabled(s, e) && LiveOk(s) && GcOk(s) && IndexOk(s, s.db.latest)
    ensures LiveOk(Next(s, e))
  {
    hide WriterOk, AllStored, Live, Next, GcOk, Enabled;
    var t := Next(s, e);
    if e == DropAll {
      forall v ensures !Live(t, v) { DropAllWhenIdle(s, v); }
    } else {
      forall v | Live(t, v) ensures v in t.writers && AllStored(t.db.chunks, v, t.writers[v]) {
        if Live(s, v) { StepLiveAt(s, e, v); } else { StepNewlyLive(s, e, v); }
      }
    }
  }

  lemma StepLiveAt(s: State, e: Event, v: nat)
    requires WritersOk(s) && Enabled(s, e) && LiveOk(s) && GcOk(s) && Live(s, v) && !e.DropAll?
    ensures v in Next(s, e).writers && AllStored(Next(s, e).db.chunks, v, Next(s, e).writers[v])
  {
    hide WriterOk, Live, AllStored, Put, NextLatest, NextPending, NextMutex, NextReaders, NextGc, NextLeaked,
      NextWriters, GcOk, Flushed;
    var t := Next(s, e);
    LiveStored(s, v);
    WriterFacts(s, v);
    WriterAfter(s, e, v);
    var w := s.writers[v];
    var u := Owner(e);
    if u == Some(v) { OwnStep(s, e, v); OwnPublish(s.db.chunks, v, w, e); }
    else if e.FlushPart? || e.Finish? {
      var x := s.writers[u.value];
      OwnStep(s, e, u.value);
      WriterFacts(s, u.value);
      FlushedAscends(x, if e.FlushPart? then e.upTo else |x.chunks|);
      PublishOthers(s.db.chunks, u.value, Flushed(x, if e.FlushPart? then e.upTo else |x.chunks|), v, w);
    }
    else if e.GcCommit? { CollectSpares(s, e.deleted, v); }
    else { SameStored(s.db.chunks, v, w, t.writers[v]); }
  }

  lemma OwnPublish(chunks: map<ChunkId, Bytes>, v: nat, w: CopyState, e: Event)
    requires Owner(e) == Some(v) && FlagsOk(w, v) && Ascending(w.chunks) && AllStored(chunks, v, w)
    requires e.FlushPart? ==> w.published <= e.upTo <= |w.chunks|
    ensures AllStored(
      if e.FlushPart? then Put(chunks, v, Flushed(w, e.upTo))
      else if e.Finish? then Put(chunks, v, Flushed(w, |w.chunks|)) else chunks, v, NextWriter(w, e))
  {
    hide Put, AllStored, Flushed;
    if e.FlushPart? {
      PublishOwn(chunks, v, w, e.upTo);
    } else if e.Finish? {
      PublishOwn(chunks, v, w, |w.chunks|);
      SameStored(Put(chunks, v, Flushed(w, |w.chunks|)), v, w.(published := |w.chunks|), NextWriter(w, e));
    } else {
      SameStored(chunks, v, w, NextWriter(w, e));
    }
  }

  lemma FlushedAscends(w: CopyState, n: nat)
    requires Ascending(w.chunks)
    ensures Ascending(Flushed(w, n))
  {}

  lemma LiveStored(s: State, v: nat)
    requires LiveOk(s) && Live(s, v)
    ensures v in s.writers && AllStored(s.db.chunks, v, s.writers[v])
  {}

  lemma SameStored(chunks: map<ChunkId, Bytes>, v: nat, w: CopyState, w': CopyState)
    requires AllStored(chunks, v, w) && w.chunks <= w'.chunks && w'.published == w.published <= |w.chunks|
    ensures AllStored(chunks, v, w')
  {
    forall i | 0 <= i < w'.published && i < |w'.chunks| ensures Stored(chunks, v, w'.chunks[i]) {
      assert Stored(chunks, v, w.chunks[i]);
    }
  }

  /** The collector leaves live versions alone. */
  lemma CollectSpares(s: State, deleted: set<ChunkId>, v: nat)
    requires GcOk(s) && Live(s, v) && deleted <= Garbage(s.gc) && AllStored(s.db.chunks, v, s.writers[v])
    ensures AllStored(s.db.chunks - deleted, v, s.writers[v])
  {
    var w := s.writers[v];
    forall i | 0 <= i < w.published && i < |w.chunks| ensures Stored(s.db.chunks - deleted, v, w.chunks[i]) {
      assert Stored(s.db.chunks, v, w.chunks[i]);
      LiveIsNoGarbage(s, ChunkId(v, w.chunks[i].ulid));
    }
  }

  lemma LiveIsNoGarbage(s: State, id: ChunkId)
    requires GcOk(s) && Live(s, id.version)
    ensures id !in Garbage(s.gc)
  {}

  lemma DropAllWhenIdle(s: State, v: nat)
    requires Enabled(s, DropAll)
    ensures !Live(Next(s, DropAll), v)
  {}

  /** Only a new writer, and a copy that finishes, become live. */
  lemma StepNewlyLive(s: State, e: Event, v: nat)
    requires WritersOk(s) && Enabled(s, e) && LiveOk(s) && IndexOk(s, s.db.latest)
    requires Live(Next(s, e), v) && !(v in s.writers && Live(s, v))
    ensures v in Next(s, e).writers && AllStored(Next(s, e).db.chunks, v, Next(s, e).writers[v])
  {
    hide WriterOk;
    if v in s.writers {
      assert WriterOk(s, v);
      StepDead(s, e, v);
    }
  }

  // ------------------------------------------------ PENDING and its mutex

  /** When the mutex around PENDING is taken and given back. */
  lemma LockSteps(s: State, e: Event)
    requires Enabled(s, e)
    ensures e.LockRead? ==> s.mutex == Free && InPhase(s, e.version, Writing) && !s.writers[e.version].locked
    ensures e.LockWrite? || e.LockFail? ==> Holds(s, e.version) && InPhase(s, e.version, Writing)
    ensures e.UnlockRead? ==> s.mutex == Free && e.version in s.writers
    ensures e.UnlockWrite? || e.UnlockFail? ==> Holds(s, e.version) && InPhase(s, e.version, Closing)
    ensures e.Finish? ==> !Holds(s, e.version)
    ensures e.DropAll? ==> forall v :: v in s.writers ==> s.writers[v].phase == Released
  {}

  lemma StepMutex(s: State, e: Event)
    requires WritersOk(s) && Enabled(s, e) && MutexOk(s)
    ensures MutexOk(Next(s, e))
  {
    hide Enabled, NextWriters, NextChunks, NextLatest, NextReaders, NextGc, NextLeaked, WriterOk;
    LockSteps(s, e);
    if NextMutex(s, e).Held? {
      var v := NextMutex(s, e).version;
      WriterFacts(s, v);
      WriterAfter(s, e, v);
      if Owner(e) == Some(v) { OwnStep(s, e, v); }
    }
  }

  lemma PendingAt(s: State, e: Event, v: nat)
    requires WritersOk(s) && Enabled(s, e) && MutexOk(s) && PendingOk(s)
    ensures v in NextPending(s, e) <==> Active(Next(s, e), v) || v in NextLeaked(s, e)
  {
    hide Enabled, NextWriters, NextChunks, NextLatest, NextReaders, NextGc, NextMutex, WriterOk;
    LockSteps(s, e);
    NewVersions(s, e);
    assert v in s.db.pending <==> Active(s, v) || v in s.leaked;
    if v in s.writers {
      WriterFacts(s, v);
      WriterAfter(s, e, v);
      if Owner(e) == Some(v) { OwnStep(s, e, v); }
    }
  }

  predicate Active(s: State, v: nat) {
    v in s.writers && s.writers[v].locked && s.writers[v].phase != Released
  }

  /** No update of PENDING is lost: it holds exactly the versions that have locked
      and not released, and those whose unlocking failed. */
  lemma StepPending(s: State, e: Event)
    requires WritersOk(s) && Enabled(s, e) && MutexOk(s) && PendingOk(s)
    ensures PendingOk(Next(s, e))
  {
    hide Enabled, NextWriters, NextChunks, NextLatest, NextReaders, NextGc, NextMutex, WriterOk;
    var t := Next(s, e);
    LockSteps(s, e);
    NewVersions(s, e);
    forall v ensures v in t.db.pending <==> v in LockedActive(t) || v in t.leaked {
      PendingAt(s, e, v);
    }
    forall v | v in t.leaked ensures v in t.writers && t.writers[v].phase == Released && t.writers[v].locked {
      WriterFacts(s, v);
      WriterAfter(s, e, v);
      if Owner(e) == Some(v) { OwnStep(s, e, v); }
    }
  }

  // -------------------------------------------- snapshots, readers, collector

  /** While LATEST is visible, the chunks of the version it names are complete. */
  lemma LatestIsComplete(s: State)
    requires WritersOk(s) && ChunksOk(s, s.db.chunks) && LiveOk(s) && IndexOk(s, s.db.latest)
    ensures LatestComplete(s)
  {
    hide WriterOk;
    var index := Visible(s.db, s.now);
    if index.Some? {
      var v := index.value.sequence;
      assert Live(s, v);
      WriterFacts(s, v);
      var w := s.writers[v];
      assert w.chunks[..w.published] == w.chunks;
      forall id | id in s.db.chunks && id.version == v ensures Listed(w.chunks, id.ulid, s.db.chunks[id]) {
        assert FromWriter(s, id, s.db.chunks[id]);
      }
    }
  }

  lemma FreshSnapshot(s: State)
    requires WritersOk(s) && ChunksOk(s, s.db.chunks) && IndexOk(s, s.db.latest) && PendingOk(s)
    ensures SnapshotOk(s, s.db)
  {
    hide WriterOk;
    forall id | id in s.db.chunks ensures Sheltered(s, s.db, id.version) {
      assert FromWriter(s, id, s.db.chunks[id]);
      WriterFacts(s, id.version);
    }
  }

  lemma ShelterStays(s: State, e: Event, sn: Db, id: ChunkId)
    requires WritersOk(s) && Enabled(s, e) && PendingOk(s) && MutexOk(s)
    requires id in sn.chunks && FromWriter(s, id, sn.chunks[id]) && Sheltered(s, sn, id.version)
    ensures Sheltered(Next(s, e), sn, id.version)
  {
    hide Enabled, Next, NextWriters, NextChunks, NextLatest, NextReaders, NextGc, NextMutex, WriterOk, Dead;
    var v := id.version;
    if Dead(s, v) { StepDead(s, e, v); }
    WriterFacts(s, v);
    PendingGrows(s, e, v);
  }

  /** A version enters PENDING only before anything of it is published. */
  lemma PendingGrows(s: State, e: Event, v: nat)
    requires WritersOk(s) && Enabled(s, e) && MutexOk(s)
    ensures v in Next(s, e).db.pending && v !in s.db.pending ==> v in s.writers && s.writers[v].published == 0
  {
    hide NextWriters, NextChunks, NextLatest, NextReaders, NextGc, NextMutex, WriterOk;
    LockSteps(s, e);
    if e.LockWrite? { WriterFacts(s, e.version); }
  }

  lemma SnapshotStays(s: State, e: Event, sn: Db)
    requires WritersOk(s) && Enabled(s, e) && PendingOk(s) && MutexOk(s) && SnapshotOk(s, sn)
    ensures SnapshotOk(Next(s, e), sn)
  {
    hide Enabled, Next, WriterOk, FromWriter, Sheltered, Evolves;
    var t := Next(s, e);
    StepEvolves(s, e);
    StepWriters(s, e);
    ChunksStay(s, t, sn.chunks);
    IndexStays(s, t, sn.latest);
    forall id | id in sn.chunks ensures Sheltered(t, sn, id.version) {
      assert FromWriter(s, id, sn.chunks[id]);
      ShelterStays(s, e, sn, id);
    }
  }

  /** What a run of the collector may delete is dead when it picks it. */
  lemma GarbageIsDead(s: State, sn: Db, id: ChunkId)
    requires WritersOk(s) && IndexOk(s, s.db.latest) && SnapshotOk(s, sn)
    requires id in sn.chunks && id.version !in sn.pending
    requires var index := Visible(sn, s.now); index.Some? ==> index.value.sequence != id.version
    ensures Dead(s, id.version)
  {
    hide WriterOk;
    assert Sheltered(s, sn, id.version);
    assert FromWriter(s, id, sn.chunks[id]);
    WriterFacts(s, id.version);
  }

  lemma StepGc(s: State, e: Event)
    requires Inv(s) && Enabled(s, e)
    ensures GcOk(Next(s, e))
  {
    hide NextWriters, NextChunks, NextLatest, NextPending, NextReaders, NextMutex, NextLeaked, WriterOk, SnapshotOk,
      Dead;
    var t := Next(s, e);
    FreshSnapshot(s);
    if t.gc != NoGc { SnapshotStays(s, e, t.gc.snapshot); }
    forall id | id in Garbage(t.gc) ensures Dead(t, id.version) {
      if e == GcIndex { GarbageIsDead(s, s.gc.snapshot, id); }
      StepDead(s, e, id.version);
    }
  }

  lemma CompleteStays(s: State, t: State, sn: Db, index: Clipboard)
    requires Evolves(s, t) && WritersOk(s) && IndexOk(s, Some(index)) && SnapshotComplete(s, sn, index)
    ensures SnapshotComplete(t, sn, index)
  {
    hide WriterOk;
    WriterFacts(s, index.sequence);
    assert WriterEvolves(s.writers[index.sequence], t.writers[index.sequence]);
  }

  lemma ReaderStays(s: State, t: State, r: PasteState)
    requires Evolves(s, t) && WritersOk(s) && ReaderOk(s, r)
    ensures ReaderOk(t, r)
  {
    hide WriterOk, Evolves, SnapshotComplete;
    IndexStays(s, t, r.snapshot.latest);
    assert s.now <= t.now by { NowGrows(s, t); }
    if r.Opened? && Visible(r.snapshot, t.now).Some? { CompleteStays(s, t, r.snapshot, r.snapshot.latest.value); }
    if r.Reading? { CompleteStays(s, t, r.snapshot, r.index); }
  }

  lemma NowGrows(s: State, t: State)
    requires Evolves(s, t)
    ensures s.now <= t.now
  {}

  lemma StepReaders(s: State, e: Event)
    requires Inv(s) && Enabled(s, e)
    ensures ReadersOk(Next(s, e))
  {
    hide NextWriters, NextChunks, NextLatest, NextPending, NextGc, NextMutex, NextLeaked, WriterOk, Evolves;
    var t := Next(s, e);
    StepEvolves(s, e);
    LatestIsComplete(s);
    forall r | r in t.readers ensures ReaderOk(t, t.readers[r]) {
      assert ReaderOk(s, t.readers[r]);
      ReaderStays(s, t, t.readers[r]);
    }
  }

  /** Every step keeps the invariant. */
  lemma StepInv(s: State, e: Event)
    requires Inv(s) && Enabled(s, e)
    ensures Inv(Next(s, e))
  {
    hide Enabled, Next, WritersOk, ChunksOk, LiveOk, IndexOk, PendingOk, MutexOk, GcOk, ReadersOk;
    StepWriters(s, e);
    StepChunks(s, e);
    StepLive(s, e);
    StepIndex(s, e);
    StepPending(s, e);
    StepMutex(s, e);
    StepGc(s, e);
    StepReaders(s, e);
  }
}
