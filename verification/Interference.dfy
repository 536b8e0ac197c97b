/** What one goroutine can rely on while the others take their steps. */
module Interference {
  import opened GoInt
  import opened Wrappers
  import opened Store
  import opened StoreInvariant

  /** The goroutine whose code is being followed. */
  datatype Me = Nobody | Copy(version: nat) | Paste(reader: nat) | Collector

  predicate Mine(me: Me, e: Event) {
    match me
    case Nobody => false
    case Copy(v) => Owner(e) == Some(v)
    case Paste(r) => e == ReadBegin(r) || e == ReadIndex(r) || e == ReadEnd(r)
    case Collector => e.GcBegin? || e.GcIndex? || e.GcCommit? || e.GcEnd?
  }

  /** Whatever others do, what is mine stays as I left it. */
  ghost predicate Rely(me: Me, s: State, t: State) {
    && Evolves(s, t)
    && match me
       case Nobody => true
       case Copy(v) =>
         v in s.writers ==>
           && v in t.writers && t.writers[v] == s.writers[v]
           && (Holds(s, v) ==> t.mutex == s.mutex)
           && (Holds(t, v) ==> Holds(s, v))
           && (s.writers[v].phase != Released && s.db.latest.Some? ==> t.db.latest.Some?)
       case Paste(r) => r in s.readers ==> r in t.readers && t.readers[r] == s.readers[r]
       case Collector =>
         && t.gc == s.gc
         && (s.gc != NoGc ==> forall id :: id in s.db.chunks ==> id in t.db.chunks)
         && (forall id :: id in Garbage(s.gc) && id !in s.db.chunks ==> id !in t.db.chunks)
  }

  /** With nobody else about, LATEST and the clock are as they were. */
  predicate Calm(before: seq<seq<Event>>, after: seq<seq<Event>>, s: State, t: State) {
    before == [] ==> after == [] && t.db.latest == s.db.latest && t.now == s.now
  }

  lemma RelySelf(me: Me, s: State)
    ensures Rely(me, s, s)
  {}

  lemma EvolvesSelf(s: State)
    ensures Evolves(s, s)
  {}

  lemma ClockGrows(s: State, t: State)
    requires Evolves(s, t)
    ensures s.now <= t.now && s.nextUlid <= t.nextUlid
  {}

  lemma StillNew(s: State, t: State, v: nat)
    requires Evolves(s, t) && v !in t.writers
    ensures v !in s.writers
  {}

  lemma EvolvesTrans(s: State, t: State, u: State)
    requires Evolves(s, t) && Evolves(t, u)
    ensures Evolves(s, u)
  {
    forall v | v in s.writers ensures v in u.writers && WriterEvolves(s.writers[v], u.writers[v]) {
      assert WriterEvolves(s.writers[v], t.writers[v]) && WriterEvolves(t.writers[v], u.writers[v]);
    }
    forall v | v in u.writers && v !in s.writers ensures v >= s.nextVersion {
      assert v in t.writers || v >= t.nextVersion;
    }
    if u.db.latest.Some? && u.db.latest != s.db.latest {
      var v := u.db.latest.value.sequence;
      if u.db.latest == t.db.latest { assert WriterEvolves(t.writers[v], u.writers[v]); }
      if v in s.writers { assert WriterEvolves(s.writers[v], t.writers[v]); }
    }
  }

  lemma RelyTrans(me: Me, s: State, t: State, u: State)
    requires Rely(me, s, t) && Rely(me, t, u)
    ensures Rely(me, s, u)
  {
    hide Evolves;
    EvolvesTrans(s, t, u);
  }

  /** One step of another goroutine. A crash would end us as well. */
  lemma RelyStep(me: Me, s: State, e: Event)
    requires Inv(s) && Enabled(s, e) && !Mine(me, e) && e != Crash
    ensures Rely(me, s, Next(s, e))
  {
    hide Evolves, Enabled, WritersOk, NextWriters, NextChunks, NextLatest, NextPending, NextReaders, NextGc,
      NextLeaked, NextMutex;
    StepEvolvesInv(s, e);
    match me {
      case Nobody =>
      case Copy(v) =>
        if v in s.writers {
          CopyKept(s, e, v);
          if s.writers[v].phase != Released { LatestKept(s, e, v); }
        }
      case Paste(r) => if r in s.readers { PasteKept(s, e, r); }
      case Collector => CollectorKept(s, e);
    }
  }

  lemma StepEvolvesInv(s: State, e: Event)
    requires Inv(s) && Enabled(s, e)
    ensures Evolves(s, Next(s, e))
  {
    StepEvolves(s, e);
  }

  lemma CopyKept(s: State, e: Event, v: nat)
    requires Inv(s) && Enabled(s, e) && Owner(e) != Some(v) && e != Crash && v in s.writers
    ensures var t := Next(s, e);
      && v in t.writers && t.writers[v] == s.writers[v]
      && (Holds(s, v) ==> t.mutex == s.mutex) && (Holds(t, v) ==> Holds(s, v))
  {
    hide NextWriters, NextChunks, NextLatest, NextPending, NextReaders, NextGc, NextLeaked, WriterOk, Enabled, GcOk,
      LiveOk, PendingOk, ChunksOk;
    WriterFacts(s, v);
    WriterAfter(s, e, v);
    LockSteps(s, e);
  }

  /** Nothing is dropped while a copy is going on. */
  lemma LatestKept(s: State, e: Event, v: nat)
    requires Enabled(s, e) && v in s.writers && s.writers[v].phase != Released
    ensures s.db.latest.Some? ==> NextLatest(s, e).Some?
  {}

  lemma PasteKept(s: State, e: Event, r: nat)
    requires Enabled(s, e) && !Mine(Paste(r), e) && e != Crash && r in s.readers
    ensures r in NextReaders(s, e) && NextReaders(s, e)[r] == s.readers[r]
  {}

  lemma CollectorKept(s: State, e: Event)
    requires Inv(s) && Enabled(s, e) && !Mine(Collector, e) && e != Crash
    ensures NextGc(s, e) == s.gc
    ensures s.gc != NoGc ==> forall id :: id in s.db.chunks ==> id in NextChunks(s, e)
    ensures forall id :: id in Garbage(s.gc) && id !in s.db.chunks ==> id !in NextChunks(s, e)
  {
    hide Garbage, Put;
    forall id | id in Garbage(s.gc) && id !in s.db.chunks ensures id !in NextChunks(s, e) {
      GarbageStaysGone(s, e, id);
    }
    if s.gc != NoGc {
      forall id | id in s.db.chunks ensures id in NextChunks(s, e) { NothingElseDeletes(s, e, id); }
    }
  }

  /** Only the collector and DropAll delete, and they exclude each other. */
  lemma NothingElseDeletes(s: State, e: Event, id: ChunkId)
    requires Inv(s) && Enabled(s, e) && s.gc != NoGc && !e.GcCommit? && id in s.db.chunks
    ensures id in NextChunks(s, e)
  {
    hide Garbage, Put, NextWriters, WriterOk, Enabled, LiveOk, PendingOk, ChunksOk, ReadersOk;
    NoDropAll(s, e);
    if e.FlushPart? || e.Finish? {
      var u := Owner(e).value;
      OwnStep(s, e, u);
      PutKeeps(s.db.chunks, u, Flushed(s.writers[u], if e.FlushPart? then e.upTo else |s.writers[u].chunks|), id);
    }
  }

  lemma NoDropAll(s: State, e: Event)
    requires Enabled(s, e) && s.gc != NoGc
    ensures e != DropAll
  {}

  lemma {:induction false} PutKeeps(chunks: map<ChunkId, Bytes>, v: nat, cs: seq<StoredChunk>, id: ChunkId)
    requires id in chunks
    ensures id in Put(chunks, v, cs)
  {
    if cs != [] { PutKeeps(chunks, v, cs[..|cs| - 1], id); }
  }

  /** Nobody writes keys of a dead version again. */
  lemma GarbageStaysGone(s: State, e: Event, id: ChunkId)
    requires Inv(s) && Enabled(s, e) && id in Garbage(s.gc) && id !in s.db.chunks
    ensures id !in NextChunks(s, e)
  {
    hide Garbage, Put, NextWriters, WriterOk, Enabled, LiveOk, PendingOk, ChunksOk, ReadersOk;
    assert Dead(s, id.version);
    if e.FlushPart? || e.Finish? {
      var u := Owner(e).value;
      OwnStep(s, e, u);
      WriterFacts(s, u);
      var n := if e.FlushPart? then e.upTo else |s.writers[u].chunks|;
      FlushedAscends(s.writers[u], n);
      PutKeys(s.db.chunks, u, Flushed(s.writers[u], n));
    }
  }
}
