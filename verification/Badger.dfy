/** The storage package as the program runs it: every access to the database is one
    step of the transition system, and other goroutines run between the steps. */
module Badger {
  import opened Wrappers
  import opened Store
  import opened StoreInvariant
  import opened Interference

  class BadgerDB {
    /** What all goroutines share. */
    var state: State
    /** What the others do, one batch each time we let them run. */
    var others: seq<seq<Event>>
    /** Which of the updates and flushes to come fail. */
    var faults: seq<bool>
    const chunkSize: nat
    const valueLogFileSize: nat

    ghost predicate Valid()
      reads this
    {
      Inv(state) && chunkSize > 0
    }

    constructor (chunkSize: nat, valueLogFileSize: nat, others: seq<seq<Event>>, faults: seq<bool>)
      requires chunkSize > 0
      ensures Valid() && state == Init() && this.chunkSize == chunkSize && this.valueLogFileSize == valueLogFileSize
      ensures this.others == others && this.faults == faults
    {
      state, this.others, this.faults := Init(), others, faults;
      this.chunkSize, this.valueLogFileSize := chunkSize, valueLogFileSize;
      InitOk();
    }

    /** One atomic step of our own. */
    method Step(e: Event)
      requires Valid() && Enabled(state, e)
      modifies this`state
      ensures Valid() && state == Next(old(state), e) && Evolves(old(state), state)
    {
      hide Inv, Next, Enabled, Evolves;
      StepEvolvesInv(state, e);
      StepInv(state, e);
      state := Next(state, e);
    }

    /** A step of our own copy. */
    method StepOwn(e: Event, v: nat)
      requires Valid() && Enabled(state, e) && Owner(e) == Some(v)
      modifies this`state
      ensures Valid() && Evolves(old(state), state)
      ensures v in old(state.writers) && v in state.writers && state.writers[v] == NextWriter(old(state.writers[v]), e)
      ensures state.mutex == NextMutex(old(state), e)
      ensures state.now == old(state.now) && state.nextUlid == old(state.nextUlid)
      ensures !e.Finish? ==> state.db.latest == old(state.db.latest)
    {
      hide Evolves, NextMutex, NextWriter, Enabled;
      OwnAfter(state, e, v);
      Step(e);
    }

    /** The others run: any steps that are possible and are not ours. */
    method Interfere(me: Me)
      requires Valid()
      modifies this`state, this`others
      ensures Valid() && Rely(me, old(state), state)
      ensures old(others) == [] ==> others == [] && state == old(state)
    {
      hide Inv, Enabled, Next, Rely;
      RelySelf(me, state);
      if others == [] { return; }
      var batch := others[0];
      others := others[1..];
      for i := 0 to |batch|
        invariant Valid() && Rely(me, old(state), state)
      {
        var e := batch[i];
        if e != Crash && !Mine(me, e) && Enabled(state, e) {
          RelyStep(me, state, e);
          StepInv(state, e);
          RelyTrans(me, old(state), state, Next(state, e));
          state := Next(state, e);
        }
      }
    }

    /** Whether the next fallible operation fails. */
    method Fault() returns (failed: bool)
      modifies this`faults
      ensures failed ==> true in old(faults)
      ensures forall f :: f in faults ==> f in old(faults)
    {
      failed := faults != [] && faults[0];
      if faults != [] { faults := faults[1..]; }
    }

    /** `b.seq.Next()`: a number never issued before, and the copy that it names. */
    method NextVersion() returns (version: nat)
      requires Valid()
      modifies this`state
      ensures Valid() && Evolves(old(state), state)
      ensures version !in old(state.writers) && version in state.writers
      ensures state.writers[version] == CopyState(Writing, false, [], 0, None) && !Holds(state, version)
      ensures state.db.latest == old(state.db.latest) && state.now == old(state.now)
    {
      hide Inv, Next, Evolves;
      version :| version >= state.nextVersion;
      NewCopy(state, version);
      Step(Begin(version));
    }

    /** `mustNewULID`: the next ULID, above all drawn before (the program panics when
        there is none left). */
    method NewUlid(v: nat) returns (ulid: nat, ok: bool)
      requires Valid() && v in state.writers && !Holds(state, v)
      modifies this`state, this`others
      ensures Valid() && Evolves(old(state), state) && !Holds(state, v)
      ensures v in state.writers && state.writers[v] == old(state.writers[v])
      ensures Calm(old(others), others, old(state), state)
      ensures !ok ==> state.nextUlid >= ULID_LIMIT
      ensures ok ==> ulid < state.nextUlid && forall c :: c in state.writers[v].chunks ==> c.ulid < ulid
    {
      hide Inv, Next, Evolves;
      ghost var s0 := state;
      Interfere(Copy(v));
      ghost var s1 := state;
      if state.nextUlid >= ULID_LIMIT { return 0, false; }
      ulid :| state.nextUlid <= ulid < ULID_LIMIT;
      Drawn(state, ulid, v);
      RelyStep(Copy(v), state, Draw(ulid));
      Step(Draw(ulid));
      EvolvesTrans(s0, s1, state);
      return ulid, true;
    }

    /** The final flush, which sets LATEST. */
    method FinishOwn(v: nat, index: Clipboard)
      requires Valid() && Enabled(state, Finish(v, index))
      modifies this`state
      ensures Valid() && Evolves(old(state), state)
      ensures v in old(state.writers) && v in state.writers
      ensures state.writers[v] == NextWriter(old(state.writers[v]), Finish(v, index))
      ensures state.mutex == old(state.mutex) && state.db.latest == Some(index) && state.now == old(state.now)
    {
      hide Evolves, NextWriter, Enabled, Inv;
      OwnAfter(state, Finish(v, index), v);
      LatestSet(state, v, index);
      Step(Finish(v, index));
    }

    /** The update that takes our version out of PENDING, or fails. */
    method UnlockOwn(v: nat, failed: bool)
      requires Valid() && InPhase(state, v, Closing) && Holds(state, v)
      modifies this`state
      ensures Valid() && Evolves(old(state), state)
      ensures v in old(state.writers) && v in state.writers
      ensures state.writers[v] == old(state.writers[v]).(phase := Released)
      ensures v in state.db.pending <==> failed && state.writers[v].locked
      ensures state.db.latest == old(state.db.latest) && state.now == old(state.now)
    {
      hide Inv, Next, Enabled, Evolves;
      var e := if failed then UnlockFail(v) else UnlockWrite(v);
      Unlocks(state, v, failed);
      OwnAfter(state, e, v);
      StepInv(state, e);
      OutOfPending(state, v, failed);
      Step(e);
    }

    /** `lockedTransaction.Lock()`: whoever holds the mutex gets to give it back. */
    method Lock(v: nat)
      requires Valid() && v in state.writers && !Holds(state, v)
      modifies this`state, this`others
      ensures Valid() && Rely(Copy(v), old(state), state) && state.mutex == Free
      ensures Calm(old(others), others, old(state), state)
    {
      hide Inv, Next, Enabled, Evolves;
      Interfere(Copy(v));
      if state.mutex.Held? {
        var h := state.mutex.version;
        HolderMoves(state);
        var e := if state.writers[h].phase == Writing then LockWrite(h) else UnlockWrite(h);
        RelyStep(Copy(v), state, e);
        RelyTrans(Copy(v), old(state), state, Next(state, e));
        MutexFreed(state, e);
        Step(e);
      }
    }
  }

  lemma OwnAfter(s: State, e: Event, v: nat)
    requires Inv(s) && Enabled(s, e) && Owner(e) == Some(v)
    ensures v in s.writers && v in Next(s, e).writers && Next(s, e).writers[v] == NextWriter(s.writers[v], e)
    ensures Next(s, e).mutex == NextMutex(s, e) && Next(s, e).now == s.now && Next(s, e).nextUlid == s.nextUlid
    ensures !e.Finish? ==> Next(s, e).db.latest == s.db.latest
    ensures Evolves(s, Next(s, e))
  {
    hide NextWriters, NextChunks, NextLatest, NextPending, NextReaders, NextGc, NextLeaked, NextMutex, NextWriter,
      WriterOk, Enabled, Evolves, LiveOk, PendingOk, ChunksOk, ReadersOk, GcOk, MutexOk;
    OwnStep(s, e, v);
    WriterFacts(s, v);
    WriterAfter(s, e, v);
    StepEvolves(s, e);
    OwnIsQuiet(s, e, v);
  }

  lemma Unlocks(s: State, v: nat, failed: bool)
    requires InPhase(s, v, Closing) && Holds(s, v)
    ensures Enabled(s, if failed then UnlockFail(v) else UnlockWrite(v))
  {}

  /** A version is out of PENDING after its unlock, unless it was in it and the unlock
      failed. */
  lemma OutOfPending(s: State, v: nat, failed: bool)
    requires Inv(s) && InPhase(s, v, Closing) && Holds(s, v)
    requires Inv(Next(s, if failed then UnlockFail(v) else UnlockWrite(v)))
    ensures var t := Next(s, if failed then UnlockFail(v) else UnlockWrite(v));
      v in t.db.pending <==> failed && s.writers[v].locked
  {
    hide NextChunks, NextLatest, NextReaders, NextGc, WritersOk, ChunksOk, LiveOk, GcOk, ReadersOk;
    var t := Next(s, if failed then UnlockFail(v) else UnlockWrite(v));
    assert v in t.writers && t.writers[v].phase == Released && t.writers[v].locked == s.writers[v].locked;
    if failed { assert v in LockedActive(t) + t.leaked <==> v in t.leaked; }
  }

  lemma NewCopy(s: State, v: nat)
    requires Inv(s) && v >= s.nextVersion
    ensures v !in s.writers && Enabled(s, Begin(v)) && Evolves(s, Next(s, Begin(v)))
    ensures v in Next(s, Begin(v)).writers && Next(s, Begin(v)).writers[v] == CopyState(Writing, false, [], 0, None)
    ensures !Holds(Next(s, Begin(v)), v)
    ensures Next(s, Begin(v)).db.latest == s.db.latest && Next(s, Begin(v)).now == s.now
  {
    hide Evolves, WriterOk;
    if v in s.writers { WriterFacts(s, v); }
    StepEvolves(s, Begin(v));
  }

  lemma LatestSet(s: State, v: nat, index: Clipboard)
    ensures Next(s, Finish(v, index)).db.latest == Some(index)
    ensures Next(s, Finish(v, index)).mutex == s.mutex && Next(s, Finish(v, index)).now == s.now
  {}

  /** A ULID just drawn is above all that any copy has used. */
  lemma Drawn(s: State, ulid: nat, v: nat)
    requires Inv(s) && s.nextUlid <= ulid < ULID_LIMIT && v in s.writers
    ensures Enabled(s, Draw(ulid)) && Next(s, Draw(ulid)).nextUlid == ulid + 1
    ensures Next(s, Draw(ulid)).db.latest == s.db.latest && Next(s, Draw(ulid)).now == s.now
    ensures forall c :: c in s.writers[v].chunks ==> c.ulid < ulid
  {
    assert WriterOk(s, v);
  }

  lemma OwnIsQuiet(s: State, e: Event, v: nat)
    requires Owner(e) == Some(v)
    ensures !e.Tick? && !e.Begin? && !e.Draw? && e != Crash
    ensures !e.Finish? ==> NextLatest(s, e) == s.db.latest
  {}

  lemma HolderMoves(s: State)
    requires Inv(s) && s.mutex.Held?
    ensures var h := s.mutex.version;
      h in s.writers &&
      Enabled(s, if s.writers[h].phase == Writing then LockWrite(h) else UnlockWrite(h))
  {}

  lemma MutexFreed(s: State, e: Event)
    requires e.LockWrite? || e.UnlockWrite?
    ensures Next(s, e).mutex == Free && Next(s, e).db.latest == s.db.latest && Next(s, e).now == s.now
  {}

  lemma Begun(s: State, r: nat)
    ensures r in Next(s, ReadBegin(r)).readers && Next(s, ReadBegin(r)).readers[r] == Opened(s.db)
    ensures Next(s, ReadBegin(r)).now == s.now && Next(s, ReadBegin(r)).db == s.db
  {}

  lemma Indexed(s: State, r: nat)
    requires r in s.readers && s.readers[r].Opened? && s.readers[r].snapshot.latest.Some?
    ensures var t := Next(s, ReadIndex(r));
      && t.now == s.now && t.db == s.db && r in t.readers
      && t.readers[r] == Reading(s.readers[r].snapshot, s.readers[r].snapshot.latest.value)
  {}

  lemma Ended(s: State, r: nat)
    ensures var t := Next(s, ReadEnd(r)); r !in t.readers && t.now == s.now && t.db == s.db
  {}

  lemma Collecting(s: State)
    requires s.gc == NoGc
    ensures Enabled(s, GcBegin) && Next(s, GcBegin).gc == GcOpened(s.db) && Next(s, GcBegin).db == s.db
  {}

  lemma Collected(s: State, deleted: set<ChunkId>)
    requires s.gc.GcRunning? && deleted <= Garbage(s.gc)
    ensures Enabled(s, GcCommit(deleted))
    ensures var t := Next(s, GcCommit(deleted)); t.gc == s.gc && t.db.chunks == s.db.chunks - deleted && t.now == s.now
  {}
}
