/** Safety of the store, over every run. */
module StoreSafety {
  import opened GoInt
  import opened Wrappers
  import opened Store
  import opened StoreInvariant

  // ---------------------------------------------------------------- every run

  lemma {:induction false} RunInv(s: State, es: seq<Event>, t: State)
    requires Inv(s) && Run(s, es, t)
    ensures Inv(t)
    decreases |es|
  {
    hide Inv, Enabled, Next;
    if es != [] {
      StepInv(s, es[0]);
      RunInv(Next(s, es[0]), es[1..], t);
    }
  }

  /** Whatever copies, pastes, collector runs, expiries, drops and crashes came
      before: the version LATEST names has all its chunks, untouched. */
  lemma LatestAlwaysComplete(es: seq<Event>, t: State)
    requires Run(Init(), es, t)
    ensures LatestComplete(t)
  {
    InitOk();
    RunInv(Init(), es, t);
    LatestIsComplete(t);
  }

  lemma {:induction false} RunDead(s: State, es: seq<Event>, t: State, v: nat)
    requires Inv(s) && Run(s, es, t) && Dead(s, v)
    ensures Dead(t, v)
    decreases |es|
  {
    hide Inv, Enabled, Next, Dead;
    if es != [] {
      InvWriters(s);
      StepInv(s, es[0]);
      StepDead(s, es[0], v);
      RunDead(Next(s, es[0]), es[1..], t, v);
    }
  }

  lemma InvWriters(s: State)
    requires Inv(s)
    ensures WritersOk(s)
  {}

  /** However stale its snapshot: a key the collector may delete belongs to a
      version that LATEST does not name and will not name in any continuation. */
  lemma CollectorIsSafe(es: seq<Event>, s: State, id: ChunkId, more: seq<Event>, t: State)
    requires Run(Init(), es, s) && id in Garbage(s.gc) && Run(s, more, t)
    ensures Dead(s, id.version) && Dead(t, id.version)
    ensures t.db.latest.Some? && t.now < t.db.latest.value.expireAt ==> t.db.latest.value.sequence != id.version
  {
    InitOk();
    RunInv(Init(), es, s);
    RunDead(s, more, t, id.version);
  }

  /** A paste that has read LATEST streams exactly what that copy wrote. */
  lemma ReaderSeesOneCopy(es: seq<Event>, s: State, r: nat)
    requires Run(Init(), es, s) && r in s.readers && s.readers[r].Reading?
    ensures var rd := s.readers[r]; var v := rd.index.sequence;
      && v in s.writers && s.writers[v].index == Some(rd.index)
      && Exactly(rd.snapshot.chunks, v, s.writers[v].chunks)
  {
    InitOk();
    RunInv(Init(), es, s);
    assert ReaderOk(s, s.readers[r]);
  }

  // ------------------------------------------------- PENDING, over every run

  /** One event's part in whether v is left in PENDING for good. */
  predicate LeaksAt(s: State, e: Event, v: nat, before: bool) {
    match e
    case DropAll => false
    case UnlockFail(u) => before || (u == v && v in s.writers && s.writers[v].locked)
    case Crash => before || v in LockedActive(s)
    case _ => before
  }

  /** Since the last DropAll of the run, an unlock of v failed or a crash came while v
      was locked. */
  predicate Leaks(s: State, es: seq<Event>, v: nat, before: bool)
    decreases |es|
  {
    if es == [] then before else Leaks(Next(s, es[0]), es[1..], v, LeaksAt(s, es[0], v, before))
  }

  lemma {:induction false} RunLeaks(s: State, es: seq<Event>, t: State, v: nat)
    requires Run(s, es, t)
    ensures v in t.leaked <==> Leaks(s, es, v, v in s.leaked)
    decreases |es|
  {
    hide Enabled, Next;
    if es != [] {
      LeakedAfter(s, es[0], v);
      RunLeaks(Next(s, es[0]), es[1..], t, v);
    }
  }

  lemma LeakedAfter(s: State, e: Event, v: nat)
    ensures v in Next(s, e).leaked <==> LeaksAt(s, e, v, v in s.leaked)
  {}

  /** PENDING holds the copies that have locked and not released, and the versions
      leaked since the last DropAll; so it is exact if and only if the run leaks none.
      Whatever happens, a version is in it before any chunk of it is published ahead
      of LATEST. */
  lemma PendingIsExact(es: seq<Event>, t: State)
    requires Run(Init(), es, t)
    ensures forall v :: v in t.db.pending <==> v in LockedActive(t) || Leaks(Init(), es, v, false)
    ensures t.db.pending == LockedActive(t) <==> forall v :: !Leaks(Init(), es, v, false)
    ensures forall id :: id in t.db.chunks && InPhase(t, id.version, Writing) ==> id.version in t.db.pending
  {
    hide Leaks, Next, Enabled;
    InitOk();
    RunInv(Init(), es, t);
    forall v: nat ensures v in t.leaked <==> Leaks(Init(), es, v, false) { RunLeaks(Init(), es, t, v); }
    forall v: nat | Leaks(Init(), es, v, false) ensures v in t.db.pending && v !in LockedActive(t) {
      assert v in t.leaked;
    }
    forall id | id in t.db.chunks && InPhase(t, id.version, Writing) ensures id.version in t.db.pending {
      assert FromWriter(t, id, t.db.chunks[id]);
      WriterFacts(t, id.version);
    }
  }

  predicate KeepsPending(e: Event) {
    !e.UnlockFail? && e != Crash
  }

  /** In particular PENDING is exact when no unlock fails and nothing crashes. */
  lemma {:induction false} NoFailureNoLeak(s: State, es: seq<Event>, v: nat)
    requires forall e :: e in es ==> KeepsPending(e)
    ensures !Leaks(s, es, v, false)
    decreases |es|
  {
    hide Next;
    if es != [] {
      assert KeepsPending(es[0]);
      NoFailureNoLeak(Next(s, es[0]), es[1..], v);
    }
  }

  const LEAK := [Begin(0), LockRead(0), LockWrite(0), UnlockRead(0), UnlockFail(0)]

  /** One copy that has locked. */
  const LOCKED_COPY := State(
    Db(None, {0}, map[]), 0, 1, 0, map[0 := CopyState(Writing, true, [], 0, None)], Free, map[], NoGc, {})

  lemma CopyLocks()
    ensures Run(Init(), LEAK[..3], LOCKED_COPY)
  {
    var s1 := Next(Init(), LEAK[0]);
    var s2 := Next(s1, LEAK[1]);
    RunStep(s2, LEAK[2], [], LOCKED_COPY);
    RunStep(s1, LEAK[1], [LEAK[2]], LOCKED_COPY);
    RunStep(Init(), LEAK[0], [LEAK[1]] + [LEAK[2]], LOCKED_COPY);
    assert LEAK[..3] == [LEAK[0]] + ([LEAK[1]] + [LEAK[2]]);
  }

  lemma UnlockFails() returns (t: State)
    ensures Run(LOCKED_COPY, LEAK[3..], t) && 0 in t.leaked && LockedActive(t) == {}
  {
    var s4 := Next(LOCKED_COPY, LEAK[3]);
    t := Next(s4, LEAK[4]);
    RunStep(s4, LEAK[4], [], t);
    RunStep(LOCKED_COPY, LEAK[3], [LEAK[4]], t);
    assert LEAK[3..] == [LEAK[3]] + [LEAK[4]];
  }

  /** A run that leaks: one copy locks, and the update that should unlock it fails. */
  lemma LeakHappens() returns (t: State)
    ensures Run(Init(), LEAK, t) && Leaks(Init(), LEAK, 0, false)
    ensures LockedActive(t) == {} && 0 in t.db.pending
  {
    hide Next, Enabled, Leaks, LockedActive;
    CopyLocks();
    t := UnlockFails();
    RunJoin(Init(), LEAK[..3], LOCKED_COPY, LEAK[3..], t);
    assert LEAK[..3] + LEAK[3..] == LEAK;
    RunLeaks(Init(), LEAK, t, 0);
    PendingIsExact(LEAK, t);
  }

  /** The other side: a version that a crash or a failed unlock left in PENDING
      stays there, and its chunks are never collected, until DropAll. */
  lemma {:induction false} LeakIsForever(s: State, es: seq<Event>, t: State, v: nat)
    requires Inv(s) && Run(s, es, t) && v in s.leaked && DropAll !in es
    ensures v in t.leaked && v in t.db.pending
    ensures forall id :: id in s.db.chunks && id.version == v ==>
      id in t.db.chunks && t.db.chunks[id] == s.db.chunks[id]
    decreases |es|
  {
    hide Inv, Enabled, Next;
    LeakedIsPending(s, v);
    if es != [] {
      StepInv(s, es[0]);
      LeakStep(s, es[0], v);
      LeakIsForever(Next(s, es[0]), es[1..], t, v);
    }
  }

  lemma LeakedIsPending(s: State, v: nat)
    requires Inv(s) && v in s.leaked
    ensures v in s.db.pending
  {}

  lemma LeakStep(s: State, e: Event, v: nat)
    requires Inv(s) && Enabled(s, e) && v in s.leaked && e != DropAll
    ensures v in Next(s, e).leaked
    ensures forall id :: id in s.db.chunks && id.version == v ==>
      id in Next(s, e).db.chunks && Next(s, e).db.chunks[id] == s.db.chunks[id]
  {
    hide NextWriters, NextLatest, NextPending, NextReaders, NextGc, NextMutex, WriterOk;
    forall id | id in s.db.chunks && id.version == v
      ensures id in Next(s, e).db.chunks && Next(s, e).db.chunks[id] == s.db.chunks[id]
    {
      if Owner(e).Some? && Owner(e).value in s.writers {
        var u := Owner(e).value;
        OwnStep(s, e, u);
        WriterFacts(s, u);
        FlushedAscends(s.writers[u], if e.FlushPart? then e.upTo else |s.writers[u].chunks|);
        PutKeys(s.db.chunks, u, Flushed(s.writers[u], if e.FlushPart? then e.upTo else |s.writers[u].chunks|));
      }
      LeakedIsNoGarbage(s, id);
    }
  }

  lemma LeakedIsNoGarbage(s: State, id: ChunkId)
    requires GcOk(s) && PendingOk(s) && id.version in s.leaked
    ensures id !in Garbage(s.gc)
  {
    if s.gc.GcRunning? && id in s.gc.snapshot.chunks { assert Sheltered(s, s.gc.snapshot, id.version); }
  }

  // ------------------------------------------ what one copy can and cannot do

  /** LATEST changes only when some copy ends, when it expires, and at DropAll. */
  lemma LatestChangesOnlyAtTheEnd(s: State, e: Event)
    requires Enabled(s, e) && Next(s, e).db.latest != s.db.latest
    ensures e.Finish? || e == DropAll
  {}

  /** What a paste could be given: the visible LATEST and the chunks of its version. */
  ghost predicate SamePaste(s: State, t: State) {
    && t.db.latest == s.db.latest
    && (Visible(t.db, t.now).Some? ==>
          var v := t.db.latest.value.sequence;
          Visible(s.db, s.now).Some? &&
          forall id: ChunkId :: id.version == v ==>
            ((id in s.db.chunks <==> id in t.db.chunks) && (id in s.db.chunks ==> s.db.chunks[id] == t.db.chunks[id])))
  }

  /** A copy that has not ended is all-or-nothing: whatever it sets, locks, flushes
      or releases, and however it is interleaved with other unfinished copies,
      pastes and collector runs, what a paste is given does not change. */
  lemma {:induction false} UnfinishedCopiesAreInvisible(s: State, es: seq<Event>, t: State)
    requires Inv(s) && Run(s, es, t) && forall e :: e in es ==> !e.Finish? && e != DropAll
    ensures SamePaste(s, t)
    decreases |es|
  {
    hide Inv, Enabled, Next;
    if es != [] {
      assert !es[0].Finish? && es[0] != DropAll;
      StepInv(s, es[0]);
      StepSamePaste(s, es[0]);
      UnfinishedCopiesAreInvisible(Next(s, es[0]), es[1..], t);
    }
  }

  lemma StepSamePaste(s: State, e: Event)
    requires Inv(s) && Enabled(s, e) && !e.Finish? && e != DropAll
    ensures SamePaste(s, Next(s, e))
  {
    hide NextWriters, NextPending, NextReaders, NextGc, NextMutex, NextLeaked, WriterOk;
    var t := Next(s, e);
    if Visible(t.db, t.now).Some? {
      var v := s.db.latest.value.sequence;
      forall id: ChunkId | id.version == v
        ensures (id in s.db.chunks <==> id in t.db.chunks) && (id in s.db.chunks ==> s.db.chunks[id] == t.db.chunks[id])
      {
        WriterFacts(s, v);
        assert Live(s, v);
        LiveIsNoGarbage(s, id);
        if e.FlushPart? {
          var w := s.writers[e.version];
          WriterFacts(s, e.version);
          FlushedAscends(w, e.upTo);
          PutKeys(s.db.chunks, e.version, Flushed(w, e.upTo));
        }
      }
    }
  }

  /** A copy that never ends is never what LATEST names. */
  lemma {:induction false} NoEndNoLatest(s: State, es: seq<Event>, t: State, v: nat)
    requires Inv(s) && Run(s, es, t) && (v in s.writers ==> s.writers[v].index == None)
    requires forall index :: Finish(v, index) !in es
    ensures t.db.latest.Some? ==> t.db.latest.value.sequence != v
    decreases |es|
  {
    hide Enabled, Next, WritersOk, ChunksOk, LiveOk, PendingOk, MutexOk, GcOk, ReadersOk;
    if es != [] {
      StepInv(s, es[0]);
      IndexStep(s, es[0], v);
      NoEndNoLatest(Next(s, es[0]), es[1..], t, v);
    }
  }

  lemma IndexStep(s: State, e: Event, v: nat)
    requires Inv(s) && Enabled(s, e) && (v in s.writers ==> s.writers[v].index == None)
    requires forall index :: e != Finish(v, index)
    ensures v in Next(s, e).writers ==> Next(s, e).writers[v].index == None
  {
    hide NextChunks, NextLatest, NextPending, NextReaders, NextGc, NextMutex, NextLeaked, WriterOk, Enabled,
      NextWriters;
    NewVersions(s, e);
    if v in s.writers {
      WriterFacts(s, v);
      WriterAfter(s, e, v);
      if e.Finish? { assert e == Finish(e.version, e.index); }
    }
  }

  const ID := ChunkId(0, 0)
  const ENTRY := StoredChunk(0, [7])
  const INDEX := Clipboard(0, 1, false, [], [], [], [], 1)

  /** One copy, one chunk: the database holds `chunks`. */
  function OneCopy(chunks: map<ChunkId, Bytes>, published: nat, gc: Gc): State {
    State(
      Db(None, {}, chunks), 0, 1, 1, map[0 := CopyState(Writing, false, [ENTRY], published, None)],
      Free, map[], gc, {})
  }

  lemma SetsOneChunk()
    ensures Run(Init(), [Draw(0), Begin(0), SetEntry(0, 0, [7])], OneCopy(map[], 0, NoGc))
  {
    var s1 := Next(Init(), Draw(0));
    var s2 := Next(s1, Begin(0));
    assert s2.writers[0].chunks + [ENTRY] == [ENTRY];
    assert Next(s2, SetEntry(0, 0, [7])) == OneCopy(map[], 0, NoGc);
    RunStep(s2, SetEntry(0, 0, [7]), [], OneCopy(map[], 0, NoGc));
    RunStep(s1, Begin(0), [SetEntry(0, 0, [7])], OneCopy(map[], 0, NoGc));
    RunStep(Init(), Draw(0), [Begin(0), SetEntry(0, 0, [7])], OneCopy(map[], 0, NoGc));
  }

  lemma PublishesUnlocked()
    ensures Next(OneCopy(map[], 0, NoGc), FlushPart(0, 1)) == OneCopy(map[ID := [7]], 1, NoGc)
  {
    assert [ENTRY][0..1] == [ENTRY] && [ENTRY][..0] == [];
    assert Put(map[], 0, []) == map[];
    assert Put(map[], 0, [ENTRY]) == map[][ID := [7]];
  }

  lemma CollectsIt() returns (g: Gc)
    ensures Run(OneCopy(map[ID := [7]], 1, NoGc), [GcBegin, GcIndex, GcCommit({ID})], OneCopy(map[], 1, g))
  {
    var f := OneCopy(map[ID := [7]], 1, NoGc);
    var g1 := Next(f, GcBegin);
    var g2 := Next(g1, GcIndex);
    g := g2.gc;
    assert ID in Garbage(g);
    assert map[ID := [7]] - {ID} == map[];
    RunStep(g2, GcCommit({ID}), [], OneCopy(map[], 1, g));
    RunStep(g1, GcIndex, [GcCommit({ID})], OneCopy(map[], 1, g));
    RunStep(f, GcBegin, [GcIndex, GcCommit({ID})], OneCopy(map[], 1, g));
  }

  lemma EndsIncomplete(g: Gc)
    ensures Enabled(OneCopy(map[], 1, g), Finish(0, INDEX))
    ensures !LatestComplete(Next(OneCopy(map[], 1, g), Finish(0, INDEX)))
  {
    var t := Next(OneCopy(map[], 1, g), Finish(0, INDEX));
    assert Visible(t.db, t.now) == Some(INDEX);
    assert Flushed(CopyState(Writing, false, [ENTRY], 1, None), 1) == [];
    assert t.db.chunks == map[];
    assert !Stored(t.db.chunks, 0, t.writers[0].chunks[0]);
  }

  /** Why a partial flush needs the lock: a copy that published a chunk without
      being in PENDING can lose it to the collector and then name itself in LATEST. */
  lemma FlushNeedsTheLock() returns (es: seq<Event>, s: State, more: seq<Event>, t: State)
    ensures Run(Init(), es, s) && InPhase(s, 0, Writing) && !s.writers[0].locked
    ensures Run(Next(s, FlushPart(0, 1)), more, t) && !LatestComplete(t)
  {
    hide Next, LatestComplete, Enabled;
    SetsOneChunk();
    es, s := [Draw(0), Begin(0), SetEntry(0, 0, [7])], OneCopy(map[], 0, NoGc);
    PublishesUnlocked();
    var g := CollectsIt();
    EndsIncomplete(g);
    var u := OneCopy(map[], 1, g);
    t := Next(u, Finish(0, INDEX));
    assert Run(u, [Finish(0, INDEX)], t) by { RunStep(u, Finish(0, INDEX), [], t); }
    RunJoin(OneCopy(map[ID := [7]], 1, NoGc), [GcBegin, GcIndex, GcCommit({ID})], u, [Finish(0, INDEX)], t);
    more := [GcBegin, GcIndex, GcCommit({ID})] + [Finish(0, INDEX)];
  }

  lemma {:induction false} RunJoin(s: State, es: seq<Event>, u: State, fs: seq<Event>, t: State)
    requires Run(s, es, u) && Run(u, fs, t)
    ensures Run(s, es + fs, t)
    decreases |es|
  {
    hide Next, Enabled;
    if es == [] {
      assert es + fs == fs;
    } else {
      assert (es + fs)[1..] == es[1..] + fs;
      RunJoin(Next(s, es[0]), es[1..], u, fs, t);
    }
  }

  lemma RunStep(s: State, e: Event, es: seq<Event>, t: State)
    requires Enabled(s, e) && Run(Next(s, e), es, t)
    ensures Run(s, [e] + es, t)
  {
    assert ([e] + es)[1..] == es;
  }
}
