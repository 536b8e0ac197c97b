/** storage/gc.go: deleting the chunks that nobody can reach any more. */
module Collection {
  import opened Wrappers
  import opened Store
  import opened StoreInvariant
  import opened Interference
  import opened Badger
  import opened Keys
  import opened Scan

  /** What the collector spares and what it may delete, once it has read the two
      control keys of its snapshot. */
  function RunOf(sn: Db, now: int): (run: Gc)
    ensures run.GcRunning? && run.snapshot == sn
  {
    var index := Visible(sn, now);
    GcRunning(sn, if index.Some? then Some(index.value.sequence) else None, sn.pending)
  }

  /** `getIndex`: the prefix of the version that LATEST names. */
  function GetIndex(item: Option<Clipboard>): Option<string> {
    if item.None? then None else Some(VersionPrefix(item.value.sequence))
  }

  /** `getLockedTransaction`: the versions in PENDING, as strings. */
  function GetLockedTransaction(pending: set<nat>): set<string> {
    set v | v in pending :: Decimal(v)
  }

  /** The test on a key's text picks exactly the garbage. */
  predicate Deletable(text: string, index: Option<string>, locked: set<string>) {
    && (index.None? || !HasPrefix(text, index.value))
    && text != LATEST_KEY && text != VERSION_KEY && text != PENDING_KEY
    && Split(text, '/')[0] !in locked
  }

  lemma LockedByText(id: ChunkId, pending: set<nat>)
    ensures Split(ChunkText(id), '/')[0] in GetLockedTransaction(pending) <==> id.version in pending
  {
    hide Decimal, Split, ChunkText;
    FirstPieceIsVersion(id);
    forall v | v in pending && Decimal(v) == Decimal(id.version) ensures v == id.version {
      DecimalInjective(v, id.version);
    }
  }

  /** The garbage of a snapshot: chunks that are not pending, nor of the version that
      a LATEST which has not expired names. */
  lemma GarbageIs(sn: Db, at: int)
    ensures forall id :: id in Garbage(RunOf(sn, at)) <==>
      && id in sn.chunks && id.version !in sn.pending
      && !(sn.latest.Some? && at < sn.latest.value.expireAt && sn.latest.value.sequence == id.version)
  {}

  lemma DeletableIsGarbage(k: Key, sn: Db, now: int)
    requires k.ChunkKey? ==> k.id in sn.chunks
    ensures Deletable(Text(k), GetIndex(Visible(sn, now)), GetLockedTransaction(sn.pending)) <==>
      && k.ChunkKey? && k.id.version !in sn.pending
      && !(sn.latest.Some? && now < sn.latest.value.expireAt && sn.latest.value.sequence == k.id.version)
    ensures Deletable(Text(k), GetIndex(Visible(sn, now)), GetLockedTransaction(sn.pending)) <==>
      k.ChunkKey? && k.id in Garbage(RunOf(sn, now))
  {
    GarbageIs(sn, now);
    VisibleIs(sn, now);
    hide Decimal, Split, ChunkText, GetLockedTransaction, VersionPrefix, Visible;
    if k.ChunkKey? {
      ChunkIsNoControl(k.id);
      LockedByText(k.id, sn.pending);
      var index := Visible(sn, now);
      if index.Some? { PrefixIsVersion(k, index.value.sequence); }
    }
  }

  ghost predicate Distinct(ks: seq<Key>) {
    forall i, j :: 0 <= i < j < |ks| ==> ks[i] != ks[j]
  }

  /** Every chunk key of the snapshot comes once. */
  ghost predicate Lists(ks: seq<Key>, sn: Db) {
    Distinct(ks) && forall id :: id in sn.chunks <==> ChunkKey(id) in ks
  }

  /** The keys come in the order of their texts, or in the opposite order. */
  ghost predicate InOrder(ks: seq<Key>, reverse: bool) {
    forall i, j :: 0 <= i < j < |ks| ==> Before(Text(ks[i]), Text(ks[j]), reverse)
  }

  ghost predicate Before(a: string, b: string, reverse: bool) {
    if reverse then Less(b, a) else Less(a, b)
  }

  /** The iterator, in either direction. */
  method Iterate(sn: Db, reverse: bool) returns (ks: seq<Key>)
    requires forall id :: id in sn.chunks ==> id.ulid < ULID_LIMIT
    ensures Lists(ks, sn) && InOrder(ks, reverse)
    ensures |ks| <= |sn.chunks| + 3
  {
    hide Text, Less;
    ks := NewIterator(sn, {LatestKey, PendingKey, VersionKey});
    SortedIsDistinct(ks);
    if reverse {
      ghost var forward := ks;
      ks := seq(|ks|, i requires 0 <= i < |ks| => ks[|ks| - 1 - i]);
      forall k | k in forward ensures k in ks {
        var i :| 0 <= i < |forward| && forward[i] == k;
        assert ks[|ks| - 1 - i] == k;
      }
    }
    FewKeys(ks, sn.chunks.Keys, {LatestKey, PendingKey, VersionKey});
  }

  lemma SortedIsDistinct(ks: seq<Key>)
    requires Sorted(ks)
    ensures Distinct(ks)
  {
    hide Text, Less;
    forall i, j | 0 <= i < j < |ks| ensures ks[i] != ks[j] { NotLessItself(Text(ks[i])); }
  }

  lemma {:induction false} FewKeys(ks: seq<Key>, ids: set<ChunkId>, control: set<Key>)
    requires Distinct(ks) && forall k :: k in ks ==> (k.ChunkKey? && k.id in ids) || (!k.ChunkKey? && k in control)
    ensures |ks| <= |ids| + |control|
  {
    if ks != [] {
      var k := ks[0];
      assert k in ks;
      forall x | x in ks[1..] ensures x in ks && x != k {
        var i :| 0 <= i < |ks[1..]| && ks[1..][i] == x;
        assert ks[i + 1] == x;
      }
      if k.ChunkKey? { FewKeys(ks[1..], ids - {k.id}, control); } else { FewKeys(ks[1..], ids, control - {k}); }
    }
  }

  /** The garbage among the first i keys. */
  function Visited(ks: seq<Key>, i: nat, garbage: set<ChunkId>): set<ChunkId>
    requires i <= |ks|
  {
    set id | id in garbage && ChunkKey(id) in ks[..i]
  }

  /** What has been visited comes before what has not. */
  lemma VisitedFirst(ks: seq<Key>, i: nat, garbage: set<ChunkId>, sn: Db, reverse: bool)
    requires i <= |ks| && Lists(ks, sn) && InOrder(ks, reverse) && garbage <= sn.chunks.Keys
    ensures var gone := Visited(ks, i, garbage);
      forall a, b :: a in gone && b in garbage - gone ==> Before(ChunkText(a), ChunkText(b), reverse)
  {
    hide ChunkText, Before;
    var gone := Visited(ks, i, garbage);
    forall a, b | a in gone && b in garbage - gone ensures Before(ChunkText(a), ChunkText(b), reverse) {
      var j :| 0 <= j < i && ks[..i][j] == ChunkKey(a);
      assert ks[j] == ChunkKey(a) && ChunkKey(b) in ks;
      var k :| 0 <= k < |ks| && ks[k] == ChunkKey(b);
      forall x | 0 <= x < i ensures ks[x] != ChunkKey(b) { assert ks[..i][x] == ks[x]; }
      assert Before(Text(ks[j]), Text(ks[k]), reverse);
    }
  }

  lemma {:induction false} FewVisited(ks: seq<Key>, i: nat, garbage: set<ChunkId>)
    requires i <= |ks|
    ensures |Visited(ks, i, garbage)| <= i
  {
    if i > 0 {
      FewVisited(ks, i - 1, garbage);
      assert ks[..i] == ks[..i - 1] + [ks[i - 1]];
      var k := ks[i - 1];
      assert Visited(ks, i, garbage) <= Visited(ks, i - 1, garbage) + if k.ChunkKey? then {k.id} else {};
      Smaller(Visited(ks, i, garbage), Visited(ks, i - 1, garbage) + if k.ChunkKey? then {k.id} else {});
    }
  }

  lemma {:induction false} Smaller<T>(a: set<T>, b: set<T>)
    requires a <= b
    ensures |a| <= |b|
  {
    assert b == a + (b - a);
  }

  /** The next key: the code's test on its text says whether it is garbage. */
  lemma VisitNext(ks: seq<Key>, i: nat, sn: Db, at: int)
    requires i < |ks| && Lists(ks, sn)
    ensures var garbage, k := Garbage(RunOf(sn, at)), ks[i];
      if Deletable(Text(k), GetIndex(Visible(sn, at)), GetLockedTransaction(sn.pending)) then
        && k.ChunkKey? && k.id in garbage && k.id !in Visited(ks, i, garbage)
        && Visited(ks, i + 1, garbage) == Visited(ks, i, garbage) + {k.id}
      else Visited(ks, i + 1, garbage) == Visited(ks, i, garbage)
  {
    hide Deletable, Text, GetIndex, GetLockedTransaction, Visible, RunOf, Garbage;
    assert ks[i] in ks;
    DeletableIsGarbage(ks[i], sn, at);
    assert ks[..i + 1] == ks[..i] + [ks[i]];
  }

  /** What has been committed is gone and stays gone; the open transaction holds the
      rest of what was counted. */
  ghost predicate Progress(s: State, run: Gc, gone: set<ChunkId>, txn: set<ChunkId>, deleted: nat) {
    && s.gc == run && run.GcRunning?
    && gone <= Garbage(run) && txn <= Garbage(run) && gone !! txn
    && deleted == |gone| + |txn|
    && OnlyGone(s, run, gone)
  }

  /** Of the keys in the snapshot these and no others are gone. */
  ghost predicate OnlyGone(s: State, run: Gc, gone: set<ChunkId>)
    requires run != NoGc
  {
    forall id :: id in run.snapshot.chunks ==> (id in s.db.chunks <==> id !in gone)
  }

  lemma ProgressKept(s: State, t: State, run: Gc, gone: set<ChunkId>, txn: set<ChunkId>, deleted: nat)
    requires Progress(s, run, gone, txn, deleted) && Rely(Collector, s, t)
    ensures Progress(t, run, gone, txn, deleted)
  {
    hide Evolves;
  }

  lemma ProgressCommitted(s: State, run: Gc, gone: set<ChunkId>, txn: set<ChunkId>, deleted: nat)
    requires Progress(s, run, gone, txn, deleted)
    ensures Enabled(s, GcCommit(txn)) && Next(s, GcCommit(txn)).now == s.now
    ensures Progress(Next(s, GcCommit(txn)), run, gone + txn, {}, deleted)
  {
    hide Next, Enabled;
    Collected(s, txn);
    assert |gone + txn| == |gone| + |txn|;
  }

  /** `txn.Commit`, which can fail and then deletes nothing. */
  method Commit(b: BadgerDB, txn: set<ChunkId>, ghost run: Gc, ghost gone: set<ChunkId>, ghost deleted: nat)
    returns (ok: bool)
    requires b.Valid() && Progress(b.state, run, gone, txn, deleted)
    modifies b`state, b`faults
    ensures b.Valid() && Evolves(old(b.state), b.state)
    ensures ok ==> Progress(b.state, run, gone + txn, {}, deleted)
    ensures !ok ==> Progress(b.state, run, gone, txn, deleted) && true in old(b.faults)
    ensures forall f :: f in b.faults ==> f in old(b.faults)
  {
    hide Inv, Next, Enabled, Evolves, Progress;
    EvolvesSelf(b.state);
    var failed := b.Fault();
    if failed { return false; }
    ProgressCommitted(b.state, run, gone, txn, deleted);
    b.Step(GcCommit(txn));
    return true;
  }

  /** `txn.Delete`. A transaction that is too big is committed, and the deletion goes
      into a new one. */
  method Delete(b: BadgerDB, id: ChunkId, txn: set<ChunkId>, fits: (set<ChunkId>, ChunkId) -> bool,
                ghost run: Gc, ghost gone: set<ChunkId>, ghost deleted: nat)
    returns (ok: bool, open: set<ChunkId>, ghost committed: set<ChunkId>)
    requires b.Valid() && Progress(b.state, run, gone, txn, deleted)
    requires id in Garbage(run) && id !in gone && id !in txn
    modifies b`state, b`faults
    ensures b.Valid() && Evolves(old(b.state), b.state)
    ensures Progress(b.state, run, committed, open, if ok then deleted + 1 else deleted)
    ensures ok ==> committed + open == gone + txn + {id}
    ensures !ok ==> true in old(b.faults) || !fits({}, id)
    ensures forall f :: f in b.faults ==> f in old(b.faults)
  {
    hide Inv, Next, Enabled, Evolves, Progress, Garbage;
    EvolvesSelf(b.state);
    open, committed := txn, gone;
    var failed := b.Fault();
    if failed { return false, open, committed; }
    if !fits(open, id) {
      ok := Commit(b, open, run, committed, deleted);
      if !ok { return; }
      committed := committed + open;
      open := {};
      if !fits(open, id) { return false, open, committed; }
    }
    DeleteOne(b.state, run, committed, open, deleted, id);
    open := open + {id};
    return true, open, committed;
  }

  /** An empty transaction has room for any one deletion. */
  predicate AlwaysFits(sn: Db, fits: (set<ChunkId>, ChunkId) -> bool) {
    forall id :: id in sn.chunks ==> fits({}, id)
  }

  lemma GarbageIsStored(sn: Db, at: int, id: ChunkId, fits: (set<ChunkId>, ChunkId) -> bool)
    requires id in Garbage(RunOf(sn, at)) && !fits({}, id)
    ensures !AlwaysFits(sn, fits)
  {}

  /** The loop over the snapshot's keys. `fits` says whether a transaction with some
      deletions has room for one more; the context is done after `patience` keys. */
  method Sweep(b: BadgerDB, ks: seq<Key>, index: Option<string>, locked: set<string>, keys: int, patience: nat,
               fits: (set<ChunkId>, ChunkId) -> bool, ghost sn: Db, ghost at: int)
    returns (deleted: nat, ok: bool, ghost gone: set<ChunkId>, ghost seen: nat)
    requires b.Valid() && b.state.gc == RunOf(sn, at) && Lists(ks, sn)
    requires OnlyGone(b.state, RunOf(sn, at), {})
    requires index == GetIndex(Visible(sn, at)) && locked == GetLockedTransaction(sn.pending)
    modifies b`state, b`others, b`faults
    ensures b.Valid() && Evolves(old(b.state), b.state) && b.state.gc == RunOf(sn, at)
    ensures gone <= Garbage(RunOf(sn, at)) && OnlyGone(b.state, RunOf(sn, at), gone)
    ensures ok ==> deleted == |gone| && (deleted == 0 || deleted <= keys)
    ensures ok ==> seen <= |ks| && seen <= patience && gone == Visited(ks, seen, Garbage(RunOf(sn, at)))
    ensures ok && gone != Garbage(RunOf(sn, at)) ==> deleted >= keys || patience < |ks|
    ensures !ok ==> deleted == 0 && (true in old(b.faults) || !AlwaysFits(sn, fits))
  {
    hide AlwaysFits, OnlyGone, Inv, Next, Enabled, Evolves, Progress, Garbage, Deletable, RunOf, GetIndex,
      GetLockedTransaction, Text, Split, HasPrefix, Visible, Visited, Lists;
    ghost var s0, run := b.state, RunOf(sn, at);
    EvolvesSelf(s0);
    deleted, gone, seen := 0, {}, 0;
    var txn: set<ChunkId> := {};
    var i := 0;
    NothingDeleted(s0, run, ks);
    while i < |ks|
      invariant i <= |ks| && b.Valid() && Evolves(s0, b.state)
      invariant Progress(b.state, run, gone, txn, deleted) && gone + txn == Visited(ks, i, Garbage(run))
      invariant (deleted == 0 || deleted <= keys) && i <= patience
      invariant forall f :: f in b.faults ==> f in old(b.faults)
    {
      if i >= patience { break; }
      if deleted >= keys { break; }
      ghost var s1 := b.state;
      b.Interfere(Collector);
      ProgressKept(s1, b.state, run, gone, txn, deleted);
      EvolvesTrans(s0, s1, b.state);
      VisitNext(ks, i, sn, at);
      var key := ks[i];
      i := i + 1;
      if Deletable(Text(key), index, locked) {
        ghost var s2 := b.state;
        ok, txn, gone := Delete(b, key.id, txn, fits, run, gone, deleted);
        EvolvesTrans(s0, s2, b.state);
        if !ok {
          ProgressMeans(b.state, run, gone, txn, deleted);
          if !fits({}, key.id) { GarbageIsStored(sn, at, key.id, fits); }
          return 0, false, gone, i;
        }
        deleted := deleted + 1;
      }
    }
    ghost var s3 := b.state;
    if i == |ks| { VisitedAll(ks, sn, at); }
    ok := Commit(b, txn, run, gone, deleted);
    EvolvesTrans(s0, s3, b.state);
    ProgressMeans(b.state, run, gone + (if ok then txn else {}), if ok then {} else txn, deleted);
    if !ok { return 0, false, gone, i; }
    gone := gone + txn;
    return deleted, true, gone, i;
  }

  lemma ProgressMeans(s: State, run: Gc, gone: set<ChunkId>, txn: set<ChunkId>, deleted: nat)
    requires Progress(s, run, gone, txn, deleted)
    ensures s.gc == run && gone <= Garbage(run) && (txn == {} ==> deleted == |gone|)
    ensures OnlyGone(s, run, gone)
  {}

  lemma VisitedAll(ks: seq<Key>, sn: Db, at: int)
    requires Lists(ks, sn)
    ensures Visited(ks, |ks|, Garbage(RunOf(sn, at))) == Garbage(RunOf(sn, at))
  {
    assert ks[..|ks|] == ks;
  }

  lemma NothingDeleted(s: State, run: Gc, ks: seq<Key>)
    requires s.gc == run && run.GcRunning? && OnlyGone(s, run, {})
    ensures Progress(s, run, {}, {}, 0) && Visited(ks, 0, Garbage(run)) == {}
  {}

  lemma DeleteOne(s: State, run: Gc, gone: set<ChunkId>, txn: set<ChunkId>, deleted: nat, id: ChunkId)
    requires Progress(s, run, gone, txn, deleted) && id in Garbage(run) && id !in gone && id !in txn
    ensures Progress(s, run, gone, txn + {id}, deleted + 1)
  {}

  /** What a sweep deletes comes before the garbage that it leaves. */
  lemma GoneFirst(ks: seq<Key>, seen: nat, sn: Db, at: int, reverse: bool)
    requires seen <= |ks| && Lists(ks, sn) && InOrder(ks, reverse)
    ensures var gone := Visited(ks, seen, Garbage(RunOf(sn, at)));
      |gone| <= seen && forall id, other :: id in gone && other in sn.chunks && other !in gone ==>
        || other.version in sn.pending
        || (sn.latest.Some? && at < sn.latest.value.expireAt && sn.latest.value.sequence == other.version)
        || (if reverse then Less(ChunkText(other), ChunkText(id)) else Less(ChunkText(id), ChunkText(other)))
  {
    hide RunOf, Garbage, Lists, InOrder, Visited, ChunkText, Less;
    var garbage := Garbage(RunOf(sn, at));
    GarbageIs(sn, at);
    VisitedFirst(ks, seen, garbage, sn, reverse);
    FewVisited(ks, seen, garbage);
  }

  /** The sweep over all keys of the snapshot, in one direction or the other. */
  method Collect(b: BadgerDB, sn: Db, reverse: bool, index: Option<string>, locked: set<string>, keys: int,
                 patience: nat, fits: (set<ChunkId>, ChunkId) -> bool, ghost at: int)
    returns (count: nat, ok: bool, ghost gone: set<ChunkId>)
    requires b.Valid() && b.state.gc == RunOf(sn, at) && OnlyGone(b.state, RunOf(sn, at), {})
    requires forall id :: id in sn.chunks ==> id.ulid < ULID_LIMIT
    requires index == GetIndex(Visible(sn, at)) && locked == GetLockedTransaction(sn.pending)
    modifies b`state, b`others, b`faults
    ensures b.Valid() && Evolves(old(b.state), b.state) && b.state.gc == RunOf(sn, at)
    ensures gone <= Garbage(RunOf(sn, at)) && OnlyGone(b.state, RunOf(sn, at), gone)
    ensures ok ==> count == |gone| && (count == 0 || count <= keys) && count <= patience
    ensures ok && count < keys && patience >= |sn.chunks| + 3 ==> gone == Garbage(RunOf(sn, at))
    ensures ok ==> forall id, other :: id in gone && other in sn.chunks && other !in gone ==>
      || other.version in sn.pending
      || (sn.latest.Some? && at < sn.latest.value.expireAt && sn.latest.value.sequence == other.version)
      || (if reverse then Less(ChunkText(other), ChunkText(id)) else Less(ChunkText(id), ChunkText(other)))
    ensures !ok ==> count == 0 && (true in old(b.faults) || !AlwaysFits(sn, fits))
  {
    hide Inv, Evolves, Garbage, RunOf, GetIndex, GetLockedTransaction, Visible, Lists, AlwaysFits, InOrder, Visited,
      Less, ChunkText, OnlyGone;
    var ks := Iterate(sn, reverse);
    ghost var seen;
    count, ok, gone, seen := Sweep(b, ks, index, locked, keys, patience, fits, sn, at);
    if ok { GoneFirst(ks, seen, sn, at, reverse); }
  }

  /** One collector run. Whatever it deletes, in either direction, however often the
      transaction is split and wherever it stops, belonged to versions that are not
      LATEST and never will be; it counts what it deleted, up to the cap; and unless
      it is cut short all the garbage of its snapshot is gone. */
  method Discard(b: BadgerDB, keys: int, reverse: bool, patience: nat, fits: (set<ChunkId>, ChunkId) -> bool)
    returns (count: nat, ok: bool, ghost gone: set<ChunkId>, ghost at: int)
    requires b.Valid() && b.state.gc == NoGc
    modifies b`state, b`others, b`faults
    ensures b.Valid() && Evolves(old(b.state), b.state) && b.state.gc == NoGc
    ensures old(b.state).now <= at <= b.state.now
    ensures gone <= Garbage(RunOf(old(b.state).db, at))
    ensures var sn := old(b.state).db;
      forall id :: id in gone ==>
        && id in sn.chunks && id.version !in sn.pending
        && (sn.latest.Some? && at < sn.latest.value.expireAt ==> sn.latest.value.sequence != id.version)
    ensures forall id :: id in old(b.state).db.chunks ==> (id in b.state.db.chunks <==> id !in gone)
    ensures forall id :: id in gone ==> Dead(b.state, id.version)
    ensures var latest := b.state.db.latest;
      latest.Some? && b.state.now < latest.value.expireAt ==>
        forall id :: id in gone ==> id.version != latest.value.sequence
    ensures ok ==> count == |gone| && (count == 0 || count <= keys)
    ensures var sn := old(b.state).db;
      ok && count < keys && patience >= |sn.chunks| + 3 ==>
        && gone == Garbage(RunOf(sn, at))
        && forall id :: id in sn.chunks ==>
             (id in b.state.db.chunks <==>
                || id.version in sn.pending
                || (sn.latest.Some? && at < sn.latest.value.expireAt && sn.latest.value.sequence == id.version))
    ensures var sn := old(b.state).db;
      ok ==> forall id, other :: id in gone && other in sn.chunks && other !in gone ==>
        || other.version in sn.pending
        || (sn.latest.Some? && at < sn.latest.value.expireAt && sn.latest.value.sequence == other.version)
        || (if reverse then Less(ChunkText(other), ChunkText(id)) else Less(ChunkText(id), ChunkText(other)))
    ensures ok ==> count <= patience
    ensures !ok ==> count == 0 && (true in old(b.faults) || !AlwaysFits(old(b.state).db, fits))
  {
    hide Inv, Next, Enabled, Evolves, Garbage, RunOf, GetIndex, GetLockedTransaction, Visible, Lists, Dead, AlwaysFits,
      Less, ChunkText;
    ghost var s0 := b.state;
    UlidsFit(s0);
    Collecting(s0);
    b.Step(GcBegin);
    ghost var s1 := b.state;
    b.Interfere(Collector);
    EvolvesTrans(s0, s1, b.state);
    ClockGrows(s0, b.state);
    ghost var s2 := b.state;
    var sn := b.state.gc.snapshot;
    at := b.state.now;
    var index, locked := GetIndex(Visible(sn, b.state.now)), GetLockedTransaction(sn.pending);
    var unread := b.Fault();
    if unread {
      count, ok, gone := 0, false, {};
      StoppingEarly(s2);
      b.Step(GcEnd);
      EvolvesTrans(s0, s2, b.state);
      return;
    }
    Indexing(b.state);
    b.Step(GcIndex);
    EvolvesTrans(s0, s2, b.state);
    ghost var s3 := b.state;
    ClockGrows(s2, s3);
    count, ok, gone := Collect(b, sn, reverse, index, locked, keys, patience, fits, at);
    EvolvesTrans(s0, s3, b.state);
    ClockGrows(s3, b.state);
    GarbageDies(b.state);
    GarbageIs(sn, at);
    ghost var s4 := b.state;
    Stopping(s4);
    b.Step(GcEnd);
    EvolvesTrans(s0, s4, b.state);
  }

  lemma UlidsFit(s: State)
    requires Inv(s)
    ensures forall id :: id in s.db.chunks ==> id.ulid < ULID_LIMIT
  {
    forall id | id in s.db.chunks ensures id.ulid < ULID_LIMIT {
      assert FromWriter(s, id, s.db.chunks[id]) && WriterOk(s, id.version);
    }
  }

  lemma Indexing(s: State)
    requires s.gc.GcOpened?
    ensures Enabled(s, GcIndex) && Next(s, GcIndex).gc == RunOf(s.gc.snapshot, s.now) && Next(s, GcIndex).db == s.db
  {}

  lemma Stopping(s: State)
    requires s.gc.GcRunning?
    ensures Enabled(s, GcEnd)
    ensures var t := Next(s, GcEnd); t.gc == NoGc && t.db == s.db && t.now == s.now
    ensures forall v :: Dead(s, v) ==> Dead(Next(s, GcEnd), v)
  {}

  lemma StoppingEarly(s: State)
    requires s.gc.GcOpened?
    ensures Enabled(s, GcEnd)
    ensures var t := Next(s, GcEnd); t.gc == NoGc && t.db == s.db && t.now == s.now
  {}

  lemma GarbageDies(s: State)
    requires Inv(s)
    ensures forall id :: id in Garbage(s.gc) ==> Dead(s, id.version)
    ensures s.db.latest.Some? && s.now < s.db.latest.value.expireAt ==>
      forall id :: id in Garbage(s.gc) ==> id.version != s.db.latest.value.sequence
  {}
}
