/** storage/batch_writer.go: a write batch that publishes early when it grows too
    large, and puts its version in PENDING before it does. */
module BatchWriter {
  import opened GoInt
  import opened Wrappers
  import opened Store
  import opened StoreInvariant
  import opened Interference
  import opened Badger
  import opened Keys

  const MAX_HEADER_SIZE := 21
  const CRC32_SIZE := 4

  function EstimateEntrySize(keyLen: nat, valueLen: nat): nat {
    MAX_HEADER_SIZE + keyLen + valueLen + CRC32_SIZE
  }

  /** An entry of a batch: the text of its key, and the length of its value. */
  datatype Entry = Entry(key: string, size: nat)

  /** What a batch of entries takes in bytes: key, value, and 25 more for each. */
  function Sum(batch: seq<Entry>): nat {
    if batch == [] then 0 else |batch[0].key| + batch[0].size + 25 + Sum(batch[1..])
  }

  lemma {:induction false} SumSnoc(batch: seq<Entry>, e: Entry)
    ensures Sum(batch + [e]) == Sum(batch) + |e.key| + e.size + 25
  {
    if batch == [] {
      assert batch + [e] == [e];
    } else {
      assert (batch + [e])[1..] == batch[1..] + [e];
      SumSnoc(batch[1..], e);
    }
  }

  /** A batch never takes more than the limit and its first entry. */
  predicate Bounded(batch: seq<Entry>, limit: nat) {
    Sum(batch) <= limit + Sum(batch[..if batch == [] then 0 else 1])
  }

  /** The counter knows every entry of the batch, except perhaps the first. */
  predicate Counts(batch: seq<Entry>, count: nat) {
    count == Sum(batch) || (batch != [] && count + Sum(batch[..1]) == Sum(batch))
  }

  /** The batches one after the other. */
  function Joined(batches: seq<seq<Entry>>): seq<Entry> {
    if batches == [] then [] else Joined(batches[..|batches| - 1]) + batches[|batches| - 1]
  }

  lemma JoinedSnoc(batches: seq<seq<Entry>>, batch: seq<Entry>)
    ensures Joined(batches + [batch]) == Joined(batches) + batch
  {
    assert (batches + [batch])[..|batches|] == batches;
  }

  function ChunkEntry(version: nat, c: StoredChunk): Entry {
    Entry(ChunkText(ChunkId(version, c.ulid)), |c.data|)
  }

  /** The entries of a copy's chunks, in order. */
  function Entries(version: nat, cs: seq<StoredChunk>): seq<Entry> {
    if cs == [] then [] else Entries(version, cs[..|cs| - 1]) + [ChunkEntry(version, cs[|cs| - 1])]
  }

  datatype Outcome = Done | StreamBroken | StoreFault | UlidsExhausted

  class BatchWriter {
    const b: BadgerDB
    const version: nat
    var batchSize: nat
    var once: bool
    /** The entries of the open batch, and those of the flushed ones. */
    ghost var open: seq<Entry>
    ghost var flushed: seq<seq<Entry>>

    ghost predicate AllBounded()
      reads this, b
    {
      Bounded(open, b.valueLogFileSize) && forall f :: f in flushed ==> Bounded(f, b.valueLogFileSize)
    }

    /** Every entry is in one batch, in order. */
    ghost predicate Accounted(entries: seq<Entry>)
      reads this
    {
      Joined(flushed) + open == entries
    }

    /** Our copy is writing, and is in PENDING if it has locked. */
    ghost predicate Writing()
      reads this, b
    {
      && b.Valid()
      && InPhase(b.state, version, Phase.Writing)
      && !Holds(b.state, version)
      && b.state.writers[version].locked == once
    }

    ghost predicate Valid()
      reads this, b
    {
      && Writing()
      && batchSize <= b.valueLogFileSize && Counts(open, batchSize)
      && AllBounded() && Accounted(Entries(version, Mine().chunks)) && (once <==> flushed != [])
    }

    /** Room has been made for an entry, which the counter may have seen already. */
    ghost predicate Ready(bytes: nat)
      reads this, b
    {
      && Writing()
      && batchSize <= b.valueLogFileSize
      && ((batchSize >= bytes && Counts(open, batchSize - bytes)) || (open == [] && batchSize == 0))
      && AllBounded() && Accounted(Entries(version, Mine().chunks)) && (once <==> flushed != [])
    }

    constructor (b: BadgerDB, version: nat)
      requires b.Valid() && InPhase(b.state, version, Phase.Writing) && !Holds(b.state, version)
      requires !b.state.writers[version].locked && b.state.writers[version].chunks == []
      ensures Valid() && this.b == b && this.version == version && open == [] && flushed == []
    {
      this.b, this.version, batchSize, once := b, version, 0, false;
      open, flushed := [], [];
    }

    function Mine(): CopyState
      requires version in b.state.writers
      reads this, b
    {
      b.state.writers[version]
    }

    /** Puts the version in PENDING, once. */
    method LockVersion() returns (ok: bool)
      requires Writing()
      modifies this`once, b`state, b`others, b`faults
      ensures b.Valid() && Evolves(old(b.state), b.state) && !Holds(b.state, version)
      ensures version in b.state.writers && Mine() == old(Mine()).(locked := old(once) || ok)
      ensures ok ==> once
      ensures !ok ==> true in old(b.faults)
      ensures forall f :: f in b.faults ==> f in old(b.faults)
      ensures Calm(old(b.others), b.others, old(b.state), b.state)
    {
      hide Inv, Next, Evolves;
      ghost var s0 := b.state;
      b.Lock(version);
      if once { return true; }
      once := true;
      ghost var s1 := b.state;
      b.StepOwn(LockRead(version), version);
      EvolvesTrans(s0, s1, b.state);
      ghost var s2 := b.state;
      b.Interfere(Copy(version));
      EvolvesTrans(s0, s2, b.state);
      var failed := b.Fault();
      ghost var s3 := b.state;
      b.StepOwn(if failed then LockFail(version) else LockWrite(version), version);
      EvolvesTrans(s0, s3, b.state);
      return !failed;
    }

    /** Publishes what the batch holds; a flush that fails publishes nothing. */
    method Flush() returns (ok: bool)
      requires Writing() && once
      modifies b`state, b`others, b`faults
      ensures Writing() && Evolves(old(b.state), b.state)
      ensures Mine() == old(Mine()).(published := if ok then |old(Mine()).chunks| else old(Mine()).published)
      ensures !ok ==> true in old(b.faults)
      ensures forall f :: f in b.faults ==> f in old(b.faults)
      ensures Calm(old(b.others), b.others, old(b.state), b.state)
    {
      hide Inv, Next, Evolves;
      ghost var s0 := b.state;
      b.Interfere(Copy(version));
      ghost var s1 := b.state;
      var failed := b.Fault();
      if failed { return false; }
      AllPublished(b.state, version);
      b.StepOwn(FlushPart(version, |Mine().chunks|), version);
      EvolvesTrans(s0, s1, b.state);
      return true;
    }

    static lemma AllPublished(s: State, v: nat)
      requires Inv(s) && v in s.writers
      ensures s.writers[v].published <= |s.writers[v].chunks|
    {
      WriterFacts(s, v);
    }

    /** Counts an entry that is about to be set; if the batch would grow too large,
        locks the version, publishes the batch and starts a new one. */
    method Validate(key: string, size: nat) returns (ok: bool)
      requires Valid()
      modifies this, b`state, b`others, b`faults
      ensures b.Valid() && Evolves(old(b.state), b.state) && !Holds(b.state, version)
      ensures ok ==> Ready(|key| + size + 25)
      ensures old(batchSize) + |key| + size + 25 <= b.valueLogFileSize ==>
        && ok && b.state == old(b.state) && batchSize == old(batchSize) + |key| + size + 25
        && open == old(open) && flushed == old(flushed)
      ensures ok && old(batchSize) + |key| + size + 25 > b.valueLogFileSize ==>
        && Mine().locked && Mine().published == |Mine().chunks| && batchSize == 0
        && open == [] && flushed == old(flushed) + [old(open)]
      ensures InPhase(b.state, version, Phase.Writing) && AllBounded()
      ensures Mine().chunks == old(Mine()).chunks && Mine().index == old(Mine()).index
      ensures !ok ==> true in old(b.faults)
      ensures forall f :: f in b.faults ==> f in old(b.faults)
      ensures Calm(old(b.others), b.others, old(b.state), b.state)
    {
      hide Inv, Next, Evolves, Bounded, Counts, Sum, Entries, Joined;
      ghost var s0 := b.state;
      EvolvesSelf(s0);
      batchSize := batchSize + EstimateEntrySize(|key|, size);
      if batchSize > b.valueLogFileSize {
        ok := LockVersion();
        if !ok { return; }
        ghost var s1 := b.state;
        ok := Flush();
        EvolvesTrans(s0, s1, b.state);
        if !ok { return; }
        NextBatch(flushed, open, b.valueLogFileSize);
        flushed := flushed + [open];
        open := [];
        batchSize := 0;
      }
      return true;
    }

    static lemma BoundedBatch(batch: seq<Entry>, count: nat, limit: nat)
      requires Counts(batch, count) && count <= limit
      ensures Bounded(batch, limit)
    {}

    static lemma NextBatch(flushed: seq<seq<Entry>>, open: seq<Entry>, limit: nat)
      ensures Joined(flushed + [open]) + [] == Joined(flushed) + open
      ensures Bounded([], limit) && (forall count :: count == 0 ==> Counts([], count))
    {
      JoinedSnoc(flushed, open);
    }

    static lemma NextEntry(version: nat, cs: seq<StoredChunk>, c: StoredChunk, before: seq<Entry>, open: seq<Entry>)
      requires before + open == Entries(version, cs)
      ensures before + (open + [ChunkEntry(version, c)]) == Entries(version, cs + [c])
    {
      hide ChunkEntry, Joined;
      assert (cs + [c])[..|cs|] == cs;
      assert before + (open + [ChunkEntry(version, c)]) == (before + open) + [ChunkEntry(version, c)];
    }

    static lemma CountsOne(batch: seq<Entry>, count: nat, e: Entry)
      requires var bytes := |e.key| + e.size + 25;
        (count >= bytes && Counts(batch, count - bytes)) || (batch == [] && count == 0)
      ensures Counts(batch + [e], count)
    {
      SumSnoc(batch, e);
      assert batch != [] ==> (batch + [e])[..1] == batch[..1];
      assert batch == [] ==> (batch + [e])[..1] == batch + [e];
    }

    /** `SetEntry` for a chunk, under a ULID drawn for it. */
    method SetEntry(ulid: nat, data: Bytes)
      requires Ready(|ChunkText(ChunkId(version, ulid))| + |data| + 25)
      requires ulid < b.state.nextUlid && forall c :: c in Mine().chunks ==> c.ulid < ulid
      modifies this`open, b`state
      ensures Valid() && Evolves(old(b.state), b.state)
      ensures Mine() == old(Mine()).(chunks := old(Mine()).chunks + [StoredChunk(ulid, data)])
      ensures b.state.db.latest == old(b.state.db.latest) && b.state.now == old(b.state.now)
    {
      hide Inv, Next, Evolves, Bounded, Counts, Sum, Entries;
      ghost var entry := ChunkEntry(version, StoredChunk(ulid, data));
      CountsOne(open, batchSize, entry);
      BoundedBatch(open + [entry], batchSize, b.valueLogFileSize);
      NextEntry(version, Mine().chunks, StoredChunk(ulid, data), Joined(flushed), open);
      b.StepOwn(Event.SetEntry(version, ulid, data), version);
      open := open + [entry];
    }

    /** One chunk: a ULID for its key, room in the batch, and the entry. */
    method PutChunk(data: Bytes) returns (result: Outcome)
      requires Valid()
      modifies this, b`state, b`others, b`faults
      ensures b.Valid() && Evolves(old(b.state), b.state)
      ensures !Holds(b.state, version) && InPhase(b.state, version, Phase.Writing)
      ensures Mine().index == None && AllBounded()
      ensures result == Done ==> Valid()
      ensures result == Done ==> exists ulid :: Mine().chunks == old(Mine()).chunks + [StoredChunk(ulid, data)]
      ensures result != StreamBroken && (result == StoreFault ==> true in old(b.faults))
      ensures result == UlidsExhausted ==> b.state.nextUlid >= ULID_LIMIT
      ensures forall f :: f in b.faults ==> f in old(b.faults)
      ensures Calm(old(b.others), b.others, old(b.state), b.state)
    {
      hide Inv, Next, Evolves, Bounded, Counts, Sum, Entries, Joined, ChunkText;
      ghost var s0, cs := b.state, Mine().chunks;
      NoIndexYet(b.state, version);
      var ulid, drawn := b.NewUlid(version);
      if !drawn { return UlidsExhausted; }
      ghost var s1 := b.state;
      var key := ChunkText(ChunkId(version, ulid));
      var ok := Validate(key, |data|);
      EvolvesTrans(s0, s1, b.state);
      if !ok { return StoreFault; }
      ghost var s2 := b.state;
      ClockGrows(s1, s2);
      SetEntry(ulid, data);
      EvolvesTrans(s0, s2, b.state);
      assert Mine().chunks == cs + [StoredChunk(ulid, data)];
      return Done;
    }

    static lemma NoIndexYet(s: State, v: nat)
      requires Inv(s) && InPhase(s, v, Phase.Writing)
      ensures s.writers[v].index == None
    {
      WriterFacts(s, v);
    }

    /** The LATEST entry joins those of the chunks. */
    ghost method CountLast(e: Entry)
      requires Ready(|e.key| + e.size + 25)
      modifies this`open
      ensures Writing() && AllBounded() && Accounted(Entries(version, Mine().chunks) + [e])
      ensures once <==> flushed != []
    {
      hide Bounded, Counts, Sum, Entries;
      CountsOne(open, batchSize, e);
      BoundedBatch(open + [e], batchSize, b.valueLogFileSize);
      open := open + [e];
    }

    /** The last flush of a copy: what is left in the batch, and LATEST. */
    method Finish(index: Clipboard) returns (ok: bool)
      requires Writing() && index.sequence == version
      modifies b`state, b`others, b`faults
      ensures b.Valid() && Evolves(old(b.state), b.state) && !Holds(b.state, version)
      ensures version in b.state.writers
      ensures ok ==> Mine() == old(Mine()).(published := |old(Mine()).chunks|, phase := Finished, index := Some(index))
      ensures ok ==> b.state.db.latest == Some(index)
      ensures !ok ==> Mine() == old(Mine()) && true in old(b.faults)
      ensures forall f :: f in b.faults ==> f in old(b.faults)
      ensures !ok ==> Calm(old(b.others), b.others, old(b.state), b.state)
      ensures old(b.others) == [] ==> b.others == [] && b.state.now == old(b.state.now)
    {
      hide Inv, Next, Evolves;
      ghost var s0 := b.state;
      b.Interfere(Copy(version));
      ghost var s1 := b.state;
      var failed := b.Fault();
      if failed { return false; }
      b.FinishOwn(version, index);
      EvolvesTrans(s0, s1, b.state);
      return true;
    }

    /** `Cancel`, then out of PENDING. An update that fails leaves the version there. */
    method Release() returns (ok: bool)
      requires b.Valid() && !Holds(b.state, version)
      requires InPhase(b.state, version, Phase.Writing) || InPhase(b.state, version, Finished)
      modifies b`state, b`others, b`faults
      ensures b.Valid() && Evolves(old(b.state), b.state)
      ensures version in b.state.writers && Mine() == old(Mine()).(phase := Released)
      ensures version in b.state.db.pending <==> !ok && old(Mine().locked)
      ensures !ok ==> true in old(b.faults)
      ensures forall f :: f in b.faults ==> f in old(b.faults)
      ensures Calm(old(b.others), b.others, old(b.state), b.state)
      ensures old(b.state.db.latest).Some? ==> b.state.db.latest.Some?
    {
      hide Inv, Next, Evolves;
      ghost var s0 := b.state;
      b.Lock(version);
      ghost var s1 := b.state;
      b.StepOwn(UnlockRead(version), version);
      EvolvesTrans(s0, s1, b.state);
      ghost var s2 := b.state;
      b.Interfere(Copy(version));
      EvolvesTrans(s0, s2, b.state);
      var failed := b.Fault();
      ghost var s3 := b.state;
      b.UnlockOwn(version, failed);
      EvolvesTrans(s0, s3, b.state);
      return !failed;
    }
  }
}
