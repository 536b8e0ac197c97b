/** storage/badger.go: storing a copied stream, and streaming the stored one. */
module Storage {
  import opened GoInt
  import opened Wrappers
  import opened Store
  import opened StoreInvariant
  import opened Interference
  import opened Badger
  import opened BatchWriter
  import opened Keys
  import opened Scan
  import Streams

  /** The contents of a copy's chunks, in order. */
  function Contents(cs: seq<StoredChunk>): seq<Bytes> {
    if cs == [] then [] else [cs[0].data] + Contents(cs[1..])
  }

  lemma {:induction false} ContentsSnoc(cs: seq<StoredChunk>, c: StoredChunk)
    ensures Contents(cs + [c]) == Contents(cs) + [c.data]
  {
    if cs == [] {
      assert cs + [c] == [c];
    } else {
      assert (cs + [c])[1..] == cs[1..] + [c];
      ContentsSnoc(cs[1..], c);
    }
  }

  /** The chunks of `version` are the payload, cut into pieces of the chunk size. */
  ghost predicate StoredPieces(s: State, version: nat, payload: Bytes, chunkSize: nat) {
    && version in s.writers && chunkSize > 0
    && Contents(s.writers[version].chunks) == Streams.Pieces(payload, chunkSize)
  }

  /** Another copy ended in between and is what LATEST names now. */
  predicate Superseded(s: State, t: State, version: nat) {
    EndedSince(s, t, t.db.latest) && t.db.latest.value.sequence != version
  }

  /** LATEST after the release: still ours, or of a copy that ended since we began. */
  lemma LatestAfter(s: State, t: State, u: State, version: nat, index: Option<Clipboard>)
    requires Evolves(s, t) && Evolves(t, u) && version in t.writers && t.writers[version].index == index
    requires index.Some? && index.value.sequence == version && t.db.latest == index && u.db.latest.Some?
    ensures u.db.latest == index || Superseded(s, u, version)
  {
    if u.db.latest != index {
      var v := u.db.latest.value.sequence;
      assert EndedSince(t, u, u.db.latest);
      if v in s.writers { assert WriterEvolves(s.writers[v], t.writers[v]); }
    }
  }

  /** Reads the stream in buffers of the chunk size and stores each as one entry;
      LATEST goes with the last flush, and stays this copy's until another ends.
      Whatever happens, the version is released, and
      is out of PENDING then unless the update that should do it fails. */
  method WriteBatch(b: BadgerDB, r: Streams.Reader, ttl: int, compressed: bool,
                    masterKeyNonce: Bytes, keyNonce: Bytes, iv: Bytes, indexLen: nat)
    returns (version: nat, written: nat, result: Outcome, ghost index: Option<Clipboard>,
      ghost batches: seq<seq<Entry>>, released: bool)
    requires b.Valid() && r.Valid() && r.r.checksum == []
    modifies b`state, b`others, b`faults, r, r.r
    ensures b.Valid() && Evolves(old(b.state), b.state)
    ensures version in b.state.writers && version !in old(b.state).writers
    ensures b.state.writers[version].phase == Released && b.state.writers[version].index == index
    ensures version in b.state.db.pending <==> !released && b.state.writers[version].locked
    ensures !released ==> true in old(b.faults)
    ensures result == Done <==> index.Some?
    ensures result == Done ==>
      && old(r.End()).Proper?
      && StoredPieces(b.state, version, old(r.Ahead()), b.chunkSize)
      && written == |old(r.Ahead())|
      && index.value == Clipboard(version, index.value.expireAt, compressed, masterKeyNonce, keyNonce, iv,
           if old(r.End()).checksum.Some? then old(r.End()).checksum.value else [], written)
    ensures result == Done ==> old(b.state).now + ttl <= index.value.expireAt <= b.state.now + ttl
    ensures result == Done ==> b.state.db.latest == index || Superseded(old(b.state), b.state, version)
    ensures old(b.others) == [] ==>
      && b.others == [] && b.state.now == old(b.state).now
      && b.state.db.latest == if result == Done then index else old(b.state).db.latest
    ensures forall f :: f in b.faults ==> f in old(b.faults)
    ensures result != Done ==> written == 0 && (b.state.db.latest.Some? ==> b.state.db.latest.value.sequence != version)
    ensures result == StreamBroken ==> old(r.End()).Broken?
    ensures result == StoreFault ==> true in old(b.faults)
    ensures result == UlidsExhausted ==> b.state.nextUlid >= ULID_LIMIT
    ensures forall f :: f in batches ==> Bounded(f, b.valueLogFileSize)
    ensures result == Done ==>
      Joined(batches)
      == Entries(version, b.state.writers[version].chunks) + [Entry(LATEST_KEY, indexLen)]
    ensures result == Done ==> (b.state.writers[version].locked <==> |batches| > 1)
  {
    hide Inv, Next, Evolves, Bounded, Counts, Sum, Entries, Joined, Contents, Streams.Pieces, Streams.EndingOf,
      Streams.Payload;
    ghost var s0 := b.state;
    version := BeginCopy(b);
    ghost var s1 := b.state;
    var batch := new BatchWriter(b, version);
    written, result, index := Transfer(
      b, batch, r, ttl, compressed, masterKeyNonce, keyNonce, iv, indexLen);
    EvolvesTrans(s0, s1, b.state);
    ClockGrows(s0, s1);
    ghost var s2 := b.state;
    released := batch.Release();
    if result == Done { LatestAfter(s0, s2, b.state, version, index); }
    ClockGrows(s2, b.state);
    EvolvesTrans(s0, s2, b.state);
    batches := batch.flushed + [batch.open];
    JoinedSnoc(batch.flushed, batch.open);
    if result != Done { NeverNamed(b.state, version); }
  }

  /** `b.seq.Next()`, after others have run. */
  method BeginCopy(b: BadgerDB) returns (version: nat)
    requires b.Valid()
    modifies b`state, b`others
    ensures b.Valid() && Evolves(old(b.state), b.state) && Calm(old(b.others), b.others, old(b.state), b.state)
    ensures version !in old(b.state).writers && version in b.state.writers
    ensures b.state.writers[version] == CopyState(Phase.Writing, false, [], 0, None) && !Holds(b.state, version)
  {
    hide Inv, Next, Evolves;
    ghost var s0 := b.state;
    b.Interfere(Nobody);
    ghost var s1 := b.state;
    version := b.NextVersion();
    StillNew(s0, s1, version);
    EvolvesTrans(s0, s1, b.state);
  }

  /** The stream, and LATEST behind it if it ended properly. */
  method Transfer(b: BadgerDB, batch: BatchWriter, r: Streams.Reader, ttl: int, compressed: bool,
                  masterKeyNonce: Bytes, keyNonce: Bytes, iv: Bytes, indexLen: nat)
    returns (written: nat, result: Outcome, ghost index: Option<Clipboard>)
    requires batch.b == b && batch.Valid() && batch.Mine().chunks == [] && batch.Mine().index == None
    requires r.Valid() && r.r.checksum == [] && b.chunkSize > 0
    modifies batch, b`state, b`others, b`faults, r, r.r
    ensures b.Valid() && Evolves(old(b.state), b.state) && !Holds(b.state, batch.version)
    ensures InPhase(b.state, batch.version, Phase.Writing) || InPhase(b.state, batch.version, Finished)
    ensures batch.Mine().index == index && batch.AllBounded()
    ensures result == Done <==> index.Some?
    ensures result == Done ==>
      && old(r.End()).Proper?
      && StoredPieces(b.state, batch.version, old(r.Ahead()), b.chunkSize)
      && written == |old(r.Ahead())|
      && index.value == Clipboard(batch.version, index.value.expireAt, compressed, masterKeyNonce, keyNonce, iv,
           if old(r.End()).checksum.Some? then old(r.End()).checksum.value else [], written)
      && old(b.state).now + ttl <= index.value.expireAt <= b.state.now + ttl
      && b.state.db.latest == index
      && batch.Accounted(Entries(batch.version, batch.Mine().chunks) + [Entry(LATEST_KEY, indexLen)])
      && (batch.Mine().locked <==> batch.flushed != [])
    ensures result != Done ==> written == 0
    ensures result == StreamBroken ==> old(r.End()).Broken?
    ensures result == StoreFault ==> true in old(b.faults)
    ensures result == UlidsExhausted ==> b.state.nextUlid >= ULID_LIMIT
    ensures forall f :: f in b.faults ==> f in old(b.faults)
    ensures result != Done ==> Calm(old(b.others), b.others, old(b.state), b.state)
    ensures old(b.others) == [] ==> b.others == [] && b.state.now == old(b.state.now)
  {
    hide Inv, Next, Evolves, Bounded, Counts, Sum, Entries, Joined, Contents,
      Streams.Pieces, Streams.EndingOf, Streams.Payload;
    ghost var s0 := b.state;
    var buf := new byte[b.chunkSize];
    written, result := ReadStream(b, batch, r, buf);
    if result != Done { return 0, result, None; }
    ghost var s1 := b.state;
    ClockGrows(s0, s1);
    result, index := WriteIndex(
      b, batch, ttl, compressed, masterKeyNonce, keyNonce, iv, r.r.checksum, written, indexLen);
    EvolvesTrans(s0, s1, b.state);
    if result != Done { written := 0; }
  }

  /** A copy that has not set LATEST is not what LATEST names. */
  lemma NeverNamed(s: State, v: nat)
    requires Inv(s) && v in s.writers && s.writers[v].index == None
    ensures s.db.latest.Some? ==> s.db.latest.value.sequence != v
  {}

  /** The read loop: every full buffer, and the shorter one at the end, is stored. */
  method ReadStream(b: BadgerDB, batch: BatchWriter, r: Streams.Reader, buf: array<byte>)
    returns (written: nat, result: Outcome)
    requires batch.b == b && batch.Valid() && batch.Mine().chunks == [] && batch.Mine().index == None
    requires r.Valid() && r.r.checksum == [] && buf.Length == b.chunkSize
    modifies batch, b`state, b`others, b`faults, r, r.r, buf
    ensures b.Valid() && Evolves(old(b.state), b.state) && !Holds(b.state, batch.version)
    ensures InPhase(b.state, batch.version, Phase.Writing) && batch.Mine().index == None && batch.AllBounded()
    ensures result == Done ==>
      && batch.Valid() && old(r.End()).Proper?
      && Contents(batch.Mine().chunks) == Streams.Pieces(old(r.Ahead()), b.chunkSize)
      && written == |old(r.Ahead())|
      && r.r.checksum == (if old(r.End()).checksum.Some? then old(r.End()).checksum.value else [])
    ensures result == StreamBroken ==> old(r.End()).Broken?
    ensures result == StoreFault ==> true in old(b.faults)
    ensures result == UlidsExhausted ==> b.state.nextUlid >= ULID_LIMIT
    ensures forall f :: f in b.faults ==> f in old(b.faults)
    ensures Calm(old(b.others), b.others, old(b.state), b.state)
  {
    hide Inv, Next, Evolves, Bounded, Counts, Sum, Entries, Joined;
    ghost var s0, payload, n := b.state, r.Ahead(), b.chunkSize;
    EvolvesSelf(s0);
    written := 0;
    while true
      invariant r.Valid() && r.End() == old(r.End()) && r.r.checksum == []
      invariant batch.Valid() && batch.Mine().index == None && Evolves(s0, b.state)
      invariant Calm(old(b.others), b.others, s0, b.state)
      invariant forall f :: f in b.faults ==> f in old(b.faults)
      invariant Streams.Full(payload, n) == Contents(batch.Mine().chunks) + Streams.Full(r.Ahead(), n)
      invariant Streams.Rest(payload, n) == Streams.Rest(r.Ahead(), n)
      invariant written + |r.Ahead()| == |payload|
      decreases |r.Ahead()|
    {
      ghost var ahead, done := r.Ahead(), Contents(batch.Mine().chunks);
      var nr, status := r.Read(buf);
      if status == Streams.Failure { return written, StreamBroken; }
      ghost var s1, cs := b.state, batch.Mine().chunks;
      if status == Streams.EOF {
        Streams.NothingLeft(ahead, n);
        assert done + [] == done;
        if nr > 0 {
          result := batch.PutChunk(buf[..nr]);
          EvolvesTrans(s0, s1, b.state);
          if result != Done { return; }
          AddedContents(cs, batch.Mine().chunks, buf[..nr]);
          written := written + nr;
        }
        return written, Done;
      }
      Streams.NextPiece(ahead, ahead[..n], ahead[n..], n, done);
      assert ahead == ahead[..n] + ahead[n..];
      assert buf[..nr] == buf[..];
      result := batch.PutChunk(buf[..nr]);
      EvolvesTrans(s0, s1, b.state);
      if result != Done { return; }
      AddedContents(cs, batch.Mine().chunks, buf[..nr]);
      written := written + nr;
    }
  }

  lemma AddedContents(cs: seq<StoredChunk>, more: seq<StoredChunk>, data: Bytes)
    requires exists ulid :: more == cs + [StoredChunk(ulid, data)]
    ensures Contents(more) == Contents(cs) + [data]
  {
    var ulid :| more == cs + [StoredChunk(ulid, data)];
    ContentsSnoc(cs, StoredChunk(ulid, data));
  }

  /** The LATEST entry, counted like any other, and the flush that carries it. */
  method WriteIndex(b: BadgerDB, batch: BatchWriter, ttl: int, compressed: bool,
                    masterKeyNonce: Bytes, keyNonce: Bytes, iv: Bytes, checksum: Bytes, size: nat, indexLen: nat)
    returns (result: Outcome, ghost index: Option<Clipboard>)
    requires batch.b == b && batch.Valid() && batch.Mine().index == None
    modifies batch, b`state, b`others, b`faults
    ensures b.Valid() && Evolves(old(b.state), b.state) && !Holds(b.state, batch.version)
    ensures InPhase(b.state, batch.version, Phase.Writing) || InPhase(b.state, batch.version, Finished)
    ensures batch.Mine().chunks == old(batch.Mine()).chunks && batch.Mine().index == index
    ensures result == Done <==> index.Some?
    ensures batch.AllBounded()
    ensures result == Done ==>
      && batch.Accounted(Entries(batch.version, batch.Mine().chunks) + [Entry(LATEST_KEY, indexLen)])
      && (batch.Mine().locked <==> batch.flushed != [])
      && old(b.state).now + ttl <= index.value.expireAt <= b.state.now + ttl
    ensures result == Done ==>
      index.value == Clipboard(
        batch.version, index.value.expireAt, compressed, masterKeyNonce, keyNonce, iv, checksum, size)
    ensures result == Done || (result == StoreFault && true in old(b.faults))
    ensures forall f :: f in b.faults ==> f in old(b.faults)
    ensures result == Done ==> b.state.db.latest == index
    ensures result != Done ==> Calm(old(b.others), b.others, old(b.state), b.state)
    ensures old(b.others) == [] ==> b.others == [] && b.state.now == old(b.state.now)
  {
    hide Inv, Next, Evolves, Bounded, Counts, Sum, Entries;
    ghost var s0 := b.state;
    index := None;
    var ok := batch.Validate(LATEST_KEY, indexLen);
    if !ok { return StoreFault, None; }
    batch.CountLast(Entry(LATEST_KEY, indexLen));
    ghost var s1 := b.state;
    ClockGrows(s0, s1);
    var cb := Clipboard(batch.version, b.state.now + ttl, compressed, masterKeyNonce, keyNonce, iv, checksum, size);
    ok := batch.Finish(cb);
    ClockGrows(s1, b.state);
    EvolvesTrans(s0, s1, b.state);
    if !ok { return StoreFault, None; }
    return Done, Some(cb);
  }

  // ----------------------------------------------------------------- pasting

  datatype ReadOutcome = Sent | SendFailed | NotFound | ReadFault

  /** All the messages of a paste: the info header, and the stored bytes. */
  function PasteFrames(index: Clipboard, cs: seq<StoredChunk>, n: nat): (frames: seq<Streams.Frame>)
    requires n > 0
    ensures frames != []
    ensures frames[0] == Streams.InfoFrame(Streams.Header(
      0, |index.checksum| > 0, index.compressed, index.masterKeyNonce, index.keyNonce, index.iv))
  {
    [Streams.InfoFrame(HeaderOf(index))] + Streams.FramesOf(Streams.Concat(Contents(cs)), index.checksum, n)
  }

  /** What they carry. */
  lemma PasteFramesCarry(index: Clipboard, cs: seq<StoredChunk>, n: nat)
    requires n > 0
    ensures var frames, data := PasteFrames(index, cs, n), Streams.Concat(Contents(cs));
      && Streams.Framed(frames[1..], data, index.checksum, n)
      && Streams.EndingOf(frames[1..], true)
         == Streams.Proper(if index.checksum == [] then None else Some(index.checksum))
  {
    var data := Streams.Concat(Contents(cs));
    assert PasteFrames(index, cs, n)[1..] == Streams.FramesOf(data, index.checksum, n);
    Streams.PayloadOfFrames(data, index.checksum, n);
    Streams.FramesAreFramed(data, index.checksum, n);
  }

  lemma {:induction false} ContentsInOrder(cs: seq<StoredChunk>)
    ensures |Contents(cs)| == |cs| && forall i :: 0 <= i < |cs| ==> Contents(cs)[i] == cs[i].data
  {
    if cs != [] { ContentsInOrder(cs[1..]); }
  }

  function HeaderOf(index: Clipboard): Streams.Header {
    Streams.Header(0, |index.checksum| > 0, index.compressed, index.masterKeyNonce, index.keyNonce, index.iv)
  }

  /** Streams the copy that LATEST named when the transaction began, complete and in
      order, however many copies, pastes and collector runs go on meanwhile. A peer
      that stops taking messages has got the first of them, and so has one whose
      stream ends because a value cannot be read. */
  method ReadBatch(b: BadgerDB, me: nat, sw: Streams.Writer) returns (read: nat, outcome: ReadOutcome)
    requires b.Valid() && me !in b.state.readers && sw.Valid() && sw.Pending() == []
    modifies b`state, b`others, b`faults, sw, sw.t, sw.s
    ensures b.Valid() && Evolves(old(b.state), b.state) && me !in b.state.readers
    ensures Calm(old(b.others), b.others, old(b.state), b.state)
    ensures var latest := old(b.state).db.latest;
      && (outcome == NotFound ==> latest == None || latest.value.expireAt <= b.state.now)
      && (latest == None || latest.value.expireAt <= old(b.state).now ==>
            outcome != Sent && outcome != SendFailed && sw.s.sent == old(sw.s.sent))
    ensures outcome == NotFound ==> sw.s.sent == old(sw.s.sent) && sw.s.healthy == old(sw.s.healthy) && read == 0
    ensures outcome == ReadFault ==> true in old(b.faults) && read == 0
    ensures outcome == ReadFault && sw.s.sent != old(sw.s.sent) ==>
      var s := old(b.state);
      && Visible(s.db, s.now).Some? && s.db.latest.value.sequence in s.writers
      && var index := s.db.latest.value;
         Streams.CutOff(old(sw.s.sent), PasteFrames(index, s.writers[index.sequence].chunks, sw.t.Length), sw.s.sent)
    ensures outcome == Sent || outcome == SendFailed ==>
      var s := old(b.state);
      && Visible(s.db, s.now).Some? && s.db.latest.value.sequence in s.writers
      && var index := s.db.latest.value;
         var cs := s.writers[index.sequence].chunks;
         var frames := PasteFrames(index, cs, sw.t.Length);
         && sw.s.sent == Streams.Took(old(sw.s.sent), frames, old(sw.s.healthy))
         && (outcome == Sent <==> |frames| <= old(sw.s.healthy))
         && read == if outcome == Sent then |Streams.Concat(Contents(cs))| else 0
  {
    hide Inv, Next, Evolves, Enabled, Visible, Exactly, PasteFrames, Streams.Took, Streams.CutOff;
    ghost var s0 := b.state;
    LatestIsWhole(s0);
    BeginPaste(b, me);
    ghost var s1 := b.state;
    VisibleIs(s0.db, s0.now);
    VisibleIs(s0.db, s1.now);
    ClockGrows(s0, s1);
    var sn := b.state.readers[me].snapshot;
    var failed := b.Fault();
    var item := Visible(sn, b.state.now);
    if failed || item.None? {
      read, outcome := 0, if failed then ReadFault else NotFound;
    } else {
      StillVisible(sn, s0, s1);
      Indexed(b.state, me);
      CanIndex(b.state, me);
      b.Step(ReadIndex(me));
      EvolvesTrans(s0, s1, b.state);
      read, outcome := SendStream(b, sn, item.value, sw, s0.writers[item.value.sequence].chunks);
    }
    ghost var s2 := b.state;
    EndPaste(b, me);
    EvolvesTrans(s0, s2, b.state);
    ClockGrows(s2, b.state);
    StillNone(sn, s2.now, b.state.now);
  }

  /** The transaction takes its snapshot, and others run. */
  method BeginPaste(b: BadgerDB, me: nat)
    requires b.Valid() && me !in b.state.readers
    modifies b`state, b`others
    ensures b.Valid() && Evolves(old(b.state), b.state) && Calm(old(b.others), b.others, old(b.state), b.state)
    ensures me in b.state.readers && b.state.readers[me] == Opened(old(b.state).db)
  {
    hide Inv, Next, Evolves, Enabled;
    ghost var s0 := b.state;
    CanBegin(s0, me);
    Begun(s0, me);
    b.Step(ReadBegin(me));
    ghost var s1 := b.state;
    b.Interfere(Paste(me));
    EvolvesTrans(s0, s1, b.state);
  }

  /** Others run, and the transaction ends. */
  method EndPaste(b: BadgerDB, me: nat)
    requires b.Valid() && me in b.state.readers
    modifies b`state, b`others
    ensures b.Valid() && Evolves(old(b.state), b.state) && Calm(old(b.others), b.others, old(b.state), b.state)
    ensures me !in b.state.readers
  {
    hide Inv, Next, Evolves, Enabled;
    ghost var s0 := b.state;
    b.Interfere(Paste(me));
    ghost var s1 := b.state;
    CanEnd(b.state, me);
    Ended(b.state, me);
    b.Step(ReadEnd(me));
    EvolvesTrans(s0, s1, b.state);
  }

  lemma CanBegin(s: State, r: nat)
    requires r !in s.readers
    ensures Enabled(s, ReadBegin(r))
  {}

  lemma CanIndex(s: State, r: nat)
    requires r in s.readers && s.readers[r].Opened? && Visible(s.readers[r].snapshot, s.now).Some?
    ensures Enabled(s, ReadIndex(r)) && s.readers[r].snapshot.latest.Some?
  {}

  lemma CanEnd(s: State, r: nat)
    requires r in s.readers
    ensures Enabled(s, ReadEnd(r))
  {}

  /** What LATEST names, and the keys around it. */
  lemma LatestIsWhole(s: State)
    requires Inv(s)
    ensures forall id :: id in s.db.chunks ==> id.ulid < ULID_LIMIT
    ensures Visible(s.db, s.now).Some? ==>
      var v := s.db.latest.value.sequence;
      v in s.writers && Exactly(s.db.chunks, v, s.writers[v].chunks) && Ascending(s.writers[v].chunks)
  {
    LatestIsComplete(s);
    forall id | id in s.db.chunks ensures id.ulid < ULID_LIMIT {
      assert FromWriter(s, id, s.db.chunks[id]) && WriterOk(s, id.version);
    }
    if Visible(s.db, s.now).Some? { assert WriterOk(s, s.db.latest.value.sequence); }
  }

  lemma StillVisible(sn: Db, s: State, t: State)
    requires Evolves(s, t) && Visible(sn, t.now).Some?
    ensures Visible(sn, s.now).Some? && Visible(sn, t.now) == sn.latest
  {}

  lemma StillNone(sn: Db, from: int, to: int)
    requires from <= to
    ensures Visible(sn, from) == None ==> Visible(sn, to) == None
  {}

  /** Inside the transaction: the header, the chunks under the version's prefix, and
      what is left in the writer. */
  method SendStream(b: BadgerDB, sn: Db, cb: Clipboard, sw: Streams.Writer, ghost cs: seq<StoredChunk>)
    returns (read: nat, outcome: ReadOutcome)
    requires sw.Valid() && sw.Pending() == []
    requires forall id :: id in sn.chunks ==> id.ulid < ULID_LIMIT
    requires Exactly(sn.chunks, cb.sequence, cs) && Ascending(cs)
    modifies b`faults, sw, sw.t, sw.s
    ensures var frames := PasteFrames(cb, cs, sw.t.Length);
      match outcome
      case Sent =>
        && |frames| <= old(sw.s.healthy) && read == |Streams.Concat(Contents(cs))|
        && sw.s.sent == Streams.Took(old(sw.s.sent), frames, old(sw.s.healthy))
      case SendFailed =>
        |frames| > old(sw.s.healthy) && sw.s.sent == Streams.Took(old(sw.s.sent), frames, old(sw.s.healthy))
      case ReadFault => true in old(b.faults) && Streams.CutOff(old(sw.s.sent), frames, sw.s.sent)
      case NotFound => false
    ensures outcome != Sent ==> read == 0
  {
    hide Streams.Full, Streams.Rest, Streams.Chunks, Streams.Took, Streams.Concat, Streams.FramesOf, Streams.Sending,
      Contents, Found, Exactly, Text, Less, VersionPrefix, HasSuffix, HasPrefix;
    var prefix := VersionPrefix(cb.sequence);
    ghost var n, v, sent0, healthy0 := sw.t.Length, cb.sequence, sw.s.sent, sw.s.healthy;
    read := 0;
    NothingFound();
    Streams.NothingYet(sent0, PasteFrames(cb, cs, n), HeaderOf(cb), n);
    var ok := sw.s.Send(Streams.InfoFrame(HeaderOf(cb)));
    if !ok { return 0, SendFailed; }
    var ks := NewIterator(sn, {LatestKey, PendingKey, VersionKey});
    ScanFindsCopy(ks, sn, v, cs);
    var i := Seek(ks, sn, prefix, v);
    ghost var lo, done: Bytes := i, [];
    while i < |ks| && HasPrefix(Text(ks[i]), prefix)
      invariant lo <= i <= |ks| && Streams.Underway(sw, sent0, HeaderOf(cb), done, healthy0)
      invariant done == Streams.Concat(Contents(Found(ks[..i], sn, v))) && read == |done|
      invariant forall f :: f in b.faults ==> f in old(b.faults)
    {
      PrefixIsVersion(ks[i], v);
      ghost var more := NextFound(ks, i, sn, v, cs, done);
      var failed := b.Fault();
      if failed {
        ghost var data := sn.chunks[ks[i].id];
        assert done + data + more == done + (data + more);
        ghost var tail := Streams.FramesSplit(HeaderOf(cb), done, data + more, cb.checksum, n);
        Streams.CutOffAt(sent0, Streams.Sending(HeaderOf(cb), done, n), tail);
        return 0, ReadFault;
      }
      if HasSuffix(Text(ks[i]), CHUNK_SUFFIX) {
        var data := sn.chunks[ks[i].id];
        var nw, wrote := Streams.SendChunk(sw, data, sent0, HeaderOf(cb), done, more, cb.checksum, healthy0);
        if !wrote { return 0, SendFailed; }
        read := read + nw;
        done := done + data;
      }
      i := i + 1;
    }
    PrefixEnds(ks, lo, i, v);
    FoundNoMore(ks, i, sn, v);
    assert done == Streams.Concat(Contents(cs));
    ok := Streams.SendRest(sw, cb.checksum, sent0, HeaderOf(cb), done, healthy0);
    if !ok { return 0, SendFailed; }
    return read, Sent;
  }

  lemma NothingFound()
    ensures Streams.Concat(Contents([])) == []
  {}

  /** The chunk under the next key, and what comes after it. */
  lemma NextFound(ks: seq<Key>, i: nat, sn: Db, v: nat, cs: seq<StoredChunk>, done: Bytes) returns (more: Bytes)
    requires i < |ks| && ks[i].ChunkKey? && ks[i].id.version == v && ks[i].id in sn.chunks && Found(ks, sn, v) == cs
    requires done == Streams.Concat(Contents(Found(ks[..i], sn, v)))
    ensures Streams.Concat(Contents(Found(ks[..i + 1], sn, v))) == done + sn.chunks[ks[i].id]
    ensures Streams.Concat(Contents(cs)) == done + sn.chunks[ks[i].id] + more
  {
    hide Found, Contents, Streams.Concat;
    var c := StoredChunk(ks[i].id.ulid, sn.chunks[ks[i].id]);
    assert ks[..i + 1] == ks[..i] + [ks[i]];
    FoundSnoc(ks[..i], ks[i], sn, v);
    FoundGrows(ks, i + 1, sn, v);
    var found := Found(ks[..i + 1], sn, v);
    ContentsSnoc(Found(ks[..i], sn, v), c);
    OnePiece(Contents(Found(ks[..i], sn, v)), c.data);
    assert cs == found + cs[|found|..];
    ContentsAppend(found, cs[|found|..]);
    Streams.ConcatAppend(Contents(found), Contents(cs[|found|..]));
    more := Streams.Concat(Contents(cs[|found|..]));
  }

  lemma OnePiece(bs: seq<Bytes>, b: Bytes)
    ensures Streams.Concat(bs + [b]) == Streams.Concat(bs) + b
  {
    Streams.ConcatAppend(bs, [b]);
    assert Streams.Concat([b]) == b + Streams.Concat([b][1..]);
  }

  lemma {:induction false} ContentsAppend(a: seq<StoredChunk>, c: seq<StoredChunk>)
    ensures Contents(a + c) == Contents(a) + Contents(c)
  {
    if a == [] {
      assert a + c == c;
    } else {
      assert (a + c)[1..] == a[1..] + c;
      ContentsAppend(a[1..], c);
    }
  }

  /** `it.Seek(prefix)`: the first key at or above it. */
  method Seek(ks: seq<Key>, sn: Db, prefix: string, ghost v: nat) returns (i: nat)
    requires Scans(ks, sn) && prefix == VersionPrefix(v)
    ensures i <= |ks| && (i < |ks| ==> !Less(Text(ks[i]), prefix))
    ensures Found(ks[..i], sn, v) == []
  {
    hide Text, Less, VersionPrefix;
    i := 0;
    while i < |ks| && Less(Text(ks[i]), prefix)
      invariant i <= |ks| && forall j :: 0 <= j < i ==> Less(Text(ks[j]), prefix)
    {
      i := i + 1;
    }
    forall j | 0 <= j < i ensures !(ks[j].ChunkKey? && ks[j].id.version == v) { BeforePrefix(ks[j], v); }
    FoundNoMore(ks[..i], 0, sn, v);
  }

  /** Waits until no copy, paste or collector run is going on, which the write lock
      stands for, and empties the database. The sequence goes on counting. */
  method DropAll(b: BadgerDB)
    requires b.Valid() && Enabled(b.state, Event.DropAll)
    modifies b`state
    ensures b.Valid() && b.state.db == EMPTY_DB && b.state.leaked == {}
    ensures b.state.nextVersion == old(b.state).nextVersion && b.state.nextUlid == old(b.state).nextUlid
  {
    hide Inv, Enabled, Evolves;
    b.Step(Event.DropAll);
  }
}
