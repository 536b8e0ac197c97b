/** From one client's input to another client's output. */
module EndToEnd {
  import opened GoInt
  import opened Wrappers
  import opened Store
  import opened StoreInvariant
  import opened Interference
  import opened Badger
  import opened Client
  import opened Transport
  import Server
  import Storage
  import Streams

  /** What was copied is what is pasted: for any content, any chunk sizes of the copy,
      the store and the paste, and with or without hash, compression and encryption. A
      paste that is cut short anywhere is reported as an error instead, and has put out
      nothing but a beginning of the content. */
  lemma CopiedIsPasted(c: Codecs, cfg: Config, header: Streams.Header, password: Bytes, content: Bytes,
                       s: State, index: Clipboard, storeSize: nat, rate: nat)
    requires Sound(c) && InSteps(c) && cfg.chunkSize > 0 && storeSize > 0 && rate > 0
    requires IsHeader(cfg, header)
    requires Server.StoredFrom(s, index.sequence, index, header,
      CopyFrames(c, cfg, header, password, content)[1..], true, storeSize)
    ensures var frames := Storage.PasteFrames(index, s.writers[index.sequence].chunks, rate);
      && Verdict(c, password, frames, true) == Pasted
      && frames[0].InfoFrame? && Content(c, frames[0].header, password, frames[1..], true) == Some(content)
      && (frames[0].header.hasChecksum <==> cfg.checksum)
      && Streams.EndingOf(frames[1..], true) == Streams.Proper(if cfg.checksum then Some(c.hash(content)) else None)
      && Streams.Framed(frames[1..], Streams.Payload(frames[1..]),
           if cfg.checksum then c.hash(content) else [], rate)
      && forall k :: 0 <= k < |frames| ==> OnlyABeginning(c, password, Streams.Took([], frames, k), content)
  {
    hide Sound, InSteps, Streams.Framed, Streams.Payload, Streams.EndingOf, Streams.Pieces, Streams.Concat,
      Streams.Took, Storage.Contents, Encode, OnlyABeginning;
    var wire := Encode(c, header, cfg.encryption, password, content);
    var sum := if cfg.checksum then c.hash(content) else [];
    var cs := s.writers[index.sequence].chunks;
    assert CopyFrames(c, cfg, header, password, content)[1..] == Streams.FramesOf(wire, sum, cfg.chunkSize);
    Streams.PayloadOfFrames(wire, sum, cfg.chunkSize);
    Streams.PiecesShape(wire, storeSize);
    HashSize(c, content);
    assert index.checksum == sum;
    var frames := Storage.PasteFrames(index, cs, rate);
    assert frames[1..] == Streams.FramesOf(wire, sum, rate);
    Streams.PayloadOfFrames(wire, sum, rate);
    Streams.FramesAreFramed(wire, sum, rate);
    DecodeEncode(c, cfg, header, Storage.HeaderOf(index), password, content);
    forall k | 0 <= k < |frames| ensures OnlyABeginning(c, password, Streams.Took([], frames, k), content) {
      Streams.CutIsUnfinished(Storage.HeaderOf(index), wire, sum, rate, k);
      CutIsError(c, password, frames, wire, content, k);
    }
  }

  /** A paste of these messages fails, and puts out no more than a beginning. */
  ghost predicate OnlyABeginning(c: Codecs, password: Bytes, frames: seq<Streams.Frame>, content: Bytes) {
    && Verdict(c, password, frames, false) == StreamError
    && (frames != [] && frames[0].InfoFrame? ==> Shown(c, frames[0].header, password, frames[1..], false) <= content)
  }

  lemma CutIsError(c: Codecs, password: Bytes, frames: seq<Streams.Frame>, wire: Bytes, content: Bytes, k: nat)
    requires InSteps(c) && k < |frames| && frames[0].InfoFrame? && Streams.Payload(frames[1..]) == wire
    requires Decode(c, frames[0].header, password, wire) == Some(content)
    requires Streams.Unfinished(Streams.Took([], frames, k))
    ensures OnlyABeginning(c, password, Streams.Took([], frames, k), content)
  {
    hide Streams.EndingOf, Streams.Payload, Decode, InSteps;
    var cut := frames[..k];
    assert Streams.Took([], frames, k) == cut;
    if k > 0 {
      var info := frames[0].header;
      assert cut[1..] == frames[1..][..k - 1];
      Streams.PayloadOfSome(frames[1..], k - 1);
      InStepsDecoder(c, info, password);
      PlainIsContent(c, info, password, wire);
      OpensNoMore(c, info, password, Streams.Payload(cut[1..]), wire);
    }
  }

  lemma OpensNoMore(c: Codecs, info: Streams.Header, password: Bytes, part: Bytes, wire: Bytes)
    requires DecoderInSteps(c, info, password) && part <= wire && Decode(c, info, password, wire).Some?
    ensures c.unwrapped(info, password, part) <= Decode(c, info, password, wire).value
  {
    hide Decode;
    var f := x => c.unwrapped(info, password, x);
    assert wire == part + wire[|part|..];
    assert f(part) <= f(part + wire[|part|..]);
    var g := x => Decode(c, info, password, x);
    assert g(wire).Some?;
  }

  /** The header of a copy, as its configuration has it. */
  predicate IsHeader(cfg: Config, header: Streams.Header) {
    && header.compressed == cfg.compression && header.ttl == cfg.ttl && !header.hasChecksum
    && (Encrypted(header) <==> cfg.encryption)
  }

  lemma HashSize(c: Codecs, x: Bytes)
    requires Sound(c)
    ensures |c.hash(x)| == SHA256_SIZE
  {}

  /** The decoders of a paste undo the encoders of the copy. */
  lemma DecodeEncode(c: Codecs, cfg: Config, header: Streams.Header, info: Streams.Header, password: Bytes, data: Bytes)
    requires Sound(c) && IsHeader(cfg, header)
    requires info.compressed == header.compressed && info.masterKeyNonce == header.masterKeyNonce
    requires info.keyNonce == header.keyNonce && info.iv == header.iv
    ensures Decode(c, info, password, Encode(c, header, cfg.encryption, password, data)) == Some(data)
  {}

  /** The same with every message encoded, sent and decoded on both ways. */
  lemma CopiedIsPastedOverTheWire(c: Codecs, cfg: Config, header: Streams.Header, password: Bytes, content: Bytes,
                                  s: State, index: Clipboard, storeSize: nat, rate: nat)
    requires Sound(c) && InSteps(c) && cfg.chunkSize > 0 && storeSize > 0 && rate > 0 && IsHeader(cfg, header)
    requires forall f :: f in CopyFrames(c, cfg, header, password, content) ==> CopyFrame(f)
    requires var received := ReceiveCopy(SendCopy(CopyFrames(c, cfg, header, password, content)));
      received != [] && received[0].InfoFrame?
      && Server.StoredFrom(s, index.sequence, index, received[0].header, received[1..], true, storeSize)
    requires forall f :: f in Storage.PasteFrames(index, s.writers[index.sequence].chunks, rate) ==> PastFrame(f)
    ensures var received := ReceivePast(SendPast(Storage.PasteFrames(index, s.writers[index.sequence].chunks, rate)));
      && received != [] && received[0].InfoFrame?
      && Verdict(c, password, received, true) == Pasted
      && Content(c, received[0].header, password, received[1..], true) == Some(content)
  {
    IndexIsThere(s, index, storeSize, ReceiveCopy(SendCopy(CopyFrames(c, cfg, header, password, content))));
    HeaderFirst(index, s.writers[index.sequence].chunks, rate);
    hide Sound, InSteps, Server.StoredFrom, CopyFrame, PastFrame, Verdict, Content, ReceiveCopy, SendCopy,
      ReceivePast, SendPast,
      Streams.FramesOf, Storage.PasteFrames, Encode, IsHeader;
    CopySurvives(CopyFrames(c, cfg, header, password, content));
    PastSurvives(Storage.PasteFrames(index, s.writers[index.sequence].chunks, rate));
    CopiedIsPasted(c, cfg, header, password, content, s, index, storeSize, rate);
  }

  lemma IndexIsThere(s: State, index: Clipboard, n: nat, received: seq<Streams.Frame>)
    requires n > 0 && received != [] && received[0].InfoFrame?
    requires Server.StoredFrom(s, index.sequence, index, received[0].header, received[1..], true, n)
    ensures index.sequence in s.writers
  {}

  lemma HeaderFirst(index: Clipboard, cs: seq<StoredChunk>, n: nat)
    requires n > 0
    ensures var frames := Storage.PasteFrames(index, cs, n); frames != [] && frames[0].InfoFrame?
  {}

  /** What a copy stored stays what it stored, and LATEST names it by the same record. */
  lemma StoredStays(s: State, t: State, index: Clipboard, header: Streams.Header, rest: seq<Streams.Frame>,
      clean: bool, n: nat)
    requires Inv(s) && Inv(t) && Evolves(s, t) && n > 0
    requires Server.StoredFrom(s, index.sequence, index, header, rest, clean, n)
    ensures Server.StoredFrom(t, index.sequence, index, header, rest, clean, n)
    ensures Visible(t.db, t.now).Some? && t.db.latest.value.sequence == index.sequence ==> t.db.latest == Some(index)
  {
    hide Streams.Payload, Streams.EndingOf, Streams.Pieces, Storage.Contents, ChunksOk, LiveOk, PendingOk, MutexOk,
      GcOk, ReadersOk;
    WriterFacts(s, index.sequence);
    assert WriterEvolves(s.writers[index.sequence], t.writers[index.sequence]);
  }

  method FreshReader(readers: map<nat, PasteState>) returns (me: nat)
    ensures me !in readers
  {
    var left := readers.Keys;
    me := 0;
    while left != {}
      invariant left <= readers.Keys && forall r :: r in readers && r !in left ==> r < me
      decreases |left|
    {
      var r :| r in left;
      left := left - {r};
      if r >= me { me := r + 1; }
    }
  }

  /** How a copy and a later paste can go, everyone else running in between. */
  datatype Round = Round(
    copy: CopyEnd, stored: Server.CopyResult, served: Server.PasteResult, answered: bool, end: PasteEnd, out: Bytes)

  /** Every copy that has ended, other than `version`, had ended before. */
  ghost predicate NoOtherEnded(s: State, t: State, version: nat) {
    forall v :: v in t.writers && v != version && t.writers[v].index.Some? ==>
      v in s.writers && s.writers[v].index.Some?
  }

  /** No other copy has ended, nothing was dropped, and the time has not run out. */
  ghost predicate Undisturbed(s: State, t: State, index: Clipboard) {
    NoOtherEnded(s, t, index.sequence) && t.db.latest.Some? && t.now < index.expireAt
  }

  /** A stored copy is LATEST as long as no other copy ends, nothing is dropped and its
      time has not run out. */
  lemma StillLatest(s: State, t: State, u: State, index: Clipboard)
    requires Inv(t) && Evolves(s, t) && Evolves(t, u)
    requires index.sequence in t.writers && t.writers[index.sequence].index == Some(index)
    requires t.db.latest == Some(index) || Storage.Superseded(s, t, index.sequence)
    requires Undisturbed(s, u, index)
    ensures t.db.latest == Some(index) && Visible(u.db, u.now) == Some(index)
  {
    hide Inv;
    forall v | v in t.writers && t.writers[v].index.Some?
      ensures v in u.writers && u.writers[v].index == t.writers[v].index
    {
      assert WriterEvolves(t.writers[v], u.writers[v]);
    }
  }

  /** LATEST is visible and names the version. */
  predicate NamedBy(s: State, version: nat) {
    Visible(s.db, s.now).Some? && s.db.latest.value.sequence == version
  }

  /** The client sent all of a copy that may live on, the rate is one the server allows,
      ULIDs are left, and the server's answer arrived. */
  predicate AllWell(cfg: Config, round: Round, at: State, rate: i64, maxRecv: int) {
    cfg.ttl >= 0 && rate <= maxRecv && round.copy == Sent && round.answered && at.nextUlid < ULID_LIMIT
  }

  /** A copy by one client, anything by anyone, and a paste by another client. A copy
      that breaks off stores nothing. Of a copy that its snapshot has as LATEST, a paste
      puts out nothing but a beginning, and exactly what was taken of the input whenever
      it reports success, which it does whenever the server could send all of it. */
  method CopyThenPaste(c: Codecs, cfg: Config, password: Bytes, masterKeyNonce: Bytes, keyNonce: Bytes, iv: Bytes,
                       src: Source, up: Streams.Sender, step: nat, b: BadgerDB, indexLen: nat,
                       rate: i64, maxRecv: int, down: Streams.Sender, grain: nat)
    returns (round: Round, ghost at: State)
    requires Sound(c) && InSteps(c) && cfg.chunkSize > 0 && step > 0 && grain > 0 && rate > 0 && up != down
    requires |masterKeyNonce| == NONCE_SIZE && |keyNonce| == NONCE_SIZE
    requires b.Valid() && up.sent == [] && down.sent == []
    modifies src, up, down, b`state, b`others, b`faults
    ensures b.Valid()
    ensures var taken := Take(old(src.replies), src.last, cfg.chunkSize, []);
      && (taken.fate != Ended ==> round.copy != Sent)
      && (round.copy != Sent ==> !round.stored.Copied?)
      && (round.stored.Copied? && NamedBy(at, round.stored.version) ==>
            && round.out <= taken.data
            && (round.end == Pasted ==> round.out == taken.data)
            && (round.served == Server.Served && round.answered ==> round.end == Pasted)
            && (round.served == Server.Served && !round.answered ==> round.end == StreamError))
    ensures round.stored.Copied? && Undisturbed(old(b.state), at, round.stored.index) ==>
      NamedBy(at, round.stored.version)
    ensures round.stored.Copied? ==>
      var ttl := if cfg.ttl == 0 then 600_000_000_000 else cfg.ttl;
      old(b.state).now + ttl <= round.stored.index.expireAt <= at.now + ttl
    ensures old(b.others) == [] && round.stored.Copied? && cfg.ttl >= 0 ==> NamedBy(at, round.stored.version)
    ensures old(b.others) == [] && true !in old(b.faults) && AllWell(cfg, round, at, rate, maxRecv) ==>
      round.end == Pasted && round.out == Take(old(src.replies), src.last, cfg.chunkSize, []).data
    ensures NoError(old(src.replies)) && src.last == EndOfFile ==>
      Take(old(src.replies), src.last, cfg.chunkSize, []) == Taken(AllData(old(src.replies)), Ended)
  {
    hide Inv, Evolves, Verdict, Content, Shown, Sound, InSteps, Server.StoredFrom, Take, CopyFrames, CopyIsLatest,
      Undisturbed, IsHeader, Storage.Superseded;
    HeaderIsHeader(cfg, masterKeyNonce, keyNonce, iv);
    if NoError(src.replies) && src.last == EndOfFile { CleanSource(src.replies, cfg.chunkSize); }
    ghost var taken := Take(src.replies, src.last, cfg.chunkSize, []);
    var copy, stored := CopyUp(c, cfg, password, masterKeyNonce, keyNonce, iv, src, up, step, b, indexLen);
    ghost var s := b.state;
    b.Interfere(Nobody);
    at := b.state;
    ClockGrows(s, at);
    ghost var header := CopyHeader(cfg, masterKeyNonce, keyNonce, iv);
    ghost var index := if stored.Copied? then stored.index else Clipboard(0, 0, false, [], [], [], [], 0);
    if stored.Copied? { StoredAt(c, cfg, header, password, taken.data, old(b.state), s, at, index, b.chunkSize); }
    var served, answered, end, out := PasteDown(
      c, password, b, rate, maxRecv, down, grain, cfg, header, taken.data, index);
    round := Round(copy, stored, served, answered, end, out);
  }

  lemma HeaderIsHeader(cfg: Config, masterKeyNonce: Bytes, keyNonce: Bytes, iv: Bytes)
    requires |masterKeyNonce| == NONCE_SIZE && |keyNonce| == NONCE_SIZE
    ensures IsHeader(cfg, CopyHeader(cfg, masterKeyNonce, keyNonce, iv))
  {}

  /** A stored copy when a paste begins: what LATEST names, if it names the copy, and
      when it does. */
  lemma StoredAt(c: Codecs, cfg: Config, header: Streams.Header, password: Bytes, content: Bytes,
                 began: State, s: State, at: State, index: Clipboard, n: nat)
    requires Inv(s) && Inv(at) && Evolves(began, s) && Evolves(s, at) && cfg.chunkSize > 0 && n > 0
    requires Server.StoredFrom(s, index.sequence, index, header,
      CopyFrames(c, cfg, header, password, content)[1..], true, n)
    requires s.db.latest == Some(index) || Storage.Superseded(began, s, index.sequence)
    ensures NamedBy(at, index.sequence) ==> CopyIsLatest(c, cfg, header, password, content, at, index, n)
    ensures Undisturbed(began, at, index) ==> NamedBy(at, index.sequence)
    ensures at.db.latest == Some(index) && at.now < index.expireAt ==> NamedBy(at, index.sequence)
  {
    hide Inv, Evolves, Server.StoredFrom, CopyFrames, Undisturbed, Storage.Superseded;
    StoredStays(s, at, index, header, CopyFrames(c, cfg, header, password, content)[1..], true, n);
    IsStored(s, index, header, CopyFrames(c, cfg, header, password, content)[1..], n);
    if Undisturbed(began, at, index) { StillLatest(began, s, at, index); }
  }

  /** LATEST names what was stored of a copy's messages. */
  ghost predicate CopyIsLatest(c: Codecs, cfg: Config, header: Streams.Header, password: Bytes, content: Bytes,
                               s: State, index: Clipboard, storeSize: nat)
    requires cfg.chunkSize > 0 && storeSize > 0
  {
    && Visible(s.db, s.now) == Some(index)
    && Server.StoredFrom(s, index.sequence, index, header,
         CopyFrames(c, cfg, header, password, content)[1..], true, storeSize)
  }

  /** The first half: what one client sends, and what the server stores of it. */
  method CopyUp(c: Codecs, cfg: Config, password: Bytes, masterKeyNonce: Bytes, keyNonce: Bytes, iv: Bytes,
                src: Source, up: Streams.Sender, step: nat, b: BadgerDB, indexLen: nat)
    returns (copy: CopyEnd, stored: Server.CopyResult)
    requires InSteps(c) && cfg.chunkSize > 0 && step > 0 && b.Valid() && up.sent == []
    modifies src, up, b`state, b`others, b`faults
    ensures b.Valid()
    ensures var taken := Take(old(src.replies), src.last, cfg.chunkSize, []);
      && (taken.fate != Ended ==> copy != Sent)
      && (copy != Sent ==> !stored.Copied?)
      && var header := CopyHeader(cfg, masterKeyNonce, keyNonce, iv);
         (stored.Copied? ==>
            && stored.index.sequence == stored.version
            && Server.StoredFrom(b.state, stored.version, stored.index, header,
                 CopyFrames(c, cfg, header, password, taken.data)[1..], true, b.chunkSize))
    ensures Evolves(old(b.state), b.state)
    ensures stored.Copied? ==>
      b.state.db.latest == Some(stored.index) || Storage.Superseded(old(b.state), b.state, stored.version)
    ensures old(b.others) == [] ==>
      b.others == [] && b.state.now == old(b.state).now && (stored.Copied? ==> b.state.db.latest == Some(stored.index))
    ensures stored.Copied? ==>
      var ttl := if cfg.ttl == 0 then 600_000_000_000 else cfg.ttl;
      old(b.state).now + ttl <= stored.index.expireAt <= b.state.now + ttl
    ensures copy == Sent && !stored.Copied? ==> true in old(b.faults) || b.state.nextUlid >= ULID_LIMIT
    ensures forall f :: f in b.faults ==> f in old(b.faults)
  {
    hide Inv, Evolves, InSteps, Server.StoredFrom, Streams.Took, Streams.FramesOf, Encode, Take;
    ghost var taken := Take(src.replies, src.last, cfg.chunkSize, []);
    var n, sum;
    copy, n, sum := Client.Copy(c, cfg, src, password, masterKeyNonce, keyNonce, iv, up, step);
    stored := Server.Copy(b, up.sent, copy == Sent, indexLen);
    if copy == Sent { CompleteIsProper(c, cfg, CopyHeader(cfg, masterKeyNonce, keyNonce, iv), password, taken.data); }
  }

  lemma CompleteIsProper(c: Codecs, cfg: Config, header: Streams.Header, password: Bytes, data: Bytes)
    requires cfg.chunkSize > 0
    ensures Streams.EndingOf(CopyFrames(c, cfg, header, password, data)[1..], true).Proper?
  {
    hide Encode, Streams.EndingOf, Streams.FramesOf;
    var wire, sum := Encode(c, header, cfg.encryption, password, data), if cfg.checksum then c.hash(data) else [];
    Streams.PayloadOfFrames(wire, sum, cfg.chunkSize);
    assert CopyFrames(c, cfg, header, password, data)[1..] == Streams.FramesOf(wire, sum, cfg.chunkSize);
  }

  /** The second half: what the server sends, and what another client makes of it, if
      LATEST names a certain copy. */
  method PasteDown(c: Codecs, password: Bytes, b: BadgerDB, rate: i64, maxRecv: int, down: Streams.Sender, grain: nat,
                   ghost cfg: Config, ghost header: Streams.Header, ghost content: Bytes, ghost index: Clipboard)
    returns (served: Server.PasteResult, answered: bool, end: PasteEnd, out: Bytes)
    requires Sound(c) && InSteps(c) && b.Valid() && grain > 0 && rate > 0 && down.sent == []
    requires cfg.chunkSize > 0 && IsHeader(cfg, header)
    modifies down, b`state, b`others, b`faults
    ensures b.Valid()
    ensures CopyIsLatest(c, cfg, header, password, content, old(b.state), index, b.chunkSize) ==>
      && out <= content
      && (end == Pasted ==> out == content)
      && (served == Server.Served && answered ==> end == Pasted)
      && (served == Server.Served && !answered ==> end == StreamError)
    ensures Calm(old(b.others), b.others, old(b.state), b.state)
    ensures true !in old(b.faults) && rate <= maxRecv && Visible(old(b.state).db, b.state.now).Some? ==>
      served == Server.Served
  {
    hide Inv, Evolves, Verdict, Content, Shown, Sound, InSteps, IsHeader, Server.StoredFrom, Server.CutShort,
      Storage.PasteFrames, Streams.Took, CopyFrames;
    ghost var at, healthy := b.state, down.healthy;
    var me := FreshReader(b.state.readers);
    served, answered := Server.Paste(b, me, rate, maxRecv, down);
    end, out := Client.Paste(c, password, rate, down.sent, answered, grain);
    ErrorIsNoSuccess(c, password, Server.INVALID_OPTION, Server.RATE_MESSAGE, healthy, answered);
    ErrorIsNoSuccess(c, password, Server.KEY_NOT_FOUND, Server.EMPTY_MESSAGE, healthy, answered);
    if CopyIsLatest(c, cfg, header, password, content, at, index, b.chunkSize) {
      StoredSame(c, cfg, header, password, content, at, index, b.chunkSize, rate, healthy, down.sent);
    }
  }

  lemma ErrorIsNoSuccess(c: Codecs, password: Bytes, kind: i32, message: Bytes, healthy: nat, clean: bool)
    ensures var got := Streams.Took([], [Streams.ErrorFrame(kind, message)], healthy);
      Verdict(c, password, got, clean) != Pasted && (got == [] || !got[0].InfoFrame?)
    ensures Verdict(c, password, [], clean) != Pasted
  {}

  /** The messages of a paste of a copy that LATEST names. */
  lemma StoredSame(c: Codecs, cfg: Config, header: Streams.Header, password: Bytes, content: Bytes,
                   at: State, index: Clipboard, storeSize: nat, rate: nat, healthy: nat, sent: seq<Streams.Frame>)
    requires Sound(c) && InSteps(c) && cfg.chunkSize > 0 && storeSize > 0 && rate > 0 && IsHeader(cfg, header)
    requires CopyIsLatest(c, cfg, header, password, content, at, index, storeSize)
    ensures Visible(at.db, at.now) == Some(index) && index.sequence in at.writers
    ensures var frames := Storage.PasteFrames(index, at.writers[index.sequence].chunks, rate);
      var got := Streams.Took([], frames, healthy);
      && (|frames| <= healthy ==> (
            && got == frames && Verdict(c, password, got, true) == Pasted && got[0].InfoFrame?
            && Content(c, got[0].header, password, got[1..], true) == Some(content)))
      && (|frames| > healthy ==> OnlyABeginning(c, password, got, content))
    ensures Server.CutShort(at, rate, [], sent) ==> OnlyABeginning(c, password, sent, content)
  {
    hide Verdict, Content, OnlyABeginning, CopyFrames, Sound, InSteps, IsHeader, Storage.PasteFrames, Streams.Took,
      Server.StoredFrom;
    IsStored(at, index, header, CopyFrames(c, cfg, header, password, content)[1..], storeSize);
    CopiedIsPasted(c, cfg, header, password, content, at, index, storeSize, rate);
    var frames := Storage.PasteFrames(index, at.writers[index.sequence].chunks, rate);
    if |frames| <= healthy { Streams.TookAll([], frames, healthy); }
  }

  lemma IsStored(s: State, index: Clipboard, header: Streams.Header, rest: seq<Streams.Frame>, n: nat)
    requires n > 0 && Server.StoredFrom(s, index.sequence, index, header, rest, true, n)
    ensures index.sequence in s.writers && s.writers[index.sequence].index == Some(index)
  {}
}
