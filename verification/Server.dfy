/** server/clipboard.go: the handlers of the Copy and Paste calls. */
module Server {
  import opened GoInt
  import opened Wrappers
  import opened Store
  import opened StoreInvariant
  import opened Interference
  import opened Badger
  import Streams
  import Storage
  import BatchWriter

  /** Ten minutes in nanoseconds. */
  const DEFAULT_TTL: int := 600_000_000_000
  const DEFAULT_TRANSFER_RATE: i64 := 0x10_0000
  const INVALID_OPTION: i32 := 0
  const KEY_NOT_FOUND: i32 := 1

  /** The bytes of an ASCII text. */
  function Ascii(s: string): Bytes {
    seq(|s|, i requires 0 <= i < |s| => s[i] as int % 256)
  }

  /** Each byte is its character. */
  lemma AsciiIsText(s: string)
    requires forall c :: c in s ==> c as int < 128
    ensures |Ascii(s)| == |s| && forall i :: 0 <= i < |s| ==> Ascii(s)[i] == s[i] as int
  {
    forall i | 0 <= i < |s| ensures Ascii(s)[i] == s[i] as int { assert s[i] in s; }
  }

  const RATE_MESSAGE: Bytes := Ascii("transfer rate is above the server configuration limit")
  const EMPTY_MESSAGE: Bytes := Ascii("no data to paste: key not found")

  // -------------------------------------------------------------------- copy

  function TtlOf(header: Streams.Header): int {
    if header.ttl == 0 then DEFAULT_TTL else header.ttl
  }

  datatype CopyResult = Copied(version: nat, index: Clipboard) | NoInfo | Failed(version: nat)

  /** What a finished copy has stored of the messages that came after its header. */
  ghost predicate StoredFrom(s: State, version: nat, index: Clipboard, header: Streams.Header,
      rest: seq<Streams.Frame>, clean: bool, n: nat)
    requires n > 0
  {
    var end := Streams.EndingOf(rest, clean);
    && end.Proper?
    && version in s.writers && s.writers[version].index == Some(index)
    && Storage.Contents(s.writers[version].chunks) == Streams.Pieces(Streams.Payload(rest), n)
    && index == Clipboard(version, index.expireAt, header.compressed, header.masterKeyNonce, header.keyNonce, header.iv,
         if end.checksum.Some? then end.checksum.value else [], |Streams.Payload(rest)|)
  }

  /** A stream that is a header, chunks, and a checksum or a clean end is stored and
      becomes LATEST, where only a copy that ends later can replace it. Any
      other stream leaves the copy's version unnamed; without a header the store is
      not even touched. */
  method Copy(b: BadgerDB, frames: seq<Streams.Frame>, clean: bool, indexLen: nat) returns (result: CopyResult)
    requires b.Valid()
    modifies b`state, b`others, b`faults
    ensures b.Valid() && Evolves(old(b.state), b.state)
    ensures result.NoInfo? <==> frames == [] || !frames[0].InfoFrame?
    ensures result.NoInfo? ==> b.state == old(b.state)
    ensures result.Copied? ==>
      && result.index.sequence == result.version
      && var header := frames[0].header;
         StoredFrom(b.state, result.version, result.index, header, frames[1..], clean, b.chunkSize)
         && var ttl := if header.ttl == 0 then 600_000_000_000 else header.ttl;
            old(b.state).now + ttl <= result.index.expireAt <= b.state.now + ttl
    ensures result.Copied? ==>
      b.state.db.latest == Some(result.index) || Storage.Superseded(old(b.state), b.state, result.version)
    ensures old(b.others) == [] ==>
      && b.others == [] && b.state.now == old(b.state).now
      && b.state.db.latest == if result.Copied? then Some(result.index) else old(b.state).db.latest
    ensures forall f :: f in b.faults ==> f in old(b.faults)
    ensures !result.NoInfo? && true !in old(b.faults) ==> result.version !in b.state.db.pending
    ensures result.Copied? || result.Failed? ==>
      result.version !in old(b.state).writers && result.version in b.state.writers
    ensures result.Failed? ==>
      && b.state.writers[result.version].phase == Released && b.state.writers[result.version].index == None
      && (b.state.db.latest.Some? ==> b.state.db.latest.value.sequence != result.version)
    ensures frames != [] && frames[0].InfoFrame? && Streams.EndingOf(frames[1..], clean).Broken? ==> result.Failed?
    ensures result.Failed? && Streams.EndingOf(frames[1..], clean).Proper? ==>
      true in old(b.faults) || b.state.nextUlid >= ULID_LIMIT
  {
    hide Inv, Next, Evolves, Streams.Payload, Streams.EndingOf, Streams.Pieces, Storage.Contents;
    if frames == [] || !frames[0].InfoFrame? {
      EvolvesSelf(b.state);
      return NoInfo;
    }
    var fi := frames[0].header;
    var receiver := new Streams.Receiver(frames[1..], clean);
    var r := new Streams.Reader(receiver);
    var version, written, outcome, index, batches, released := Storage.WriteBatch(
      b, r, TtlOf(fi), fi.compressed, fi.masterKeyNonce, fi.keyNonce, fi.iv, indexLen);
    if outcome != BatchWriter.Done { return Failed(version); }
    return Copied(version, b.state.writers[version].index.value);
  }

  // ------------------------------------------------------------------- paste

  datatype PasteResult = Served | NoData | RateTooHigh | Internal | Panicked

  /** Some of the messages of the copy that LATEST names, and never the rest. */
  ghost predicate CutShort(s: State, rate: nat, before: seq<Streams.Frame>, sent: seq<Streams.Frame>) {
    var index := Visible(s.db, s.now);
    && rate > 0 && index.Some? && index.value.sequence in s.writers
    && Streams.CutOff(before, Storage.PasteFrames(index.value, s.writers[index.value.sequence].chunks, rate), sent)
  }

  /** The messages of a paste from the state it began in. `ok` says whether the call
      ends without an error. */
  method Paste(b: BadgerDB, me: nat, transferRate: i64, maxRecv: int, sender: Streams.Sender)
    returns (result: PasteResult, ok: bool)
    requires b.Valid() && me !in b.state.readers
    modifies b`state, b`others, b`faults, sender
    ensures b.Valid() && Evolves(old(b.state), b.state) && me !in b.state.readers
    ensures var rate := if transferRate == 0 then 0x10_0000 else transferRate;
      match result
      case RateTooHigh =>
        rate > maxRecv && b.state == old(b.state)
        && sender.sent == Streams.Took(
             old(sender.sent), [Streams.ErrorFrame(0, Ascii("transfer rate is above the server configuration limit"))],
             old(sender.healthy))
        && (ok <==> old(sender.healthy) > 0)
      case Panicked => rate <= maxRecv && rate < 0 && b.state == old(b.state) && sender.sent == old(sender.sent)
      case NoData =>
        && (var latest := old(b.state).db.latest; latest == None || latest.value.expireAt <= b.state.now)
        && sender.sent == Streams.Took(
             old(sender.sent), [Streams.ErrorFrame(1, Ascii("no data to paste: key not found"))],
             old(sender.healthy))
        && (ok <==> old(sender.healthy) > 0)
      case Internal =>
        && 0 < rate <= maxRecv && true in old(b.faults) && !ok
        && (sender.sent != old(sender.sent) ==> CutShort(old(b.state), rate, old(sender.sent), sender.sent))
      case Served =>
        && 0 < rate <= maxRecv
        && var s := old(b.state); var index := Visible(s.db, s.now);
        && index.Some? && index.value.sequence in s.writers
        && var frames := Storage.PasteFrames(index.value, s.writers[index.value.sequence].chunks, rate);
           && sender.sent == Streams.Took(old(sender.sent), frames, old(sender.healthy))
           && (ok <==> |frames| <= old(sender.healthy))
    ensures Calm(old(b.others), b.others, old(b.state), b.state)
    ensures var latest := old(b.state).db.latest;
      var fits := 0 < transferRate <= maxRecv || (transferRate == 0 && 0x10_0000 <= maxRecv);
      latest.Some? && b.state.now < latest.value.expireAt && fits && true !in old(b.faults) ==> result == Served
    ensures var latest := old(b.state).db.latest;
      latest == None || latest.value.expireAt <= old(b.state).now ==>
        && result != Served
        && forall i :: |old(sender.sent)| <= i < |sender.sent| ==> sender.sent[i].ErrorFrame?
    ensures result.RateTooHigh? <==> transferRate > maxRecv || (transferRate == 0 && 0x10_0000 > maxRecv)
    ensures result.Panicked? <==> transferRate < 0 && transferRate <= maxRecv
  {
    OneError(sender.sent, INVALID_OPTION, RATE_MESSAGE, sender.healthy);
    OneError(sender.sent, KEY_NOT_FOUND, EMPTY_MESSAGE, sender.healthy);
    hide Inv, Next, Evolves, Streams.Took, Streams.CutOff, Storage.PasteFrames, Ascii;
    var rate := RateOf(transferRate);
    EvolvesSelf(b.state);
    if rate > maxRecv {
      ok := SendError(sender, INVALID_OPTION, RATE_MESSAGE);
      return RateTooHigh, ok;
    }
    if rate < 0 { return Panicked, false; }
    var buf := new byte[rate];
    var w := new Streams.Writer(sender, buf);
    var read, outcome := Storage.ReadBatch(b, me, w);
    if outcome == Storage.NotFound {
      ok := SendError(sender, KEY_NOT_FOUND, EMPTY_MESSAGE);
      return NoData, ok;
    }
    if outcome == Storage.ReadFault { return Internal, false; }
    return Served, outcome == Storage.Sent;
  }

  lemma OneError(sent: seq<Streams.Frame>, kind: i32, message: Bytes, healthy: nat)
    ensures var got := Streams.Took(sent, [Streams.ErrorFrame(kind, message)], healthy);
      forall i :: |sent| <= i < |got| ==> got[i].ErrorFrame?
  {}

  /** No rate means the default one. */
  function RateOf(transferRate: i64): i64 {
    if transferRate == 0 then DEFAULT_TRANSFER_RATE else transferRate
  }

  method SendError(sender: Streams.Sender, kind: i32, message: Bytes) returns (ok: bool)
    modifies sender
    ensures ok <==> old(sender.healthy) > 0
    ensures sender.sent == Streams.Took(old(sender.sent), [Streams.ErrorFrame(kind, message)], old(sender.healthy))
  {
    ok := sender.Send(Streams.ErrorFrame(kind, message));
  }
}
