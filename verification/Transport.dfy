/** The messages of a stream on the wire: each is encoded by one peer and decoded
    into a new message by the other. */
module Transport {
  import opened GoInt
  import opened Wire
  import opened Messages
  import opened RoundTrips
  import Streams

  // ------------------------------------------------------------ copy streams

  /** The messages of a copy carry no error and announce no checksum. */
  predicate CopyFrame(f: Streams.Frame) {
    && !f.ErrorFrame? && (f.InfoFrame? ==> !f.header.hasChecksum)
    && IsSlice(EncodeCopy(CopyMessage(f)))
  }

  function CopyMessage(f: Streams.Frame): CopyStream {
    match f
    case InfoFrame(h) =>
      CopyStream(CopyInfoData(Ref(CopyInfo(h.ttl, h.compressed, h.masterKeyNonce, h.keyNonce, h.iv, []))), [])
    case Chunk(data) => CopyStream(CopyChunk(data), [])
    case Checksum(sum) => CopyStream(CopyChecksum(sum), [])
    case _ => CopyStream(CopyNone, [])
  }

  /** What the server makes of a message. No message that was received holds a nil
      header. */
  function ReadCopyMessage(m: CopyStream): Streams.Frame
    requires m.data != CopyInfoData(Nil)
  {
    match m.data
    case CopyInfoData(Ref(i)) =>
      Streams.InfoFrame(Streams.Header(i.ttl, false, i.compressed, i.masterKeyNonce, i.keyNonce, i.iv))
    case CopyChunk(data) => Streams.Chunk(data)
    case CopyChecksum(sum) => Streams.Checksum(sum)
    case CopyNone => Streams.EmptyFrame
  }

  /** Receiving until a message cannot be decoded. */
  function ReceiveCopy(wire: seq<Slice>): seq<Streams.Frame> {
    if wire == [] then []
    else match DecodeCopy(NEW_COPY, wire[0])
      case Done(m) =>
        ReceivedCopyIsWhole(wire[0]);
        [ReadCopyMessage(m)] + ReceiveCopy(wire[1..])
      case Fail(_) => []
  }

  function EncodeCopyFrame(f: Streams.Frame): Slice
    requires CopyFrame(f)
  {
    EncodeCopy(CopyMessage(f))
  }

  function SendCopy(fs: seq<Streams.Frame>): (wire: seq<Slice>)
    requires forall f :: f in fs ==> CopyFrame(f)
    ensures |wire| == |fs|
  {
    if fs == [] then []
    else
      assert fs[0] in fs;
      [EncodeCopyFrame(fs[0])] + SendCopy(fs[1..])
  }

  lemma CopyFrameSurvives(f: Streams.Frame)
    requires CopyFrame(f)
    ensures var d := DecodeCopy(NEW_COPY, EncodeCopy(CopyMessage(f)));
      d.Done? && d.m.data != CopyInfoData(Nil) && ReadCopyMessage(d.m) == f
  {
    hide EncodeCopy, DecodeCopy, Canonical;
    NoUnknown();
    CopyRoundTrip(CopyMessage(f));
  }

  lemma NoUnknown()
    ensures Canonical(COPY_STREAM, []) && Canonical(COPY_INFO, [])
    ensures Canonical(PAST_STREAM, []) && Canonical(PAST_INFO, []) && Canonical(PAST_ERROR, [])
  {}

  /** A copy stream arrives as it was sent. */
  lemma {:induction false} CopySurvives(fs: seq<Streams.Frame>)
    requires forall f :: f in fs ==> CopyFrame(f)
    ensures ReceiveCopy(SendCopy(fs)) == fs
  {
    hide EncodeCopy, DecodeCopy;
    if fs != [] {
      assert fs[0] in fs;
      CopyFrameSurvives(fs[0]);
      CopySurvives(fs[1..]);
      assert SendCopy(fs)[1..] == SendCopy(fs[1..]);
    }
  }

  // ----------------------------------------------------------- paste streams

  /** The messages of a paste carry no time to live. */
  predicate PastFrame(f: Streams.Frame) {
    (f.InfoFrame? ==> f.header.ttl == 0) && IsSlice(EncodePast(PastMessage(f)))
  }

  function PastMessage(f: Streams.Frame): PastStream {
    match f
    case InfoFrame(h) =>
      PastStream(PastInfoData(Ref(PastInfo(h.hasChecksum, h.compressed, h.masterKeyNonce, h.keyNonce, h.iv, []))), [])
    case Chunk(data) => PastStream(PastChunk(data), [])
    case Checksum(sum) => PastStream(PastChecksum(sum), [])
    case ErrorFrame(kind, message) => PastStream(PastErrorData(Ref(PastError(kind, message, []))), [])
    case EmptyFrame => PastStream(PastNone, [])
  }

  function ReadPastMessage(m: PastStream): Streams.Frame
    requires !PastHoldsNil(m)
  {
    match m.data
    case PastInfoData(Ref(i)) =>
      Streams.InfoFrame(Streams.Header(0, i.checksum, i.compressed, i.masterKeyNonce, i.keyNonce, i.iv))
    case PastChunk(data) => Streams.Chunk(data)
    case PastChecksum(sum) => Streams.Checksum(sum)
    case PastErrorData(Ref(e)) => Streams.ErrorFrame(e.kind, e.message)
    case PastNone => Streams.EmptyFrame
  }

  function ReceivePast(wire: seq<Slice>): seq<Streams.Frame> {
    if wire == [] then []
    else match DecodePast(NEW_PAST, wire[0])
      case Done(m) =>
        ReceivedPastIsWhole(wire[0]);
        [ReadPastMessage(m)] + ReceivePast(wire[1..])
      case Fail(_) => []
  }

  function EncodePastFrame(f: Streams.Frame): Slice
    requires PastFrame(f)
  {
    EncodePast(PastMessage(f))
  }

  function SendPast(fs: seq<Streams.Frame>): (wire: seq<Slice>)
    requires forall f :: f in fs ==> PastFrame(f)
    ensures |wire| == |fs|
  {
    if fs == [] then []
    else
      assert fs[0] in fs;
      [EncodePastFrame(fs[0])] + SendPast(fs[1..])
  }

  lemma PastFrameSurvives(f: Streams.Frame)
    requires PastFrame(f)
    ensures var d := DecodePast(NEW_PAST, EncodePast(PastMessage(f)));
      d.Done? && !PastHoldsNil(d.m) && ReadPastMessage(d.m) == f
  {
    hide EncodePast, DecodePast, Canonical;
    NoUnknown();
    PastRoundTrip(PastMessage(f));
  }

  /** A paste stream arrives as it was sent. */
  lemma {:induction false} PastSurvives(fs: seq<Streams.Frame>)
    requires forall f :: f in fs ==> PastFrame(f)
    ensures ReceivePast(SendPast(fs)) == fs
  {
    hide EncodePast, DecodePast;
    if fs != [] {
      assert fs[0] in fs;
      PastFrameSurvives(fs[0]);
      PastSurvives(fs[1..]);
      assert SendPast(fs)[1..] == SendPast(fs[1..]);
    }
  }
}
