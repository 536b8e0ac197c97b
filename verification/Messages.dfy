/** The messages as values: what a decoder's records do to them, their wire
    form, and the laws that tie the two together. */
module Messages {
  import opened GoInt
  import opened Varint
  import opened Wire

  /** A Go pointer to a message. */
  datatype Ptr<+T> = Nil | Ref(v: T)

  datatype CopyInfo = CopyInfo(
    ttl: i64, compressed: bool, masterKeyNonce: Bytes, keyNonce: Bytes, iv: Bytes, unknown: Bytes)

  datatype PastInfo = PastInfo(
    checksum: bool, compressed: bool, masterKeyNonce: Bytes, keyNonce: Bytes, iv: Bytes, unknown: Bytes)

  datatype PastError = PastError(kind: i32, message: Bytes, unknown: Bytes)

  datatype CopyData = CopyNone | CopyInfoData(info: Ptr<CopyInfo>) | CopyChunk(chunk: Bytes) | CopyChecksum(sum: Bytes)

  datatype CopyStream = CopyStream(data: CopyData, unknown: Bytes)

  datatype PastData =
    | PastNone
    | PastInfoData(info: Ptr<PastInfo>)
    | PastChunk(chunk: Bytes)
    | PastChecksum(sum: Bytes)
    | PastErrorData(error: Ptr<PastError>)

  datatype PastStream = PastStream(data: PastData, unknown: Bytes)

  const NEW_COPY_INFO := CopyInfo(0, false, [], [], [], [])
  const NEW_PAST_INFO := PastInfo(false, false, [], [], [], [])
  const NEW_PAST_ERROR := PastError(0, [], [])
  const NEW_COPY := CopyStream(CopyNone, [])
  const NEW_PAST := PastStream(PastNone, [])

  // ------------------------------------------------ what a record does

  const COPY_INFO: Schema := map[1 := 0, 2 := 0, 3 := 2, 4 := 2, 5 := 2]
  const PAST_INFO: Schema := map[1 := 0, 2 := 0, 3 := 2, 4 := 2, 5 := 2]
  const PAST_ERROR: Schema := map[1 := 0, 2 := 2]
  const COPY_STREAM: Schema := map[1 := 2, 2 := 2, 3 := 2]
  const PAST_STREAM: Schema := map[1 := 2, 2 := 2, 3 := 2, 4 := 2]

  function ApplyCopyInfo(m: CopyInfo, d: Slice, r: Record): Outcome<CopyInfo> {
    match r
    case Num(f, v, _) => Done(if f == 1 then m.(ttl := ToInt64(v)) else m.(compressed := v != 0))
    case Blob(f, lo, hi) =>
      Done(if f == 3 then m.(masterKeyNonce := Cut(d, lo, hi))
           else if f == 4 then m.(keyNonce := Cut(d, lo, hi))
           else m.(iv := Cut(d, lo, hi)))
    case Unknown(lo, hi) => Done(m.(unknown := m.unknown + Cut(d, lo, hi)))
    case Bad(e) => Fail(e)
  }

  function ApplyPastInfo(m: PastInfo, d: Slice, r: Record): Outcome<PastInfo> {
    match r
    case Num(f, v, _) => Done(if f == 1 then m.(checksum := v != 0) else m.(compressed := v != 0))
    case Blob(f, lo, hi) =>
      Done(if f == 3 then m.(masterKeyNonce := Cut(d, lo, hi))
           else if f == 4 then m.(keyNonce := Cut(d, lo, hi))
           else m.(iv := Cut(d, lo, hi)))
    case Unknown(lo, hi) => Done(m.(unknown := m.unknown + Cut(d, lo, hi)))
    case Bad(e) => Fail(e)
  }

  function ApplyPastError(m: PastError, d: Slice, r: Record): Outcome<PastError> {
    match r
    case Num(_, v, _) => Done(m.(kind := ToInt32(v)))
    case Blob(_, lo, hi) => Done(m.(message := Cut(d, lo, hi)))
    case Unknown(lo, hi) => Done(m.(unknown := m.unknown + Cut(d, lo, hi)))
    case Bad(e) => Fail(e)
  }

  function DecodeCopyInfo(m: CopyInfo, d: Slice): Outcome<CopyInfo> {
    Decode(COPY_INFO, ApplyCopyInfo, m, d, 0)
  }

  function DecodePastInfo(m: PastInfo, d: Slice): Outcome<PastInfo> {
    Decode(PAST_INFO, ApplyPastInfo, m, d, 0)
  }

  function DecodePastError(m: PastError, d: Slice): Outcome<PastError> {
    Decode(PAST_ERROR, ApplyPastError, m, d, 0)
  }

  /** A nested message: merged into the one the oneof holds, else into a new
      one. A nil message cannot take a field (the program would panic). */
  function MergeNested<T>(held: Ptr<T>, body: Slice, decode: (T, Slice) -> Outcome<T>): Outcome<Ptr<T>> {
    match held
    case Nil => if body == [] then Done(Nil) else Fail(NilMessage)
    case Ref(m) => (match decode(m, body) case Done(m') => Done(Ref(m')) case Fail(e) => Fail(e))
  }

  function ApplyCopyStream(m: CopyStream, d: Slice, r: Record): Outcome<CopyStream> {
    match r
    case Blob(f, lo, hi) =>
      if f == 1 then
        var held := if m.data.CopyInfoData? then m.data.info else Ref(NEW_COPY_INFO);
        (match MergeNested(held, Cut(d, lo, hi), DecodeCopyInfo)
         case Done(p) => Done(m.(data := CopyInfoData(p)))
         case Fail(e) => Fail(e))
      else if f == 2 then Done(m.(data := CopyChunk(Cut(d, lo, hi))))
      else Done(m.(data := CopyChecksum(Cut(d, lo, hi))))
    case Unknown(lo, hi) => Done(m.(unknown := m.unknown + Cut(d, lo, hi)))
    case Num(_, _, _) => Fail(WrongWireType)
    case Bad(e) => Fail(e)
  }

  function ApplyPastStream(m: PastStream, d: Slice, r: Record): Outcome<PastStream> {
    match r
    case Blob(f, lo, hi) =>
      if f == 1 then
        var held := if m.data.PastInfoData? then m.data.info else Ref(NEW_PAST_INFO);
        (match MergeNested(held, Cut(d, lo, hi), DecodePastInfo)
         case Done(p) => Done(m.(data := PastInfoData(p)))
         case Fail(e) => Fail(e))
      else if f == 2 then Done(m.(data := PastChunk(Cut(d, lo, hi))))
      else if f == 3 then Done(m.(data := PastChecksum(Cut(d, lo, hi))))
      else
        var held := if m.data.PastErrorData? then m.data.error else Ref(NEW_PAST_ERROR);
        (match MergeNested(held, Cut(d, lo, hi), DecodePastError)
         case Done(p) => Done(m.(data := PastErrorData(p)))
         case Fail(e) => Fail(e))
    case Unknown(lo, hi) => Done(m.(unknown := m.unknown + Cut(d, lo, hi)))
    case Num(_, _, _) => Fail(WrongWireType)
    case Bad(e) => Fail(e)
  }

  function DecodeCopy(m: CopyStream, d: Slice): Outcome<CopyStream> {
    Decode(COPY_STREAM, ApplyCopyStream, m, d, 0)
  }

  function DecodePast(m: PastStream, d: Slice): Outcome<PastStream> {
    Decode(PAST_STREAM, ApplyPastStream, m, d, 0)
  }

  // --------------------------------------------------------------- wire form

  /** Default values are not written. */
  function OptNum(tag: byte, v: u64): Bytes {
    if v == 0 then [] else NumField(tag, v)
  }

  function OptBool(tag: byte, b: bool): Bytes {
    if b then [tag, 1] else []
  }

  function OptBlob(tag: byte, b: Bytes): Bytes {
    if b == [] then [] else BlobField(tag, b)
  }

  function EncodeCopyInfo(m: CopyInfo): Bytes {
    OptNum(0x08, ToUint64(m.ttl)) + (OptBool(0x10, m.compressed) + (OptBlob(0x1a, m.masterKeyNonce) +
    (OptBlob(0x22, m.keyNonce) + (OptBlob(0x2a, m.iv) + m.unknown))))
  }

  function EncodePastInfo(m: PastInfo): Bytes {
    OptBool(0x08, m.checksum) + (OptBool(0x10, m.compressed) + (OptBlob(0x1a, m.masterKeyNonce) +
    (OptBlob(0x22, m.keyNonce) + (OptBlob(0x2a, m.iv) + m.unknown))))
  }

  function EncodePastError(m: PastError): Bytes {
    OptNum(0x08, ToUint64(m.kind)) + (OptBlob(0x12, m.message) + m.unknown)
  }

  /** A oneof is written even when its content is empty; a nil message is not. */
  function EncodeCopyData(data: CopyData): Bytes {
    match data
    case CopyNone => []
    case CopyInfoData(Nil) => []
    case CopyInfoData(Ref(info)) => BlobField(0x0a, EncodeCopyInfo(info))
    case CopyChunk(b) => BlobField(0x12, b)
    case CopyChecksum(b) => BlobField(0x1a, b)
  }

  function EncodeCopy(m: CopyStream): Bytes {
    EncodeCopyData(m.data) + m.unknown
  }

  function EncodePastData(data: PastData): Bytes {
    match data
    case PastNone => []
    case PastInfoData(Nil) => []
    case PastInfoData(Ref(info)) => BlobField(0x0a, EncodePastInfo(info))
    case PastChunk(b) => BlobField(0x12, b)
    case PastChecksum(b) => BlobField(0x1a, b)
    case PastErrorData(Nil) => []
    case PastErrorData(Ref(e)) => BlobField(0x22, EncodePastError(e))
  }

  function EncodePast(m: PastStream): Bytes {
    EncodePastData(m.data) + m.unknown
  }

  // -------------------------------------------------------------- locality

  lemma CutLocal(a: Slice, b: Slice, lo: nat, hi: nat)
    requires |a + b| <= MAX_INT
    ensures lo <= hi <= |a| ==> Cut(a + b, lo, hi) == Cut(a, lo, hi)
    ensures lo <= hi <= |b| ==> Cut(a + b, lo + |a|, hi + |a|) == Cut(b, lo, hi)
  {
    if lo <= hi <= |b| { assert (a + b)[lo + |a|..hi + |a|] == b[lo..hi]; }
    if lo <= hi <= |a| { assert (a + b)[lo..hi] == a[lo..hi]; }
  }

  lemma CopyInfoLocal()
    ensures Local(ApplyCopyInfo)
  {
    forall m: CopyInfo, a: Slice, b: Slice, r: Record
      ensures Extends(ApplyCopyInfo, m, a, b, r) && Shifts(ApplyCopyInfo, m, a, b, r)
    {
      if |a + b| <= MAX_INT && (r.Blob? || r.Unknown?) { CutLocal(a, b, r.lo, r.next); }
    }
  }

  lemma PastInfoLocal()
    ensures Local(ApplyPastInfo)
  {
    forall m: PastInfo, a: Slice, b: Slice, r: Record
      ensures Extends(ApplyPastInfo, m, a, b, r) && Shifts(ApplyPastInfo, m, a, b, r)
    {
      if |a + b| <= MAX_INT && (r.Blob? || r.Unknown?) { CutLocal(a, b, r.lo, r.next); }
    }
  }

  lemma PastErrorLocal()
    ensures Local(ApplyPastError)
  {
    forall m: PastError, a: Slice, b: Slice, r: Record
      ensures Extends(ApplyPastError, m, a, b, r) && Shifts(ApplyPastError, m, a, b, r)
    {
      if |a + b| <= MAX_INT && (r.Blob? || r.Unknown?) { CutLocal(a, b, r.lo, r.next); }
    }
  }

  lemma CopyStreamLocal()
    ensures Local(ApplyCopyStream)
  {
    forall m: CopyStream, a: Slice, b: Slice, r: Record
      ensures Extends(ApplyCopyStream, m, a, b, r) && Shifts(ApplyCopyStream, m, a, b, r)
    {
      if |a + b| <= MAX_INT && (r.Blob? || r.Unknown?) { CutLocal(a, b, r.lo, r.next); }
    }
  }

  lemma PastStreamLocal()
    ensures Local(ApplyPastStream)
  {
    forall m: PastStream, a: Slice, b: Slice, r: Record
      ensures Extends(ApplyPastStream, m, a, b, r) && Shifts(ApplyPastStream, m, a, b, r)
    {
      if |a + b| <= MAX_INT && (r.Blob? || r.Unknown?) { CutLocal(a, b, r.lo, r.next); }
    }
  }

}
