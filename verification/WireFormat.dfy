/** The wire format in bytes: what the generated codec writes for messages with every
    field set, with the field numbers and wire types of proto/cp.proto, and what its
    decoders refuse. */
module WireFormat {
  import opened GoInt
  import opened Wrappers
  import opened Varint
  import opened Wire
  import opened Messages
  import opened RoundTrips
  import Locked
  import Streams
  import Transport

  // ---------------------------------------------------------------- integers

  /** The Go conversions wrap. */
  lemma KnownConversions()
    ensures ToInt64(0xFFFF_FFFF_FFFF_FFFF) == -1 && ToInt64(0x8000_0000_0000_0000) == -0x8000_0000_0000_0000
    ensures ToInt64(0x7FFF_FFFF_FFFF_FFFF) == 0x7FFF_FFFF_FFFF_FFFF && ToUint64(-1) == 0xFFFF_FFFF_FFFF_FFFF
    ensures ToInt32(0x1_0000_0005) == 5 && ToInt32(0xFFFF_FFFF) == -1 && ToInt32(0x8000_0000) == -0x8000_0000
    ensures AddInt(0x7FFF_FFFF_FFFF_FFFF, 1) == -0x8000_0000_0000_0000
  {}

  /** Seven bits a byte, the least significant group first. */
  lemma KnownVarints()
    ensures EncodeVarint(0) == [0] && EncodeVarint(127) == [0x7F] && EncodeVarint(128) == [0x80, 0x01]
    ensures EncodeVarint(300) == [0xAC, 0x02]
    ensures EncodeVarint(0xFFFF_FFFF_FFFF_FFFF) == [0xFF, 0xFF, 0xFF, 0xFF, 0xFF, 0xFF, 0xFF, 0xFF, 0xFF, 0x01]
  {
    assert EncodeVarint(0xFFFF_FFFF_FFFF_FFFF / 0x80) == [0xFF] + EncodeVarint(0xFFFF_FFFF_FFFF_FFFF / 0x4000);
  }

  /** A group that adds nothing is accepted, and the bits of a tenth byte beyond the
      64th are lost. */
  lemma KnownLongVarints()
    ensures ReadVarint([0x80, 0x80, 0x00], 0) == Value(0, 3) && ReadVarint([0x81, 0x80, 0x00], 0) == Value(1, 3)
    ensures ReadVarint([0x80, 0x80, 0x80, 0x80, 0x80, 0x80, 0x80, 0x80, 0x80, 0x02], 0) == Value(0, 10)
    ensures ReadVarint([0x80, 0x80, 0x80, 0x80, 0x80, 0x80, 0x80, 0x80, 0x80, 0x7F], 0) == Value(TWO_63, 10)
  {
    var d: Bytes := [0x80, 0x80, 0x80, 0x80, 0x80, 0x80, 0x80, 0x80, 0x80, 0x7F];
    var e: Bytes := [0x80, 0x80, 0x80, 0x80, 0x80, 0x80, 0x80, 0x80, 0x80, 0x02];
    assert ReadGroups(d, 6, 4) == Sum(0x7F * 0x20_0000, 10);
    assert ReadGroups(e, 6, 4) == Sum(0x02 * 0x20_0000, 10);
    assert ReadGroups(d, 3, 7) == Sum(0x7F * 0x400_0000_0000, 10);
    assert ReadGroups(e, 3, 7) == Sum(0x02 * 0x400_0000_0000, 10);
    assert ReadGroups(d, 0, 10) == Sum(0x7F * TWO_63, 10);
    assert ReadGroups(e, 0, 10) == Sum(0x02 * TWO_63, 10);
  }

  /** A varint is too long exactly if ten bytes go by without its last, and cut off
      exactly if the buffer ends before that. */
  lemma VarintEnds(d: Bytes, i: nat)
    requires i <= |d|
    ensures ReadVarint(d, i) == BadNumber(IntOverflow) <==> i + 10 <= |d| && forall k :: i <= k < i + 10 ==> d[k] >= 128
    ensures ReadVarint(d, i) == BadNumber(UnexpectedEOF) <==> |d| < i + 10 && forall k :: i <= k < |d| ==> d[k] >= 128
    ensures ReadVarint(d, i).BadNumber? ==> ReadVarint(d, i).err == IntOverflow || ReadVarint(d, i).err == UnexpectedEOF
  {
    GroupsEnd(d, i, 10);
  }

  lemma {:induction false} GroupsEnd(d: Bytes, i: nat, left: nat)
    requires i <= |d|
    ensures ReadGroups(d, i, left) == BadGroups(IntOverflow) <==>
      i + left <= |d| && forall k :: i <= k < i + left ==> d[k] >= 128
    ensures ReadGroups(d, i, left) == BadGroups(UnexpectedEOF) <==>
      |d| < i + left && forall k :: i <= k < |d| ==> d[k] >= 128
    ensures ReadGroups(d, i, left).BadGroups? ==>
      ReadGroups(d, i, left).err == IntOverflow || ReadGroups(d, i, left).err == UnexpectedEOF
    decreases left
  {
    if left > 0 && i < |d| && d[i] >= 128 { GroupsEnd(d, i + 1, left - 1); }
  }

  // ---------------------------------------------------------------- messages

  const COPY_INFO_EXAMPLE := CopyInfo(300, true, [11], [12, 13], [14], [])
  const PAST_INFO_EXAMPLE := PastInfo(true, true, [11], [12, 13], [14], [])

  /** Fields 1 to 5 of an Info; what is zero, false or empty is not written. */
  lemma KnownCopyInfo()
    ensures EncodeCopyInfo(COPY_INFO_EXAMPLE)
         == [0x08, 0xAC, 0x02, 0x10, 1, 0x1A, 1, 11, 0x22, 2, 12, 13, 0x2A, 1, 14]
    ensures EncodeCopyInfo(NEW_COPY_INFO) == []
    ensures EncodeCopyInfo(NEW_COPY_INFO.(ttl := -1))
         == [0x08, 0xFF, 0xFF, 0xFF, 0xFF, 0xFF, 0xFF, 0xFF, 0xFF, 0xFF, 0x01]
  {
    hide EncodeVarint;
    KnownVarints();
    SmallVarints();
  }

  lemma SmallVarints()
    ensures forall n: nat :: n < 128 ==> EncodeVarint(n) == [n]
  {}

  lemma KnownPastInfo()
    ensures EncodePastInfo(PAST_INFO_EXAMPLE) == [0x08, 1, 0x10, 1, 0x1A, 1, 11, 0x22, 2, 12, 13, 0x2A, 1, 14]
    ensures EncodePastInfo(NEW_PAST_INFO) == []
  {
    hide EncodeVarint;
    SmallVarints();
  }

  lemma KnownPastError()
    ensures EncodePastError(PastError(1, [11], [])) == [0x08, 1, 0x12, 1, 11]
    ensures EncodePastError(NEW_PAST_ERROR) == []
  {
    hide EncodeVarint;
    SmallVarints();
  }

  /** Fields 1 to 3 of a CopyStream; a oneof is written even when it is empty. */
  lemma KnownCopyStream()
    ensures EncodeCopy(CopyStream(CopyInfoData(Ref(NEW_COPY_INFO.(compressed := true))), [])) == [0x0A, 2, 0x10, 1]
    ensures EncodeCopy(CopyStream(CopyInfoData(Ref(NEW_COPY_INFO)), [])) == [0x0A, 0]
    ensures EncodeCopy(CopyStream(CopyChunk([11, 12]), [])) == [0x12, 2, 11, 12]
    ensures EncodeCopy(CopyStream(CopyChunk([]), [])) == [0x12, 0]
    ensures EncodeCopy(CopyStream(CopyChecksum([11]), [])) == [0x1A, 1, 11]
    ensures EncodeCopy(NEW_COPY) == []
  {
    hide EncodeVarint;
    SmallVarints();
  }

  /** Fields 1 to 4 of a PastStream. */
  lemma KnownPastStream()
    ensures EncodePast(PastStream(PastInfoData(Ref(NEW_PAST_INFO.(checksum := true))), [])) == [0x0A, 2, 0x08, 1]
    ensures EncodePast(PastStream(PastChunk([11, 12]), [])) == [0x12, 2, 11, 12]
    ensures EncodePast(PastStream(PastChecksum([11]), [])) == [0x1A, 1, 11]
    ensures EncodePast(PastStream(PastErrorData(Ref(PastError(1, [], []))), [])) == [0x22, 2, 0x08, 1]
    ensures EncodePast(NEW_PAST) == []
  {
    hide EncodeVarint;
    SmallVarints();
  }

  /** A map entry is field 1, its key and value are fields 1 and 2. */
  lemma KnownLocked()
    ensures Locked.EncodeLocked([[49]], Locked.LockedTransaction(map[[49] := [11]], []))
         == [0x0A, 6, 0x0A, 1, 49, 0x12, 1, 11]
  {
    hide EncodeVarint;
    SmallVarints();
    var versions: map<Bytes, Bytes> := map[[49] := [11]];
    assert [[49]][1..] == [];
    assert Locked.EncodeEntries([[49]], versions)
        == Locked.EncodeEntries([], versions) + BlobField(0x0a, Locked.EncodeEntry([49], [11]));
  }

  // ------------------------------------------------------------ last one wins

  /** A second Info goes into the first, field by field: what it sets wins. */
  lemma InfoIntoInfo(a: CopyInfo, b: CopyInfo)
    requires IsSlice(EncodeCopy(CopyStream(CopyInfoData(Ref(b)), []))) && Canonical(COPY_INFO, b.unknown)
    ensures DecodeCopy(CopyStream(CopyInfoData(Ref(a)), []), EncodeCopy(CopyStream(CopyInfoData(Ref(b)), [])))
         == Done(CopyStream(CopyInfoData(Ref(CopyInfo(
              if b.ttl != 0 then b.ttl else a.ttl,
              a.compressed || b.compressed,
              if b.masterKeyNonce != [] then b.masterKeyNonce else a.masterKeyNonce,
              if b.keyNonce != [] then b.keyNonce else a.keyNonce,
              if b.iv != [] then b.iv else a.iv,
              a.unknown + b.unknown))), []))
  {
    hide DecodeCopy, EncodeCopy, AllUnknown;
    EmptyIsUnknown(COPY_STREAM);
    CopyMerges(CopyStream(CopyInfoData(Ref(a)), []), CopyStream(CopyInfoData(Ref(b)), []));
    var none: Bytes := [];
    assert none + none == none;
  }

  /** Any other member of the oneof replaces what was there. */
  lemma OneofIsReplaced(a: CopyStream, x: Bytes)
    requires a.data != CopyInfoData(Nil) && IsSlice(EncodeCopy(CopyStream(CopyChunk(x), [])))
    requires IsSlice(EncodeCopy(CopyStream(CopyChecksum(x), [])))
    ensures DecodeCopy(a, EncodeCopy(CopyStream(CopyChunk(x), []))) == Done(CopyStream(CopyChunk(x), a.unknown))
    ensures DecodeCopy(a, EncodeCopy(CopyStream(CopyChecksum(x), []))) == Done(CopyStream(CopyChecksum(x), a.unknown))
  {
    hide DecodeCopy, EncodeCopy, AllUnknown;
    EmptyIsUnknown(COPY_STREAM);
    CopyMerges(a, CopyStream(CopyChunk(x), []));
    CopyMerges(a, CopyStream(CopyChecksum(x), []));
    assert a.unknown + [] == a.unknown;
  }

  // ----------------------------------------------------------------- decoding

  /** One field whose tag is one byte, at the start of a buffer. */
  lemma SkipOne(d: Slice, tag: byte)
    requires tag < 128 && tag % 8 != 3 && d != [] && d[0] == tag
    ensures ReadVarint(d, 0) == Value(tag, 1)
    ensures SkipFrom(d, 0, 0) ==
      match ReadPayload(d, tag % 8, 1, 0) case BadLanding(e) => BadSkip(e) case Landing(end, _) => Skipped(end)
  {
    hide ReadPayload;
    assert d == [tag] + d[1..];
    TagAt(tag, d[1..]);
    LandsAtTop(d, tag % 8);
  }

  lemma LandsAtTop(d: Slice, wireType: nat)
    requires d != [] && wireType < 8 && wireType != 3
    ensures ReadPayload(d, wireType, 1, 0).Landing? ==> ReadPayload(d, wireType, 1, 0).depth == 0
  {}

  /** Eight bytes for wire type 1, four for 5; an end without a start and the wire types
      6 and 7 are refused. */
  lemma KnownSkips(d: Slice, tag: byte)
    requires tag < 128 && d != [] && d[0] == tag && |d| < 1000
    ensures tag % 8 == 1 ==> SkipFrom(d, 0, 0) == Skipped(9)
    ensures tag % 8 == 5 ==> SkipFrom(d, 0, 0) == Skipped(5)
    ensures tag % 8 == 4 ==> SkipFrom(d, 0, 0) == BadSkip(UnexpectedEndOfGroup)
    ensures tag % 8 == 6 || tag % 8 == 7 ==> SkipFrom(d, 0, 0) == BadSkip(IllegalWireType)
  {
    hide SkipFrom, ReadVarint;
    if tag % 8 != 3 { SkipOne(d, tag); }
  }

  /** A varint is skipped whole. */
  lemma KnownSkipOfNumber(v: u64, post: Bytes)
    requires |NumField(0x08, v) + post| <= MAX_INT
    ensures SkipFrom(NumField(0x08, v) + post, 0, 0) == Skipped(1 + |EncodeVarint(v)|)
  {
    hide SkipFrom, ReadVarint, EncodeVarint, Sov;
    SkipOne(NumField(0x08, v) + post, 0x08);
    VarintRoundTrip([0x08], v, post);
    SovIsEncodedLength(v);
    assert NumField(0x08, v) + post == [0x08] + EncodeVarint(v) + post;
  }

  /** A length is skipped with as many bytes as it says. */
  lemma KnownSkipOfBytes(b: Bytes, post: Bytes)
    requires |BlobField(0x0A, b) + post| <= MAX_INT
    ensures SkipFrom(BlobField(0x0A, b) + post, 0, 0) == Skipped(1 + |EncodeVarint(|b|)| + |b|)
  {
    hide SkipFrom, ReadVarint, EncodeVarint, Sov;
    SkipOne(BlobField(0x0A, b) + post, 0x0A);
    VarintRoundTrip([0x0A], |b|, b + post);
    SovIsEncodedLength(|b|);
    assert BlobField(0x0A, b) + post == [0x0A] + EncodeVarint(|b|) + (b + post);
  }

  /** A group ends at its end tag. */
  lemma KnownGroup()
    ensures SkipFrom([0x0B, 0x08, 1, 0x0C], 0, 0) == Skipped(4)
  {
    var d: Slice := [0x0B, 0x08, 1, 0x0C];
    assert SkipFrom(d, 3, 1) == Skipped(4);
    assert SkipFrom(d, 1, 1) == SkipFrom(d, 3, 1);
  }

  /** What a decoder refuses, with its reason: a field it knows with another wire type,
      an end of a group, and field number zero. */
  lemma KnownRefusals(m: CopyStream)
    ensures DecodeCopy(m, [0x08, 1]) == Fail(WrongWireType)
    ensures DecodeCopy(m, [0x0C]) == Fail(EndGroupForNonGroup)
    ensures DecodeCopy(m, [0x02, 0]) == Fail(IllegalTag)
  {
    hide ApplyCopyStream, SkipFrom;
  }

  /** A length beyond the buffer is refused, and one below zero. */
  lemma KnownLengths(m: CopyStream, v: u64, b: Bytes)
    requires |[0x12] + EncodeVarint(v) + b| <= MAX_INT
    ensures |b| < v <= MAX_INT - 1 - |EncodeVarint(v)| ==>
      DecodeCopy(m, [0x12] + EncodeVarint(v) + b) == Fail(UnexpectedEOF)
    ensures v >= TWO_63 ==> DecodeCopy(m, [0x12] + EncodeVarint(v) + b) == Fail(InvalidLength)
  {
    hide SkipFrom, ReadVarint, EncodeVarint, Sov, ApplyCopyStream;
    var d: Slice := [0x12] + EncodeVarint(v) + b;
    assert d == [0x12] + (EncodeVarint(v) + b);
    TagAt(0x12, EncodeVarint(v) + b);
    VarintRoundTrip([0x12], v, b);
    SovIsEncodedLength(v);
  }

  /** A field cannot go into a nil message. */
  lemma RefusedNil()
    ensures DecodeCopy(CopyStream(CopyInfoData(Nil), []), [0x0A, 2, 0x10, 1]) == Fail(NilMessage)
  {
    hide SkipFrom;
    assert NextRecord(COPY_STREAM, [0x0A, 2, 0x10, 1], 0) == Blob(1, 2, 4);
  }

  // ----------------------------------------------------------------- transport

  /** Which message stands for which frame. */
  lemma KnownMessages(h: Streams.Header, x: Bytes, kind: i32)
    ensures Transport.CopyMessage(Streams.InfoFrame(h))
         == CopyStream(CopyInfoData(Ref(CopyInfo(h.ttl, h.compressed, h.masterKeyNonce, h.keyNonce, h.iv, []))), [])
    ensures Transport.PastMessage(Streams.InfoFrame(h))
         == PastStream(PastInfoData(Ref(PastInfo(
              h.hasChecksum, h.compressed, h.masterKeyNonce, h.keyNonce, h.iv, []))), [])
    ensures Transport.CopyMessage(Streams.Chunk(x)) == CopyStream(CopyChunk(x), [])
    ensures Transport.CopyMessage(Streams.Checksum(x)) == CopyStream(CopyChecksum(x), [])
    ensures Transport.PastMessage(Streams.Chunk(x)) == PastStream(PastChunk(x), [])
    ensures Transport.PastMessage(Streams.Checksum(x)) == PastStream(PastChecksum(x), [])
    ensures Transport.PastMessage(Streams.ErrorFrame(kind, x))
         == PastStream(PastErrorData(Ref(PastError(kind, x, []))), [])
  {}
}
