/** Encoding and decoding are inverse, and decoding merges, for the messages of
    the copy and paste streams. */
module RoundTrips {
  import opened GoInt
  import opened Wire
  import opened Messages

  // ------------------------------------------------- one field, then the rest

  lemma OptNumThen<M(!new)>(
      schema: Schema, apply: (M, Slice, Record) -> Outcome<M>, m: M, tag: byte, v: u64, m1: M, rest: Slice)
    requires KnownTag(schema, tag, 0) && Local(apply) && |OptNum(tag, v) + rest| <= MAX_INT
    requires if v == 0 then m1 == m else apply(m, NumField(tag, v), Num(tag / 8, v, |NumField(tag, v)|)) == Done(m1)
    requires Decode(schema, apply, m1, rest, 0).Done?
    ensures Decode(schema, apply, m, OptNum(tag, v) + rest, 0) == Decode(schema, apply, m1, rest, 0)
  {
    if v == 0 {
      assert OptNum(tag, v) + rest == rest;
    } else {
      NumFieldRecord(schema, tag, v);
      DecodeOne(schema, apply, m, NumField(tag, v));
      DecodeField(schema, apply, m, NumField(tag, v), m1, rest);
    }
  }

  lemma OptBoolThen<M(!new)>(
      schema: Schema, apply: (M, Slice, Record) -> Outcome<M>, m: M, tag: byte, b: bool, m1: M, rest: Slice)
    requires KnownTag(schema, tag, 0) && Local(apply) && |OptBool(tag, b) + rest| <= MAX_INT
    requires if b then apply(m, NumField(tag, 1), Num(tag / 8, 1, 2)) == Done(m1) else m1 == m
    requires Decode(schema, apply, m1, rest, 0).Done?
    ensures Decode(schema, apply, m, OptBool(tag, b) + rest, 0) == Decode(schema, apply, m1, rest, 0)
  {
    assert NumField(tag, 1) == [tag, 1];
    OptNumThen(schema, apply, m, tag, if b then 1 else 0, m1, rest);
  }

  lemma BlobThen<M(!new)>(
      schema: Schema, apply: (M, Slice, Record) -> Outcome<M>, m: M, tag: byte, b: Slice, m1: M, rest: Slice)
    requires KnownTag(schema, tag, 2) && Local(apply) && |BlobField(tag, b) + rest| <= MAX_INT
    requires var d := BlobField(tag, b);
      Cut(d, |d| - |b|, |d|) == b ==> apply(m, d, Blob(tag / 8, |d| - |b|, |d|)) == Done(m1)
    requires Decode(schema, apply, m1, rest, 0).Done?
    ensures Decode(schema, apply, m, BlobField(tag, b) + rest, 0) == Decode(schema, apply, m1, rest, 0)
  {
    BlobFieldRecord(schema, tag, b);
    DecodeOne(schema, apply, m, BlobField(tag, b));
    DecodeField(schema, apply, m, BlobField(tag, b), m1, rest);
  }

  lemma OptBlobThen<M(!new)>(
      schema: Schema, apply: (M, Slice, Record) -> Outcome<M>, m: M, tag: byte, b: Slice, m1: M, rest: Slice)
    requires KnownTag(schema, tag, 2) && Local(apply) && |OptBlob(tag, b) + rest| <= MAX_INT
    requires if b == [] then m1 == m else
      var d := BlobField(tag, b);
      Cut(d, |d| - |b|, |d|) == b ==> apply(m, d, Blob(tag / 8, |d| - |b|, |d|)) == Done(m1)
    requires Decode(schema, apply, m1, rest, 0).Done?
    ensures Decode(schema, apply, m, OptBlob(tag, b) + rest, 0) == Decode(schema, apply, m1, rest, 0)
  {
    if b == [] {
      assert OptBlob(tag, b) + rest == rest;
    } else {
      BlobThen(schema, apply, m, tag, b, m1, rest);
    }
  }

  lemma OptBlobHolds(tag: byte, b: Bytes)
    ensures |b| <= |OptBlob(tag, b)|
  {}

  /** Unknown fields that a decoder could have kept: complete records of fields
      the message does not know. */
  predicate Canonical(schema: Schema, u: Bytes) {
    IsSlice(u) && AllUnknown(schema, u, 0)
  }

  function Later(a: Bytes, b: Bytes): Bytes {
    if b != [] then b else a
  }

  // -------------------------------------------------------- CopyStream_Info

  function AddToCopyInfo(m: CopyInfo, u: Bytes): CopyInfo {
    m.(unknown := m.unknown + u)
  }

  lemma CopyInfoAppends()
    ensures AppendsUnknown(ApplyCopyInfo, AddToCopyInfo)
  {
    forall m: CopyInfo, x: Bytes, y: Bytes
      ensures AddToCopyInfo(AddToCopyInfo(m, x), y) == AddToCopyInfo(m, x + y)
    {
      assert m.unknown + x + y == m.unknown + (x + y);
    }
    forall m: CopyInfo ensures AddToCopyInfo(m, []) == m { assert m.unknown + [] == m.unknown; }
  }

  /** Field by field, the later value wins unless it is the default. */
  function MergeCopyInfo(a: CopyInfo, b: CopyInfo): CopyInfo {
    CopyInfo(if b.ttl != 0 then b.ttl else a.ttl, a.compressed || b.compressed,
      Later(a.masterKeyNonce, b.masterKeyNonce), Later(a.keyNonce, b.keyNonce), Later(a.iv, b.iv),
      a.unknown + b.unknown)
  }

  lemma CopyInfoMerges(a: CopyInfo, b: CopyInfo)
    requires IsSlice(EncodeCopyInfo(b)) && Canonical(COPY_INFO, b.unknown)
    ensures DecodeCopyInfo(a, EncodeCopyInfo(b)) == Done(MergeCopyInfo(a, b))
  {
    hide Decode, AllUnknown, OptNum, OptBool, OptBlob, BlobField, NumField;
    CopyInfoLocal();
    CopyInfoAppends();
    var schema, apply := COPY_INFO, ApplyCopyInfo;
    var m := MergeCopyInfo(a, b);
    var m5 := m.(unknown := a.unknown);
    var m4 := m5.(iv := a.iv);
    var m3 := m4.(keyNonce := a.keyNonce);
    var m2 := m3.(masterKeyNonce := a.masterKeyNonce);
    var m1 := m2.(compressed := a.compressed);
    var r4 := OptBlob(0x2a, b.iv) + b.unknown;
    var r3 := OptBlob(0x22, b.keyNonce) + r4;
    var r2 := OptBlob(0x1a, b.masterKeyNonce) + r3;
    var r1 := OptBool(0x10, b.compressed) + r2;
    OptBlobHolds(0x2a, b.iv); OptBlobHolds(0x22, b.keyNonce); OptBlobHolds(0x1a, b.masterKeyNonce);
    DecodeUnknowns(schema, apply, AddToCopyInfo, m5, b.unknown, 0);
    assert AddToCopyInfo(m5, b.unknown[0..]) == m;
    OptBlobThen(schema, apply, m4, 0x2a, b.iv, m5, b.unknown);
    OptBlobThen(schema, apply, m3, 0x22, b.keyNonce, m4, r4);
    OptBlobThen(schema, apply, m2, 0x1a, b.masterKeyNonce, m3, r3);
    OptBoolThen(schema, apply, m1, 0x10, b.compressed, m2, r2);
    OptNumThen(schema, apply, a, 0x08, ToUint64(b.ttl), m1, r1);
  }

  lemma CopyInfoRoundTrip(m: CopyInfo)
    requires IsSlice(EncodeCopyInfo(m)) && Canonical(COPY_INFO, m.unknown)
    ensures DecodeCopyInfo(NEW_COPY_INFO, EncodeCopyInfo(m)) == Done(m)
  {
    CopyInfoMerges(NEW_COPY_INFO, m);
    assert [] + m.unknown == m.unknown;
  }

  // -------------------------------------------------------- PastStream_Info

  function AddToPastInfo(m: PastInfo, u: Bytes): PastInfo {
    m.(unknown := m.unknown + u)
  }

  lemma PastInfoAppends()
    ensures AppendsUnknown(ApplyPastInfo, AddToPastInfo)
  {
    forall m: PastInfo, x: Bytes, y: Bytes
      ensures AddToPastInfo(AddToPastInfo(m, x), y) == AddToPastInfo(m, x + y)
    {
      assert m.unknown + x + y == m.unknown + (x + y);
    }
    forall m: PastInfo ensures AddToPastInfo(m, []) == m { assert m.unknown + [] == m.unknown; }
  }

  /** Field by field, the later value wins unless it is the default. */
  function MergePastInfo(a: PastInfo, b: PastInfo): PastInfo {
    PastInfo(a.checksum || b.checksum, a.compressed || b.compressed,
      Later(a.masterKeyNonce, b.masterKeyNonce), Later(a.keyNonce, b.keyNonce), Later(a.iv, b.iv),
      a.unknown + b.unknown)
  }

  lemma PastInfoMerges(a: PastInfo, b: PastInfo)
    requires IsSlice(EncodePastInfo(b)) && Canonical(PAST_INFO, b.unknown)
    ensures DecodePastInfo(a, EncodePastInfo(b)) == Done(MergePastInfo(a, b))
  {
    hide Decode, AllUnknown, OptNum, OptBool, OptBlob, BlobField, NumField;
    PastInfoLocal();
    PastInfoAppends();
    var schema, apply := PAST_INFO, ApplyPastInfo;
    var m := MergePastInfo(a, b);
    var m5 := m.(unknown := a.unknown);
    var m4 := m5.(iv := a.iv);
    var m3 := m4.(keyNonce := a.keyNonce);
    var m2 := m3.(masterKeyNonce := a.masterKeyNonce);
    var m1 := m2.(compressed := a.compressed);
    var r4 := OptBlob(0x2a, b.iv) + b.unknown;
    var r3 := OptBlob(0x22, b.keyNonce) + r4;
    var r2 := OptBlob(0x1a, b.masterKeyNonce) + r3;
    var r1 := OptBool(0x10, b.compressed) + r2;
    OptBlobHolds(0x2a, b.iv); OptBlobHolds(0x22, b.keyNonce); OptBlobHolds(0x1a, b.masterKeyNonce);
    DecodeUnknowns(schema, apply, AddToPastInfo, m5, b.unknown, 0);
    assert AddToPastInfo(m5, b.unknown[0..]) == m;
    OptBlobThen(schema, apply, m4, 0x2a, b.iv, m5, b.unknown);
    OptBlobThen(schema, apply, m3, 0x22, b.keyNonce, m4, r4);
    OptBlobThen(schema, apply, m2, 0x1a, b.masterKeyNonce, m3, r3);
    OptBoolThen(schema, apply, m1, 0x10, b.compressed, m2, r2);
    OptBoolThen(schema, apply, a, 0x08, b.checksum, m1, r1);
  }

  lemma PastInfoRoundTrip(m: PastInfo)
    requires IsSlice(EncodePastInfo(m)) && Canonical(PAST_INFO, m.unknown)
    ensures DecodePastInfo(NEW_PAST_INFO, EncodePastInfo(m)) == Done(m)
  {
    PastInfoMerges(NEW_PAST_INFO, m);
    assert [] + m.unknown == m.unknown;
  }

  // ------------------------------------------------------- PastStream_Error

  function AddToPastError(m: PastError, u: Bytes): PastError {
    m.(unknown := m.unknown + u)
  }

  lemma PastErrorAppends()
    ensures AppendsUnknown(ApplyPastError, AddToPastError)
  {
    forall m: PastError, x: Bytes, y: Bytes
      ensures AddToPastError(AddToPastError(m, x), y) == AddToPastError(m, x + y)
    {
      assert m.unknown + x + y == m.unknown + (x + y);
    }
    forall m: PastError ensures AddToPastError(m, []) == m { assert m.unknown + [] == m.unknown; }
  }

  function MergePastError(a: PastError, b: PastError): PastError {
    PastError(if b.kind != 0 then b.kind else a.kind, Later(a.message, b.message), a.unknown + b.unknown)
  }

  lemma PastErrorMerges(a: PastError, b: PastError)
    requires IsSlice(EncodePastError(b)) && Canonical(PAST_ERROR, b.unknown)
    ensures DecodePastError(a, EncodePastError(b)) == Done(MergePastError(a, b))
  {
    hide Decode, AllUnknown, OptNum, OptBool, OptBlob, BlobField, NumField;
    PastErrorLocal();
    PastErrorAppends();
    var schema, apply := PAST_ERROR, ApplyPastError;
    var m := MergePastError(a, b);
    var m2 := m.(unknown := a.unknown);
    var m1 := m2.(message := a.message);
    var r1 := OptBlob(0x12, b.message) + b.unknown;
    OptBlobHolds(0x12, b.message);
    DecodeUnknowns(schema, apply, AddToPastError, m2, b.unknown, 0);
    assert AddToPastError(m2, b.unknown[0..]) == m;
    OptBlobThen(schema, apply, m1, 0x12, b.message, m2, b.unknown);
    OptNumThen(schema, apply, a, 0x08, ToUint64(b.kind), m1, r1);
  }

  lemma PastErrorRoundTrip(m: PastError)
    requires IsSlice(EncodePastError(m)) && Canonical(PAST_ERROR, m.unknown)
    ensures DecodePastError(NEW_PAST_ERROR, EncodePastError(m)) == Done(m)
  {
    PastErrorMerges(NEW_PAST_ERROR, m);
    assert [] + m.unknown == m.unknown;
  }

  // ------------------------------------------------------------- CopyStream

  predicate CopyWellFormed(m: CopyStream) {
    && Canonical(COPY_STREAM, m.unknown)
    && (m.data.CopyInfoData? && m.data.info.Ref? ==> Canonical(COPY_INFO, m.data.info.v.unknown))
  }

  function AddToCopyStream(m: CopyStream, u: Bytes): CopyStream {
    m.(unknown := m.unknown + u)
  }

  lemma CopyStreamAppends()
    ensures AppendsUnknown(ApplyCopyStream, AddToCopyStream)
  {
    forall m: CopyStream, x: Bytes, y: Bytes
      ensures AddToCopyStream(AddToCopyStream(m, x), y) == AddToCopyStream(m, x + y)
    {
      assert m.unknown + x + y == m.unknown + (x + y);
    }
    forall m: CopyStream ensures AddToCopyStream(m, []) == m { assert m.unknown + [] == m.unknown; }
  }

  /** Decoding b's wire form into a: the oneof is replaced, except that an Info
      is merged into an Info. A nil message in b's oneof is not on the wire. */
  function MergeCopy(a: CopyStream, b: CopyStream): CopyStream {
    CopyStream(
      match b.data
      case CopyNone => a.data
      case CopyInfoData(Nil) => a.data
      case CopyInfoData(Ref(info)) =>
        CopyInfoData(Ref(MergeCopyInfo(
          if a.data.CopyInfoData? && a.data.info.Ref? then a.data.info.v else NEW_COPY_INFO, info)))
      case CopyChunk(_) => b.data
      case CopyChecksum(_) => b.data,
      a.unknown + b.unknown)
  }

  lemma CopyMerges(a: CopyStream, b: CopyStream)
    requires IsSlice(EncodeCopy(b)) && CopyWellFormed(b) && a.data != CopyInfoData(Nil)
    ensures DecodeCopy(a, EncodeCopy(b)) == Done(MergeCopy(a, b))
  {
    hide Decode, AllUnknown, BlobField, EncodeCopyInfo, MergeCopyInfo;
    CopyStreamLocal();
    CopyStreamAppends();
    var schema, apply := COPY_STREAM, ApplyCopyStream;
    var m1 := MergeCopy(a, b).(unknown := a.unknown);
    DecodeUnknowns(schema, apply, AddToCopyStream, m1, b.unknown, 0);
    assert AddToCopyStream(m1, b.unknown[0..]) == MergeCopy(a, b);
    match b.data {
      case CopyNone => assert [] + b.unknown == b.unknown;
      case CopyInfoData(Nil) => assert [] + b.unknown == b.unknown;
      case CopyInfoData(Ref(info)) =>
        BlobFieldHolds(0x0a, EncodeCopyInfo(info));
        CopyInfoMerges(if a.data.CopyInfoData? then a.data.info.v else NEW_COPY_INFO, info);
        BlobThen(schema, apply, a, 0x0a, EncodeCopyInfo(info), m1, b.unknown);
      case CopyChunk(c) =>
        BlobFieldHolds(0x12, c);
        BlobThen(schema, apply, a, 0x12, c, m1, b.unknown);
      case CopyChecksum(c) =>
        BlobFieldHolds(0x1a, c);
        BlobThen(schema, apply, a, 0x1a, c, m1, b.unknown);
    }
  }

  lemma BlobFieldHolds(tag: byte, b: Bytes)
    ensures |b| < |BlobField(tag, b)|
  {}

  /** A CopyStream survives the wire exactly when its oneof holds no nil message. */
  lemma CopyRoundTrip(m: CopyStream)
    requires IsSlice(EncodeCopy(m)) && CopyWellFormed(m)
    ensures DecodeCopy(NEW_COPY, EncodeCopy(m)) == Done(m) <==> m.data != CopyInfoData(Nil)
  {
    CopyMerges(NEW_COPY, m);
    assert [] + m.unknown == m.unknown;
    if m.data.CopyInfoData? && m.data.info.Ref? { assert [] + m.data.info.v.unknown == m.data.info.v.unknown; }
  }

  /** The concrete case: a nil header is not on the wire at all. */
  lemma NilInfoIsLost()
    ensures DecodeCopy(NEW_COPY, EncodeCopy(CopyStream(CopyInfoData(Nil), []))) == Done(NEW_COPY)
    ensures NEW_COPY != CopyStream(CopyInfoData(Nil), [])
  {
    hide Decode, EncodeCopy;
    var m := CopyStream(CopyInfoData(Nil), []);
    EmptyIsUnknown(COPY_STREAM);
    NilIsNothing();
    CopyMerges(NEW_COPY, m);
    assert [] + m.unknown == m.unknown;
  }

  lemma NilIsNothing()
    ensures EncodeCopy(CopyStream(CopyInfoData(Nil), [])) == []
  {}

  // ------------------------------------------------------------- PastStream

  predicate PastWellFormed(m: PastStream) {
    && Canonical(PAST_STREAM, m.unknown)
    && (m.data.PastInfoData? && m.data.info.Ref? ==> Canonical(PAST_INFO, m.data.info.v.unknown))
    && (m.data.PastErrorData? && m.data.error.Ref? ==> Canonical(PAST_ERROR, m.data.error.v.unknown))
  }

  predicate PastHoldsNil(m: PastStream) {
    m.data == PastInfoData(Nil) || m.data == PastErrorData(Nil)
  }

  function AddToPastStream(m: PastStream, u: Bytes): PastStream {
    m.(unknown := m.unknown + u)
  }

  lemma PastStreamAppends()
    ensures AppendsUnknown(ApplyPastStream, AddToPastStream)
  {
    forall m: PastStream, x: Bytes, y: Bytes
      ensures AddToPastStream(AddToPastStream(m, x), y) == AddToPastStream(m, x + y)
    {
      assert m.unknown + x + y == m.unknown + (x + y);
    }
    forall m: PastStream ensures AddToPastStream(m, []) == m { assert m.unknown + [] == m.unknown; }
  }

  /** Decoding b's wire form into a: the oneof is replaced, except that an Info
      is merged into an Info and an Error into an Error. */
  function MergePast(a: PastStream, b: PastStream): PastStream {
    PastStream(
      match b.data
      case PastNone => a.data
      case PastInfoData(Nil) => a.data
      case PastInfoData(Ref(info)) =>
        PastInfoData(Ref(MergePastInfo(
          if a.data.PastInfoData? && a.data.info.Ref? then a.data.info.v else NEW_PAST_INFO, info)))
      case PastChunk(_) => b.data
      case PastChecksum(_) => b.data
      case PastErrorData(Nil) => a.data
      case PastErrorData(Ref(e)) =>
        PastErrorData(Ref(MergePastError(
          if a.data.PastErrorData? && a.data.error.Ref? then a.data.error.v else NEW_PAST_ERROR, e))),
      a.unknown + b.unknown)
  }

  lemma PastMerges(a: PastStream, b: PastStream)
    requires IsSlice(EncodePast(b)) && PastWellFormed(b) && !PastHoldsNil(a)
    ensures DecodePast(a, EncodePast(b)) == Done(MergePast(a, b))
  {
    hide Decode, AllUnknown, BlobField, EncodePastInfo, EncodePastError, MergePastInfo, MergePastError;
    PastStreamLocal();
    PastStreamAppends();
    var schema, apply := PAST_STREAM, ApplyPastStream;
    var m1 := MergePast(a, b).(unknown := a.unknown);
    DecodeUnknowns(schema, apply, AddToPastStream, m1, b.unknown, 0);
    assert AddToPastStream(m1, b.unknown[0..]) == MergePast(a, b);
    if PastHoldsNil(b) || b.data.PastNone? {
      assert [] + b.unknown == b.unknown;
    } else {
      match b.data {
        case PastInfoData(Ref(info)) =>
          BlobFieldHolds(0x0a, EncodePastInfo(info));
          PastInfoMerges(if a.data.PastInfoData? then a.data.info.v else NEW_PAST_INFO, info);
          BlobThen(schema, apply, a, 0x0a, EncodePastInfo(info), m1, b.unknown);
        case PastChunk(c) =>
          BlobFieldHolds(0x12, c);
          BlobThen(schema, apply, a, 0x12, c, m1, b.unknown);
        case PastChecksum(c) =>
          BlobFieldHolds(0x1a, c);
          BlobThen(schema, apply, a, 0x1a, c, m1, b.unknown);
        case PastErrorData(Ref(e)) =>
          BlobFieldHolds(0x22, EncodePastError(e));
          PastErrorMerges(if a.data.PastErrorData? then a.data.error.v else NEW_PAST_ERROR, e);
          BlobThen(schema, apply, a, 0x22, EncodePastError(e), m1, b.unknown);
      }
    }
  }

  /** A PastStream survives the wire exactly when its oneof holds no nil message. */
  lemma PastRoundTrip(m: PastStream)
    requires IsSlice(EncodePast(m)) && PastWellFormed(m)
    ensures DecodePast(NEW_PAST, EncodePast(m)) == Done(m) <==> !PastHoldsNil(m)
  {
    PastMerges(NEW_PAST, m);
    assert [] + m.unknown == m.unknown;
    if m.data.PastInfoData? && m.data.info.Ref? { assert [] + m.data.info.v.unknown == m.data.info.v.unknown; }
    if m.data.PastErrorData? && m.data.error.Ref? { assert [] + m.data.error.v.unknown == m.data.error.v.unknown; }
  }

  // -------------------------------------------- messages that were received

  /** What is kept while a message is decoded, with n bytes to go: its unknown
      fields stay canonical and never outgrow what was read. */
  ghost predicate Grows(schema: Schema, u: Bytes, n: nat, bound: nat) {
    |u| + n <= bound <= MAX_INT && AllUnknown(schema, u, 0)
  }

  lemma GrowsByUnknown(schema: Schema, u: Bytes, d: Slice, i: nat, bound: nat)
    requires i < |d| && Grows(schema, u, |d| - i, bound) && NextRecord(schema, d, i).Unknown?
    ensures var next := NextRecord(schema, d, i).next;
      Grows(schema, u + Cut(d, i, next), |d| - next, bound)
  {
    hide NextRecord, AllUnknown;
    var next := NextRecord(schema, d, i).next;
    UnknownStandsAlone(schema, d, i);
    AllUnknownJoin(schema, u, d[i..next], 0);
  }

  /** Only unknown records change the unknown fields, and only by what they skip. */
  ghost predicate KeepsUnknown<M(!new)>(apply: (M, Slice, Record) -> Outcome<M>, unknownOf: M -> Bytes) {
    forall m: M, d: Slice, r: Record :: apply(m, d, r).Done? ==>
      unknownOf(apply(m, d, r).m) == if r.Unknown? then unknownOf(m) + Cut(d, r.lo, r.next) else unknownOf(m)
  }

  lemma UnknownGrows<M(!new)>(
      schema: Schema, apply: (M, Slice, Record) -> Outcome<M>, unknownOf: M -> Bytes, m: M, d: Slice, bound: nat)
    requires KeepsUnknown(apply, unknownOf) && Grows(schema, unknownOf(m), |d|, bound)
    requires Decode(schema, apply, m, d, 0).Done?
    ensures Grows(schema, unknownOf(Decode(schema, apply, m, d, 0).m), 0, bound)
  {
    hide NextRecord, AllUnknown, Grows;
    var p := (m: M, n: nat) => Grows(schema, unknownOf(m), n, bound);
    forall m: M, d: Slice, i: nat | i < |d| && p(m, |d| - i) && !NextRecord(schema, d, i).Bad?
        && apply(m, d, NextRecord(schema, d, i)).Done?
      ensures p(apply(m, d, NextRecord(schema, d, i)).m, |d| - NextRecord(schema, d, i).next)
    {
      var r := NextRecord(schema, d, i);
      if r.Unknown? { GrowsByUnknown(schema, unknownOf(m), d, i, bound); }
      GrowsLess(schema, unknownOf(m), |d| - i, |d| - r.next, bound);
    }
    DecodeKeeps(schema, apply, p, m, d, 0);
  }

  lemma GrowsLess(schema: Schema, u: Bytes, n: nat, less: nat, bound: nat)
    requires Grows(schema, u, n, bound) && less <= n
    ensures Grows(schema, u, less, bound)
  {}

  ghost predicate CopyGrows(m: CopyStream, n: nat, bound: nat) {
    && Grows(COPY_STREAM, m.unknown, n, bound)
    && (m.data.CopyInfoData? ==> m.data.info.Ref? && Grows(COPY_INFO, m.data.info.v.unknown, n, bound))
  }

  lemma CopyRecordGrows(m: CopyStream, d: Slice, i: nat, bound: nat)
    requires i < |d| && CopyGrows(m, |d| - i, bound)
    requires var r := NextRecord(COPY_STREAM, d, i); !r.Bad? && ApplyCopyStream(m, d, r).Done?
    ensures var r := NextRecord(COPY_STREAM, d, i);
      CopyGrows(ApplyCopyStream(m, d, r).m, |d| - r.next, bound)
  {
    hide NextRecord, AllUnknown;
    match NextRecord(COPY_STREAM, d, i) {
      case Unknown(_, _) => GrowsByUnknown(COPY_STREAM, m.unknown, d, i, bound);
      case Blob(f, lo, hi) =>
        if f == 1 {
          EmptyIsUnknown(COPY_INFO);
          var held := if m.data.CopyInfoData? then m.data.info.v else NEW_COPY_INFO;
          var most := |held.unknown| + (hi - lo);
          UnknownGrows(COPY_INFO, ApplyCopyInfo, (x: CopyInfo) => x.unknown, held, Cut(d, lo, hi), most);
        }
      case _ =>
    }
  }

  lemma EmptyIsUnknown(schema: Schema)
    ensures AllUnknown(schema, [], 0)
  {}

  /** Whatever bytes a CopyStream was decoded from: its unknown fields are canonical,
      and it holds no nil message. */
  lemma ReceivedCopyIsWhole(d: Slice)
    requires DecodeCopy(NEW_COPY, d).Done?
    ensures var m := DecodeCopy(NEW_COPY, d).m; CopyWellFormed(m) && m.data != CopyInfoData(Nil)
  {
    hide NextRecord, AllUnknown;
    EmptyIsUnknown(COPY_STREAM);
    var p := (m: CopyStream, n: nat) => CopyGrows(m, n, |d|);
    forall m: CopyStream, e: Slice, i: nat | i < |e| && p(m, |e| - i) && !NextRecord(COPY_STREAM, e, i).Bad?
        && ApplyCopyStream(m, e, NextRecord(COPY_STREAM, e, i)).Done?
      ensures p(ApplyCopyStream(m, e, NextRecord(COPY_STREAM, e, i)).m, |e| - NextRecord(COPY_STREAM, e, i).next)
    {
      CopyRecordGrows(m, e, i, |d|);
    }
    DecodeKeeps(COPY_STREAM, ApplyCopyStream, p, NEW_COPY, d, 0);
  }

  /** A CopyStream that was received can be sent on: encoding it and decoding it again
      changes nothing. */
  lemma ReceivedCopyRoundTrips(d: Slice)
    requires DecodeCopy(NEW_COPY, d).Done?
    requires IsSlice(EncodeCopy(DecodeCopy(NEW_COPY, d).m))
    ensures var m := DecodeCopy(NEW_COPY, d).m; DecodeCopy(NEW_COPY, EncodeCopy(m)) == Done(m)
  {
    hide EncodeCopy, DecodeCopy, CopyWellFormed;
    ReceivedCopyIsWhole(d);
    CopyRoundTrip(DecodeCopy(NEW_COPY, d).m);
  }

  ghost predicate PastGrows(m: PastStream, n: nat, bound: nat) {
    && Grows(PAST_STREAM, m.unknown, n, bound)
    && (m.data.PastInfoData? ==> m.data.info.Ref? && Grows(PAST_INFO, m.data.info.v.unknown, n, bound))
    && (m.data.PastErrorData? ==> m.data.error.Ref? && Grows(PAST_ERROR, m.data.error.v.unknown, n, bound))
  }

  lemma PastRecordGrows(m: PastStream, d: Slice, i: nat, bound: nat)
    requires i < |d| && PastGrows(m, |d| - i, bound)
    requires var r := NextRecord(PAST_STREAM, d, i); !r.Bad? && ApplyPastStream(m, d, r).Done?
    ensures var r := NextRecord(PAST_STREAM, d, i);
      PastGrows(ApplyPastStream(m, d, r).m, |d| - r.next, bound)
  {
    hide NextRecord, AllUnknown;
    match NextRecord(PAST_STREAM, d, i) {
      case Unknown(_, _) => GrowsByUnknown(PAST_STREAM, m.unknown, d, i, bound);
      case Blob(f, lo, hi) =>
        if f == 1 {
          EmptyIsUnknown(PAST_INFO);
          var held := if m.data.PastInfoData? then m.data.info.v else NEW_PAST_INFO;
          var most := |held.unknown| + (hi - lo);
          UnknownGrows(PAST_INFO, ApplyPastInfo, (x: PastInfo) => x.unknown, held, Cut(d, lo, hi), most);
        } else if f == 4 {
          EmptyIsUnknown(PAST_ERROR);
          var held := if m.data.PastErrorData? then m.data.error.v else NEW_PAST_ERROR;
          var most := |held.unknown| + (hi - lo);
          UnknownGrows(PAST_ERROR, ApplyPastError, (x: PastError) => x.unknown, held, Cut(d, lo, hi), most);
        }
      case _ =>
    }
  }

  lemma ReceivedPastIsWhole(d: Slice)
    requires DecodePast(NEW_PAST, d).Done?
    ensures var m := DecodePast(NEW_PAST, d).m; PastWellFormed(m) && !PastHoldsNil(m)
  {
    hide NextRecord, AllUnknown;
    EmptyIsUnknown(PAST_STREAM);
    var p := (m: PastStream, n: nat) => PastGrows(m, n, |d|);
    forall m: PastStream, e: Slice, i: nat | i < |e| && p(m, |e| - i) && !NextRecord(PAST_STREAM, e, i).Bad?
        && ApplyPastStream(m, e, NextRecord(PAST_STREAM, e, i)).Done?
      ensures p(ApplyPastStream(m, e, NextRecord(PAST_STREAM, e, i)).m, |e| - NextRecord(PAST_STREAM, e, i).next)
    {
      PastRecordGrows(m, e, i, |d|);
    }
    DecodeKeeps(PAST_STREAM, ApplyPastStream, p, NEW_PAST, d, 0);
  }

  lemma ReceivedPastRoundTrips(d: Slice)
    requires DecodePast(NEW_PAST, d).Done?
    requires IsSlice(EncodePast(DecodePast(NEW_PAST, d).m))
    ensures var m := DecodePast(NEW_PAST, d).m; DecodePast(NEW_PAST, EncodePast(m)) == Done(m)
  {
    hide EncodePast, DecodePast, PastWellFormed;
    ReceivedPastIsWhole(d);
    PastRoundTrip(DecodePast(NEW_PAST, d).m);
  }

  // --------------------------------------------------------- the merge law

  lemma CopyMergeLaw(m: CopyStream, a: Slice, b: Slice)
    requires |a + b| <= MAX_INT && DecodeCopy(m, a).Done?
    ensures Same(DecodeCopy(DecodeCopy(m, a).m, b), DecodeCopy(m, a + b))
  {
    CopyStreamLocal();
    MergeLaw(COPY_STREAM, ApplyCopyStream, m, a, b);
  }

  lemma PastMergeLaw(m: PastStream, a: Slice, b: Slice)
    requires |a + b| <= MAX_INT && DecodePast(m, a).Done?
    ensures Same(DecodePast(DecodePast(m, a).m, b), DecodePast(m, a + b))
  {
    PastStreamLocal();
    MergeLaw(PAST_STREAM, ApplyPastStream, m, a, b);
  }
}
