/** The generated codec of PastStream, PastStream_Info and PastStream_Error, on
    real buffers and message objects. */
module PastCodec {
  import opened GoInt
  import opened Varint
  import opened Wire
  import opened Messages
  import opened Buffer

  class Info {
    var checksum: bool
    var compressed: bool
    var masterKeyNonce: Bytes
    var keyNonce: Bytes
    var iv: Bytes
    var unknownFields: Bytes

    function Value(): PastInfo
      reads this
    {
      PastInfo(checksum, compressed, masterKeyNonce, keyNonce, iv, unknownFields)
    }

    constructor ()
      ensures Value() == NEW_PAST_INFO
    {
      checksum, compressed, masterKeyNonce, keyNonce, iv, unknownFields := false, false, [], [], [], [];
    }

    method SizeVT() returns (n: nat)
      ensures n == |EncodePastInfo(Value())|
    {
      n := (if checksum then 2 else 0) + (if compressed then 2 else 0);
      var l := SizeOptBlob(0x1a, masterKeyNonce);
      n := n + l;
      l := SizeOptBlob(0x22, keyNonce);
      n := n + l;
      l := SizeOptBlob(0x2a, iv);
      n := n + l + |unknownFields|;
    }

    /** Fills the end of `dAtA[lo:hi]` and says how many bytes it took. */
    method MarshalToSizedBufferVT(dAtA: array<byte>, lo: nat, hi: nat) returns (n: nat)
      requires lo + |EncodePastInfo(Value())| <= hi <= dAtA.Length
      modifies dAtA
      ensures n == |EncodePastInfo(Value())|
      ensures Filled(dAtA[..], old(dAtA[..]), hi - n, EncodePastInfo(Value()), hi)
    {
      hide OptNum, OptBool, OptBlob;
      ghost var was := dAtA[..];
      ghost var t := unknownFields;
      assert unknownFields + [] == unknownFields;
      var i := PutBytes(dAtA, hi, unknownFields, was, [], hi);
      i := PutOptBlob(dAtA, i, 0x2a, iv, was, t, hi);
      t := OptBlob(0x2a, iv) + t;
      i := PutOptBlob(dAtA, i, 0x22, keyNonce, was, t, hi);
      t := OptBlob(0x22, keyNonce) + t;
      i := PutOptBlob(dAtA, i, 0x1a, masterKeyNonce, was, t, hi);
      t := OptBlob(0x1a, masterKeyNonce) + t;
      i := PutBool(dAtA, i, 0x10, compressed, was, t, hi);
      t := OptBool(0x10, compressed) + t;
      i := PutBool(dAtA, i, 0x08, checksum, was, t, hi);
      n := hi - i;
    }

    method UnmarshalVT(dAtA: Slice) returns (r: Result)
      modifies this
      ensures match DecodePastInfo(old(Value()), dAtA)
              case Done(m) => r == Ok && Value() == m
              case Fail(e) => r == Err(e)
    {
      hide ReadVarint, ReadLength, UnknownRecord;
      var iNdEx := 0;
      while iNdEx < |dAtA|
        invariant 0 <= iNdEx <= |dAtA|
        invariant DecodePastInfo(old(Value()), dAtA) == Decode(PAST_INFO, ApplyPastInfo, Value(), dAtA, iNdEx)
      {
        var preIndex := iNdEx;
        var tag := ParseVarint(dAtA, iNdEx);
        if tag.BadNumber? { return Err(tag.err); }
        iNdEx := tag.next;
        var fieldNum, wireType := ToInt32(tag.v / 8), tag.v % 8;
        if wireType == 4 { return Err(EndGroupForNonGroup); }
        if fieldNum <= 0 { return Err(IllegalTag); }
        match fieldNum {
          case 1 =>
            if wireType != 0 { return Err(WrongWireType); }
            var num := ParseVarint(dAtA, iNdEx);
            if num.BadNumber? { return Err(num.err); }
            checksum := num.v != 0;
            iNdEx := num.next;
          case 2 =>
            if wireType != 0 { return Err(WrongWireType); }
            var num := ParseVarint(dAtA, iNdEx);
            if num.BadNumber? { return Err(num.err); }
            compressed := num.v != 0;
            iNdEx := num.next;
          case 3 =>
            if wireType != 2 { return Err(WrongWireType); }
            var span := ParseLength(dAtA, iNdEx);
            if span.BadSpan? { return Err(span.err); }
            masterKeyNonce := dAtA[span.lo..span.hi];
            iNdEx := span.hi;
          case 4 =>
            if wireType != 2 { return Err(WrongWireType); }
            var span := ParseLength(dAtA, iNdEx);
            if span.BadSpan? { return Err(span.err); }
            keyNonce := dAtA[span.lo..span.hi];
            iNdEx := span.hi;
          case 5 =>
            if wireType != 2 { return Err(WrongWireType); }
            var span := ParseLength(dAtA, iNdEx);
            if span.BadSpan? { return Err(span.err); }
            iv := dAtA[span.lo..span.hi];
            iNdEx := span.hi;
          case _ =>
            var skipped := ParseUnknown(dAtA, preIndex);
            if skipped.Bad? { return Err(skipped.err); }
            unknownFields := unknownFields + dAtA[preIndex..skipped.next];
            iNdEx := skipped.next;
        }
      }
      return Ok;
    }
  }

  class ErrorInfo {
    var kind: i32
    var message: Bytes
    var unknownFields: Bytes

    function Value(): PastError
      reads this
    {
      PastError(kind, message, unknownFields)
    }

    constructor ()
      ensures Value() == NEW_PAST_ERROR
    {
      kind, message, unknownFields := 0, [], [];
    }

    method SizeVT() returns (n: nat)
      ensures n == |EncodePastError(Value())|
    {
      n := SizeOptNum(0x08, ToUint64(kind));
      var l := SizeOptBlob(0x12, message);
      n := n + l + |unknownFields|;
    }

    /** Fills the end of `dAtA[lo:hi]` and says how many bytes it took. */
    method MarshalToSizedBufferVT(dAtA: array<byte>, lo: nat, hi: nat) returns (n: nat)
      requires lo + |EncodePastError(Value())| <= hi <= dAtA.Length
      modifies dAtA
      ensures n == |EncodePastError(Value())|
      ensures Filled(dAtA[..], old(dAtA[..]), hi - n, EncodePastError(Value()), hi)
    {
      hide OptNum, OptBlob;
      ghost var was := dAtA[..];
      ghost var t := unknownFields;
      assert unknownFields + [] == unknownFields;
      var i := PutBytes(dAtA, hi, unknownFields, was, [], hi);
      i := PutOptBlob(dAtA, i, 0x12, message, was, t, hi);
      t := OptBlob(0x12, message) + t;
      i := PutOptNum(dAtA, i, 0x08, ToUint64(kind), was, t, hi);
      n := hi - i;
    }

    method UnmarshalVT(dAtA: Slice) returns (r: Result)
      modifies this
      ensures match DecodePastError(old(Value()), dAtA)
              case Done(m) => r == Ok && Value() == m
              case Fail(e) => r == Err(e)
    {
      hide ReadVarint, ReadLength, UnknownRecord;
      var iNdEx := 0;
      while iNdEx < |dAtA|
        invariant 0 <= iNdEx <= |dAtA|
        invariant DecodePastError(old(Value()), dAtA) == Decode(PAST_ERROR, ApplyPastError, Value(), dAtA, iNdEx)
      {
        var preIndex := iNdEx;
        var tag := ParseVarint(dAtA, iNdEx);
        if tag.BadNumber? { return Err(tag.err); }
        iNdEx := tag.next;
        var fieldNum, wireType := ToInt32(tag.v / 8), tag.v % 8;
        if wireType == 4 { return Err(EndGroupForNonGroup); }
        if fieldNum <= 0 { return Err(IllegalTag); }
        match fieldNum {
          case 1 =>
            if wireType != 0 { return Err(WrongWireType); }
            // or-ing the groups into an int32 keeps the low 32 bits of the number
            var num := ParseVarint(dAtA, iNdEx);
            if num.BadNumber? { return Err(num.err); }
            kind := ToInt32(num.v);
            iNdEx := num.next;
          case 2 =>
            if wireType != 2 { return Err(WrongWireType); }
            var span := ParseLength(dAtA, iNdEx);
            if span.BadSpan? { return Err(span.err); }
            message := dAtA[span.lo..span.hi];
            iNdEx := span.hi;
          case _ =>
            var skipped := ParseUnknown(dAtA, preIndex);
            if skipped.Bad? { return Err(skipped.err); }
            unknownFields := unknownFields + dAtA[preIndex..skipped.next];
            iNdEx := skipped.next;
        }
      }
      return Ok;
    }
  }

  /** The oneof of a PastStream; its Info and Error are pointers and may be nil. */
  datatype Oneof =
    | Unset
    | InfoField(info: Info?)
    | ChunkField(chunk: Bytes)
    | ChecksumField(sum: Bytes)
    | ErrorField(error: ErrorInfo?)

  class Stream {
    var data: Oneof
    var unknownFields: Bytes

    function Nested(): set<object>
      reads this
    {
      if data.InfoField? && data.info != null then {data.info}
      else if data.ErrorField? && data.error != null then {data.error}
      else {}
    }

    function Value(): PastStream
      reads this, Nested()
    {
      PastStream(
        match data
        case Unset => PastNone
        case InfoField(p) => PastInfoData(if p == null then Nil else Ref(p.Value()))
        case ChunkField(b) => PastChunk(b)
        case ChecksumField(b) => PastChecksum(b)
        case ErrorField(p) => PastErrorData(if p == null then Nil else Ref(p.Value())),
        unknownFields)
    }

    constructor (data: Oneof)
      ensures this.data == data && unknownFields == []
    {
      this.data := data;
      unknownFields := [];
    }

    method SizeVT() returns (n: nat)
      ensures n == |EncodePast(Value())|
    {
      n := 0;
      match data {
        case Unset =>
        case InfoField(p) =>
          if p != null {
            var l := p.SizeVT();
            SovIsEncodedLength(l % TWO_64);
            n := 1 + l + Sov(l % TWO_64);
          }
        case ChunkField(b) => n := SizeBlob(0x12, b);
        case ChecksumField(b) => n := SizeBlob(0x1a, b);
        case ErrorField(p) =>
          if p != null {
            var l := p.SizeVT();
            SovIsEncodedLength(l % TWO_64);
            n := 1 + l + Sov(l % TWO_64);
          }
      }
      n := n + |unknownFields|;
    }

    /** Fills the end of `dAtA[lo:hi]` and says how many bytes it took. */
    method MarshalToSizedBufferVT(dAtA: array<byte>, lo: nat, hi: nat) returns (n: nat)
      requires lo + |EncodePast(Value())| <= hi <= dAtA.Length
      modifies dAtA
      ensures n == |EncodePast(Value())|
      ensures Filled(dAtA[..], old(dAtA[..]), hi - n, EncodePast(Value()), hi)
    {
      hide BlobField, EncodePastInfo, EncodePastError;
      ghost var was := dAtA[..];
      assert unknownFields + [] == unknownFields;
      var i := PutBytes(dAtA, hi, unknownFields, was, [], hi);
      match data {
        case Unset => assert [] + unknownFields == unknownFields;
        case InfoField(p) =>
          if p != null {
            i := MarshalInfo(p, dAtA, lo, i, was, unknownFields, hi);
          } else {
            assert [] + unknownFields == unknownFields;
          }
        case ChunkField(b) => i := PutBlob(dAtA, i, 0x12, b, was, unknownFields, hi);
        case ChecksumField(b) => i := PutBlob(dAtA, i, 0x1a, b, was, unknownFields, hi);
        case ErrorField(p) =>
          if p != null {
            i := MarshalError(p, dAtA, lo, i, was, unknownFields, hi);
          } else {
            assert [] + unknownFields == unknownFields;
          }
      }
      n := hi - i;
    }

    /** The wrapper of the oneof: the nested message, its size, the tag. */
    static method MarshalInfo(p: Info, dAtA: array<byte>, lo: nat, i: nat, ghost was: Bytes, ghost tail: Bytes,
        ghost hi: nat)
      returns (j: nat)
      requires Filled(dAtA[..], was, i, tail, hi) && lo + |BlobField(0x0a, EncodePastInfo(p.Value()))| <= i
      modifies dAtA
      ensures j == i - |BlobField(0x0a, EncodePastInfo(p.Value()))|
      ensures Filled(dAtA[..], was, j, BlobField(0x0a, EncodePastInfo(p.Value())) + tail, hi)
    {
      hide EncodeVarint, EncodePastInfo;
      ghost var s := dAtA[..];
      ghost var b := EncodePastInfo(p.Value());
      var size := p.MarshalToSizedBufferVT(dAtA, lo, i);
      assert dAtA[..] == s[..i - size] + b + s[i..];
      FilledMore(s, dAtA[..], was, i - size, b, i, tail, hi);
      j := PutNum(dAtA, i - size, 0x0a, size % TWO_64, was, b + tail, hi);
      assert NumField(0x0a, Len(b)) + (b + tail) == BlobField(0x0a, b) + tail;
    }

    static method MarshalError(p: ErrorInfo, dAtA: array<byte>, lo: nat, i: nat, ghost was: Bytes, ghost tail: Bytes,
        ghost hi: nat)
      returns (j: nat)
      requires Filled(dAtA[..], was, i, tail, hi) && lo + |BlobField(0x22, EncodePastError(p.Value()))| <= i
      modifies dAtA
      ensures j == i - |BlobField(0x22, EncodePastError(p.Value()))|
      ensures Filled(dAtA[..], was, j, BlobField(0x22, EncodePastError(p.Value())) + tail, hi)
    {
      hide EncodeVarint, EncodePastError;
      ghost var s := dAtA[..];
      ghost var b := EncodePastError(p.Value());
      var size := p.MarshalToSizedBufferVT(dAtA, lo, i);
      assert dAtA[..] == s[..i - size] + b + s[i..];
      FilledMore(s, dAtA[..], was, i - size, b, i, tail, hi);
      j := PutNum(dAtA, i - size, 0x22, size % TWO_64, was, b + tail, hi);
      assert NumField(0x22, Len(b)) + (b + tail) == BlobField(0x22, b) + tail;
    }

    method MarshalVT() returns (dAtA: Bytes)
      ensures dAtA == EncodePast(Value())
    {
      hide EncodePast;
      var size := SizeVT();
      var buf := new byte[size];
      var n := MarshalToSizedBufferVT(buf, 0, size);
      dAtA := buf[..n];
    }

    /** One field, from its tag on; `iNdEx` is the index behind it. */
    method UnmarshalField(dAtA: Slice, preIndex: nat) returns (r: Result, iNdEx: nat)
      requires preIndex < |dAtA|
      modifies this, Nested()
      ensures forall o :: o in Nested() ==> o in old(Nested()) || fresh(o)
      ensures var rec := NextRecord(PAST_STREAM, dAtA, preIndex);
        if rec.Bad? then r == Err(rec.err)
        else match ApplyPastStream(old(Value()), dAtA, rec)
             case Done(m) => r == Ok && iNdEx == rec.next && Value() == m
             case Fail(e) => r == Err(e)
    {
      hide ReadVarint, ReadLength, UnknownRecord;
      iNdEx := preIndex;
      var tag := ParseVarint(dAtA, iNdEx);
      if tag.BadNumber? { return Err(tag.err), iNdEx; }
      iNdEx := tag.next;
      var fieldNum, wireType := ToInt32(tag.v / 8), tag.v % 8;
      if wireType == 4 { return Err(EndGroupForNonGroup), iNdEx; }
      if fieldNum <= 0 { return Err(IllegalTag), iNdEx; }
      match fieldNum {
        case 1 =>
          if wireType != 2 { return Err(WrongWireType), iNdEx; }
          var span := ParseLength(dAtA, iNdEx);
          if span.BadSpan? { return Err(span.err), iNdEx; }
          var merged := UnmarshalInfo(dAtA[span.lo..span.hi]);
          if merged.Err? { return merged, iNdEx; }
          iNdEx := span.hi;
        case 2 =>
          if wireType != 2 { return Err(WrongWireType), iNdEx; }
          var span := ParseLength(dAtA, iNdEx);
          if span.BadSpan? { return Err(span.err), iNdEx; }
          data := ChunkField(dAtA[span.lo..span.hi]);
          iNdEx := span.hi;
        case 3 =>
          if wireType != 2 { return Err(WrongWireType), iNdEx; }
          var span := ParseLength(dAtA, iNdEx);
          if span.BadSpan? { return Err(span.err), iNdEx; }
          data := ChecksumField(dAtA[span.lo..span.hi]);
          iNdEx := span.hi;
        case 4 =>
          if wireType != 2 { return Err(WrongWireType), iNdEx; }
          var span := ParseLength(dAtA, iNdEx);
          if span.BadSpan? { return Err(span.err), iNdEx; }
          var merged := UnmarshalError(dAtA[span.lo..span.hi]);
          if merged.Err? { return merged, iNdEx; }
          iNdEx := span.hi;
        case _ =>
          var skipped := ParseUnknown(dAtA, preIndex);
          if skipped.Bad? { return Err(skipped.err), iNdEx; }
          unknownFields := unknownFields + dAtA[preIndex..skipped.next];
          iNdEx := skipped.next;
      }
      return Ok, iNdEx;
    }

    method UnmarshalVT(dAtA: Slice) returns (r: Result)
      modifies this, Nested()
      ensures match DecodePast(old(Value()), dAtA)
              case Done(m) => r == Ok && Value() == m
              case Fail(e) => r == Err(e)
    {
      hide NextRecord, ApplyPastStream;
      var iNdEx := 0;
      while iNdEx < |dAtA|
        invariant 0 <= iNdEx <= |dAtA|
        invariant forall o :: o in Nested() ==> o in old(Nested()) || fresh(o)
        invariant DecodePast(old(Value()), dAtA) == Decode(PAST_STREAM, ApplyPastStream, Value(), dAtA, iNdEx)
      {
        r, iNdEx := UnmarshalField(dAtA, iNdEx);
        if r.Err? { return; }
      }
      return Ok;
    }

    /** An Info field: into the Info the oneof already holds, else into a new one.
        A nil Info that must take a field makes the program panic. */
    method UnmarshalInfo(body: Slice) returns (r: Result)
      modifies this`data, Nested()
      ensures forall o :: o in Nested() ==> o in old(Nested()) || fresh(o)
      ensures var held := if old(data.InfoField?) then old(Value()).data.info else Ref(NEW_PAST_INFO);
              match MergeNested(held, body, DecodePastInfo)
              case Done(p) => r == Ok && Value() == old(Value()).(data := PastInfoData(p))
              case Fail(e) => r == Err(e)
    {
      if data.InfoField? {
        if data.info != null {
          r := data.info.UnmarshalVT(body);
        } else {
          r := if |body| > 0 then Err(NilMessage) else Ok;
        }
      } else {
        var v := new Info();
        r := v.UnmarshalVT(body);
        if r == Ok { data := InfoField(v); }
      }
    }

    method UnmarshalError(body: Slice) returns (r: Result)
      modifies this`data, Nested()
      ensures forall o :: o in Nested() ==> o in old(Nested()) || fresh(o)
      ensures var held := if old(data.ErrorField?) then old(Value()).data.error else Ref(NEW_PAST_ERROR);
              match MergeNested(held, body, DecodePastError)
              case Done(p) => r == Ok && Value() == old(Value()).(data := PastErrorData(p))
              case Fail(e) => r == Err(e)
    {
      if data.ErrorField? {
        if data.error != null {
          r := data.error.UnmarshalVT(body);
        } else {
          r := if |body| > 0 then Err(NilMessage) else Ok;
        }
      } else {
        var v := new ErrorInfo();
        r := v.UnmarshalVT(body);
        if r == Ok { data := ErrorField(v); }
      }
    }
  }
}
