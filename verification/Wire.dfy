/** The message structure of the wire format: length prefixes, skipping of
    unknown fields, and a decoder that applies one record after another. */
module Wire {
  import opened GoInt
  import opened Varint

  /** What `dAtA` can be: its length is an `int`. */
  type Slice = d: Bytes | |d| <= 0x7FFF_FFFF_FFFF_FFFF

  // ----------------------------------------------------------- length prefix

  datatype Span = Span(lo: nat, hi: nat) | BadSpan(err: Error)

  /** The length prefix at i and the bytes it announces; every sum wraps. */
  function ReadLength(d: Slice, i: nat): (r: Span)
    ensures r.Span? ==> i < r.lo <= r.hi <= |d|
  {
    match ReadVarint(d, i)
    case BadNumber(e) => BadSpan(e)
    case Value(v, lo) =>
      var n := ToInt64(v);
      if n < 0 then BadSpan(InvalidLength)
      else
        var hi := AddInt(lo, n);
        if hi < 0 then BadSpan(InvalidLength)
        else if hi > |d| then BadSpan(UnexpectedEOF)
        else Span(lo, hi)
  }

  /** The wrapping sums accept exactly the lengths that fit, and give the true ends. */
  lemma LengthIsExact(d: Slice, i: nat)
    ensures ReadLength(d, i).Span? <==> ReadVarint(d, i).Value? && ReadVarint(d, i).next + ReadVarint(d, i).v <= |d|
    ensures ReadLength(d, i).Span? ==>
      ReadLength(d, i) == Span(ReadVarint(d, i).next, ReadVarint(d, i).next + ReadVarint(d, i).v)
  {
    hide ReadVarint;
  }

  method ParseLength(d: Slice, i: nat) returns (r: Span)
    ensures r == ReadLength(d, i)
  {
    var len := ParseVarint(d, i);
    if len.BadNumber? { return BadSpan(len.err); }
    var n := ToInt64(len.v);
    if n < 0 { return BadSpan(InvalidLength); }
    var hi := AddInt(len.next, n);
    if hi < 0 { return BadSpan(InvalidLength); }
    if hi > |d| { return BadSpan(UnexpectedEOF); }
    return Span(len.next, hi);
  }

  // -------------------------------------------------------------------- skip

  datatype Skip = Skipped(n: nat) | BadSkip(err: Error)

  /** One payload behind a tag at j: where it ends and the group depth then. */
  datatype Landing = Landing(end: nat, depth: nat) | BadLanding(err: Error)

  function ReadPayload(d: Slice, wireType: nat, j: nat, depth: nat): (r: Landing)
    requires j <= |d|
    ensures r.Landing? ==> r.end >= j
  {
    match wireType
    case 0 => (match ReadVarint(d, j) case BadNumber(e) => BadLanding(e) case Value(_, k) => Landing(k, depth))
    case 1 => Advance(j, 8, depth)
    case 2 =>
      (match ReadVarint(d, j)
       case BadNumber(e) => BadLanding(e)
       case Value(v, k) => if ToInt64(v) < 0 then BadLanding(InvalidLength) else Advance(k, ToInt64(v), depth))
    case 3 => Landing(j, depth + 1)
    case 4 => if depth == 0 then BadLanding(UnexpectedEndOfGroup) else Landing(j, depth - 1)
    case 5 => Advance(j, 4, depth)
    case _ => BadLanding(IllegalWireType)
  }

  function Advance(j: nat, n: nat, depth: nat): (r: Landing)
    requires j <= MAX_INT && n <= MAX_INT
    ensures r.Landing? ==> r.end == j + n
  {
    var k := AddInt(j, n);
    if k < 0 then BadLanding(InvalidLength) else Landing(k, depth)
  }

  function SkipFrom(d: Slice, i: nat, depth: nat): (r: Skip)
    ensures r.Skipped? ==> r.n > i
    decreases if i < |d| then |d| - i else 0
  {
    if i >= |d| then BadSkip(UnexpectedEOF)
    else
      match ReadVarint(d, i)
      case BadNumber(e) => BadSkip(e)
      case Value(wire, j) =>
        match ReadPayload(d, wire % 8, j, depth)
        case BadLanding(e) => BadSkip(e)
        case Landing(k, depth') => if depth' == 0 then Skipped(k) else SkipFrom(d, k, depth')
  }

  method ParseSkip(d: Slice) returns (r: Skip)
    ensures r == SkipFrom(d, 0, 0)
  {
    var iNdEx: i64 := 0;
    var depth: nat := 0;
    while iNdEx < |d|
      invariant 0 <= iNdEx
      invariant SkipFrom(d, 0, 0) == SkipFrom(d, iNdEx, depth)
      decreases |d| - iNdEx
    {
      ghost var at, open := iNdEx, depth;
      var tag := ParseVarint(d, iNdEx);
      if tag.BadNumber? { return BadSkip(tag.err); }
      iNdEx := tag.next;
      match tag.v % 8 {
        case 0 =>
          var num := ParseVarint(d, iNdEx);
          if num.BadNumber? { return BadSkip(num.err); }
          iNdEx := num.next;
        case 1 => iNdEx := AddInt(iNdEx, 8);
        case 2 =>
          var len := ParseVarint(d, iNdEx);
          if len.BadNumber? { return BadSkip(len.err); }
          var length := ToInt64(len.v);
          if length < 0 { return BadSkip(InvalidLength); }
          iNdEx := AddInt(len.next, length);
        case 3 => depth := depth + 1;
        case 4 =>
          if depth == 0 { return BadSkip(UnexpectedEndOfGroup); }
          depth := depth - 1;
        case 5 => iNdEx := AddInt(iNdEx, 4);
        case _ => return BadSkip(IllegalWireType);
      }
      if iNdEx < 0 { return BadSkip(InvalidLength); }
      assert ReadPayload(d, tag.v % 8, tag.next, open) == Landing(iNdEx, depth);
      if depth == 0 { return Skipped(iNdEx); }
    }
    return BadSkip(UnexpectedEOF);
  }

  // ----------------------------------------------------------------- records

  /** The wire type (0 or 2) a message expects for each field it knows. */
  type Schema = map<int, int>

  datatype Record =
    | Num(field: int, v: u64, next: nat)
    | Blob(field: int, lo: nat, next: nat)
    | Unknown(lo: nat, next: nat)
    | Bad(err: Error)

  function NextRecord(schema: Schema, d: Slice, pre: nat): (r: Record)
    requires pre <= |d|
    ensures !r.Bad? ==> pre < r.next <= |d|
    ensures r.Blob? ==> pre < r.lo <= r.next
    ensures r.Unknown? ==> r.lo == pre
    ensures r.Num? || r.Blob? ==> r.field in schema
  {
    match ReadVarint(d, pre)
    case BadNumber(e) => Bad(e)
    case Value(wire, i) =>
      var field, wireType := ToInt32(wire / 8), wire % 8;
      if wireType == 4 then Bad(EndGroupForNonGroup)
      else if field <= 0 then Bad(IllegalTag)
      else if field !in schema then UnknownRecord(d, pre)
      else if wireType != schema[field] then Bad(WrongWireType)
      else if wireType == 0 then
        (match ReadVarint(d, i) case BadNumber(e) => Bad(e) case Value(v, next) => Num(field, v, next))
      else
        match ReadLength(d, i) case BadSpan(e) => Bad(e) case Span(lo, hi) => Blob(field, lo, hi)
  }

  function UnknownRecord(d: Slice, pre: nat): (r: Record)
    requires pre <= |d|
    ensures r.Bad? || (r.Unknown? && r.lo == pre < r.next <= |d|)
  {
    match SkipFrom(d[pre..], 0, 0)
    case BadSkip(e) => Bad(e)
    case Skipped(n) =>
      if n > MAX_INT || AddInt(pre, n) < 0 then Bad(InvalidLength)
      else if pre + n > |d| then Bad(UnexpectedEOF)
      else Unknown(pre, pre + n)
  }

  /** The default branch of every decoder: go back to the tag and skip. */
  method ParseUnknown(d: Slice, pre: nat) returns (r: Record)
    requires pre <= |d|
    ensures r == UnknownRecord(d, pre)
  {
    var skipped := ParseSkip(d[pre..]);
    if skipped.BadSkip? { return Bad(skipped.err); }
    SkipIsAnInt(d[pre..], 0, 0);
    var end := AddInt(pre, skipped.n);
    if end < 0 { return Bad(InvalidLength); }
    if end > |d| { return Bad(UnexpectedEOF); }
    return Unknown(pre, end);
  }

  lemma {:induction false} SkipIsAnInt(d: Slice, i: nat, depth: nat)
    ensures SkipFrom(d, i, depth).Skipped? ==> SkipFrom(d, i, depth).n <= MAX_INT
    decreases if i < |d| then |d| - i else 0
  {
    if i < |d| {
      var tag := ReadVarint(d, i);
      if tag.Value? {
        var p := ReadPayload(d, tag.v % 8, tag.next, depth);
        if p.Landing? && p.depth > 0 { SkipIsAnInt(d, p.end, p.depth); }
      }
    }
  }

  // ------------------------------------------------------------------ decode

  datatype Outcome<+M> = Done(m: M) | Fail(err: Error)

  /** Decoding, for any kind of message: `apply` says what one record does. */
  function Decode<M>(schema: Schema, apply: (M, Slice, Record) -> Outcome<M>, m: M, d: Slice, i: nat): Outcome<M>
    requires i <= |d|
    decreases |d| - i
  {
    if i == |d| then Done(m)
    else
      var r := NextRecord(schema, d, i);
      if r.Bad? then Fail(r.err)
      else
        match apply(m, d, r)
        case Fail(e) => Fail(e)
        case Done(m') => Decode(schema, apply, m', d, r.next)
  }

  /** Equal messages, or an error on both sides. */
  predicate Same<M(==)>(x: Outcome<M>, y: Outcome<M>) {
    if x.Done? then x == y else y.Fail?
  }

  function ShiftRecord(r: Record, k: nat): Record {
    match r
    case Num(f, v, next) => Num(f, v, next + k)
    case Blob(f, lo, next) => Blob(f, lo + k, next + k)
    case Unknown(lo, next) => Unknown(lo + k, next + k)
    case Bad(e) => Bad(e)
  }

  predicate Inside(r: Record, d: Slice) {
    !r.Bad? && r.next <= |d| && (r.Blob? || r.Unknown? ==> r.lo <= r.next)
  }

  /** `d[lo..hi]`, empty when that is no sub-slice. */
  function Cut(d: Slice, lo: nat, hi: nat): Slice {
    if lo <= hi <= |d| then d[lo..hi] else []
  }

  /** Bytes behind a buffer on which a record succeeds make no difference. */
  ghost predicate Extends<M>(apply: (M, Slice, Record) -> Outcome<M>, m: M, a: Slice, b: Slice, r: Record) {
    |a + b| <= MAX_INT && Inside(r, a) && apply(m, a, r).Done? ==> apply(m, a + b, r) == apply(m, a, r)
  }

  /** Bytes in front of the buffer make no difference. */
  ghost predicate Shifts<M>(apply: (M, Slice, Record) -> Outcome<M>, m: M, a: Slice, b: Slice, r: Record) {
    |a + b| <= MAX_INT && Inside(r, b) ==> Same(apply(m, b, r), apply(m, a + b, ShiftRecord(r, |a|)))
  }

  /** Applying a record looks no further than the record. */
  ghost predicate Local<M(!new)>(apply: (M, Slice, Record) -> Outcome<M>) {
    && (forall m: M, a: Slice, b: Slice, r: Record :: Extends(apply, m, a, b, r))
    && (forall m: M, a: Slice, b: Slice, r: Record :: Shifts(apply, m, a, b, r))
  }

  // -------------------------------------------------------- locality lemmas

  lemma ReadLengthExtend(a: Slice, b: Slice, i: nat)
    requires |a + b| <= MAX_INT && ReadLength(a, i).Span?
    ensures ReadLength(a + b, i) == ReadLength(a, i)
  {
    hide ReadVarint;
    ReadVarintExtend(a, b, i);
  }

  lemma ReadLengthShift(a: Slice, b: Slice, j: nat)
    requires |a + b| <= MAX_INT
    ensures var r, s := ReadLength(b, j), ReadLength(a + b, |a| + j);
      if r.Span? then s == Span(r.lo + |a|, r.hi + |a|) else s.BadSpan?
  {
    hide ReadVarint, ReadLength;
    ReadVarintShift(a, b, j);
    LengthIsExact(b, j);
    LengthIsExact(a + b, |a| + j);
  }

  lemma {:induction false} SkipExtend(a: Slice, b: Slice, i: nat, depth: nat)
    requires |a + b| <= MAX_INT
    requires SkipFrom(a, i, depth).Skipped? && SkipFrom(a, i, depth).n <= |a|
    ensures SkipFrom(a + b, i, depth) == SkipFrom(a, i, depth)
    decreases if i < |a| then |a| - i else 0
  {
    ReadVarintExtend(a, b, i);
    var tag := ReadVarint(a, i);
    if tag.v % 8 == 0 || tag.v % 8 == 2 { ReadVarintExtend(a, b, tag.next); }
    var p := ReadPayload(a, tag.v % 8, tag.next, depth);
    if p.depth > 0 { SkipExtend(a, b, p.end, p.depth); }
  }

  lemma NextRecordExtend(schema: Schema, a: Slice, b: Slice, i: nat)
    requires |a + b| <= MAX_INT && i <= |a| && !NextRecord(schema, a, i).Bad?
    ensures NextRecord(schema, a + b, i) == NextRecord(schema, a, i)
  {
    ReadVarintExtend(a, b, i);
    match NextRecord(schema, a, i) {
      case Num(_, _, _) => ReadVarintExtend(a, b, ReadVarint(a, i).next);
      case Blob(_, _, _) => ReadLengthExtend(a, b, ReadVarint(a, i).next);
      case Unknown(_, _) =>
        assert (a + b)[i..] == a[i..] + b;
        SkipExtend(a[i..], b, 0, 0);
    }
  }

  lemma NextRecordShift(schema: Schema, a: Slice, b: Slice, j: nat)
    requires |a + b| <= MAX_INT && j <= |b|
    ensures var r, s := NextRecord(schema, b, j), NextRecord(schema, a + b, |a| + j);
      if r.Bad? then s.Bad? else s == ShiftRecord(r, |a|)
  {
    ReadVarintShift(a, b, j);
    match ReadVarint(b, j) {
      case BadNumber(_) =>
      case Value(wire, i) =>
        var field := ToInt32(wire / 8);
        if field !in schema {
          UnknownShift(a, b, j);
        } else if wire % 8 == 0 {
          ReadVarintShift(a, b, i);
        } else {
          ReadLengthShift(a, b, i);
        }
    }
  }

  lemma UnknownShift(a: Slice, b: Slice, j: nat)
    requires |a + b| <= MAX_INT && j <= |b|
    ensures var r, s := UnknownRecord(b, j), UnknownRecord(a + b, |a| + j);
      if r.Bad? then s.Bad? else s == ShiftRecord(r, |a|)
  {
    assert (a + b)[|a| + j..] == b[j..];
  }

  lemma {:induction false} DecodeShift<M(!new)>(
      schema: Schema, apply: (M, Slice, Record) -> Outcome<M>, m: M, a: Slice, b: Slice, j: nat)
    requires |a + b| <= MAX_INT && j <= |b| && Local(apply)
    ensures Same(Decode(schema, apply, m, b, j), Decode(schema, apply, m, a + b, |a| + j))
    decreases |b| - j
  {
    hide NextRecord;
    if j < |b| {
      NextRecordShift(schema, a, b, j);
      var r := NextRecord(schema, b, j);
      if !r.Bad? {
        assert Shifts(apply, m, a, b, r);
        match apply(m, b, r) {
          case Fail(_) =>
          case Done(m') => DecodeShift(schema, apply, m', a, b, r.next);
        }
      }
    }
  }

  lemma {:induction false} DecodePrefix<M(!new)>(
      schema: Schema, apply: (M, Slice, Record) -> Outcome<M>, m: M, a: Slice, b: Slice, i: nat)
    requires |a + b| <= MAX_INT && i <= |a| && Local(apply)
    requires Decode(schema, apply, m, a, i).Done?
    ensures Decode(schema, apply, m, a + b, i)
         == Decode(schema, apply, Decode(schema, apply, m, a, i).m, a + b, |a|)
    decreases |a| - i
  {
    hide NextRecord;
    if i < |a| {
      NextRecordExtend(schema, a, b, i);
      var r := NextRecord(schema, a, i);
      assert Extends(apply, m, a, b, r);
      DecodePrefix(schema, apply, apply(m, a, r).m, a, b, r.next);
    }
  }

  /** "Last One Wins": decoding a concatenation is decoding the second part into
      what the first part gave. */
  lemma MergeLaw<M(!new)>(schema: Schema, apply: (M, Slice, Record) -> Outcome<M>, m: M, a: Slice, b: Slice)
    requires |a + b| <= MAX_INT && Local(apply)
    requires Decode(schema, apply, m, a, 0).Done?
    ensures Same(Decode(schema, apply, Decode(schema, apply, m, a, 0).m, b, 0),
                 Decode(schema, apply, m, a + b, 0))
  {
    hide NextRecord;
    var m1 := Decode(schema, apply, m, a, 0).m;
    DecodePrefix(schema, apply, m, a, b, 0);
    DecodeShift(schema, apply, m1, a, b, 0);
  }

  // ----------------------------------------------- decoding what was encoded

  /** A field in its wire form: tag and varint, or tag, length and content. */
  function NumField(tag: byte, v: u64): Bytes {
    [tag] + EncodeVarint(v)
  }

  /** `uint64(len(b))`. */
  function Len(b: Bytes): u64 {
    |b| % TWO_64
  }

  function BlobField(tag: byte, b: Bytes): Bytes {
    [tag] + EncodeVarint(Len(b)) + b
  }

  predicate KnownTag(schema: Schema, tag: byte, wireType: int) {
    8 <= tag < 128 && tag % 8 == wireType && tag / 8 in schema && schema[tag / 8] == wireType
  }

  lemma TagAt(tag: byte, rest: Bytes)
    requires tag < 128
    ensures ReadVarint([tag] + rest, 0) == Value(tag, 1)
  {
    var d := [tag] + rest;
    assert d[0] == tag;
  }

  lemma NumFieldRecord(schema: Schema, tag: byte, v: u64)
    requires KnownTag(schema, tag, 0)
    ensures |NumField(tag, v)| <= 11
    ensures NextRecord(schema, NumField(tag, v), 0) == Num(tag / 8, v, |NumField(tag, v)|)
  {
    hide ReadVarint, Sov, EncodeVarint;
    var d := NumField(tag, v);
    VarintAtMostTenBytes(v);
    TagAt(tag, EncodeVarint(v));
    VarintRoundTrip([tag], v, []);
    SovIsEncodedLength(v);
    assert [tag] + EncodeVarint(v) + [] == d;
  }

  lemma BlobFieldRecord(schema: Schema, tag: byte, b: Slice)
    requires KnownTag(schema, tag, 2) && |BlobField(tag, b)| <= MAX_INT
    ensures var d := BlobField(tag, b);
      NextRecord(schema, d, 0) == Blob(tag / 8, |d| - |b|, |d|) && Cut(d, |d| - |b|, |d|) == b
  {
    hide ReadVarint, ReadLength, EncodeVarint;
    var d := BlobField(tag, b);
    BlobSpan([tag], b);
    TagAt(tag, EncodeVarint(|b|) + b);
    assert [tag] + (EncodeVarint(|b|) + b) == d;
    assert d[|d| - |b|..] == b;
  }

  lemma BlobSpan(pre: Bytes, b: Slice)
    requires |pre + EncodeVarint(|b|) + b| <= MAX_INT
    ensures var d := pre + EncodeVarint(|b|) + b;
      ReadLength(d, |pre|) == Span(|d| - |b|, |d|)
  {
    hide ReadVarint, Sov, EncodeVarint;
    VarintRoundTrip(pre, |b|, b);
    SovIsEncodedLength(|b|);
  }

  /** A buffer that is one record has the effect of that record. */
  lemma DecodeOne<M>(schema: Schema, apply: (M, Slice, Record) -> Outcome<M>, m: M, d: Slice)
    requires d != [] && !NextRecord(schema, d, 0).Bad? && NextRecord(schema, d, 0).next == |d|
    ensures Decode(schema, apply, m, d, 0) == apply(m, d, NextRecord(schema, d, 0))
  {
  }

  /** A field in front of other bytes is decoded first. */
  lemma DecodeField<M(!new)>(
      schema: Schema, apply: (M, Slice, Record) -> Outcome<M>, m: M, field: Slice, m1: M, rest: Slice)
    requires |field + rest| <= MAX_INT && Local(apply)
    requires Decode(schema, apply, m, field, 0) == Done(m1)
    requires Decode(schema, apply, m1, rest, 0).Done?
    ensures Decode(schema, apply, m, field + rest, 0) == Decode(schema, apply, m1, rest, 0)
  {
    MergeLaw(schema, apply, m, field, rest);
  }

  // ---------------------------------------------------------- unknown fields

  /** From i on, the buffer holds only complete records of fields the message
      does not know. */
  predicate AllUnknown(schema: Schema, u: Slice, i: nat)
    requires i <= |u|
    decreases |u| - i
  {
    i == |u| ||
    (var r := NextRecord(schema, u, i); r.Unknown? && AllUnknown(schema, u, r.next))
  }

  lemma {:induction false} AllUnknownJoin(schema: Schema, a: Slice, b: Slice, i: nat)
    requires |a + b| <= MAX_INT && i <= |a|
    requires AllUnknown(schema, a, i) && AllUnknown(schema, b, 0)
    ensures AllUnknown(schema, a + b, i)
    decreases |a| - i
  {
    if i < |a| {
      NextRecordExtend(schema, a, b, i);
      AllUnknownJoin(schema, a, b, NextRecord(schema, a, i).next);
    } else {
      AllUnknownShift(schema, a, b, 0);
    }
  }

  lemma {:induction false} AllUnknownShift(schema: Schema, a: Slice, b: Slice, j: nat)
    requires |a + b| <= MAX_INT && j <= |b| && AllUnknown(schema, b, j)
    ensures AllUnknown(schema, a + b, |a| + j)
    decreases |b| - j
  {
    hide NextRecord;
    if j < |b| {
      NextRecordShift(schema, a, b, j);
      AllUnknownShift(schema, a, b, NextRecord(schema, b, j).next);
    }
  }

  lemma {:induction false} ReadGroupsTruncate(a: Bytes, b: Bytes, i: nat, left: nat)
    requires ReadGroups(a + b, i, left).Sum? && ReadGroups(a + b, i, left).next <= |a|
    ensures ReadGroups(a, i, left) == ReadGroups(a + b, i, left)
    decreases left
  {
    assert (a + b)[i] == a[i];
    if a[i] >= 128 { ReadGroupsTruncate(a, b, i + 1, left - 1); }
  }

  lemma {:induction false} SkipTruncate(a: Slice, b: Slice, i: nat, depth: nat)
    requires |a + b| <= MAX_INT
    requires SkipFrom(a + b, i, depth).Skipped? && SkipFrom(a + b, i, depth).n <= |a|
    ensures SkipFrom(a, i, depth) == SkipFrom(a + b, i, depth)
    decreases if i < |a + b| then |a + b| - i else 0
  {
    var d := a + b;
    var tag := ReadVarint(d, i);
    var p := ReadPayload(d, tag.v % 8, tag.next, depth);
    SkipEndsBehind(d, p.end, p.depth);
    ReadGroupsTruncate(a, b, i, 10);
    if tag.v % 8 == 0 || tag.v % 8 == 2 { ReadGroupsTruncate(a, b, tag.next, 10); }
    if p.depth > 0 { SkipTruncate(a, b, p.end, p.depth); }
  }

  lemma SkipEndsBehind(d: Slice, i: nat, depth: nat)
    ensures SkipFrom(d, i, depth).Skipped? ==> SkipFrom(d, i, depth).n > i
  {}

  /** The raw bytes of a skipped field are again a complete unknown field. */
  lemma UnknownStandsAlone(schema: Schema, d: Slice, i: nat)
    requires i <= |d| && NextRecord(schema, d, i).Unknown?
    ensures AllUnknown(schema, d[i..NextRecord(schema, d, i).next], 0)
  {
    hide SkipFrom, ReadVarint, NextRecord;
    SkippedTag(schema, d, i);
    var next := NextRecord(schema, d, i).next;
    var u, tail := d[i..next], d[next..];
    assert d[i..] == u + tail;
    assert d == d[..i] + (u + tail);
    ReadVarintShift(d[..i], u + tail, 0);
    SkipTruncate(u, tail, 0, 0);
    FirstTagInside(u, tail);
    SkippedAlone(schema, u);
    assert u[0..] == u;
  }

  predicate UnknownTag(schema: Schema, r: Number) {
    r.Value? && r.v % 8 != 4 && ToInt32(r.v / 8) > 0 && ToInt32(r.v / 8) !in schema
  }

  lemma SkippedTag(schema: Schema, d: Slice, i: nat)
    requires i <= |d| && NextRecord(schema, d, i).Unknown?
    ensures UnknownTag(schema, ReadVarint(d, i))
    ensures SkipFrom(d[i..], 0, 0) == Skipped(NextRecord(schema, d, i).next - i)
  {}

  lemma SkippedAlone(schema: Schema, u: Slice)
    requires UnknownTag(schema, ReadVarint(u, 0)) && SkipFrom(u, 0, 0) == Skipped(|u|)
    ensures NextRecord(schema, u, 0) == Unknown(0, |u|)
  {
    assert u[0..] == u;
  }

  lemma FirstTagInside(u: Slice, tail: Slice)
    requires |u + tail| <= MAX_INT && SkipFrom(u + tail, 0, 0) == Skipped(|u|)
    ensures ReadVarint(u + tail, 0).Value? && ReadVarint(u, 0) == ReadVarint(u + tail, 0)
  {
    var d := u + tail;
    var tag := ReadVarint(d, 0);
    var p := ReadPayload(d, tag.v % 8, tag.next, 0);
    SkipEndsBehind(d, p.end, p.depth);
    ReadGroupsTruncate(u, tail, 0, 10);
  }

  /** `append` is what skipping an unknown field does to a message. */
  ghost predicate AppendsUnknown<M(!new)>(apply: (M, Slice, Record) -> Outcome<M>, append: (M, Bytes) -> M) {
    && (forall m: M, d: Slice, lo: nat, next: nat :: lo <= next <= |d| ==>
          apply(m, d, Unknown(lo, next)) == Done(append(m, d[lo..next])))
    && (forall m: M, x: Bytes, y: Bytes :: append(append(m, x), y) == append(m, x + y))
    && (forall m: M :: append(m, []) == m)
  }

  lemma {:induction false} DecodeUnknowns<M(!new)>(
      schema: Schema, apply: (M, Slice, Record) -> Outcome<M>, append: (M, Bytes) -> M, m: M, u: Slice, i: nat)
    requires i <= |u| && AllUnknown(schema, u, i) && AppendsUnknown(apply, append)
    ensures Decode(schema, apply, m, u, i) == Done(append(m, u[i..]))
    decreases |u| - i
  {
    hide NextRecord;
    if i == |u| {
      assert u[i..] == [];
    } else {
      var next := NextRecord(schema, u, i).next;
      assert u[i..] == u[i..next] + u[next..];
      DecodeUnknowns(schema, apply, append, append(m, u[i..next]), u, next);
    }
  }

  /** A property that every record keeps, given how many bytes it took. */
  ghost predicate Kept<M(!new)>(schema: Schema, apply: (M, Slice, Record) -> Outcome<M>, p: (M, nat) -> bool) {
    forall m: M, d: Slice, i: nat ::
      i < |d| && p(m, |d| - i) && !NextRecord(schema, d, i).Bad? && apply(m, d, NextRecord(schema, d, i)).Done?
      ==> p(apply(m, d, NextRecord(schema, d, i)).m, |d| - NextRecord(schema, d, i).next)
  }

  lemma {:induction false} DecodeKeeps<M(!new)>(
      schema: Schema, apply: (M, Slice, Record) -> Outcome<M>, p: (M, nat) -> bool, m: M, d: Slice, i: nat)
    requires i <= |d| && Kept(schema, apply, p) && p(m, |d| - i)
    requires Decode(schema, apply, m, d, i).Done?
    ensures p(Decode(schema, apply, m, d, i).m, 0)
    decreases |d| - i
  {
    if i < |d| {
      var r := NextRecord(schema, d, i);
      DecodeKeeps(schema, apply, p, apply(m, d, r).m, d, r.next);
    }
  }
}
