/** LockedTransaction: a message that is a map, and its generated codec. */
module Locked {
  import opened GoInt
  import opened Varint
  import opened Wire
  import opened Messages
  import opened Buffer
  import opened RoundTrips

  datatype LockedTransaction = LockedTransaction(versions: map<Bytes, Bytes>, unknown: Bytes)

  const NEW_LOCKED := LockedTransaction(map[], [])
  const LOCKED: Schema := map[1 := 2]

  datatype Entry = Entry(key: Bytes, value: Bytes)

  /** The fields of one map entry, up to `post`. Neither wire types nor the end of
      the entry are checked for the key and the value: they may reach beyond
      `post`, and are then read from what follows the entry. */
  function ReadEntry(d: Slice, i: nat, post: nat, e: Entry): Outcome<Entry>
    requires post <= |d|
    decreases if i < post then post - i else 0
  {
    if i >= post then Done(e)
    else
      match ReadVarint(d, i)
      case BadNumber(err) => Fail(err)
      case Value(wire, j) =>
        var field := ToInt32(wire / 8);
        if field == 1 || field == 2 then
          match ReadLength(d, j)
          case BadSpan(err) => Fail(err)
          case Span(lo, hi) =>
            ReadEntry(d, hi, post, if field == 1 then e.(key := d[lo..hi]) else e.(value := d[lo..hi]))
        else
          match UnknownRecord(d, i)
          case Unknown(_, next) => if next > post then Fail(UnexpectedEOF) else ReadEntry(d, next, post, e)
          case Bad(err) => Fail(err)
  }

  function ApplyLocked(m: LockedTransaction, d: Slice, r: Record): Outcome<LockedTransaction> {
    match r
    case Blob(_, lo, hi) =>
      if lo <= hi <= |d| then
        match ReadEntry(d, lo, hi, Entry([], []))
        case Done(e) => Done(m.(versions := m.versions[e.key := e.value]))
        case Fail(err) => Fail(err)
      else Fail(UnexpectedEOF)
    case Unknown(lo, hi) => Done(m.(unknown := m.unknown + Cut(d, lo, hi)))
    case Num(_, _, _) => Fail(WrongWireType)
    case Bad(err) => Fail(err)
  }

  function DecodeLocked(m: LockedTransaction, d: Slice): Outcome<LockedTransaction> {
    Decode(LOCKED, ApplyLocked, m, d, 0)
  }

  // --------------------------------------------------------------- wire form

  /** `range` visits every key of the map once, in any order. */
  ghost predicate Enumerates(order: seq<Bytes>, versions: map<Bytes, Bytes>) {
    && (forall i, j :: 0 <= i < j < |order| ==> order[i] != order[j])
    && (forall k :: k in order <==> k in versions)
  }

  function EncodeEntry(k: Bytes, v: Bytes): Bytes {
    BlobField(0x0a, k) + BlobField(0x12, v)
  }

  /** Filled backwards: the entry visited first comes last. */
  ghost function EncodeEntries(order: seq<Bytes>, versions: map<Bytes, Bytes>): Bytes
    requires forall k :: k in order ==> k in versions
  {
    if order == [] then []
    else EncodeEntries(order[1..], versions) + BlobField(0x0a, EncodeEntry(order[0], versions[order[0]]))
  }

  ghost function EncodeLocked(order: seq<Bytes>, m: LockedTransaction): Bytes
    requires Enumerates(order, m.versions)
  {
    EncodeEntries(order, m.versions) + m.unknown
  }

  // ---------------------------------------------------------------- locality

  lemma {:induction false} ReadEntryExtend(a: Slice, b: Slice, i: nat, post: nat, e: Entry)
    requires |a + b| <= MAX_INT && post <= |a| && ReadEntry(a, i, post, e).Done?
    ensures ReadEntry(a + b, i, post, e) == ReadEntry(a, i, post, e)
    decreases if i < post then post - i else 0
  {
    hide ReadVarint, ReadLength, UnknownRecord;
    if i < post {
      ReadVarintExtend(a, b, i);
      var tag := ReadVarint(a, i);
      var field := ToInt32(tag.v / 8);
      if field == 1 || field == 2 {
        ReadLengthExtend(a, b, tag.next);
        var s := ReadLength(a, tag.next);
        assert (a + b)[s.lo..s.hi] == a[s.lo..s.hi];
        ReadEntryExtend(a, b, s.hi, post, if field == 1 then e.(key := a[s.lo..s.hi]) else e.(value := a[s.lo..s.hi]));
      } else {
        UnknownExtend(a, b, i);
        ReadEntryExtend(a, b, UnknownRecord(a, i).next, post, e);
      }
    }
  }

  lemma UnknownExtend(a: Slice, b: Slice, i: nat)
    requires |a + b| <= MAX_INT && i <= |a| && UnknownRecord(a, i).Unknown?
    ensures UnknownRecord(a + b, i) == UnknownRecord(a, i)
  {
    assert (a + b)[i..] == a[i..] + b;
    SkipExtend(a[i..], b, 0, 0);
  }

  lemma {:induction false} ReadEntryShift(a: Slice, b: Slice, j: nat, post: nat, e: Entry)
    requires |a + b| <= MAX_INT && post <= |b|
    ensures Same(ReadEntry(b, j, post, e), ReadEntry(a + b, |a| + j, |a| + post, e))
    decreases if j < post then post - j else 0
  {
    hide ReadVarint, ReadLength, UnknownRecord;
    if j < post {
      ReadVarintShift(a, b, j);
      var tag := ReadVarint(b, j);
      if tag.Value? {
        var field := ToInt32(tag.v / 8);
        if field == 1 || field == 2 {
          ReadLengthShift(a, b, tag.next);
          var s := ReadLength(b, tag.next);
          if s.Span? {
            assert (a + b)[|a| + s.lo..|a| + s.hi] == b[s.lo..s.hi];
            var read := b[s.lo..s.hi];
            ReadEntryShift(a, b, s.hi, post, if field == 1 then e.(key := read) else e.(value := read));
          }
        } else {
          UnknownShift(a, b, j);
          var r := UnknownRecord(b, j);
          if r.Unknown? && r.next <= post { ReadEntryShift(a, b, r.next, post, e); }
        }
      }
    }
  }

  lemma LockedLocal()
    ensures Local(ApplyLocked)
  {
    hide ReadEntry;
    forall m: LockedTransaction, a: Slice, b: Slice, r: Record
      ensures Extends(ApplyLocked, m, a, b, r) && Shifts(ApplyLocked, m, a, b, r)
    {
      if |a + b| <= MAX_INT && r.Unknown? { CutLocal(a, b, r.lo, r.next); }
      if |a + b| <= MAX_INT && r.Blob? {
        var none := Entry([], []);
        if r.lo <= r.next <= |a| && ReadEntry(a, r.lo, r.next, none).Done? {
          ReadEntryExtend(a, b, r.lo, r.next, none);
        }
        if r.lo <= r.next <= |b| { ReadEntryShift(a, b, r.lo, r.next, none); }
      }
    }
  }

  lemma LockedMergeLaw(m: LockedTransaction, a: Slice, b: Slice)
    requires |a + b| <= MAX_INT && DecodeLocked(m, a).Done?
    ensures Same(DecodeLocked(DecodeLocked(m, a).m, b), DecodeLocked(m, a + b))
  {
    LockedLocal();
    MergeLaw(LOCKED, ApplyLocked, m, a, b);
  }

  /** No key and no value of the entry is announced to reach beyond its end. */
  predicate StaysInside(d: Slice, i: nat, post: nat)
    requires post <= |d|
    decreases if i < post then post - i else 0
  {
    i >= post ||
    match ReadVarint(d, i)
    case BadNumber(_) => true
    case Value(wire, j) =>
      if ToInt32(wire / 8) == 1 || ToInt32(wire / 8) == 2 then
        (match ReadLength(d, j) case BadSpan(_) => true case Span(_, hi) => hi <= post && StaysInside(d, hi, post))
      else
        (match UnknownRecord(d, i)
         case Bad(_) => true
         case Unknown(_, next) => next > post || StaysInside(d, next, post))
  }

  /** An accepted entry was read from its own bytes alone exactly when the check that
      the decoder leaves out would have passed. */
  lemma {:induction false} OwnBytesIffInside(d: Slice, i: nat, post: nat, e: Entry)
    requires i <= post <= |d| && ReadEntry(d, i, post, e).Done?
    ensures ReadEntry(d[..post], i, post, e) == ReadEntry(d, i, post, e) <==> StaysInside(d, i, post)
    ensures !StaysInside(d, i, post) ==> ReadEntry(d[..post], i, post, e).Fail?
    decreases post - i
  {
    hide ReadVarint, ReadLength, UnknownRecord;
    if i < post {
      var own, rest := d[..post], d[post..];
      assert own + rest == d;
      VarintInside(own, rest, i);
      var tag := ReadVarint(d, i);
      var field := ToInt32(tag.v / 8);
      if field == 1 || field == 2 {
        LengthInside(own, rest, tag.next);
        var s := ReadLength(d, tag.next);
        if s.hi <= post {
          assert own[s.lo..s.hi] == d[s.lo..s.hi];
          OwnBytesIffInside(d, s.hi, post, if field == 1 then e.(key := d[s.lo..s.hi]) else e.(value := d[s.lo..s.hi]));
        }
      } else {
        UnknownInside(own, rest, i);
        OwnBytesIffInside(d, UnknownRecord(d, i).next, post, e);
      }
    }
  }

  /** A varint is read the same from a part of the buffer that holds all of it, and
      from no shorter one. */
  lemma VarintInside(a: Slice, b: Slice, i: nat)
    requires |a + b| <= MAX_INT && ReadVarint(a + b, i).Value?
    ensures var r := ReadVarint(a + b, i);
      if r.next <= |a| then ReadVarint(a, i) == r else ReadVarint(a, i).BadNumber?
  {
    if ReadVarint(a + b, i).next <= |a| {
      ReadGroupsTruncate(a, b, i, 10);
    } else if ReadVarint(a, i).Value? {
      ReadVarintExtend(a, b, i);
    }
  }

  lemma LengthInside(a: Slice, b: Slice, i: nat)
    requires |a + b| <= MAX_INT && ReadLength(a + b, i).Span?
    ensures var r := ReadLength(a + b, i);
      if r.hi <= |a| then ReadLength(a, i) == r else ReadLength(a, i).BadSpan?
  {
    hide ReadVarint;
    VarintInside(a, b, i);
  }

  lemma UnknownInside(a: Slice, b: Slice, i: nat)
    requires |a + b| <= MAX_INT && i <= |a| && UnknownRecord(a + b, i).Unknown? && UnknownRecord(a + b, i).next <= |a|
    ensures UnknownRecord(a, i) == UnknownRecord(a + b, i) && ReadVarint(a, i) == ReadVarint(a + b, i)
  {
    hide SkipFrom, ReadVarint;
    assert (a + b)[i..] == a[i..] + b;
    SkipTruncate(a[i..], b, 0, 0);
    SkipHasTag(a[i..]);
    assert a == a[..i] + a[i..];
    ReadVarintShift(a[..i], a[i..], 0);
    ReadVarintExtend(a, b, i);
  }

  lemma SkipHasTag(d: Slice)
    requires SkipFrom(d, 0, 0).Skipped?
    ensures ReadVarint(d, 0).Value?
  {}

  const OVERRUN: Slice := [0x0a, 2, 0x0a, 1, 0x78, 0]

  /** An entry of two bytes, whose key is announced to be one byte long and so is the
      byte after the entry: the decoder takes that byte for the key, and once more for
      the tag of the next field. */
  lemma EntryMayOverrun()
    ensures DecodeLocked(NEW_LOCKED, OVERRUN) == Done(LockedTransaction(map[[0x78] := []], [0x78, 0]))
    ensures !StaysInside(OVERRUN, 2, 4)
  {
    hide ReadVarint, ReadLength, UnknownRecord, ReadEntry, NextRecord, StaysInside;
    OverrunEntry();
    OverrunRecords();
    var m1 := LockedTransaction(map[[0x78] := []], []);
    assert m1.unknown + [0x78, 0] == [0x78, 0];
    assert ApplyLocked(m1, OVERRUN, Unknown(4, 6)) == Done(m1.(unknown := [0x78, 0]));
    assert Decode(LOCKED, ApplyLocked, m1.(unknown := [0x78, 0]), OVERRUN, 6) == Done(m1.(unknown := [0x78, 0]));
    assert Decode(LOCKED, ApplyLocked, m1, OVERRUN, 4) == Done(m1.(unknown := [0x78, 0]));
  }

  lemma OverrunEntry()
    ensures ReadEntry(OVERRUN, 2, 4, Entry([], [])) == Done(Entry([0x78], [])) && !StaysInside(OVERRUN, 2, 4)
  {
    hide UnknownRecord;
    assert ReadVarint(OVERRUN, 2) == Value(0x0a, 3);
    assert ReadLength(OVERRUN, 3) == Span(4, 5) && OVERRUN[4..5] == [0x78];
    assert ReadEntry(OVERRUN, 5, 4, Entry([0x78], [])) == Done(Entry([0x78], []));
  }

  lemma OverrunRecords()
    ensures NextRecord(LOCKED, OVERRUN, 0) == Blob(1, 2, 4) && NextRecord(LOCKED, OVERRUN, 4) == Unknown(4, 6)
    ensures Cut(OVERRUN, 4, 6) == [0x78, 0]
  {
    assert ReadLength(OVERRUN, 1) == Span(2, 4);
    assert SkipFrom(OVERRUN[4..], 0, 0) == Skipped(2);
  }

  // -------------------------------------------------------------- round trip

  /** A length-prefixed field anywhere in a buffer. */
  lemma FieldAt(pre: Bytes, tag: byte, b: Slice, post: Bytes)
    requires tag < 128 && |pre + BlobField(tag, b) + post| <= MAX_INT
    ensures var d, end := pre + BlobField(tag, b) + post, |pre| + |BlobField(tag, b)|;
      && ReadVarint(d, |pre|) == Value(tag, |pre| + 1)
      && ReadLength(d, |pre| + 1) == Span(end - |b|, end)
      && d[end - |b|..end] == b
  {
    hide ReadVarint, ReadLength, EncodeVarint;
    var tail := EncodeVarint(|b|) + b + post;
    TagAt(tag, tail);
    ReadVarintShift(pre, [tag] + tail, 0);
    assert pre + BlobField(tag, b) + post == pre + ([tag] + tail);
    SpanAt(pre + [tag], b, post);
    assert pre + BlobField(tag, b) + post == (pre + [tag]) + EncodeVarint(|b|) + b + post;
  }

  lemma SpanAt(pre: Bytes, b: Slice, post: Bytes)
    requires |pre + EncodeVarint(|b|) + b + post| <= MAX_INT
    ensures var d, end := pre + EncodeVarint(|b|) + b + post, |pre + EncodeVarint(|b|)| + |b|;
      ReadLength(d, |pre|) == Span(end - |b|, end) && d[end - |b|..end] == b
  {
    hide ReadVarint, Sov, EncodeVarint;
    VarintRoundTrip(pre, |b|, b + post);
    SovIsEncodedLength(|b|);
    assert pre + EncodeVarint(|b|) + b + post == pre + EncodeVarint(|b|) + (b + post);
  }

  lemma ReadEntryOfEncoded(k: Slice, v: Slice)
    requires |EncodeEntry(k, v)| <= MAX_INT
    ensures ReadEntry(EncodeEntry(k, v), 0, |EncodeEntry(k, v)|, Entry([], [])) == Done(Entry(k, v))
  {
    hide ReadVarint, ReadLength, BlobField;
    var d := EncodeEntry(k, v);
    var kb, vb := BlobField(0x0a, k), BlobField(0x12, v);
    FieldAt([], 0x0a, k, vb);
    assert [] + kb + vb == d;
    FieldAt(kb, 0x12, v, []);
    assert kb + vb + [] == d;
    BlobFieldHolds(0x0a, k);
    BlobFieldHolds(0x12, v);
    assert ReadEntry(d, |d|, |d|, Entry(k, v)) == Done(Entry(k, v));
    assert ReadEntry(d, |kb|, |d|, Entry(k, [])) == Done(Entry(k, v));
  }

  lemma DecodeEntry(m: LockedTransaction, k: Bytes, v: Bytes)
    requires |BlobField(0x0a, EncodeEntry(k, v))| <= MAX_INT
    ensures DecodeLocked(m, BlobField(0x0a, EncodeEntry(k, v))) == Done(m.(versions := m.versions[k := v]))
  {
    hide NextRecord, BlobField, ReadEntry;
    var b := EncodeEntry(k, v);
    var d := BlobField(0x0a, b);
    BlobFieldHolds(0x0a, b);
    BlobFieldHolds(0x0a, k);
    BlobFieldHolds(0x12, v);
    BlobFieldRecord(LOCKED, 0x0a, b);
    DecodeOne(LOCKED, ApplyLocked, m, d);
    ReadEntryOfEncoded(k, v);
    var lo := |d| - |b|;
    assert d == d[..lo] + b;
    ReadEntryShift(d[..lo], b, 0, |b|, Entry([], []));
  }

  lemma {:induction false} DecodeEntries(m: LockedTransaction, order: seq<Bytes>, versions: map<Bytes, Bytes>)
    requires forall k :: k in order ==> k in versions
    requires IsSlice(EncodeEntries(order, versions))
    ensures DecodeLocked(m, EncodeEntries(order, versions)).Done?
    ensures var r := DecodeLocked(m, EncodeEntries(order, versions)).m;
      && r.unknown == m.unknown
      && r.versions.Keys == m.versions.Keys + (set k | k in order)
      && (forall k :: k in r.versions ==> r.versions[k] == if k in order then versions[k] else m.versions[k])
  {
    hide Decode, BlobField, EncodeEntry;
    if order == [] {
      DecodeNothing(m);
    } else {
      var k := order[0];
      var front, last := EncodeEntries(order[1..], versions), BlobField(0x0a, EncodeEntry(k, versions[k]));
      DecodeEntries(m, order[1..], versions);
      var m1 := DecodeLocked(m, front).m;
      DecodeEntry(m1, k, versions[k]);
      LockedMergeLaw(m, front, last);
    }
  }

  lemma DecodeNothing(m: LockedTransaction)
    ensures DecodeLocked(m, []) == Done(m)
  {}

  function AddToLocked(m: LockedTransaction, u: Bytes): LockedTransaction {
    m.(unknown := m.unknown + u)
  }

  lemma LockedAppends()
    ensures AppendsUnknown(ApplyLocked, AddToLocked)
  {
    forall m: LockedTransaction, x: Bytes, y: Bytes
      ensures AddToLocked(AddToLocked(m, x), y) == AddToLocked(m, x + y)
    {
      assert m.unknown + x + y == m.unknown + (x + y);
    }
    forall m: LockedTransaction ensures AddToLocked(m, []) == m { assert m.unknown + [] == m.unknown; }
  }

  /** The map comes back whatever order its entries were written in. */
  lemma LockedRoundTrip(order: seq<Bytes>, m: LockedTransaction)
    requires Enumerates(order, m.versions) && IsSlice(EncodeLocked(order, m)) && Canonical(LOCKED, m.unknown)
    ensures DecodeLocked(NEW_LOCKED, EncodeLocked(order, m)) == Done(m)
  {
    hide Decode, AllUnknown, EncodeEntries;
    var e := EncodeEntries(order, m.versions);
    DecodeEntries(NEW_LOCKED, order, m.versions);
    var m1 := DecodeLocked(NEW_LOCKED, e).m;
    LockedMergeLaw(NEW_LOCKED, e, m.unknown);
    LockedAppends();
    DecodeUnknowns(LOCKED, ApplyLocked, AddToLocked, m1, m.unknown, 0);
    assert m.unknown[0..] == m.unknown && [] + m.unknown == m.unknown;
    assert m1.versions == m.versions;
  }

  /** A LockedTransaction that was received can be sent on, in any order of its map. */
  lemma ReceivedLockedRoundTrips(d: Slice, order: seq<Bytes>)
    requires DecodeLocked(NEW_LOCKED, d).Done?
    requires Enumerates(order, DecodeLocked(NEW_LOCKED, d).m.versions)
    requires IsSlice(EncodeLocked(order, DecodeLocked(NEW_LOCKED, d).m))
    ensures var m := DecodeLocked(NEW_LOCKED, d).m; DecodeLocked(NEW_LOCKED, EncodeLocked(order, m)) == Done(m)
  {
    hide Decode, AllUnknown, EncodeEntries, ReadEntry;
    EmptyIsUnknown(LOCKED);
    UnknownGrows(LOCKED, ApplyLocked, (x: LockedTransaction) => x.unknown, NEW_LOCKED, d, |d|);
    LockedRoundTrip(order, DecodeLocked(NEW_LOCKED, d).m);
  }

  // ------------------------------------------------------------------- sizes

  lemma {:induction false} RemoveEntry(order: seq<Bytes>, j: nat, versions: map<Bytes, Bytes>)
    requires j < |order| && forall k :: k in order ==> k in versions
    ensures |EncodeEntries(order, versions)|
         == |EncodeEntries(order[..j] + order[j + 1..], versions)|
          + |BlobField(0x0a, EncodeEntry(order[j], versions[order[j]]))|
  {
    hide BlobField, EncodeEntry;
    var rest := order[..j] + order[j + 1..];
    if j == 0 {
      assert rest == order[1..];
    } else {
      assert rest[1..] == order[1..][..j - 1] + order[1..][j..];
      RemoveEntry(order[1..], j - 1, versions);
    }
  }

  lemma HasMember(b: seq<Bytes>)
    ensures b == [] || exists k :: k in b
  {
    if b != [] { assert b[0] in b; }
  }

  /** Two enumerations of a map take the same room. */
  lemma {:induction false} SizeIsOrderFree(a: seq<Bytes>, b: seq<Bytes>, versions: map<Bytes, Bytes>)
    requires forall i, j :: 0 <= i < j < |a| ==> a[i] != a[j]
    requires forall i, j :: 0 <= i < j < |b| ==> b[i] != b[j]
    requires forall k :: k in a <==> k in b
    requires forall k :: k in a ==> k in versions
    ensures |EncodeEntries(a, versions)| == |EncodeEntries(b, versions)|
  {
    hide BlobField, EncodeEntry;
    if a == [] {
      HasMember(b);
    } else {
      assert a[0] in b;
      var j :| 0 <= j < |b| && b[j] == a[0];
      var b' := b[..j] + b[j + 1..];
      RemoveEntry(b, j, versions);
      forall k ensures k in a[1..] <==> k in b' {
        if k in a[1..] { assert k in b; }
        if k in b' { assert k in b && k != b[j]; }
      }
      SizeIsOrderFree(a[1..], b', versions);
    }
  }

  // ------------------------------------------------------------------- codec

  class Message {
    var versions: map<Bytes, Bytes>
    var unknownFields: Bytes

    function Value(): LockedTransaction
      reads this
    {
      LockedTransaction(versions, unknownFields)
    }

    constructor ()
      ensures Value() == NEW_LOCKED
    {
      versions, unknownFields := map[], [];
    }

    /** `order` is how `range` happens to visit the map. */
    method SizeVT(order: seq<Bytes>) returns (n: nat)
      requires Enumerates(order, versions)
      ensures n == |EncodeLocked(order, Value())|
    {
      hide EncodeEntry;
      n := 0;
      assert order[0..] == order;
      for at := 0 to |order|
        invariant n + |EncodeEntries(order[at..], versions)| == |EncodeEntries(order, versions)|
      {
        var k := order[at];
        assert k in order;
        assert order[at..][1..] == order[at + 1..];
        var v := versions[k];
        var mapEntrySize := SizeEntry(k, v);
        SovIsEncodedLength(mapEntrySize % TWO_64);
        n := n + mapEntrySize + 1 + Sov(mapEntrySize % TWO_64);
      }
      n := n + |unknownFields|;
    }

    static method SizeEntry(k: Bytes, v: Bytes) returns (n: nat)
      ensures n == |EncodeEntry(k, v)|
    {
      n := SizeBlob(0x12, v);
      var l := SizeBlob(0x0a, k);
      n := l + n;
    }

    method MarshalToSizedBufferVT(dAtA: array<byte>, lo: nat, hi: nat, order: seq<Bytes>) returns (n: nat)
      requires Enumerates(order, versions)
      requires lo + |EncodeLocked(order, Value())| <= hi <= dAtA.Length
      modifies dAtA
      ensures n == |EncodeLocked(order, Value())|
      ensures Filled(dAtA[..], old(dAtA[..]), hi - n, EncodeLocked(order, Value()), hi)
    {
      hide EncodeEntry, BlobField;
      ghost var was := dAtA[..];
      assert unknownFields + [] == unknownFields;
      var i := PutBytes(dAtA, hi, unknownFields, was, [], hi);
      ghost var tail := unknownFields;
      assert order[0..] == order;
      for at := 0 to |order|
        invariant lo <= i <= hi && i >= |EncodeEntries(order[at..], versions)| + lo
        invariant EncodeEntries(order[at..], versions) + tail == EncodeLocked(order, Value())
        invariant Filled(dAtA[..], was, i, tail, hi)
      {
        var k := order[at];
        assert k in order;
        assert order[at..][1..] == order[at + 1..];
        ghost var entry := BlobField(0x0a, EncodeEntry(k, versions[k]));
        i := PutEntry(dAtA, i, k, versions[k], was, tail, hi);
        Assoc(EncodeEntries(order[at + 1..], versions), entry, tail);
        tail := entry + tail;
      }
      assert order[|order|..] == [];
      assert [] + tail == tail;
      n := hi - i;
    }

    static lemma Assoc(a: Bytes, b: Bytes, c: Bytes)
      ensures (a + b) + c == a + (b + c)
    {}

    static method PutEntry(dAtA: array<byte>, i: nat, k: Bytes, v: Bytes, ghost was: Bytes, ghost tail: Bytes,
        ghost hi: nat)
      returns (j: nat)
      requires Filled(dAtA[..], was, i, tail, hi) && |BlobField(0x0a, EncodeEntry(k, v))| <= i
      modifies dAtA
      ensures j == i - |BlobField(0x0a, EncodeEntry(k, v))|
      ensures Filled(dAtA[..], was, j, BlobField(0x0a, EncodeEntry(k, v)) + tail, hi)
    {
      hide EncodeVarint;
      var baseI := i;
      j := PutBlob(dAtA, i, 0x12, v, was, tail, hi);
      j := PutBlob(dAtA, j, 0x0a, k, was, BlobField(0x12, v) + tail, hi);
      Assoc(BlobField(0x0a, k), BlobField(0x12, v), tail);
      ghost var entry := EncodeEntry(k, v);
      j := PutNum(dAtA, j, 0x0a, (baseI - j) % TWO_64, was, entry + tail, hi);
      assert NumField(0x0a, Len(entry)) + (entry + tail) == BlobField(0x0a, entry) + tail;
    }

    /** Sizing and writing may visit the map in different orders: the buffer is
        still filled exactly. */
    method MarshalVT(sizeOrder: seq<Bytes>, order: seq<Bytes>) returns (dAtA: Bytes)
      requires Enumerates(sizeOrder, versions) && Enumerates(order, versions)
      ensures dAtA == EncodeLocked(order, Value())
    {
      hide EncodeEntries;
      var size := SizeVT(sizeOrder);
      SizeIsOrderFree(sizeOrder, order, versions);
      var buf := new byte[size];
      var n := MarshalToSizedBufferVT(buf, 0, size, order);
      dAtA := buf[..n];
    }

    method UnmarshalVT(dAtA: Slice) returns (r: Result)
      modifies this
      ensures match DecodeLocked(old(Value()), dAtA)
              case Done(m) => r == Ok && Value() == m
              case Fail(e) => r == Err(e)
    {
      hide ReadVarint, ReadLength, UnknownRecord, ReadEntry;
      var iNdEx := 0;
      while iNdEx < |dAtA|
        invariant 0 <= iNdEx <= |dAtA|
        invariant DecodeLocked(old(Value()), dAtA) == Decode(LOCKED, ApplyLocked, Value(), dAtA, iNdEx)
      {
        var preIndex := iNdEx;
        var tag := ParseVarint(dAtA, iNdEx);
        if tag.BadNumber? { return Err(tag.err); }
        iNdEx := tag.next;
        var fieldNum, wireType := ToInt32(tag.v / 8), tag.v % 8;
        if wireType == 4 { return Err(EndGroupForNonGroup); }
        if fieldNum <= 0 { return Err(IllegalTag); }
        if fieldNum == 1 {
          if wireType != 2 { return Err(WrongWireType); }
          var span := ParseLength(dAtA, iNdEx);
          if span.BadSpan? { return Err(span.err); }
          var entry := ParseEntry(dAtA, span.lo, span.hi);
          if entry.Fail? { return Err(entry.err); }
          versions := versions[entry.m.key := entry.m.value];
          iNdEx := span.hi;
        } else {
          var skipped := ParseUnknown(dAtA, preIndex);
          if skipped.Bad? { return Err(skipped.err); }
          unknownFields := unknownFields + dAtA[preIndex..skipped.next];
          iNdEx := skipped.next;
        }
      }
      return Ok;
    }

    /** The inner loop over the fields of a map entry. */
    static method ParseEntry(dAtA: Slice, start: nat, postIndex: nat) returns (r: Outcome<Entry>)
      requires postIndex <= |dAtA|
      ensures r == ReadEntry(dAtA, start, postIndex, Entry([], []))
    {
      hide ReadVarint, ReadLength, UnknownRecord;
      var mapkey, mapvalue: Bytes := [], [];
      var iNdEx: nat := start;
      while iNdEx < postIndex
        invariant ReadEntry(dAtA, start, postIndex, Entry([], []))
               == ReadEntry(dAtA, iNdEx, postIndex, Entry(mapkey, mapvalue))
        decreases postIndex - iNdEx
      {
        var entryPreIndex := iNdEx;
        var tag := ParseVarint(dAtA, iNdEx);
        if tag.BadNumber? { return Fail(tag.err); }
        var fieldNum := ToInt32(tag.v / 8);
        if fieldNum == 1 {
          var span := ParseLength(dAtA, tag.next);
          if span.BadSpan? { return Fail(span.err); }
          mapkey := dAtA[span.lo..span.hi];
          iNdEx := span.hi;
        } else if fieldNum == 2 {
          var span := ParseLength(dAtA, tag.next);
          if span.BadSpan? { return Fail(span.err); }
          mapvalue := dAtA[span.lo..span.hi];
          iNdEx := span.hi;
        } else {
          var skipped := ParseUnknown(dAtA, entryPreIndex);
          if skipped.Bad? { return Fail(skipped.err); }
          if skipped.next > postIndex { return Fail(UnexpectedEOF); }
          iNdEx := skipped.next;
        }
      }
      return Done(Entry(mapkey, mapvalue));
    }
  }
}
