/** Filling a buffer from its end towards its start, one field at a time. */
module Buffer {
  import opened GoInt
  import opened Varint
  import opened Wire
  import opened Messages

  /** Go's `error` of a decoder. */
  datatype Result = Ok | Err(error: Error)

  /** s is the buffer `was` with its bytes from i to hi replaced by `tail`. */
  ghost predicate Filled(s: Bytes, was: Bytes, i: nat, tail: Bytes, hi: nat) {
    i + |tail| == hi <= |was| && s == was[..i] + tail + was[hi..]
  }

  lemma FilledMore(s: Bytes, s': Bytes, was: Bytes, j: nat, front: Bytes, i: nat, tail: Bytes, hi: nat)
    requires Filled(s, was, i, tail, hi)
    requires j + |front| == i && s' == s[..j] + front + s[i..]
    ensures Filled(s', was, j, front + tail, hi)
  {
    assert s[..j] == was[..j];
    assert s[i..] == tail + was[hi..];
  }

  /** `i -= len(b); copy(dAtA[i:], b)` */
  method PutBytes(dAtA: array<byte>, i: nat, b: Bytes, ghost was: Bytes, ghost tail: Bytes, ghost hi: nat)
    returns (j: nat)
    requires Filled(dAtA[..], was, i, tail, hi) && |b| <= i
    modifies dAtA
    ensures j == i - |b| && Filled(dAtA[..], was, j, b + tail, hi)
  {
    j := i - |b|;
    ghost var s := dAtA[..];
    CopyTo(dAtA, j, b);
    assert dAtA[..] == dAtA[..i] + dAtA[i..];
    FilledMore(s, dAtA[..], was, j, b, i, tail, hi);
  }

  /** `i--; dAtA[i] = x` */
  method PutByte(dAtA: array<byte>, i: nat, x: byte, ghost was: Bytes, ghost tail: Bytes, ghost hi: nat)
    returns (j: nat)
    requires Filled(dAtA[..], was, i, tail, hi) && 1 <= i
    modifies dAtA
    ensures j == i - 1 && Filled(dAtA[..], was, j, [x] + tail, hi)
  {
    j := i - 1;
    ghost var s := dAtA[..];
    dAtA[j] := x;
    assert dAtA[..] == s[..j] + [x] + s[i..];
    FilledMore(s, dAtA[..], was, j, [x], i, tail, hi);
  }

  /** `i = encodeVarint(dAtA, i, v); i--; dAtA[i] = tag` */
  method PutNum(dAtA: array<byte>, i: nat, tag: byte, v: u64, ghost was: Bytes, ghost tail: Bytes, ghost hi: nat)
    returns (j: nat)
    requires Filled(dAtA[..], was, i, tail, hi) && |NumField(tag, v)| <= i
    modifies dAtA
    ensures j == i - |NumField(tag, v)| && Filled(dAtA[..], was, j, NumField(tag, v) + tail, hi)
  {
    hide Sov, EncodeVarint;
    ghost var s := dAtA[..];
    SovIsEncodedLength(v);
    j := PutVarint(dAtA, i, v);
    FilledMore(s, dAtA[..], was, j, EncodeVarint(v), i, tail, hi);
    j := PutByte(dAtA, j, tag, was, EncodeVarint(v) + tail, hi);
    assert [tag] + (EncodeVarint(v) + tail) == NumField(tag, v) + tail;
  }

  /** A boolean that is set: `1`, then its tag. */
  method PutBool(dAtA: array<byte>, i: nat, tag: byte, b: bool, ghost was: Bytes, ghost tail: Bytes, ghost hi: nat)
    returns (j: nat)
    requires Filled(dAtA[..], was, i, tail, hi) && |OptBool(tag, b)| <= i
    modifies dAtA
    ensures j == i - |OptBool(tag, b)| && Filled(dAtA[..], was, j, OptBool(tag, b) + tail, hi)
  {
    j := i;
    assert [] + tail == tail;
    if b {
      j := PutByte(dAtA, j, if b then 1 else 0, was, tail, hi);
      j := PutByte(dAtA, j, tag, was, [1] + tail, hi);
      assert [tag] + ([1] + tail) == [tag, 1] + tail;
    }
  }

  /** Content, its length, its tag. */
  method PutBlob(dAtA: array<byte>, i: nat, tag: byte, b: Bytes, ghost was: Bytes, ghost tail: Bytes, ghost hi: nat)
    returns (j: nat)
    requires Filled(dAtA[..], was, i, tail, hi) && |BlobField(tag, b)| <= i
    modifies dAtA
    ensures j == i - |BlobField(tag, b)| && Filled(dAtA[..], was, j, BlobField(tag, b) + tail, hi)
  {
    hide EncodeVarint;
    j := PutBytes(dAtA, i, b, was, tail, hi);
    j := PutNum(dAtA, j, tag, Len(b), was, b + tail, hi);
    assert NumField(tag, Len(b)) + (b + tail) == BlobField(tag, b) + tail;
  }

  method PutOptNum(dAtA: array<byte>, i: nat, tag: byte, v: u64, ghost was: Bytes, ghost tail: Bytes, ghost hi: nat)
    returns (j: nat)
    requires Filled(dAtA[..], was, i, tail, hi) && |OptNum(tag, v)| <= i
    modifies dAtA
    ensures j == i - |OptNum(tag, v)| && Filled(dAtA[..], was, j, OptNum(tag, v) + tail, hi)
  {
    j := i;
    assert [] + tail == tail;
    if v != 0 { j := PutNum(dAtA, i, tag, v, was, tail, hi); }
  }

  method PutOptBlob(dAtA: array<byte>, i: nat, tag: byte, b: Bytes, ghost was: Bytes, ghost tail: Bytes, ghost hi: nat)
    returns (j: nat)
    requires Filled(dAtA[..], was, i, tail, hi) && |OptBlob(tag, b)| <= i
    modifies dAtA
    ensures j == i - |OptBlob(tag, b)| && Filled(dAtA[..], was, j, OptBlob(tag, b) + tail, hi)
  {
    j := i;
    assert [] + tail == tail;
    if |b| > 0 { j := PutBlob(dAtA, i, tag, b, was, tail, hi); }
  }

  // ------------------------------------------------------------------ sizes

  method SizeOptNum(tag: byte, v: u64) returns (n: nat)
    ensures n == |OptNum(tag, v)|
  {
    SovIsEncodedLength(v);
    n := if v != 0 then 1 + Sov(v) else 0;
  }

  method SizeBlob(tag: byte, b: Bytes) returns (n: nat)
    ensures n == |BlobField(tag, b)|
  {
    SovIsEncodedLength(Len(b));
    n := 1 + |b| + Sov(Len(b));
  }

  method SizeOptBlob(tag: byte, b: Bytes) returns (n: nat)
    ensures n == |OptBlob(tag, b)|
  {
    n := 0;
    if |b| > 0 { n := SizeBlob(tag, b); }
  }
}
