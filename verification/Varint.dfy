/** Base-128 varints: the encoder that fills a buffer backwards, its closed-form
    size, and the decoding loop that every generated decoder repeats inline. */
module Varint {
  import opened GoInt

  datatype Error =
    | IntOverflow
    | UnexpectedEOF
    | InvalidLength
    | UnexpectedEndOfGroup
    | EndGroupForNonGroup
    | IllegalTag
    | WrongWireType
    | IllegalWireType
    | NilMessage

  // ---------------------------------------------------------------- encoding

  /** The wire form of v: seven bits a byte, least significant first, the high
      bit set on all but the last. */
  function EncodeVarint(v: u64): (s: Bytes)
    ensures |s| >= 1
  {
    if v < 128 then [v] else [v % 128 + 128] + EncodeVarint(v / 128)
  }

  /** `bits.Len64`. */
  function Len64(x: nat): nat {
    if x == 0 then 0 else 1 + Len64(x / 2)
  }

  /** The closed form the generated code uses for the size of a varint. */
  function Sov(x: u64): nat {
    (Len64(Or(x, 1)) + 6) / 7
  }

  lemma OrOne(x: nat)
    ensures Or(x, 1) == if x % 2 == 1 then x else x + 1
  {
    OrZero(x / 2);
    OrComm(x / 2, 0);
    assert Or(x, 1) == 2 * Or(x / 2, 0) + 1;
  }

  lemma {:induction false} OrComm(a: nat, b: nat)
    ensures Or(a, b) == Or(b, a)
    decreases a + b
  {
    if a + b > 0 { OrComm(a / 2, b / 2); }
  }

  lemma Len64Shift7(x: nat)
    requires x >= 128
    ensures Len64(x) == 7 + Len64(x / 128)
  {
    var a := x / 2; var b := a / 2; var c := b / 2; var d := c / 2; var e := d / 2; var f := e / 2;
    assert Len64(x) == 1 + Len64(a);
    assert Len64(a) == 1 + Len64(b);
    assert Len64(b) == 1 + Len64(c);
    assert Len64(c) == 1 + Len64(d);
    assert Len64(d) == 1 + Len64(e);
    assert Len64(e) == 1 + Len64(f);
    assert Len64(f) == 1 + Len64(f / 2);
    assert f / 2 == x / 128;
  }

  lemma {:induction false} Len64Small(x: nat)
    requires 1 <= x < 128
    ensures 1 <= Len64(x) <= 7
  {
    Len64Bound(x, 7);
  }

  lemma {:induction false} Len64Bound(x: nat, n: nat)
    requires x < Pow2(n)
    ensures Len64(x) <= n
  {
    if x > 0 { Len64Bound(x / 2, n - 1); }
  }

  lemma Len64Odd(x: nat)
    requires x >= 1
    ensures Len64(Or(x, 1)) == Len64(x)
  {
    OrOne(x);
    assert x / 2 == Or(x, 1) / 2;
  }

  lemma SovStep(v: u64)
    requires v >= 128
    ensures Sov(v) == 1 + Sov(v / 128)
  {
    Len64Odd(v);
    Len64Odd(v / 128);
    Len64Shift7(v);
  }

  /** The closed form is the number of bytes the encoding loop writes. */
  lemma {:induction false} SovIsEncodedLength(v: u64)
    ensures Sov(v) == |EncodeVarint(v)|
  {
    if v < 128 {
      OrOne(v);
      assert Pow2(7) == 128;
      Len64Small(Or(v, 1));
    } else {
      SovStep(v);
      SovIsEncodedLength(v / 128);
    }
  }

  /** No 64-bit value needs more than ten bytes. */
  lemma {:induction false} EncodedLengthBound(v: u64, n: nat)
    requires v < Pow2(7 * n) && n >= 1
    ensures |EncodeVarint(v)| <= n
  {
    if v >= 128 {
      assert Pow2(7 * 1) == 128;
      Pow2Step(7 * (n - 1));
      assert 7 * n == 7 * (n - 1) + 7;
      EncodedLengthBound(v / 128, n - 1);
    }
  }

  lemma Pow2Step(s: nat)
    ensures Pow2(s + 7) == 128 * Pow2(s)
  {
    assert Pow2(s + 7) == 2 * Pow2(s + 6);
    assert Pow2(s + 6) == 2 * Pow2(s + 5);
    assert Pow2(s + 5) == 2 * Pow2(s + 4);
    assert Pow2(s + 4) == 2 * Pow2(s + 3);
    assert Pow2(s + 3) == 2 * Pow2(s + 2);
    assert Pow2(s + 2) == 2 * Pow2(s + 1);
  }

  lemma VarintAtMostTenBytes(v: u64)
    ensures 1 <= |EncodeVarint(v)| <= 10
  {
    assert Pow2(70) >= TWO_64 by { Pow2Values(); }
    EncodedLengthBound(v, 10);
  }

  lemma Pow2Unit()
    ensures Pow2(0) == 1
  {}

  lemma Pow2Double(s: nat)
    ensures Pow2(s + 1) == 2 * Pow2(s)
  {}

  lemma Pow2Values()
    ensures Pow2(63) == TWO_63 && Pow2(64) == TWO_64 && Pow2(70) == 64 * TWO_64
  {
    hide Pow2;
    Pow2Unit();
    Pow2Step(0); Pow2Step(7); Pow2Step(14); Pow2Step(21); Pow2Step(28);
    Pow2Step(35); Pow2Step(42); Pow2Step(49); Pow2Step(56);
    Pow2Double(63);
    Pow2Step(63);
  }

  /** Writes v so that it ends just before `offset` and returns its first
      index; nothing else in the buffer moves. */
  method PutVarint(dAtA: array<byte>, offset: nat, v: u64) returns (base: nat)
    requires Sov(v) <= offset <= dAtA.Length
    modifies dAtA
    ensures base == offset - |EncodeVarint(v)|
    ensures dAtA[..] == old(dAtA[..base]) + EncodeVarint(v) + old(dAtA[offset..])
  {
    hide Sov;
    SovIsEncodedLength(v);
    base := offset - Sov(v);
    var i := base;
    var rest := v;
    ghost var done: Bytes := [];
    while rest >= 128
      invariant base <= i < offset
      invariant |done| == i - base && i + |EncodeVarint(rest)| == offset
      invariant done + EncodeVarint(rest) == EncodeVarint(v)
      invariant forall k :: base <= k < i ==> dAtA[k] == done[k - base]
      invariant forall k :: 0 <= k < dAtA.Length && !(base <= k < i) ==> dAtA[k] == old(dAtA[k])
      decreases rest
    {
      var b: byte := rest % 128 + 128;
      Snoc(done, b, EncodeVarint(rest / 128));
      dAtA[i] := b;
      done := done + [b];
      rest := rest / 128;
      i := i + 1;
    }
    dAtA[i] := rest;
    assert done + [rest] == EncodeVarint(v);
  }

  lemma Snoc(done: Bytes, b: byte, rest: Bytes)
    ensures done + ([b] + rest) == (done + [b]) + rest
  {}

  // ---------------------------------------------------------------- decoding

  datatype Number = Value(v: u64, next: nat) | BadNumber(err: Error)

  /** The groups of a varint that starts at i, not yet cut to 64 bits: at most
      `left` bytes may be read. */
  datatype Groups = Sum(total: nat, next: nat) | BadGroups(err: Error)

  function ReadGroups(d: Bytes, i: nat, left: nat): (r: Groups)
    ensures r.Sum? ==> i < r.next <= |d| && r.next <= i + left
    decreases if i < |d| then |d| - i else 0
  {
    if left == 0 then BadGroups(IntOverflow)
    else if i >= |d| then BadGroups(UnexpectedEOF)
    else if d[i] < 128 then Sum(d[i], i + 1)
    else
      match ReadGroups(d, i + 1, left - 1)
      case Sum(total, next) => Sum(d[i] - 128 + 128 * total, next)
      case BadGroups(e) => BadGroups(e)
  }

  /** The value of the varint at i: groups past bit 63 are lost. */
  function ReadVarint(d: Bytes, i: nat): (r: Number)
    ensures r.Value? ==> i < r.next <= |d|
  {
    match ReadGroups(d, i, 10)
    case Sum(total, next) => Value(total % TWO_64, next)
    case BadGroups(e) => BadNumber(e)
  }

  lemma {:induction false} ReadGroupsOfEncoded(pre: Bytes, v: u64, post: Bytes, left: nat)
    requires |EncodeVarint(v)| <= left
    ensures ReadGroups(pre + EncodeVarint(v) + post, |pre|, left)
         == Sum(v, |pre| + |EncodeVarint(v)|)
    decreases v
  {
    var d := pre + EncodeVarint(v) + post;
    assert d[|pre|] == EncodeVarint(v)[0];
    if v >= 128 {
      var pre' := pre + [v % 128 + 128];
      assert d == pre' + EncodeVarint(v / 128) + post;
      ReadGroupsOfEncoded(pre', v / 128, post, left - 1);
    }
  }

  /** Decoding undoes encoding, wherever the varint stands in the buffer. */
  lemma VarintRoundTrip(pre: Bytes, v: u64, post: Bytes)
    ensures ReadVarint(pre + EncodeVarint(v) + post, |pre|) == Value(v, |pre| + Sov(v))
  {
    hide Sov, ReadGroups, EncodeVarint;
    VarintAtMostTenBytes(v);
    SovIsEncodedLength(v);
    ReadGroupsOfEncoded(pre, v, post, 10);
  }

  /** Bytes behind a complete varint do not matter. */
  lemma {:induction false} ReadGroupsExtend(a: Bytes, b: Bytes, i: nat, left: nat)
    requires ReadGroups(a, i, left).Sum?
    ensures ReadGroups(a + b, i, left) == ReadGroups(a, i, left)
    decreases left
  {
    if a[i] >= 128 { ReadGroupsExtend(a, b, i + 1, left - 1); }
  }

  function ShiftGroups(r: Groups, k: nat): Groups {
    match r
    case Sum(total, next) => Sum(total, next + k)
    case BadGroups(e) => BadGroups(e)
  }

  /** Bytes in front of a varint only move it. */
  lemma {:induction false} ReadGroupsShift(a: Bytes, b: Bytes, j: nat, left: nat)
    ensures ReadGroups(a + b, |a| + j, left) == ShiftGroups(ReadGroups(b, j, left), |a|)
    decreases left
  {
    if left > 0 && j < |b| && b[j] >= 128 { ReadGroupsShift(a, b, j + 1, left - 1); }
  }

  lemma ReadVarintExtend(a: Bytes, b: Bytes, i: nat)
    requires ReadVarint(a, i).Value?
    ensures ReadVarint(a + b, i) == ReadVarint(a, i)
  {
    ReadGroupsExtend(a, b, i, 10);
  }

  function ShiftNumber(r: Number, k: nat): Number {
    match r
    case Value(v, next) => Value(v, next + k)
    case BadNumber(e) => BadNumber(e)
  }

  lemma ReadVarintShift(a: Bytes, b: Bytes, j: nat)
    ensures ReadVarint(a + b, |a| + j) == ShiftNumber(ReadVarint(b, j), |a|)
  {
    ReadGroupsShift(a, b, j, 10);
  }

  /** `g << shift` in a `uint64`. */
  function Shl64(g: nat, shift: nat): u64 {
    (g * Pow2(shift)) % TWO_64
  }

  /** One turn of the loop: or-ing in the next group adds it, modulo 2^64. */
  lemma OrGroup(acc: u64, g: nat, shift: nat)
    requires shift < 64 && acc < Pow2(shift) && g < 128
    ensures Or(acc, Shl64(g, shift)) == (acc + g * Pow2(shift)) % TWO_64
    ensures Or(acc, Shl64(g, shift)) < Pow2(shift + 7)
  {
    var k, kept := KeptBits(g, shift);
    OrOfDisjointIsSum(acc, kept, shift);
    NoCarry(acc, kept, Pow2(shift), Pow2(64 - shift));
    AddMultiple(acc + kept * Pow2(shift), k);
    Pow2Step(shift);
    NoCarry(acc, kept, Pow2(shift), 128);
  }

  /** The bits of a group that a left shift keeps. */
  lemma KeptBits(g: nat, shift: nat) returns (k: nat, kept: nat)
    requires shift < 64
    ensures Pow2(shift) * Pow2(64 - shift) == TWO_64
    ensures kept <= g && kept < Pow2(64 - shift)
    ensures g * Pow2(shift) == kept * Pow2(shift) + k * TWO_64
    ensures Shl64(g, shift) == kept * Pow2(shift)
  {
    var p, q := Pow2(shift), Pow2(64 - shift);
    Pow2Sum(shift, 64 - shift);
    Pow2Values();
    k, kept := Split(g, q);
    Distribute(k, q, kept, p);
    ModScale(g, p, q);
  }

  lemma Split(g: nat, q: nat) returns (k: nat, r: nat)
    requires q > 0
    ensures r == g % q && r < q && r <= g && g == k * q + r
  {
    k, r := g / q, g % q;
    assert k * q >= 0;
  }

  lemma NoCarry(acc: nat, g: nat, p: nat, q: nat)
    requires acc < p && g < q
    ensures acc + g * p < p * q
  {
    MulMono(g + 1, q, p);
    assert (g + 1) * p == g * p + p;
  }

  lemma Distribute(k: nat, q: nat, r: nat, p: nat)
    ensures (k * q + r) * p == k * (p * q) + r * p
  {
    assert (k * q + r) * p == (k * q) * p + r * p;
    assert (k * q) * p == k * (q * p);
  }

  lemma AddMultiple(x: nat, k: nat)
    requires x < TWO_64
    ensures (x + k * TWO_64) % TWO_64 == x
  {}

  lemma MulMono(a: nat, b: nat, p: nat)
    requires a <= b
    ensures a * p <= b * p
  {}

  lemma {:induction false} Pow2Sum(a: nat, b: nat)
    ensures Pow2(a + b) == Pow2(a) * Pow2(b)
  {
    if a > 0 {
      Pow2Sum(a - 1, b);
      assert Pow2(a + b) == 2 * Pow2(a - 1 + b);
      assert 2 * (Pow2(a - 1) * Pow2(b)) == (2 * Pow2(a - 1)) * Pow2(b);
    }
  }

  lemma ModScale(g: nat, p: nat, q: nat)
    requires p > 0 && q > 0 && p * q > 0
    ensures (g * p) % (p * q) == (g % q) * p
  {
    var k, r := g / q, g % q;
    assert g == k * q + r;
    Distribute(k, q, r, p);
    MulMono(r + 1, q, p);
    assert (r + 1) * p == r * p + p;
    assert r * p < p * q;
    DivUnique(g * p, p * q, k, r * p);
  }

  lemma DivUnique(x: nat, m: nat, k: nat, r: nat)
    requires m > 0 && x == k * m + r && r < m
    ensures x % m == r
  {
    var k', r' := x / m, x % m;
    assert x == m * k' + r' && 0 <= r' < m;
    if k' < k {
      MulMono(k' + 1, k, m);
    } else if k < k' {
      MulMono(k + 1, k', m);
    }
  }

  /** The decoding loop. */
  method ParseVarint(d: Bytes, start: nat) returns (r: Number)
    ensures r == ReadVarint(d, start)
  {
    var wire: u64 := 0;
    var i: nat := start;
    var shift: nat := 0;
    ghost var left: nat := 10;
    ghost var sum: nat := 0;
    while true
      invariant left <= 10 && shift == 70 - 7 * left
      invariant wire < Pow2(shift)
      invariant wire == sum % TWO_64
      invariant ReadGroups(d, start, 10) == Scaled(ReadGroups(d, i, left), sum, Pow2(shift))
      decreases left
    {
      if shift >= 64 { return BadNumber(IntOverflow); }
      if i >= |d| { return BadNumber(UnexpectedEOF); }
      var b := d[i];
      ghost var sum' := LoopStep(d, i, left, sum, wire, shift);
      i := i + 1;
      wire := Or(wire, Shl64(b % 128, shift));
      sum := sum';
      if b < 128 { return Value(wire, i); }
      shift := shift + 7;
      left := left - 1;
    }
  }

  lemma LoopStep(d: Bytes, i: nat, left: nat, sum: nat, wire: u64, shift: nat) returns (sum': nat)
    requires i < |d| && 0 < left <= 10 && shift == 70 - 7 * left && shift < 64
    requires wire < Pow2(shift) && wire == sum % TWO_64
    ensures Or(wire, Shl64(d[i] % 128, shift)) < TWO_64
    ensures Or(wire, Shl64(d[i] % 128, shift)) == sum' % TWO_64
    ensures Or(wire, Shl64(d[i] % 128, shift)) < Pow2(shift + 7)
    ensures Scaled(ReadGroups(d, i, left), sum, Pow2(shift))
         == if d[i] < 128 then Sum(sum', i + 1)
            else Scaled(ReadGroups(d, i + 1, left - 1), sum', Pow2(shift + 7))
  {
    sum' := OrStep(sum, wire, d[i] % 128, shift);
    GroupsStep(d, i, left, sum, shift);
  }

  lemma GroupsStep(d: Bytes, i: nat, left: nat, sum: nat, shift: nat)
    requires i < |d| && 0 < left
    ensures var sum' := sum + (d[i] % 128) * Pow2(shift);
      Scaled(ReadGroups(d, i, left), sum, Pow2(shift))
      == if d[i] < 128 then Sum(sum', i + 1)
         else Scaled(ReadGroups(d, i + 1, left - 1), sum', Pow2(shift + 7))
  {
    if d[i] >= 128 { ScaleStep(ReadGroups(d, i + 1, left - 1), sum, d[i] - 128, shift); }
  }

  lemma OrStep(sum: nat, wire: u64, g: nat, shift: nat) returns (sum': nat)
    requires shift < 64 && g < 128 && wire < Pow2(shift) && wire == sum % TWO_64
    ensures sum' == sum + g * Pow2(shift)
    ensures Or(wire, Shl64(g, shift)) == sum' % TWO_64 < TWO_64
    ensures Or(wire, Shl64(g, shift)) < Pow2(shift + 7)
  {
    OrGroup(wire, g, shift);
    AddMod(sum, g * Pow2(shift));
    sum' := sum + g * Pow2(shift);
  }

  lemma AddMod(s: nat, x: nat)
    ensures (s % TWO_64 + x) % TWO_64 == (s + x) % TWO_64
  {}

  ghost function Scaled(r: Groups, sum: nat, p: nat): Groups {
    match r
    case Sum(total, next) => Sum(sum + total * p, next)
    case BadGroups(e) => BadGroups(e)
  }

  lemma ScaleStep(r: Groups, sum: nat, g: nat, shift: nat)
    ensures r.Sum? ==>
      Scaled(Sum(g + 128 * r.total, r.next), sum, Pow2(shift))
      == Scaled(r, sum + g * Pow2(shift), Pow2(shift + 7))
  {
    if r.Sum? {
      var p := Pow2(shift);
      Pow2Step(shift);
      assert (g + 128 * r.total) * p == g * p + (128 * r.total) * p;
      assert (128 * r.total) * p == r.total * (128 * p);
    }
  }
}
