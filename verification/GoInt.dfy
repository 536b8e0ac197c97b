/** Go's fixed-width integers and byte slices, as mathematical integers with
    the wrap-around written out. */
module GoInt {
  const TWO_31: int := 0x8000_0000
  const TWO_32: int := 0x1_0000_0000
  const TWO_63: int := 0x8000_0000_0000_0000
  const TWO_64: int := 0x1_0000_0000_0000_0000
  const MAX_INT: int := 0x7FFF_FFFF_FFFF_FFFF

  type byte = x: int | 0 <= x < 256
  type u64 = x: int | 0 <= x < 0x1_0000_0000_0000_0000
  type i64 = x: int | -0x8000_0000_0000_0000 <= x < 0x8000_0000_0000_0000
  type i32 = x: int | -0x8000_0000 <= x < 0x8000_0000
  type Bytes = seq<byte>

  /** A slice never holds more than MAX_INT bytes: `len` is an `int`. */
  predicate IsSlice(d: Bytes) {
    |d| <= MAX_INT
  }

  /** The conversion `int(x)` (also `int64(x)`) of a `uint64`. */
  function ToInt64(x: u64): i64 {
    if x < TWO_63 then x else x - TWO_64
  }

  /** The conversion `uint64(x)` of an `int64` (or of a sign-extended `int32`). */
  function ToUint64(x: i64): u64 {
    if x < 0 then x + TWO_64 else x
  }

  /** The conversion `int32(x)` of a `uint64`: the low 32 bits, signed. */
  function ToInt32(x: u64): i32 {
    var low := x % TWO_32;
    if low < TWO_31 then low else low - TWO_32
  }

  /** The sum of two `int` values, wrapped to 64 bits. */
  function AddInt(a: i64, b: i64): i64 {
    ToInt64((a + b) % TWO_64)
  }

  function Pow2(n: nat): (p: nat)
    ensures p >= 1
  {
    if n == 0 then 1 else 2 * Pow2(n - 1)
  }

  /** Bitwise inclusive or of two non-negative integers. */
  function Or(a: nat, b: nat): nat
    decreases a + b
  {
    if a == 0 && b == 0 then 0
    else 2 * Or(a / 2, b / 2) + (if a % 2 == 1 || b % 2 == 1 then 1 else 0)
  }

  lemma {:induction false} OrZero(b: nat)
    ensures Or(0, b) == b
  {
    if b > 0 { OrZero(b / 2); }
  }

  /** On disjoint bits an inclusive or is a sum. */
  lemma {:induction false} OrOfDisjointIsSum(a: nat, g: nat, s: nat)
    requires a < Pow2(s)
    ensures Or(a, g * Pow2(s)) == a + g * Pow2(s)
    decreases s
  {
    if s == 0 {
      OrZero(g);
    } else {
      var p := Pow2(s - 1);
      assert g * Pow2(s) == 2 * (g * p);
      OrOfDisjointIsSum(a / 2, g, s - 1);
      assert a == 2 * (a / 2) + a % 2;
      assert (2 * (g * p)) / 2 == g * p;
    }
  }

  /** `copy(dst[at:], src)` where there is room for all of src. */
  method CopyTo(dst: array<byte>, at: nat, src: Bytes)
    requires at + |src| <= dst.Length
    modifies dst
    ensures dst[..at + |src|] == old(dst[..at]) + src
    ensures dst[at + |src|..] == old(dst[at + |src|..])
  {
    forall k | 0 <= k < |src| { dst[at + k] := src[k]; }
  }
}
