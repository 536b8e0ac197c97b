/** The text of the keys: versions are told apart by their prefix, and one copy's
    chunks sort in the order they were written. */
module Keys {
  import opened Store

  const LATEST_KEY := "LATEST"
  const VERSION_KEY := "VERSION"
  const PENDING_KEY := "PENDING"
  const CHUNK_SUFFIX := "chunk"

  /** Crockford's base 32, in ascending character order. */
  const BASE32 := "0123456789ABCDEFGHJKMNPQRSTVWXYZ"
  const DIGITS := "0123456789"

  /** `%d` and `strconv.FormatUint(_, 10)`. */
  function Decimal(n: nat): (s: string)
    ensures |s| >= 1
  {
    if n < 10 then [DIGITS[n]] else Decimal(n / 10) + [DIGITS[n % 10]]
  }

  /** The last `width` base-32 digits of a number. */
  function Base32(n: nat, width: nat): (s: string)
    ensures |s| == width
    decreases width
  {
    if width == 0 then [] else Base32(n / 32, width - 1) + [BASE32[n % 32]]
  }

  function UlidText(ulid: nat): string {
    Base32(ulid, 26)
  }

  function VersionPrefix(version: nat): string {
    Decimal(version) + "/"
  }

  function ChunkText(id: ChunkId): string {
    Decimal(id.version) + "/" + UlidText(id.ulid) + "/" + CHUNK_SUFFIX
  }

  /** A key of the database. */
  datatype Key = LatestKey | PendingKey | VersionKey | ChunkKey(id: ChunkId)

  function Text(k: Key): string {
    match k
    case LatestKey => LATEST_KEY
    case PendingKey => PENDING_KEY
    case VersionKey => VERSION_KEY
    case ChunkKey(id) => ChunkText(id)
  }

  // ------------------------------------------------------- package bytes

  predicate HasPrefix(s: string, p: string) {
    p <= s
  }

  predicate HasSuffix(s: string, p: string) {
    |p| <= |s| && s[|s| - |p|..] == p
  }

  /** The pieces between the separators. */
  function Split(s: string, sep: char): (pieces: seq<string>)
    ensures |pieces| >= 1
  {
    if s == [] then [[]]
    else
      var rest := Split(s[1..], sep);
      if s[0] == sep then [[]] + rest else [[s[0]] + rest[0]] + rest[1..]
  }

  /** The order in which an iterator visits keys. */
  predicate Less(a: string, b: string) {
    if b == [] then false
    else if a == [] then true
    else a[0] < b[0] || (a[0] == b[0] && Less(a[1..], b[1..]))
  }

  /** Less is the lexicographic order: one text is a proper beginning of the other, or
      the first character in which they differ decides. */
  lemma {:induction false} LessIsLexicographic(a: string, b: string)
    ensures Less(a, b) <==> a < b || exists k ::
      0 <= k < |a| && k < |b| && a[..k] == b[..k] && a[k] < b[k]
  {
    if a != [] && b != [] && a[0] == b[0] {
      var p, q := a[1..], b[1..];
      LessIsLexicographic(p, q);
      assert a == [a[0]] + p && b == [b[0]] + q;
      forall k | 0 <= k < |p| && k < |q| && p[..k] == q[..k] && p[k] < q[k]
        ensures a[..k + 1] == b[..k + 1] && a[k + 1] < b[k + 1]
      {
        assert a[..k + 1] == [a[0]] + p[..k] && b[..k + 1] == [b[0]] + q[..k];
      }
      forall k | 0 <= k < |a| && k < |b| && a[..k] == b[..k] && a[k] < b[k]
        ensures k > 0 && p[..k - 1] == q[..k - 1] && p[k - 1] < q[k - 1]
      {
        assert p[..k - 1] == a[..k][1..] && q[..k - 1] == b[..k][1..];
      }
      assert a < b <==> p < q;
    } else if a != [] && b != [] {
      assert a[..0] == b[..0];
    }
  }

  // ------------------------------------------------------------- versions

  predicate IsNumeral(s: string) {
    forall c :: c in s ==> '0' <= c <= '9'
  }

  lemma {:induction false} DecimalIsNumeral(n: nat)
    ensures IsNumeral(Decimal(n))
  {
    if n >= 10 { DecimalIsNumeral(n / 10); }
  }

  lemma LastDigit(n: nat)
    ensures var s := Decimal(n);
      s[|s| - 1] == DIGITS[n % 10] && s[..|s| - 1] == if n < 10 then [] else Decimal(n / 10)
  {}

  lemma DigitsDiffer(i: nat, j: nat)
    requires i < 10 && j < 10 && DIGITS[i] == DIGITS[j]
    ensures i == j
  {}

  lemma {:induction false} DecimalInjective(a: nat, b: nat)
    requires Decimal(a) == Decimal(b)
    ensures a == b
  {
    hide Decimal;
    LastDigit(a);
    LastDigit(b);
    DigitsDiffer(a % 10, b % 10);
    if a >= 10 && b >= 10 { DecimalInjective(a / 10, b / 10); }
  }

  /** What a numeral stands for, digit by digit. */
  function NumeralValue(s: string): int {
    if s == [] then 0 else 10 * NumeralValue(s[..|s| - 1]) + (s[|s| - 1] as int - '0' as int)
  }

  /** `%d` writes the number in base ten, and no zero in front of it. */
  lemma {:induction false} DecimalIsTheNumber(n: nat)
    ensures NumeralValue(Decimal(n)) == n
    ensures Decimal(n)[0] == '0' ==> Decimal(n) == "0"
  {
    var s := Decimal(n);
    LastDigit(n);
    DigitIsItself(n % 10);
    if n >= 10 {
      DecimalIsTheNumber(n / 10);
      assert s[..|s| - 1][0] == s[0];
      if Decimal(n / 10) == "0" { DecimalInjective(n / 10, 0); }
    } else {
      assert s[..|s| - 1] == [];
    }
  }

  lemma DigitIsItself(i: nat)
    requires i < 10
    ensures DIGITS[i] as int == '0' as int + i
  {}

  /** What a base-32 text stands for. */
  function Base32Value(s: string): int {
    if s == [] then 0 else 32 * Base32Value(s[..|s| - 1]) + Index(BASE32, s[|s| - 1])
  }

  function Index(s: string, c: char): nat {
    if s == [] || s[0] == c then 0 else 1 + Index(s[1..], c)
  }

  /** A ULID's text is its number in 26 digits of Crockford's base 32. */
  lemma {:induction false} Base32IsTheNumber(n: nat, width: nat)
    requires n < Pow32(width)
    ensures Base32Value(Base32(n, width)) == n
    decreases width
  {
    if width > 0 {
      var s := Base32(n, width);
      assert s[..|s| - 1] == Base32(n / 32, width - 1) && s[|s| - 1] == BASE32[n % 32];
      Base32IsTheNumber(n / 32, width - 1);
      DigitIndex(n % 32);
    }
  }

  lemma DigitIndex(i: nat)
    requires i < 32
    ensures Index(BASE32, BASE32[i]) == i
  {
    IndexFrom(BASE32, i);
  }

  lemma {:induction false} IndexFrom(s: string, i: nat)
    requires i < |s| && forall j, k :: 0 <= j < k < |s| ==> s[j] != s[k]
    ensures Index(s, s[i]) == i
  {
    if i > 0 { IndexFrom(s[1..], i - 1); }
  }

  /** The layout of every key. */
  lemma KeyLayout(k: Key)
    ensures Text(k) == match k
      case LatestKey => "LATEST"
      case PendingKey => "PENDING"
      case VersionKey => "VERSION"
      case ChunkKey(id) => Decimal(id.version) + "/" + Base32(id.ulid, 26) + "/chunk"
  {
    hide Decimal, Base32;
    if k.ChunkKey? { assert "/" + CHUNK_SUFFIX == "/chunk"; }
  }

  lemma {:induction false} SplitAtFirst(a: string, b: string)
    requires '/' !in a
    ensures Split(a + "/" + b, '/')[0] == a
  {
    var s := a + "/" + b;
    if a == [] {
      assert s[0] == '/';
    } else {
      assert s[1..] == a[1..] + "/" + b;
      SplitAtFirst(a[1..], b);
    }
  }

  lemma ChunkTextParts(id: ChunkId)
    ensures ChunkText(id) == Decimal(id.version) + "/" + (UlidText(id.ulid) + "/" + CHUNK_SUFFIX)
    ensures '/' !in Decimal(id.version)
  {
    DecimalIsNumeral(id.version);
  }

  /** The first piece of a chunk key is the string that PENDING holds. */
  lemma FirstPieceIsVersion(id: ChunkId)
    ensures Split(ChunkText(id), '/')[0] == Decimal(id.version)
  {
    ChunkTextParts(id);
    SplitAtFirst(Decimal(id.version), UlidText(id.ulid) + "/" + CHUNK_SUFFIX);
  }

  /** A version's prefix selects the chunk keys of that version and no others. */
  lemma PrefixSelectsVersion(id: ChunkId, version: nat)
    ensures HasPrefix(ChunkText(id), VersionPrefix(version)) <==> id.version == version
  {
    hide Decimal, Split;
    ChunkTextParts(id);
    DecimalIsNumeral(version);
    var s, p := ChunkText(id), VersionPrefix(version);
    if HasPrefix(s, p) {
      assert s == Decimal(version) + "/" + s[|p|..];
      SplitAtFirst(Decimal(version), s[|p|..]);
      FirstPieceIsVersion(id);
      DecimalInjective(id.version, version);
    }
  }

  /** No control key looks like a chunk of any version. */
  lemma ControlKeysStandApart(k: Key, version: nat)
    requires !k.ChunkKey?
    ensures !HasPrefix(Text(k), VersionPrefix(version))
    ensures Split(Text(k), '/')[0] == Text(k)
  {
    DecimalIsNumeral(version);
    assert VersionPrefix(version)[0] == Decimal(version)[0];
    assert Decimal(version)[0] in Decimal(version);
    NoSeparator(Text(k));
  }

  lemma {:induction false} NoSeparator(s: string)
    ensures '/' !in s ==> Split(s, '/') == [s]
  {
    if s != [] && '/' !in s {
      NoSeparator(s[1..]);
      assert [s[0]] + s[1..] == s;
    }
  }

  lemma ChunkIsNoControl(id: ChunkId)
    ensures ChunkText(id) != LATEST_KEY && ChunkText(id) != VERSION_KEY && ChunkText(id) != PENDING_KEY
  {
    DecimalIsNumeral(id.version);
    assert ChunkText(id)[0] == Decimal(id.version)[0];
    assert Decimal(id.version)[0] in Decimal(id.version);
  }

  lemma ChunkHasSuffix(id: ChunkId)
    ensures HasSuffix(ChunkText(id), CHUNK_SUFFIX)
  {
    var s := ChunkText(id);
    assert s == (Decimal(id.version) + "/" + UlidText(id.ulid) + "/") + CHUNK_SUFFIX;
  }

  // ---------------------------------------------------------------- order

  lemma {:induction false} LessAfterSame(p: string, a: string, b: string)
    ensures Less(p + a, p + b) <==> Less(a, b)
  {
    if p == [] {
      assert p + a == a && p + b == b;
    } else {
      assert (p + a)[1..] == p[1..] + a && (p + b)[1..] == p[1..] + b;
      LessAfterSame(p[1..], a, b);
    }
  }

  lemma {:induction false} LessBeforeSame(a: string, b: string, q: string)
    requires |a| == |b| && a != b
    ensures Less(a + q, b + q) <==> Less(a, b)
  {
    assert a == [a[0]] + a[1..] && b == [b[0]] + b[1..];
    assert (a + q)[1..] == a[1..] + q && (b + q)[1..] == b[1..] + q;
    if a[0] == b[0] { LessBeforeSame(a[1..], b[1..], q); }
  }

  lemma {:induction false} LessSnoc(a: string, b: string, x: char, y: char)
    requires |a| == |b|
    ensures Less(a + [x], b + [y]) <==> (Less(a, b) || (a == b && x < y))
  {
    if a == [] {
      assert a + [x] == [x] && b + [y] == [y];
      assert [x][1..] == [] && [y][1..] == [];
    } else {
      assert (a + [x])[1..] == a[1..] + [x] && (b + [y])[1..] == b[1..] + [y];
      LessSnoc(a[1..], b[1..], x, y);
      assert a == [a[0]] + a[1..] && b == [b[0]] + b[1..];
    }
  }

  lemma Base32Ascends(i: nat, j: nat)
    requires i < 32 && j < 32
    ensures BASE32[i] < BASE32[j] <==> i < j
  {}

  lemma Pow32Step(width: nat)
    ensures Pow32(width + 1) == 32 * Pow32(width)
  {}

  function Pow32(width: nat): (p: nat)
    ensures p >= 1
  {
    if width == 0 then 1 else 32 * Pow32(width - 1)
  }

  /** Fixed-width numerals sort as their numbers. */
  lemma {:induction false} Base32Order(a: nat, b: nat, width: nat)
    requires a < Pow32(width) && b < Pow32(width)
    ensures Less(Base32(a, width), Base32(b, width)) <==> a < b
    ensures Base32(a, width) == Base32(b, width) <==> a == b
    decreases width
  {
    if width > 0 {
      var s, t := Base32(a / 32, width - 1), Base32(b / 32, width - 1);
      Base32Order(a / 32, b / 32, width - 1);
      LessSnoc(s, t, BASE32[a % 32], BASE32[b % 32]);
      Base32Ascends(a % 32, b % 32);
      Base32Ascends(b % 32, a % 32);
      assert (s + [BASE32[a % 32]])[..width - 1] == s && (t + [BASE32[b % 32]])[..width - 1] == t;
      assert (s + [BASE32[a % 32]])[width - 1] == BASE32[a % 32] && (t + [BASE32[b % 32]])[width - 1] == BASE32[b % 32];
    }
  }

  lemma UlidFits(ulid: nat)
    requires ulid < ULID_LIMIT
    ensures ulid < Pow32(26)
  {
    hide Pow32;
    Pow32Unit();
    Pow32Step(0); Pow32Step(1); Pow32Step(2); Pow32Step(3); Pow32Step(4); Pow32Step(5); Pow32Step(6);
    Pow32Step(7); Pow32Step(8); Pow32Step(9); Pow32Step(10); Pow32Step(11); Pow32Step(12); Pow32Step(13);
    Pow32Step(14); Pow32Step(15); Pow32Step(16); Pow32Step(17); Pow32Step(18); Pow32Step(19); Pow32Step(20);
    Pow32Step(21); Pow32Step(22); Pow32Step(23); Pow32Step(24); Pow32Step(25);
  }

  lemma Pow32Unit()
    ensures Pow32(0) == 1
  {}

  lemma {:induction false} SortInside(p: string, s: string, t: string, q: string)
    requires |s| == |t|
    ensures Less(p + (s + q), p + (t + q)) <==> Less(s, t)
    ensures p + (s + q) == p + (t + q) <==> s == t
  {
    hide Less;
    LessAfterSame(p, s + q, t + q);
    if s != t {
      LessBeforeSame(s, t, q);
      assert (p + (s + q))[|p|..|p| + |s|] == s && (p + (t + q))[|p|..|p| + |t|] == t;
    } else {
      NotLessItself(s + q);
      NotLessItself(s);
    }
  }

  /** One copy's chunk keys are visited in the order of their ULIDs, which is the
      order they were written in; different ULIDs give different keys. */
  lemma ChunksSortByUlid(version: nat, a: nat, b: nat)
    requires a < ULID_LIMIT && b < ULID_LIMIT
    ensures Less(ChunkText(ChunkId(version, a)), ChunkText(ChunkId(version, b))) <==> a < b
    ensures ChunkText(ChunkId(version, a)) == ChunkText(ChunkId(version, b)) <==> a == b
  {
    hide Decimal, Base32, Less, Pow32;
    UlidFits(a);
    UlidFits(b);
    Base32Order(a, b, 26);
    SortInside(VersionPrefix(version), UlidText(a), UlidText(b), "/" + CHUNK_SUFFIX);
    ChunkTextIs(version, a);
    ChunkTextIs(version, b);
  }

  lemma ChunkTextIs(version: nat, ulid: nat)
    ensures ChunkText(ChunkId(version, ulid)) == VersionPrefix(version) + (UlidText(ulid) + ("/" + CHUNK_SUFFIX))
  {
    hide Decimal, Base32;
  }

  lemma {:induction false} NotLessItself(s: string)
    ensures !Less(s, s)
  {
    if s != [] { NotLessItself(s[1..]); }
  }

  /** Different chunk keys have different texts. */
  lemma ChunkTextInjective(a: ChunkId, b: ChunkId)
    requires a.ulid < ULID_LIMIT && b.ulid < ULID_LIMIT && ChunkText(a) == ChunkText(b)
    ensures a == b
  {
    hide Decimal, Base32, Split;
    FirstPieceIsVersion(a);
    FirstPieceIsVersion(b);
    DecimalInjective(a.version, b.version);
    ChunksSortByUlid(a.version, a.ulid, b.ulid);
  }

  lemma {:induction false} LessTransitive(a: string, b: string, c: string)
    requires Less(a, b) && Less(b, c)
    ensures Less(a, c)
  {
    if a != [] && a[0] == b[0] == c[0] { LessTransitive(a[1..], b[1..], c[1..]); }
  }

  /** A seek to the prefix stops at or before the first key that has it. */
  lemma {:induction false} SeekFindsPrefix(p: string, s: string)
    requires HasPrefix(s, p)
    ensures !Less(s, p)
  {
    if p != [] {
      assert s[1..][..|p| - 1] == p[1..];
      SeekFindsPrefix(p[1..], s[1..]);
    }
  }

  lemma {:induction false} LessTotal(a: string, b: string)
    ensures a == b || Less(a, b) || Less(b, a)
  {
    if a != [] && b != [] && a[0] == b[0] {
      LessTotal(a[1..], b[1..]);
      assert a == [a[0]] + a[1..] && b == [b[0]] + b[1..];
    }
  }

  /** Different keys have different texts. */
  lemma KeyTextInjective(j: Key, k: Key)
    requires Text(j) == Text(k)
    requires (j.ChunkKey? ==> j.id.ulid < ULID_LIMIT) && (k.ChunkKey? ==> k.id.ulid < ULID_LIMIT)
    ensures j == k
  {
    hide ChunkText;
    if j.ChunkKey? { ChunkIsNoControl(j.id); }
    if k.ChunkKey? { ChunkIsNoControl(k.id); }
    if j.ChunkKey? && k.ChunkKey? { ChunkTextInjective(j.id, k.id); }
  }
}
