/** What `skip` accepts: exactly one complete field, groups properly nested. */
module Groups {
  import opened GoInt
  import opened Varint
  import opened Wire

  /** A field as a tree of the very bytes it is written with. */
  datatype Field =
    | Scalar(tag: Bytes, payload: Bytes)
    | Group(open: Bytes, body: seq<Field>, close: Bytes)

  function Flatten(f: Field): Bytes {
    match f
    case Scalar(tag, payload) => tag + payload
    case Group(open, body, close) => open + FlattenAll(body) + close
  }

  function FlattenAll(fs: seq<Field>): Bytes {
    if fs == [] then [] else Flatten(fs[0]) + FlattenAll(fs[1..])
  }

  /** The bytes are one varint whose low three bits are the wire type. */
  predicate IsTag(t: Bytes, wireType: int) {
    ReadVarint(t, 0).Value? && ReadVarint(t, 0).next == |t| && ReadVarint(t, 0).v % 8 == wireType
  }

  predicate IsPayload(wireType: int, p: Bytes) {
    match wireType
    case 0 => ReadVarint(p, 0).Value? && ReadVarint(p, 0).next == |p|
    case 1 => |p| == 8
    case 2 =>
      var len := ReadVarint(p, 0);
      len.Value? && len.v <= MAX_INT && len.next + len.v == |p|
    case 5 => |p| == 4
    case _ => false
  }

  predicate Valid(f: Field) {
    match f
    case Scalar(tag, payload) => exists w :: 0 <= w < 8 && IsTag(tag, w) && IsPayload(w, payload)
    case Group(open, body, close) => IsTag(open, 3) && IsTag(close, 4) && forall g :: g in body ==> Valid(g)
  }

  // ------------------------------------------------- skip accepts every field

  lemma TagInside(a: Bytes, t: Bytes, b: Bytes)
    requires ReadVarint(t, 0).Value? && ReadVarint(t, 0).next == |t|
    ensures ReadVarint(a + t + b, |a|) == Value(ReadVarint(t, 0).v, |a| + |t|)
  {
    hide ReadVarint;
    ReadVarintExtend(t, b, 0);
    ReadVarintShift(a, t + b, 0);
    assert a + t + b == a + (t + b);
  }

  lemma PayloadInside(a: Bytes, w: int, p: Bytes, b: Bytes, depth: nat)
    requires IsPayload(w, p) && |a + p + b| <= MAX_INT
    ensures ReadPayload(a + p + b, w, |a|, depth) == Landing(|a| + |p|, depth)
  {
    hide ReadVarint;
    if w == 0 || w == 2 {
      ReadVarintExtend(p, b, 0);
      ReadVarintShift(a, p + b, 0);
      assert a + p + b == a + (p + b);
    }
  }

  /** What skip does once a field is behind it. */
  function Behind(d: Slice, end: nat, depth: nat): Skip {
    if depth == 0 then Skipped(end) else SkipFrom(d, end, depth)
  }

  lemma SkipsTag(a: Bytes, t: Bytes, w: int, b: Bytes, depth: nat)
    requires IsTag(t, w) && |a + t + b| <= MAX_INT
    ensures SkipFrom(a + t + b, |a|, depth) ==
      (match ReadPayload(a + t + b, w, |a| + |t|, depth)
       case BadLanding(e) => BadSkip(e)
       case Landing(k, depth') => Behind(a + t + b, k, depth'))
  {
    hide ReadVarint, ReadPayload;
    TagInside(a, t, b);
  }

  lemma {:induction false} SkipsField(a: Bytes, f: Field, b: Bytes, depth: nat)
    requires Valid(f) && |a + Flatten(f) + b| <= MAX_INT
    ensures SkipFrom(a + Flatten(f) + b, |a|, depth) == Behind(a + Flatten(f) + b, |a| + |Flatten(f)|, depth)
    decreases f
  {
    hide ReadVarint, ReadPayload, SkipFrom;
    var d := a + Flatten(f) + b;
    match f {
      case Scalar(tag, payload) =>
        var w :| 0 <= w < 8 && IsTag(tag, w) && IsPayload(w, payload);
        assert d == a + tag + (payload + b) == a + tag + payload + b;
        SkipsTag(a, tag, w, payload + b, depth);
        PayloadInside(a + tag, w, payload, b, depth);
      case Group(open, body, close) =>
        var inner := FlattenAll(body);
        assert d == a + open + (inner + close + b) == a + open + inner + (close + b) == a + open + inner + close + b;
        SkipsTag(a, open, 3, inner + close + b, depth);
        OpenGroup(d, |a| + |open|, depth);
        SkipsFields(a + open, body, close + b, depth + 1);
        SkipsTag(a + open + inner, close, 4, b, depth + 1);
        CloseGroup(d, |a + open + inner| + |close|, depth);
    }
  }

  lemma OpenGroup(d: Slice, j: nat, depth: nat)
    requires j <= |d|
    ensures ReadPayload(d, 3, j, depth) == Landing(j, depth + 1)
  {}

  lemma CloseGroup(d: Slice, j: nat, depth: nat)
    requires j <= |d|
    ensures ReadPayload(d, 4, j, depth + 1) == Landing(j, depth)
  {}

  lemma {:induction false} SkipsFields(a: Bytes, fs: seq<Field>, b: Bytes, depth: nat)
    requires (forall g :: g in fs ==> Valid(g)) && depth > 0 && |a + FlattenAll(fs) + b| <= MAX_INT
    ensures var d := a + FlattenAll(fs) + b;
      SkipFrom(d, |a|, depth) == SkipFrom(d, |a| + |FlattenAll(fs)|, depth)
    decreases fs
  {
    hide SkipFrom;
    if fs != [] {
      var f, rest := Flatten(fs[0]), FlattenAll(fs[1..]);
      assert a + FlattenAll(fs) + b == a + f + (rest + b) == a + f + rest + b;
      SkipsField(a, fs[0], rest + b, depth);
      SkipsFields(a + f, fs[1..], b, depth);
    }
  }

  /** Skip goes over any valid field, and stops right behind it. */
  lemma SkipAcceptsFields(f: Field, b: Bytes)
    requires Valid(f) && |Flatten(f) + b| <= MAX_INT
    ensures SkipFrom(Flatten(f) + b, 0, 0) == Skipped(|Flatten(f)|)
  {
    hide SkipFrom;
    SkipsField([], f, b, 0);
    assert [] + Flatten(f) + b == Flatten(f) + b;
  }

  // ------------------------------------------- skip accepts nothing but fields

  /** The rest of a group: fields, then its end tag. */
  datatype Rest = Rest(fields: seq<Field>, close: Bytes)

  function FlattenRests(rs: seq<Rest>): Bytes {
    if rs == [] then [] else FlattenAll(rs[0].fields) + rs[0].close + FlattenRests(rs[1..])
  }

  predicate ValidRest(r: Rest) {
    IsTag(r.close, 4) && forall g :: g in r.fields ==> Valid(g)
  }

  lemma TagOf(d: Slice, i: nat)
    requires ReadVarint(d, i).Value?
    ensures IsTag(d[i..ReadVarint(d, i).next], ReadVarint(d, i).v % 8)
  {
    Alone(d, i);
  }

  lemma Alone(d: Slice, i: nat)
    requires ReadVarint(d, i).Value?
    ensures var r := ReadVarint(d, i); ReadVarint(d[i..r.next], 0) == Value(r.v, r.next - i)
  {
    var next := ReadVarint(d, i).next;
    var t, tail := d[i..next], d[next..];
    assert d == d[..i] + (t + tail);
    ReadGroupsShift(d[..i], t + tail, 0, 10);
    ReadGroupsTruncate(t, tail, 0, 10);
  }

  lemma PayloadOf(d: Slice, w: int, j: nat, depth: nat)
    requires 0 <= w < 8 && w != 3 && w != 4 && j <= |d|
    requires ReadPayload(d, w, j, depth).Landing? && ReadPayload(d, w, j, depth).end <= |d|
    ensures IsPayload(w, d[j..ReadPayload(d, w, j, depth).end])
    ensures ReadPayload(d, w, j, depth).depth == depth
  {
    var end := ReadPayload(d, w, j, depth).end;
    if w == 0 {
      Alone(d, j);
    } else if w == 2 {
      Alone(d, j);
      var len := ReadVarint(d, j);
      var p := d[j..end];
      assert p[..len.next - j] == d[j..len.next];
      assert p == d[j..len.next] + d[len.next..end];
      ReadVarintExtend(d[j..len.next], d[len.next..end], 0);
    }
  }

  /** One tag and its payload, as skip goes over them. */
  lemma SkipStep(d: Slice, i: nat, depth: nat) returns (j: nat, w: int, p: Landing)
    requires SkipFrom(d, i, depth).Skipped? && SkipFrom(d, i, depth).n <= |d|
    ensures i < j <= |d| && 0 <= w < 8 && IsTag(d[i..j], w)
    ensures p == ReadPayload(d, w, j, depth) && p.Landing? && j <= p.end <= SkipFrom(d, i, depth).n
    ensures SkipFrom(d, i, depth) == Behind(d, p.end, p.depth)
  {
    hide ReadVarint, ReadPayload;
    var tag := ReadVarint(d, i);
    j, w := tag.next, tag.v % 8;
    p := ReadPayload(d, w, j, depth);
    TagOf(d, i);
    SkipEndsBehind(d, p.end, p.depth);
  }

  lemma {:induction false} RestsOf(d: Slice, i: nat, depth: nat) returns (rs: seq<Rest>)
    requires depth > 0 && SkipFrom(d, i, depth).Skipped? && SkipFrom(d, i, depth).n <= |d|
    ensures |rs| == depth && (forall r :: r in rs ==> ValidRest(r))
    ensures FlattenRests(rs) == d[i..SkipFrom(d, i, depth).n]
    decreases if i < |d| then |d| - i else 0
  {
    hide ReadVarint, ReadPayload, SkipFrom, FlattenRests, Valid, IsTag, Flatten, FlattenAll;
    var n := SkipFrom(d, i, depth).n;
    var j, w, p := SkipStep(d, i, depth);
    var t := d[i..j];
    if w == 3 {
      OpenGroup(d, j, depth);
      var inner := RestsOf(d, j, depth + 1);
      var g := CloseUp(t, inner);
      rs := Prepend(g, inner[1..]);
      Glue(d, i, j, n);
    } else if w == 4 {
      CloseGroup(d, j, depth - 1);
      var outer: seq<Rest> := [];
      NoRests();
      if depth > 1 { outer := RestsOf(d, j, depth - 1); }
      rs := [Rest([], t)] + outer;
      FirstRest(t, outer);
      Glue(d, i, j, n);
    } else {
      PayloadOf(d, w, j, depth);
      var f := Scalar(t, d[j..p.end]);
      ScalarIsValid(t, w, f.payload);
      var later := RestsOf(d, p.end, depth);
      rs := Prepend(f, later);
      Glue(d, i, j, p.end);
      Glue(d, i, p.end, n);
    }
  }

  lemma NoRests()
    ensures FlattenRests([]) == []
  {}

  lemma FirstRest(t: Bytes, outer: seq<Rest>)
    requires IsTag(t, 4)
    ensures ValidRest(Rest([], t)) && FlattenRests([Rest([], t)] + outer) == t + FlattenRests(outer)
  {
    var rs := [Rest([], t)] + outer;
    assert rs[1..] == outer;
    assert FlattenRests(rs) == [] + t + FlattenRests(outer);
  }

  lemma ScalarIsValid(t: Bytes, w: int, p: Bytes)
    requires 0 <= w < 8 && IsTag(t, w) && IsPayload(w, p)
    ensures Valid(Scalar(t, p)) && Flatten(Scalar(t, p)) == t + p
  {}

  /** A start tag in front of the rest of its group. */
  lemma CloseUp(t: Bytes, inner: seq<Rest>) returns (g: Field)
    requires IsTag(t, 3) && inner != [] && ValidRest(inner[0])
    ensures g == Group(t, inner[0].fields, inner[0].close) && Valid(g)
    ensures t + FlattenRests(inner) == Flatten(g) + FlattenRests(inner[1..])
  {
    hide IsTag;
    var r := inner[0];
    g := Group(t, r.fields, r.close);
    var x, z := FlattenAll(r.fields), FlattenRests(inner[1..]);
    assert t + (x + r.close + z) == (t + x + r.close) + z;
  }

  lemma Glue(d: Slice, i: nat, j: nat, n: nat)
    requires i <= j <= n <= |d|
    ensures d[i..j] + d[j..n] == d[i..n]
  {}

  lemma Prepend(f: Field, rs: seq<Rest>) returns (more: seq<Rest>)
    requires rs != [] && Valid(f) && forall r :: r in rs ==> ValidRest(r)
    ensures |more| == |rs| && (forall r :: r in more ==> ValidRest(r))
    ensures FlattenRests(more) == Flatten(f) + FlattenRests(rs)
  {
    hide Flatten, Valid, IsTag;
    var r := Rest([f] + rs[0].fields, rs[0].close);
    more := [r] + rs[1..];
    assert rs[0] in rs && ValidRest(rs[0]);
    forall g | g in r.fields ensures Valid(g) { assert g == f || g in rs[0].fields; }
    forall q | q in more ensures ValidRest(q) { assert q == r || q in rs; }
    assert more[1..] == rs[1..];
    assert r.fields[1..] == rs[0].fields;
    var x, y, z := Flatten(f), FlattenAll(rs[0].fields), rs[0].close;
    assert FlattenAll(r.fields) == x + y;
    assert FlattenRests(more) == FlattenAll(r.fields) + z + FlattenRests(rs[1..]);
    assert (x + y) + z + FlattenRests(rs[1..]) == x + (y + z + FlattenRests(rs[1..]));
  }

  /** Whatever skip goes over is one valid field. */
  lemma SkipAcceptsOnlyFields(d: Slice) returns (f: Field)
    requires SkipFrom(d, 0, 0).Skipped? && SkipFrom(d, 0, 0).n <= |d|
    ensures Valid(f) && Flatten(f) == d[..SkipFrom(d, 0, 0).n]
  {
    hide ReadVarint, ReadPayload, SkipFrom, FlattenRests, Valid, IsTag, Flatten, FlattenAll;
    var n := SkipFrom(d, 0, 0).n;
    var j, w, p := SkipStep(d, 0, 0);
    var t := d[0..j];
    NotAClose(d, j);
    assert d[0..n] == d[..n];
    if w == 3 {
      OpenGroup(d, j, 0);
      var rs := RestsOf(d, j, 1);
      f := CloseUp(t, rs);
      assert rs[1..] == [];
      NoRests();
      assert Flatten(f) + [] == Flatten(f);
      Glue(d, 0, j, n);
    } else {
      PayloadOf(d, w, j, 0);
      f := Scalar(t, d[j..n]);
      ScalarIsValid(t, w, f.payload);
      Glue(d, 0, j, n);
    }
  }

  lemma NotAClose(d: Slice, j: nat)
    requires j <= |d|
    ensures ReadPayload(d, 4, j, 0).BadLanding?
  {}
}
