/** Iterating over the keys of a snapshot, in the order of their texts. */
module Scan {
  import opened Store
  import opened StoreInvariant
  import opened Keys

  /** Texts ascend, so no key comes twice. */
  ghost predicate Sorted(ks: seq<Key>) {
    forall i, j :: 0 <= i < j < |ks| ==> Less(Text(ks[i]), Text(ks[j]))
  }

  /** What an iterator visits: all chunk keys of the snapshot, among control keys. */
  ghost predicate Scans(ks: seq<Key>, sn: Db) {
    && Sorted(ks)
    && (forall id :: id in sn.chunks ==> ChunkKey(id) in ks)
    && (forall k :: k in ks && k.ChunkKey? ==> k.id in sn.chunks && k.id.ulid < ULID_LIMIT)
  }

  function Insert(ks: seq<Key>, k: Key): seq<Key> {
    if ks == [] || Less(Text(k), Text(ks[0])) then [k] + ks else [ks[0]] + Insert(ks[1..], k)
  }

  lemma {:induction false} InsertHolds(ks: seq<Key>, k: Key, x: Key)
    ensures x in Insert(ks, k) <==> x == k || x in ks
  {
    hide Less, Text;
    if ks != [] && !Less(Text(k), Text(ks[0])) {
      InsertHolds(ks[1..], k, x);
      assert ks == [ks[0]] + ks[1..];
    }
  }

  lemma {:induction false} InsertSorts(ks: seq<Key>, k: Key)
    requires Sorted(ks) && forall x :: x in ks ==> Text(x) != Text(k)
    ensures Sorted(Insert(ks, k))
  {
    hide Less, Text;
    if ks != [] {
      forall x | x in ks[1..] ensures Less(Text(ks[0]), Text(x)) {}
      if Less(Text(k), Text(ks[0])) {
        forall x | x in ks[1..] ensures Less(Text(k), Text(x)) { LessTransitive(Text(k), Text(ks[0]), Text(x)); }
      } else {
        assert ks[0] in ks;
        LessTotal(Text(k), Text(ks[0]));
        InsertSorts(ks[1..], k);
        forall x | x in Insert(ks[1..], k) ensures Less(Text(ks[0]), Text(x)) { InsertHolds(ks[1..], k, x); }
      }
    }
  }

  /** The keys that have been inserted and the ones left are all the keys. */
  ghost predicate Sorting(ks: seq<Key>, keys: set<Key>, all: set<Key>) {
    && Sorted(ks) && keys <= all
    && (forall k :: k in all <==> k in ks || k in keys)
    && (forall k :: k in ks ==> k !in keys)
    && (forall k :: k in all && k.ChunkKey? ==> k.id.ulid < ULID_LIMIT)
  }

  lemma InsertNext(ks: seq<Key>, keys: set<Key>, all: set<Key>, k: Key)
    requires Sorting(ks, keys, all) && k in keys
    ensures Sorting(Insert(ks, k), keys - {k}, all)
  {
    hide Insert, Text, Less, Sorted;
    forall x | x in ks ensures Text(x) != Text(k) {
      if Text(x) == Text(k) { KeyTextInjective(x, k); }
    }
    InsertSorts(ks, k);
    forall x ensures x in Insert(ks, k) <==> x == k || x in ks { InsertHolds(ks, k, x); }
  }

  /** `txn.NewIterator`: Badger visits the keys of the snapshot in ascending order. */
  method NewIterator(sn: Db, control: set<Key>) returns (ks: seq<Key>)
    requires forall id :: id in sn.chunks ==> id.ulid < ULID_LIMIT
    requires forall k :: k in control ==> !k.ChunkKey?
    ensures Scans(ks, sn)
    ensures forall k :: k in ks && !k.ChunkKey? ==> k in control
  {
    hide Insert, Text, Less, Sorted;
    var keys := control + set id | id in sn.chunks :: ChunkKey(id);
    ghost var all := keys;
    ks := [];
    assert Sorting(ks, keys, all) by { NothingSorted(); }
    while keys != {}
      invariant Sorting(ks, keys, all)
      decreases |keys|
    {
      var k :| k in keys;
      InsertNext(ks, keys, all, k);
      keys := keys - {k};
      ks := Insert(ks, k);
    }
    forall id | id in sn.chunks ensures ChunkKey(id) in ks { assert ChunkKey(id) in all; }
  }

  lemma NothingSorted()
    ensures Sorted([])
  {}

  /** The chunks of one version among the keys, in the order they are visited. */
  function Found(ks: seq<Key>, sn: Db, v: nat): seq<StoredChunk> {
    if ks == [] then []
    else
      var k := ks[|ks| - 1];
      Found(ks[..|ks| - 1], sn, v)
      + (if k.ChunkKey? && k.id.version == v && k.id in sn.chunks then [StoredChunk(k.id.ulid, sn.chunks[k.id])]
         else [])
  }

  lemma FoundSnoc(ks: seq<Key>, k: Key, sn: Db, v: nat)
    ensures Found(ks + [k], sn, v) == Found(ks, sn, v)
      + (if k.ChunkKey? && k.id.version == v && k.id in sn.chunks then [StoredChunk(k.id.ulid, sn.chunks[k.id])]
         else [])
  {
    assert (ks + [k])[..|ks|] == ks;
  }

  /** Keys of other versions add nothing. */
  lemma {:induction false} FoundNoMore(ks: seq<Key>, i: nat, sn: Db, v: nat)
    requires i <= |ks| && forall j :: i <= j < |ks| ==> !(ks[j].ChunkKey? && ks[j].id.version == v)
    ensures Found(ks, sn, v) == Found(ks[..i], sn, v)
  {
    if i < |ks| {
      FoundNoMore(ks[..|ks| - 1], i, sn, v);
      assert ks[..|ks| - 1][..i] == ks[..i];
    } else {
      assert ks[..i] == ks;
    }
  }

  /** What is found so far is the beginning of all that is found. */
  lemma {:induction false} FoundGrows(ks: seq<Key>, i: nat, sn: Db, v: nat)
    requires i <= |ks|
    ensures Found(ks[..i], sn, v) <= Found(ks, sn, v)
  {
    if i < |ks| {
      FoundGrows(ks[..|ks| - 1], i, sn, v);
      assert ks[..|ks| - 1][..i] == ks[..i];
    } else {
      assert ks[..i] == ks;
    }
  }

  lemma {:induction false} FoundHolds(ks: seq<Key>, sn: Db, v: nat, c: StoredChunk)
    ensures c in Found(ks, sn, v) <==>
      ChunkKey(ChunkId(v, c.ulid)) in ks && ChunkId(v, c.ulid) in sn.chunks && sn.chunks[ChunkId(v, c.ulid)] == c.data
  {
    if ks != [] {
      FoundHolds(ks[..|ks| - 1], sn, v, c);
      assert ks == ks[..|ks| - 1] + [ks[|ks| - 1]];
    }
  }

  lemma {:induction false} FoundAscends(ks: seq<Key>, sn: Db, v: nat)
    requires Sorted(ks) && forall k :: k in ks && k.ChunkKey? ==> k.id.ulid < ULID_LIMIT
    ensures Ascending(Found(ks, sn, v))
  {
    hide Less, Text;
    if ks != [] {
      var n := |ks| - 1;
      FoundAscends(ks[..n], sn, v);
      var k := ks[n];
      if k.ChunkKey? && k.id.version == v {
        assert k in ks;
        forall c | c in Found(ks[..n], sn, v) ensures c.ulid < k.id.ulid {
          FoundHolds(ks[..n], sn, v, c);
          var i :| 0 <= i < n && ks[i] == ChunkKey(ChunkId(v, c.ulid));
          assert ks[i] in ks && Less(Text(ks[i]), Text(ks[n]));
          TextOrder(v, c.ulid, k.id.ulid);
        }
      }
    }
  }

  lemma TextOrder(v: nat, a: nat, b: nat)
    requires a < ULID_LIMIT && b < ULID_LIMIT
    requires Less(Text(ChunkKey(ChunkId(v, a))), Text(ChunkKey(ChunkId(v, b))))
    ensures a < b
  {
    hide Less, ChunkText;
    ChunksSortByUlid(v, a, b);
  }

  /** Ascending chunks are determined by which they are. */
  lemma {:induction false} AscendingUnique(a: seq<StoredChunk>, b: seq<StoredChunk>)
    requires Ascending(a) && Ascending(b) && forall c :: c in a <==> c in b
    ensures a == b
  {
    assert (|a| > 0 ==> a[0] in b) && (|b| > 0 ==> b[0] in a);
    if a != [] {
      var a', b' := a[1..], b[1..];
      assert a == [a[0]] + a' && b == [b[0]] + b';
      forall c ensures c in a' <==> c in b' {
        if c in a' { assert c in b; }
        if c in b' { assert c in a; }
      }
      AscendingUnique(a', b');
    }
  }

  /** The keys under a version's prefix, in the order of their texts, are the chunks
      its copy wrote, in the order it wrote them: whatever else is stored. */
  lemma ScanFindsCopy(ks: seq<Key>, sn: Db, v: nat, cs: seq<StoredChunk>)
    requires Scans(ks, sn) && Exactly(sn.chunks, v, cs) && Ascending(cs)
    ensures Found(ks, sn, v) == cs
  {
    hide Less, Text;
    FoundAscends(ks, sn, v);
    forall c ensures c in Found(ks, sn, v) <==> c in cs {
      FoundHolds(ks, sn, v, c);
      var id := ChunkId(v, c.ulid);
      if c in cs {
        var i :| 0 <= i < |cs| && cs[i] == c;
        assert Stored(sn.chunks, v, cs[i]);
      }
      if id in sn.chunks && sn.chunks[id] == c.data { assert Listed(cs, id.ulid, sn.chunks[id]); }
    }
    AscendingUnique(Found(ks, sn, v), cs);
  }

  lemma PrefixIsVersion(k: Key, v: nat)
    ensures HasPrefix(Text(k), VersionPrefix(v)) <==> k.ChunkKey? && k.id.version == v
    ensures k.ChunkKey? ==> HasSuffix(Text(k), CHUNK_SUFFIX)
  {
    hide ChunkText, VersionPrefix, HasSuffix, HasPrefix;
    if k.ChunkKey? { PrefixSelectsVersion(k.id, v); ChunkHasSuffix(k.id); } else { ControlKeysStandApart(k, v); }
  }

  /** Keys from the first at or above the prefix on: once the prefix no longer
      matches, it matches no later key either. */
  lemma PrefixEnds(ks: seq<Key>, lo: nat, i: nat, v: nat)
    requires Sorted(ks) && lo <= i <= |ks|
    requires lo < |ks| ==> !Less(Text(ks[lo]), VersionPrefix(v))
    requires i < |ks| ==> !HasPrefix(Text(ks[i]), VersionPrefix(v))
    ensures forall j :: i <= j < |ks| ==> !(ks[j].ChunkKey? && ks[j].id.version == v)
  {
    hide Text, Less, VersionPrefix;
    var p := VersionPrefix(v);
    forall j | i <= j < |ks| ensures !(ks[j].ChunkKey? && ks[j].id.version == v) {
      PrefixIsVersion(ks[j], v);
      StaysAbove(p, Text(ks[lo]), Text(ks[i]));
      if HasPrefix(Text(ks[j]), p) { BetweenHasPrefix(p, Text(ks[i]), Text(ks[j])); }
    }
  }

  lemma StaysAbove(p: string, a: string, b: string)
    requires !Less(a, p) && (a == b || Less(a, b))
    ensures !Less(b, p)
  {
    if Less(b, p) && a != b { LessTransitive(a, b, p); }
  }

  /** A key at or above the prefix and below a key that has it has it too. */
  lemma {:induction false} BetweenHasPrefix(p: string, a: string, c: string)
    requires HasPrefix(c, p) && !Less(a, p) && (a == c || Less(a, c))
    ensures HasPrefix(a, p)
  {
    if p != [] && a != c {
      assert c == [c[0]] + c[1..] && p == [p[0]] + p[1..] && c[1..][..|p| - 1] == p[1..];
      assert a == [a[0]] + a[1..];
      BetweenHasPrefix(p[1..], a[1..], c[1..]);
    }
  }

  /** No key below the prefix is a chunk of the version. */
  lemma BeforePrefix(k: Key, v: nat)
    requires Less(Text(k), VersionPrefix(v))
    ensures !(k.ChunkKey? && k.id.version == v)
  {
    hide Text, Less, VersionPrefix;
    PrefixIsVersion(k, v);
    if HasPrefix(Text(k), VersionPrefix(v)) { SeekFindsPrefix(VersionPrefix(v), Text(k)); }
  }
}
