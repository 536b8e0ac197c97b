/** The re-chunking pair: Writer packs arbitrary writes into frames of one size,
    Reader unpacks frames of any size into arbitrary buffers. */
module Streams {
  import opened GoInt
  import opened Wrappers

  /** The content of the Info message that opens a stream: a copy gives a time to
      live, a paste says whether a checksum will follow. */
  datatype Header = Header(
    ttl: i64, hasChecksum: bool, compressed: bool, masterKeyNonce: Bytes, keyNonce: Bytes, iv: Bytes)

  /** A message of a copy or paste stream, as these two see it. */
  datatype Frame =
    | InfoFrame(header: Header) | Chunk(data: Bytes) | Checksum(sum: Bytes)
    | ErrorFrame(kind: i32, message: Bytes) | EmptyFrame

  /** How a read can end: with data, at the end of the stream, or with an error. */
  datatype Status = Data | EOF | Failure

  // ---------------------------------------------------------------- meaning

  function Concat(bs: seq<Bytes>): Bytes {
    if bs == [] then [] else bs[0] + Concat(bs[1..])
  }

  /** data cut into pieces of n bytes, as long as n bytes are left. */
  function Full(data: Bytes, n: nat): seq<Bytes>
    requires n > 0
  {
    if |data| < n then [] else [data[..n]] + Full(data[n..], n)
  }

  /** What is left after that. */
  function Rest(data: Bytes, n: nat): (r: Bytes)
    requires n > 0
    ensures |r| < n
  {
    if |data| < n then data else Rest(data[n..], n)
  }

  function Chunks(bs: seq<Bytes>): seq<Frame> {
    if bs == [] then [] else [Chunk(bs[0])] + Chunks(bs[1..])
  }

  /** What a reader gets out of frames: all chunks up to the first other message. */
  function Payload(fs: seq<Frame>): Bytes {
    if fs == [] then []
    else match fs[0]
      case Chunk(b) => b + Payload(fs[1..])
      case EmptyFrame => Payload(fs[1..])
      case _ => []
  }

  /** How the frames end: properly or not, and with which checksum. */
  datatype Ending = Proper(checksum: Option<Bytes>) | Broken

  /** `clean` says whether the peer closed the stream after its last message. */
  function EndingOf(fs: seq<Frame>, clean: bool): Ending {
    if fs == [] then (if clean then Proper(None) else Broken)
    else match fs[0]
      case Chunk(_) => EndingOf(fs[1..], clean)
      case EmptyFrame => EndingOf(fs[1..], clean)
      case Checksum(c) => Proper(Some(c))
      case InfoFrame(_) => Broken
      case ErrorFrame(_, _) => Broken
  }

  // ------------------------------------------------------------------ lemmas

  /** Cutting loses nothing and leaves pieces of one size. */
  lemma {:induction false} FullRest(data: Bytes, n: nat)
    requires n > 0
    ensures Concat(Full(data, n)) + Rest(data, n) == data
  {
    hide Full, Rest, Concat;
    FirstPiece(data, n);
    if |data| >= n {
      FullRest(data[n..], n);
      ConcatCons(data[..n], Full(data[n..], n));
      Regroup(data[..n], Concat(Full(data[n..], n)), Rest(data[n..], n));
      assert data == data[..n] + data[n..];
    }
  }

  lemma FirstPiece(data: Bytes, n: nat)
    requires n > 0
    ensures |data| < n ==> Concat(Full(data, n)) + Rest(data, n) == data
    ensures |data| >= n ==> Full(data, n) == [data[..n]] + Full(data[n..], n) && Rest(data, n) == Rest(data[n..], n)
  {}

  lemma Regroup(a: Bytes, b: Bytes, c: Bytes)
    ensures (a + b) + c == a + (b + c)
  {}

  lemma ConcatCons(b: Bytes, bs: seq<Bytes>)
    ensures Concat([b] + bs) == b + Concat(bs)
  {
    assert ([b] + bs)[1..] == bs;
  }

  lemma {:induction false} FullSizes(data: Bytes, n: nat)
    requires n > 0
    ensures forall b :: b in Full(data, n) ==> |b| == n
    ensures |Full(data, n)| == |data| / n
  {
    var k := CountPieces(data, n);
    Quotient(|data|, n, k, |Rest(data, n)|);
  }

  lemma {:induction false} CountPieces(data: Bytes, n: nat) returns (k: nat)
    requires n > 0
    ensures k == |Full(data, n)| && |data| == k * n + |Rest(data, n)|
    ensures forall b :: b in Full(data, n) ==> |b| == n
  {
    k := 0;
    if |data| >= n {
      var k' := CountPieces(data[n..], n);
      OneMore(k', n);
      k := k' + 1;
    }
  }

  lemma OneMore(k: nat, n: nat)
    ensures (k + 1) * n == k * n + n
  {}

  lemma Quotient(x: nat, n: nat, k: nat, r: nat)
    requires x == k * n + r && r < n
    ensures x / n == k && x % n == r
  {
    var k': nat, r': nat := x / n, x % n;
    assert x == n * k' + r' && r' < n;
    if k' < k { Mono(k' + 1, k, n); OneMore(k', n); }
    if k < k' { Mono(k + 1, k', n); OneMore(k, n); }
  }

  lemma Mono(a: nat, b: nat, n: nat)
    requires a <= b
    ensures a * n <= b * n
  {}

  /** Packing does not depend on where one write ends and the next begins. */
  lemma {:induction false} FullAppend(a: Bytes, b: Bytes, n: nat)
    requires n > 0
    ensures Full(a + b, n) == Full(a, n) + Full(Rest(a, n) + b, n)
    ensures Rest(a + b, n) == Rest(Rest(a, n) + b, n)
    decreases |a|
  {
    if |a| >= n {
      assert (a + b)[..n] == a[..n] && (a + b)[n..] == a[n..] + b;
      FullAppend(a[n..], b, n);
    }
  }

  lemma {:induction false} ConcatAppend(a: seq<Bytes>, b: seq<Bytes>)
    ensures Concat(a + b) == Concat(a) + Concat(b)
  {
    if a == [] {
      assert a + b == b;
    } else {
      assert (a + b)[1..] == a[1..] + b;
      ConcatAppend(a[1..], b);
    }
  }

  lemma {:induction false} ChunksAppend(a: seq<Bytes>, b: seq<Bytes>)
    ensures Chunks(a + b) == Chunks(a) + Chunks(b)
  {
    if a == [] {
      assert a + b == b;
    } else {
      assert (a + b)[1..] == a[1..] + b;
      ChunksAppend(a[1..], b);
    }
  }

  lemma {:induction false} ChunksLength(a: seq<Bytes>)
    ensures |Chunks(a)| == |a| && forall i :: 0 <= i < |a| ==> Chunks(a)[i] == Chunk(a[i])
  {
    if a != [] { ChunksLength(a[1..]); }
  }

  lemma {:induction false} PayloadOfChunks(bs: seq<Bytes>, fs: seq<Frame>, clean: bool)
    ensures Payload(Chunks(bs) + fs) == Concat(bs) + Payload(fs)
    ensures EndingOf(Chunks(bs) + fs, clean) == EndingOf(fs, clean)
  {
    if bs == [] {
      assert Chunks(bs) + fs == fs;
    } else {
      var rest := Chunks(bs[1..]) + fs;
      assert Chunks(bs) + fs == [Chunk(bs[0])] + rest;
      ChunkFirst(bs[0], rest, clean);
      PayloadOfChunks(bs[1..], fs, clean);
    }
  }

  lemma ChunkFirst(b: Bytes, fs: seq<Frame>, clean: bool)
    ensures Payload([Chunk(b)] + fs) == b + Payload(fs)
    ensures EndingOf([Chunk(b)] + fs, clean) == EndingOf(fs, clean)
  {
    assert ([Chunk(b)] + fs)[1..] == fs;
  }

  lemma SendPiece(out: seq<Bytes>, piece: Bytes)
    ensures Chunks(out + [piece]) == Chunks(out) + [Chunk(piece)]
  {
    ChunksAppend(out, [piece]);
    assert Chunks([piece]) == [Chunk(piece)];
  }

  lemma NextPiece(before: Bytes, piece: Bytes, rest: Bytes, n: nat, out: seq<Bytes>)
    requires n > 0 && |piece| == n && before == piece + rest
    ensures out + Full(before, n) == (out + [piece]) + Full(rest, n)
    ensures Rest(before, n) == Rest(rest, n)
    ensures (out + Full(before, n))[..|out|] == out && |Full(before, n)| > 0
  {
    assert before[..n] == piece && before[n..] == rest;
  }

  lemma NothingLeft(pending: Bytes, n: nat)
    requires |pending| < n
    ensures Full(pending, n) == [] && Rest(pending, n) == pending
  {}

  /** data cut into pieces of n bytes and a shorter last one, if any. */
  function Pieces(data: Bytes, n: nat): seq<Bytes>
    requires n > 0
  {
    Full(data, n) + (if Rest(data, n) == [] then [] else [Rest(data, n)])
  }

  /** The pieces are ceil(|data| / n), none is empty, all but the last have n bytes,
      and together they are the data. */
  lemma PiecesShape(data: Bytes, n: nat)
    requires n > 0
    ensures Concat(Pieces(data, n)) == data
    ensures |Pieces(data, n)| == (|data| + n - 1) / n
    ensures forall i :: 0 <= i < |Pieces(data, n)| ==> 0 < |Pieces(data, n)[i]| <= n
    ensures forall i :: 0 <= i < |Pieces(data, n)| - 1 ==> |Pieces(data, n)[i]| == n
  {
    var k := CountPieces(data, n);
    FullRest(data, n);
    var last := if Rest(data, n) == [] then [] else [Rest(data, n)];
    ConcatAppend(Full(data, n), last);
    assert Concat(last) == Rest(data, n);
    if last == [] {
      Quotient(|data| + n - 1, n, k, n - 1);
    } else {
      OneMore(k, n);
      Quotient(|data| + n - 1, n, k + 1, |Rest(data, n)| - 1);
    }
  }

  /** All the frames of one stream: the full chunks, the last chunk, the checksum. */
  function FramesOf(data: Bytes, checksum: Bytes, n: nat): seq<Frame>
    requires n > 0
  {
    Chunks(Full(data, n)) + [Chunk(Rest(data, n))] + (if checksum == [] then [] else [Checksum(checksum)])
  }

  /** What a writer has sent after some writes, and what it keeps. */
  function SentBy(writes: seq<Bytes>, n: nat): seq<Frame>
    requires n > 0
  {
    if writes == [] then []
    else
      var before := writes[..|writes| - 1];
      SentBy(before, n) + Chunks(Full(KeptBy(before, n) + writes[|writes| - 1], n))
  }

  function KeptBy(writes: seq<Bytes>, n: nat): Bytes
    requires n > 0
  {
    if writes == [] then [] else Rest(KeptBy(writes[..|writes| - 1], n) + writes[|writes| - 1], n)
  }

  /** Any writes whatever and a flush send the frames of what was written in all. */
  lemma AnyWrites(writes: seq<Bytes>, checksum: Bytes, n: nat)
    requires n > 0
    ensures SentBy(writes, n) + [Chunk(KeptBy(writes, n))] + (if checksum == [] then [] else [Checksum(checksum)])
         == FramesOf(Concat(writes), checksum, n)
  {
    WritesAddUp(writes, n);
  }

  lemma {:induction false} WritesAddUp(writes: seq<Bytes>, n: nat)
    requires n > 0
    ensures SentBy(writes, n) == Chunks(Full(Concat(writes), n)) && KeptBy(writes, n) == Rest(Concat(writes), n)
  {
    hide Full, Rest, Chunks, Concat;
    if writes == [] {
      NoData(n);
    } else {
      var before, last := writes[..|writes| - 1], writes[|writes| - 1];
      WritesAddUp(before, n);
      assert writes == before + [last];
      ConcatAppend(before, [last]);
      ConcatOne(last);
      FullAppend(Concat(before), last, n);
      ChunksAppend(Full(Concat(before), n), Full(Rest(Concat(before), n) + last, n));
    }
  }

  lemma NoData(n: nat)
    requires n > 0
    ensures Concat([]) == [] && Full([], n) == [] && Rest([], n) == [] && Chunks([]) == []
  {}

  lemma ConcatOne(b: Bytes)
    ensures Concat([b]) == b
  {
    ConcatCons(b, []);
    assert [b] + [] == [b] && b + [] == b;
  }

  /** What a peer has after frames were sent to it, when it takes `healthy` more. */
  function Took(sent: seq<Frame>, frames: seq<Frame>, healthy: nat): seq<Frame> {
    sent + (if |frames| <= healthy then frames else frames[..healthy])
  }

  /** Sending more once all so far was taken. */
  lemma TookMore(sent: seq<Frame>, a: seq<Frame>, b: seq<Frame>, healthy: nat)
    requires |a| <= healthy
    ensures Took(sent, a + b, healthy) == Took(sent + a, b, healthy - |a|)
  {
    if |a + b| > healthy { assert (a + b)[..healthy] == a + b[..healthy - |a|]; }
    assert sent + (a + b) == (sent + a) + b;
  }

  /** Some of the frames have been sent, and the rest never will be. */
  ghost predicate CutOff(before: seq<Frame>, frames: seq<Frame>, sent: seq<Frame>) {
    exists k: nat :: k < |frames| && sent == Took(before, frames, k)
  }

  lemma CutOffAt(before: seq<Frame>, front: seq<Frame>, tail: seq<Frame>)
    requires tail != []
    ensures CutOff(before, front + tail, before + front)
  {
    assert (front + tail)[..|front|] == front;
    assert before + front == Took(before, front + tail, |front|);
  }

  /** What was not taken is not made up for by what comes after it. */
  lemma TookNoMore(sent: seq<Frame>, a: seq<Frame>, b: seq<Frame>, healthy: nat)
    requires |a| > healthy
    ensures Took(sent, a + b, healthy) == Took(sent, a, healthy)
  {
    assert (a + b)[..healthy] == a[..healthy];
  }

  lemma TookAll(sent: seq<Frame>, frames: seq<Frame>, healthy: nat)
    requires |frames| <= healthy
    ensures Took(sent, frames, healthy) == sent + frames
  {}

  lemma TookChunks(sent: seq<Frame>, pieces: seq<Bytes>, healthy: nat)
    ensures |Chunks(pieces)| == |pieces|
    ensures healthy < |pieces| ==> Took(sent, Chunks(pieces), healthy) == sent + Chunks(pieces[..healthy])
  {
    ChunksLength(pieces);
    if healthy < |pieces| {
      ChunksLength(pieces[..healthy]);
      assert Chunks(pieces)[..healthy] == Chunks(pieces[..healthy]);
    }
  }

  /** Unpacking undoes packing, whatever the frame size. */
  lemma PayloadOfFrames(data: Bytes, checksum: Bytes, n: nat)
    requires n > 0
    ensures Payload(FramesOf(data, checksum, n)) == data
    ensures EndingOf(FramesOf(data, checksum, n), true) == Proper(if checksum == [] then None else Some(checksum))
    ensures |FramesOf(data, [], n)| == |data| / n + 1
  {
    var tail: seq<Frame> := if checksum == [] then [] else [Checksum(checksum)];
    var last := [Chunk(Rest(data, n))] + tail;
    FullRest(data, n);
    ChunksLength(Full(data, n));
    FullSizes(data, n);
    assert last[1..] == tail;
    assert Chunks(Full(data, n)) + [Chunk(Rest(data, n))] + tail == Chunks(Full(data, n)) + last;
    PayloadOfChunks(Full(data, n), last, true);
    assert Payload(last) == Rest(data, n) + Payload(tail);
    assert Payload(tail) == [];
  }

  /** Full chunks, one more chunk with the rest of the data, which may be empty, and a
      checksum if there is one. */
  ghost predicate Framed(fs: seq<Frame>, data: Bytes, checksum: Bytes, n: nat)
    requires n > 0
  {
    var full := |data| / n;
    && |fs| == full + 1 + (if checksum == [] then 0 else 1)
    && (forall i :: 0 <= i < full ==> fs[i].Chunk? && |fs[i].data| == n)
    && fs[full].Chunk? && |fs[full].data| == |data| % n
    && (checksum != [] ==> fs[full + 1] == Checksum(checksum))
    && Payload(fs) == data
  }

  lemma FramesAreFramed(data: Bytes, checksum: Bytes, n: nat)
    requires n > 0
    ensures Framed(FramesOf(data, checksum, n), data, checksum, n)
  {
    hide Payload, Full, Rest, Chunks;
    var pieces := Full(data, n);
    assert |pieces| == |data| / n && |Rest(data, n)| == |data| % n by {
      var k := CountPieces(data, n);
      Quotient(|data|, n, k, |Rest(data, n)|);
    }
    PayloadOfFrames(data, checksum, n);
    ChunksLength(pieces);
    FullSizes(data, n);
    forall i | 0 <= i < |pieces| ensures |pieces[i]| == n { assert pieces[i] in pieces; }
  }

  /** The messages for data that more may follow. */
  function Sending(header: Header, data: Bytes, n: nat): seq<Frame>
    requires n > 0
  {
    [InfoFrame(header)] + Chunks(Full(data, n))
  }

  /** One more write: if all of it is taken, the stream goes on; if not, what was
      taken is all that ever will be. */
  lemma SendMore(sent: seq<Frame>, header: Header, done: Bytes, data: Bytes, more: Bytes, checksum: Bytes, n: nat,
      healthy: nat)
    requires n > 0 && |Sending(header, done, n)| <= healthy
    ensures var pieces := Full(Rest(done, n) + data, n);
      var left := healthy - |Sending(header, done, n)|;
      && Sending(header, done + data, n) == Sending(header, done, n) + Chunks(pieces)
      && |Chunks(pieces)| == |pieces|
      && Rest(done + data, n) == Rest(Rest(done, n) + data, n)
      && (left < |pieces| ==>
            var frames := [InfoFrame(header)] + FramesOf(done + data + more, checksum, n);
            && |frames| > healthy
            && Took(sent, frames, healthy) == sent + Sending(header, done, n) + Chunks(pieces[..left]))
  {
    hide Full, Rest, Chunks, Took;
    var x := Sending(header, done, n);
    var pieces := Full(Rest(done, n) + data, n);
    var left := healthy - |x|;
    FullAppend(done, data, n);
    ChunksAppend(Full(done, n), pieces);
    ChunksLength(pieces);
    var tail := FramesSplit(header, done + data, more, checksum, n);
    if left < |pieces| {
      var y := Chunks(pieces);
      assert (x + y) + tail == x + (y + tail);
      TookMore(sent, x, y + tail, healthy);
      TookNoMore(sent + x, y, tail, left);
      TookChunks(sent + x, pieces, left);
    }
  }

  lemma NothingYet(sent: seq<Frame>, frames: seq<Frame>, header: Header, n: nat)
    requires n > 0
    ensures Took(sent, frames, 0) == sent
    ensures Sending(header, [], n) == [InfoFrame(header)] && Rest([], n) == []
  {}

  lemma FramesSplit(header: Header, done: Bytes, more: Bytes, checksum: Bytes, n: nat) returns (tail: seq<Frame>)
    requires n > 0
    ensures tail != [] && [InfoFrame(header)] + FramesOf(done + more, checksum, n) == Sending(header, done, n) + tail
  {
    hide Full, Rest, Chunks;
    FullAppend(done, more, n);
    var rest := Full(Rest(done, n) + more, n);
    ChunksAppend(Full(done, n), rest);
    tail := Chunks(rest) + [Chunk(Rest(done + more, n))]
      + (if checksum == [] then [] else [Checksum(checksum)]);
  }

  /** The last messages, after all the data. */
  lemma SendEnd(sent: seq<Frame>, header: Header, data: Bytes, checksum: Bytes, n: nat, healthy: nat)
    requires n > 0 && |Sending(header, data, n)| <= healthy
    ensures var x := Sending(header, data, n);
      var end := [Chunk(Rest(data, n))] + (if checksum == [] then [] else [Checksum(checksum)]);
      var frames := [InfoFrame(header)] + FramesOf(data, checksum, n);
      && Took(sent, frames, healthy) == Took(sent + x, end, healthy - |x|)
      && |frames| == |x| + |end|
  {
    hide Full, Rest, Chunks, Took;
    var x := Sending(header, data, n);
    var end := [Chunk(Rest(data, n))] + (if checksum == [] then [] else [Checksum(checksum)]);
    assert [InfoFrame(header)] + FramesOf(data, checksum, n) == x + end;
    TookMore(sent, x, end, healthy);
  }

  /** What a peer that never saw the end of a stream has of it: a reader of these
      messages reports an error. */
  ghost predicate Unfinished(sent: seq<Frame>) {
    sent == [] || (sent[0].InfoFrame? && EndingOf(sent[1..], false) == Broken)
  }

  /** A stream that was cut short is never mistaken for a shorter complete one. */
  lemma CutIsUnfinished(header: Header, data: Bytes, checksum: Bytes, n: nat, healthy: nat)
    requires n > 0
    ensures var frames := [InfoFrame(header)] + FramesOf(data, checksum, n);
      healthy < |frames| ==> Unfinished(Took([], frames, healthy))
  {
    hide Full, Rest, Chunks, EndingOf;
    var frames := [InfoFrame(header)] + FramesOf(data, checksum, n);
    if 0 < healthy < |frames| {
      var got := frames[..healthy];
      var pieces := Full(data, n) + [Rest(data, n)];
      ChunksAppend(Full(data, n), [Rest(data, n)]);
      OneChunk(Rest(data, n));
      ChunksLength(pieces);
      ChunksLength(pieces[..healthy - 1]);
      assert got[1..] == Chunks(pieces[..healthy - 1]);
      OnlyChunks(pieces[..healthy - 1]);
      assert Took([], frames, healthy) == got;
    }
  }

  /** A reader of the first messages gets the beginning of what all of them carry. */
  lemma {:induction false} PayloadOfSome(fs: seq<Frame>, k: nat)
    requires k <= |fs|
    ensures Payload(fs[..k]) <= Payload(fs)
  {
    if k > 0 {
      PayloadOfSome(fs[1..], k - 1);
      assert fs[..k][1..] == fs[1..][..k - 1];
    }
  }

  lemma OneChunk(b: Bytes)
    ensures Chunks([b]) == [Chunk(b)]
  {}

  lemma OnlyChunks(bs: seq<Bytes>)
    ensures EndingOf(Chunks(bs), false) == Broken
  {
    PayloadOfChunks(bs, [], false);
    assert Chunks(bs) + [] == Chunks(bs);
  }

  lemma SendingIsUnfinished(header: Header, data: Bytes, n: nat)
    requires n > 0
    ensures Unfinished(Sending(header, data, n))
  {
    OnlyChunks(Full(data, n));
    assert Sending(header, data, n)[1..] == Chunks(Full(data, n));
  }

  // ------------------------------------------------------------------ Sender

  /** The sending side of a stream: a peer that takes some number of messages and
      then fails. */
  class Sender {
    var sent: seq<Frame>
    var healthy: nat

    constructor (healthy: nat)
      ensures sent == [] && this.healthy == healthy
    {
      sent := [];
      this.healthy := healthy;
    }

    method Send(f: Frame) returns (ok: bool)
      modifies this
      ensures ok == (old(healthy) > 0)
      ensures if ok then sent == old(sent) + [f] && healthy == old(healthy) - 1
              else sent == old(sent) && healthy == old(healthy)
    {
      ok := healthy > 0;
      if ok { sent, healthy := sent + [f], healthy - 1; }
    }

    method SendChunk(p: Bytes) returns (ok: bool)
      modifies this
      ensures ok == (old(healthy) > 0)
      ensures if ok then sent == old(sent) + [Chunk(p)] && healthy == old(healthy) - 1
              else sent == old(sent) && healthy == old(healthy)
    {
      ok := Send(Chunk(p));
    }

    /** An empty checksum is not sent. */
    method SendChecksum(p: Bytes) returns (ok: bool)
      modifies this
      ensures ok == (p == [] || old(healthy) > 0)
      ensures if ok && p != [] then sent == old(sent) + [Checksum(p)] && healthy == old(healthy) - 1
              else sent == old(sent) && healthy == old(healthy)
    {
      if |p| == 0 { return true; }
      ok := Send(Checksum(p));
    }
  }

  // ------------------------------------------------------------------ Writer

  class Writer {
    const s: Sender
    const t: array<byte>
    var tIndex: nat
    var pIndex: nat
    var tLen: nat
    var pLen: nat

    ghost predicate Valid()
      reads this
    {
      t.Length > 0 && tLen > 0 && tIndex + tLen == t.Length
    }

    /** What has been written and not sent. */
    ghost function Pending(): Bytes
      requires Valid()
      reads this, t
    {
      t[..tIndex]
    }

    constructor (s: Sender, buf: array<byte>)
      requires buf.Length > 0
      ensures Valid() && this.s == s && t == buf && Pending() == []
    {
      this.s, t := s, buf;
      tIndex, pIndex, tLen, pLen := 0, 0, buf.Length, 0;
    }

    /** The frames sent are the full pieces of everything written so far; a send
        that fails stops the write after the frames the peer still took. */
    method Write(p: Bytes) returns (n: nat, ok: bool)
      requires Valid()
      modifies this, t, s
      ensures ok ==> Valid() && n == |p|
      ensures ok ==> s.sent == old(s.sent) + Chunks(Full(old(Pending()) + p, t.Length))
      ensures ok ==> Pending() == Rest(old(Pending()) + p, t.Length)
      ensures ok ==> s.healthy + |Full(old(Pending()) + p, t.Length)| == old(s.healthy)
      ensures !ok ==> n == 0 && old(s.healthy) < |Full(old(Pending()) + p, t.Length)|
      ensures !ok ==> s.sent == old(s.sent) + Chunks(Full(old(Pending()) + p, t.Length)[..old(s.healthy)])
    {
      hide Full, Rest, Chunks;
      ghost var all, n_ := Pending() + p, t.Length;
      ghost var out: seq<Bytes> := [];
      pIndex := 0;
      pLen := |p|;
      assert p[0..] == p && [] + Full(all, n_) == Full(all, n_);
      NoPieces(s.sent);
      while pLen > 0
        invariant Valid() && pIndex + pLen == |p|
        invariant Full(all, n_) == out + Full(Pending() + p[pIndex..], n_)
        invariant Rest(all, n_) == Rest(Pending() + p[pIndex..], n_)
        invariant s.sent == old(s.sent) + Chunks(out)
        invariant s.healthy + |out| == old(s.healthy)
        decreases pLen
      {
        ghost var before := Pending() + p[pIndex..];
        CopyIn(p);
        if tLen == 0 {
          ghost var piece := t[..];
          NextPiece(before, piece, p[pIndex..], n_, out);
          var sent := s.SendChunk(t[..]);
          if !sent { return 0, false; }
          SendPiece(out, piece);
          out := out + [piece];
          tIndex := 0;
          tLen := t.Length;
          assert t[..0] + p[pIndex..] == p[pIndex..];
        }
      }
      assert Pending() + p[pIndex..] == Pending();
      NothingLeft(Pending(), n_);
      assert out + [] == out;
      return pIndex, true;
    }

    /** `n := copy(w.t[w.tIndex:], p[w.pIndex:])` and the counters. */
    method CopyIn(p: Bytes)
      requires tIndex + tLen == t.Length && pIndex + pLen == |p|
      modifies this, t
      ensures tIndex + tLen == t.Length && pIndex + pLen == |p| && (tLen == 0 || pLen == 0)
      ensures old(tLen) > 0 && old(pLen) > 0 ==> pLen < old(pLen)
      ensures t[..tIndex] + p[pIndex..] == old(t[..tIndex] + p[pIndex..])
    {
      var k := if pLen < tLen then pLen else tLen;
      ghost var kept := t[..tIndex];
      CopyTo(t, tIndex, p[pIndex..pIndex + k]);
      Assoc(kept, p[pIndex..pIndex + k], p[pIndex + k..]);
      assert p[pIndex..] == p[pIndex..pIndex + k] + p[pIndex + k..];
      tIndex := tIndex + k;
      pIndex := pIndex + k;
      pLen := pLen - k;
      tLen := tLen - k;
    }

    static lemma Assoc(a: Bytes, b: Bytes, c: Bytes)
      ensures (a + b) + c == a + (b + c)
    {}

    static lemma NoPieces(sent: seq<Frame>)
      ensures sent + Chunks([]) == sent
    {}

    /** The rest goes out as one more chunk, even when it is empty. */
    method Flush(checksum: Bytes) returns (ok: bool)
      requires Valid()
      modifies s
      ensures ok == (old(s.healthy) >= 1 + (if checksum == [] then 0 else 1))
      ensures var end := [Chunk(Pending())] + (if checksum == [] then [] else [Checksum(checksum)]);
        s.sent == Took(old(s.sent), end, old(s.healthy))
    {
      if tLen > 0 {
        ok := s.SendChunk(t[..tIndex]);
        if !ok { return; }
      }
      ok := s.SendChecksum(checksum);
    }
  }

  /** The header and some of the data have been taken, and the rest is pending. */
  ghost predicate Underway(sw: Writer, sent: seq<Frame>, header: Header, done: Bytes, healthy: nat)
    reads sw, sw.t, sw.s
  {
    && sw.Valid()
    && sw.s.sent == sent + Sending(header, done, sw.t.Length)
    && sw.Pending() == Rest(done, sw.t.Length)
    && sw.s.healthy + |Sending(header, done, sw.t.Length)| == healthy
  }

  method SendChunk(sw: Writer, data: Bytes, ghost sent: seq<Frame>, ghost header: Header,
                   ghost done: Bytes, ghost more: Bytes, ghost checksum: Bytes, ghost healthy: nat)
    returns (n: nat, ok: bool)
    requires Underway(sw, sent, header, done, healthy)
    modifies sw, sw.t, sw.s
    ensures ok ==> n == |data| && Underway(sw, sent, header, done + data, healthy)
    ensures !ok ==>
      var frames := [InfoFrame(header)] + FramesOf(done + data + more, checksum, sw.t.Length);
      |frames| > healthy && sw.s.sent == Took(sent, frames, healthy)
  {
    hide Full, Rest, Chunks, Took, FramesOf, Sending;
    SendMore(sent, header, done, data, more, checksum, sw.t.Length, healthy);
    n, ok := sw.Write(data);
  }

  /** The flush that ends a stream. */
  method SendRest(sw: Writer, checksum: Bytes, ghost sent: seq<Frame>, ghost header: Header, ghost data: Bytes,
      ghost healthy: nat)
    returns (ok: bool)
    requires Underway(sw, sent, header, data, healthy)
    modifies sw.s
    ensures var frames := [InfoFrame(header)] + FramesOf(data, checksum, sw.t.Length);
      sw.s.sent == Took(sent, frames, healthy) && (ok <==> |frames| <= healthy)
  {
    hide Full, Rest, Chunks, Took, FramesOf, Sending;
    SendEnd(sent, header, data, checksum, sw.t.Length, healthy);
    ok := sw.Flush(checksum);
  }

  // ---------------------------------------------------------------- Receiver

  /** The receiving side: the messages still to come, and how the stream ends. */
  class Receiver {
    var inbox: seq<Frame>
    const clean: bool
    var checksum: Bytes

    constructor (inbox: seq<Frame>, clean: bool)
      ensures this.inbox == inbox && this.clean == clean && checksum == []
    {
      this.inbox, this.clean, checksum := inbox, clean, [];
    }

    /** The next chunk, or the end: at the end of the stream, or at a checksum. */
    method Next() returns (data: Bytes, status: Status)
      modifies this
      ensures old(inbox) == [] ==>
        inbox == [] && checksum == old(checksum) && status == (if clean then EOF else Failure)
      ensures old(inbox) != [] ==> inbox == old(inbox[1..]) && match old(inbox[0])
        case Chunk(b) => status == Data && data == b && checksum == old(checksum)
        case EmptyFrame => status == Data && data == [] && checksum == old(checksum)
        case Checksum(c) => status == EOF && checksum == c
        case InfoFrame(_) => status == Failure && checksum == old(checksum)
        case ErrorFrame(_, _) => status == Failure && checksum == old(checksum)
    {
      if inbox == [] { return [], if clean then EOF else Failure; }
      var f := inbox[0];
      inbox := inbox[1..];
      match f {
        case InfoFrame(_) => return [], Failure;
        case ErrorFrame(_, _) => return [], Failure;
        case Checksum(c) =>
          checksum := c;
          return [], EOF;
        case EmptyFrame => return [], Data;
        case Chunk(b) => return b, Data;
      }
    }
  }

  // ------------------------------------------------------------------ Reader

  class Reader {
    const r: Receiver
    var t: Bytes
    var tLen: nat
    var tIndex: nat
    var pIndex: nat

    ghost predicate Valid()
      reads this
    {
      tIndex + tLen == |t|
    }

    /** Everything a reader can still get before the stream ends. */
    ghost function Ahead(): Bytes
      requires Valid()
      reads this, r
    {
      t[tIndex..] + Payload(r.inbox)
    }

    ghost function End(): Ending
      reads this, r
    {
      EndingOf(r.inbox, r.clean)
    }

    constructor (r: Receiver)
      ensures Valid() && this.r == r && Ahead() == Payload(r.inbox) && End() == EndingOf(r.inbox, r.clean)
    {
      this.r := r;
      t, tLen, tIndex, pIndex := [], 0, 0, 0;
    }

    /** Fills p completely while there is enough ahead; the read that finds too
        little delivers what there is at a proper end, and nothing at a broken one. */
    method Read(p: array<byte>) returns (n: nat, status: Status)
      requires Valid()
      modifies this, r, p
      ensures Valid()
      ensures status == if |old(Ahead())| >= p.Length && |old(Ahead())| > 0 then Data
                        else if old(End()).Proper? then EOF else Failure
      ensures status == Data ==>
        n == p.Length && p[..] == old(Ahead())[..n] && Ahead() == old(Ahead())[n..]
        && End() == old(End()) && r.checksum == old(r.checksum)
      ensures status == EOF ==>
        n == |old(Ahead())| <= p.Length && p[..n] == old(Ahead()) && p[n..] == old(p[n..])
        && r.checksum == (if old(End()).checksum.Some? then old(End()).checksum.value else old(r.checksum))
      ensures status == Failure ==> n == 0
    {
      hide Payload, EndingOf;
      ghost var all, end := Ahead(), End();
      pIndex := 0;
      while true
        invariant Midway(p, all) && End() == end && r.checksum == old(r.checksum)
        invariant tLen == 0 ==> pIndex < p.Length || p.Length == 0
        invariant forall i :: pIndex <= i < p.Length ==> p[i] == old(p[i])
        decreases |r.inbox|
      {
        var full := TakeChunk(p, all);
        if full { return p.Length, Data; }
        ghost var head := p[..pIndex];
        MidwayLength(p, all);
        var got := Refill();
        assert p[..pIndex] == head;
        if got == Failure { return 0, Failure; }
        if got == EOF { break; }
      }
      return pIndex, EOF;
    }

    /** What was ahead is now at the start of p, or still ahead. */
    ghost predicate Midway(p: array<byte>, all: Bytes)
      reads this, r, p
    {
      Valid() && pIndex <= p.Length && (pIndex == p.Length ==> pIndex == 0) && all == p[..pIndex] + Ahead()
    }

    lemma MidwayLength(p: array<byte>, all: Bytes)
      requires Midway(p, all)
      ensures |all| == pIndex + |Ahead()| && (Ahead() == [] ==> all == p[..pIndex])
    {
      Halves(all, p[..pIndex], Ahead());
    }

    /** Copies from the chunk being read; `full` says that p has no room left. */
    method TakeChunk(p: array<byte>, ghost all: Bytes) returns (full: bool)
      requires Midway(p, all) && (tLen == 0 ==> pIndex < p.Length || p.Length == 0)
      modifies this`tIndex, this`tLen, this`pIndex, p
      ensures !full ==> Midway(p, all) && tLen == 0 && (pIndex < p.Length || p.Length == 0)
      ensures full ==> Valid() && |all| >= p.Length && |all| > 0
      ensures full ==> p[..] == all[..p.Length] && Ahead() == all[p.Length..]
      ensures forall i :: (if full then p.Length else pIndex) <= i < p.Length ==> p[i] == old(p[i])
    {
      hide Payload;
      if tLen == 0 { return false; }
      MidwayLength(p, all);
      var k := CopyOut(p);
      if k + pIndex == p.Length {
        assert p[..] == p[..pIndex + k];
        Halves(all, p[..], Ahead());
        return true;
      }
      pIndex := k + pIndex;
      return false;
    }

    static lemma Halves(all: Bytes, a: Bytes, b: Bytes)
      requires all == a + b
      ensures |all| == |a| + |b| && all[..|a|] == a && all[|a|..] == b && (b == [] ==> all == a)
    {}

    /** `stdin, err := r.r.Next()`, and the chunk becomes the one being read. */
    method Refill() returns (status: Status)
      requires Valid() && tLen == 0
      modifies this`t, this`tIndex, this`tLen, r
      ensures Valid()
      ensures status == Data ==>
        Ahead() == old(Ahead()) && End() == old(End()) && r.checksum == old(r.checksum) && |r.inbox| < old(|r.inbox|)
      ensures status == EOF ==>
        old(Ahead()) == [] && old(End()).Proper? &&
        r.checksum == (if old(End()).checksum.Some? then old(End()).checksum.value else old(r.checksum))
      ensures status == Failure ==> old(Ahead()) == [] && old(End()).Broken?
    {
      hide Payload, EndingOf;
      assert Ahead() == Payload(r.inbox);
      NextFrame(r.inbox, r.clean);
      var stdin, got := r.Next();
      if got == Data {
        t := stdin;
        tIndex := 0;
        tLen := |stdin|;
        assert t[0..] == t;
      }
      return got;
    }

    /** One message of the stream, for the payload and for the ending. */
    static lemma NextFrame(fs: seq<Frame>, clean: bool)
      ensures fs == [] ==> Payload(fs) == [] && EndingOf(fs, clean) == if clean then Proper(None) else Broken
      ensures fs != [] ==> match fs[0]
        case Chunk(b) => Payload(fs) == b + Payload(fs[1..]) && EndingOf(fs, clean) == EndingOf(fs[1..], clean)
        case EmptyFrame => Payload(fs) == Payload(fs[1..]) && EndingOf(fs, clean) == EndingOf(fs[1..], clean)
        case Checksum(c) => Payload(fs) == [] && EndingOf(fs, clean) == Proper(Some(c))
        case InfoFrame(_) => Payload(fs) == [] && EndingOf(fs, clean) == Broken
        case ErrorFrame(_, _) => Payload(fs) == [] && EndingOf(fs, clean) == Broken
    {}

    /** `n := copy(p[r.pIndex:], r.t[r.tIndex:])` and the counters. */
    method CopyOut(p: array<byte>) returns (k: nat)
      requires Valid() && pIndex <= p.Length
      modifies this`tIndex, this`tLen, p
      ensures Valid() && pIndex + k <= p.Length
      ensures k == if old(tLen) < p.Length - pIndex then old(tLen) else p.Length - pIndex
      ensures tLen == old(tLen) - k
      ensures p[..pIndex + k] + Ahead() == old(p[..pIndex] + Ahead())
      ensures |old(Ahead())| >= k
      ensures forall i :: pIndex + k <= i < p.Length ==> p[i] == old(p[i])
    {
      hide Payload;
      k := if tLen < p.Length - pIndex then tLen else p.Length - pIndex;
      ghost var kept := p[..pIndex];
      CopyTo(p, pIndex, t[tIndex..tIndex + k]);
      Assoc(kept, t[tIndex..tIndex + k], t[tIndex + k..], Payload(r.inbox));
      assert t[tIndex..] == t[tIndex..tIndex + k] + t[tIndex + k..];
      tIndex := tIndex + k;
      tLen := tLen - k;
    }

    static lemma Assoc(a: Bytes, b: Bytes, c: Bytes, d: Bytes)
      ensures (a + b) + (c + d) == a + ((b + c) + d)
    {}
  }
}
