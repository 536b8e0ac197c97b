/** client/client.go: what a copy sends, and what a paste makes of what it gets. */
module Client {
  import opened GoInt
  import opened Wrappers
  import opened Streams

  const NONCE_SIZE := 32
  const SHA256_SIZE := 32

  datatype Config = Config(chunkSize: i64, checksum: bool, ttl: i64, compression: bool, encryption: bool)

  /** The libraries: a hash, a compressor and a cipher, each with what undoes it. The
      cipher's key comes from the password and two nonces. `emitted` is what the
      encoders of a copy have delivered of their output after some input, and `unwrapped`
      what the decoders of a paste have delivered. */
  datatype Codecs = Codecs(
    hash: Bytes -> Bytes,
    compress: Bytes -> Bytes,
    decompress: Bytes -> Option<Bytes>,
    seal: (Bytes, Bytes, Bytes, Bytes, Bytes) -> Bytes,
    unseal: (Bytes, Bytes, Bytes, Bytes, Bytes) -> Option<Bytes>,
    emitted: (Header, bool, Bytes, Bytes) -> Bytes,
    unwrapped: (Header, Bytes, Bytes) -> Bytes)

  ghost predicate Sound(c: Codecs) {
    && (forall x :: |c.hash(x)| == SHA256_SIZE)
    && (forall x :: c.decompress(c.compress(x)) == Some(x))
    && (forall p, m, k, iv, x :: c.unseal(p, m, k, iv, c.seal(p, m, k, iv, x)) == Some(x))
  }

  /** What an encoder has delivered it does not take back, and it delivers nothing but
      its output. */
  ghost predicate EncodesInSteps(transform: Bytes -> Bytes, emitted: Bytes -> Bytes) {
    && emitted([]) == []
    && (forall x, y :: emitted(x) <= emitted(x + y))
    && (forall x :: emitted(x) <= transform(x))
  }

  ghost predicate DecodesInSteps(transform: Bytes -> Option<Bytes>, unwrapped: Bytes -> Bytes) {
    && (forall x, y :: unwrapped(x) <= unwrapped(x + y))
    && (forall x :: transform(x).Some? ==> unwrapped(x) <= transform(x).value)
  }

  ghost predicate EncoderInSteps(c: Codecs, header: Header, encryption: bool, password: Bytes) {
    EncodesInSteps(x => Encode(c, header, encryption, password, x), x => c.emitted(header, encryption, password, x))
  }

  ghost predicate DecoderInSteps(c: Codecs, info: Header, password: Bytes) {
    DecodesInSteps(x => Decode(c, info, password, x), x => c.unwrapped(info, password, x))
  }

  ghost predicate InSteps(c: Codecs) {
    && (forall header, encryption, password :: EncoderInSteps(c, header, encryption, password))
    && (forall info, password :: DecoderInSteps(c, info, password))
  }

  // -------------------------------------------------------------------- copy

  /** What a copy sends in place of its input. */
  function Encode(c: Codecs, header: Header, encryption: bool, password: Bytes, data: Bytes): Bytes {
    var small := if header.compressed then c.compress(data) else data;
    if encryption then c.seal(password, header.masterKeyNonce, header.keyNonce, header.iv, small) else small
  }

  /** All the messages of a copy. */
  function CopyFrames(c: Codecs, cfg: Config, header: Header, password: Bytes, content: Bytes): (frames: seq<Frame>)
    requires cfg.chunkSize > 0
    ensures frames != [] && frames[0] == InfoFrame(header)
  {
    [InfoFrame(header)]
    + FramesOf(
        Encode(c, header, cfg.encryption, password, content),
        if cfg.checksum then c.hash(content) else [], cfg.chunkSize)
  }

  /** The header of a copy; nonces are drawn only for an encrypted one. */
  function CopyHeader(cfg: Config, masterKeyNonce: Bytes, keyNonce: Bytes, iv: Bytes): Header {
    if cfg.encryption then Header(cfg.ttl, false, cfg.compression, masterKeyNonce, keyNonce, iv)
    else Header(cfg.ttl, false, cfg.compression, [], [], [])
  }

  /** The errors of a reader, as `errors.Is` tells them apart. */
  datatype ReadError = EndOfFile | WrapsEOF | UnexpectedEOF | OtherError

  /** What a reader delivers before it reports `err`, or more data if there is none. */
  datatype Reply = Reply(data: Bytes, err: Option<ReadError>)

  /** Whether a copy takes its input for complete, gives up, or reads for ever. */
  datatype Fate = Ended | Broke | Endless

  /** The bytes that a copy sends of its input. */
  datatype Taken = Taken(data: Bytes, fate: Fate)

  function Before(data: Bytes, later: Taken): Taken {
    Taken(data + later.data, later.fate)
  }

  /** What a copy with chunks of n bytes makes of a reader, with some bytes already in
      its buffer. An error that comes with the byte that fills the buffer goes
      unnoticed; an end inside the buffer, and any unexpected end, sends what is there
      and reads on; an error that wraps an end discards what is in the buffer. */
  function Take(replies: seq<Reply>, last: ReadError, n: nat, held: Bytes): Taken
    requires |held| < n
    decreases |replies|
  {
    if replies == [] then
      match last
      case EndOfFile => Taken(held, Ended)
      case WrapsEOF => Taken([], Ended)
      case UnexpectedEOF => Taken(held, Endless)
      case OtherError => Taken([], Broke)
    else
      var all := held + replies[0].data;
      var full, rest, err := Concat(Full(all, n)), Rest(all, n), replies[0].err;
      if err.None? || (replies[0].data != [] && rest == []) then Before(full, Take(replies[1..], last, n, rest))
      else
        match err.value
        case EndOfFile => if rest == [] then Taken(full, Ended) else Before(all, Take(replies[1..], last, n, []))
        case WrapsEOF => Taken(full, Ended)
        case UnexpectedEOF => Before(all, Take(replies[1..], last, n, []))
        case OtherError => Taken(full, Broke)
  }

  function AllData(replies: seq<Reply>): Bytes {
    if replies == [] then [] else replies[0].data + AllData(replies[1..])
  }

  predicate NoError(replies: seq<Reply>) {
    forall r :: r in replies ==> r.err.None?
  }

  /** Data that comes without an error is taken as it comes. */
  lemma {:induction false} TakeData(before: seq<Reply>, more: seq<Reply>, last: ReadError, n: nat, held: Bytes)
    requires |held| < n && NoError(before)
    ensures var all := held + AllData(before);
      Take(before + more, last, n, held) == Before(Concat(Full(all, n)), Take(more, last, n, Rest(all, n)))
    decreases |before|
  {
    hide Full, Rest, Concat;
    if before == [] {
      assert before + more == more && held + [] == held;
      NothingLeft(held, n);
      NoPieces();
      assert [] + Take(more, last, n, held).data == Take(more, last, n, held).data;
    } else {
      var first, all := held + before[0].data, held + AllData(before);
      assert before[0] in before && (before + more)[0] == before[0] && (before + more)[1..] == before[1..] + more;
      TakeData(before[1..], more, last, n, Rest(first, n));
      assert all == first + AllData(before[1..]);
      FullAppend(first, AllData(before[1..]), n);
      var later := Rest(first, n) + AllData(before[1..]);
      ConcatAppend(Full(first, n), Full(later, n));
      Regroup(Concat(Full(first, n)), Concat(Full(later, n)), Take(more, last, n, Rest(all, n)).data);
    }
  }

  lemma NoPieces()
    ensures Concat([]) == []
  {}

  /** A reader that delivers its data and then reports one error for ever. */
  lemma DrainedSource(replies: seq<Reply>, last: ReadError, n: nat)
    requires n > 0 && NoError(replies)
    ensures Take(replies, last, n, []) ==
      var all, whole := AllData(replies), Concat(Full(AllData(replies), n));
      match last
      case EndOfFile => Taken(all, Ended)
      case WrapsEOF => Taken(whole, Ended)
      case UnexpectedEOF => Taken(all, Endless)
      case OtherError => Taken(whole, Broke)
  {
    hide Full, Rest, Concat;
    TakeData(replies, [], last, n, []);
    assert replies + [] == replies && [] + AllData(replies) == AllData(replies);
    FullRest(AllData(replies), n);
    assert Concat(Full(AllData(replies), n)) + [] == Concat(Full(AllData(replies), n));
  }

  /** A reader that ends properly is taken as a whole. */
  lemma CleanSource(replies: seq<Reply>, n: nat)
    requires n > 0 && NoError(replies)
    ensures Take(replies, EndOfFile, n, []) == Taken(AllData(replies), Ended)
  {
    DrainedSource(replies, EndOfFile, n);
  }

  /** The first error of a reader: `data` is what comes with it, and `after` what the
      reader goes on with. */
  lemma FirstError(before: seq<Reply>, data: Bytes, err: ReadError, after: seq<Reply>, last: ReadError, n: nat)
    requires n > 0 && NoError(before)
    ensures var t := Take(before + ([Reply(data, Some(err))] + after), last, n, []);
      var all, later := AllData(before) + data, Take(after, last, n, []);
      var whole := Concat(Full(all, n));
      if IsLost(all, data, n) then t == Before(all, later)
      else match err
        case EndOfFile => t == if Rest(all, n) == [] then Taken(all, Ended) else Before(all, later)
        case WrapsEOF => t == Taken(whole, Ended)
        case UnexpectedEOF => t == Before(all, later)
        case OtherError => t == Taken(whole, Broke)
  {
    hide Full, Rest, Concat;
    var content := AllData(before);
    var more := [Reply(data, Some(err))] + after;
    assert more[1..] == after && [] + content == content;
    TakeData(before, more, last, n, []);
    var held := Rest(content, n);
    FullRest(content, n);
    FullRest(held + data, n);
    FullAppend(content, data, n);
    var first, second := Concat(Full(content, n)), Concat(Full(held + data, n));
    ConcatAppend(Full(content, n), Full(held + data, n));
    Regroup(first, held, data);
    var later := Take(after, last, n, []).data;
    Regroup(first, second, later);
    Regroup(first, held + data, later);
    assert second + [] == second && first + second + [] == first + second;
  }

  /** An error that comes with the byte that fills the buffer is lost. */
  predicate IsLost(all: Bytes, data: Bytes, n: nat)
    requires n > 0
  {
    data != [] && Rest(all, n) == []
  }

  predicate IsEnd(err: ReadError) {
    err == EndOfFile || err == WrapsEOF
  }

  /** When a reader breaks: it reports an error, with data or without, and from then on
      `last`. If the error is lost, or is an unexpected end, the copy goes by what comes
      next: it takes all that was delivered for complete if and only if that is an end.
      Otherwise it gives up if and only if the error is no kind of end; after one that
      only wraps an end it leaves out its last, incomplete chunk. */
  lemma BrokenSource(before: seq<Reply>, data: Bytes, err: ReadError, last: ReadError, n: nat)
    requires n > 0 && NoError(before) && err != EndOfFile
    ensures var t := Take(before + [Reply(data, Some(err))], last, n, []);
      var all := AllData(before) + data;
      var readsOn := IsLost(all, data, n) || err == UnexpectedEOF;
      && (t.fate == Ended <==> if readsOn then IsEnd(last) else err == WrapsEOF)
      && (t.fate == Endless <==> readsOn && last == UnexpectedEOF)
      && t.data == if readsOn then all else Concat(Full(all, n))
  {
    hide Full, Rest, Concat;
    var reply := [Reply(data, Some(err))];
    assert reply + [] == reply;
    FirstError(before, data, err, [], last, n);
    var all := AllData(before) + data;
    assert all + [] == all;
    FullRest(all, n);
  }

  /** The concrete cases. Two bytes of three arrive before an unexpected end, and the
      next read reports an end: the copy succeeds with the two bytes. */
  lemma TruncatedInputIsTaken()
    ensures Take([Reply([1, 2], None), Reply([], Some(UnexpectedEOF))], EndOfFile, 3, []) == Taken([1, 2], Ended)
  {
    var first, second := Reply([1, 2], None), Reply([], Some(UnexpectedEOF));
    assert [first] + [second] == [first, second];
    assert AllData([first]) == [1, 2] + AllData([]);
    BrokenSource([first], [], UnexpectedEOF, EndOfFile, 3);
  }

  /** An error of any kind arrives with the byte that fills the buffer, and the next
      read reports an end: the copy succeeds. */
  lemma LostErrorIsTaken(err: ReadError)
    ensures Take([Reply([1, 2, 3], Some(err))], EndOfFile, 3, []) == Taken([1, 2, 3], Ended)
  {
    hide Full, Rest, Concat, Take;
    var reply := [Reply([1, 2, 3], Some(err))];
    assert [] + (reply + []) == reply && [] + [1, 2, 3] == [1, 2, 3] && [1, 2, 3] + [] == [1, 2, 3];
    OnePiece([1, 2, 3], 3);
    FirstError([], [1, 2, 3], err, [], EndOfFile, 3);
    CleanSource([], 3);
  }

  /** One read with room for some bytes: the data, the error, and what is left. */
  function NextRead(replies: seq<Reply>, last: ReadError, room: nat): (Bytes, Option<ReadError>, seq<Reply>) {
    if replies == [] then ([], Some(last), [])
    else
      var r := replies[0];
      if |r.data| <= room then (r.data, r.err, replies[1..])
      else (r.data[..room], None, [Reply(r.data[room..], r.err)] + replies[1..])
  }

  /** One read of the reader is one step of what the copy takes. */
  lemma TakeRead(replies: seq<Reply>, last: ReadError, n: nat, held: Bytes)
    requires |held| < n
    ensures var (data, err, rest) := NextRead(replies, last, n - |held|);
      var all, t := held + data, Take(replies, last, n, held);
      if |all| == n then t == Before(all, Take(rest, last, n, []))
      else if err.None? then |all| < n && t == Take(rest, last, n, all)
      else
        && |all| < n
        && match err.value
           case EndOfFile => t == (if all == [] then Taken([], Ended) else Before(all, Take(rest, last, n, [])))
           case WrapsEOF => t == Taken([], Ended)
           case UnexpectedEOF => t == Before(all, Take(rest, last, n, []))
           case OtherError => t == Taken([], Broke)
  {
    hide Take, Full, Rest, Concat;
    if replies == [] {
      TakeLast(last, n, held);
    } else if |replies[0].data| <= n - |held| {
      TakeWhole(replies, last, n, held);
    } else {
      TakePart(replies, last, n, held);
    }
  }

  lemma TakeLast(last: ReadError, n: nat, held: Bytes)
    requires |held| < n
    ensures held + [] == held
    ensures var t, later := Take([], last, n, held), Take([], last, n, []);
      match last
      case EndOfFile => t == (if held == [] then Taken([], Ended) else Before(held, later))
      case WrapsEOF => t == Taken([], Ended)
      case UnexpectedEOF => t == Before(held, later)
      case OtherError => t == Taken([], Broke)
  {
    assert held + [] == held;
  }

  /** The reply fits into the buffer. */
  lemma TakeWhole(replies: seq<Reply>, last: ReadError, n: nat, held: Bytes)
    requires |held| < n && replies != [] && |held| + |replies[0].data| <= n
    ensures var all, err, rest := held + replies[0].data, replies[0].err, replies[1..];
      var t := Take(replies, last, n, held);
      if |all| == n then t == Before(all, Take(rest, last, n, []))
      else if err.None? then t == Take(rest, last, n, all)
      else match err.value
        case EndOfFile => t == (if all == [] then Taken([], Ended) else Before(all, Take(rest, last, n, [])))
        case WrapsEOF => t == Taken([], Ended)
        case UnexpectedEOF => t == Before(all, Take(rest, last, n, []))
        case OtherError => t == Taken([], Broke)
  {
    hide Full, Rest, Concat;
    var all := held + replies[0].data;
    NoPieces();
    if |all| == n {
      OnePiece(all, n);
    } else {
      NothingLeft(all, n);
      var later := Take(replies[1..], last, n, all);
      assert [] + later.data == later.data;
    }
  }

  /** The reply fills the buffer, and the rest of it stays with its error. */
  lemma TakePart(replies: seq<Reply>, last: ReadError, n: nat, held: Bytes)
    requires |held| < n && replies != [] && |held| + |replies[0].data| > n
    ensures var r, room := replies[0], n - |held|;
      Take(replies, last, n, held)
      == Before(held + r.data[..room], Take([Reply(r.data[room..], r.err)] + replies[1..], last, n, []))
  {
    hide Full, Rest, Concat;
    var r, room := replies[0], n - |held|;
    var all, piece, tail := held + r.data, held + r.data[..room], r.data[room..];
    assert all == piece + tail;
    NextPiece(all, piece, tail, n, []);
    FirstOf(piece, tail, n);
    var rest := [Reply(tail, r.err)] + replies[1..];
    assert rest[1..] == replies[1..] && [] + tail == tail;
    Regroup(piece, Concat(Full(tail, n)), Take(replies[1..], last, n, Rest(tail, n)).data);
    Regroup(piece, tail, Take(replies[1..], last, n, []).data);
  }

  lemma OnePiece(all: Bytes, n: nat)
    requires |all| == n > 0
    ensures Concat(Full(all, n)) == all && Rest(all, n) == []
  {
    assert all[..n] == all && all[n..] == [];
    assert Full(all, n) == [all] + Full([], n);
    ConcatCons(all, Full([], n));
  }

  lemma FirstOf(piece: Bytes, tail: Bytes, n: nat)
    requires |piece| == n > 0
    ensures Concat(Full(piece + tail, n)) == piece + Concat(Full(tail, n))
  {
    assert (piece + tail)[..n] == piece && (piece + tail)[n..] == tail;
    ConcatCons(piece, Full(tail, n));
  }

  /** The reader that a copy takes its content from. */
  class Source {
    var replies: seq<Reply>
    /** What every read reports when all replies have been used. */
    const last: ReadError

    constructor (replies: seq<Reply>, last: ReadError)
      ensures this.replies == replies && this.last == last
    {
      this.replies, this.last := replies, last;
    }

    /** How long a reader can still go on delivering. */
    ghost function Size(): nat
      reads this
    {
      |replies| + |AllData(replies)|
    }

    method Read(buf: array<byte>, at: nat) returns (n: nat, err: Option<ReadError>)
      requires at < buf.Length
      modifies this, buf
      ensures n <= buf.Length - at && buf[..at] == old(buf[..at])
      ensures (buf[at..at + n], err, replies) == NextRead(old(replies), last, buf.Length - at)
      ensures n + |AllData(replies)| == |AllData(old(replies))|
      ensures old(replies) != [] ==> Size() < old(Size())
      ensures old(replies) == [] ==> replies == [] && n == 0 && err == Some(last)
    {
      var room := buf.Length - at;
      if replies == [] {
        assert buf[at..at] == [];
        return 0, Some(last);
      }
      var r := replies[0];
      if |r.data| <= room {
        n, err, replies := |r.data|, r.err, replies[1..];
      } else {
        n, err, replies := room, None, [Reply(r.data[room..], r.err)] + replies[1..];
        assert replies[1..] == old(replies)[1..];
      }
      CopyTo(buf, at, r.data[..n]);
      assert buf[at..at + n] == buf[..at + n][at..] == r.data[..n];
      assert n == |r.data| ==> r.data[..n] == r.data;
    }

    /** `io.ReadAtLeast` with a full buffer as the minimum: reads until it is full or an
        error comes. An end after some bytes is reported as unexpected. */
    method ReadAtLeast(buf: array<byte>) returns (n: nat, err: Option<ReadError>)
      requires buf.Length > 0
      modifies this, buf
      ensures n <= buf.Length
      ensures var t, later := Take(old(replies), last, buf.Length, []), Take(replies, last, buf.Length, []);
        match err
        case None => n == buf.Length && t == Before(buf[..n], later)
        case Some(EndOfFile) => n == 0 && t == Taken([], Ended)
        case Some(WrapsEOF) => t == Taken([], Ended)
        case Some(UnexpectedEOF) => t == Before(buf[..n], later)
        case Some(OtherError) => t == Taken([], Broke)
      ensures n + |AllData(replies)| == |AllData(old(replies))|
      ensures old(replies) != [] ==> Size() < old(Size())
      ensures old(replies) == [] ==> replies == [] && n == 0 && err == Some(last)
    {
      hide Take, NextRead;
      n, err := 0, None;
      ghost var was := replies;
      while n < buf.Length && err.None?
        invariant n <= buf.Length
        invariant err.None? && n < buf.Length ==>
          Take(was, last, buf.Length, []) == Take(replies, last, buf.Length, buf[..n])
        invariant n == buf.Length ==>
          Take(was, last, buf.Length, []) == Before(buf[..n], Take(replies, last, buf.Length, []))
        invariant err.Some? && n < buf.Length ==> Reported(was, last, buf[..n], err.value, replies, buf.Length)
        invariant n + |AllData(replies)| == |AllData(was)|
        invariant replies == was ==> n == 0 && (err.None? || (was == [] && err == Some(last)))
        invariant replies != was ==> was != [] && Size() < old(Size())
        decreases |replies| + |AllData(replies)|, if err.None? then 1 else 0
      {
        ghost var held := buf[..n];
        TakeRead(replies, last, buf.Length, held);
        var k;
        k, err := Read(buf, n);
        assert buf[..n + k] == held + buf[n..n + k];
        n := n + k;
      }
      if n >= buf.Length {
        err := None;
      } else if n > 0 && err == Some(EndOfFile) {
        err := Some(UnexpectedEOF);
      }
    }
  }

  /** What an error means that comes before the buffer is full. */
  ghost predicate Reported(was: seq<Reply>, last: ReadError, got: Bytes, err: ReadError, replies: seq<Reply>, n: nat)
    requires n > 0
  {
    var t, later := Take(was, last, n, []), Take(replies, last, n, []);
    match err
    case EndOfFile => t == if got == [] then Taken([], Ended) else Before(got, later)
    case WrapsEOF => t == Taken([], Ended)
    case UnexpectedEOF => t == Before(got, later)
    case OtherError => t == Taken([], Broke)
  }

  /** The writer a copy writes to: the gRPC writer, or the encoders in front of it. They
      deliver some of their output as they get their input, and the rest when they are
      closed, in writes of any size. */
  class Chain {
    const gw: Streams.Writer
    const plain: bool
    const transform: Bytes -> Bytes
    const emitted: Bytes -> Bytes
    const step: nat
    var held: Bytes

    constructor (gw: Streams.Writer, plain: bool, transform: Bytes -> Bytes, emitted: Bytes -> Bytes, step: nat)
      requires step > 0 && EncodesInSteps(transform, emitted)
      ensures this.gw == gw && this.plain == plain && this.transform == transform && this.emitted == emitted
      ensures this.step == step && held == []
    {
      this.gw, this.plain, this.transform, this.emitted := gw, plain, transform, emitted;
      this.step, held := step, [];
    }

    /** What has been written to the chain so far. */
    ghost predicate Holds(header: Header, input: Bytes, healthy: nat)
      reads this, gw, gw.t, gw.s
    {
      && step > 0 && EncodesInSteps(transform, emitted)
      && (!plain ==> held == input)
      && Underway(gw, [], header, Passed(input), healthy)
    }

    /** What has been passed on of what the chain makes of its input. */
    function Passed(input: Bytes): Bytes {
      if plain then input else emitted(input)
    }

    /** What the chain makes of all its input. */
    function Wire(input: Bytes): Bytes {
      if plain then input else transform(input)
    }

    lemma NotEnded(header: Header, input: Bytes, healthy: nat)
      requires Holds(header, input, healthy)
      ensures Unfinished(gw.s.sent)
    {
      SendingIsUnfinished(header, Passed(input), gw.t.Length);
      assert [] + Sending(header, Passed(input), gw.t.Length) == Sending(header, Passed(input), gw.t.Length);
    }

    /** What the chain passes on only grows, and is never more than its output. */
    lemma PassesMore(input: Bytes, p: Bytes, more: Bytes)
      requires EncodesInSteps(transform, emitted)
      ensures Passed(input) <= Passed(input + p) <= Wire(input + p + more)
    {
      if !plain {
        assert emitted(input) <= emitted(input + p);
        assert emitted(input + p) <= emitted(input + p + more) <= transform(input + p + more);
      }
    }

    /** Passes bytes on to the gRPC writer. */
    method Deliver(out: Bytes, ghost header: Header, ghost done: Bytes, ghost more: Bytes, ghost checksum: Bytes,
        ghost healthy: nat)
      returns (ok: bool)
      requires step > 0 && Underway(gw, [], header, done, healthy)
      modifies gw, gw.t, gw.s
      ensures ok ==> Underway(gw, [], header, done + out, healthy)
      ensures !ok ==>
        var frames := [InfoFrame(header)] + FramesOf(done + out + more, checksum, gw.t.Length);
        |frames| > healthy && gw.s.sent == Took([], frames, healthy)
    {
      hide FramesOf, Took, Sending, Underway;
      var i := 0;
      assert done + out[..0] == done;
      while i < |out|
        invariant i <= |out| && Underway(gw, [], header, done + out[..i], healthy)
      {
        var j := if i + step < |out| then i + step else |out|;
        assert done + out[..i] + out[i..j] == done + out[..j];
        assert done + out[..j] + (out[j..] + more) == done + out + more;
        var n;
        n, ok := SendChunk(gw, out[i..j], [], header, done + out[..i], out[j..] + more, checksum, healthy);
        if !ok { return; }
        i := j;
      }
      assert out[..i] == out;
      return true;
    }

    method Write(p: Bytes, ghost header: Header, ghost input: Bytes, ghost more: Bytes, ghost checksum: Bytes,
        ghost healthy: nat)
      returns (ok: bool)
      requires Holds(header, input, healthy)
      modifies this`held, gw, gw.t, gw.s
      ensures ok ==> Holds(header, input + p, healthy)
      ensures !ok ==>
        var frames := [InfoFrame(header)] + FramesOf(Wire(input + p + more), checksum, gw.t.Length);
        |frames| > healthy && gw.s.sent == Took([], frames, healthy)
    {
      hide FramesOf, Took, Sending, Underway, EncodesInSteps;
      PassesMore(input, p, more);
      ghost var rest := Wire(input + p + more)[|Passed(input + p)|..];
      var out := p;
      if !plain {
        out := emitted(held + p)[|emitted(held)|..];
        held := held + p;
      }
      Suffix(Passed(input), out, Passed(input + p), rest, Wire(input + p + more));
      ok := Deliver(out, header, Passed(input), rest, checksum, healthy);
    }

    static lemma Suffix(a: Bytes, b: Bytes, ab: Bytes, rest: Bytes, all: Bytes)
      requires a <= ab <= all && rest == all[|ab|..] && (b == ab[|a|..] || a + b == ab)
      ensures a + b == ab && a + b + rest == all
    {}

    /** The encoders deliver the rest of their output. */
    method Close(ghost header: Header, ghost input: Bytes, ghost checksum: Bytes, ghost healthy: nat) returns (ok: bool)
      requires Holds(header, input, healthy)
      modifies gw, gw.t, gw.s
      ensures ok ==> Underway(gw, [], header, Wire(input), healthy)
      ensures !ok ==>
        var frames := [InfoFrame(header)] + FramesOf(Wire(input), checksum, gw.t.Length);
        |frames| > healthy && gw.s.sent == Took([], frames, healthy)
    {
      hide FramesOf, Took, Sending, Underway, EncodesInSteps;
      if plain { return true; }
      assert input + [] == input && input + [] + [] == input;
      PassesMore(input, [], []);
      ghost var done := emitted(held);
      var out := transform(held)[|emitted(held)|..];
      assert done + out == transform(input) && done + out + [] == transform(input);
      ok := Deliver(out, header, done, [], checksum, healthy);
    }
  }

  /** How a copy can end on the side of the client. */
  datatype CopyEnd = Sent | SendFailed | SourceFailed | NeverReturns

  /** Sends what it takes of its input through the encoders, chunk by chunk, and its
      hash if asked to. Either all of that has been sent and the input was taken for
      complete, or what has been sent is not a complete stream. */
  method Copy(c: Codecs, cfg: Config, src: Source, password: Bytes, masterKeyNonce: Bytes, keyNonce: Bytes, iv: Bytes,
              stream: Sender, step: nat)
    returns (end: CopyEnd, bytesRead: nat, checksum: Bytes)
    requires InSteps(c) && cfg.chunkSize > 0 && stream.sent == [] && step > 0
    modifies src, stream
    ensures var taken := Take(old(src.replies), src.last, cfg.chunkSize, []);
      var frames := CopyFrames(c, cfg, CopyHeader(cfg, masterKeyNonce, keyNonce, iv), password, taken.data);
      && (end == Sent <==> taken.fate == Ended && |frames| <= old(stream.healthy))
      && (end == SendFailed ==> |frames| > old(stream.healthy))
      && (end == SourceFailed ==> taken.fate == Broke)
      && (end == NeverReturns ==> taken.fate == Endless)
      && (end == Sent ==> stream.sent == frames)
      && (end != Sent ==> Unfinished(stream.sent))
      && (end == Sent ==> checksum == if cfg.checksum then c.hash(taken.data) else [])
    ensures bytesRead + |AllData(src.replies)| == |AllData(old(src.replies))|
    ensures end == Sent ==> bytesRead >= |Take(old(src.replies), src.last, cfg.chunkSize, []).data|
    ensures end == Sent ==>
      && stream.sent != []
      && stream.sent[0] == InfoFrame(
           if cfg.encryption then Header(cfg.ttl, false, cfg.compression, masterKeyNonce, keyNonce, iv)
           else Header(cfg.ttl, false, cfg.compression, [], [], []))
      && var data := Take(old(src.replies), src.last, cfg.chunkSize, []).data;
         var small := if cfg.compression then c.compress(data) else data;
         && Payload(stream.sent[1..])
              == (if cfg.encryption then c.seal(password, masterKeyNonce, keyNonce, iv, small) else small)
         && EndingOf(stream.sent[1..], true)
              == Proper(if cfg.checksum && c.hash(data) != [] then Some(c.hash(data)) else None)
         && Framed(stream.sent[1..], Payload(stream.sent[1..]),
              if cfg.checksum then c.hash(data) else [], cfg.chunkSize)
  {
    hide FramesOf, Took, Sending, Unfinished, Underway, Take, InSteps, Encode, EncodesInSteps, Framed;
    var header := CopyHeader(cfg, masterKeyNonce, keyNonce, iv);
    ghost var taken, healthy := Take(src.replies, src.last, cfg.chunkSize, []), stream.healthy;
    ghost var sum := if cfg.checksum then c.hash(taken.data) else [];
    ghost var frames := CopyFrames(c, cfg, header, password, taken.data);
    var t := new byte[cfg.chunkSize];
    var gw := new Streams.Writer(stream, t);
    InStepsEncoder(c, header, cfg.encryption, password);
    assert EncoderInSteps(c, header, cfg.encryption, password);
    var w := new Chain(gw, !cfg.compression && !cfg.encryption,
      x => Encode(c, header, cfg.encryption, password, x), x => c.emitted(header, cfg.encryption, password, x), step);
    PlainIsWire(c, cfg, header, password, taken.data);
    checksum, bytesRead := [], 0;
    CutIsUnfinished(header, w.Wire(taken.data), sum, cfg.chunkSize, healthy);
    NothingYet([], frames, header, cfg.chunkSize);
    var ok := stream.Send(InfoFrame(header));
    if !ok { return SendFailed, 0, []; }
    JustStarted(gw, header, healthy);
    assert w.Holds(header, [], healthy) by { NothingPassed(w); }
    end, bytesRead, checksum := SendContent(c, cfg, src, w, header, healthy);
    if end != Sent { return; }
    ok := SendRest(gw, checksum, [], header, w.Wire(taken.data), healthy);
    if !ok { return SendFailed, bytesRead, []; }
    TookAll([], frames, healthy);
    SentIs(c, cfg, password, masterKeyNonce, keyNonce, iv, taken.data);
  }

  /** The messages of a copy, without the functions that build them. */
  lemma SentIs(c: Codecs, cfg: Config, password: Bytes, masterKeyNonce: Bytes, keyNonce: Bytes, iv: Bytes, data: Bytes)
    requires cfg.chunkSize > 0
    ensures var frames := CopyFrames(c, cfg, CopyHeader(cfg, masterKeyNonce, keyNonce, iv), password, data);
      && frames[0] == InfoFrame(
           if cfg.encryption then Header(cfg.ttl, false, cfg.compression, masterKeyNonce, keyNonce, iv)
           else Header(cfg.ttl, false, cfg.compression, [], [], []))
      && var small := if cfg.compression then c.compress(data) else data;
         && Payload(frames[1..])
              == (if cfg.encryption then c.seal(password, masterKeyNonce, keyNonce, iv, small) else small)
         && EndingOf(frames[1..], true)
              == Proper(if cfg.checksum && c.hash(data) != [] then Some(c.hash(data)) else None)
         && Framed(frames[1..], Payload(frames[1..]), if cfg.checksum then c.hash(data) else [], cfg.chunkSize)
  {
    hide FramesOf, Payload, EndingOf, Framed;
    var header := CopyHeader(cfg, masterKeyNonce, keyNonce, iv);
    var wire := Encode(c, header, cfg.encryption, password, data);
    var sum := if cfg.checksum then c.hash(data) else [];
    assert CopyFrames(c, cfg, header, password, data)[1..] == FramesOf(wire, sum, cfg.chunkSize);
    PayloadOfFrames(wire, sum, cfg.chunkSize);
    FramesAreFramed(wire, sum, cfg.chunkSize);
  }

  lemma InStepsEncoder(c: Codecs, header: Header, encryption: bool, password: Bytes)
    requires InSteps(c)
    ensures EncoderInSteps(c, header, encryption, password)
  {
    hide EncoderInSteps;
  }

  lemma PlainIsWire(c: Codecs, cfg: Config, header: Header, password: Bytes, data: Bytes)
    requires header.compressed == cfg.compression
    ensures !cfg.compression && !cfg.encryption ==> Encode(c, header, cfg.encryption, password, data) == data
  {}

  lemma NothingPassed(w: Chain)
    requires EncodesInSteps(w.transform, w.emitted)
    ensures w.Passed([]) == []
  {}

  /** The read loop, and closing the encoders. */
  method SendContent(c: Codecs, cfg: Config, src: Source, w: Chain, ghost header: Header, ghost healthy: nat)
    returns (end: CopyEnd, bytesRead: nat, checksum: Bytes)
    requires cfg.chunkSize > 0 && w.Holds(header, [], healthy) && w.gw.t.Length == cfg.chunkSize
    modifies src, w`held, w.gw, w.gw.t, w.gw.s
    ensures var taken := Take(old(src.replies), src.last, cfg.chunkSize, []);
      var sum := if cfg.checksum then c.hash(taken.data) else [];
      match end
      case Sent =>
        && taken.fate == Ended && Underway(w.gw, [], header, w.Wire(taken.data), healthy)
        && bytesRead >= |taken.data| && checksum == sum
      case SendFailed => StreamCut(w, header, taken.data, sum, healthy)
      case SourceFailed => taken.fate == Broke && Unfinished(w.gw.s.sent)
      case NeverReturns => taken.fate == Endless && Unfinished(w.gw.s.sent)
    ensures bytesRead + |AllData(src.replies)| == |AllData(old(src.replies))|
  {
    hide Underway, Take, EncodesInSteps, Unfinished, StreamCut;
    ghost var taken := Take(src.replies, src.last, cfg.chunkSize, []);
    ghost var sum := if cfg.checksum then c.hash(taken.data) else [];
    var hashed;
    end, bytesRead, hashed := PassOn(cfg, src, w, header, sum, healthy);
    if end != Sent { return end, bytesRead, []; }
    var ok := CloseAll(w, header, taken.data, sum, healthy);
    if !ok { return SendFailed, bytesRead, []; }
    checksum := if cfg.checksum then c.hash(hashed) else [];
  }

  /** The peer stopped taking messages before the end of the stream. */
  ghost predicate StreamCut(w: Chain, header: Header, data: Bytes, checksum: Bytes, healthy: nat)
    reads w.gw, w.gw.s
    requires w.gw.t.Length > 0
  {
    var frames := [InfoFrame(header)] + FramesOf(w.Wire(data), checksum, w.gw.t.Length);
    |frames| > healthy && w.gw.s.sent == Took([], frames, healthy)
  }

  method CloseAll(w: Chain, ghost header: Header, ghost data: Bytes, ghost checksum: Bytes, ghost healthy: nat)
    returns (ok: bool)
    requires w.Holds(header, data, healthy) && w.gw.t.Length > 0
    modifies w.gw, w.gw.t, w.gw.s
    ensures ok ==> Underway(w.gw, [], header, w.Wire(data), healthy)
    ensures !ok ==> StreamCut(w, header, data, checksum, healthy)
  {
    ok := w.Close(header, data, checksum, healthy);
  }

  method WritePart(w: Chain, p: Bytes, ghost header: Header, ghost input: Bytes, ghost more: Bytes, ghost sum: Bytes,
                   ghost healthy: nat)
    returns (ok: bool)
    requires w.Holds(header, input, healthy) && w.gw.t.Length > 0
    modifies w`held, w.gw, w.gw.t, w.gw.s
    ensures ok ==> w.Holds(header, input + p, healthy)
    ensures !ok ==> StreamCut(w, header, input + p + more, sum, healthy)
  {
    ok := w.Write(p, header, input, more, sum, healthy);
  }

  /** The read loop. A reader that reports an unexpected end for ever keeps it going
      without sending anything more. */
  method PassOn(cfg: Config, src: Source, w: Chain, ghost header: Header, ghost sum: Bytes, ghost healthy: nat)
    returns (end: CopyEnd, bytesRead: nat, hashed: Bytes)
    requires cfg.chunkSize > 0 && w.Holds(header, [], healthy) && w.gw.t.Length == cfg.chunkSize
    modifies src, w`held, w.gw, w.gw.t, w.gw.s
    ensures var taken := Take(old(src.replies), src.last, cfg.chunkSize, []);
      match end
      case Sent =>
        && taken.fate == Ended && w.Holds(header, taken.data, healthy)
        && bytesRead >= |taken.data| && (cfg.checksum ==> hashed == taken.data)
      case SendFailed => StreamCut(w, header, taken.data, sum, healthy)
      case SourceFailed => taken.fate == Broke && Unfinished(w.gw.s.sent)
      case NeverReturns => taken.fate == Endless && Unfinished(w.gw.s.sent)
    ensures bytesRead + |AllData(src.replies)| == |AllData(old(src.replies))|
  {
    hide FramesOf, Took, Sending, Unfinished, Underway, Take, EncodesInSteps, AllData, StreamCut;
    ghost var n, taken := cfg.chunkSize, Take(src.replies, src.last, cfg.chunkSize, []);
    var buf := new byte[cfg.chunkSize];
    ghost var input: Bytes := [];
    bytesRead, hashed := 0, [];
    assert [] + taken.data == taken.data;
    while true
      invariant w.Holds(header, input, healthy) && taken == Before(input, Take(src.replies, src.last, n, []))
      invariant bytesRead + |AllData(src.replies)| == |AllData(old(src.replies))|
      invariant bytesRead >= |input| && (cfg.checksum ==> hashed == input)
      decreases src.Size()
    {
      var used := src.replies == [];
      var nr, err := src.ReadAtLeast(buf);
      bytesRead := bytesRead + nr;
      w.NotEnded(header, input, healthy);
      if err == Some(OtherError) { return SourceFailed, bytesRead, hashed; }
      if err == Some(EndOfFile) || err == Some(WrapsEOF) {
        assert input + [] == input;
        return Sent, bytesRead, hashed;
      }
      if nr == 0 && used {
        NothingChanges(src.last, n);
        return NeverReturns, bytesRead, hashed;
      }
      ghost var rest := Take(src.replies, src.last, n, []);
      Regroup(input, buf[..nr], rest.data);
      var ok := WritePart(w, buf[..nr], header, input, rest.data, sum, healthy);
      if !ok { return SendFailed, bytesRead, hashed; }
      input := input + buf[..nr];
      if cfg.checksum { hashed := hashed + buf[..nr]; }
    }
  }

  /** A reader with no data left that reports an unexpected end is where it was before. */
  lemma NothingChanges(last: ReadError, n: nat)
    requires n > 0
    ensures last == UnexpectedEOF ==> Take([], last, n, []) == Taken([], Endless)
  {}

  lemma JustStarted(gw: Streams.Writer, header: Header, healthy: nat)
    requires gw.Valid() && gw.Pending() == [] && gw.s.sent == [InfoFrame(header)] && gw.s.healthy + 1 == healthy
    ensures Underway(gw, [], header, [], healthy)
  {
    NothingYet([], [], header, gw.t.Length);
  }

  // ------------------------------------------------------------------- paste

  datatype PasteEnd = Pasted | Refused(message: Bytes) | ProtocolError | StreamError | BadSize | BadSum

  predicate Encrypted(info: Header) {
    |info.masterKeyNonce| == NONCE_SIZE && |info.keyNonce| == NONCE_SIZE
  }

  /** What the decoders make of a whole payload, if they accept it. */
  function Decode(c: Codecs, info: Header, password: Bytes, payload: Bytes): Option<Bytes> {
    var small := if Encrypted(info) then c.unseal(password, info.masterKeyNonce, info.keyNonce, info.iv, payload)
                 else Some(payload);
    if small.Some? && info.compressed then c.decompress(small.value) else small
  }

  /** The content of the messages after the header, if they are complete and the
      decoders accept them. */
  function Content(c: Codecs, info: Header, password: Bytes, rest: seq<Frame>, clean: bool): Option<Bytes> {
    if EndingOf(rest, clean).Proper? then Decode(c, info, password, Payload(rest)) else None
  }

  function SumOf(end: Ending): Bytes {
    if end.Proper? && end.checksum.Some? then end.checksum.value else []
  }

  /** What a paste must report for the messages it gets. */
  function Verdict(c: Codecs, password: Bytes, frames: seq<Frame>, clean: bool): PasteEnd {
    if frames == [] then StreamError
    else match frames[0]
      case ErrorFrame(_, message) => Refused(message)
      case InfoFrame(info) =>
        var rest := frames[1..];
        var data := Content(c, info, password, rest, clean);
        var sum := SumOf(EndingOf(rest, clean));
        if data == None then StreamError
        else if info.hasChecksum && |sum| != SHA256_SIZE then BadSize
        else if info.hasChecksum && sum != c.hash(data.value) then BadSum
        else Pasted
      case _ => ProtocolError
  }

  /** What a paste may put out of a payload: all of its content at a proper end, and
      before that as much as the decoders have delivered. */
  function Shown(c: Codecs, info: Header, password: Bytes, rest: seq<Frame>, clean: bool): Bytes {
    var content := Content(c, info, password, rest, clean);
    if content.Some? then content.value
    else if Plain(info) then Payload(rest)
    else c.unwrapped(info, password, Payload(rest))
  }

  predicate Plain(info: Header) {
    !Encrypted(info) && !info.compressed
  }

  /** The reader a paste reads from: the gRPC reader, or the decoders behind it. They
      read on when they have nothing more to deliver, deliver in reads of any size, and
      check their input as a whole at its end. */
  class Input {
    const gr: Streams.Reader
    const plain: bool
    const transform: Bytes -> Option<Bytes>
    const unwrapped: Bytes -> Bytes
    const grain: nat
    /** All there is to read when the input is set up, and how it ends. */
    ghost const whole: Bytes
    ghost const ending: Ending
    var raw: Bytes
    var final: Option<Bytes>
    var served: nat

    constructor (gr: Streams.Reader, plain: bool, transform: Bytes -> Option<Bytes>, unwrapped: Bytes -> Bytes,
        grain: nat)
      requires grain > 0 && gr.Valid() && gr.r.checksum == [] && DecodesInSteps(transform, unwrapped)
      ensures this.gr == gr && this.plain == plain && this.transform == transform && this.unwrapped == unwrapped
      ensures whole == gr.Ahead() && ending == gr.End()
      ensures Valid() && Put() == []
    {
      this.gr, this.plain, this.transform, this.unwrapped, this.grain := gr, plain, transform, unwrapped, grain;
      whole, ending := gr.Ahead(), gr.End();
      raw, final, served := [], None, 0;
    }

    ghost predicate Valid()
      reads this, gr, gr.r
    {
      && grain > 0 && gr.Valid() && DecodesInSteps(transform, unwrapped)
      && (if final.Some? then
            !plain && ending.Proper? && transform(whole) == final && gr.r.checksum == SumOf(ending)
          else gr.End() == ending && gr.r.checksum == [])
      && (plain ==> served <= |whole| && whole[served..] == gr.Ahead())
      && (!plain ==> served <= |Ready()|)
      && (!plain && final.None? ==> raw + gr.Ahead() == whole)
    }

    /** What the decoders have delivered or can deliver without reading on. */
    function Ready(): Bytes
      reads this
    {
      if final.Some? then final.value else unwrapped(raw)
    }

    /** What has been put out. */
    ghost function Put(): Bytes
      requires Valid()
      reads this, gr, gr.r
    {
      if plain then whole[..served] else Ready()[..served]
    }

    /** All the content, if it can be read to its end. */
    ghost function All(): Option<Bytes>
      reads this
    {
      if ending.Broken? then None else if plain then Some(whole) else transform(whole)
    }

    /** Whatever has been put out is the beginning of this. */
    ghost function Most(): Bytes
      reads this
    {
      if All().Some? then All().value else if plain then whole else unwrapped(whole)
    }

    lemma PutIsShown()
      requires Valid()
      ensures Put() <= Most()
    {
      if !plain && final.None? {
        assert unwrapped(raw) <= unwrapped(raw + gr.Ahead());
      }
    }

    /** Progress: the end is reached once, and before that there is less to read or to
        deliver each time. */
    ghost function Unread(): nat
      requires Valid()
      reads this, gr, gr.r
    {
      if final.Some? then 0 else 1 + |gr.Ahead()|
    }

    ghost function Unserved(): nat
      requires Valid()
      reads this, gr, gr.r
    {
      if plain then 0 else |Ready()| - served
    }

    method Read(p: array<byte>) returns (n: nat, status: Status)
      requires Valid() && p.Length > 0
      modifies this`raw, this`final, this`served, gr, gr.r, p
      ensures n <= p.Length && (status == Failure ==> n == 0)
      ensures status == Failure ==> All() == None
      ensures status == Data ==> Valid() && Put() == old(Put()) + p[..n]
      ensures status == Data ==> Unread() < old(Unread()) || (Unread() == old(Unread()) && Unserved() < old(Unserved()))
      ensures status == EOF ==> All() == Some(old(Put()) + p[..n]) && gr.r.checksum == SumOf(ending)
    {
      hide Streams.Payload, EndingOf, DecodesInSteps;
      if plain {
        n, status := ReadPlain(p);
        return;
      }
      var ok := Fill();
      if !ok { return 0, Failure; }
      n := Serve(p);
      status := if n == 0 then EOF else Data;
    }

    /** Delivers what is ready, as far as p has room. */
    method Serve(p: array<byte>) returns (n: nat)
      requires Valid() && !plain && p.Length > 0 && (served < |Ready()| || final.Some?)
      modifies this`served, p
      ensures Valid() && n <= p.Length && Put() == old(Put()) + p[..n] && Unread() == old(Unread())
      ensures n > 0 ==> Unserved() < old(Unserved())
      ensures n == 0 ==> final == Some(Put())
    {
      hide Streams.Payload, EndingOf, DecodesInSteps;
      var ready := Ready();
      n := Min(grain, Min(p.Length, |ready| - served));
      CopyTo(p, 0, ready[served..served + n]);
      assert p[..n] == ready[served..served + n];
      assert ready[..served + n] == ready[..served] + ready[served..served + n];
      served := served + n;
      assert served == |ready| ==> ready[..served] == ready;
    }

    method ReadPlain(p: array<byte>) returns (n: nat, status: Status)
      requires Valid() && plain && p.Length > 0
      modifies this`served, gr, gr.r, p
      ensures n <= p.Length && (status == Failure ==> n == 0 && All() == None)
      ensures status == Data ==> Valid() && Put() == old(Put()) + p[..n] && Unread() < old(Unread())
      ensures status == EOF ==> All() == Some(old(Put()) + p[..n]) && gr.r.checksum == SumOf(ending)
    {
      hide Streams.Payload, EndingOf, DecodesInSteps;
      ghost var ahead := gr.Ahead();
      assert whole == whole[..served] + whole[served..];
      n, status := gr.Read(p);
      if status == Data {
        assert p[..n] == p[..] && ahead == ahead[..n] + ahead[n..];
        assert whole[..served + n] == whole[..served] + ahead[..n] && whole[served + n..] == ahead[n..];
        served := served + n;
      }
    }

    /** Reads on until there is something to deliver, or everything has been read. */
    method Fill() returns (ok: bool)
      requires Valid() && !plain
      modifies this`raw, this`final, gr, gr.r
      ensures ok ==> Valid() && Put() == old(Put()) && served == old(served)
      ensures ok ==> served < |Ready()| || final.Some?
      ensures ok ==> Unread() < old(Unread()) || (Unread() == old(Unread()) && Ready() == old(Ready()))
      ensures !ok ==> All() == None
    {
      hide Streams.Payload, EndingOf, DecodesInSteps;
      var buf := new byte[grain + 1];
      ghost var put := Put();
      while served == |Ready()| && final.None?
        invariant Valid() && Put() == put && fresh(buf) && served == old(served)
        invariant Unread() < old(Unread()) || (Unread() == old(Unread()) && Ready() == old(Ready()))
        decreases Unread()
      {
        ok := ReadOn(buf);
        if !ok { return; }
      }
      return true;
    }

    /** One read on, and the check of the whole input if that was the last one. */
    method ReadOn(buf: array<byte>) returns (ok: bool)
      requires Valid() && !plain && final.None? && buf.Length > 0
      modifies this`raw, this`final, gr, gr.r, buf
      ensures ok ==> Valid() && Put() == old(Put()) && Unread() < old(Unread())
      ensures !ok ==> All() == None
    {
      hide Streams.Payload, EndingOf, DecodesInSteps;
      ghost var ahead, before := gr.Ahead(), Ready();
      var n, status := gr.Read(buf);
      if status == Failure { return false; }
      OpensMore(raw, buf[..n], ahead);
      raw := raw + buf[..n];
      if status == EOF {
        assert buf[..n] == ahead && raw == whole;
        if transform(raw).None? { return false; }
        final := transform(raw);
      } else {
        assert buf[..n] == buf[..] && buf[..n] + gr.Ahead() == ahead;
        assert raw + gr.Ahead() == whole;
      }
      assert Ready()[..served] == before[..served];
      return true;
    }

    /** Reading on, the decoders deliver more of the same. */
    lemma OpensMore(x: Bytes, y: Bytes, ahead: Bytes)
      requires DecodesInSteps(transform, unwrapped)
      ensures unwrapped(x) <= unwrapped(x + y) && (transform(x + y).Some? ==> unwrapped(x) <= transform(x + y).value)
    {
      assert unwrapped(x) <= unwrapped(x + y);
    }
  }

  function Min(a: nat, b: nat): nat {
    if a < b then a else b
  }

  /** Writes what it gets to the output, and checks the hash if one was announced. A
      stream that breaks off or fails a decoder is reported. What has been put out is
      the beginning of the content whatever happens, and all of it under a verdict
      other than a broken stream. */
  method Paste(c: Codecs, password: Bytes, chunkSize: i64, frames: seq<Frame>, clean: bool, grain: nat)
    returns (end: PasteEnd, out: Bytes)
    requires InSteps(c) && chunkSize > 0 && grain > 0
    ensures end == Verdict(c, password, frames, clean)
    ensures end == Pasted || end == BadSize || end == BadSum ==>
      Content(c, frames[0].header, password, frames[1..], clean) == Some(out)
    ensures frames != [] && frames[0].InfoFrame? ==> out <= Shown(c, frames[0].header, password, frames[1..], clean)
    ensures frames == [] || !frames[0].InfoFrame? ==> out == []
    ensures frames == [] ==> end == StreamError
    ensures frames != [] && frames[0].ErrorFrame? ==> end == Refused(frames[0].message)
    ensures frames != [] && !frames[0].ErrorFrame? && !frames[0].InfoFrame? ==> end == ProtocolError
    ensures frames != [] && frames[0].InfoFrame? ==>
      var info, payload, ending := frames[0].header, Payload(frames[1..]), EndingOf(frames[1..], clean);
      var small := if |info.masterKeyNonce| == 32 && |info.keyNonce| == 32
                   then c.unseal(password, info.masterKeyNonce, info.keyNonce, info.iv, payload) else Some(payload);
      var content := if small.Some? && info.compressed then c.decompress(small.value) else small;
      && (end == StreamError <==> ending == Broken || content == None)
      && (end != StreamError ==> content == Some(out))
      && (end == BadSize <==>
            && ending != Broken && content.Some? && info.hasChecksum
            && (ending.checksum.None? || |ending.checksum.value| != 32))
      && (end == BadSum <==>
            && ending != Broken && content.Some? && info.hasChecksum
            && ending.checksum.Some? && |ending.checksum.value| == 32 && ending.checksum.value != c.hash(out))
      && (end == Pasted <==>
            && ending != Broken && content.Some?
            && (info.hasChecksum ==> ending == Proper(Some(c.hash(out))) && |c.hash(out)| == 32))
  {
    hide InSteps, Shown, Streams.Payload, EndingOf;
    end, out := PasteStream(c, password, chunkSize, frames, clean, grain);
  }

  /** What a paste does with its messages. */
  method PasteStream(c: Codecs, password: Bytes, chunkSize: i64, frames: seq<Frame>, clean: bool, grain: nat)
    returns (end: PasteEnd, out: Bytes)
    requires InSteps(c) && chunkSize > 0 && grain > 0
    ensures end == Verdict(c, password, frames, clean)
    ensures end == Pasted || end == BadSize || end == BadSum ==>
      Content(c, frames[0].header, password, frames[1..], clean) == Some(out)
    ensures frames != [] && frames[0].InfoFrame? ==> out <= Shown(c, frames[0].header, password, frames[1..], clean)
    ensures frames == [] || !frames[0].InfoFrame? ==> out == []
  {
    hide Streams.Payload, EndingOf, InSteps, DecodesInSteps, Decode;
    if frames == [] { return StreamError, []; }
    if frames[0].ErrorFrame? { return Refused(frames[0].message), []; }
    if !frames[0].InfoFrame? { return ProtocolError, []; }
    var info := frames[0].header;
    var receiver := new Receiver(frames[1..], clean);
    var gr := new Streams.Reader(receiver);
    InStepsDecoder(c, info, password);
    var r := new Input(gr, Plain(info), x => Decode(c, info, password, x), x => c.unwrapped(info, password, x), grain);
    PlainIsContent(c, info, password, Streams.Payload(frames[1..]));
    var done, hashed;
    done, out, hashed := Pull(r, chunkSize, info.hasChecksum);
    if !done { return StreamError, out; }
    if info.hasChecksum {
      if |receiver.checksum| != SHA256_SIZE { return BadSize, out; }
      if receiver.checksum != c.hash(hashed) { return BadSum, out; }
    }
    return Pasted, out;
  }

  lemma InStepsDecoder(c: Codecs, info: Header, password: Bytes)
    requires InSteps(c)
    ensures DecoderInSteps(c, info, password)
  {
    hide DecoderInSteps;
  }

  lemma PlainIsContent(c: Codecs, info: Header, password: Bytes, payload: Bytes)
    ensures Plain(info) ==> Decode(c, info, password, payload) == Some(payload)
  {}

  /** The read loop: everything goes to the output, and to the hash if there is one. */
  method Pull(r: Input, chunkSize: i64, hashing: bool) returns (done: bool, out: Bytes, hashed: Bytes)
    requires chunkSize > 0 && r.Valid() && r.Put() == []
    modifies r`raw, r`final, r`served, r.gr, r.gr.r
    ensures done <==> r.All().Some?
    ensures done ==> Some(out) == r.All() && r.gr.r.checksum == SumOf(r.ending)
    ensures out <= r.Most() && (hashing ==> hashed == out)
  {
    hide Streams.Payload, EndingOf, DecodesInSteps;
    var buf := new byte[chunkSize];
    out, hashed := [], [];
    while true
      invariant r.Valid() && fresh(buf) && r.Put() == out
      invariant hashing ==> hashed == out
      decreases r.Unread(), r.Unserved()
    {
      r.PutIsShown();
      var n, status := r.Read(buf);
      if status == Failure { return false, out, hashed; }
      if hashing { hashed := hashed + buf[..n]; }
      out := out + buf[..n];
      if status == EOF { return true, out, hashed; }
    }
  }
}
