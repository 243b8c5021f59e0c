/** From socket bytes to Shine frames (`Link::readerLoop` and the handshake's frame reader in src/transport/link.cpp). */
module FrameStream {
  import opened Octets
  import opened ShineFrames
  import opened ReadBuffers
  import Resp2

  datatype Outcome = Ongoing | ParseFailed(parse: Resp2.Error) | DecodeFailed(decode: DecodeError)

  /** The frames found so far, how the scan stands, and the bytes of a frame that is not complete yet. */
  datatype Stream = Stream(frames: seq<ShineFrame>, outcome: Outcome, rest: Bytes)

  // ---------------- what a byte stream means ----------------

  function DecodeStream(data: Bytes, maxBulk: nat): Stream
    decreases |data|
  {
    match Resp2.Parse(data, maxBulk)
    case Incomplete => Stream([], Ongoing, data)
    case Malformed(e) => Stream([], ParseFailed(e), [])
    case Complete(n, rf) =>
      match Decode(rf)
      case Err(e) => Stream([], DecodeFailed(e), [])
      case Ok(f) => Push(f, DecodeStream(data[n..], maxBulk))
  }

  function Push(f: ShineFrame, s: Stream): Stream {
    s.(frames := [f] + s.frames)
  }

  /** A stream with more bytes behind it: a failed one stays failed, an ongoing one goes on from its unfinished frame. */
  function Feed(s: Stream, more: Bytes, maxBulk: nat): Stream {
    if !s.outcome.Ongoing? then s
    else
      var t := DecodeStream(s.rest + more, maxBulk);
      t.(frames := s.frames + t.frames)
  }

  function FeedAll(s: Stream, chunks: seq<Bytes>, maxBulk: nat): Stream
    decreases chunks
  {
    if chunks == [] then s else FeedAll(Feed(s, chunks[0], maxBulk), chunks[1..], maxBulk)
  }

  function WireAll(fs: seq<ShineFrame>): Bytes {
    if fs == [] then [] else Wire(fs[0]) + WireAll(fs[1..])
  }

  // ---------------- chunk independence ----------------

  lemma {:induction false} FeedIsAppend(a: Bytes, b: Bytes, maxBulk: nat)
    ensures DecodeStream(a + b, maxBulk) == Feed(DecodeStream(a, maxBulk), b, maxBulk)
    decreases |a|
  {
    hide Resp2.Parse, Decode;
    var r := Resp2.Parse(a, maxBulk);
    if r.Incomplete? {
      var t := DecodeStream(a + b, maxBulk);
      assert [] + t.frames == t.frames;
    } else {
      Resp2.ParseExtend(a, maxBulk, b);
      if r.Complete? && Decode(r.frame).Ok? {
        assert (a + b)[r.consumed..] == a[r.consumed..] + b;
        FeedIsAppend(a[r.consumed..], b, maxBulk);
        FeedPush(Decode(r.frame).value, DecodeStream(a[r.consumed..], maxBulk), b, maxBulk);
      }
    }
  }

  lemma {:induction false} FeedPush(f: ShineFrame, s: Stream, more: Bytes, maxBulk: nat)
    ensures Feed(Push(f, s), more, maxBulk) == Push(f, Feed(s, more, maxBulk))
  {
    if s.outcome.Ongoing? {
      var t := DecodeStream(s.rest + more, maxBulk);
      assert [f] + s.frames + t.frames == [f] + (s.frames + t.frames);
    }
  }

  /** However the bytes are cut into socket reads, the frames and the point of failure are the same. */
  lemma {:induction false} ChunkIndependence(start: Bytes, chunks: seq<Bytes>, maxBulk: nat)
    ensures FeedAll(DecodeStream(start, maxBulk), chunks, maxBulk) == DecodeStream(start + Flatten(chunks), maxBulk)
    decreases chunks
  {
    hide DecodeStream, Feed;
    if chunks == [] {
      assert start + [] == start;
    } else {
      FeedIsAppend(start, chunks[0], maxBulk);
      ChunkIndependence(start + chunks[0], chunks[1..], maxBulk);
      assert start + chunks[0] + Flatten(chunks[1..]) == start + Flatten(chunks);
    }
  }

  // ---------------- the codec on whole streams ----------------

  predicate FitsLink(f: ShineFrame, maxBulk: nat) {
    Resp2.Fits(Encoded(f), maxBulk)
  }

  /** One encoded frame in front of anything. */
  lemma {:induction false} DecodeStep(f: ShineFrame, tail: Bytes, maxBulk: nat)
    requires FitsLink(f, maxBulk)
    ensures DecodeStream(Wire(f) + tail, maxBulk) == Push(f, DecodeStream(tail, maxBulk))
  {
    Resp2.ParseAfterPrint(Encoded(f), maxBulk, tail);
    DecodeAfterEncode(f);
    assert (Wire(f) + tail)[|Wire(f)|..] == tail;
  }

  lemma {:induction false} PartialFrame(next: ShineFrame, k: nat, maxBulk: nat)
    requires FitsLink(next, maxBulk) && k < |Wire(next)|
    ensures DecodeStream(Wire(next)[..k], maxBulk) == Stream([], Ongoing, Wire(next)[..k])
  {
    Resp2.PrefixIsIncomplete(Encoded(next), maxBulk, k);
  }

  /** Round trip on streams: the concatenated encodings of any frames, followed by a proper part of one more
      encoding, decode to exactly those frames; the unfinished part is kept and is never an error. */
  lemma {:induction false} StreamRoundTrip(fs: seq<ShineFrame>, next: ShineFrame, k: nat, maxBulk: nat)
    requires forall i :: 0 <= i < |fs| ==> FitsLink(fs[i], maxBulk)
    requires FitsLink(next, maxBulk) && k < |Wire(next)|
    ensures DecodeStream(WireAll(fs) + Wire(next)[..k], maxBulk) == Stream(fs, Ongoing, Wire(next)[..k])
    decreases fs
  {
    hide DecodeStream, Wire, FitsLink;
    var part := Wire(next)[..k];
    if fs == [] {
      assert WireAll(fs) + part == part;
      PartialFrame(next, k, maxBulk);
    } else {
      assert WireAll(fs) + part == Wire(fs[0]) + (WireAll(fs[1..]) + part);
      DecodeStep(fs[0], WireAll(fs[1..]) + part, maxBulk);
      StreamRoundTrip(fs[1..], next, k, maxBulk);
      assert [fs[0]] + fs[1..] == fs;
    }
  }

  /** Nothing is left over when the stream ends on a frame boundary. */
  lemma {:induction false} WholeStreamRoundTrip(fs: seq<ShineFrame>, maxBulk: nat)
    requires forall i :: 0 <= i < |fs| ==> FitsLink(fs[i], maxBulk)
    ensures DecodeStream(WireAll(fs), maxBulk) == Stream(fs, Ongoing, [])
    decreases fs
  {
    hide Wire, FitsLink;
    if fs != [] {
      DecodeStep(fs[0], WireAll(fs[1..]), maxBulk);
      WholeStreamRoundTrip(fs[1..], maxBulk);
      assert [fs[0]] + fs[1..] == fs;
    }
  }

  /** Encoding is injective on streams: two frame lists with the same bytes are the same list. */
  lemma {:induction false} WireAllInjective(a: seq<ShineFrame>, b: seq<ShineFrame>, maxBulk: nat)
    requires forall i :: 0 <= i < |a| ==> FitsLink(a[i], maxBulk)
    requires forall i :: 0 <= i < |b| ==> FitsLink(b[i], maxBulk)
    requires WireAll(a) == WireAll(b)
    ensures a == b
  {
    WholeStreamRoundTrip(a, maxBulk);
    WholeStreamRoundTrip(b, maxBulk);
  }

  // ---------------- the reader coroutine ----------------

  lemma {:induction false} NoFrame(data: Bytes, maxBulk: nat)
    requires Resp2.Parse(data, maxBulk).Incomplete?
    ensures DecodeStream(data, maxBulk) == Stream([], Ongoing, data)
  {
  }

  /** A frame, or an error, that the buffered bytes already show is what the whole stream starts with. */
  lemma {:induction false} FirstFrame(data: Bytes, later: Bytes, maxBulk: nat)
    requires !Resp2.Parse(data, maxBulk).Incomplete?
    ensures DecodeStream(data + later, maxBulk) ==
            match Resp2.Parse(data, maxBulk) {
              case Malformed(e) => Stream([], ParseFailed(e), [])
              case Complete(n, rf) =>
                match Decode(rf) {
                  case Err(e) => Stream([], DecodeFailed(e), [])
                  case Ok(f) => Push(f, DecodeStream((data + later)[n..], maxBulk))
                }
            }
  {
    hide Resp2.Parse, Decode;
    Resp2.ParseExtend(data, maxBulk, later);
  }

  /** A TCP stream that hands out its bytes in pieces of any size, `cuts` standing for the network's choices. */
  class Socket {
    var incoming: Bytes
    var cuts: seq<nat>

    constructor (incoming: Bytes, cuts: seq<nat>)
      ensures this.incoming == incoming && this.cuts == cuts
    {
      this.incoming, this.cuts := incoming, cuts;
    }

    /** `async_read_some` into a buffer of `max` bytes. An empty result is end of file, and a zero-length buffer
        produces one too. */
    method ReadSome(max: nat) returns (chunk: Bytes)
      modifies this
      ensures |chunk| <= max && old(incoming) == chunk + incoming
      ensures chunk == [] ==> max == 0 || incoming == []
    {
      var wish := if cuts == [] then |incoming| else cuts[0];
      var n := Min(Min(if wish == 0 then 1 else wish, max), |incoming|);
      cuts := if cuts == [] then [] else cuts[1..];
      chunk, incoming := incoming[..n], incoming[n..];
    }
  }

  datatype ReadError = Broken(outcome: Outcome) | Eof

  datatype Attempted = Short | Got(frame: ShineFrame) | Bad(outcome: Outcome)

  datatype EndReason = Ended(error: ReadError) | Unexpected(frame: ShineFrame) | LinkClosed

  class FrameReader {
    const socket: Socket
    const buffer: ReadBuffer
    const maxBulk: nat
    var dispatched: seq<ShineFrame>

    ghost predicate Valid()
      reads this, buffer
    {
      buffer.Valid() && buffer.buf.Length >= INITIAL_CAPACITY
    }

    /** All the bytes still to be decoded, buffered or not. */
    ghost function Pending(): Bytes
      requires Valid()
      reads this, buffer, buffer.buf, socket
    {
      buffer.Readable() + socket.incoming
    }

    constructor (socket: Socket, maxBulk: nat)
      ensures Valid() && fresh(buffer) && fresh(buffer.buf)
      ensures this.socket == socket && this.maxBulk == maxBulk && dispatched == []
      ensures Pending() == socket.incoming
    {
      var rb := new ReadBuffer(INITIAL_CAPACITY);
      this.socket, this.maxBulk, this.buffer := socket, maxBulk, rb;
      dispatched := [];
    }

    /** Make room and wait for bytes. There is always room, so an empty read really is the end of the stream. */
    method Receive(room: nat) returns (more: bool)
      requires Valid() && 0 < room <= INITIAL_CAPACITY
      modifies buffer, buffer.buf, socket
      ensures Valid() && (buffer.buf == old(buffer.buf) || fresh(buffer.buf))
      ensures Pending() == old(Pending())
      ensures more ==> |socket.incoming| < |old(socket.incoming)|
      ensures !more ==> Pending() == old(buffer.Readable())
    {
      buffer.EnsureWritable(room);
      assert buffer.WritableSize() >= room;
      ghost var before := buffer.Readable();
      var chunk := socket.ReadSome(buffer.WritableSize());
      if chunk == [] {
        assert before + socket.incoming == before;
        return false;
      }
      buffer.Fill(chunk);
      assert before + (chunk + socket.incoming) == before + chunk + socket.incoming;
      return true;
    }

    /** One attempt on the buffered bytes: parse, decode, consume. */
    method Attempt() returns (t: Attempted)
      requires Valid()
      modifies buffer, buffer.buf
      ensures Valid() && buffer.buf == old(buffer.buf)
      ensures match t {
                case Short => buffer.Readable() == old(buffer.Readable()) && Resp2.Parse(buffer.Readable(), maxBulk).Incomplete?
                case Got(f) => DecodeStream(old(Pending()), maxBulk) == Push(f, DecodeStream(Pending(), maxBulk))
                               && |buffer.Readable()| < |old(buffer.Readable())|
                case Bad(o) => DecodeStream(old(Pending()), maxBulk) == Stream([], o, []) && !o.Ongoing?
              }
    {
      hide DecodeStream, Resp2.Parse, Decode;
      var data := buffer.Readable();
      ghost var pending := Pending();
      var parsed := Resp2.TryParse(data, maxBulk);
      if parsed.Incomplete? {
        return Short;
      }
      FirstFrame(data, socket.incoming, maxBulk);
      if parsed.Malformed? {
        return Bad(ParseFailed(parsed.error));
      }
      buffer.Consume(parsed.consumed);
      assert Pending() == pending[parsed.consumed..];
      var decoded := DecodeFrame(parsed.frame);
      match decoded {
        case Err(e) => return Bad(DecodeFailed(e));
        case Ok(f) => return Got(f);
      }
    }

    /** The handshake's frame reader: one frame, or the reason there is none. */
    method One() returns (r: Result<ShineFrame, ReadError>)
      requires Valid()
      modifies buffer, buffer.buf, socket
      ensures Valid() && (buffer.buf == old(buffer.buf) || fresh(buffer.buf))
      ensures match r {
                case Ok(f) => DecodeStream(old(Pending()), maxBulk) == Push(f, DecodeStream(Pending(), maxBulk))
                case Err(Eof) => DecodeStream(old(Pending()), maxBulk).outcome == Ongoing
                                 && DecodeStream(old(Pending()), maxBulk).frames == []
                case Err(Broken(o)) => DecodeStream(old(Pending()), maxBulk) == Stream([], o, []) && o != Ongoing
              }
    {
      hide DecodeStream, Resp2.Parse;
      ghost var all := Pending();
      while true
        invariant Valid() && (buffer.buf == old(buffer.buf) || fresh(buffer.buf))
        invariant Pending() == all
        decreases |socket.incoming|
      {
        var t := Attempt();
        match t {
          case Bad(o) => return Err(Broken(o));
          case Got(f) => return Ok(f);
          case Short =>
            NoFrame(buffer.Readable(), maxBulk);
            var more := Receive(8192);
            if !more {
              return Err(Eof);
            }
        }
      }
    }

    /** Decode and dispatch frames until the stream ends or breaks, or the link is found closed: `closedAt` is what the
        test of `closed_` finds on each turn. */
    method ReaderLoop(closedAt: nat -> bool) returns (end: EndReason)
      requires Valid()
      modifies this, buffer, buffer.buf, socket
      ensures Valid() && !end.Unexpected?
      ensures var s := DecodeStream(old(Pending()), maxBulk);
              match end {
                case LinkClosed => dispatched <= old(dispatched) + s.frames && exists n :: closedAt(n)
                case _ =>
                  dispatched == old(dispatched) + s.frames
                  && end == Ended(if s.outcome.Ongoing? then Eof else Broken(s.outcome))
              }
    {
      hide DecodeStream, Resp2.Parse;
      ghost var all := DecodeStream(Pending(), maxBulk);
      ghost var before := dispatched;
      var turn: nat := 0;
      while !closedAt(turn)
        invariant Valid() && (buffer.buf == old(buffer.buf) || fresh(buffer.buf))
        invariant dispatched + DecodeStream(Pending(), maxBulk).frames == before + all.frames
        invariant DecodeStream(Pending(), maxBulk).outcome == all.outcome
        decreases |socket.incoming|, |buffer.Readable()|
      {
        var t := Attempt();
        match t {
          case Bad(o) => return Ended(Broken(o));
          case Got(f) =>
            ghost var later := DecodeStream(Pending(), maxBulk).frames;
            assert dispatched + ([f] + later) == dispatched + [f] + later;
            dispatched := dispatched + [f];
          case Short =>
            NoFrame(buffer.Readable(), maxBulk);
            var more := Receive(16 * 1024);
            if !more {
              return Ended(Eof);
            }
        }
        turn := turn + 1;
      }
      return LinkClosed;
    }

    /** A handshake that checks one frame per entry of `checks`, then the reader loop, on the same buffer. */
    method HandshakeThenRead(checks: seq<ShineFrame -> bool>, closedAt: nat -> bool) returns (end: EndReason)
      requires Valid()
      modifies this, buffer, buffer.buf, socket
      ensures Valid()
      ensures var s := DecodeStream(old(Pending()), maxBulk);
              match end {
                case Unexpected(f) => dispatched + [f] <= old(dispatched) + s.frames
                case LinkClosed => dispatched <= old(dispatched) + s.frames && exists n :: closedAt(n)
                case Ended(e) =>
                  dispatched == old(dispatched) + s.frames
                  && e == if s.outcome.Ongoing? then Eof else Broken(s.outcome)
              }
    {
      hide DecodeStream;
      ghost var all := DecodeStream(Pending(), maxBulk);
      ghost var before := dispatched;
      assert dispatched + all.frames == before + all.frames;
      for i := 0 to |checks|
        invariant Valid() && (buffer.buf == old(buffer.buf) || fresh(buffer.buf))
        invariant dispatched + DecodeStream(Pending(), maxBulk).frames == before + all.frames
        invariant DecodeStream(Pending(), maxBulk).outcome == all.outcome
      {
        ghost var here := DecodeStream(Pending(), maxBulk);
        var r := One();
        match r {
          case Err(e) =>
            assert dispatched + [] == dispatched;
            return Ended(e);
          case Ok(f) =>
            assert dispatched + here.frames == dispatched + [f] + DecodeStream(Pending(), maxBulk).frames;
            if !checks[i](f) {
              return Unexpected(f);
            }
            dispatched := dispatched + [f];
        }
      }
      end := ReaderLoop(closedAt);
    }
  }

  // ---------------- from one link to the other ----------------

  /** `writerLoop`: the queued frames go out one after the other, each as its own encoding. */
  method WriterLoop(queue: seq<ShineFrame>, out: ByteString)
    modifies out
    ensures out.bytes == old(out.bytes) + WireAll(queue)
  {
    hide Wire;
    ghost var before := out.bytes;
    for i := 0 to |queue|
      invariant out.bytes + WireAll(queue[i..]) == before + WireAll(queue)
    {
      assert queue[i..][1..] == queue[i + 1..];
      Encode(out, queue[i]);
    }
    assert queue[|queue|..] == [];
    assert out.bytes == before + WireAll(queue);
  }

  /** A queue of frames that fit crosses the socket whole, however the network cuts it: the reader at the other end
      dispatches exactly these frames and then sees the end of the stream. */
  method Carry(queue: seq<ShineFrame>, cuts: seq<nat>, maxBulk: nat) returns (got: seq<ShineFrame>, end: EndReason)
    requires forall i :: 0 <= i < |queue| ==> FitsLink(queue[i], maxBulk)
    ensures got == queue && end == Ended(Eof)
  {
    hide DecodeStream, FitsLink;
    var wire := new ByteString();
    WriterLoop(queue, wire);
    assert [] + WireAll(queue) == WireAll(queue);
    var socket := new Socket(wire.bytes, cuts);
    var reader := new FrameReader(socket, maxBulk);
    WholeStreamRoundTrip(queue, maxBulk);
    end := reader.ReaderLoop(_ => false);
    got := reader.dispatched;
  }
}
