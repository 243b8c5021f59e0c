/** Byte order: what `read` returns at one end is a prefix of what `write` was given at the other. */
module Delivery {
  import opened Octets
  import opened ShineFrames
  import opened Addresses
  import opened SessionModel
  import opened LinkModel
  import opened Isolation
  import opened PairBase
  import W = World

  /** A receiver as its pipe sees it: not there yet, taking bytes, or taking no more. */
  datatype View = Absent | Live(bytes: Bytes) | Dead(bytes: Bytes)

  function BytesOf(v: View): Bytes {
    if v.Absent? then [] else v.bytes
  }

  /** All bytes that a session has taken from the wire, read or not. */
  function Arrived(s: Sess): Bytes {
    s.got + s.leftover + Flatten(s.inbox)
  }

  function ViewOf(h: Half): View {
    match h.sess
    case None => Absent
    case Some(s) => if h.listed && s.receiving && !s.udp then Live(Arrived(s)) else Dead(Arrived(s))
  }

  function StepView(v: View, f: ShineFrame): View {
    match f
    case Data(_, payload) => if v.Live? then Live(v.bytes + payload) else v
    case Close(_, _) => if v.Live? then Dead(v.bytes) else v
    case Reset(_) => if v.Live? then Dead(v.bytes) else v
    case New(_, blob, _) => if v.Absent? && ParseBinary(blob).Ok? then Live([]) else v
    case NewUdp(_) => if v.Absent? then Dead([]) else v
    case _ => v
  }

  /** The receiver after everything under way has reached it. */
  function Replay(v: View, out: seq<ShineFrame>): View
    decreases out
  {
    if out == [] then v else Replay(StepView(v, out[0]), out[1..])
  }

  function SentBy(h: Half): Bytes {
    match h.sess
    case None => []
    case Some(s) => s.sent
  }

  /** One direction: arrived bytes are a prefix of the sent ones, also after all frames under way have been taken, and
      a receiver that would then still be listening would have them all. */
  predicate InOrder(x: Half, y: Half) {
    BytesOf(ViewOf(y)) <= SentBy(x) && (!y.closed ==> Pending(x, Replay(ViewOf(y), x.out)))
  }

  predicate Pending(x: Half, v: View) {
    BytesOf(v) <= SentBy(x) && (v.Live? && !x.closed ==> BytesOf(v) == SentBy(x))
  }

  /** What a writer has put on the wire is a prefix of what it was given; while the link is up, the rest is still in
      its current call. */
  predicate WriterOk(h: Half) {
    h.sess.Some? ==>
      h.sess.value.sent <= h.sess.value.accepted &&
      (!h.closed ==> h.sess.value.sent + h.sess.value.writing == h.sess.value.accepted)
  }

  predicate Ordered(p: Pair) {
    InOrder(p.client, p.server) && InOrder(p.server, p.client) && WriterOk(p.client) && WriterOk(p.server)
  }

  // ---------------- payloads ----------------

  /** The payloads of the DATA frames in a list, joined. */
  function Payloads(fs: seq<ShineFrame>): Bytes {
    if fs == [] then [] else (if fs[0].Data? then fs[0].payload else []) + Payloads(fs[1..])
  }

  lemma {:induction false} PayloadsPop(fs: seq<ShineFrame>)
    requires fs != []
    ensures Payloads(fs) == (if fs[0].Data? then fs[0].payload else []) + Payloads(fs[1..])
  {
  }

  lemma {:induction false} PayloadsSnoc(fs: seq<ShineFrame>, f: ShineFrame)
    ensures Payloads(fs + [f]) == Payloads(fs) + (if f.Data? then f.payload else [])
  {
    hide Payloads;
    PayloadsPop(fs + [f]);
    if fs == [] {
      PayloadsNone();
      assert ([] + [f])[1..] == [];
    } else {
      assert (fs + [f])[1..] == fs[1..] + [f];
      PayloadsSnoc(fs[1..], f);
      PayloadsPop(fs);
    }
  }

  lemma {:induction false} PayloadsNone()
    ensures Payloads([]) == []
  {
  }

  lemma {:induction false} PayloadsInstall(out: seq<ShineFrame>, fs: seq<ShineFrame>)
    requires |fs| <= 1
    ensures Payloads(out + fs) == Payloads(out) + (if fs != [] && fs[0].Data? then fs[0].payload else [])
  {
    if fs == [] {
      assert out + fs == out;
    } else {
      assert fs == [fs[0]];
      PayloadsSnoc(out, fs[0]);
    }
  }

  // ---------------- replays ----------------

  lemma {:induction false} ReplayAppend(v: View, a: seq<ShineFrame>, b: seq<ShineFrame>)
    ensures Replay(v, a + b) == Replay(Replay(v, a), b)
    decreases a
  {
    hide StepView;
    if a == [] {
      assert a + b == b;
    } else {
      assert (a + b)[1..] == a[1..] + b;
      ReplayAppend(StepView(v, a[0]), a[1..], b);
    }
  }

  lemma {:induction false} ReplaySnoc(v: View, a: seq<ShineFrame>, f: ShineFrame)
    ensures Replay(v, a + [f]) == StepView(Replay(v, a), f)
  {
    hide StepView;
    ReplayAppend(v, a, [f]);
    assert [f][1..] == [];
  }

  lemma {:induction false} ReplayGrows(v: View, out: seq<ShineFrame>)
    ensures BytesOf(v) <= BytesOf(Replay(v, out))
    decreases out
  {
    if out != [] {
      StepGrows(v, out[0]);
      hide StepView, BytesOf;
      ReplayGrows(StepView(v, out[0]), out[1..]);
      PrefixTrans(BytesOf(v), BytesOf(StepView(v, out[0])), BytesOf(Replay(v, out)));
    }
  }

  lemma {:induction false} PrefixTrans(a: Bytes, b: Bytes, c: Bytes)
    requires a <= b <= c
    ensures a <= c
  {
  }

  lemma {:induction false} StepGrows(v: View, f: ShineFrame)
    ensures BytesOf(v) <= BytesOf(StepView(v, f))
  {
    hide ParseBinary;
  }

  lemma {:induction false} ReplayDead(b: Bytes, out: seq<ShineFrame>)
    ensures Replay(Dead(b), out) == Dead(b)
    decreases out
  {
    hide ParseBinary;
    if out != [] {
      ReplayDead(b, out[1..]);
    }
  }

  // ---------------- one end ----------------

  lemma {:induction false} InvokeStream(s: Sess, c: Call, maxChunk: nat, linkOpen: bool)
    ensures var eff := Invoke(s, c, maxChunk, linkOpen);
            Arrived(eff.sess) == Arrived(s) && eff.sess.udp == s.udp && (eff.sess.receiving ==> s.receiving) &&
            eff.sess.sent == (if eff.frames != [] && eff.frames[0].Data? then s.sent + eff.frames[0].payload else s.sent)
  {
    hide Flatten, ReadCall, SendChunk, StartWrite, Shutdown, CloseBoth, Flush, SendDatagram, TakeDatagram;
    CallTouches(s, c, maxChunk, linkOpen);
    match c {
      case Read(room) => ReadStream(s, room, linkOpen);
      case WriteChunk => ChunkStream(s, maxChunk, linkOpen);
      case _ =>
    }
  }

  lemma {:induction false} ReadStream(s: Sess, room: nat, linkOpen: bool)
    ensures var eff := ReadCall(s, room, linkOpen);
            Arrived(eff.sess) == Arrived(s) && eff.sess.udp == s.udp && eff.sess.receiving == s.receiving &&
            eff.sess.sent == s.sent && eff.sess.writing == s.writing && eff.sess.accepted == s.accepted &&
            (eff.frames != [] ==> !eff.frames[0].Data?)
  {
    hide Consumed, Arrived;
    ReadTouches(s, room, linkOpen);
    if s.leftover != [] {
      ConsumedStream(s, s.leftover, room, s.inbox, linkOpen);
    } else if s.inbox != [] {
      ConsumedStream(s, s.inbox[0], room, s.inbox[1..], linkOpen);
      NextPayload(s);
    }
  }

  /** Handing out part of a payload moves bytes from what is left over to what has been read. */
  lemma {:induction false} ConsumedStream(s: Sess, payload: Bytes, room: nat, inbox: seq<Bytes>, linkOpen: bool)
    ensures Arrived(Consumed(s, payload, room, inbox, linkOpen).sess) == Arrived(s.(leftover := payload, inbox := inbox))
  {
    hide Flatten;
    var n := Min(room, |payload|);
    assert s.got + payload[..n] + payload[n..] == s.got + payload;
  }

  lemma {:induction false} NextPayload(s: Sess)
    requires s.leftover == [] && s.inbox != []
    ensures Arrived(s.(leftover := s.inbox[0], inbox := s.inbox[1..])) == Arrived(s)
  {
    assert s.got + s.inbox[0] + Flatten(s.inbox[1..]) == s.got + [] + (s.inbox[0] + Flatten(s.inbox[1..]));
  }

  lemma {:induction false} ChunkStream(s: Sess, maxChunk: nat, linkOpen: bool)
    ensures var eff := SendChunk(s, maxChunk, linkOpen);
            Arrived(eff.sess) == Arrived(s) && eff.sess.udp == s.udp && eff.sess.receiving == s.receiving &&
            eff.sess.sent == (if eff.frames != [] && eff.frames[0].Data? then s.sent + eff.frames[0].payload else s.sent)
  {
    hide Flatten;
  }

  lemma {:induction false} InvokeWriter(h: Half, c: Call, maxChunk: nat)
    requires WriterOk(h)
    ensures WriterOk(UseHalf(h, c, maxChunk))
  {
    hide Invoke;
    if h.sess.Some? {
      InvokeWrites(h.sess.value, c, maxChunk, !h.closed);
    }
  }

  lemma {:induction false} InvokeWrites(s: Sess, c: Call, maxChunk: nat, linkOpen: bool)
    ensures var s' := Invoke(s, c, maxChunk, linkOpen).sess;
            (!linkOpen ==> s'.sent == s.sent && s'.accepted == s.accepted) &&
            (linkOpen && s.sent + s.writing == s.accepted ==> s'.sent + s'.writing == s'.accepted)
  {
    hide ToBinary, ReadCall, SendChunk;
    match c {
      case Read(room) => ReadStream(s, room, linkOpen);
      case WriteChunk => ChunkWriter(s, maxChunk, linkOpen);
      case BeginWrite(data) =>
        if s.writing == [] {
          assert s.sent + [] == s.sent;
        }
      case _ =>
    }
  }

  lemma {:induction false} ChunkWriter(s: Sess, maxChunk: nat, linkOpen: bool)
    ensures var s' := SendChunk(s, maxChunk, linkOpen).sess;
            s'.accepted == s.accepted && (!linkOpen ==> s'.sent == s.sent) &&
            (linkOpen ==> s'.sent + s'.writing == s.sent + s.writing)
  {
    if s.credit > 0 {
      var n := Min(|s.writing|, Min(maxChunk, s.credit));
      assert s.sent + s.writing == s.sent + s.writing[..n] + s.writing[n..];
    }
  }

  /** Taking a frame is exactly one step of the view. */
  lemma {:induction false} TakeView(h: Half, f: ShineFrame, server: bool, own: U32)
    requires !h.closed && (h.sess.None? ==> !h.listed) && (f.New? || f.NewUdp? ==> server)
    ensures ViewOf(TakeFrame(h, f, server, own)) == StepView(ViewOf(h), f)
    ensures SentBy(TakeFrame(h, f, server, own)) == SentBy(h)
    ensures WriterOk(h) ==> WriterOk(TakeFrame(h, f, server, own))
  {
    hide ParseBinary, Flatten;
    FlattenNil();
    if h.sess.Some? && f.Data? {
      var s := h.sess.value;
      FlattenSnoc(s.inbox, f.payload);
      assert s.got + s.leftover + (Flatten(s.inbox) + f.payload) == Arrived(s) + f.payload;
    }
  }

  lemma {:induction false} FlattenNil()
    ensures Flatten([]) == []
  {
  }

  // ---------------- moves ----------------

  lemma {:induction false} UseOrder(x: Half, y: Half, c: Call, maxChunk: nat)
    requires x.sess.Some? && InOrder(x, y) && InOrder(y, x)
    ensures InOrder(UseHalf(x, c, maxChunk), y) && InOrder(y, UseHalf(x, c, maxChunk))
  {
    hide Invoke, Replay, Arrived;
    var s := x.sess.value;
    var eff := Invoke(s, c, maxChunk, !x.closed);
    InvokeStream(s, c, maxChunk, !x.closed);
    InvokeFrames(s, c, maxChunk, !x.closed);
    if eff.frames == [] {
      assert x.out + eff.frames == x.out;
    } else {
      assert eff.frames == [eff.frames[0]];
      ReplaySnoc(ViewOf(y), x.out, eff.frames[0]);
    }
    ReplayDead(Arrived(s), y.out);
  }

  lemma {:induction false} TakeOrder(y: Half, x: Half, f: ShineFrame, server: bool, own: U32)
    requires x.out != [] && x.out[0] == f && !y.closed && (y.sess.None? ==> !y.listed) && (f.New? || f.NewUdp? ==> server)
    requires InOrder(x, y) && InOrder(y, x)
    ensures InOrder(Pop(x), TakeFrame(y, f, server, own)) && InOrder(TakeFrame(y, f, server, own), Pop(x))
  {
    hide TakeFrame, StepView, ViewOf, BytesOf;
    var y' := TakeFrame(y, f, server, own);
    TakeView(y, f, server, own);
    TakePosts(y, f, server, own);
    assert ViewOf(Pop(x)) == ViewOf(x) by {
      SameView(x, Pop(x));
    }
    assert SentBy(Pop(x)) == SentBy(x);
    ReplayGrows(ViewOf(y'), x.out[1..]);
    PrefixTrans(BytesOf(ViewOf(y')), BytesOf(Replay(ViewOf(y), x.out)), SentBy(x));
    if y'.out != y.out {
      var g := y'.out[|y.out|];
      ReplaySnoc(ViewOf(x), y.out, g);
      AckStep(Replay(ViewOf(x), y.out), g);
    }
  }

  lemma {:induction false} SameView(x: Half, x': Half)
    requires x'.sess == x.sess && x'.listed == x.listed
    ensures ViewOf(x') == ViewOf(x)
  {
  }

  /** The only replies to a frame of a session are ACK and RESET. */
  lemma {:induction false} TakePosts(h: Half, f: ShineFrame, server: bool, own: U32)
    requires !h.closed
    ensures var h' := TakeFrame(h, f, server, own);
            h'.closed == h.closed &&
            (h'.out == h.out || (|h'.out| == |h.out| + 1 && h'.out == h.out + [h'.out[|h.out|]]
                                 && (h'.out[|h.out|].Ack? || h'.out[|h.out|].Reset?)))
  {
    hide ParseBinary;
    if h.sess.Some? {
      OnFrameTagged(h.sess.value, f);
      assert h.out + [] == h.out;
    }
  }

  lemma {:induction false} AckStep(v: View, g: ShineFrame)
    requires g.Ack? || g.Reset?
    ensures BytesOf(StepView(v, g)) == BytesOf(v) && (StepView(v, g).Live? ==> v.Live?)
  {
  }

  lemma {:induction false} CutOrder(x: Half, y: Half, keep: nat)
    requires InOrder(x, y) && InOrder(y, x) && keep <= |x.out| && (x.closed || y.closed)
    ensures var x' := x.(out := x.out[..keep], lost := x.lost || keep < |x.out|);
            InOrder(x', y) && InOrder(y, x')
  {
    hide BytesOf, Replay;
    var x' := x.(out := x.out[..keep], lost := x.lost || keep < |x.out|);
    SameView(x, x');
    assert x.out[..keep] + x.out[keep..] == x.out;
    ReplayAppend(ViewOf(y), x.out[..keep], x.out[keep..]);
    ReplayGrows(Replay(ViewOf(y), x.out[..keep]), x.out[keep..]);
    if !y.closed {
      PrefixTrans(BytesOf(Replay(ViewOf(y), x'.out)), BytesOf(Replay(ViewOf(y), x.out)), SentBy(x));
    }
  }

  lemma {:induction false} FailOrder(x: Half, y: Half)
    requires InOrder(x, y) && InOrder(y, x) && (x.sess.None? ==> !x.listed)
    ensures InOrder(FailHalf(x), y) && InOrder(y, FailHalf(x))
    ensures InOrder(x.(closed := true), y) && InOrder(y, x.(closed := true))
    ensures WriterOk(x) ==> WriterOk(FailHalf(x)) && WriterOk(x.(closed := true))
  {
    hide Replay, Flatten;
  }

  /** A refused frame: the refusing end goes down, so nothing is promised about its pipe any more. */
  lemma {:induction false} RefuseOrder(x: Half, y: Half)
    requires InOrder(x, y) && InOrder(y, x) && x.out != [] && !y.closed && (y.sess.None? ==> !y.listed)
    ensures InOrder(Pop(x), FailHalf(y.(lost := true))) && InOrder(FailHalf(y.(lost := true)), Pop(x))
    ensures WriterOk(x) ==> WriterOk(Pop(x))
    ensures WriterOk(y) ==> WriterOk(FailHalf(y.(lost := true)))
  {
    hide Replay, Flatten;
  }

  lemma {:induction false} OpenOrder(p: Pair, target: Address, udp: bool, x: Ctx)
    requires Base(p, x) && Ordered(p)
    ensures Ordered(Next(p, Move.Open(x.sid, target, udp, x.clientWindow)))
  {
    hide OwnFrames, Count, OpenHalf, InOrder, WriterOk;
    if !p.client.closed && p.client.sess.None? {
      OpenFresh(p.client, p.server, target, udp, x);
    } else {
      NoOpen(p.client, target, udp, x);
    }
  }

  lemma {:induction false} NoOpen(c: Half, target: Address, udp: bool, x: Ctx)
    requires c.closed || c.sess.Some?
    ensures OpenHalf(c, x.sid, target, udp, x.clientWindow) == c
  {
  }

  lemma {:induction false} OpenFresh(c: Half, s: Half, target: Address, udp: bool, x: Ctx)
    requires !c.closed && c.sess.None? && s.sess.None? && c.out == [] && s.out == []
    ensures var c' := OpenHalf(c, x.sid, target, udp, x.clientWindow);
            InOrder(c', s) && InOrder(s, c') && WriterOk(c')
  {
    hide ToBinary, ParseBinary;
    var c' := OpenHalf(c, x.sid, target, udp, x.clientWindow);
    var f := if udp then NewUdp(x.sid) else New(x.sid, ToBinary(target), x.clientWindow);
    assert c'.out == [] + [f];
    ReplaySnoc(Absent, [], f);
    assert BytesOf(StepView(Absent, f)) == [];
    assert Arrived(c'.sess.value) == [];
  }

  lemma {:induction false} NextOrdered(p: Pair, m: Move, x: Ctx)
    requires Base(p, x) && Ordered(p) && Legit(m, x)
    ensures Ordered(Next(p, m))
  {
    hide InOrder, WriterOk, Count, OwnFrames;
    match m {
      case Idle =>
      case Use(side, c, maxChunk) =>
        hide Invoke, UseHalf;
        var h, o := Of(p, side), Of(p, W.Peer(side));
        InvokeWriter(h, c, maxChunk);
        if h.sess.Some? {
          UseOrder(h, o, c, maxChunk);
        } else {
          NoUse(h, c, maxChunk);
        }
      case Open(sid, target, udp, window) => OpenOrder(p, target, udp, x);
      case Take(side, window) => TakeMove(p, side, x);
      case Refuse(side) =>
        var h, from := Of(p, side), Of(p, W.Peer(side));
        if from.out != [] && !h.closed {
          RefuseOrder(from, h);
        }
      case Fail(side) => FailOrder(Of(p, side), Of(p, W.Peer(side)));
      case CloseNow(side) => FailOrder(Of(p, side), Of(p, W.Peer(side)));
      case Cut(side, keep) =>
        var h, o := Of(p, side), Of(p, W.Peer(side));
        if keep <= |h.out| && (h.closed || o.closed) {
          CutOrder(h, o, keep);
          CutWriter(h, keep);
        }
    }
  }

  lemma {:induction false} NoUse(h: Half, c: Call, maxChunk: nat)
    requires h.sess.None?
    ensures UseHalf(h, c, maxChunk) == h
  {
  }

  lemma {:induction false} CutWriter(h: Half, keep: nat)
    requires WriterOk(h) && keep <= |h.out|
    ensures WriterOk(h.(out := h.out[..keep], lost := h.lost || keep < |h.out|))
    ensures h.out != [] ==> WriterOk(Pop(h))
  {
  }

  lemma {:induction false} TakeMove(p: Pair, side: W.Side, x: Ctx)
    requires Base(p, x) && Ordered(p)
    ensures Ordered(Next(p, Move.Take(side, WindowOf(side, x))))
  {
    hide InOrder, WriterOk, Count, OwnFrames, TakeFrame;
    var h, from := Of(p, side), Of(p, W.Peer(side));
    if from.out != [] && !h.closed {
      var f := from.out[0];
      assert f.New? || f.NewUdp? ==> side.Server? by {
        CountPop(p.server.out);
      }
      TakeOrder(h, from, f, side.Server?, WindowOf(side, x));
      TakeView(h, f, side.Server?, WindowOf(side, x));
      CutWriter(from, 0);
    }
  }
}
