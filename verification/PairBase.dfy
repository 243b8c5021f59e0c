/** Ground facts of a single session between two ends: where it exists, what may be under way, and how its phase, its
    table entry and its inbox go together. */
module PairBase {
  import opened Octets
  import opened ShineFrames
  import opened Addresses
  import opened SessionModel
  import opened LinkModel
  import opened Isolation
  import W = World

  /** What is fixed in a run: the session's id and the two links' initial windows. */
  datatype Ctx = Ctx(sid: U64, clientWindow: U32, serverWindow: U32)

  predicate Legit(m: Move, x: Ctx) {
    (m.Open? ==> m.sid == x.sid && m.window == x.clientWindow) &&
    (m.Take? ==> m.window == if m.side.Client? then x.clientWindow else x.serverWindow)
  }

  // ---------------- counting frames ----------------

  /** DATA bytes, WINDOW credit, and numbers of NEW, CLOSE, RESET and UDP_DATA frames. */
  datatype Tally = Tally(data: nat, credit: nat, news: nat, closes: nat, resets: nat, udps: nat)

  const NOTHING: Tally := Tally(0, 0, 0, 0, 0, 0)

  function Add(a: Tally, b: Tally): Tally {
    Tally(a.data + b.data, a.credit + b.credit, a.news + b.news, a.closes + b.closes, a.resets + b.resets, a.udps + b.udps)
  }

  function Weigh(f: ShineFrame): Tally {
    match f
    case Data(_, payload) => NOTHING.(data := |payload|)
    case Window(_, delta) => NOTHING.(credit := delta)
    case New(_, _, _) => NOTHING.(news := 1)
    case NewUdp(_) => NOTHING.(news := 1)
    case Close(_, _) => NOTHING.(closes := 1)
    case Reset(_) => NOTHING.(resets := 1)
    case UdpData(_, _, _) => NOTHING.(udps := 1)
    case _ => NOTHING
  }

  function Count(out: seq<ShineFrame>): Tally {
    if out == [] then NOTHING else Add(Weigh(out[0]), Count(out[1..]))
  }

  lemma {:induction false} AddLaws(a: Tally, b: Tally, c: Tally)
    ensures Add(a, Add(b, c)) == Add(Add(a, b), c)
    ensures Add(NOTHING, a) == a == Add(a, NOTHING)
  {
  }

  lemma {:induction false} CountAppend(a: seq<ShineFrame>, b: seq<ShineFrame>)
    ensures Count(a + b) == Add(Count(a), Count(b))
  {
    hide Weigh, Add;
    if a == [] {
      assert a + b == b;
      AddLaws(Count(b), Count(b), Count(b));
    } else {
      assert (a + b)[1..] == a[1..] + b;
      CountAppend(a[1..], b);
      AddLaws(Weigh(a[0]), Count(a[1..]), Count(b));
    }
  }

  lemma {:induction false} CountSnoc(a: seq<ShineFrame>, f: ShineFrame)
    ensures Count(a + [f]) == Add(Count(a), Weigh(f))
  {
    hide Weigh, Add;
    CountAppend(a, [f]);
    assert Count([f]) == Add(Weigh(f), Count([]));
    AddLaws(Weigh(f), Weigh(f), Weigh(f));
  }

  lemma {:induction false} CountOne(f: ShineFrame)
    ensures Count([f]) == Weigh(f)
  {
    hide Weigh, Add;
    AddLaws(Weigh(f), Weigh(f), Weigh(f));
    assert [f][1..] == [];
  }

  lemma {:induction false} CountPop(out: seq<ShineFrame>)
    ensures out == [] ==> Count(out) == NOTHING
    ensures out != [] ==> Count(out) == Add(Weigh(out[0]), Count(out[1..]))
  {
  }

  /** Appending the frames of an effect, of which there is at most one. */
  lemma {:induction false} CountInstall(out: seq<ShineFrame>, fs: seq<ShineFrame>)
    requires |fs| <= 1
    ensures Count(out + fs) == Add(Count(out), if fs == [] then NOTHING else Weigh(fs[0]))
  {
    if fs == [] {
      assert out + fs == out;
    } else {
      assert fs == [fs[0]];
      CountSnoc(out, fs[0]);
    }
  }

  lemma {:induction false} CountPrefix(out: seq<ShineFrame>, keep: nat)
    requires keep <= |out|
    ensures Count(out) == Add(Count(out[..keep]), Count(out[keep..]))
  {
    assert out == out[..keep] + out[keep..];
    CountAppend(out[..keep], out[keep..]);
  }

  // ---------------- one end ----------------

  /** Nothing has ever arrived for the session. */
  predicate Untouched(s: Sess) {
    s.inbox == [] && s.leftover == [] && s.unacked == 0 && s.got == [] && s.udpInbox == [] && s.datagramsGot == []
  }

  /** A session is listed until it is closed, and its inbox is open until the peer or the user has closed it. */
  predicate SessOk(h: Half, window: U32, sid: U64) {
    match h.sess
    case None => !h.listed
    case Some(s) =>
      s.sid == sid && s.window == window && (h.listed <==> !s.phase.Closed?) && (s.receiving <==> !ReadSideDone(s.phase))
  }

  lemma {:induction false} InvokeOk(h: Half, c: Call, maxChunk: nat, window: U32, sid: U64)
    requires SessOk(h, window, sid)
    ensures SessOk(UseHalf(h, c, maxChunk), window, sid)
    ensures var h' := UseHalf(h, c, maxChunk);
            h.sess.Some? <==> h'.sess.Some?
    ensures h.sess.Some? ==>
              var eff := Invoke(h.sess.value, c, maxChunk, !h.closed);
              eff.sess.udp == h.sess.value.udp && (Untouched(h.sess.value) ==> Untouched(eff.sess))
  {
    hide SendChunk, StartWrite, SendDatagram;
    if h.sess.Some? {
      CallTouches(h.sess.value, c, maxChunk, !h.closed);
    }
  }

  /** What a call can put on the wire. */
  lemma {:induction false} InvokeFrames(s: Sess, c: Call, maxChunk: nat, linkOpen: bool)
    ensures var fs := Invoke(s, c, maxChunk, linkOpen).frames;
            |fs| <= 1 && (fs != [] ==> linkOpen && !fs[0].New? && !fs[0].NewUdp? && !fs[0].Reset?)
            && (fs != [] && Untouched(s) ==> !fs[0].Window?)
  {
    hide SendChunk, StartWrite, Shutdown, CloseBoth, Flush, SendDatagram, TakeDatagram;
    CallTouches(s, c, maxChunk, linkOpen);
  }

  lemma {:induction false} TakeOk(h: Half, f: ShineFrame, server: bool, window: U32, sid: U64)
    requires SessOk(h, window, sid) && !h.closed && SidOf(f) == Some(sid)
    ensures SessOk(TakeFrame(h, f, server, window), window, sid)
    ensures h.sess.Some? ==>
              var h' := TakeFrame(h, f, server, window);
              h'.sess.Some? && h'.sess.value.udp == h.sess.value.udp
  {
    hide ParseBinary;
  }

  lemma {:induction false} FailOk(h: Half, window: U32, sid: U64)
    requires SessOk(h, window, sid)
    ensures SessOk(FailHalf(h), window, sid)
  {
  }

  // ---------------- both ends ----------------

  predicate IsNew(f: ShineFrame, udp: bool, x: Ctx) {
    if udp then f.NewUdp? else f.New? && f.window == x.clientWindow
  }

  /** A pipe that carries nothing but ACK and RESET. */
  predicate OnlyReplies(t: Tally) {
    t.data == 0 && t.credit == 0 && t.news == 0 && t.closes == 0 && t.udps == 0
  }

  /** The opening of the session: nothing before NEW, the server's end only after it, and RESET only instead of it. */
  predicate Opening(c: Half, s: Half, tc: Tally, ts: Tally, x: Ctx) {
    && (c.sess.None? ==> c.out == [] && s.sess.None? && s.out == [])
    && (s.sess.None? ==> OnlyReplies(ts) && tc.credit == 0 && (c.sess.Some? ==> Untouched(c.sess.value)))
    && (s.sess.Some? ==> c.sess.Some? && tc.news == 0 && s.sess.value.udp == c.sess.value.udp)
    && tc.news <= 1 && ts.news == 0 && tc.resets == 0
    && (tc.news == 1 ==> c.sess.Some? && c.out != [] && IsNew(c.out[0], c.sess.value.udp, x))
    && (ts.resets > 0 ==> s.sess.None? && tc.news == 0)
  }

  predicate OwnFrames(out: seq<ShineFrame>, sid: U64) {
    forall i :: 0 <= i < |out| ==> SidOf(out[i]) == Some(sid)
  }

  predicate Base(p: Pair, x: Ctx) {
    && SessOk(p.client, x.clientWindow, x.sid) && SessOk(p.server, x.serverWindow, x.sid)
    && Opening(p.client, p.server, Count(p.client.out), Count(p.server.out), x)
    && OwnFrames(p.client.out, x.sid) && OwnFrames(p.server.out, x.sid)
  }

  function WindowOf(side: W.Side, x: Ctx): U32 {
    if side.Client? then x.clientWindow else x.serverWindow
  }

  lemma {:induction false} OwnAppend(out: seq<ShineFrame>, fs: seq<ShineFrame>, sid: U64)
    requires OwnFrames(out, sid) && Tagged(fs, sid)
    ensures OwnFrames(out + fs, sid)
  {
  }

  lemma {:induction false} OwnSlice(out: seq<ShineFrame>, keep: nat, sid: U64)
    requires OwnFrames(out, sid) && keep <= |out|
    ensures OwnFrames(out[..keep], sid) && OwnFrames(out[keep..], sid)
  {
  }

  lemma {:induction false} UseBase(p: Pair, side: W.Side, c: Call, maxChunk: nat, x: Ctx)
    requires Base(p, x)
    ensures Base(Next(p, Move.Use(side, c, maxChunk)), x)
  {
    hide Invoke, Count, OwnFrames, Untouched, SessOk;
    var h := Of(p, side);
    InvokeOk(h, c, maxChunk, WindowOf(side, x), x.sid);
    if h.sess.Some? {
      var eff := Invoke(h.sess.value, c, maxChunk, !h.closed);
      SidIs(h, WindowOf(side, x), x.sid);
      InvokeFrames(h.sess.value, c, maxChunk, !h.closed);
      InvokeTagged(h.sess.value, c, maxChunk, !h.closed);
      CountInstall(h.out, eff.frames);
      OwnAppend(h.out, eff.frames, x.sid);
    }
  }

  lemma {:induction false} SidIs(h: Half, window: U32, sid: U64)
    requires SessOk(h, window, sid) && h.sess.Some?
    ensures h.sess.value.sid == sid
  {
  }

  lemma {:induction false} OpenBase(p: Pair, target: Address, udp: bool, x: Ctx)
    requires Base(p, x)
    ensures Base(Next(p, Move.Open(x.sid, target, udp, x.clientWindow)), x)
  {
    hide ToBinary, Opening, OwnFrames, Count;
    var c, s := p.client, p.server;
    if !c.closed && c.sess.None? {
      var f := if udp then NewUdp(x.sid) else New(x.sid, ToBinary(target), x.clientWindow);
      OwnAppend(c.out, [f], x.sid);
      OpenOpening(c, s, target, udp, x);
    }
  }

  lemma {:induction false} NoReopen(h: Half, sid: U64, target: Address, udp: bool, window: U32)
    requires h.sess.Some?
    ensures OpenHalf(h, sid, target, udp, window) == h
  {
  }

  lemma {:induction false} OpenOpening(c: Half, s: Half, target: Address, udp: bool, x: Ctx)
    requires Opening(c, s, Count(c.out), Count(s.out), x) && c.sess.None? && !c.closed
    ensures var c' := OpenHalf(c, x.sid, target, udp, x.clientWindow);
            Opening(c', s, Count(c'.out), Count(s.out), x)
  {
    hide ToBinary, Count;
    var f := if udp then NewUdp(x.sid) else New(x.sid, ToBinary(target), x.clientWindow);
    assert c.out + [f] == [f];
    CountOne(f);
    CountPop(s.out);
  }

  lemma {:induction false} TakeBase(p: Pair, side: W.Side, x: Ctx)
    requires Base(p, x)
    ensures Base(Next(p, Move.Take(side, WindowOf(side, x))), x)
  {
    var h, from := Of(p, side), Of(p, W.Peer(side));
    if from.out != [] && !h.closed {
      CountPop(from.out);
      OwnSlice(from.out, 1, x.sid);
      TakeOk(h, from.out[0], side.Server?, WindowOf(side, x), x.sid);
      if side.Client? {
        TakeClientBase(p, x);
      } else {
        TakeServerBase(p, x);
      }
    }
  }

  lemma {:induction false} TakeClientBase(p: Pair, x: Ctx)
    requires Base(p, x) && p.server.out != [] && !p.client.closed
    ensures var c' := TakeFrame(p.client, p.server.out[0], false, x.clientWindow);
            var out' := p.server.out[1..];
            OwnFrames(c'.out, x.sid) && Opening(c', p.server.(out := out'), Count(c'.out), Count(out'), x)
  {
    hide ParseBinary, Count, OwnFrames;
    CountPop(p.server.out);
    TakeAtClient(p.client, p.server.out[0], x.clientWindow);
  }

  lemma {:induction false} TakeServerBase(p: Pair, x: Ctx)
    requires Base(p, x) && p.client.out != [] && !p.server.closed
    ensures var s' := TakeFrame(p.server, p.client.out[0], true, x.serverWindow);
            var out' := p.client.out[1..];
            OwnFrames(s'.out, x.sid) && Opening(p.client.(out := out'), s', Count(out'), Count(s'.out), x)
  {
    hide ParseBinary, Count, OwnFrames, Untouched;
    var s, f := p.server, p.client.out[0];
    assert SidOf(f) == Some(x.sid) by {
      OwnHead(p.client.out, x.sid);
    }
    CountPop(p.client.out);
    CountSnoc(s.out, Reset(x.sid));
    CountSnoc(s.out, Ack(x.sid));
    OwnAppend(s.out, [Reset(x.sid)], x.sid);
    OwnAppend(s.out, [Ack(x.sid)], x.sid);
    if s.sess.Some? && s.listed {
      OnFrameTagged(s.sess.value, f);
      assert s.out + [] == s.out;
    }
  }

  lemma {:induction false} OwnHead(out: seq<ShineFrame>, sid: U64)
    requires OwnFrames(out, sid) && out != []
    ensures SidOf(out[0]) == Some(sid)
  {
  }

  /** On the client a frame adds nothing to the pipe, and only DATA and UDP_DATA leave a trace. */
  lemma {:induction false} TakeAtClient(h: Half, f: ShineFrame, window: U32)
    ensures TakeFrame(h, f, false, window).out == h.out
    ensures h.sess.None? <==> TakeFrame(h, f, false, window).sess.None?
    ensures h.sess.Some? ==> TakeFrame(h, f, false, window).sess.value.udp == h.sess.value.udp
    ensures h.sess.Some? && Untouched(h.sess.value) && OnlyReplies(Weigh(f)) ==>
              Untouched(TakeFrame(h, f, false, window).sess.value)
  {
    hide ParseBinary;
    if h.sess.Some? {
      OnFrameTagged(h.sess.value, f);
      assert h.out + [] == h.out;
    }
  }

  lemma {:induction false} CutBase(p: Pair, side: W.Side, keep: nat, x: Ctx)
    requires Base(p, x)
    ensures Base(Next(p, Move.Cut(side, keep)), x)
  {
    hide Count, OwnFrames, Opening;
    var h := Of(p, side);
    if keep <= |h.out| {
      OwnSlice(h.out, keep, x.sid);
      if side.Client? {
        CutClient(p.client, p.server, keep, x);
      } else {
        CutServer(p.client, p.server, keep, x);
      }
    }
  }

  /** Frames cut off the end of a pipe: what is left weighs no more, and starts the same. */
  lemma {:induction false} CutTally(out: seq<ShineFrame>, keep: nat)
    requires keep <= |out|
    ensures var t, all := Count(out[..keep]), Count(out);
            t.data <= all.data && t.credit <= all.credit && t.news <= all.news && t.closes <= all.closes &&
            t.resets <= all.resets && t.udps <= all.udps
    ensures keep == 0 ==> Count(out[..keep]) == NOTHING
    ensures keep > 0 ==> out[..keep][0] == out[0]
  {
    hide Count;
    CountPrefix(out, keep);
    CountPop(out[..keep]);
  }

  lemma {:induction false} CutClient(c: Half, s: Half, keep: nat, x: Ctx)
    requires Opening(c, s, Count(c.out), Count(s.out), x) && keep <= |c.out|
    ensures var c' := c.(out := c.out[..keep], lost := c.lost || keep < |c.out|);
            Opening(c', s, Count(c'.out), Count(s.out), x)
  {
    hide Count, Untouched, IsNew;
    CutTally(c.out, keep);
  }

  lemma {:induction false} CutServer(c: Half, s: Half, keep: nat, x: Ctx)
    requires Opening(c, s, Count(c.out), Count(s.out), x) && keep <= |s.out|
    ensures var s' := s.(out := s.out[..keep], lost := s.lost || keep < |s.out|);
            Opening(c, s', Count(c.out), Count(s'.out), x)
  {
    hide Count, Untouched, IsNew;
    CutTally(s.out, keep);
  }

  lemma {:induction false} RefuseBase(p: Pair, side: W.Side, x: Ctx)
    requires Base(p, x)
    ensures Base(Next(p, Move.Refuse(side)), x)
  {
    hide Count, OwnFrames, SessOk;
    var h, from := Of(p, side), Of(p, W.Peer(side));
    LostOk(h, WindowOf(side, x), x.sid);
    FailOk(h.(lost := true), WindowOf(side, x), x.sid);
    if from.out != [] && !h.closed {
      OwnSlice(from.out, 1, x.sid);
      PopOk(from, WindowOf(W.Peer(side), x), x.sid);
      if side.Client? {
        RefuseOpening(p.client, p.server, x, false);
      } else {
        RefuseOpening(p.client, p.server, x, true);
      }
    }
  }

  lemma {:induction false} LostOk(h: Half, window: U32, sid: U64)
    requires SessOk(h, window, sid)
    ensures SessOk(h.(lost := true), window, sid)
  {
  }

  lemma {:induction false} PopOk(h: Half, window: U32, sid: U64)
    requires SessOk(h, window, sid) && h.out != []
    ensures SessOk(Pop(h), window, sid)
  {
  }

  lemma {:induction false} RefuseOpening(c: Half, s: Half, x: Ctx, byServer: bool)
    requires Opening(c, s, Count(c.out), Count(s.out), x)
    requires if byServer then c.out != [] else s.out != []
    ensures byServer ==>
              Opening(Pop(c), FailHalf(s.(lost := true)), Count(c.out[1..]), Count(s.out), x)
    ensures !byServer ==>
              Opening(FailHalf(c.(lost := true)), Pop(s), Count(c.out), Count(s.out[1..]), x)
  {
    hide Count;
    if byServer {
      CountPop(c.out);
    } else {
      CountPop(s.out);
    }
  }

  lemma {:induction false} FailBase(p: Pair, side: W.Side, x: Ctx)
    requires Base(p, x)
    ensures Base(Next(p, Move.Fail(side)), x)
  {
    hide Count, OwnFrames;
    FailOk(Of(p, side), WindowOf(side, x), x.sid);
  }

  lemma {:induction false} CloseBase(p: Pair, side: W.Side, x: Ctx)
    requires Base(p, x)
    ensures Base(Next(p, Move.CloseNow(side)), x)
  {
    hide Count, OwnFrames;
  }

  lemma {:induction false} NextBase(p: Pair, m: Move, x: Ctx)
    requires Base(p, x) && Legit(m, x)
    ensures Base(Next(p, m), x)
  {
    hide Base, Next;
    match m {
      case Idle => IdleMove(p);
      case Use(side, c, maxChunk) => UseBase(p, side, c, maxChunk, x);
      case Open(sid, target, udp, window) => OpenBase(p, target, udp, x);
      case Take(side, window) => TakeBase(p, side, x);
      case Refuse(side) => RefuseBase(p, side, x);
      case Fail(side) => FailBase(p, side, x);
      case CloseNow(side) => CloseBase(p, side, x);
      case Cut(side, keep) => CutBase(p, side, keep, x);
    }
  }

  lemma {:induction false} IdleMove(p: Pair)
    ensures Next(p, Idle) == p
  {
  }
}
