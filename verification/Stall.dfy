/** When a writer can wait for ever: the exact window sizes for which credit can run dry. */
module Stall {
  import opened Octets
  import opened ShineFrames
  import opened Addresses
  import opened SessionModel
  import opened LinkModel
  import opened Isolation
  import opened PairBase
  import opened Credit
  import opened Closing
  import W = World

  /** Both ends exist and neither has begun to close. */
  predicate BothOpen(p: Pair) {
    p.client.sess.Some? && p.server.sess.Some? && p.client.sess.value.phase.Open? && p.server.sess.value.phase.Open?
  }

  predicate LinksUp(p: Pair) {
    !p.client.closed && !p.server.closed
  }

  // ---------------- nothing is thrown away while both ends are open ----------------

  predicate LossOk(p: Pair, t: Tally) {
    (p.client.sess.None? ==> !p.client.lost && !p.server.lost) &&
    (p.client.sess.Some? && !p.client.sess.value.udp && LinksUp(p) && (p.client.lost || p.server.lost) ==>
       !BothOpen(p) && (p.server.sess.None? ==> t.news == 0 || !p.client.sess.value.phase.Open?))
  }

  lemma {:induction false} UseLoss(p: Pair, side: W.Side, c: Call, maxChunk: nat)
    requires LossOk(p, Count(p.client.out)) && (p.server.sess.Some? ==> p.client.sess.Some?)
    ensures var p' := Next(p, Move.Use(side, c, maxChunk)); LossOk(p', Count(p'.client.out))
  {
    hide Count, Invoke;
    var h := Of(p, side);
    if h.sess.Some? {
      var eff := Invoke(h.sess.value, c, maxChunk, !h.closed);
      InvokeFrames(h.sess.value, c, maxChunk, !h.closed);
      CountInstall(h.out, eff.frames);
      InvokeUdp(h.sess.value, c, maxChunk, !h.closed);
      OpenBefore(h.sess.value, c, maxChunk, !h.closed);
    }
  }

  lemma {:induction false} OpenBefore(s: Sess, c: Call, maxChunk: nat, linkOpen: bool)
    ensures var eff := Invoke(s, c, maxChunk, linkOpen);
            (eff.sess.phase.Open? ==> s.phase.Open?) && (linkOpen ==> !eff.drop)
  {
    hide ReadCall, SendChunk, StartWrite, SendDatagram, TakeDatagram;
    CallTouches(s, c, maxChunk, linkOpen);
  }

  /** A frame other than NEW is thrown away only by an end that has begun to close, or is not there. */
  lemma {:induction false} TakeDrops(h: Half, f: ShineFrame, server: bool, own: U32, sid: U64)
    requires SessOk(h, own, sid) && !f.New? && !f.NewUdp?
    ensures var h' := TakeFrame(h, f, server, own);
            h'.closed == h.closed && h'.out == h.out && (h'.sess.Some? <==> h.sess.Some?) &&
            (h'.lost ==> h.lost || h.sess.None? || h.sess.value.udp || !h.sess.value.phase.Open?) &&
            (h.sess.Some? ==> h'.sess.value.udp == h.sess.value.udp && (h'.sess.value.phase.Open? ==> h.sess.value.phase.Open?))
  {
    hide OnFrame;
    if h.sess.Some? {
      OnFrameTagged(h.sess.value, f);
      OnFrameUdp(h.sess.value, f);
      DropWhenClosing(h.sess.value, f);
      assert h.out + [] == h.out;
    }
  }

  lemma {:induction false} DropWhenClosing(s: Sess, f: ShineFrame)
    ensures var eff := OnFrame(s, f);
            (eff.sess.phase.Open? ==> s.phase.Open?) && (eff.drop && !s.udp ==> !s.receiving && eff.sess.phase == s.phase)
  {
    hide ParseBinary;
  }

  lemma {:induction false} NewsAfterPop(out: seq<ShineFrame>)
    requires out != [] && !out[0].New? && !out[0].NewUdp?
    ensures Count(out[1..]).news == Count(out).news
  {
    hide Count;
    CountPop(out);
  }

  lemma {:induction false} TakeLoss(p: Pair, side: W.Side, x: Ctx)
    requires Base(p, x) && LossOk(p, Count(p.client.out)) && Of(p, W.Peer(side)).out != [] && !Of(p, side).closed
    requires !Of(p, W.Peer(side)).out[0].New? && !Of(p, W.Peer(side)).out[0].NewUdp?
    ensures var p' := Next(p, Move.Take(side, WindowOf(side, x))); LossOk(p', Count(p'.client.out))
  {
    hide Count, OwnFrames, Untouched, TakeFrame, SessOk, OnlyReplies;
    var h, from := Of(p, side), Of(p, W.Peer(side));
    NewsAfterPop(from.out);
    TakeDrops(h, from.out[0], side.Server?, WindowOf(side, x), x.sid);
  }

  /** A NEW under way to an open client means that nothing has been lost so far. */
  lemma {:induction false} AcceptLoss(p: Pair, x: Ctx)
    requires Base(p, x) && LossOk(p, Count(p.client.out)) && p.client.out != [] && !p.server.closed
    requires p.client.out[0].New? || p.client.out[0].NewUdp?
    ensures var p' := Next(p, Move.Take(W.Server, x.serverWindow)); LossOk(p', Count(p'.client.out))
  {
    hide Count, ParseBinary, OwnFrames, Untouched;
    CountPop(p.client.out);
  }

  lemma {:induction false} NextLoss(p: Pair, m: Move, x: Ctx)
    requires Base(p, x) && LossOk(p, Count(p.client.out)) && Legit(m, x)
    ensures LossOk(Next(p, m), Count(Next(p, m).client.out))
  {
    hide Count, OwnFrames, Untouched;
    match m {
      case Idle =>
      case Use(side, c, maxChunk) => UseLoss(p, side, c, maxChunk);
      case Take(side, window) =>
        var h, from := Of(p, side), Of(p, W.Peer(side));
        if from.out != [] && !h.closed {
          if from.out[0].New? || from.out[0].NewUdp? {
            NewAtServer(p, side, x);
            AcceptLoss(p, x);
          } else {
            TakeLoss(p, side, x);
          }
        }
      case _ =>
    }
  }

  /** Conservation is exact, in both directions, as long as both links are up and both ends are open. */
  lemma {:induction false} ExactWhileOpen(p: Pair, x: Ctx)
    requires Ledger(p, x) && LossOk(p, Count(p.client.out)) && BothOpen(p) && LinksUp(p)
    requires !p.client.sess.value.udp && !p.server.sess.value.udp
    ensures Balance(p.client, p.server) == x.clientWindow && Balance(p.server, p.client) == x.clientWindow
  {
    hide Count, Held;
  }

  // ---------------- the WINDOW threshold ----------------

  /** A reader gives credit back as soon as it has read half of its own window. */
  predicate GivesBack(h: Half) {
    h.sess.Some? && !h.closed ==> h.sess.value.unacked == 0 || h.sess.value.unacked < h.sess.value.window / 2
  }

  lemma {:induction false} UseGivesBack(h: Half, c: Call, maxChunk: nat)
    requires GivesBack(h)
    ensures GivesBack(UseHalf(h, c, maxChunk))
  {
    hide SendChunk, StartWrite, Shutdown, CloseBoth, Flush, SendDatagram, TakeDatagram;
    if h.sess.Some? {
      CallTouches(h.sess.value, c, maxChunk, !h.closed);
    }
  }

  lemma {:induction false} TakeGivesBack(h: Half, f: ShineFrame, server: bool, own: U32)
    requires GivesBack(h)
    ensures GivesBack(TakeFrame(h, f, server, own))
  {
    hide ParseBinary;
  }

  lemma {:induction false} NextGivesBack(p: Pair, m: Move)
    requires GivesBack(p.client) && GivesBack(p.server)
    ensures GivesBack(Next(p, m).client) && GivesBack(Next(p, m).server)
  {
    match m {
      case Use(side, c, maxChunk) =>
        hide UseHalf;
        UseGivesBack(Of(p, side), c, maxChunk);
      case Take(side, window) =>
        hide TakeFrame;
        var from := Of(p, W.Peer(side));
        if from.out != [] {
          TakeGivesBack(Of(p, side), from.out[0], side.Server?, window);
        }
      case _ =>
    }
  }

  // ---------------- stalls ----------------

  /** A writer waits for credit, its reader has drained everything, and neither DATA nor WINDOW is under way. */
  predicate Stalled(p: Pair, side: W.Side) {
    var x, y := Of(p, side), Of(p, W.Peer(side));
    BothOpen(p) && LinksUp(p) && !x.sess.value.udp &&
    x.sess.value.writing != [] && x.sess.value.credit <= 0 && Count(x.out).data == 0 &&
    y.sess.value.inbox == [] && y.sess.value.leftover == [] && Count(y.out).credit == 0
  }

  /** The window that a stall needs: none at all, or less than what the reader waits for. */
  predicate WindowTooSmall(side: W.Side, x: Ctx) {
    x.clientWindow == 0 || x.clientWindow < WindowOf(W.Peer(side), x) / 2
  }

  lemma {:induction false} StallNeedsSmallWindow(p: Pair, side: W.Side, x: Ctx)
    requires Base(p, x) && Ledger(p, x) && LossOk(p, Count(p.client.out)) && GivesBack(p.client) && GivesBack(p.server)
    requires Stalled(p, side)
    ensures WindowTooSmall(side, x)
  {
    hide Count, OwnFrames;
    assert p.server.sess.value.udp == p.client.sess.value.udp;
    ExactWhileOpen(p, x);
    assert Flatten([]) == [];
    hide Flatten;
  }

  /** The client never starves the server: a client's own window is always large enough for its own threshold. */
  lemma {:induction false} ServerStallsOnlyWithoutWindow(x: Ctx)
    ensures WindowTooSmall(W.Server, x) <==> x.clientWindow == 0
    ensures WindowTooSmall(W.Client, x) <==> x.clientWindow < (if x.serverWindow / 2 >= 1 then x.serverWindow / 2 else 1)
  {
  }

  // ---------------- a stall is for ever ----------------

  /** No credit, and nothing anywhere that could bring some. */
  predicate Starved(x: Half, y: Half) {
    x.sess.Some? && y.sess.Some? && !x.sess.value.udp && x.sess.value.credit <= 0 && Count(x.out).data == 0 &&
    y.sess.value.inbox == [] && y.sess.value.leftover == [] && Count(y.out).credit == 0
  }

  lemma {:induction false} UseStarvedWriter(x: Half, y: Half, c: Call, maxChunk: nat)
    requires Starved(x, y)
    ensures Starved(UseHalf(x, c, maxChunk), y) && SameSent(x, UseHalf(x, c, maxChunk))
  {
    hide Count, ReadCall, StartWrite, Shutdown, CloseBoth, Flush, SendDatagram, TakeDatagram;
    CallTouches(x.sess.value, c, maxChunk, !x.closed);
    var eff := Invoke(x.sess.value, c, maxChunk, !x.closed);
    InvokeFrames(x.sess.value, c, maxChunk, !x.closed);
    CountInstall(x.out, eff.frames);
  }

  predicate SameSent(h: Half, h': Half) {
    h.sess.Some? && h'.sess.Some? && h'.sess.value.sent == h.sess.value.sent
  }

  lemma {:induction false} UseStarvedReader(x: Half, y: Half, c: Call, maxChunk: nat)
    requires Starved(x, y)
    ensures Starved(x, UseHalf(y, c, maxChunk))
  {
    hide Count, SendChunk, StartWrite, Shutdown, CloseBoth, Flush, SendDatagram, TakeDatagram;
    CallTouches(y.sess.value, c, maxChunk, !y.closed);
    var eff := Invoke(y.sess.value, c, maxChunk, !y.closed);
    InvokeFrames(y.sess.value, c, maxChunk, !y.closed);
    CountInstall(y.out, eff.frames);
  }

  /** What a frame can do to an end that exists. */
  lemma {:induction false} TakeOnSome(h: Half, f: ShineFrame, server: bool, own: U32)
    requires h.sess.Some?
    ensures var h' := TakeFrame(h, f, server, own);
            h'.sess.Some? && h'.sess.value.sent == h.sess.value.sent && h'.sess.value.udp == h.sess.value.udp &&
            h'.sess.value.leftover == h.sess.value.leftover && h'.sess.value.credit <= h.sess.value.credit + Weigh(f).credit &&
            (Weigh(f).data == 0 ==> h'.sess.value.inbox == h.sess.value.inbox) &&
            (h'.out == h.out || h'.out == h.out + [Reset(SidOf(f).value)] || h'.out == h.out + [Ack(SidOf(f).value)])
  {
    hide ParseBinary;
    assert h.out + [] == h.out;
  }

  lemma {:induction false} RepliesWeighNothing(out: seq<ShineFrame>, g: ShineFrame)
    requires g.Ack? || g.Reset?
    ensures Count(out + [g]).data == Count(out).data && Count(out + [g]).credit == Count(out).credit
  {
    hide Count;
    CountSnoc(out, g);
  }

  lemma {:induction false} TakeWeighs(h: Half, f: ShineFrame, server: bool, own: U32)
    requires h.sess.Some? && SidOf(f).Some?
    ensures var out' := TakeFrame(h, f, server, own).out;
            Count(out').data == Count(h.out).data && Count(out').credit == Count(h.out).credit
  {
    hide Count, TakeFrame;
    TakeOnSome(h, f, server, own);
    RepliesWeighNothing(h.out, Reset(SidOf(f).value));
    RepliesWeighNothing(h.out, Ack(SidOf(f).value));
  }

  lemma {:induction false} TakeStarvedWriter(x: Half, y: Half, server: bool, own: U32)
    requires Starved(x, y) && y.out != [] && SidOf(y.out[0]).Some?
    ensures Starved(TakeFrame(x, y.out[0], server, own), Pop(y)) && SameSent(x, TakeFrame(x, y.out[0], server, own))
  {
    hide Count, TakeFrame;
    CountPop(y.out);
    TakeOnSome(x, y.out[0], server, own);
    TakeWeighs(x, y.out[0], server, own);
  }

  lemma {:induction false} TakeStarvedReader(x: Half, y: Half, server: bool, own: U32)
    requires Starved(x, y) && x.out != [] && SidOf(x.out[0]).Some?
    ensures Starved(Pop(x), TakeFrame(y, x.out[0], server, own))
  {
    hide Count, TakeFrame;
    CountPop(x.out);
    TakeOnSome(y, x.out[0], server, own);
    TakeWeighs(y, x.out[0], server, own);
  }

  lemma {:induction false} CutStarved(x: Half, y: Half, keep: nat)
    requires Starved(x, y)
    ensures keep <= |x.out| ==> Starved(x.(out := x.out[..keep], lost := x.lost || keep < |x.out|), y)
    ensures keep <= |y.out| ==> Starved(x, y.(out := y.out[..keep], lost := y.lost || keep < |y.out|))
  {
    hide Count;
    if keep <= |x.out| {
      CountPrefix(x.out, keep);
    }
    if keep <= |y.out| {
      CountPrefix(y.out, keep);
    }
  }

  lemma {:induction false} FailStarved(x: Half, y: Half)
    requires Starved(x, y)
    ensures Starved(FailHalf(x), y) && Starved(x, FailHalf(y)) && SameSent(x, FailHalf(x))
    ensures Starved(x.(closed := true), y) && Starved(x, y.(closed := true))
  {
    hide Count;
  }

  lemma {:induction false} RefuseStarved(x: Half, y: Half)
    requires Starved(x, y)
    ensures y.out != [] ==> Starved(FailHalf(x.(lost := true)), Pop(y)) && SameSent(x, FailHalf(x.(lost := true)))
    ensures x.out != [] ==> Starved(Pop(x), FailHalf(y.(lost := true)))
  {
    hide Count;
    CountPop(x.out);
    CountPop(y.out);
  }

  lemma {:induction false} StarvedSome(x: Half, y: Half)
    requires Starved(x, y)
    ensures x.sess.Some? && y.sess.Some?
  {
  }

  predicate StaysStarved(p: Pair, p': Pair, side: W.Side) {
    Starved(Of(p', side), Of(p', W.Peer(side))) && SameSent(Of(p, side), Of(p', side))
  }

  lemma {:induction false} TakeStarved(p: Pair, side: W.Side, s: W.Side, window: U32)
    requires Starved(Of(p, side), Of(p, W.Peer(side)))
    requires OwnFrames(p.client.out, Of(p, side).sess.value.sid) && OwnFrames(p.server.out, Of(p, side).sess.value.sid)
    ensures StaysStarved(p, Next(p, Move.Take(s, window)), side)
  {
    hide Starved, Count, TakeFrame, OwnFrames;
    var x, y := Of(p, side), Of(p, W.Peer(side));
    StarvedSome(x, y);
    if s == side && y.out != [] {
      OwnHead(y.out, x.sess.value.sid);
      TakeStarvedWriter(x, y, s.Server?, window);
    } else if s != side && x.out != [] {
      OwnHead(x.out, x.sess.value.sid);
      TakeStarvedReader(x, y, s.Server?, window);
    }
  }

  lemma {:induction false} DownStarved(p: Pair, side: W.Side, m: Move)
    requires Starved(Of(p, side), Of(p, W.Peer(side))) && (m.Refuse? || m.Fail? || m.CloseNow? || m.Cut?)
    ensures StaysStarved(p, Next(p, m), side)
  {
    hide Starved, Count, FailHalf;
    var x, y := Of(p, side), Of(p, W.Peer(side));
    StarvedSome(x, y);
    match m {
      case Refuse(_) => RefuseStarved(x, y);
      case Cut(_, keep) => CutStarved(x, y, keep);
      case _ => FailStarved(x, y);
    }
  }

  /** Whatever happens next, a starved writer never sends another byte. */
  lemma {:induction false} NextStarved(p: Pair, side: W.Side, m: Move)
    requires Starved(Of(p, side), Of(p, W.Peer(side)))
    requires OwnFrames(p.client.out, Of(p, side).sess.value.sid) && OwnFrames(p.server.out, Of(p, side).sess.value.sid)
    ensures StaysStarved(p, Next(p, m), side)
  {
    hide Starved, Count, UseHalf, OwnFrames, OpenHalf;
    var x, y := Of(p, side), Of(p, W.Peer(side));
    StarvedSome(x, y);
    match m {
      case Idle =>
      case Use(s, c, maxChunk) =>
        if s == side {
          UseStarvedWriter(x, y, c, maxChunk);
        } else {
          UseStarvedReader(x, y, c, maxChunk);
        }
      case Open(id, target, udp, window) => NoReopen(p.client, id, target, udp, window);
      case Take(s, window) =>
        hide Next;
        TakeStarved(p, side, s, window);
      case _ =>
        hide Next;
        DownStarved(p, side, m);
    }
  }
}
