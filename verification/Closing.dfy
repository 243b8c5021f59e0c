/** Half-close: phases only move forward, and once both ends have shut down, both are closed everywhere. */
module Closing {
  import opened Octets
  import opened ShineFrames
  import opened Addresses
  import opened SessionModel
  import opened LinkModel
  import opened Isolation
  import opened PairBase
  import W = World

  /** The other end has taken note of this end's CLOSE, or will never exist to do so. */
  predicate PeerKnows(y: Half, news: nat) {
    match y.sess
    case None => news == 0
    case Some(t) => ReadSideDone(t.phase)
  }

  /** While both links are up: an end whose write side is done has been told so by its own user, or was refused by the
      server; and the CLOSE it owes is with the detached coroutine, on the wire, or known to the other end. */
  predicate ShutOk(x: Half, y: Half, t: Tally) {
    !x.closed && !y.closed && x.sess.Some? ==>
      var s := x.sess.value;
      (WriteSideDone(s.phase) ==> s.shut || (s.phase.Closed? && y.sess.None? && t.news == 0)) &&
      (s.shut ==> WriteSideDone(s.phase) && (s.closeSpawned || t.closes > 0 || PeerKnows(y, t.news))) &&
      (s.closeSpawned ==> s.shut)
  }

  predicate Shutting(p: Pair) {
    ShutOk(p.client, p.server, Count(p.client.out)) && ShutOk(p.server, p.client, Count(p.server.out))
  }

  predicate Quiet(c: Call) {
    !c.ShutdownWrite? && !c.CloseCall? && !c.FlushClose?
  }

  lemma {:induction false} QuietCall(s: Sess, c: Call, maxChunk: nat, linkOpen: bool)
    requires Quiet(c)
    ensures var eff := Invoke(s, c, maxChunk, linkOpen);
            eff.sess.phase == s.phase && eff.sess.shut == s.shut && eff.sess.closeSpawned == s.closeSpawned && !eff.erase
            && (eff.frames != [] ==> !eff.frames[0].Close?)
  {
    hide Invoke;
    CallTouches(s, c, maxChunk, linkOpen);
  }

  lemma {:induction false} QuietShut(x: Half, y: Half, c: Call, maxChunk: nat)
    requires x.sess.Some? && ShutOk(x, y, Count(x.out)) && ShutOk(y, x, Count(y.out)) && Quiet(c)
    ensures var x' := UseHalf(x, c, maxChunk);
            ShutOk(x', y, Count(x'.out)) && ShutOk(y, x', Count(y.out))
  {
    hide Count, Invoke;
    QuietCall(x.sess.value, c, maxChunk, !x.closed);
    InvokeFrames(x.sess.value, c, maxChunk, !x.closed);
    CountInstall(x.out, Invoke(x.sess.value, c, maxChunk, !x.closed).frames);
  }

  lemma {:induction false} LoudShut(x: Half, y: Half, c: Call, maxChunk: nat)
    requires x.sess.Some? && ShutOk(x, y, Count(x.out)) && ShutOk(y, x, Count(y.out)) && !Quiet(c)
    ensures var x' := UseHalf(x, c, maxChunk);
            ShutOk(x', y, Count(x'.out)) && ShutOk(y, x', Count(y.out))
  {
    hide Count, ReadCall, SendChunk, SendDatagram;
    InvokeFrames(x.sess.value, c, maxChunk, !x.closed);
    CountInstall(x.out, Invoke(x.sess.value, c, maxChunk, !x.closed).frames);
  }

  /** Frames move the phase only through CLOSE and RESET. */
  lemma {:induction false} FramePhase(s: Sess, f: ShineFrame)
    ensures var s' := OnFrame(s, f).sess;
            s'.shut == s.shut && s'.closeSpawned == s.closeSpawned && (!f.Close? && !f.Reset? ==> s'.phase == s.phase) &&
            (f.Close? ==> s'.phase == OnPeerClose(s).phase) && (f.Reset? ==> s'.phase == Closed)
  {
    hide ParseBinary;
  }

  lemma {:induction false} TakeShut(p: Pair, side: W.Side, x: Ctx)
    requires Base(p, x) && Shutting(p) && Of(p, W.Peer(side)).out != [] && !Of(p, side).closed
    requires !Of(p, W.Peer(side)).out[0].New? && !Of(p, W.Peer(side)).out[0].NewUdp?
    ensures Shutting(Next(p, Move.Take(side, WindowOf(side, x))))
  {
    hide Count, OwnFrames, TakeFrame, ShutOk, Untouched;
    var h, from := Of(p, side), Of(p, W.Peer(side));
    CountPop(from.out);
    TakeShutHalf(h, from, side.Server?, WindowOf(side, x));
  }

  /** A frame other than NEW at one end: no NEW is then under way behind it, and a RESET comes from a server that never
      had the session. */
  lemma {:induction false} TakeShutHalf(h: Half, from: Half, server: bool, window: U32)
    requires from.out != [] && !from.out[0].New? && !from.out[0].NewUdp? && Count(from.out).news == 0
    requires from.out[0].Reset? ==> from.sess.None? && Count(h.out).news == 0
    requires !h.closed && (h.sess.Some? && !h.listed ==> h.sess.value.phase.Closed?)
    requires ShutOk(h, from, Count(h.out)) && ShutOk(from, h, Count(from.out))
    ensures var h', from' := TakeFrame(h, from.out[0], server, window), Pop(from);
            ShutOk(h', from', Count(h'.out)) && ShutOk(from', h', Count(from'.out))
  {
    hide Count, OnFrame, ParseBinary;
    var f := from.out[0];
    CountPop(from.out);
    if h.sess.Some? {
      FramePhase(h.sess.value, f);
      OnFrameTagged(h.sess.value, f);
      assert h.out + [] == h.out;
    }
  }

  lemma {:induction false} AcceptShut(p: Pair, x: Ctx)
    requires Base(p, x) && Shutting(p) && p.client.out != [] && !p.server.closed
    requires p.client.out[0].New? || p.client.out[0].NewUdp?
    ensures Shutting(Next(p, Move.Take(W.Server, x.serverWindow)))
  {
    hide Count, ParseBinary, OwnFrames, Untouched;
    CountPop(p.client.out);
    CountSnoc(p.server.out, Reset(x.sid));
    CountSnoc(p.server.out, Ack(x.sid));
    OwnHead(p.client.out, x.sid);
  }

  lemma {:induction false} OpenShut(p: Pair, target: Address, udp: bool, x: Ctx)
    requires Base(p, x) && Shutting(p)
    ensures Shutting(Next(p, Move.Open(x.sid, target, udp, x.clientWindow)))
  {
    hide Count, ToBinary, OwnFrames, Untouched;
  }

  lemma {:induction false} NextShutting(p: Pair, m: Move, x: Ctx)
    requires Base(p, x) && Shutting(p) && Legit(m, x)
    ensures Shutting(Next(p, m))
  {
    hide Count, OwnFrames, Untouched;
    match m {
      case Idle =>
      case Use(side, c, maxChunk) =>
        hide Invoke, ShutOk;
        var h, o := Of(p, side), Of(p, W.Peer(side));
        if h.sess.Some? {
          if Quiet(c) {
            QuietShut(h, o, c, maxChunk);
          } else {
            LoudShut(h, o, c, maxChunk);
          }
        }
      case Open(sid, target, udp, window) => OpenShut(p, target, udp, x);
      case Take(side, window) =>
        var h, from := Of(p, side), Of(p, W.Peer(side));
        if from.out != [] && !h.closed {
          if from.out[0].New? || from.out[0].NewUdp? {
            CountPop(p.server.out);
            AcceptShut(p, x);
          } else {
            TakeShut(p, side, x);
          }
        }
      case _ =>
    }
  }

  // ---------------- what it is for ----------------

  predicate NoCloseUnderWay(h: Half) {
    Count(h.out).closes == 0 && (h.sess.Some? ==> !h.sess.value.closeSpawned)
  }

  lemma {:induction false} BothShutBothClosed(p: Pair, x: Ctx)
    requires Base(p, x) && Shutting(p) && !p.client.closed && !p.server.closed
    requires p.client.sess.Some? && p.client.sess.value.shut && p.server.sess.Some? && p.server.sess.value.shut
    requires NoCloseUnderWay(p.client) && NoCloseUnderWay(p.server)
    ensures p.client.sess.value.phase.Closed? && !p.client.listed && p.server.sess.value.phase.Closed? && !p.server.listed
  {
    hide Count, OwnFrames;
  }

  // ---------------- phases only advance ----------------

  function Rank(p: Phase): nat {
    match p
    case Open => 0
    case Closed => 2
    case _ => 1
  }

  /** A session once created stays, and its phase stays or advances. */
  predicate Advances(h: Half, h': Half) {
    h.sess.Some? ==>
      h'.sess.Some? && (h'.sess.value.phase == h.sess.value.phase || Rank(h.sess.value.phase) < Rank(h'.sess.value.phase))
  }

  lemma {:induction false} UseAdvances(h: Half, c: Call, maxChunk: nat)
    ensures Advances(h, UseHalf(h, c, maxChunk))
  {
    hide ToBinary, ReadCall, SendChunk;
    if h.sess.Some? && Quiet(c) {
      hide Invoke;
      QuietCall(h.sess.value, c, maxChunk, !h.closed);
    }
  }

  lemma {:induction false} TakeAdvances(h: Half, f: ShineFrame, server: bool, window: U32)
    ensures Advances(h, TakeFrame(h, f, server, window))
  {
    hide OnFrame, ParseBinary;
    if h.sess.Some? {
      FramePhase(h.sess.value, f);
    }
  }

  lemma {:induction false} NextAdvances(p: Pair, m: Move)
    ensures Advances(p.client, Next(p, m).client) && Advances(p.server, Next(p, m).server)
  {
    hide UseHalf, TakeFrame;
    match m {
      case Use(side, c, maxChunk) => UseAdvances(Of(p, side), c, maxChunk);
      case Take(side, window) =>
        var h, from := Of(p, side), Of(p, W.Peer(side));
        if from.out != [] {
          TakeAdvances(h, from.out[0], side.Server?, window);
        }
      case _ =>
    }
  }
}
