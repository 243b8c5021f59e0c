/** A ping is never lost on links that are up: it, or the answer that clears it, is on its way. */
module Echo {
  import opened Octets
  import opened ShineFrames
  import opened Addresses
  import opened SessionModel
  import opened LinkModel
  import opened Isolation
  import opened Guarantees
  import Heartbeat
  import HeartRun
  import W = World

  /** An end that waits for a PONG is past its handshake, and its ping or the answer to it is under way. */
  predicate Echoing(e: End, peer: End) {
    (e.heart.pending != 0 ==> e.stage.Ready?) &&
    (e.heart.pending != 0 && !e.closed && !peer.closed ==> Ping(e.heart.pending) in e.out || Pong(e.heart.pending) in peer.out)
  }

  predicate BothEcho(w: W.World) {
    Echoing(w.client, w.server) && Echoing(w.server, w.client)
  }

  /** A step at one end that keeps its heart and its frames. */
  predicate Grown(e: End, e': End) {
    e'.heart == e.heart && (e.stage.Ready? ==> e'.stage.Ready?) && (e.closed ==> e'.closed) && e.out <= e'.out
  }

  lemma {:induction false} GrownEchoes(e: End, e': End, peer: End)
    requires Grown(e, e')
    ensures Echoing(e, peer) ==> Echoing(e', peer)
    ensures Echoing(peer, e) ==> Echoing(peer, e')
  {
  }

  lemma {:induction false} UseGrown(e: End, sid: U64, c: Call)
    ensures Grown(e, LinkModel.Use(e, sid, c))
  {
    hide Invoke;
  }

  lemma {:induction false} BeatEchoes(e: End, peer: End, now: nat, nonce: U64)
    requires Echoing(e, peer) && Echoing(peer, e)
    ensures var e' := LinkModel.Beat(e, now, nonce); Echoing(e', peer) && Echoing(peer, e')
  {
    hide Heartbeat.Elapsed;
    var d := Heartbeat.Decide(e.heart, now, nonce, e.limits);
    if d.SendPing? && !e.closed {
      assert (e.out + [Ping(d.nonce)])[|e.out|] == Ping(d.nonce);
    }
  }

  // ---------------- delivery ----------------

  /** What the arrival of a frame does to an end that is up. */
  predicate Heard(e: End, e': End, f: ShineFrame) {
    && e.out <= e'.out && (e.stage.Ready? ==> e'.stage.Ready?)
    && (!e'.closed && f.Ping? ==> Pong(f.nonce) in e'.out)
    && (e'.heart.pending == e.heart.pending || (e'.heart.pending == 0 && f == Pong(e.heart.pending)))
    && (!e'.closed && f == Pong(e.heart.pending) ==> e'.heart.pending == 0)
  }

  lemma {:induction false} DispatchHeard(e: End, f: ShineFrame, now: nat)
    requires !e.closed
    ensures Heard(e, Dispatch(e, f, now), f)
  {
    hide OnFrame, ParseBinary;
    if f.Ping? {
      assert (e.out + [Pong(f.nonce)])[|e.out|] == Pong(f.nonce);
    }
  }

  lemma {:induction false} GreetHeard(e: End, f: ShineFrame)
    requires !e.closed && !e.stage.Ready? && e.heart.pending == 0
    ensures Heard(e, Greet(e, f), f)
  {
  }

  lemma {:induction false} HeardEchoes(e: End, e': End, from: End)
    requires from.out != [] && !e.closed && Heard(e, e', from.out[0]) && Echoing(e, from) && Echoing(from, e)
    ensures var from' := from.(out := from.out[1..]); Echoing(e', from') && Echoing(from', e')
  {
    var f, rest := from.out[0], from.out[1..];
    assert forall g :: g in from.out ==> g == f || g in rest;
    assert forall g :: g in e.out ==> g in e'.out;
  }

  lemma {:induction false} DeliverEchoes(w: W.World, side: W.Side, now: nat)
    requires BothEcho(w) && W.CanDeliver(w, side)
    ensures BothEcho(W.DeliverTo(w, side, now))
  {
    hide Dispatch, Greet, Heard, Blocked, Echoing;
    var e, from := W.EndOf(w, side), W.EndOf(w, W.Peer(side));
    var f := from.out[0];
    if e.stage.Ready? {
      DispatchHeard(e, f, now);
      HeardEchoes(e, Dispatch(e, f, now), from);
    } else {
      NoPing(e, from);
      GreetHeard(e, f);
      HeardEchoes(e, Greet(e, f), from);
    }
  }

  lemma {:induction false} NoPing(e: End, peer: End)
    requires Echoing(e, peer) && !e.stage.Ready?
    ensures e.heart.pending == 0
  {
  }

  lemma {:induction false} StepEchoes(w: W.World, a: W.Act)
    requires BothEcho(w)
    ensures BothEcho(W.Step(w, a))
  {
    match a {
      case Use(side, sid, c) =>
        hide Grown, Echoing, LinkModel.Use;
        UseGrown(W.EndOf(w, side), sid, c);
        GrownEchoes(W.EndOf(w, side), LinkModel.Use(W.EndOf(w, side), sid, c), W.EndOf(w, W.Peer(side)));
      case Open(sid, target, udp) =>
        hide ToBinary, Echoing;
        GrownEchoes(w.client, OpenSession(w.client, sid, target, udp), w.server);
      case Deliver(side, now) =>
        hide W.DeliverTo, BothEcho, Blocked;
        if W.CanDeliver(w, side) {
          DeliverEchoes(w, side, now);
        }
      case Beat(side, now, nonce) =>
        hide LinkModel.Beat, Echoing;
        BeatEchoes(W.EndOf(w, side), W.EndOf(w, W.Peer(side)), now, nonce);
      case Fail(side) =>
      case CloseNow(side) =>
      case Cut(side, keep) =>
    }
  }

  lemma {:induction false} RunEchoes(cfg: W.Config, acts: seq<W.Act>)
    ensures BothEcho(After(cfg, acts))
  {
    if acts != [] {
      hide BothEcho, W.Step;
      RunEchoes(cfg, acts[..|acts| - 1]);
      StepEchoes(After(cfg, acts[..|acts| - 1]), acts[|acts| - 1]);
    }
  }

  /** In every run, on links that are up: while an end waits for a PONG, its PING or the PONG that clears it is under way,
      in its own pipe or in its peer's. */
  lemma {:induction false} PingUnderWay(cfg: W.Config, acts: seq<W.Act>, side: W.Side)
    requires var w := After(cfg, acts); LinksOpen(w) && W.EndOf(w, side).heart.pending != 0
    ensures var w := After(cfg, acts);
            var e, peer := W.EndOf(w, side), W.EndOf(w, W.Peer(side));
            Ping(e.heart.pending) in e.out || Pong(e.heart.pending) in peer.out
  {
    hide W.Run;
    RunEchoes(cfg, acts);
  }

  /** The way there: the heartbeat turn that starts a wait queues the PING with that very nonce. */
  lemma {:induction false} PingIsQueued(w: W.World, a: W.Act, side: W.Side)
    requires HeartRun.SendsPing(w, a, side)
    ensures var e, e' := W.EndOf(w, side), W.EndOf(W.Step(w, a), side);
            e'.out == e.out + [Ping(e'.heart.pending)] && e'.heart.pending != 0 && e'.heart.lastSent == a.now
  {
    hide Heartbeat.Elapsed;
  }

  /** And back: a PONG with the nonce waited for ends the wait at once. */
  lemma {:induction false} PongEndsWait(cfg: W.Config, acts: seq<W.Act>, side: W.Side, now: nat)
    requires var w := After(cfg, acts);
             !W.EndOf(w, side).closed && W.EndOf(w, side).heart.pending != 0 &&
             W.EndOf(w, W.Peer(side)).out != [] && W.EndOf(w, W.Peer(side)).out[0] == Pong(W.EndOf(w, side).heart.pending)
    ensures var e := W.EndOf(After(cfg, acts + [W.Deliver(side, now)]), side);
            !e.closed && e.heart.pending == 0 && e.heart.lastPong == now
  {
    hide W.Run;
    RunEchoes(cfg, acts);
    AfterSnoc(cfg, acts, W.Deliver(side, now));
  }
}
