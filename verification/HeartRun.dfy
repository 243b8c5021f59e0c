/** The heartbeat inside a run: the heart of an end follows its own ticks and PONGs and nothing else, so the bounds of the
    heartbeat hold of links. */
module HeartRun {
  import opened Octets
  import opened ShineFrames
  import opened Addresses
  import opened SessionModel
  import opened LinkModel
  import H = Heartbeat
  import W = World

  /** What an act means to the heartbeat of one end: a tick, a PONG, or nothing. */
  function EventOf(w: W.World, a: W.Act, side: W.Side): seq<H.Event> {
    var e := W.EndOf(w, side);
    if e.closed || !e.stage.Ready? then []
    else
      match a
      case Beat(s, now, nonce) => if s == side then [H.TickAt(now, nonce)] else []
      case Deliver(s, now) =>
        if s == side && W.CanDeliver(w, s) && W.EndOf(w, W.Peer(s)).out[0].Pong?
        then [H.PongAt(now, W.EndOf(w, W.Peer(s)).out[0].nonce)] else []
      case _ => []
  }

  /** The ticks and PONGs of one end in a run from `w`. */
  function Events(w: W.World, acts: seq<W.Act>, side: W.Side): seq<H.Event> {
    if acts == [] then []
    else
      var front := acts[..|acts| - 1];
      Events(w, front, side) + EventOf(W.Run(w, front), acts[|acts| - 1], side)
  }

  function Begin(e: End): H.State {
    H.State(e.heart, false)
  }

  /** The heartbeat of an end after a run from `w`. */
  function BeatState(w: W.World, acts: seq<W.Act>, side: W.Side): H.State {
    var es := Events(w, acts, side);
    H.At(Begin(W.EndOf(w, side)), es, |es|, W.EndOf(w, side).limits)
  }

  // ---------------- one step ----------------

  /** Closed links stay closed, the handshake stays done, and the limits are fixed. */
  lemma {:induction false} EndStays(w: W.World, a: W.Act, side: W.Side)
    ensures var e, e' := W.EndOf(w, side), W.EndOf(W.Step(w, a), side);
            e'.limits == e.limits && (e.stage.Ready? ==> e'.stage.Ready?) && (e.closed ==> e'.closed)
  {
    hide OnFrame, Invoke, ParseBinary;
  }

  lemma {:induction false} QuietStep(w: W.World, a: W.Act, side: W.Side)
    requires EventOf(w, a, side) == [] && W.EndOf(w, side).stage.Ready?
    ensures var e, e' := W.EndOf(w, side), W.EndOf(W.Step(w, a), side); e'.closed || e'.heart == e.heart
  {
    hide OnFrame, Invoke, ParseBinary;
  }

  /** A tick or a PONG does to the heart what the heartbeat does, and a timeout is what closes the link. */
  lemma {:induction false} EventStep(w: W.World, a: W.Act, side: W.Side)
    requires EventOf(w, a, side) != []
    ensures var e, e' := W.EndOf(w, side), W.EndOf(W.Step(w, a), side);
            var next := H.Step(Begin(e), EventOf(w, a, side)[0], e.limits);
            |EventOf(w, a, side)| == 1 && e'.heart == next.heart && (e'.closed <==> next.failed)
  {
    hide H.Elapsed;
  }

  // ---------------- runs ----------------

  lemma {:induction false} AtPrefix(s: H.State, es: seq<H.Event>, more: seq<H.Event>, n: nat, lim: H.Limits)
    requires n <= |es|
    ensures H.At(s, es + more, n, lim) == H.At(s, es, n, lim)
  {
    hide H.Step;
    if n > 0 {
      AtPrefix(s, es, more, n - 1, lim);
    }
  }

  /** After every run from a finished handshake: while the link is up, the end's heart is the heartbeat's own after just
      its ticks and PONGs; and a heartbeat that has failed has closed the link. */
  lemma {:induction false} HeartFollows(w: W.World, acts: seq<W.Act>, side: W.Side)
    requires W.EndOf(w, side).stage.Ready? && !W.EndOf(w, side).closed
    ensures var e, b := W.EndOf(W.Run(w, acts), side), BeatState(w, acts, side);
            e.limits == W.EndOf(w, side).limits && e.stage.Ready? &&
            (!e.closed ==> e.heart == b.heart && !b.failed) && (b.failed ==> e.closed)
  {
    if acts != [] {
      var front, a := acts[..|acts| - 1], acts[|acts| - 1];
      var v := W.Run(w, front);
      HeartFollows(w, front, side);
      HeartStep(w, front, a, side);
    }
  }

  lemma {:induction false} HeartStep(w: W.World, front: seq<W.Act>, a: W.Act, side: W.Side)
    requires var e, b := W.EndOf(W.Run(w, front), side), BeatState(w, front, side);
             e.limits == W.EndOf(w, side).limits && e.stage.Ready? &&
             (!e.closed ==> e.heart == b.heart && !b.failed) && (b.failed ==> e.closed)
    ensures var e, es := W.EndOf(W.Step(W.Run(w, front), a), side), Events(w, front, side) + EventOf(W.Run(w, front), a, side);
            var b := H.At(Begin(W.EndOf(w, side)), es, |es|, W.EndOf(w, side).limits);
            e.limits == W.EndOf(w, side).limits && e.stage.Ready? &&
            (!e.closed ==> e.heart == b.heart && !b.failed) && (b.failed ==> e.closed)
  {
    hide W.Step, W.Run, H.Step, EventOf, Events;
    var v := W.Run(w, front);
    var es, ev := Events(w, front, side), EventOf(v, a, side);
    EndStays(v, a, side);
    AtPrefix(Begin(W.EndOf(w, side)), es, ev, |es|, W.EndOf(w, side).limits);
    if ev == [] {
      QuietStep(v, a, side);
      assert es + ev == es;
    } else {
      EventStep(v, a, side);
      OpenEvent(v, a, side);
      assert (es + ev)[|es|] == ev[0];
    }
  }

  lemma {:induction false} OpenEvent(w: W.World, a: W.Act, side: W.Side)
    requires EventOf(w, a, side) != []
    ensures !W.EndOf(w, side).closed
  {
  }

  // ---------------- at most one ping is outstanding ----------------

  /** The act makes an end send a ping. */
  predicate SendsPing(w: W.World, a: W.Act, side: W.Side) {
    var e := W.EndOf(w, side);
    a.Beat? && a.side == side && !e.closed && e.stage.Ready? && H.Decide(e.heart, a.now, a.nonce, e.limits).SendPing?
  }

  function PingNonce(w: W.World, a: W.Act, side: W.Side): U64
    requires SendsPing(w, a, side)
  {
    H.Decide(W.EndOf(w, side).heart, a.now, a.nonce, W.EndOf(w, side).limits).nonce
  }

  /** The act hands an end the PONG with this nonce. */
  predicate PongComes(w: W.World, a: W.Act, side: W.Side, nonce: U64) {
    a.Deliver? && a.side == side && W.CanDeliver(w, side) && W.EndOf(w, W.Peer(side)).out[0] == Pong(nonce)
  }

  predicate PongComesBetween(w: W.World, acts: seq<W.Act>, i: nat, j: nat, side: W.Side, nonce: U64)
    requires j <= |acts|
  {
    exists k :: i < k < j && PongComes(W.Run(w, acts[..k]), acts[k], side, nonce)
  }

  lemma {:induction false} PendingStep(w: W.World, a: W.Act, side: W.Side, nonce: U64)
    requires W.EndOf(w, side).stage.Ready? && !PongComes(w, a, side, nonce) && nonce != 0
    requires !W.EndOf(w, side).closed && W.EndOf(w, side).heart.pending == nonce
    ensures var e := W.EndOf(W.Step(w, a), side); e.closed || e.heart.pending == nonce
  {
    hide W.Step, H.Elapsed;
    if EventOf(w, a, side) == [] {
      QuietStep(w, a, side);
    } else {
      EventStep(w, a, side);
    }
  }

  lemma {:induction false} PingPends(w: W.World, a: W.Act, side: W.Side)
    requires SendsPing(w, a, side)
    ensures PingNonce(w, a, side) != 0 && W.EndOf(W.Step(w, a), side).heart.pending == PingNonce(w, a, side)
    ensures W.EndOf(W.Step(w, a), side).stage.Ready? && W.EndOf(w, side).heart.pending == 0 && !W.EndOf(w, side).closed
  {
    hide H.Elapsed;
  }

  lemma {:induction false} RunPrefix(w: W.World, acts: seq<W.Act>, j: nat)
    requires 0 < j <= |acts|
    ensures W.Run(w, acts[..j]) == W.Step(W.Run(w, acts[..j - 1]), acts[j - 1])
  {
    hide W.Step;
    assert acts[..j][..j - 1] == acts[..j - 1];
  }

  lemma {:induction false} PendingUntilPong(w: W.World, acts: seq<W.Act>, i: nat, j: nat, side: W.Side)
    requires i < j <= |acts| && SendsPing(W.Run(w, acts[..i]), acts[i], side)
    requires !PongComesBetween(w, acts, i, j, side, PingNonce(W.Run(w, acts[..i]), acts[i], side))
    ensures var e, nonce := W.EndOf(W.Run(w, acts[..j]), side), PingNonce(W.Run(w, acts[..i]), acts[i], side);
            nonce != 0 && e.stage.Ready? && (e.closed || e.heart.pending == nonce)
  {
    hide W.Run, W.Step, SendsPing, PingNonce, PongComes;
    RunPrefix(w, acts, j);
    PingPends(W.Run(w, acts[..i]), acts[i], side);
    if i + 1 < j {
      var nonce, v := PingNonce(W.Run(w, acts[..i]), acts[i], side), W.Run(w, acts[..j - 1]);
      assert !PongComesBetween(w, acts, i, j - 1, side, nonce);
      PendingUntilPong(w, acts, i, j - 1, side);
      EndStays(v, acts[j - 1], side);
      if !W.EndOf(v, side).closed {
        PendingStep(v, acts[j - 1], side, nonce);
      }
    }
  }

  /** Between any two pings that an end sends in a run, it is handed the PONG of the first. */
  lemma {:induction false} OnePingInRun(w: W.World, acts: seq<W.Act>, i: nat, j: nat, side: W.Side)
    requires i < j < |acts| && SendsPing(W.Run(w, acts[..i]), acts[i], side) && SendsPing(W.Run(w, acts[..j]), acts[j], side)
    ensures PongComesBetween(w, acts, i, j, side, PingNonce(W.Run(w, acts[..i]), acts[i], side))
  {
    hide W.Run, W.Step, SendsPing, PingNonce;
    if !PongComesBetween(w, acts, i, j, side, PingNonce(W.Run(w, acts[..i]), acts[i], side)) {
      PendingUntilPong(w, acts, i, j, side);
      PingPends(W.Run(w, acts[..j]), acts[j], side);
      assert false;
    }
  }

  // ---------------- who is failed, and when ----------------

  /** A peer whose PONGs come in time is never failed: no turn of the heartbeat closes the link. */
  lemma {:induction false} PunctualInRun(w: W.World, acts: seq<W.Act>, side: W.Side, now: nat, nonce: U64, start: nat)
    requires var e := W.EndOf(w, side); e.stage.Ready? && !e.closed && e.heart.pending == 0
    requires var es := Events(w, acts + [W.Beat(side, now, nonce)], side);
             H.Timely(Begin(W.EndOf(w, side)), es, start) && H.Punctual(Begin(W.EndOf(w, side)), es, W.EndOf(w, side).limits)
    requires !W.EndOf(W.Run(w, acts), side).closed
    ensures !W.EndOf(W.Run(w, acts + [W.Beat(side, now, nonce)]), side).closed
  {
    hide W.Run, W.Step, H.Timely, H.Punctual, H.Step;
    var b := W.Beat(side, now, nonce);
    var all, v := acts + [b], W.Run(w, acts);
    assert all[..|acts|] == acts;
    RunPrefix(w, all, |all|);
    assert all[..|all|] == all;
    var es, es' := Events(w, acts, side), Events(w, all, side);
    HeartFollows(w, acts, side);
    EventStep(v, b, side);
    assert es' == es + EventOf(v, b, side);
    AtPrefix(Begin(W.EndOf(w, side)), es, EventOf(v, b, side), |es|, W.EndOf(w, side).limits);
    H.PunctualNeverFailed(Begin(W.EndOf(w, side)), es', |es'|, start, W.EndOf(w, side).limits);
  }

  /** The run has a heartbeat turn of this end within `gap` after `t`. */
  predicate BeatsWithin(acts: seq<W.Act>, side: W.Side, t: nat, gap: nat) {
    exists i :: 0 <= i < |acts| && acts[i].Beat? && acts[i].side == side && t < acts[i].now <= t + gap
  }

  lemma {:induction false} OpenBefore(w: W.World, acts: seq<W.Act>, i: nat, side: W.Side)
    requires i <= |acts| && !W.EndOf(W.Run(w, acts), side).closed && W.EndOf(w, side).stage.Ready?
    ensures !W.EndOf(W.Run(w, acts[..i]), side).closed && W.EndOf(W.Run(w, acts[..i]), side).stage.Ready?
    decreases |acts|
  {
    hide W.Step;
    if i == |acts| {
      assert acts[..i] == acts;
      StageStays(w, acts, side);
    } else {
      var front := acts[..|acts| - 1];
      EndStays(W.Run(w, front), acts[|acts| - 1], side);
      OpenBefore(w, front, i, side);
      assert front[..i] == acts[..i];
    }
  }

  lemma {:induction false} StageStays(w: W.World, acts: seq<W.Act>, side: W.Side)
    requires W.EndOf(w, side).stage.Ready?
    ensures W.EndOf(W.Run(w, acts), side).stage.Ready?
  {
    hide W.Step;
    if acts != [] {
      StageStays(w, acts[..|acts| - 1], side);
      EndStays(W.Run(w, acts[..|acts| - 1]), acts[|acts| - 1], side);
    }
  }

  /** On a link that is up, every heartbeat turn is a tick. */
  lemma {:induction false} BeatTicks(w: W.World, acts: seq<W.Act>, i: nat, side: W.Side)
    requires i < |acts| && acts[i].Beat? && acts[i].side == side
    requires !W.EndOf(W.Run(w, acts), side).closed && W.EndOf(w, side).stage.Ready?
    ensures H.TickAt(acts[i].now, acts[i].nonce) in Events(w, acts, side)
    decreases |acts|
  {
    hide W.Step;
    var front, a := acts[..|acts| - 1], acts[|acts| - 1];
    OpenBefore(w, acts, |acts| - 1, side);
    if i == |acts| - 1 {
      var v := W.Run(w, front);
      assert EventOf(v, a, side) == [H.TickAt(a.now, a.nonce)];
      var es := Events(w, front, side);
      assert (es + EventOf(v, a, side))[|es|] == H.TickAt(a.now, a.nonce);
    } else {
      BeatTicks(w, front, i, side);
    }
  }

  lemma {:induction false} FailedToEnd(s: H.State, es: seq<H.Event>, n: nat, lim: H.Limits)
    requires n <= |es| && H.At(s, es, n, lim).failed
    ensures H.At(s, es, |es|, lim).failed
    decreases |es| - n
  {
    if n < |es| {
      H.AtNext(s, es, n, lim);
      FailedToEnd(s, es, n + 1, lim);
    }
  }

  /** A peer that answers nothing is failed in time: a run whose heartbeat turns come at most `gap` apart until
      max(last pong + ping interval, start) + pong timeout + 2 gaps ends with the link closed. */
  lemma {:induction false} SilentInRun(w: W.World, acts: seq<W.Act>, side: W.Side, start: nat, gap: nat)
    requires W.EndOf(w, side).stage.Ready? && !W.EndOf(w, side).closed
    requires var s, es, lim := Begin(W.EndOf(w, side)), Events(w, acts, side), W.EndOf(w, side).limits;
             H.Timely(s, es, start) && H.Silent(s, es, lim) &&
             forall t :: start <= t && t + gap <= H.Deadline(s, start, gap, lim) ==> BeatsWithin(acts, side, t, gap)
    ensures W.EndOf(W.Run(w, acts), side).closed
  {
    hide W.Run, H.Timely, H.Silent, H.At, Events;
    if !W.EndOf(W.Run(w, acts), side).closed {
      var s, es, lim := Begin(W.EndOf(w, side)), Events(w, acts, side), W.EndOf(w, side).limits;
      forall t | start <= t && t + gap <= H.Deadline(s, start, gap, lim) ensures H.HasTick(es, t, gap) {
        assert BeatsWithin(acts, side, t, gap);
        var i :| 0 <= i < |acts| && acts[i].Beat? && acts[i].side == side && t < acts[i].now <= t + gap;
        BeatTicks(w, acts, i, side);
        var k :| 0 <= k < |es| && es[k] == H.TickAt(acts[i].now, acts[i].nonce);
        assert H.TickIn(es, k, t, gap);
      }
      H.SilentPeerFails(s, es, start, gap, lim);
      var n :| 0 < n <= |es| && es[n - 1].now <= H.Deadline(s, start, gap, lim) && H.At(s, es, n, lim).failed;
      FailedToEnd(s, es, n, lim);
      HeartFollows(w, acts, side);
      assert false;
    }
  }

  // ---------------- from the start ----------------

  lemma {:induction false} UntouchedStep(w: W.World, a: W.Act, side: W.Side)
    requires !W.EndOf(w, side).stage.Ready?
    ensures W.EndOf(W.Step(w, a), side).heart == W.EndOf(w, side).heart
  {
    hide OnFrame, Invoke, ParseBinary;
  }

  /** Until an end has finished its handshake its heart is as it started: no ping pending, and the time of `start` taken
      for the last PONG. Whatever the clock says, the heartbeat sends nothing before. */
  lemma {:induction false} HeartWaitsForHandshake(cfg: W.Config, acts: seq<W.Act>, side: W.Side)
    requires !W.EndOf(W.Run(W.Initial(cfg), acts), side).stage.Ready?
    ensures W.EndOf(W.Run(W.Initial(cfg), acts), side).heart == H.Heart(0, cfg.start, 0)
  {
    if acts != [] {
      hide W.Step;
      var front, a := acts[..|acts| - 1], acts[|acts| - 1];
      EndStays(W.Run(W.Initial(cfg), front), a, side);
      HeartWaitsForHandshake(cfg, front, side);
      UntouchedStep(W.Run(W.Initial(cfg), front), a, side);
    }
  }

  /** The act that finishes an end's handshake leaves its heart as it started, so that the bounds above count from there. */
  lemma {:induction false} HeartAtHandshake(cfg: W.Config, acts: seq<W.Act>, a: W.Act, side: W.Side)
    requires !W.EndOf(W.Run(W.Initial(cfg), acts), side).stage.Ready?
    ensures W.EndOf(W.Run(W.Initial(cfg), acts + [a]), side).heart == H.Heart(0, cfg.start, 0)
  {
    hide W.Step;
    assert (acts + [a])[..|acts|] == acts;
    HeartWaitsForHandshake(cfg, acts, side);
    UntouchedStep(W.Run(W.Initial(cfg), acts), a, side);
  }
}
