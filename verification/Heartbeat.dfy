/** The heartbeat of a link (`Link::heartbeatLoop` and the PONG branch of `Link::dispatchFrame` in
    src/transport/link.cpp), with the clock as a parameter. */
module Heartbeat {
  import opened Octets

  /** `pending` is the outstanding nonce, 0 for none. */
  datatype Heart = Heart(pending: U64, lastPong: nat, lastSent: nat)

  datatype Limits = Limits(pingInterval: nat, pongTimeout: nat)

  datatype Ticked = Quiet | SendPing(nonce: U64) | TimedOut

  /** Unsigned 64-bit subtraction. */
  function Elapsed(now: nat, since: nat): nat {
    (now - since) % U64_LIMIT
  }

  /** What one tick decides, after the handshake. */
  function Decide(h: Heart, now: nat, nonce: U64, lim: Limits): Ticked {
    if h.pending != 0 && Elapsed(now, h.lastSent) > lim.pongTimeout then TimedOut
    else if h.pending == 0 && Elapsed(now, h.lastPong) > lim.pingInterval then
      SendPing(if nonce == 0 then 1 else nonce)
    else Quiet
  }

  function Tick(h: Heart, now: nat, nonce: U64, lim: Limits): Heart {
    match Decide(h, now, nonce, lim)
    case SendPing(n) => h.(pending := n, lastSent := now)
    case _ => h
  }

  function OnPong(h: Heart, nonce: U64, now: nat): Heart {
    if h.pending == nonce then h.(pending := 0, lastPong := now) else h
  }

  // ---------------- runs ----------------

  datatype Event = TickAt(now: nat, nonce: U64) | PongAt(now: nat, pong: U64)

  /** A link past its handshake: its heart, and whether the heartbeat has failed it. */
  datatype State = State(heart: Heart, failed: bool)

  function Step(s: State, e: Event, lim: Limits): State {
    if s.failed then s
    else
      match e
      case PongAt(now, nonce) => s.(heart := OnPong(s.heart, nonce, now))
      case TickAt(now, nonce) =>
        State(Tick(s.heart, now, nonce, lim), Decide(s.heart, now, nonce, lim).TimedOut?)
  }

  /** The state before event `n` of a run that starts in `s`. */
  function At(s: State, es: seq<Event>, n: nat, lim: Limits): State
    requires n <= |es|
  {
    if n == 0 then s else Step(At(s, es, n - 1, lim), es[n - 1], lim)
  }

  /** Clock readings do not go back, and stay within 64 bits; none on record lies in the future. */
  predicate Timely(s: State, es: seq<Event>, start: nat) {
    s.heart.lastPong <= start && s.heart.lastSent <= start &&
    (forall i :: 0 <= i < |es| ==> start <= es[i].now < U64_LIMIT) &&
    forall i, j :: 0 <= i < j < |es| ==> es[i].now <= es[j].now
  }

  /** The 64-bit subtractions never wrap. */
  lemma {:induction false} ClockSafe(s: State, es: seq<Event>, n: nat, start: nat, lim: Limits)
    requires Timely(s, es, start) && n < |es|
    ensures var h := At(s, es, n, lim).heart;
            h.lastPong <= es[n].now && h.lastSent <= es[n].now &&
            Elapsed(es[n].now, h.lastPong) == es[n].now - h.lastPong &&
            Elapsed(es[n].now, h.lastSent) == es[n].now - h.lastSent
  {
    if n > 0 {
      ClockSafe(s, es, n - 1, start, lim);
    }
  }

  /** Event `q` sends a ping. */
  predicate Sends(s: State, es: seq<Event>, q: nat, lim: Limits)
    requires q < |es|
  {
    var at := At(s, es, q, lim);
    !at.failed && es[q].TickAt? && Decide(at.heart, es[q].now, es[q].nonce, lim).SendPing?
  }

  function NonceOf(s: State, es: seq<Event>, q: nat, lim: Limits): U64
    requires q < |es| && Sends(s, es, q, lim)
  {
    Decide(At(s, es, q, lim).heart, es[q].now, es[q].nonce, lim).nonce
  }

  /** A PONG with this nonce is handled strictly between events `a` and `b`. */
  predicate PongBetween(es: seq<Event>, a: nat, b: nat, nonce: U64)
    requires b <= |es|
  {
    exists i :: a < i < b && es[i].PongAt? && es[i].pong == nonce
  }

  // ---------------- at most one ping is outstanding ----------------

  lemma {:induction false} StaysPending(s: State, es: seq<Event>, q: nat, n: nat, lim: Limits)
    requires q < n <= |es| && Sends(s, es, q, lim) && !PongBetween(es, q, n, NonceOf(s, es, q, lim))
    ensures var h := At(s, es, n, lim).heart; h.pending == NonceOf(s, es, q, lim) != 0 && h.lastSent == es[q].now
  {
    if q + 1 < n {
      assert !PongBetween(es, q, n - 1, NonceOf(s, es, q, lim));
      StaysPending(s, es, q, n - 1, lim);
    }
  }

  /** Between two pings of a run, the first one's own PONG has been handled. */
  lemma {:induction false} OnePingAtATime(s: State, es: seq<Event>, q: nat, q': nat, lim: Limits)
    requires q < q' < |es| && Sends(s, es, q, lim) && Sends(s, es, q', lim)
    ensures PongBetween(es, q, q', NonceOf(s, es, q, lim))
  {
    if !PongBetween(es, q, q', NonceOf(s, es, q, lim)) {
      StaysPending(s, es, q, q', lim);
      assert false;
    }
  }

  // ---------------- a punctual peer is never failed ----------------

  /** Every ping is answered before any tick that comes more than `pongTimeout` after it. */
  predicate Punctual(s: State, es: seq<Event>, lim: Limits) {
    forall q, m :: 0 <= q < m < |es| && Sends(s, es, q, lim) && es[m].TickAt? && es[m].now > es[q].now + lim.pongTimeout ==>
      PongBetween(es, q, m, NonceOf(s, es, q, lim))
  }

  /** Whatever is pending was sent by some event of the run and has not been answered since. */
  lemma {:induction false} PendingOrigin(s: State, es: seq<Event>, n: nat, lim: Limits) returns (q: nat)
    requires n <= |es| && s.heart.pending == 0
    requires !At(s, es, n, lim).failed && At(s, es, n, lim).heart.pending != 0
    ensures q < n && Sends(s, es, q, lim)
    ensures var h := At(s, es, n, lim).heart; h.pending == NonceOf(s, es, q, lim) && h.lastSent == es[q].now
    ensures !PongBetween(es, q, n, NonceOf(s, es, q, lim))
  {
    if Sends(s, es, n - 1, lim) {
      q := n - 1;
    } else {
      q := PendingOrigin(s, es, n - 1, lim);
    }
  }

  lemma {:induction false} PunctualNeverFailed(s: State, es: seq<Event>, n: nat, start: nat, lim: Limits)
    requires n <= |es| && Timely(s, es, start) && s.heart.pending == 0 && !s.failed && Punctual(s, es, lim)
    ensures !At(s, es, n, lim).failed
  {
    if n > 0 {
      PunctualNeverFailed(s, es, n - 1, start, lim);
      if At(s, es, n, lim).failed {
        ClockSafe(s, es, n - 1, start, lim);
        var q := PendingOrigin(s, es, n - 1, lim);
        assert false;
      }
    }
  }

  // ---------------- a silent peer is failed in time ----------------

  /** No PONG of the run carries the nonce that is pending when it arrives. */
  predicate Silent(s: State, es: seq<Event>, lim: Limits) {
    forall i :: 0 <= i < |es| && es[i].PongAt? ==> es[i].pong != At(s, es, i, lim).heart.pending
  }

  predicate TickIn(es: seq<Event>, i: nat, t: nat, gap: nat) {
    i < |es| && es[i].TickAt? && t < es[i].now <= t + gap
  }

  /** Ticks come at most `gap` apart until `horizon`. */
  predicate Ticking(es: seq<Event>, start: nat, horizon: nat, gap: nat) {
    forall t :: start <= t && t + gap <= horizon ==> HasTick(es, t, gap)
  }

  predicate HasTick(es: seq<Event>, t: nat, gap: nat) {
    exists i :: 0 <= i < |es| && TickIn(es, i, t, gap)
  }

  function Max(a: nat, b: nat): nat {
    if a >= b then a else b
  }

  function Deadline(s: State, start: nat, gap: nat, lim: Limits): nat {
    Max(s.heart.lastPong + lim.pingInterval, start) + lim.pongTimeout + 2 * gap
  }

  lemma {:induction false} NothingHappens(s: State, es: seq<Event>, a: nat, b: nat, lim: Limits)
    requires a <= b <= |es| && Silent(s, es, lim) && !At(s, es, b, lim).failed
    ensures !At(s, es, a, lim).failed
    ensures At(s, es, b, lim).heart.lastPong == At(s, es, a, lim).heart.lastPong
    ensures At(s, es, a, lim).heart.pending != 0 ==> At(s, es, b, lim).heart == At(s, es, a, lim).heart
  {
    if a < b {
      NothingHappens(s, es, a, b - 1, lim);
    }
  }

  /** The first tick past the ping interval leaves a ping pending. */
  lemma {:induction false} PingGoesOut(s: State, es: seq<Event>, i: nat, start: nat, lim: Limits)
    requires Timely(s, es, start) && Silent(s, es, lim) && i < |es| && es[i].TickAt?
    requires es[i].now > s.heart.lastPong + lim.pingInterval
    ensures var at := At(s, es, i + 1, lim); at.failed || (at.heart.pending != 0 && at.heart.lastSent <= es[i].now)
  {
    if !At(s, es, i, lim).failed {
      NothingHappens(s, es, 0, i, lim);
      ClockSafe(s, es, i, start, lim);
    }
  }

  /** With a ping pending, a tick past its timeout fails the link. */
  lemma {:induction false} TimeoutFires(s: State, es: seq<Event>, i: nat, j: nat, start: nat, lim: Limits)
    requires Timely(s, es, start) && Silent(s, es, lim) && i < j < |es| && es[j].TickAt?
    requires At(s, es, i + 1, lim).failed ||
             (At(s, es, i + 1, lim).heart.pending != 0 && es[j].now > At(s, es, i + 1, lim).heart.lastSent + lim.pongTimeout)
    ensures At(s, es, j + 1, lim).failed
  {
    hide At, Step, Elapsed, Timely, Silent;
    AtNext(s, es, j, lim);
    if At(s, es, j, lim).failed {
      FailedStays(At(s, es, j, lim), es[j], lim);
    } else {
      NothingHappens(s, es, i + 1, j, lim);
      ClockSafe(s, es, j, start, lim);
      LateTickFails(At(s, es, j, lim), es[j], lim);
    }
  }

  lemma {:induction false} AtNext(s: State, es: seq<Event>, n: nat, lim: Limits)
    requires n < |es|
    ensures At(s, es, n + 1, lim) == Step(At(s, es, n, lim), es[n], lim)
  {
  }

  lemma {:induction false} FailedStays(at: State, e: Event, lim: Limits)
    requires at.failed
    ensures Step(at, e, lim).failed
  {
  }

  lemma {:induction false} LateTickFails(at: State, e: Event, lim: Limits)
    requires e.TickAt? && at.heart.pending != 0 && Elapsed(e.now, at.heart.lastSent) > lim.pongTimeout
    ensures Step(at, e, lim).failed
  {
  }

  /** A peer that answers nothing is failed by max(last pong + ping interval, start) + pong timeout + 2 gaps. */
  lemma {:induction false} SilentPeerFails(s: State, es: seq<Event>, start: nat, gap: nat, lim: Limits)
    requires Timely(s, es, start) && Silent(s, es, lim)
    requires Ticking(es, start, Deadline(s, start, gap, lim), gap)
    ensures exists n :: 0 < n <= |es| && es[n - 1].now <= Deadline(s, start, gap, lim) && At(s, es, n, lim).failed
  {
    var m := Max(s.heart.lastPong + lim.pingInterval, start);
    assert HasTick(es, m, gap);
    var i :| 0 <= i < |es| && TickIn(es, i, m, gap);
    PingGoesOut(s, es, i, start, lim);
    var at := At(s, es, i + 1, lim);
    var t := if at.failed then es[i].now else Max(es[i].now, at.heart.lastSent + lim.pongTimeout);
    assert HasTick(es, t, gap);
    var j :| 0 <= j < |es| && TickIn(es, j, t, gap);
    TimeoutFires(s, es, i, j, start, lim);
    assert es[(j + 1) - 1].now <= Deadline(s, start, gap, lim);
  }
}
