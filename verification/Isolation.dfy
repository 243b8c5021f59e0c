/** Sessions do not interfere: seen through one session id, two links carrying any number of sessions behave like two
    links that carry that session alone. */
module Isolation {
  import opened Octets
  import opened ShineFrames
  import opened Addresses
  import opened SessionModel
  import opened LinkModel
  import Heartbeat
  import W = World

  /** One end, as one session sees it. */
  datatype Half = Half(sess: Option<Sess>, listed: bool, closed: bool, lost: bool, out: seq<ShineFrame>)

  datatype Pair = Pair(client: Half, server: Half)

  /** The frames of a pipe that belong to a session. */
  function Keep(out: seq<ShineFrame>, sid: U64): seq<ShineFrame> {
    if out == [] then []
    else (if SidOf(out[0]) == Some(sid) then [out[0]] else []) + Keep(out[1..], sid)
  }

  function HalfOf(e: End, sid: U64): Half {
    Half(if sid in e.sessions then Some(e.sessions[sid]) else None, sid in e.table, e.closed, sid in e.lost, Keep(e.out, sid))
  }

  function PairOf(w: W.World, sid: U64): Pair {
    Pair(HalfOf(w.client, sid), HalfOf(w.server, sid))
  }

  // ---------------- the machine with a single session ----------------

  function Of(p: Pair, side: W.Side): Half {
    if side.Client? then p.client else p.server
  }

  function Set(p: Pair, side: W.Side, h: Half): Pair {
    if side.Client? then p.(client := h) else p.(server := h)
  }

  datatype Move =
    | Idle
    | Use(side: W.Side, call: Call, maxChunk: nat)
    | Open(sid: U64, target: Address, udp: bool, window: U32)
    | Take(side: W.Side, window: U32)
    | Refuse(side: W.Side)
    | Fail(side: W.Side)
    | CloseNow(side: W.Side)
    | Cut(side: W.Side, keep: nat)

  function Install(h: Half, eff: Effect): Half {
    h.(sess := Some(eff.sess), listed := h.listed && !eff.erase, out := h.out + eff.frames, lost := h.lost || eff.drop)
  }

  function UseHalf(h: Half, c: Call, maxChunk: nat): Half {
    if h.sess.Some? then Install(h, Invoke(h.sess.value, c, maxChunk, !h.closed)) else h
  }

  function OpenHalf(h: Half, sid: U64, target: Address, udp: bool, window: U32): Half {
    if h.closed || h.sess.Some? then h
    else
      h.(sess := Some(Fresh(sid, target, udp, window, window)), listed := true,
         out := h.out + [if udp then NewUdp(sid) else New(sid, ToBinary(target), window)])
  }

  function FailHalf(h: Half): Half {
    if h.closed then h
    else h.(closed := true, listed := false, sess := if h.sess.Some? && h.listed then Some(OnReset(h.sess.value)) else h.sess)
  }

  /** A frame of this session reaches an end past its handshake. */
  function TakeFrame(h: Half, f: ShineFrame, server: bool, window: U32): Half {
    match f
    case New(sid, blob, credit) => if server then AcceptHalf(h, sid, false, credit, window, ParseBinary(blob)) else h
    case NewUdp(sid) => if server then AcceptHalf(h, sid, true, 0, window, Ok(NO_TARGET)) else h
    case Ack(_) => h
    case _ => if h.listed && h.sess.Some? then Install(h, OnFrame(h.sess.value, f)) else h.(lost := true)
  }

  function AcceptHalf(h: Half, sid: U64, udp: bool, credit: U32, window: U32, target: Result<Address, AddressError>): Half {
    if target.Err? then PostHalf(h, Reset(sid))
    else if h.sess.Some? then PostHalf(h, Ack(sid))
    else PostHalf(h.(sess := Some(Fresh(sid, target.value, udp, credit, window)), listed := true), Ack(sid))
  }

  function PostHalf(h: Half, f: ShineFrame): Half {
    if h.closed then h else h.(out := h.out + [f])
  }

  function Pop(h: Half): Half
    requires h.out != []
  {
    h.(out := h.out[1..])
  }

  function Next(p: Pair, m: Move): Pair {
    match m
    case Idle => p
    case Use(side, call, maxChunk) => Set(p, side, UseHalf(Of(p, side), call, maxChunk))
    case Open(sid, target, udp, window) => Set(p, W.Client, OpenHalf(p.client, sid, target, udp, window))
    case Take(side, window) =>
      var from := Of(p, W.Peer(side));
      if from.out == [] || Of(p, side).closed then p
      else Set(Set(p, W.Peer(side), Pop(from)), side, TakeFrame(Of(p, side), from.out[0], side.Server?, window))
    case Refuse(side) =>
      var from := Of(p, W.Peer(side));
      if from.out == [] || Of(p, side).closed then p
      else Set(Set(p, W.Peer(side), Pop(from)), side, FailHalf(Of(p, side).(lost := true)))
    case Fail(side) => Set(p, side, FailHalf(Of(p, side)))
    case CloseNow(side) => Set(p, side, Of(p, side).(closed := true))
    case Cut(side, keep) =>
      var h := Of(p, side);
      if (h.closed || Of(p, W.Peer(side)).closed) && keep <= |h.out|
      then Set(p, side, h.(out := h.out[..keep], lost := h.lost || keep < |h.out|)) else p
  }

  // ---------------- projections ----------------

  /** What the single-session machine does when the world takes an act. */
  function MoveOf(w: W.World, a: W.Act, sid: U64): Move {
    match a
    case Use(side, id, call) => if id == sid then Use(side, call, W.EndOf(w, side).maxChunk) else Idle
    case Open(id, target, udp) => if id == sid then Move.Open(sid, target, udp, w.client.window) else Idle
    case Deliver(side, now) =>
      if !W.CanDeliver(w, side) then Idle
      else
        var e, f := W.EndOf(w, side), W.EndOf(w, W.Peer(side)).out[0];
        if SidOf(f) == Some(sid) then (if e.stage.Ready? then Take(side, e.window) else Refuse(side))
        else if Receive(e, f, now).closed then Fail(side) else Idle
    case Beat(side, now, nonce) =>
      var e := W.EndOf(w, side);
      if !e.closed && LinkModel.Beat(e, now, nonce).closed then Fail(side) else Idle
    case Fail(side) => Fail(side)
    case CloseNow(side) => CloseNow(side)
    case Cut(side, keep) =>
      if W.CanCut(w, side, keep) then Cut(side, |Keep(W.EndOf(w, side).out[..keep], sid)|) else Idle
  }

  /** Every session object knows its own id, and the table lists only objects that exist. */
  ghost predicate Named(e: End) {
    (forall sid :: sid in e.sessions ==> e.sessions[sid].sid == sid) && e.table <= e.sessions.Keys
  }

  lemma {:induction false} KeepAppend(a: seq<ShineFrame>, b: seq<ShineFrame>, sid: U64)
    ensures Keep(a + b, sid) == Keep(a, sid) + Keep(b, sid)
  {
    hide SidOf;
    if a == [] {
      assert a + b == b;
    } else {
      assert (a + b)[1..] == a[1..] + b;
      KeepAppend(a[1..], b, sid);
    }
  }

  lemma {:induction false} KeepOne(f: ShineFrame, sid: U64)
    ensures Keep([f], sid) == if SidOf(f) == Some(sid) then [f] else []
  {
    assert Keep([f][1..], sid) == [];
  }

  /** Frames that all belong to one session. */
  predicate Tagged(fs: seq<ShineFrame>, sid: U64) {
    |fs| <= 1 && (fs != [] ==> SidOf(fs[0]) == Some(sid))
  }

  lemma {:induction false} KeepTagged(out: seq<ShineFrame>, fs: seq<ShineFrame>, id: U64, sid: U64)
    requires Tagged(fs, id)
    ensures Keep(out + fs, sid) == if id == sid then Keep(out, sid) + fs else Keep(out, sid)
  {
    KeepAppend(out, fs, sid);
    if fs == [] {
      assert Keep(fs, sid) == [];
    } else {
      assert fs == [fs[0]];
      KeepOne(fs[0], sid);
    }
  }

  lemma {:induction false} InvokeTagged(s: Sess, c: Call, maxChunk: nat, linkOpen: bool)
    ensures var eff := Invoke(s, c, maxChunk, linkOpen); Tagged(eff.frames, s.sid) && eff.sess.sid == s.sid
  {
    hide Invoke;
    CallTouches(s, c, maxChunk, linkOpen);
  }

  lemma {:induction false} OnFrameTagged(s: Sess, f: ShineFrame)
    ensures var eff := OnFrame(s, f); eff.frames == [] && eff.sess.sid == s.sid
  {
  }

  lemma {:induction false} ApplySeen(e: End, id: U64, eff: Effect, sid: U64)
    requires Tagged(eff.frames, id)
    ensures HalfOf(Apply(e, id, eff), sid) == if id == sid then Install(HalfOf(e, sid), eff) else HalfOf(e, sid)
  {
    KeepTagged(e.out, eff.frames, id, sid);
  }

  lemma {:induction false} PostSeen(e: End, f: ShineFrame, sid: U64)
    ensures HalfOf(Post(e, f), sid) == if SidOf(f) == Some(sid) then PostHalf(HalfOf(e, sid), f) else HalfOf(e, sid)
  {
    KeepAppend(e.out, [f], sid);
    KeepOne(f, sid);
  }

  lemma {:induction false} FailSeen(e: End, sid: U64)
    ensures HalfOf(FailLink(e), sid) == FailHalf(HalfOf(e, sid))
  {
  }

  lemma {:induction false} AcceptSeen(e: End, id: U64, udp: bool, credit: U32, target: Result<Address, AddressError>, sid: U64)
    ensures HalfOf(Accept(e, id, udp, credit, target), sid) ==
            if id == sid then AcceptHalf(HalfOf(e, sid), id, udp, credit, e.window, target) else HalfOf(e, sid)
  {
    PostSeen(e, Reset(id), sid);
    PostSeen(e, Ack(id), sid);
    if target.Ok? {
      PostSeen(e.(sessions := e.sessions[id := Fresh(id, target.value, udp, credit, e.window)], table := e.table + {id}), Ack(id), sid);
    }
  }

  lemma {:induction false} DispatchSeen(e: End, f: ShineFrame, now: nat, sid: U64)
    requires Named(e) && !e.closed
    ensures HalfOf(Dispatch(e, f, now), sid) ==
            if SidOf(f) == Some(sid) then TakeFrame(HalfOf(e, sid), f, e.server, e.window) else HalfOf(e, sid)
    ensures !Dispatch(e, f, now).closed
  {
    hide Keep, ParseBinary, OnFrame;
    match f {
      case New(id, blob, window) => AcceptSeen(e, id, false, window, ParseBinary(blob), sid);
      case NewUdp(id) => AcceptSeen(e, id, true, 0, Ok(NO_TARGET), sid);
      case Ping(nonce) => PostSeen(e, Pong(nonce), sid);
      case Data(id, _) => SessionSeen(e, id, f, sid);
      case UdpData(id, _, _) => SessionSeen(e, id, f, sid);
      case Close(id, _) => SessionSeen(e, id, f, sid);
      case Reset(id) => SessionSeen(e, id, f, sid);
      case Window(id, _) => SessionSeen(e, id, f, sid);
      case _ =>
    }
  }

  lemma {:induction false} SessionSeen(e: End, id: U64, f: ShineFrame, sid: U64)
    requires Named(e) && SidOf(f) == Some(id)
    ensures HalfOf(ForSession(e, id, f), sid) ==
            if id != sid then HalfOf(e, sid)
            else if sid in e.table then Install(HalfOf(e, sid), OnFrame(e.sessions[sid], f))
            else HalfOf(e, sid).(lost := true)
  {
    if id in e.table {
      OnFrameTagged(e.sessions[id], f);
      ApplySeen(e, id, OnFrame(e.sessions[id], f), sid);
    }
  }

  lemma {:induction false} GreetSeen(e: End, f: ShineFrame, sid: U64)
    requires !e.closed && !e.stage.Ready?
    ensures SidOf(f) == Some(sid) ==> HalfOf(Greet(e, f), sid) == FailHalf(HalfOf(e, sid).(lost := true))
    ensures SidOf(f) != Some(sid) ==>
              HalfOf(Greet(e, f), sid) == if Greet(e, f).closed then FailHalf(HalfOf(e, sid)) else HalfOf(e, sid)
  {
    PostSeen(e, GREETING, sid);
    PostSeen(e, Auth(e.password), sid);
    PostSeen(e, REFUSAL, sid);
    PostSeen(e, Okay, sid);
    FailSeen(Lose(e, f), sid);
    FailSeen(Post(e, REFUSAL), sid);
  }

  lemma {:induction false} BeatSeen(e: End, now: nat, nonce: U64, sid: U64)
    ensures HalfOf(LinkModel.Beat(e, now, nonce), sid) ==
            if !e.closed && LinkModel.Beat(e, now, nonce).closed then FailHalf(HalfOf(e, sid)) else HalfOf(e, sid)
  {
    var e' := e.(heart := Heartbeat.Tick(e.heart, now, nonce, e.limits));
    var d := Heartbeat.Decide(e.heart, now, nonce, e.limits);
    if d.SendPing? {
      PostSeen(e', Ping(d.nonce), sid);
    }
    FailSeen(e', sid);
  }

  lemma {:induction false} CutSeen(out: seq<ShineFrame>, keep: nat, sid: U64)
    requires keep <= |out|
    ensures Keep(out, sid) == Keep(out[..keep], sid) + Keep(out[keep..], sid)
    ensures sid in W.SidsIn(out[keep..]) <==> Keep(out[keep..], sid) != []
  {
    assert out == out[..keep] + out[keep..];
    KeepAppend(out[..keep], out[keep..], sid);
    SidsSeen(out[keep..], sid);
  }

  lemma {:induction false} SidsSeen(out: seq<ShineFrame>, sid: U64)
    ensures sid in W.SidsIn(out) <==> Keep(out, sid) != []
  {
    if out != [] {
      SidsSeen(out[1..], sid);
    }
  }

  // ---------------- the simulation ----------------

  lemma {:induction false} UseSeen(e: End, id: U64, call: Call, sid: U64)
    requires Named(e)
    ensures HalfOf(LinkModel.Use(e, id, call), sid) ==
            if id == sid then UseHalf(HalfOf(e, sid), call, e.maxChunk) else HalfOf(e, sid)
  {
    hide Invoke, Keep;
    if id in e.sessions {
      InvokeTagged(e.sessions[id], call, e.maxChunk, !e.closed);
      ApplySeen(e, id, Invoke(e.sessions[id], call, e.maxChunk, !e.closed), sid);
    }
  }

  lemma {:induction false} OpenSeen(e: End, id: U64, target: Address, udp: bool, sid: U64)
    ensures HalfOf(OpenSession(e, id, target, udp), sid) ==
            if id == sid then OpenHalf(HalfOf(e, sid), sid, target, udp, e.window) else HalfOf(e, sid)
  {
    var f := if udp then NewUdp(id) else New(id, ToBinary(target), e.window);
    KeepTagged(e.out, [f], id, sid);
  }

  lemma {:induction false} CutPipeSeen(w: W.World, side: W.Side, keep: nat, sid: U64)
    requires W.CanCut(w, side, keep)
    ensures PairOf(W.CutPipe(w, side, keep), sid) == Next(PairOf(w, sid), Move.Cut(side, |Keep(W.EndOf(w, side).out[..keep], sid)|))
  {
    CutSeen(W.EndOf(w, side).out, keep, sid);
  }

  ghost predicate Roles(w: W.World) {
    Named(w.client) && Named(w.server) && !w.client.server && w.server.server
  }

  /** One step of the world is one move of the session's own machine. */
  lemma {:induction false} StepSeen(w: W.World, a: W.Act, sid: U64)
    requires Roles(w)
    ensures PairOf(W.Step(w, a), sid) == Next(PairOf(w, sid), MoveOf(w, a, sid))
  {
    hide HalfOf, LinkModel.Use, OpenSession, LinkModel.Beat, FailLink, W.CutPipe, W.DeliverTo, UseHalf, OpenHalf, FailHalf, W.CanDeliver, W.CanCut;
    match a {
      case Use(side, id, call) => UseSeen(W.EndOf(w, side), id, call, sid);
      case Open(id, target, udp) => OpenSeen(w.client, id, target, udp, sid);
      case Deliver(side, now) =>
        if W.CanDeliver(w, side) {
          DeliverSeen(w, side, now, sid);
        }
      case Beat(side, now, nonce) => BeatSeen(W.EndOf(w, side), now, nonce, sid);
      case Fail(side) => FailSeen(W.EndOf(w, side), sid);
      case CloseNow(side) => CloseSeen(W.EndOf(w, side), sid);
      case Cut(side, keep) =>
        if W.CanCut(w, side, keep) {
          CutPipeSeen(w, side, keep, sid);
        }
    }
  }

  lemma {:induction false} CloseSeen(e: End, sid: U64)
    ensures HalfOf(LinkModel.CloseNow(e), sid) == HalfOf(e, sid).(closed := true)
  {
  }

  lemma {:induction false} PopSeen(e: End, sid: U64)
    requires e.out != []
    ensures var h, h' := HalfOf(e, sid), HalfOf(e.(out := e.out[1..]), sid);
            if SidOf(e.out[0]) == Some(sid) then h.out != [] && h.out[0] == e.out[0] && h' == Pop(h) else h' == h
  {
    hide SidOf;
    var rest := Keep(e.out[1..], sid);
    assert ([e.out[0]] + rest)[1..] == rest;
    assert [] + rest == rest;
  }

  lemma {:induction false} OpenSeenAs(e: End, sid: U64)
    ensures HalfOf(e, sid).closed == e.closed
  {
  }

  lemma {:induction false} DeliverSeen(w: W.World, side: W.Side, now: nat, sid: U64)
    requires Roles(w) && W.CanDeliver(w, side)
    ensures PairOf(W.DeliverTo(w, side, now), sid) == Next(PairOf(w, sid), MoveOf(w, W.Deliver(side, now), sid))
  {
    hide Dispatch, Greet, TakeFrame, FailHalf, Blocked, HalfOf, SidOf;
    var e, from := W.EndOf(w, side), W.EndOf(w, W.Peer(side));
    var f := from.out[0];
    PopSeen(from, sid);
    OpenSeenAs(e, sid);
    if e.stage.Ready? {
      DispatchSeen(e, f, now, sid);
    } else {
      GreetSeen(e, f, sid);
    }
  }

  // ---------------- what every step keeps ----------------

  /** The options of a link never change. */
  predicate SameOptions(a: End, b: End) {
    a.server == b.server && a.window == b.window && a.password == b.password && a.maxChunk == b.maxChunk && a.limits == b.limits
  }

  lemma {:induction false} ApplyNamed(e: End, sid: U64, eff: Effect)
    requires Named(e) && eff.sess.sid == sid && sid in e.sessions
    ensures Named(Apply(e, sid, eff)) && SameOptions(e, Apply(e, sid, eff))
  {
  }

  lemma {:induction false} UseNamed(e: End, sid: U64, call: Call)
    requires Named(e)
    ensures Named(LinkModel.Use(e, sid, call)) && SameOptions(e, LinkModel.Use(e, sid, call))
  {
    hide Invoke;
    if sid in e.sessions {
      InvokeTagged(e.sessions[sid], call, e.maxChunk, !e.closed);
      ApplyNamed(e, sid, Invoke(e.sessions[sid], call, e.maxChunk, !e.closed));
    }
  }

  lemma {:induction false} ForSessionNamed(e: End, sid: U64, f: ShineFrame)
    requires Named(e)
    ensures Named(ForSession(e, sid, f)) && SameOptions(e, ForSession(e, sid, f))
  {
    hide OnFrame;
    if sid in e.table {
      OnFrameTagged(e.sessions[sid], f);
      ApplyNamed(e, sid, OnFrame(e.sessions[sid], f));
    }
  }

  lemma {:induction false} GreetNamed(e: End, f: ShineFrame)
    requires Named(e)
    ensures Named(Greet(e, f)) && SameOptions(e, Greet(e, f))
  {
    hide FailLink;
    FailNamed(Lose(e, f));
    FailNamed(Post(e, REFUSAL));
  }

  lemma {:induction false} FailNamed(e: End)
    requires Named(e)
    ensures Named(FailLink(e)) && SameOptions(e, FailLink(e))
  {
  }

  lemma {:induction false} AcceptNamed(e: End, sid: U64, udp: bool, credit: U32, target: Result<Address, AddressError>)
    requires Named(e)
    ensures Named(Accept(e, sid, udp, credit, target)) && SameOptions(e, Accept(e, sid, udp, credit, target))
  {
  }

  lemma {:induction false} ReceiveNamed(e: End, f: ShineFrame, now: nat)
    requires Named(e)
    ensures Named(Receive(e, f, now)) && SameOptions(e, Receive(e, f, now))
  {
    hide Greet, ForSession, Accept, Named;
    NamedSteady(e, f, now);
    if !e.stage.Ready? {
      GreetNamed(e, f);
    } else {
      match f {
        case New(sid, blob, window) => AcceptNamed(e, sid, false, window, ParseBinary(blob));
        case NewUdp(sid) => AcceptNamed(e, sid, true, 0, Ok(NO_TARGET));
        case Data(sid, _) => ForSessionNamed(e, sid, f);
        case UdpData(sid, _, _) => ForSessionNamed(e, sid, f);
        case Close(sid, _) => ForSessionNamed(e, sid, f);
        case Reset(sid) => ForSessionNamed(e, sid, f);
        case Window(sid, _) => ForSessionNamed(e, sid, f);
        case Ping(nonce) => NamedSteady(e, Pong(nonce), now);
        case _ =>
      }
    }
  }

  lemma {:induction false} NamedSteady(e: End, f: ShineFrame, now: nat)
    requires Named(e)
    ensures Named(e.(heart := Heartbeat.OnPong(e.heart, if f.Pong? then f.nonce else 0, now)))
    ensures Named(Post(e, f))
  {
  }

  lemma {:induction false} StepRoles(w: W.World, a: W.Act)
    requires Roles(w)
    ensures Roles(W.Step(w, a))
    ensures SameOptions(w.client, W.Step(w, a).client) && SameOptions(w.server, W.Step(w, a).server)
  {
    hide LinkModel.Use, Receive, FailLink;
    FailNamed(w.client);
    FailNamed(w.server);
    match a {
      case Use(side, id, call) => UseNamed(W.EndOf(w, side), id, call);
      case Deliver(side, now) =>
        if W.CanDeliver(w, side) {
          ReceiveNamed(W.EndOf(w, side), W.EndOf(w, W.Peer(side)).out[0], now);
        }
      case Beat(side, now, nonce) =>
        var e := W.EndOf(w, side);
        FailNamed(e.(heart := Heartbeat.Tick(e.heart, now, nonce, e.limits)));
      case _ =>
    }
  }

  lemma {:induction false} RunRoles(cfg: W.Config, acts: seq<W.Act>)
    ensures var w := W.Run(W.Initial(cfg), acts);
            Roles(w) && SameOptions(W.Initial(cfg).client, w.client) && SameOptions(W.Initial(cfg).server, w.server)
  {
    if acts != [] {
      var front := acts[..|acts| - 1];
      RunRoles(cfg, front);
      StepRoles(W.Run(W.Initial(cfg), front), acts[|acts| - 1]);
    }
  }

  /** The moves that a run makes in the eyes of one session. */
  function MovesOf(cfg: W.Config, acts: seq<W.Act>, sid: U64): seq<Move> {
    if acts == [] then []
    else
      var front := acts[..|acts| - 1];
      MovesOf(cfg, front, sid) + [MoveOf(W.Run(W.Initial(cfg), front), acts[|acts| - 1], sid)]
  }

  function Play(p: Pair, moves: seq<Move>): Pair {
    if moves == [] then p else Next(Play(p, moves[..|moves| - 1]), moves[|moves| - 1])
  }

  const EMPTY: Pair := Pair(Half(None, false, false, false, []), Half(None, false, false, false, []))

  /** Isolation: in every run of two links, with any number of sessions, each session behaves exactly as in a run in
      which it is alone. */
  lemma {:induction false} SessionsAreIsolated(cfg: W.Config, acts: seq<W.Act>, sid: U64)
    ensures PairOf(W.Run(W.Initial(cfg), acts), sid) == Play(EMPTY, MovesOf(cfg, acts, sid))
  {
    if acts == [] {
      KeepOne(GREETING, sid);
    } else {
      var front := acts[..|acts| - 1];
      var moves := MovesOf(cfg, acts, sid);
      SessionsAreIsolated(cfg, front, sid);
      RunRoles(cfg, front);
      StepSeen(W.Run(W.Initial(cfg), front), acts[|acts| - 1], sid);
      assert moves[..|moves| - 1] == MovesOf(cfg, front, sid);
    }
  }
}
