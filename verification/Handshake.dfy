/** The handshake: who gets past it, and what that proves (src/transport/link.cpp). */
module Handshake {
  import opened Octets
  import opened ShineFrames
  import opened Addresses
  import opened SessionModel
  import opened LinkModel
  import opened Isolation
  import opened Guarantees
  import Heartbeat
  import W = World

  // ---------------- a server against any peer ----------------

  /** What can happen to one end whose peer may send anything at all. */
  datatype Input = Got(f: ShineFrame, now: nat) | Beats(now: nat, nonce: U64) | Fails | Closes | Calls(sid: U64, call: Call)

  function Respond(e: End, i: Input): End {
    match i
    case Got(f, now) => if e.closed then e else Receive(e, f, now)
    case Beats(now, nonce) => LinkModel.Beat(e, now, nonce)
    case Fails => FailLink(e)
    case Closes => LinkModel.CloseNow(e)
    case Calls(sid, call) => LinkModel.Use(e, sid, call)
  }

  function Serve(e: End, inputs: seq<Input>): End {
    if inputs == [] then e else Respond(Serve(e, inputs[..|inputs| - 1]), inputs[|inputs| - 1])
  }

  /** The frames an end has taken while its link was up. */
  function Taken(e: End, inputs: seq<Input>): seq<ShineFrame> {
    if inputs == [] then []
    else
      var front, last := inputs[..|inputs| - 1], inputs[|inputs| - 1];
      Taken(e, front) + if last.Got? && !Serve(e, front).closed then [last.f] else []
  }

  /** A server's stage, as far as the frames it has taken explain it. */
  predicate Explained(e: End, taken: seq<ShineFrame>) {
    && (e.stage.AwaitHello? && !e.closed ==> taken == [])
    && (e.stage.AwaitAuth? && !e.closed ==> |taken| == 1)
    && (e.stage.AwaitAuth? ==> taken != [] && taken[0].Hello?)
    && (e.stage.Ready? ==> taken != [] && taken[0].Hello? &&
                           (e.password != [] ==> |taken| >= 2 && taken[1] == Auth(e.password)))
    && !e.stage.AwaitOk?
    && (e.sessions != map[] ==> e.stage.Ready?)
  }

  lemma {:induction false} UseQuiet(e: End, sid: U64, call: Call)
    ensures var e' := LinkModel.Use(e, sid, call);
            e'.stage == e.stage && e'.closed == e.closed && e'.password == e.password && e'.server == e.server &&
            e'.sessions.Keys == e.sessions.Keys
  {
    hide Invoke;
  }

  lemma {:induction false} FailQuiet(e: End)
    ensures var e' := FailLink(e);
            e'.stage == e.stage && e'.password == e.password && e'.server == e.server && e'.closed &&
            e'.sessions.Keys == e.sessions.Keys
  {
  }

  lemma {:induction false} DispatchQuiet(e: End, f: ShineFrame, now: nat)
    ensures var e' := Dispatch(e, f, now);
            e'.stage == e.stage && e'.closed == e.closed && e'.password == e.password && e'.server == e.server
  {
    hide OnFrame, ParseBinary;
  }

  lemma {:induction false} RespondExplained(e: End, taken: seq<ShineFrame>, i: Input)
    requires e.server && Explained(e, taken)
    ensures var e' := Respond(e, i);
            e'.server && e'.password == e.password && Explained(e', if i.Got? && !e.closed then taken + [i.f] else taken)
  {
    hide LinkModel.Use, FailLink, Dispatch;
    match i {
      case Got(f, now) =>
        if !e.closed && e.stage.Ready? {
          DispatchQuiet(e, f, now);
        } else if !e.closed {
          FailQuiet(Lose(e, f));
          FailQuiet(Post(e, REFUSAL));
          NoSessions(e, FailLink(Lose(e, f)));
          NoSessions(e, FailLink(Post(e, REFUSAL)));
        }
      case Beats(now, nonce) =>
        var e' := e.(heart := Heartbeat.Tick(e.heart, now, nonce, e.limits));
        FailQuiet(e');
        NoSessions(e, FailLink(e'));
      case Fails =>
        FailQuiet(e);
        NoSessions(e, FailLink(e));
      case Closes =>
      case Calls(sid, call) =>
        UseQuiet(e, sid, call);
        NoSessions(e, LinkModel.Use(e, sid, call));
    }
  }

  lemma {:induction false} NoSessions(e: End, e': End)
    requires e'.sessions.Keys == e.sessions.Keys
    ensures e.sessions == map[] <==> e'.sessions == map[]
  {
    if e.sessions == map[] {
      assert e'.sessions.Keys == {};
    }
    if e'.sessions == map[] {
      assert e.sessions.Keys == {};
    }
  }

  /** Against any peer whatsoever, a server link has a session only if the first frame it took was HELLO and, when it
      has a password, the second was AUTH with exactly that password. */
  lemma {:induction false} SessionNeedsAuth(window: U32, password: Bytes, maxChunk: nat, limits: Heartbeat.Limits,
                                            start: nat, inputs: seq<Input>)
    ensures var e0 := Start(true, window, password, maxChunk, limits, start);
            var e, taken := Serve(e0, inputs), Taken(e0, inputs);
            e.server && e.password == password && Explained(e, taken) &&
            (e.sessions != map[] ==> taken != [] && taken[0].Hello? && (password != [] ==> |taken| >= 2 && taken[1] == Auth(password)))
    decreases inputs
  {
    if inputs != [] {
      hide Respond;
      var e0 := Start(true, window, password, maxChunk, limits, start);
      var front, last := inputs[..|inputs| - 1], inputs[|inputs| - 1];
      SessionNeedsAuth(window, password, maxChunk, limits, start, front);
      RespondExplained(Serve(e0, front), Taken(e0, front), last);
      assert Taken(e0, front) + [] == Taken(e0, front);
    }
  }

  /** And a client link gets no session from its peer, whatever the peer sends. */
  lemma {:induction false} PeerOpensNothing(window: U32, password: Bytes, maxChunk: nat, limits: Heartbeat.Limits,
                                            start: nat, inputs: seq<Input>)
    ensures var e := Serve(Start(false, window, password, maxChunk, limits, start), inputs); !e.server && e.sessions == map[]
    decreases inputs
  {
    if inputs != [] {
      hide Respond;
      var front, last := inputs[..|inputs| - 1], inputs[|inputs| - 1];
      PeerOpensNothing(window, password, maxChunk, limits, start, front);
      ClientResponds(Serve(Start(false, window, password, maxChunk, limits, start), front), last);
    }
  }

  lemma {:induction false} ClientResponds(e: End, i: Input)
    requires !e.server && e.sessions == map[]
    ensures !Respond(e, i).server && Respond(e, i).sessions == map[]
  {
    hide OnFrame, ParseBinary, Heartbeat.Elapsed;
  }

  // ---------------- two genuine links ----------------

  /** Pipes carry only honest proofs: the client's own password, and a server's OK only where the passwords agree. */
  predicate HonestClient(out: seq<ShineFrame>, cfg: W.Config) {
    forall i :: 0 <= i < |out| && out[i].Auth? ==> out[i].password == cfg.clientPassword
  }

  predicate HonestServer(out: seq<ShineFrame>, cfg: W.Config) {
    forall i :: 0 <= i < |out| && out[i].Okay? ==> cfg.serverPassword == cfg.clientPassword
  }

  predicate Agreement(w: W.World, cfg: W.Config) {
    && HonestClient(w.client.out, cfg) && HonestServer(w.server.out, cfg)
    && w.client.password == cfg.clientPassword && w.server.password == cfg.serverPassword
    && !w.client.server && w.server.server && !w.client.stage.AwaitAuth? && !w.server.stage.AwaitOk?
    && (w.server.stage.Ready? && cfg.serverPassword != [] ==> cfg.serverPassword == cfg.clientPassword)
    && (w.client.stage.Ready? && cfg.clientPassword != [] ==> cfg.serverPassword == cfg.clientPassword)
  }

  /** One end's step adds no AUTH and no OK, except as the handshake does. */
  predicate Grows(out: seq<ShineFrame>, out': seq<ShineFrame>) {
    out' == out || (|out'| == |out| + 1 && out'[..|out|] == out && !out'[|out|].Auth? && !out'[|out|].Okay?)
  }

  lemma {:induction false} GrowsHonest(out: seq<ShineFrame>, out': seq<ShineFrame>, cfg: W.Config)
    requires Grows(out, out')
    ensures HonestClient(out, cfg) ==> HonestClient(out', cfg)
    ensures HonestServer(out, cfg) ==> HonestServer(out', cfg)
  {
    if out' != out {
      assert forall i :: 0 <= i < |out| ==> out'[i] == out'[..|out|][i] == out[i];
    }
  }

  lemma {:induction false} AppendGrows(out: seq<ShineFrame>, fs: seq<ShineFrame>)
    requires |fs| <= 1 && (fs != [] ==> !fs[0].Auth? && !fs[0].Okay?)
    ensures Grows(out, out + fs)
  {
    if fs == [] {
      assert out + fs == out;
    } else {
      assert (out + fs)[..|out|] == out;
    }
  }

  lemma {:induction false} UseGrows(e: End, sid: U64, call: Call)
    ensures Grows(e.out, LinkModel.Use(e, sid, call).out)
  {
    hide Invoke;
    if sid in e.sessions {
      var s := e.sessions[sid];
      InvokeTagged(s, call, e.maxChunk, !e.closed);
      AppendGrows(e.out, Invoke(s, call, e.maxChunk, !e.closed).frames);
    }
  }

  lemma {:induction false} DispatchGrows(e: End, f: ShineFrame, now: nat)
    ensures Grows(e.out, Dispatch(e, f, now).out)
  {
    hide OnFrame, ParseBinary, Grows;
    AppendGrows(e.out, []);
    assert e.out + [] == e.out;
    if f.Ping? {
      AppendGrows(e.out, [Pong(f.nonce)]);
    }
    if SidOf(f).Some? {
      var sid := SidOf(f).value;
      AppendGrows(e.out, [Reset(sid)]);
      AppendGrows(e.out, [Ack(sid)]);
      if sid in e.sessions {
        OnFrameTagged(e.sessions[sid], f);
      }
    }
  }

  lemma {:induction false} BeatGrows(e: End, now: nat, nonce: U64)
    ensures var e' := LinkModel.Beat(e, now, nonce);
            Grows(e.out, e'.out) && e'.stage == e.stage && e'.password == e.password && e'.server == e.server
  {
    var d := Heartbeat.Decide(e.heart, now, nonce, e.limits);
    if d.SendPing? {
      AppendGrows(e.out, [Ping(d.nonce)]);
    }
  }

  lemma {:induction false} HonestTail(out: seq<ShineFrame>, keep: nat, cfg: W.Config)
    requires keep <= |out|
    ensures HonestClient(out, cfg) ==> HonestClient(out[..keep], cfg) && HonestClient(out[keep..], cfg)
    ensures HonestServer(out, cfg) ==> HonestServer(out[..keep], cfg) && HonestServer(out[keep..], cfg)
  {
  }

  lemma {:induction false} HonestSnoc(out: seq<ShineFrame>, f: ShineFrame, cfg: W.Config)
    ensures HonestClient(out, cfg) && (f.Auth? ==> f.password == cfg.clientPassword) ==> HonestClient(out + [f], cfg)
    ensures HonestServer(out, cfg) && (f.Okay? ==> cfg.serverPassword == cfg.clientPassword) ==> HonestServer(out + [f], cfg)
  {
  }

  /** The server's handshake, fed from an honest pipe. */
  lemma {:induction false} ServerGreets(e: End, f: ShineFrame, cfg: W.Config)
    requires e.server && !e.closed && !e.stage.Ready? && !e.stage.AwaitOk? && e.password == cfg.serverPassword
    requires HonestServer(e.out, cfg) && (f.Auth? ==> f.password == cfg.clientPassword)
    ensures var e' := Greet(e, f);
            HonestServer(e'.out, cfg) && e'.server && e'.password == e.password && !e'.stage.AwaitOk? &&
            (e'.stage.Ready? && cfg.serverPassword != [] ==> cfg.serverPassword == cfg.clientPassword)
  {
    hide HonestServer;
    HonestSnoc(e.out, GREETING, cfg);
    HonestSnoc(e.out, REFUSAL, cfg);
    HonestSnoc(e.out, Okay, cfg);
  }

  lemma {:induction false} ClientGreets(e: End, f: ShineFrame, cfg: W.Config)
    requires !e.server && !e.closed && !e.stage.Ready? && !e.stage.AwaitAuth? && e.password == cfg.clientPassword
    requires HonestClient(e.out, cfg) && (f.Okay? ==> cfg.serverPassword == cfg.clientPassword)
    ensures var e' := Greet(e, f);
            HonestClient(e'.out, cfg) && !e'.server && e'.password == e.password && !e'.stage.AwaitAuth? &&
            (e'.stage.Ready? && cfg.clientPassword != [] ==> cfg.serverPassword == cfg.clientPassword)
  {
    hide HonestClient;
    HonestSnoc(e.out, Auth(e.password), cfg);
  }

  lemma {:induction false} DeliverAgrees(w: W.World, side: W.Side, now: nat, cfg: W.Config)
    requires Agreement(w, cfg) && W.CanDeliver(w, side)
    ensures Agreement(W.DeliverTo(w, side, now), cfg)
  {
    hide Greet, Dispatch, HonestClient, HonestServer, Grows, Blocked;
    var e, from := W.EndOf(w, side), W.EndOf(w, W.Peer(side));
    var f := from.out[0];
    HonestTail(from.out, 1, cfg);
    HonestHead(w, side, cfg);
    if e.stage.Ready? {
      DispatchGrows(e, f, now);
      DispatchQuiet(e, f, now);
      GrowsHonest(e.out, Dispatch(e, f, now).out, cfg);
    } else if side.Client? {
      ClientGreets(e, f, cfg);
    } else {
      ServerGreets(e, f, cfg);
    }
  }

  lemma {:induction false} HonestHead(w: W.World, side: W.Side, cfg: W.Config)
    requires Agreement(w, cfg) && W.EndOf(w, W.Peer(side)).out != []
    ensures var f := W.EndOf(w, W.Peer(side)).out[0];
            (side.Server? && f.Auth? ==> f.password == cfg.clientPassword) &&
            (side.Client? && f.Okay? ==> cfg.serverPassword == cfg.clientPassword)
  {
  }

  lemma {:induction false} StepAgrees(w: W.World, a: W.Act, cfg: W.Config)
    requires Agreement(w, cfg)
    ensures Agreement(W.Step(w, a), cfg)
  {
    hide HonestClient, HonestServer, Grows, LinkModel.Use, LinkModel.Beat, W.DeliverTo, W.CanDeliver, FailLink;
    match a {
      case Use(side, sid, call) =>
        var e := W.EndOf(w, side);
        UseGrows(e, sid, call);
        UseQuiet(e, sid, call);
        GrowsHonest(e.out, LinkModel.Use(e, sid, call).out, cfg);
      case Open(sid, target, udp) =>
        HonestSnoc(w.client.out, if udp then NewUdp(sid) else New(sid, ToBinary(target), w.client.window), cfg);
      case Deliver(side, now) =>
        if W.CanDeliver(w, side) {
          DeliverAgrees(w, side, now, cfg);
        }
      case Beat(side, now, nonce) =>
        var e := W.EndOf(w, side);
        BeatGrows(e, now, nonce);
        GrowsHonest(e.out, LinkModel.Beat(e, now, nonce).out, cfg);
      case Fail(side) =>
        FailQuiet(W.EndOf(w, side));
        FailOut(W.EndOf(w, side));
      case CloseNow(side) =>
      case Cut(side, keep) =>
        if keep <= |W.EndOf(w, side).out| {
          HonestTail(W.EndOf(w, side).out, keep, cfg);
        }
    }
  }

  lemma {:induction false} FailOut(e: End)
    ensures FailLink(e).out == e.out
  {
  }

  lemma {:induction false} RunAgrees(cfg: W.Config, acts: seq<W.Act>)
    ensures Agreement(After(cfg, acts), cfg)
  {
    if acts != [] {
      hide Agreement, W.Step;
      RunAgrees(cfg, acts[..|acts| - 1]);
      StepAgrees(After(cfg, acts[..|acts| - 1]), acts[|acts| - 1], cfg);
    }
  }

  /** In every run: if both ends finish the handshake, their passwords are equal (both empty, or the same); a client
      with a password, or a server with one, finishes only against a peer that has the same. */
  lemma {:induction false} FinishedHandshakeAgrees(cfg: W.Config, acts: seq<W.Act>)
    ensures var w := After(cfg, acts);
            (w.client.stage.Ready? && w.server.stage.Ready? ==> cfg.clientPassword == cfg.serverPassword) &&
            (w.server.stage.Ready? && cfg.serverPassword != [] ==> cfg.clientPassword == cfg.serverPassword) &&
            (w.client.stage.Ready? && cfg.clientPassword != [] ==> cfg.clientPassword == cfg.serverPassword)
  {
    RunAgrees(cfg, acts);
  }

  /** In every run, AUTH at a server that waits for it: the right password ends the handshake with OK queued, any other
      closes the link with ERR queued and no session ever made. */
  lemma {:induction false} AuthAnswered(cfg: W.Config, acts: seq<W.Act>, now: nat)
    requires var w := After(cfg, acts);
             !w.server.closed && w.server.stage.AwaitAuth? && w.client.out != [] && w.client.out[0].Auth?
    ensures var w, w' := After(cfg, acts), After(cfg, acts + [W.Deliver(W.Server, now)]);
            if w.client.out[0].password == cfg.serverPassword
            then w'.server.stage.Ready? && !w'.server.closed && w'.server.out == w.server.out + [Okay]
            else w'.server.closed && w'.server.out == w.server.out + [REFUSAL] && w'.server.table == {}
  {
    hide W.Run;
    RunRoles(cfg, acts);
    AfterSnoc(cfg, acts, W.Deliver(W.Server, now));
  }
}
