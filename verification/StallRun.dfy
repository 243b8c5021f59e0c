/** Runs, written out: how a writer ends up waiting for ever, and how delivered bytes end up unread. */
module StallRun {
  import opened Octets
  import opened ShineFrames
  import opened Addresses
  import opened SessionModel
  import opened LinkModel
  import opened Isolation
  import opened PairBase
  import opened Credit
  import opened Stall
  import opened Guarantees
  import Closing
  import Datagrams
  import Delivery
  import opened EndOfFile
  import Handshake
  import Heartbeat
  import W = World

  const TARGET: Address := IPv4([127, 0, 0, 1], 80)

  // ---------------- runs end to end ----------------

  /** A world is reached from the start by some list of acts. */
  ghost predicate Reached(cfg: W.Config, w: W.World) {
    exists acts :: After(cfg, acts) == w
  }

  lemma {:induction false} ReachStart(cfg: W.Config)
    ensures Reached(cfg, W.Initial(cfg))
  {
    assert After(cfg, []) == W.Initial(cfg);
  }

  lemma {:induction false} ReachStep(cfg: W.Config, w: W.World, a: W.Act)
    requires Reached(cfg, w)
    ensures Reached(cfg, W.Step(w, a))
  {
    hide W.Step, W.Run;
    var acts :| After(cfg, acts) == w;
    AfterSnoc(cfg, acts, a);
  }

  // ---------------- the handshake ----------------

  function Ready(e: End, out: seq<ShineFrame>): End {
    e.(stage := LinkModel.Ready, out := out)
  }

  function Greeted(cfg: W.Config): W.World {
    var w := W.Initial(cfg);
    W.World(Ready(w.client, []), Ready(w.server, []))
  }

  /** The server has answered HELLO. */
  function Hailed(cfg: W.Config): W.World {
    var w := W.Initial(cfg);
    W.World(w.client.(out := []),
            w.server.(stage := if cfg.serverPassword == [] then LinkModel.Ready else AwaitAuth, out := [GREETING]))
  }

  /** The client has answered with its password. */
  function Asked(cfg: W.Config): W.World {
    var w := W.Initial(cfg);
    W.World(w.client.(stage := AwaitOk, out := [Auth(cfg.clientPassword)]), w.server.(stage := AwaitAuth))
  }

  /** The server has accepted the password. */
  function Granted(cfg: W.Config): W.World {
    W.World(Asked(cfg).client.(out := []), Ready(W.Initial(cfg).server, [Okay]))
  }

  lemma {:induction false} HailedStep(cfg: W.Config)
    ensures W.Step(W.Initial(cfg), W.Deliver(W.Server, 0)) == Hailed(cfg)
  {
  }

  lemma {:induction false} AskedStep(cfg: W.Config)
    requires cfg.clientPassword == cfg.serverPassword
    ensures W.Step(Hailed(cfg), W.Deliver(W.Client, 0)) == if cfg.clientPassword == [] then Greeted(cfg) else Asked(cfg)
  {
    var w := W.Step(Hailed(cfg), W.Deliver(W.Client, 0));
    assert w.server.out == [] && (cfg.clientPassword != [] ==> w.client.out == [Auth(cfg.clientPassword)]);
  }

  lemma {:induction false} GrantedStep(cfg: W.Config)
    requires cfg.clientPassword == cfg.serverPassword
    ensures W.Step(Asked(cfg), W.Deliver(W.Server, 0)) == Granted(cfg)
  {
    assert W.Step(Asked(cfg), W.Deliver(W.Server, 0)).server.out == [Okay];
  }

  lemma {:induction false} GreetedStep(cfg: W.Config)
    ensures W.Step(Granted(cfg), W.Deliver(W.Client, 0)) == Greeted(cfg)
  {
  }

  /** With equal passwords the handshake goes through. */
  lemma {:induction false} ReachGreeted(cfg: W.Config)
    requires cfg.clientPassword == cfg.serverPassword
    ensures Reached(cfg, Greeted(cfg))
  {
    hide W.Step, W.Initial, Reached, Hailed, Asked, Granted, Greeted;
    ReachStart(cfg);
    HailedStep(cfg);
    ReachStep(cfg, W.Initial(cfg), W.Deliver(W.Server, 0));
    AskedStep(cfg);
    ReachStep(cfg, Hailed(cfg), W.Deliver(W.Client, 0));
    if cfg.clientPassword != [] {
      GrantedStep(cfg);
      ReachStep(cfg, Asked(cfg), W.Deliver(W.Server, 0));
      GreetedStep(cfg);
      ReachStep(cfg, Granted(cfg), W.Deliver(W.Client, 0));
    }
  }

  ghost predicate BothReady(w: W.World) {
    w.client.stage.Ready? && w.server.stage.Ready?
  }

  /** Some run completes the handshake at both ends exactly when the two passwords are equal. */
  lemma {:induction false} HandshakeExactly(cfg: W.Config)
    ensures (exists acts :: BothReady(After(cfg, acts))) <==> cfg.clientPassword == cfg.serverPassword
  {
    hide W.Run, BothReady, Reached, Greeted;
    forall acts | BothReady(After(cfg, acts)) ensures cfg.clientPassword == cfg.serverPassword {
      ReadyAgree(cfg, acts);
    }
    if cfg.clientPassword == cfg.serverPassword {
      ReachGreeted(cfg);
      GreetedReady(cfg);
    }
  }

  lemma {:induction false} ReadyAgree(cfg: W.Config, acts: seq<W.Act>)
    requires BothReady(After(cfg, acts))
    ensures cfg.clientPassword == cfg.serverPassword
  {
    hide W.Run;
    Handshake.FinishedHandshakeAgrees(cfg, acts);
  }

  lemma {:induction false} GreetedReady(cfg: W.Config)
    requires Reached(cfg, Greeted(cfg))
    ensures exists acts :: BothReady(After(cfg, acts))
  {
    hide W.Run;
    var acts :| After(cfg, acts) == Greeted(cfg);
    assert BothReady(After(cfg, acts));
  }

  // ---------------- one session on a quiet link ----------------

  /** Both links past the handshake, with one session and these pipes. */
  function Duo(cfg: W.Config, c: Sess, s: Sess, cout: seq<ShineFrame>, sout: seq<ShineFrame>): W.World {
    var w := W.Initial(cfg);
    W.World(Ready(w.client, cout).(sessions := map[c.sid := c], table := {c.sid}),
            Ready(w.server, sout).(sessions := map[c.sid := s], table := {c.sid}))
  }

  function Opened(cfg: W.Config, sid: U64): W.World {
    Duo(cfg, Fresh(sid, TARGET, false, cfg.clientWindow, cfg.clientWindow), Fresh(sid, TARGET, false, cfg.clientWindow, cfg.serverWindow), [], [])
  }

  /** The client's NEW is under way. */
  function Requested(cfg: W.Config, sid: U64): W.World {
    W.World(Opened(cfg, sid).client.(out := [New(sid, ToBinary(TARGET), cfg.clientWindow)]), Greeted(cfg).server)
  }

  /** The server's ACK is under way. */
  function Acked(cfg: W.Config, sid: U64): W.World {
    W.World(Opened(cfg, sid).client, Opened(cfg, sid).server.(out := [Ack(sid)]))
  }

  lemma {:induction false} OpenStep(cfg: W.Config, sid: U64)
    ensures W.Step(Greeted(cfg), W.Open(sid, TARGET, false)) == Requested(cfg, sid)
  {
    hide ToBinary;
    var w := W.Step(Greeted(cfg), W.Open(sid, TARGET, false));
    assert w.client.out == [New(sid, ToBinary(TARGET), cfg.clientWindow)] && w.client.table == {sid};
  }

  lemma {:induction false} AcceptStep(cfg: W.Config, sid: U64)
    ensures W.Step(Requested(cfg, sid), W.Deliver(W.Server, 0)) == Acked(cfg, sid)
  {
    hide ToBinary, ParseBinary;
    TargetParses();
    var w := W.Step(Requested(cfg, sid), W.Deliver(W.Server, 0));
    assert w.client.out == [] && w.server.out == [Ack(sid)] && w.server.table == {sid};
  }

  lemma {:induction false} TargetParses()
    ensures ParseBinary(ToBinary(TARGET)) == Ok(TARGET)
  {
    RoundTripExactly(TARGET);
  }

  lemma {:induction false} AckStep(cfg: W.Config, sid: U64)
    ensures W.Step(Acked(cfg, sid), W.Deliver(W.Client, 0)) == Opened(cfg, sid)
  {
    assert W.Step(Acked(cfg, sid), W.Deliver(W.Client, 0)).server.out == [];
  }

  lemma {:induction false} ReachOpened(cfg: W.Config, sid: U64)
    requires cfg.clientPassword == cfg.serverPassword
    ensures Reached(cfg, Opened(cfg, sid))
  {
    hide W.Step, Reached, Greeted, Requested, Acked, Opened;
    ReachGreeted(cfg);
    OpenStep(cfg, sid);
    ReachStep(cfg, Greeted(cfg), W.Open(sid, TARGET, false));
    AcceptStep(cfg, sid);
    ReachStep(cfg, Requested(cfg, sid), W.Deliver(W.Server, 0));
    AckStep(cfg, sid);
    ReachStep(cfg, Acked(cfg, sid), W.Deliver(W.Client, 0));
  }

  lemma {:induction false} DuoCall(cfg: W.Config, c: Sess, s: Sess, cout: seq<ShineFrame>, sout: seq<ShineFrame>,
                                   side: W.Side, call: Call)
    requires c.sid == s.sid
    requires var eff := Invoke(if side.Client? then c else s, call, if side.Client? then cfg.clientChunk else cfg.serverChunk, true);
             !eff.erase && !eff.drop && eff.sess.sid == c.sid
    ensures var eff := Invoke(if side.Client? then c else s, call, if side.Client? then cfg.clientChunk else cfg.serverChunk, true);
            W.Step(Duo(cfg, c, s, cout, sout), W.Use(side, c.sid, call)) ==
            if side.Client? then Duo(cfg, eff.sess, s, cout + eff.frames, sout)
            else Duo(cfg, c, eff.sess, cout, sout + eff.frames)
  {
    hide Invoke;
  }

  /** A frame for the session reaches the server. */
  lemma {:induction false} DuoFrame(cfg: W.Config, c: Sess, s: Sess, f: ShineFrame)
    requires c.sid == s.sid && SidOf(f) == Some(c.sid) && !MustWait(s, f)
    requires f.Data? || f.Close?
    requires var eff := OnFrame(s, f); !eff.erase && !eff.drop && eff.frames == [] && eff.sess.sid == s.sid
    ensures W.Step(Duo(cfg, c, s, [f], []), W.Deliver(W.Server, 0)) == Duo(cfg, c, OnFrame(s, f).sess, [], [])
  {
    hide OnFrame, MustWait;
    var e := Duo(cfg, c, s, [f], []).server;
    assert e.out + [] == e.out;
    assert [f][1..] == [];
  }

  // ---------------- a byte at a time until the credit is gone ----------------

  function Zeros(n: nat): Bytes {
    seq(n, _ => 0)
  }

  function Writer(cfg: W.Config, sid: U64, n: nat): Sess {
    Fresh(sid, TARGET, false, cfg.clientWindow, cfg.clientWindow).(credit := cfg.clientWindow - n, accepted := Zeros(n), sent := Zeros(n))
  }

  function Reader(cfg: W.Config, sid: U64, n: nat): Sess
    requires n < U32_LIMIT
  {
    Fresh(sid, TARGET, false, cfg.clientWindow, cfg.serverWindow).(unacked := n, got := Zeros(n))
  }

  /** The writer with one byte in its call. */
  function Poised(cfg: W.Config, sid: U64, n: nat): Sess {
    Writer(cfg, sid, n).(writing := [0], accepted := Zeros(n + 1))
  }

  lemma {:induction false} BeginByte(cfg: W.Config, sid: U64, n: nat)
    ensures Invoke(Writer(cfg, sid, n), BeginWrite([0]), cfg.clientChunk, true) == Effect(Poised(cfg, sid, n), [], false, false)
  {
    assert Zeros(n + 1) == Zeros(n) + [0];
  }

  lemma {:induction false} SendByte(cfg: W.Config, sid: U64, n: nat)
    requires n < cfg.clientWindow && cfg.clientChunk > 0
    ensures Invoke(Poised(cfg, sid, n), WriteChunk, cfg.clientChunk, true) ==
            Effect(Writer(cfg, sid, n + 1), [Data(sid, [0])], false, false)
  {
    assert Zeros(n + 1) == Zeros(n) + [0];
    assert [0][..1] == [0] && [0][1..] == [];
  }

  lemma {:induction false} ReadByte(cfg: W.Config, sid: U64, n: nat)
    requires n + 1 < cfg.serverWindow / 2
    ensures OnFrame(Reader(cfg, sid, n), Data(sid, [0])) == Only(Reader(cfg, sid, n).(inbox := [[0]]))
    ensures Invoke(Reader(cfg, sid, n).(inbox := [[0]]), Read(1), cfg.serverChunk, true) == Only(Reader(cfg, sid, n + 1))
  {
    assert Zeros(n + 1) == Zeros(n) + [0];
    assert [0][..1] == [0] && [0][1..] == [] && [[0]][1..] == [];
  }

  lemma {:induction false} OneByteMore(cfg: W.Config, sid: U64, n: nat)
    requires n < cfg.clientWindow && n + 1 < cfg.serverWindow / 2 && cfg.clientChunk > 0
    requires Reached(cfg, Duo(cfg, Writer(cfg, sid, n), Reader(cfg, sid, n), [], []))
    ensures Reached(cfg, Duo(cfg, Writer(cfg, sid, n + 1), Reader(cfg, sid, n + 1), [], []))
  {
    hide Reached, Duo, Invoke, OnFrame, Zeros;
    var c, c1, c2 := Writer(cfg, sid, n), Poised(cfg, sid, n), Writer(cfg, sid, n + 1);
    var s, s2 := Reader(cfg, sid, n), Reader(cfg, sid, n + 1);
    var s1 := s.(inbox := [[0]]);
    BeginByte(cfg, sid, n);
    ReachCall(cfg, c, s, [], [], W.Client, BeginWrite([0]), c1, []);
    SendByte(cfg, sid, n);
    ReachCall(cfg, c1, s, [], [], W.Client, WriteChunk, c2, [Data(sid, [0])]);
    ReadByte(cfg, sid, n);
    ReachFrame(cfg, c2, s, Data(sid, [0]));
    ReachCall(cfg, c2, s1, [], [], W.Server, Read(1), s2, []);
  }

  lemma {:induction false} ReachFrame(cfg: W.Config, c: Sess, s: Sess, f: ShineFrame)
    requires Reached(cfg, Duo(cfg, c, s, [f], [])) && c.sid == s.sid && SidOf(f) == Some(c.sid) && |s.inbox| < INBOX_SLOTS
    requires f.Data? || f.Close?
    requires var eff := OnFrame(s, f); !eff.erase && !eff.drop && eff.frames == [] && eff.sess.sid == s.sid
    ensures Reached(cfg, Duo(cfg, c, OnFrame(s, f).sess, [], []))
  {
    hide Reached, Duo, OnFrame, W.Step;
    DuoFrame(cfg, c, s, f);
    ReachStep(cfg, Duo(cfg, c, s, [f], []), W.Deliver(W.Server, 0));
  }

  lemma {:induction false} ReachCall(cfg: W.Config, c: Sess, s: Sess, cout: seq<ShineFrame>, sout: seq<ShineFrame>,
                                     side: W.Side, call: Call, after: Sess, frames: seq<ShineFrame>)
    requires Reached(cfg, Duo(cfg, c, s, cout, sout)) && c.sid == s.sid == after.sid
    requires Invoke(if side.Client? then c else s, call, if side.Client? then cfg.clientChunk else cfg.serverChunk, true) ==
             Effect(after, frames, false, false)
    ensures Reached(cfg, if side.Client? then Duo(cfg, after, s, cout + frames, sout) else Duo(cfg, c, after, cout, sout + frames))
    ensures frames == [] ==> Reached(cfg, if side.Client? then Duo(cfg, after, s, cout, sout) else Duo(cfg, c, after, cout, sout))
    ensures cout == [] && side.Client? ==> Reached(cfg, Duo(cfg, after, s, frames, sout))
  {
    hide Invoke, Duo, Reached, W.Step;
    DuoCall(cfg, c, s, cout, sout, side, call);
    ReachStep(cfg, Duo(cfg, c, s, cout, sout), W.Use(side, c.sid, call));
    assert [] + frames == frames;
    if frames == [] {
      assert cout + frames == cout && sout + frames == sout;
    }
  }

  lemma {:induction false} SpendAll(cfg: W.Config, sid: U64, n: nat)
    requires cfg.clientPassword == cfg.serverPassword && cfg.clientChunk > 0
    requires n <= cfg.clientWindow && (n > 0 ==> n < cfg.serverWindow / 2)
    ensures Reached(cfg, Duo(cfg, Writer(cfg, sid, n), Reader(cfg, sid, n), [], []))
  {
    hide Reached, Duo;
    if n == 0 {
      assert Zeros(0) == [];
      ReachOpened(cfg, sid);
    } else {
      SpendAll(cfg, sid, n - 1);
      OneByteMore(cfg, sid, n - 1);
    }
  }

  lemma {:induction false} DuoPair(cfg: W.Config, c: Sess, s: Sess)
    requires c.sid == s.sid
    ensures PairOf(Duo(cfg, c, s, [], []), c.sid) ==
            Pair(Half(Some(c), true, false, false, []), Half(Some(s), true, false, false, []))
  {
  }

  lemma {:induction false} ClientStallReached(cfg: W.Config, sid: U64)
    requires cfg.clientPassword == cfg.serverPassword && cfg.clientChunk > 0 && WindowTooSmall(W.Client, CtxOf(cfg, sid))
    ensures exists acts :: Stalled(PairOf(After(cfg, acts), sid), W.Client)
  {
    var n := cfg.clientWindow;
    SpendAll(cfg, sid, n);
    var c, s := Writer(cfg, sid, n), Reader(cfg, sid, n);
    var c' := c.(writing := [0], accepted := Zeros(n) + [0]);
    ReachCall(cfg, c, s, [], [], W.Client, BeginWrite([0]), c', []);
    var acts :| After(cfg, acts) == Duo(cfg, c', s, [], []);
    DuoPair(cfg, c', s);
    assert Count([]) == NOTHING;
    assert Stalled(PairOf(After(cfg, acts), sid), W.Client);
  }

  lemma {:induction false} ServerStallReached(cfg: W.Config, sid: U64)
    requires cfg.clientPassword == cfg.serverPassword && cfg.clientWindow == 0
    ensures exists acts :: Stalled(PairOf(After(cfg, acts), sid), W.Server)
  {
    ReachOpened(cfg, sid);
    var c, s := Fresh(sid, TARGET, false, cfg.clientWindow, cfg.clientWindow), Fresh(sid, TARGET, false, cfg.clientWindow, cfg.serverWindow);
    var s' := s.(writing := [0], accepted := [0]);
    assert [] + [0] == [0];
    ReachCall(cfg, c, s, [], [], W.Server, BeginWrite([0]), s', []);
    var acts :| After(cfg, acts) == Duo(cfg, c, s', [], []);
    DuoPair(cfg, c, s');
    assert Count([]) == NOTHING;
    assert Stalled(PairOf(After(cfg, acts), sid), W.Server);
  }

  /** The exact no-stall condition. A client's writer can be left waiting, with its reader drained and nothing under
      way, exactly when the client's window is below max(1, half the server's); a server's writer exactly when the
      client's window is 0. */
  lemma {:induction false} StallExactly(cfg: W.Config, sid: U64)
    requires cfg.clientPassword == cfg.serverPassword && cfg.clientChunk > 0
    ensures (exists acts :: Stalled(PairOf(After(cfg, acts), sid), W.Client)) <==>
            cfg.clientWindow < (if cfg.serverWindow / 2 >= 1 then cfg.serverWindow / 2 else 1)
    ensures (exists acts :: Stalled(PairOf(After(cfg, acts), sid), W.Server)) <==> cfg.clientWindow == 0
  {
    hide Stalled, Sound;
    var x := CtxOf(cfg, sid);
    ServerStallsOnlyWithoutWindow(x);
    forall acts, side | Stalled(PairOf(After(cfg, acts), sid), side) ensures WindowTooSmall(side, x) {
      StallCause(cfg, acts, sid, side);
    }
    if WindowTooSmall(W.Client, x) {
      ClientStallReached(cfg, sid);
    }
    if WindowTooSmall(W.Server, x) {
      ServerStallReached(cfg, sid);
    }
  }

  lemma {:induction false} StallCause(cfg: W.Config, acts: seq<W.Act>, sid: U64, side: W.Side)
    requires Stalled(PairOf(After(cfg, acts), sid), side)
    ensures WindowTooSmall(side, CtxOf(cfg, sid))
  {
    hide Stalled, PairOf, WindowTooSmall, Base, Ledger, LossOk, GivesBack, Count, W.Run;
    RunSound(cfg, acts, sid);
    StallNeedsSmallWindow(PairOf(After(cfg, acts), sid), side, CtxOf(cfg, sid));
  }

  lemma {:induction false} StalledStarves(p: Pair, side: W.Side)
    requires Stalled(p, side)
    ensures Starved(Of(p, side), Of(p, W.Peer(side))) && SameSent(Of(p, side), Of(p, side))
  {
    hide Count;
  }

  /** A stall is permanent: whatever both ends do afterwards, the waiting writer puts no further byte on the wire. */
  lemma {:induction false} StallIsForEver(cfg: W.Config, acts: seq<W.Act>, more: seq<W.Act>, sid: U64, side: W.Side)
    requires Stalled(PairOf(After(cfg, acts), sid), side)
    ensures var p, p' := PairOf(After(cfg, acts), sid), PairOf(After(cfg, acts + more), sid);
            Starved(Of(p', side), Of(p', W.Peer(side))) && SameSent(Of(p, side), Of(p', side))
    decreases more
  {
    hide PairOf, Starved, Stalled, After;
    if more == [] {
      assert acts + more == acts;
      StalledStarves(PairOf(After(cfg, acts), sid), side);
    } else {
      var front, a := more[..|more| - 1], more[|more| - 1];
      assert acts + more == acts + front + [a];
      StallIsForEver(cfg, acts, front, sid, side);
      StarvedStep(cfg, acts + front, a, sid, side);
    }
  }

  lemma {:induction false} StarvedStep(cfg: W.Config, acts: seq<W.Act>, a: W.Act, sid: U64, side: W.Side)
    requires var p := PairOf(After(cfg, acts), sid); Starved(Of(p, side), Of(p, W.Peer(side)))
    ensures var p, p' := PairOf(After(cfg, acts), sid), PairOf(After(cfg, acts + [a]), sid);
            Starved(Of(p', side), Of(p', W.Peer(side))) && SameSent(Of(p, side), Of(p', side))
  {
    hide W.Step, W.Run, PairOf, Next, Starved, OwnFrames, Sound;
    var w := After(cfg, acts);
    var p := PairOf(w, sid);
    AfterSnoc(cfg, acts, a);
    RunRoles(cfg, acts);
    RunSound(cfg, acts, sid);
    StepSeen(w, a, sid);
    StarvedSome(Of(p, side), Of(p, W.Peer(side)));
    SoundOwn(p, CtxOf(cfg, sid), side);
    NextStarved(p, side, MoveOf(w, a, sid));
  }

  lemma {:induction false} SoundOwn(p: Pair, x: Ctx, side: W.Side)
    requires Sound(p, x)
    ensures OwnFrames(p.client.out, x.sid) && OwnFrames(p.server.out, x.sid)
    ensures Of(p, side).sess.Some? ==> Of(p, side).sess.value.sid == x.sid
  {
    hide OwnFrames, Opening, Ledger, Delivery.Ordered, Closing.Shutting, Datagrams.Relayed, LossOk, GivesBack, Count;
  }

  // ---------------- end of file before the end of the data ----------------

  /** So delivery is a prefix and not everything: one byte written, then a shutdown, both delivered before the first
      read, and the byte is never seen. */
  lemma {:induction false} DeliveredButUnread(cfg: W.Config, sid: U64)
    requires cfg.clientPassword == cfg.serverPassword && cfg.clientChunk > 0 && cfg.clientWindow > 0
    ensures exists acts :: UnreadAt(After(cfg, acts), sid)
  {
    ReachOpened(cfg, sid);
    var c, s := Fresh(sid, TARGET, false, cfg.clientWindow, cfg.clientWindow), Fresh(sid, TARGET, false, cfg.clientWindow, cfg.serverWindow);
    var c1 := c.(writing := [0], accepted := [0]);
    var c2 := c.(accepted := [0], sent := [0], credit := cfg.clientWindow - 1);
    var c3 := c2.(phase := HalfClosedLocal, shut := true);
    var s1 := s.(inbox := [[0]]);
    var s2 := s1.(phase := HalfClosedRemote, receiving := false);
    assert [] + [0] == [0] && [0][..1] == [0] && [0][1..] == [];
    assert Invoke(c, BeginWrite([0]), cfg.clientChunk, true) == Effect(c1, [], false, false);
    assert Invoke(c1, WriteChunk, cfg.clientChunk, true) == Effect(c2, [Data(sid, [0])], false, false);
    assert Invoke(c2, ShutdownWrite, cfg.clientChunk, true) == Effect(c3, [Close(sid, [])], false, false);
    assert OnFrame(s, Data(sid, [0])) == Only(s1) && OnFrame(s1, Close(sid, [])) == Only(s2);
    ReachUnread(cfg, sid, c, c1, c2, c3, s, s1, s2);
  }

  ghost predicate UnreadAt(w: W.World, sid: U64) {
    var c, s := At(w, W.Client, sid), At(w, W.Server, sid);
    c.Some? && s.Some? && CutShort(s.value) && s.value.got == [] && c.value.sent == [0]
  }

  lemma {:induction false} ReachUnread(cfg: W.Config, sid: U64, c: Sess, c1: Sess, c2: Sess, c3: Sess, s: Sess, s1: Sess, s2: Sess)
    requires Reached(cfg, Duo(cfg, c, s, [], [])) && sid == c.sid == c1.sid == c2.sid == c3.sid == s.sid == s1.sid == s2.sid
    requires Invoke(c, BeginWrite([0]), cfg.clientChunk, true) == Effect(c1, [], false, false)
    requires Invoke(c1, WriteChunk, cfg.clientChunk, true) == Effect(c2, [Data(sid, [0])], false, false)
    requires Invoke(c2, ShutdownWrite, cfg.clientChunk, true) == Effect(c3, [Close(sid, [])], false, false)
    requires OnFrame(s, Data(sid, [0])) == Only(s1) && s.inbox == [] && |s1.inbox| < INBOX_SLOTS
    requires OnFrame(s1, Close(sid, [])) == Only(s2) && CutShort(s2) && s2.got == [] && c3.sent == [0]
    ensures exists acts :: UnreadAt(After(cfg, acts), sid)
  {
    hide Reached, Duo, Invoke, OnFrame, W.Run;
    ReachCall(cfg, c, s, [], [], W.Client, BeginWrite([0]), c1, []);
    ReachCall(cfg, c1, s, [], [], W.Client, WriteChunk, c2, [Data(sid, [0])]);
    ReachFrame(cfg, c2, s, Data(sid, [0]));
    ReachCall(cfg, c2, s1, [], [], W.Client, ShutdownWrite, c3, [Close(sid, [])]);
    ReachFrame(cfg, c3, s1, Close(sid, []));
    DuoUnread(cfg, c3, s2);
    ReachedWitness(cfg, Duo(cfg, c3, s2, [], []), sid);
  }

  lemma {:induction false} DuoUnread(cfg: W.Config, c: Sess, s: Sess)
    requires c.sid == s.sid && CutShort(s) && s.got == [] && c.sent == [0]
    ensures UnreadAt(Duo(cfg, c, s, [], []), c.sid)
  {
  }

  lemma {:induction false} ReachedWitness(cfg: W.Config, w: W.World, sid: U64)
    requires Reached(cfg, w) && UnreadAt(w, sid)
    ensures exists acts :: UnreadAt(After(cfg, acts), sid)
  {
    hide UnreadAt, W.Run;
    var acts :| After(cfg, acts) == w;
  }

  // ---------------- a closed link with an open session ----------------

  ghost predicate OpenOnClosed(w: W.World, sid: U64) {
    w.client.closed && At(w, W.Client, sid).Some? && At(w, W.Client, sid).value.phase.Open? && sid in w.client.table
  }

  /** `closeNow` leaves sessions as they are: some run ends with a closed link and an open session in its table. */
  lemma {:induction false} OpenAfterCloseNow(cfg: W.Config, sid: U64)
    requires cfg.clientPassword == cfg.serverPassword
    ensures exists acts :: OpenOnClosed(After(cfg, acts), sid)
  {
    hide W.Run;
    ReachOpened(cfg, sid);
    ReachStep(cfg, Opened(cfg, sid), W.CloseNow(W.Client));
    var acts :| After(cfg, acts) == W.Step(Opened(cfg, sid), W.CloseNow(W.Client));
    assert OpenOnClosed(After(cfg, acts), sid);
  }
}
