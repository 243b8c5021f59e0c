/** Where a session leads: the target that the client asked for is the one that the server's session has, and a target
    that cannot be carried is refused. */
module Targets {
  import opened Octets
  import opened ShineFrames
  import opened Addresses
  import opened SessionModel
  import opened LinkModel
  import opened Isolation
  import opened PairBase
  import opened Closing
  import opened Guarantees
  import W = World

  /** What the far end makes of the client's target. */
  function Aim(c: Half): Result<Address, AddressError>
    requires c.sess.Some?
  {
    Received(c.sess.value.target)
  }

  /** NEW carries the target, the server's session has it, and RESET means that it could not be carried. */
  predicate Carries(c: Half, s: Half, tc: Tally, ts: Tally) {
    c.sess.Some? && !c.sess.value.udp ==>
      (tc.news > 0 ==> c.out != [] && c.out[0].New? && ParseBinary(c.out[0].addrBlob) == Aim(c)) &&
      (s.sess.Some? ==> Aim(c) == Ok(s.sess.value.target)) && (ts.resets > 0 ==> Aim(c).Err?)
  }

  /** On links that are up, a NEW that is no longer under way has made a session or was refused, and a client that was
      refused knows or will know. */
  predicate Answered(c: Half, s: Half, tc: Tally, ts: Tally) {
    !c.closed && !s.closed && c.sess.Some? && s.sess.None? && tc.news == 0 ==>
      !c.sess.value.udp && Aim(c).Err? && (ts.resets > 0 || c.sess.value.phase.Closed?)
  }

  predicate Aimed(p: Pair) {
    var tc, ts := Count(p.client.out), Count(p.server.out);
    Carries(p.client, p.server, tc, ts) && Answered(p.client, p.server, tc, ts)
  }

  // ---------------- one move ----------------

  /** The target and the kind of a session never change. */
  predicate SameAim(h: Half, h': Half) {
    h.sess.Some? ==> h'.sess.Some? && h'.sess.value.target == h.sess.value.target && h'.sess.value.udp == h.sess.value.udp
  }

  lemma {:induction false} UseAim(h: Half, c: Call, maxChunk: nat)
    ensures var h' := UseHalf(h, c, maxChunk);
            SameAim(h, h') && Advances(h, h') && h'.closed == h.closed && (h'.sess.Some? <==> h.sess.Some?) && h.out <= h'.out
    ensures var t, t' := Count(h.out), Count(UseHalf(h, c, maxChunk).out); t'.news == t.news && t'.resets == t.resets
  {
    hide Invoke, Count;
    UseAdvances(h, c, maxChunk);
    if h.sess.Some? {
      CallTouches(h.sess.value, c, maxChunk, !h.closed);
      CountInstall(h.out, Invoke(h.sess.value, c, maxChunk, !h.closed).frames);
    }
  }

  lemma {:induction false} FrameAim(s: Sess, f: ShineFrame)
    ensures var s' := OnFrame(s, f).sess; s'.target == s.target && s'.udp == s.udp && (f.Reset? ==> s'.phase.Closed?)
  {
    hide ParseBinary;
  }

  lemma {:induction false} TakeAim(h: Half, f: ShineFrame, server: bool, own: U32)
    requires !h.closed
    ensures var h' := TakeFrame(h, f, server, own);
            SameAim(h, h') && Advances(h, h') && h'.closed == h.closed &&
            (f.Reset? && h.sess.Some? && h.listed ==> h'.sess.value.phase.Closed?) &&
            (h.sess.None? && !(server && (f.New? || f.NewUdp?)) ==> h'.sess.None?)
    ensures !f.New? && !f.NewUdp? ==> TakeFrame(h, f, server, own).out == h.out
  {
    hide ParseBinary, OnFrame;
    TakeAdvances(h, f, server, own);
    if h.sess.Some? {
      FrameAim(h.sess.value, f);
      OnFrameTagged(h.sess.value, f);
      assert h.out + [] == h.out;
    }
  }

  lemma {:induction false} TakeAtServer(p: Pair, x: Ctx)
    requires Base(p, x) && Aimed(p) && p.client.out != [] && !p.server.closed
    ensures Aimed(Next(p, Move.Take(W.Server, x.serverWindow)))
  {
    hide Count, OwnFrames, SessOk, Untouched, ParseBinary, Received, TakeFrame;
    var c, s, f := p.client, p.server, p.client.out[0];
    CountPop(c.out);
    if f.New? || f.NewUdp? {
      AcceptAim(p, x);
    } else {
      TakeAim(s, f, true, x.serverWindow);
    }
  }

  lemma {:induction false} AcceptAim(p: Pair, x: Ctx)
    requires Base(p, x) && Aimed(p) && p.client.out != [] && !p.server.closed
    requires p.client.out[0].New? || p.client.out[0].NewUdp?
    ensures Aimed(Next(p, Move.Take(W.Server, x.serverWindow)))
  {
    hide Count, OwnFrames, SessOk, Untouched, ParseBinary, Received;
    var c, s, f := p.client, p.server, p.client.out[0];
    CountPop(c.out);
    CountSnoc(s.out, Reset(f.sid));
    CountSnoc(s.out, Ack(f.sid));
  }

  lemma {:induction false} TakeAtClientAim(p: Pair, x: Ctx)
    requires Base(p, x) && Aimed(p) && p.server.out != [] && !p.client.closed
    ensures Aimed(Next(p, Move.Take(W.Client, x.clientWindow)))
  {
    hide Count, OwnFrames, Untouched, ParseBinary, Received, TakeFrame;
    CountPop(p.server.out);
    TakeAim(p.client, p.server.out[0], false, x.clientWindow);
    TakeAtClient(p.client, p.server.out[0], x.clientWindow);
  }

  lemma {:induction false} OpenAim(p: Pair, target: Address, udp: bool, x: Ctx)
    requires Base(p, x) && Aimed(p)
    ensures Aimed(Next(p, Move.Open(x.sid, target, udp, x.clientWindow)))
  {
    hide Count, OwnFrames, SessOk, ToBinary, ParseBinary, Received;
    var c := p.client;
    if !c.closed && c.sess.None? {
      var f := if udp then NewUdp(x.sid) else New(x.sid, ToBinary(target), x.clientWindow);
      assert c.out + [f] == [f];
      CountOne(f);
      CountPop(p.server.out);
      ParseAfterPrint(target, []);
      assert ToBinary(target) + [] == ToBinary(target);
    }
  }

  lemma {:induction false} UseAimed(p: Pair, side: W.Side, c: Call, maxChunk: nat)
    requires Aimed(p)
    ensures Aimed(Next(p, Move.Use(side, c, maxChunk)))
  {
    hide Count, UseHalf, Received, ParseBinary;
    UseAim(Of(p, side), c, maxChunk);
  }

  /** With a link down only the first half is promised, and it survives. */
  lemma {:induction false} RefuseAim(p: Pair, side: W.Side, x: Ctx)
    requires Base(p, x) && Aimed(p)
    ensures Aimed(Next(p, Move.Refuse(side)))
  {
    hide Count, OwnFrames, SessOk, Untouched, ParseBinary, Received;
    CountPop(Of(p, W.Peer(side)).out);
  }

  lemma {:induction false} CutAim(p: Pair, side: W.Side, keep: nat)
    requires Aimed(p)
    ensures Aimed(Next(p, Move.Cut(side, keep)))
  {
    hide Count, ParseBinary, Received;
    if keep <= |Of(p, side).out| {
      CutTally(Of(p, side).out, keep);
    }
  }

  lemma {:induction false} FailAim(p: Pair, side: W.Side)
    requires Aimed(p)
    ensures Aimed(Next(p, Move.Fail(side))) && Aimed(Next(p, Move.CloseNow(side)))
  {
    hide Count, ParseBinary, Received;
  }

  lemma {:induction false} TakeAimed(p: Pair, side: W.Side, x: Ctx)
    requires Base(p, x) && Aimed(p)
    ensures Aimed(Next(p, Move.Take(side, WindowOf(side, x))))
  {
    hide Count, TakeFrame, Aimed, Base;
    if Of(p, W.Peer(side)).out != [] && !Of(p, side).closed {
      if side.Client? {
        TakeAtClientAim(p, x);
      } else {
        TakeAtServer(p, x);
      }
    }
  }

  lemma {:induction false} NextAimed(p: Pair, m: Move, x: Ctx)
    requires Base(p, x) && Aimed(p) && Legit(m, x)
    ensures Aimed(Next(p, m))
  {
    hide Next, Base, Aimed;
    match m {
      case Idle => IdleMove(p);
      case Use(side, c, maxChunk) => UseAimed(p, side, c, maxChunk);
      case Open(sid, target, udp, window) => OpenAim(p, target, udp, x);
      case Take(side, window) => TakeAimed(p, side, x);
      case Refuse(side) => RefuseAim(p, side, x);
      case Cut(side, keep) => CutAim(p, side, keep);
      case Fail(side) => FailAim(p, side);
      case CloseNow(side) => FailAim(p, side);
    }
  }

  // ---------------- runs ----------------

  lemma {:induction false} RunAimed(cfg: W.Config, acts: seq<W.Act>, sid: U64)
    ensures Aimed(PairOf(After(cfg, acts), sid))
  {
    hide PairOf, Next, Legit, MoveOf, W.Step, Aimed, Sound;
    if acts == [] {
      SessionsAreIsolated(cfg, [], sid);
      assert MovesOf(cfg, [], sid) == [];
      StartAimed();
    } else {
      var front, a := acts[..|acts| - 1], acts[|acts| - 1];
      var p := PairOf(After(cfg, front), sid);
      RunAimed(cfg, front, sid);
      RunSound(cfg, front, sid);
      SoundBase(p, CtxOf(cfg, sid));
      RunRoles(cfg, front);
      MoveIsLegit(cfg, front, a, sid);
      StepSeen(After(cfg, front), a, sid);
      NextAimed(p, MoveOf(After(cfg, front), a, sid), CtxOf(cfg, sid));
    }
  }

  lemma {:induction false} StartAimed()
    ensures Aimed(EMPTY)
  {
  }

  /** In every run a stream session at the server has the target that the client's end of it has, as the wire format
      carries it. */
  lemma {:induction false} TargetArrives(cfg: W.Config, acts: seq<W.Act>, sid: U64)
    requires At(After(cfg, acts), W.Server, sid).Some? && !At(After(cfg, acts), W.Server, sid).value.udp
    ensures var w := After(cfg, acts);
            var c, s := At(w, W.Client, sid), At(w, W.Server, sid).value;
            c.Some? && !c.value.udp && Received(c.value.target) == Ok(s.target) && (Carried(c.value.target) ==> s.target == c.value.target)
  {
    hide W.Run, Keep, Count, Sound;
    RunAimed(cfg, acts, sid);
    RunSound(cfg, acts, sid);
    SoundBase(PairOf(After(cfg, acts), sid), CtxOf(cfg, sid));
    SameKind(PairOf(After(cfg, acts), sid), CtxOf(cfg, sid));
    CarriedArrives(At(After(cfg, acts), W.Client, sid).value.target);
  }

  lemma {:induction false} CarriedArrives(a: Address)
    ensures Carried(a) ==> Received(a) == Ok(a)
  {
    if a.Domain? && |a.domain| <= MAX_DOMAIN {
      assert a.domain[..|a.domain|] == a.domain;
    }
  }

  lemma {:induction false} SameKind(p: Pair, x: Ctx)
    requires Base(p, x)
    ensures p.server.sess.Some? ==> p.client.sess.Some? && p.client.sess.value.udp == p.server.sess.value.udp
  {
    hide Count, OwnFrames, SessOk, Untouched;
  }

  /** On links that are up, once a client's NEW is no longer under way: the server has the session exactly when it is a
      datagram session or its target can be carried; otherwise the client's end is Closed or a RESET is on its way. */
  lemma {:induction false} AnsweredExactly(cfg: W.Config, acts: seq<W.Act>, sid: U64)
    requires var w := After(cfg, acts); LinksOpen(w) && At(w, W.Client, sid).Some? && Afloat(w, W.Client, sid).news == 0
    ensures var w := After(cfg, acts);
            var c := At(w, W.Client, sid).value;
            (At(w, W.Server, sid).Some? <==> c.udp || Received(c.target).Ok?) &&
            (At(w, W.Server, sid).None? ==> c.phase.Closed? || Afloat(w, W.Server, sid).resets > 0)
  {
    hide W.Run, Keep, Count, Received, Sound;
    RunAimed(cfg, acts, sid);
    RunSound(cfg, acts, sid);
    SoundBase(PairOf(After(cfg, acts), sid), CtxOf(cfg, sid));
    SameKind(PairOf(After(cfg, acts), sid), CtxOf(cfg, sid));
  }

  // ---------------- what the client asked for ----------------

  /** The first `openSession` of a run that drew this id on a link that was up: its target and its kind. */
  function AskedFor(cfg: W.Config, acts: seq<W.Act>, sid: U64): Option<(Address, bool)> {
    if acts == [] then None
    else
      var front, a := acts[..|acts| - 1], acts[|acts| - 1];
      var before := AskedFor(cfg, front, sid);
      if before.None? && a.Open? && a.sid == sid && !After(cfg, front).client.closed then Some((a.target, a.udp)) else before
  }

  lemma {:induction false} ClientAim(p: Pair, m: Move, x: Ctx)
    requires Legit(m, x)
    ensures var c, c' := p.client, Next(p, m).client;
            SameAim(c, c') &&
            (c.sess.None? ==> if m.Open? && !c.closed
                              then c'.sess.Some? && c'.sess.value.target == m.target && c'.sess.value.udp == m.udp else c'.sess.None?)
  {
    hide UseHalf, TakeFrame, ToBinary;
    match m {
      case Use(side, c, maxChunk) =>
        hide Count;
        UseAim(p.client, c, maxChunk);
      case Take(side, window) =>
        if p.server.out != [] && !p.client.closed {
          TakeAim(p.client, p.server.out[0], false, window);
        }
      case _ =>
    }
  }

  /** In every run the client has a session exactly when `openSession` has been called for it, with that target and of that
      kind; nothing that the peer sends makes one. */
  lemma {:induction false} OpenedAsAsked(cfg: W.Config, acts: seq<W.Act>, sid: U64)
    ensures var c, asked := At(After(cfg, acts), W.Client, sid), AskedFor(cfg, acts, sid);
            (c.Some? <==> asked.Some?) && (c.Some? ==> c.value.target == asked.value.0 && c.value.udp == asked.value.1)
  {
    if acts != [] {
      hide W.Step, Next, Keep;
      var front, a := acts[..|acts| - 1], acts[|acts| - 1];
      var w := After(cfg, front);
      OpenedAsAsked(cfg, front, sid);
      RunRoles(cfg, front);
      MoveIsLegit(cfg, front, a, sid);
      StepSeen(w, a, sid);
      ClientAim(PairOf(w, sid), MoveOf(w, a, sid), CtxOf(cfg, sid));
    }
  }

  /** In every run a NEW or NEW_UDP that a server takes is answered at once: by ACK and a session when the target asked for
      can be carried or the session is for datagrams, and by RESET alone otherwise. */
  lemma {:induction false} NewIsAnswered(cfg: W.Config, acts: seq<W.Act>, now: nat)
    requires var w := After(cfg, acts);
             !w.server.closed && w.server.stage.Ready? && w.client.out != [] && (w.client.out[0].New? || w.client.out[0].NewUdp?)
    ensures var w, w' := After(cfg, acts), After(cfg, acts + [W.Deliver(W.Server, now)]);
            var sid := w.client.out[0].sid;
            var asked := AskedFor(cfg, acts, sid);
            asked.Some? &&
            if asked.value.1 || Received(asked.value.0).Ok?
            then w'.server.out == w.server.out + [Ack(sid)] && sid in w'.server.table
            else w'.server.out == w.server.out + [Reset(sid)] && w'.server.sessions == w.server.sessions
  {
    hide W.Run, AskedFor, Received, ParseBinary, Sound, Keep, Count;
    var w := After(cfg, acts);
    var sid := w.client.out[0].sid;
    RunRoles(cfg, acts);
    RunAimed(cfg, acts, sid);
    RunSound(cfg, acts, sid);
    SoundBase(PairOf(w, sid), CtxOf(cfg, sid));
    PopSeen(w.client, sid);
    HeadCounts(PairOf(w, sid), CtxOf(cfg, sid));
    OpenedAsAsked(cfg, acts, sid);
    NewIsFresh(cfg, acts);
    AfterSnoc(cfg, acts, W.Deliver(W.Server, now));
  }

  lemma {:induction false} HeadCounts(p: Pair, x: Ctx)
    requires Base(p, x) && p.client.out != [] && (p.client.out[0].New? || p.client.out[0].NewUdp?)
    ensures p.client.sess.Some? && Count(p.client.out).news > 0 && p.client.sess.value.udp == p.client.out[0].NewUdp?
  {
    hide Count, OwnFrames, SessOk, Untouched;
    CountPop(p.client.out);
  }

  /** End to end: a stream session at the server has the target that the client's user asked for, exactly if it can be
      carried and with its domain cut to 255 bytes otherwise. */
  lemma {:induction false} TargetEndToEnd(cfg: W.Config, acts: seq<W.Act>, sid: U64)
    requires At(After(cfg, acts), W.Server, sid).Some? && !At(After(cfg, acts), W.Server, sid).value.udp
    ensures var asked := AskedFor(cfg, acts, sid);
            asked.Some? && !asked.value.1 && Received(asked.value.0) == Ok(At(After(cfg, acts), W.Server, sid).value.target)
  {
    hide W.Run, AskedFor, Received;
    TargetArrives(cfg, acts, sid);
    OpenedAsAsked(cfg, acts, sid);
  }
}
