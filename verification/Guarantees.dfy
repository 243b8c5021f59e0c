/** What holds in every run of two joined links, for every session they carry. */
module Guarantees {
  import opened Octets
  import opened ShineFrames
  import opened Addresses
  import opened SessionModel
  import opened LinkModel
  import opened Isolation
  import opened PairBase
  import opened Credit
  import opened Delivery
  import opened Closing
  import opened Completeness
  import opened Datagrams
  import opened Stall
  import W = World

  function CtxOf(cfg: W.Config, sid: U64): Ctx {
    Ctx(sid, cfg.clientWindow, cfg.serverWindow)
  }

  function After(cfg: W.Config, acts: seq<W.Act>): W.World {
    W.Run(W.Initial(cfg), acts)
  }

  // ---------------- every invariant, in every run ----------------

  lemma {:induction false} AfterSnoc(cfg: W.Config, acts: seq<W.Act>, a: W.Act)
    ensures After(cfg, acts + [a]) == W.Step(After(cfg, acts), a)
  {
    hide W.Step;
    assert (acts + [a])[..|acts|] == acts;
  }

  ghost predicate Sound(p: Pair, x: Ctx) {
    && Base(p, x) && Ledger(p, x) && Delivery.Ordered(p) && Shutting(p) && Relayed(p)
    && LossOk(p, Count(p.client.out)) && GivesBack(p.client) && GivesBack(p.server)
    && Whole(p) && Unlost(p, Count(p.client.out)) && Filled(p.client) && Filled(p.server)
  }

  lemma {:induction false} MoveIsLegit(cfg: W.Config, acts: seq<W.Act>, a: W.Act, sid: U64)
    ensures Legit(MoveOf(After(cfg, acts), a, sid), CtxOf(cfg, sid))
  {
    hide W.Run;
    RunRoles(cfg, acts);
  }

  lemma {:induction false} NextSound(p: Pair, m: Move, x: Ctx)
    requires Sound(p, x) && Legit(m, x)
    ensures Sound(Next(p, m), x)
  {
    hide Base, Ledger, Delivery.Ordered, Shutting, Relayed, LossOk, GivesBack, Whole, Unlost, Filled, Count, Next;
    NextBase(p, m, x);
    NextLedger(p, m, x);
    NextOrdered(p, m, x);
    NextShutting(p, m, x);
    NextRelayed(p, m, x);
    NextLoss(p, m, x);
    NextGivesBack(p, m);
    NextWhole(p, m);
    NextUnlost(p, m, x);
    NextFilled(p, m);
  }

  lemma {:induction false} StartSound(x: Ctx)
    ensures Sound(EMPTY, x)
  {
    assert Count([]) == NOTHING && Flatten([]) == [];
    assert UnderWay([]) == [] && CarryAll([]) == [];
  }

  lemma {:induction false} RunSound(cfg: W.Config, acts: seq<W.Act>, sid: U64)
    ensures Sound(PairOf(After(cfg, acts), sid), CtxOf(cfg, sid))
  {
    hide Sound, PairOf, Next, Legit, MoveOf, W.Step;
    if acts == [] {
      SessionsAreIsolated(cfg, [], sid);
      assert MovesOf(cfg, [], sid) == [];
      StartSound(CtxOf(cfg, sid));
    } else {
      var front, a := acts[..|acts| - 1], acts[|acts| - 1];
      RunSound(cfg, front, sid);
      RunRoles(cfg, front);
      MoveIsLegit(cfg, front, a, sid);
      StepSeen(After(cfg, front), a, sid);
      NextSound(PairOf(After(cfg, front), sid), MoveOf(After(cfg, front), a, sid), CtxOf(cfg, sid));
    }
  }

  lemma {:induction false} SoundBase(p: Pair, x: Ctx)
    requires Sound(p, x)
    ensures Base(p, x)
  {
    hide Base, Ledger, Delivery.Ordered, Shutting, Relayed, LossOk, GivesBack, Whole, Unlost, Filled, Count;
  }

  // ---------------- byte streams ----------------

  /** The session's object at one end, if it has been created. */
  function At(w: W.World, side: W.Side, sid: U64): Option<Sess> {
    var e := W.EndOf(w, side);
    if sid in e.sessions then Some(e.sessions[sid]) else None
  }

  lemma {:induction false} SoundOrder(p: Pair, x: Ctx, side: W.Side)
    requires Sound(p, x)
    ensures InOrder(Of(p, W.Peer(side)), Of(p, side)) && WriterOk(Of(p, W.Peer(side)))
  {
    hide Base, Ledger, Shutting, Relayed, LossOk, GivesBack, Whole, Unlost, Filled, Count, InOrder, WriterOk;
  }

  /** In every run, for every session and direction: what `read` has returned is a prefix of what `write` has put on
      the wire, which is a prefix of what the user passed to `write`; nothing is read that nobody wrote. */
  lemma {:induction false} PrefixDelivery(cfg: W.Config, acts: seq<W.Act>, sid: U64, side: W.Side)
    requires At(After(cfg, acts), side, sid).Some?
    ensures var w := After(cfg, acts);
            var reader, writer := At(w, side, sid).value, At(w, W.Peer(side), sid);
            if writer.Some? then reader.got <= writer.value.sent <= writer.value.accepted else reader.got == []
  {
    hide W.Run, Flatten, Replay, Keep, Sound;
    RunSound(cfg, acts, sid);
    var p := PairOf(After(cfg, acts), sid);
    SoundOrder(p, CtxOf(cfg, sid), side);
    var reader := At(After(cfg, acts), side, sid).value;
    assert reader.got <= Arrived(reader);
    assert BytesOf(ViewOf(Of(p, side))) == Arrived(reader);
    PrefixTrans(reader.got, Arrived(reader), SentBy(Of(p, W.Peer(side))));
  }

  /** What the session's writer at one end has put on the wire. */
  function SentAt(w: W.World, side: W.Side, sid: U64): Bytes {
    match At(w, side, sid)
    case None => []
    case Some(s) => s.sent
  }

  /** A stream session whose read side is open. */
  predicate Listens(w: W.World, side: W.Side, sid: U64) {
    var s := At(w, side, sid);
    s.Some? && !s.value.udp && !ReadSideDone(s.value.phase)
  }

  /** And nothing is missing: on links that are up, the bytes that have arrived at an end and the DATA on its way there
      are together all that was sent, as long as the end has thrown nothing away; and a listening end never has. */
  lemma {:induction false} NothingMissing(cfg: W.Config, acts: seq<W.Act>, sid: U64, side: W.Side)
    requires var w := After(cfg, acts);
             LinksOpen(w) && At(w, side, sid).Some? && (sid !in W.EndOf(w, side).lost || Listens(w, side, sid))
    ensures var w := After(cfg, acts);
            Arrived(At(w, side, sid).value) + Payloads(Keep(W.EndOf(w, W.Peer(side)).out, sid)) == SentAt(w, W.Peer(side), sid)
    ensures Listens(After(cfg, acts), side, sid) ==> sid !in W.EndOf(After(cfg, acts), side).lost
  {
    hide W.Run, Arrived, Keep, Sound, Payloads;
    RunSound(cfg, acts, sid);
    SoundWhole(PairOf(After(cfg, acts), sid), CtxOf(cfg, sid), side);
  }

  lemma {:induction false} SoundWhole(p: Pair, x: Ctx, side: W.Side)
    requires Sound(p, x)
    ensures AllThere(Of(p, W.Peer(side)), Of(p, side)) && Filled(Of(p, side))
    ensures SessOk(Of(p, side), WindowOf(side, x), x.sid)
    ensures !p.client.closed && !p.server.closed && Listening(Of(p, side)) ==> !Of(p, side).lost
  {
    hide Ledger, Delivery.Ordered, Shutting, Relayed, LossOk, GivesBack, Count, Opening, OwnFrames, AllThere, Filled, SessOk, Listening;
  }

  /** So once no frame of the session is on its way, an end holds or has returned everything; it has read everything
      exactly when it holds nothing, whatever its state. */
  lemma {:induction false} CaughtUp(cfg: W.Config, acts: seq<W.Act>, sid: U64, side: W.Side)
    requires var w := After(cfg, acts);
             LinksOpen(w) && At(w, side, sid).Some? && (sid !in W.EndOf(w, side).lost || Listens(w, side, sid)) &&
             Keep(W.EndOf(w, W.Peer(side)).out, sid) == []
    ensures var w := After(cfg, acts);
            var reader, sent := At(w, side, sid).value, SentAt(w, W.Peer(side), sid);
            reader.got + reader.leftover + Flatten(reader.inbox) == sent &&
            (reader.got == sent <==> reader.leftover == [] && reader.inbox == [])
  {
    hide W.Run, Flatten, Keep, Sound;
    NothingMissing(cfg, acts, sid, side);
    RunSound(cfg, acts, sid);
    SoundWhole(PairOf(After(cfg, acts), sid), CtxOf(cfg, sid), side);
    var s := At(After(cfg, acts), side, sid).value;
    assert Arrived(s) + [] == Arrived(s);
    assert s.got + s.leftover + Flatten(s.inbox) == s.got + (s.leftover + Flatten(s.inbox));
    FlattenFilled(s.inbox);
  }

  /** While the link is up, a writer's bytes are all accounted for: on the wire or in its current call. */
  lemma {:induction false} WriterKeepsAll(cfg: W.Config, acts: seq<W.Act>, sid: U64, side: W.Side)
    requires At(After(cfg, acts), side, sid).Some? && !W.EndOf(After(cfg, acts), side).closed
    ensures var s := At(After(cfg, acts), side, sid).value; s.sent + s.writing == s.accepted
  {
    hide W.Run, Keep, Sound;
    RunSound(cfg, acts, sid);
    SoundOrder(PairOf(After(cfg, acts), sid), CtxOf(cfg, sid), W.Peer(side));
  }

  // ---------------- flow control ----------------

  /** DATA bytes, or WINDOW credit, of a session in one end's pipe. */
  function Afloat(w: W.World, side: W.Side, sid: U64): Tally {
    Count(Keep(W.EndOf(w, side).out, sid))
  }

  function HeldAt(w: W.World, side: W.Side, sid: U64): nat {
    match At(w, side, sid)
    case None => 0
    case Some(s) => Held(s)
  }

  /** Sender's credit + DATA under way + held by the receiver + WINDOW credit under way. */
  function Books(w: W.World, side: W.Side, sid: U64): int
    requires At(w, side, sid).Some?
  {
    At(w, side, sid).value.credit + Afloat(w, side, sid).data + HeldAt(w, W.Peer(side), sid) + Afloat(w, W.Peer(side), sid).credit
  }

  ghost predicate LinksOpen(w: W.World) {
    !w.client.closed && !w.server.closed
  }

  ghost predicate EndsOpen(w: W.World, sid: U64) {
    At(w, W.Client, sid).Some? && At(w, W.Server, sid).Some? &&
    At(w, W.Client, sid).value.phase.Open? && At(w, W.Server, sid).value.phase.Open?
  }

  /** Conservation: in every run the books of each direction never exceed the window carried in NEW; they equal it until
      a frame of the session is thrown away, which does not happen while both links are up and both ends are open. */
  lemma {:induction false} CreditConserved(cfg: W.Config, acts: seq<W.Act>, sid: U64, side: W.Side)
    requires At(After(cfg, acts), side, sid).Some? && !At(After(cfg, acts), side, sid).value.udp
    ensures var w := After(cfg, acts);
            && 0 <= At(w, side, sid).value.credit
            && Books(w, side, sid) <= cfg.clientWindow
            && (sid !in w.client.lost && sid !in w.server.lost ==> Books(w, side, sid) == cfg.clientWindow)
            && (LinksOpen(w) && EndsOpen(w, sid) ==> Books(w, side, sid) == cfg.clientWindow)
  {
    hide W.Run, Count, Keep, Held, OwnFrames, Delivery.Ordered, Shutting, Relayed;
    RunSound(cfg, acts, sid);
    var p := PairOf(After(cfg, acts), sid);
    assert Balanced(Of(p, side), Of(p, W.Peer(side)), cfg.clientWindow);
    if LinksOpen(After(cfg, acts)) && EndsOpen(After(cfg, acts), sid) {
      ExactWhileOpen(p, CtxOf(cfg, sid));
    }
  }

  /** A receiver never buffers more than the window, and `recv_unacked_` never wraps: even with everything buffered
      read at once, the count stays within the window. */
  lemma {:induction false} ReceiverBounded(cfg: W.Config, acts: seq<W.Act>, sid: U64, side: W.Side)
    requires At(After(cfg, acts), side, sid).Some? && !At(After(cfg, acts), side, sid).value.udp
    ensures var s := At(After(cfg, acts), side, sid).value;
            |Flatten(s.inbox)| + |s.leftover| + s.unacked <= cfg.clientWindow < U32_LIMIT
  {
    hide W.Run, Count, Keep, Flatten, OwnFrames, Delivery.Ordered, Shutting, Relayed;
    RunSound(cfg, acts, sid);
    var p := PairOf(After(cfg, acts), sid);
    var h, o := Of(p, side), Of(p, W.Peer(side));
    if o.sess.Some? {
      assert Balanced(o, h, cfg.clientWindow);
      assert p.server.sess.value.udp == p.client.sess.value.udp;
      HeldBound(o, h, cfg.clientWindow);
    } else {
      assert Untouched(h.sess.value);
      FlattenNil();
    }
  }

  // ---------------- half-close ----------------

  /** In every run the table of each link lists exactly the sessions that are not closed. */
  lemma {:induction false} TableIsLiveSessions(cfg: W.Config, acts: seq<W.Act>, side: W.Side)
    ensures var e := W.EndOf(After(cfg, acts), side);
            forall sid :: sid in e.table <==> sid in e.sessions && !e.sessions[sid].phase.Closed?
  {
    hide W.Run, Keep, Count;
    var e := W.EndOf(After(cfg, acts), side);
    RunRoles(cfg, acts);
    forall sid: U64 ensures sid in e.table <==> sid in e.sessions && !e.sessions[sid].phase.Closed? {
      RunSound(cfg, acts, sid);
      var p := PairOf(After(cfg, acts), sid);
      assert SessOk(Of(p, side), WindowOf(side, CtxOf(cfg, sid)), sid);
    }
  }

  /** A session object stays once created, and its phase never goes back. */
  lemma {:induction false} PhaseNeverGoesBack(cfg: W.Config, acts: seq<W.Act>, more: seq<W.Act>, sid: U64, side: W.Side)
    requires At(After(cfg, acts), side, sid).Some?
    ensures var s, s' := At(After(cfg, acts), side, sid), At(After(cfg, acts + more), side, sid);
            s'.Some? && (s'.value.phase == s.value.phase || Rank(s.value.phase) < Rank(s'.value.phase))
    decreases more
  {
    hide W.Step, Next, MoveOf, Keep, Rank;
    if more == [] {
      assert acts + more == acts;
    } else {
      var front, a := more[..|more| - 1], more[|more| - 1];
      var all := acts + more;
      assert all[..|all| - 1] == acts + front && all[|all| - 1] == a;
      PhaseNeverGoesBack(cfg, acts, front, sid, side);
      var w := After(cfg, acts + front);
      RunRoles(cfg, acts + front);
      StepSeen(w, a, sid);
      NextAdvances(PairOf(w, sid), MoveOf(w, a, sid));
    }
  }

  /** Once both ends have called `shutdownWrite` or `close` and no CLOSE is under way, on links that are up, both ends
      are closed and gone from both tables. */
  lemma {:induction false} BothShutThenGone(cfg: W.Config, acts: seq<W.Act>, sid: U64)
    requires var w := After(cfg, acts);
             LinksOpen(w) && At(w, W.Client, sid).Some? && At(w, W.Server, sid).Some? &&
             At(w, W.Client, sid).value.shut && At(w, W.Server, sid).value.shut
    requires var w := After(cfg, acts);
             !At(w, W.Client, sid).value.closeSpawned && !At(w, W.Server, sid).value.closeSpawned &&
             Afloat(w, W.Client, sid).closes == 0 && Afloat(w, W.Server, sid).closes == 0
    ensures var w := After(cfg, acts);
            At(w, W.Client, sid).value.phase.Closed? && At(w, W.Server, sid).value.phase.Closed? &&
            sid !in w.client.table && sid !in w.server.table
  {
    hide W.Run, Keep, Count;
    RunSound(cfg, acts, sid);
    BothShutBothClosed(PairOf(After(cfg, acts), sid), CtxOf(cfg, sid));
  }

  /** Ids are fresh where it matters: a NEW that reaches the server never names a session that the server has. */
  lemma {:induction false} NewIsFresh(cfg: W.Config, acts: seq<W.Act>)
    requires var out := After(cfg, acts).client.out; out != [] && (out[0].New? || out[0].NewUdp?)
    ensures var w := After(cfg, acts); SidOf(w.client.out[0]).value !in w.server.sessions
  {
    hide W.Run, Sound;
    var w := After(cfg, acts);
    var sid := SidOf(w.client.out[0]).value;
    RunSound(cfg, acts, sid);
    assert Keep(w.client.out, sid)[0] == w.client.out[0];
    NewAtHead(PairOf(w, sid), CtxOf(cfg, sid));
  }

  lemma {:induction false} NewAtHead(p: Pair, x: Ctx)
    requires Sound(p, x) && p.client.out != [] && (p.client.out[0].New? || p.client.out[0].NewUdp?)
    ensures p.server.sess.None?
  {
    hide Count, Ledger, Delivery.Ordered, Shutting, Relayed, LossOk, GivesBack, OwnFrames, SessOk;
    CountPop(p.client.out);
  }

  // ---------------- datagrams ----------------

  lemma {:induction false} SoundFaithful(p: Pair, x: Ctx, side: W.Side)
    requires Sound(p, x)
    ensures Faithful(Of(p, W.Peer(side)), Of(p, side))
  {
    hide Base, Ledger, Delivery.Ordered, Shutting, LossOk, GivesBack, Count, Faithful;
  }

  /** In every run the datagrams received are an order-preserving selection of those sent, as the wire format carries
      them; for addresses that it can carry they are unchanged. */
  lemma {:induction false} DatagramsInOrder(cfg: W.Config, acts: seq<W.Act>, sid: U64, side: W.Side)
    requires At(After(cfg, acts), side, sid).Some?
    ensures var w := After(cfg, acts);
            var got, sender := At(w, side, sid).value.datagramsGot, At(w, W.Peer(side), sid);
            var sent := if sender.Some? then sender.value.datagramsSent else [];
            IsSubseq(got, CarryAll(sent)) && ((forall i :: 0 <= i < |sent| ==> Carried(sent[i].addr)) ==> IsSubseq(got, sent))
  {
    hide W.Run, Keep, IsSubseq, UnderWay, CarryAll, Sound;
    RunSound(cfg, acts, sid);
    var p := PairOf(After(cfg, acts), sid);
    var x, y := Of(p, W.Peer(side)), Of(p, side);
    SoundFaithful(p, CtxOf(cfg, sid), side);
    var s, sent := y.sess.value, SentFrom(x);
    assert ArrivedAt(y) + UnderWay(x.out) == s.datagramsGot + (s.udpInbox + UnderWay(x.out));
    SubseqPrefix(s.datagramsGot, s.udpInbox + UnderWay(x.out), CarryAll(sent));
    if forall i :: 0 <= i < |sent| ==> Carried(sent[i].addr) {
      CarryAllIntact(sent);
    }
  }

  /** A datagram finds its session listed, of its kind, with its queue open and fewer than 1024 datagrams in it, and its
      address parses. */
  predicate Accepts(e: End, f: ShineFrame) {
    f.UdpData? && f.sid in e.table && f.sid in e.sessions && ParseBinary(f.addrBlob).Ok? &&
    var s := e.sessions[f.sid]; s.udp && s.receiving && |s.udpInbox| < 1024
  }

  /** Nothing has changed but the queue of one session: the datagram is at its end exactly when it is accepted. */
  predicate OnlyQueued(e: End, e': End, f: ShineFrame)
    requires f.UdpData?
  {
    && e'.closed == e.closed && e'.out == e.out && e'.table == e.table && e'.heart == e.heart && e'.stage == e.stage
    && e'.sessions.Keys == e.sessions.Keys
    && (forall id: U64 :: id in e.sessions && id != f.sid ==> e'.sessions[id] == e.sessions[id])
    && (f.sid in e.sessions ==>
          var s, s' := e.sessions[f.sid], e'.sessions[f.sid];
          s'.(udpInbox := s.udpInbox) == s &&
          (if Accepts(e, f) then s'.udpInbox == s.udpInbox + [Datagram(f.payload, ParseBinary(f.addrBlob).value)]
           else s'.udpInbox == s.udpInbox))
  }

  /** In every run a datagram at the head of the pipe is taken, however full its session: the pipe is one frame shorter,
      the link stays up, and nothing but that session's queue has changed at either end, by that datagram exactly when it
      is accepted. */
  lemma {:induction false} DatagramNeverBlocks(cfg: W.Config, acts: seq<W.Act>, side: W.Side, now: nat)
    requires var w := After(cfg, acts);
             !W.EndOf(w, side).closed && W.EndOf(w, side).stage.Ready? &&
             W.EndOf(w, W.Peer(side)).out != [] && W.EndOf(w, W.Peer(side)).out[0].UdpData?
    ensures var w, w' := After(cfg, acts), After(cfg, acts + [W.Deliver(side, now)]);
            var from := W.EndOf(w, W.Peer(side));
            W.CanDeliver(w, side) && W.EndOf(w', W.Peer(side)) == from.(out := from.out[1..]) &&
            OnlyQueued(W.EndOf(w, side), W.EndOf(w', side), from.out[0])
  {
    hide W.Run, Dispatch, OnlyQueued;
    AfterSnoc(cfg, acts, W.Deliver(side, now));
    var w := After(cfg, acts);
    DatagramQueued(W.EndOf(w, side), W.EndOf(w, W.Peer(side)).out[0], now);
  }

  lemma {:induction false} DatagramQueued(e: End, f: ShineFrame, now: nat)
    requires f.UdpData?
    ensures OnlyQueued(e, Dispatch(e, f, now), f)
  {
    hide ParseBinary;
    assert e.out + [] == e.out;
  }
}
