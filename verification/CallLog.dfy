/** What users see: the arguments and answers of their calls in a run, and that the history kept in a session is exactly
    these. The guarantees then speak of calls alone. */
module CallLog {
  import opened Octets
  import opened ShineFrames
  import opened Addresses
  import opened SessionModel
  import opened LinkModel
  import opened Isolation
  import opened PairBase
  import opened Credit
  import opened Delivery
  import opened Closing
  import opened Datagrams
  import opened Guarantees
  import W = World

  /** Bytes that `read` has returned, bytes that `write` has let in, datagrams that `sendTo` has let in and that
      `receiveFrom` has returned, and whether `shutdownWrite` or `close` has been called on a link that was up. */
  datatype Log = Log(read: Bytes, written: Bytes, sentTo: seq<Datagram>, received: seq<Datagram>, shut: bool)

  const NO_CALLS: Log := Log([], [], [], [], false)

  function Join(a: Log, b: Log): Log {
    Log(a.read + b.read, a.written + b.written, a.sentTo + b.sentTo, a.received + b.received, a.shut || b.shut)
  }

  /** One call: its argument if it is let in, and its answer. */
  function Entry(s: Sess, c: Call, linkOpen: bool): Log {
    match c
    case Read(room) =>
      if !s.udp && ReadResult(s, room).Some? then NO_CALLS.(read := ReadResult(s, room).value) else NO_CALLS
    case BeginWrite(data) =>
      if !s.udp && s.writing == [] && linkOpen && !WriteSideDone(s.phase) then NO_CALLS.(written := data) else NO_CALLS
    case SendTo(payload, addr) =>
      if s.udp && linkOpen && !WriteSideDone(s.phase) then NO_CALLS.(sentTo := [Datagram(payload, addr)]) else NO_CALLS
    case ReceiveFrom =>
      if s.udp && !ReadSideDone(s.phase) && s.udpInbox != [] then NO_CALLS.(received := [s.udpInbox[0]]) else NO_CALLS
    case ShutdownWrite => NO_CALLS.(shut := linkOpen)
    case CloseCall => NO_CALLS.(shut := linkOpen)
    case _ => NO_CALLS
  }

  function EntryOf(w: W.World, a: W.Act, side: W.Side, sid: U64): Log {
    if a.Use? && a.side == side && a.sid == sid && At(w, side, sid).Some?
    then Entry(At(w, side, sid).value, a.call, !W.EndOf(w, side).closed) else NO_CALLS
  }

  /** The calls of a run on one end of one session. */
  function LogOf(cfg: W.Config, acts: seq<W.Act>, side: W.Side, sid: U64): Log {
    if acts == [] then NO_CALLS
    else
      var front := acts[..|acts| - 1];
      Join(LogOf(cfg, front, side, sid), EntryOf(After(cfg, front), acts[|acts| - 1], side, sid))
  }

  /** The history that a session keeps. */
  function Kept(s: Sess): Log {
    Log(s.got, s.accepted, s.datagramsSent, s.datagramsGot, s.shut)
  }

  function KeptAt(s: Option<Sess>): Log {
    match s
    case None => NO_CALLS
    case Some(s) => Kept(s)
  }

  // ---------------- one step ----------------

  lemma {:induction false} JoinNothing(a: Log)
    ensures Join(a, NO_CALLS) == a
  {
  }

  lemma {:induction false} CallLogged(s: Sess, c: Call, maxChunk: nat, linkOpen: bool)
    ensures Kept(Invoke(s, c, maxChunk, linkOpen).sess) == Join(Kept(s), Entry(s, c, linkOpen))
  {
    hide ReadCall, SendChunk, ReadResult, ToBinary;
    CallTouches(s, c, maxChunk, linkOpen);
    JoinNothing(Kept(s));
    match c {
      case Read(room) =>
        if !s.udp {
          ReadReturns(s, room, linkOpen);
        } else {
          UdpReadsNothing(s, room, linkOpen);
        }
      case _ =>
    }
  }

  lemma {:induction false} UdpReadsNothing(s: Sess, room: nat, linkOpen: bool)
    requires s.udp
    ensures ReadCall(s, room, linkOpen) == Only(s)
  {
  }

  /** Only the user's own calls change the history. */
  lemma {:induction false} FrameLogsNothing(s: Sess, f: ShineFrame)
    ensures Kept(OnFrame(s, f).sess) == Kept(s)
  {
    hide ParseBinary;
  }

  lemma {:induction false} TakeLogsNothing(h: Half, f: ShineFrame, server: bool, own: U32)
    ensures KeptAt(TakeFrame(h, f, server, own).sess) == KeptAt(h.sess)
  {
    hide ParseBinary, OnFrame;
    if h.sess.Some? {
      FrameLogsNothing(h.sess.value, f);
    }
  }

  lemma {:induction false} NextLogged(p: Pair, m: Move, side: W.Side)
    ensures var h, h' := Of(p, side), Of(Next(p, m), side);
            KeptAt(h'.sess) == if m.Use? && m.side == side && h.sess.Some?
                               then Join(KeptAt(h.sess), Entry(h.sess.value, m.call, !h.closed)) else KeptAt(h.sess)
  {
    hide Invoke, TakeFrame, Entry;
    var h, o := Of(p, side), Of(p, W.Peer(side));
    match m {
      case Use(s, c, maxChunk) =>
        if s == side && h.sess.Some? {
          CallLogged(h.sess.value, c, maxChunk, !h.closed);
        }
      case Open(id, target, udp, window) =>
        hide ToBinary;
      case Take(s, window) =>
        if s == side && o.out != [] {
          TakeLogsNothing(h, o.out[0], s.Server?, window);
        }
      case _ =>
    }
  }

  // ---------------- runs ----------------

  /** In every run the history kept in a session is the log of its calls, and no call is let in before it exists. */
  lemma {:induction false} HistoryIsLog(cfg: W.Config, acts: seq<W.Act>, side: W.Side, sid: U64)
    ensures LogOf(cfg, acts, side, sid) == KeptAt(At(After(cfg, acts), side, sid))
  {
    if acts != [] {
      var front, a := acts[..|acts| - 1], acts[|acts| - 1];
      HistoryIsLog(cfg, front, side, sid);
      LogStep(cfg, front, a, side, sid);
    }
  }

  lemma {:induction false} LogStep(cfg: W.Config, front: seq<W.Act>, a: W.Act, side: W.Side, sid: U64)
    ensures var w := After(cfg, front);
            KeptAt(At(W.Step(w, a), side, sid)) == Join(KeptAt(At(w, side, sid)), EntryOf(w, a, side, sid))
  {
    hide W.Step, W.Run, Next, Keep, Entry;
    var w := After(cfg, front);
    RunRoles(cfg, front);
    StepSeen(w, a, sid);
    NextLogged(PairOf(w, sid), MoveOf(w, a, sid), side);
    JoinNothing(KeptAt(At(w, side, sid)));
  }

  /** End to end: in every run, for every session and direction, the bytes that the `read` calls of one end have returned,
      put together, are a prefix of the bytes that the `write` calls of the other end have let in. */
  lemma {:induction false} EndToEnd(cfg: W.Config, acts: seq<W.Act>, sid: U64, side: W.Side)
    ensures LogOf(cfg, acts, side, sid).read <= LogOf(cfg, acts, W.Peer(side), sid).written
  {
    hide W.Run, LogOf;
    var w := After(cfg, acts);
    HistoryIsLog(cfg, acts, side, sid);
    HistoryIsLog(cfg, acts, W.Peer(side), sid);
    if At(w, side, sid).Some? {
      PrefixDelivery(cfg, acts, sid, side);
    }
  }

  /** The same for datagrams: what `receiveFrom` has returned is an order-preserving selection of what `sendTo` has let in,
      as the wire format carries it. */
  lemma {:induction false} DatagramsEndToEnd(cfg: W.Config, acts: seq<W.Act>, sid: U64, side: W.Side)
    ensures IsSubseq(LogOf(cfg, acts, side, sid).received, CarryAll(LogOf(cfg, acts, W.Peer(side), sid).sentTo))
  {
    hide W.Run, LogOf, CarryAll;
    var w := After(cfg, acts);
    HistoryIsLog(cfg, acts, side, sid);
    HistoryIsLog(cfg, acts, W.Peer(side), sid);
    if At(w, side, sid).Some? {
      DatagramsInOrder(cfg, acts, sid, side);
    }
  }

  /** A `write` on a stream session with no other `write` under way takes the data exactly when the link is up and the
      write side is not done; then it is all on the wire or in the call, behind what was there. */
  lemma {:induction false} WriteTakesExactly(cfg: W.Config, acts: seq<W.Act>, side: W.Side, sid: U64, data: Bytes)
    requires var s := At(After(cfg, acts), side, sid); s.Some? && !s.value.udp && s.value.writing == [] && data != []
    ensures var w, w' := After(cfg, acts), After(cfg, acts + [W.Use(side, sid, BeginWrite(data))]);
            var s, s' := At(w, side, sid).value, At(w', side, sid);
            s'.Some? &&
            (s'.value.accepted == s.accepted + data <==> !W.EndOf(w, side).closed && !WriteSideDone(s.phase)) &&
            (s'.value.accepted != s.accepted + data ==> s'.value == s) &&
            (!W.EndOf(w, side).closed && !WriteSideDone(s.phase) ==> s'.value.sent + s'.value.writing == s.sent + data)
  {
    hide W.Run;
    var w, a := After(cfg, acts), W.Use(side, sid, BeginWrite(data));
    AfterSnoc(cfg, acts, a);
    var s := At(w, side, sid).value;
    assert |s.accepted + data| > |s.accepted|;
  }

  // ---------------- closing calls ----------------

  lemma {:induction false} KnowsItsId(cfg: W.Config, acts: seq<W.Act>, side: W.Side, sid: U64)
    requires At(After(cfg, acts), side, sid).Some?
    ensures At(After(cfg, acts), side, sid).value.sid == sid
  {
    hide W.Run;
    RunRoles(cfg, acts);
  }

  /** `shutdownWrite` on a link that is up: the write side is done, the read side as before, and a CLOSE is queued exactly
      when the write side was not done already. */
  lemma {:induction false} ShutdownTakesEffect(cfg: W.Config, acts: seq<W.Act>, side: W.Side, sid: U64)
    requires var w := After(cfg, acts); At(w, side, sid).Some? && !W.EndOf(w, side).closed
    ensures var w, w' := After(cfg, acts), After(cfg, acts + [W.Use(side, sid, ShutdownWrite)]);
            var s, s' := At(w, side, sid).value, At(w', side, sid);
            s'.Some? && WriteSideDone(s'.value.phase) && (ReadSideDone(s'.value.phase) <==> ReadSideDone(s.phase)) &&
            W.EndOf(w', side).out == W.EndOf(w, side).out + (if WriteSideDone(s.phase) then [] else [Close(sid, [])])
  {
    hide W.Run;
    AfterSnoc(cfg, acts, W.Use(side, sid, ShutdownWrite));
    KnowsItsId(cfg, acts, side, sid);
    var e := W.EndOf(After(cfg, acts), side);
    assert e.out + [] == e.out;
  }

  /** `close` on a link that is up, once its coroutine has run: the session is Closed and out of the table, and a CLOSE is
      queued exactly when the session was not Closed already or an earlier `close` still owed one. */
  lemma {:induction false} CloseTakesEffect(cfg: W.Config, acts: seq<W.Act>, side: W.Side, sid: U64)
    requires var w := After(cfg, acts); At(w, side, sid).Some? && !W.EndOf(w, side).closed
    ensures var w, w' := After(cfg, acts), After(cfg, acts + [W.Use(side, sid, CloseCall)] + [W.Use(side, sid, FlushClose)]);
            var s, s' := At(w, side, sid).value, At(w', side, sid);
            s'.Some? && s'.value.phase.Closed? && sid !in W.EndOf(w', side).table &&
            W.EndOf(w', side).out ==
              W.EndOf(w, side).out + (if s.phase.Closed? && !s.closeSpawned then [] else [Close(sid, [])])
  {
    hide W.Run;
    var close, flush := W.Use(side, sid, CloseCall), W.Use(side, sid, FlushClose);
    AfterSnoc(cfg, acts, close);
    AfterSnoc(cfg, acts + [close], flush);
    KnowsItsId(cfg, acts, side, sid);
    var e := W.EndOf(After(cfg, acts), side);
    assert e.out + [] == e.out;
    TableIsLiveSessions(cfg, acts + [close] + [flush], side);
  }

  /** In every run: once both users have called `shutdownWrite` or `close`, and no CLOSE is under way on links that are up,
      both ends are Closed and in neither table. */
  lemma {:induction false} BothCalledThenGone(cfg: W.Config, acts: seq<W.Act>, sid: U64)
    requires LinksOpen(After(cfg, acts)) && LogOf(cfg, acts, W.Client, sid).shut && LogOf(cfg, acts, W.Server, sid).shut
    requires var w := After(cfg, acts);
             (forall side :: At(w, side, sid).Some? ==> !At(w, side, sid).value.closeSpawned) &&
             Afloat(w, W.Client, sid).closes == 0 && Afloat(w, W.Server, sid).closes == 0
    ensures var w := After(cfg, acts);
            At(w, W.Client, sid).Some? && At(w, W.Server, sid).Some? &&
            At(w, W.Client, sid).value.phase.Closed? && At(w, W.Server, sid).value.phase.Closed? &&
            sid !in w.client.table && sid !in w.server.table
  {
    hide W.Run, LogOf, Afloat;
    HistoryIsLog(cfg, acts, W.Client, sid);
    HistoryIsLog(cfg, acts, W.Server, sid);
    BothShutThenGone(cfg, acts, sid);
  }
}
