/** Where datagrams go: every one that was sent is received, queued, under way or was turned away, and which. */
module DatagramCount {
  import opened Octets
  import opened ShineFrames
  import opened Addresses
  import opened SessionModel
  import opened LinkModel
  import opened Isolation
  import opened PairBase
  import opened Datagrams
  import opened Guarantees
  import opened CallLog
  import W = World

  /** Datagrams that an end has taken or that are on their way to it. */
  function Total(x: Half, y: Half): nat {
    |ArrivedAt(y)| + |UnderWay(x.out)|
  }

  /** A datagram that parses finds no session, a closed one or a full queue. */
  predicate Refuses(y: Half, f: ShineFrame) {
    f.UdpData? && ParseBinary(f.addrBlob).Ok? &&
    !(y.listed && y.sess.Some? && y.sess.value.udp && y.sess.value.receiving && |y.sess.value.udpInbox| < 1024)
  }

  function Turned(p: Pair, m: Move, side: W.Side): nat {
    var y, x := Of(p, side), Of(p, W.Peer(side));
    if m.Take? && m.side == side && x.out != [] && !y.closed && Refuses(y, x.out[0]) then 1 else 0
  }

  // ---------------- one move ----------------

  lemma {:induction false} TakeCounts(y: Half, f: ShineFrame, server: bool, own: U32)
    ensures var y' := TakeFrame(y, f, server, own);
            |ArrivedAt(y')| + (if Refuses(y, f) then 1 else 0) == |ArrivedAt(y)| + |Datagrams.Decoded(f)|
  {
    hide ParseBinary;
  }

  lemma {:induction false} UseCounts(h: Half, c: Call, maxChunk: nat)
    ensures var h' := UseHalf(h, c, maxChunk);
            ArrivedAt(h') == ArrivedAt(h) && h'.closed == h.closed &&
            |UnderWay(h'.out)| - |CarryAll(SentFrom(h'))| == |UnderWay(h.out)| - |CarryAll(SentFrom(h))|
  {
    hide Invoke, CarryAll, UnderWay, Datagrams.Decoded;
    if h.sess.Some? {
      InvokeDatagrams(h.sess.value, c, maxChunk, !h.closed);
      UnderWayInstall(h.out, Invoke(h.sess.value, c, maxChunk, !h.closed).frames);
    }
  }

  lemma {:induction false} OpenCounts(h: Half, sid: U64, target: Address, udp: bool, window: U32)
    ensures var h' := OpenHalf(h, sid, target, udp, window);
            ArrivedAt(h') == ArrivedAt(h) && SentFrom(h') == SentFrom(h) && UnderWay(h'.out) == UnderWay(h.out)
  {
    hide UnderWay, ToBinary;
    UnderWayInstall(h.out, [if udp then NewUdp(sid) else New(sid, ToBinary(target), window)]);
  }

  lemma {:induction false} UnderWayPop(out: seq<ShineFrame>)
    requires out != []
    ensures UnderWay(out) == Datagrams.Decoded(out[0]) + UnderWay(out[1..])
  {
  }

  predicate Up(p: Pair) {
    !p.client.closed && !p.server.closed
  }

  /** As long as both links stay up, a move turns away exactly as many datagrams as are missing after it. */
  lemma {:induction false} NextCounts(p: Pair, m: Move, side: W.Side)
    requires Up(p) && Up(Next(p, m))
    ensures var p' := Next(p, m);
            var x, y, x', y' := Of(p, W.Peer(side)), Of(p, side), Of(p', W.Peer(side)), Of(p', side);
            |CarryAll(SentFrom(x'))| - Total(x', y') == |CarryAll(SentFrom(x))| - Total(x, y) + Turned(p, m, side)
  {
    hide UseHalf, TakeFrame, OpenHalf, UnderWay, CarryAll, ArrivedAt, SentFrom, Refuses, Datagrams.Decoded;
    match m {
      case Use(s, c, maxChunk) => UseCounts(Of(p, s), c, maxChunk);
      case Open(id, target, udp, window) => OpenCounts(p.client, id, target, udp, window);
      case Take(s, window) =>
        var from := Of(p, W.Peer(s));
        if from.out != [] {
          TakeCounts(Of(p, s), from.out[0], s.Server?, window);
          TakeArrives(Of(p, s), from.out[0], s.Server?, window);
          SameHalf(from);
          UnderWayPop(from.out);
        }
      case _ =>
    }
  }

  // ---------------- runs ----------------

  /** The act hands an end a datagram of this session that parses and is not accepted. */
  predicate TurnsAway(w: W.World, a: W.Act, sid: U64, side: W.Side) {
    a.Deliver? && a.side == side && W.CanDeliver(w, side) && W.EndOf(w, side).stage.Ready? &&
    var f := W.EndOf(w, W.Peer(side)).out[0];
    f.UdpData? && f.sid == sid && ParseBinary(f.addrBlob).Ok? && !Accepts(W.EndOf(w, side), f)
  }

  /** How many datagrams of a session an end has turned away in a run. */
  function TurnedAway(cfg: W.Config, acts: seq<W.Act>, sid: U64, side: W.Side): nat {
    if acts == [] then 0
    else
      var front := acts[..|acts| - 1];
      TurnedAway(cfg, front, sid, side) + (if TurnsAway(After(cfg, front), acts[|acts| - 1], sid, side) then 1 else 0)
  }

  lemma {:induction false} TurnSeen(w: W.World, a: W.Act, sid: U64, side: W.Side)
    requires Roles(w)
    ensures Turned(PairOf(w, sid), MoveOf(w, a, sid), side) == if TurnsAway(w, a, sid, side) then 1 else 0
  {
    hide Keep, Receive, ParseBinary, LinkModel.Beat, Blocked;
    if a.Deliver? && W.CanDeliver(w, a.side) {
      PopSeen(W.EndOf(w, W.Peer(a.side)), sid);
    }
  }

  lemma {:induction false} StayedUp(w: W.World, a: W.Act)
    requires LinksOpen(W.Step(w, a))
    ensures LinksOpen(w)
  {
    hide OnFrame, Invoke, ParseBinary;
  }

  /** Sent = received + queued + under way + turned away, in numbers. */
  lemma {:induction false} CountsAgree(cfg: W.Config, acts: seq<W.Act>, sid: U64, side: W.Side)
    requires LinksOpen(After(cfg, acts))
    ensures var p := PairOf(After(cfg, acts), sid);
            Total(Of(p, W.Peer(side)), Of(p, side)) + TurnedAway(cfg, acts, sid, side) ==
            |CarryAll(SentFrom(Of(p, W.Peer(side))))|
  {
    hide Total, CarryAll, W.Step, MoveOf, Next, TurnsAway, PairOf, Turned;
    if acts == [] {
      SessionsAreIsolated(cfg, [], sid);
      assert MovesOf(cfg, [], sid) == [];
      StartCounts(side);
    } else {
      var front, a := acts[..|acts| - 1], acts[|acts| - 1];
      var w := After(cfg, front);
      StayedUp(w, a);
      CountsAgree(cfg, front, sid, side);
      RunRoles(cfg, front);
      StepSeen(w, a, sid);
      TurnSeen(w, a, sid, side);
      UpSeen(w, sid);
      UpSeen(After(cfg, acts), sid);
      NextCounts(PairOf(w, sid), MoveOf(w, a, sid), side);
    }
  }

  lemma {:induction false} UpSeen(w: W.World, sid: U64)
    ensures Up(PairOf(w, sid)) <==> LinksOpen(w)
  {
    hide Keep;
  }

  lemma {:induction false} StartCounts(side: W.Side)
    ensures Total(Of(EMPTY, W.Peer(side)), Of(EMPTY, side)) == 0 && |CarryAll(SentFrom(Of(EMPTY, W.Peer(side))))| == 0
  {
  }

  lemma {:induction false} SubseqWhole(a: Datas, b: Datas)
    requires IsSubseq(a, b)
    ensures |a| <= |b| && (|a| == |b| ==> a == b)
    decreases |b|
  {
    if a != [] {
      if IsSubseq(a, b[1..]) {
        SubseqWhole(a, b[1..]);
      } else {
        SubseqWhole(a[1..], b[1..]);
        assert a == [a[0]] + a[1..] && b == [b[0]] + b[1..];
      }
    }
  }

  /** In every run, on links that are up: of the datagrams that `sendTo` has let in at one end, as the wire format carries
      them, those that `receiveFrom` has returned at the other, those in its queue and those under way are, in this order,
      all of them exactly when none was turned away; and as many are missing as were turned away. */
  lemma {:induction false} NoneMissingExactly(cfg: W.Config, acts: seq<W.Act>, sid: U64, side: W.Side)
    requires LinksOpen(After(cfg, acts))
    ensures var w := After(cfg, acts);
            var sent := CarryAll(LogOf(cfg, acts, W.Peer(side), sid).sentTo);
            var queued := if At(w, side, sid).Some? then At(w, side, sid).value.udpInbox else [];
            var there := LogOf(cfg, acts, side, sid).received + queued + UnderWay(Keep(W.EndOf(w, W.Peer(side)).out, sid));
            |there| + TurnedAway(cfg, acts, sid, side) == |sent| && (there == sent <==> TurnedAway(cfg, acts, sid, side) == 0)
  {
    hide W.Run, LogOf, CarryAll, UnderWay, Keep, IsSubseq, Sound, TurnedAway;
    HistoryIsLog(cfg, acts, side, sid);
    HistoryIsLog(cfg, acts, W.Peer(side), sid);
    CountsAgree(cfg, acts, sid, side);
    RunSound(cfg, acts, sid);
    var p := PairOf(After(cfg, acts), sid);
    SoundFaithful(p, CtxOf(cfg, sid), side);
    var x, y := Of(p, W.Peer(side)), Of(p, side);
    SubseqWhole(ArrivedAt(y) + UnderWay(x.out), CarryAll(SentFrom(x)));
  }
}
