/** Flow control as book-keeping: what happens to every byte of the window that NEW carries. */
module Credit {
  import opened Octets
  import opened ShineFrames
  import opened Addresses
  import opened SessionModel
  import opened LinkModel
  import opened Isolation
  import opened PairBase
  import W = World

  /** Bytes that a receiver has taken from the wire and not yet given back as credit. */
  function Held(s: Sess): nat {
    |Flatten(s.inbox)| + |s.leftover| + s.unacked
  }

  function HeldBy(h: Half): nat {
    match h.sess
    case None => 0
    case Some(s) => Held(s)
  }

  /** Sender's credit, DATA under way, bytes held by the receiver, and WINDOW credit on its way back. */
  function Balance(x: Half, y: Half): int
    requires x.sess.Some?
  {
    x.sess.value.credit + Count(x.out).data + HeldBy(y) + Count(y.out).credit
  }

  /** The books of one direction: nothing overdrawn, never more than the window, and exactly the window as long as
      no frame of the session has been thrown away. */
  predicate Balanced(x: Half, y: Half, window: U32) {
    x.sess.Some? && !x.sess.value.udp ==>
      0 <= x.sess.value.credit && Balance(x, y) <= window && (!x.lost && !y.lost ==> Balance(x, y) == window)
  }

  predicate Ledger(p: Pair, x: Ctx) {
    Balanced(p.client, p.server, x.clientWindow) && Balanced(p.server, p.client, x.clientWindow)
  }

  // ---------------- one end ----------------

  function Posted(fs: seq<ShineFrame>): Tally {
    if fs == [] then NOTHING else Weigh(fs[0])
  }

  /** Calls move bytes between the sender's credit and the wire, and between what is held and WINDOW frames. */
  lemma {:induction false} InvokeBooks(s: Sess, c: Call, maxChunk: nat, linkOpen: bool)
    requires 0 <= s.credit && Held(s) < U32_LIMIT
    ensures var eff := Invoke(s, c, maxChunk, linkOpen);
            var t := Posted(eff.frames);
            0 <= eff.sess.credit && eff.sess.credit + t.data <= s.credit &&
            (!eff.drop ==> eff.sess.credit + t.data == s.credit) &&
            Held(eff.sess) + t.credit == Held(s)
  {
    hide ReadCall, SendChunk, StartWrite, Shutdown, CloseBoth, Flush, SendDatagram, TakeDatagram, Flatten;
    CallTouches(s, c, maxChunk, linkOpen);
    match c {
      case Read(room) => ReadBooks(s, room, linkOpen);
      case WriteChunk => ChunkBooks(s, maxChunk, linkOpen);
      case _ =>
    }
  }

  lemma {:induction false} ReadBooks(s: Sess, room: nat, linkOpen: bool)
    requires Held(s) < U32_LIMIT
    ensures var eff := ReadCall(s, room, linkOpen);
            eff.sess.credit == s.credit && Posted(eff.frames).data == 0 && !eff.drop &&
            Held(eff.sess) + Posted(eff.frames).credit == Held(s)
  {
    hide Consumed, Flatten;
    if s.leftover != [] {
      ConsumedBooks(s, s.leftover, room, s.inbox, linkOpen);
    } else if s.inbox != [] {
      FlattenHead(s.inbox);
      ConsumedBooks(s, s.inbox[0], room, s.inbox[1..], linkOpen);
    }
  }

  lemma {:induction false} ChunkBooks(s: Sess, maxChunk: nat, linkOpen: bool)
    requires 0 <= s.credit
    ensures var eff := SendChunk(s, maxChunk, linkOpen);
            var t := Posted(eff.frames);
            0 <= eff.sess.credit && eff.sess.credit + t.data <= s.credit &&
            (!eff.drop ==> eff.sess.credit + t.data == s.credit) &&
            Held(eff.sess) == Held(s) && t.credit == 0
  {
    hide Flatten;
  }

  lemma {:induction false} FlattenHead(inbox: seq<Bytes>)
    requires inbox != []
    ensures |Flatten(inbox)| == |inbox[0]| + |Flatten(inbox[1..])|
  {
  }

  lemma {:induction false} ConsumedBooks(s: Sess, payload: Bytes, room: nat, inbox: seq<Bytes>, linkOpen: bool)
    requires |Flatten(inbox)| + |payload| + s.unacked < U32_LIMIT
    ensures var eff := Consumed(s, payload, room, inbox, linkOpen);
            eff.sess.credit == s.credit && Posted(eff.frames).data == 0 && !eff.drop &&
            Held(eff.sess) + Posted(eff.frames).credit == |Flatten(inbox)| + |payload| + s.unacked
  {
    hide Flatten;
    var n := Min(room, |payload|);
    assert (s.unacked + n) % U32_LIMIT == s.unacked + n;
  }

  lemma {:induction false} OnFrameBooks(s: Sess, f: ShineFrame)
    ensures var eff := OnFrame(s, f);
            eff.sess.credit == s.credit + Weigh(f).credit && Held(s) <= Held(eff.sess) <= Held(s) + Weigh(f).data &&
            (!eff.drop ==> Held(eff.sess) == Held(s) + Weigh(f).data)
  {
    hide ParseBinary;
    if f.Data? {
      FlattenSnoc(s.inbox, f.payload);
    }
    hide Flatten;
  }

  // ---------------- moves ----------------

  /** The receiver never holds more than the window, so the 32-bit counter cannot wrap. */
  lemma {:induction false} HeldBound(x: Half, y: Half, window: U32)
    requires x.sess.Some? && !x.sess.value.udp && Balanced(x, y, window)
    ensures HeldBy(y) <= window
  {
  }

  lemma {:induction false} UseBooks(x: Half, y: Half, c: Call, maxChunk: nat, window: U32)
    requires x.sess.Some? && !x.sess.value.udp && Balanced(x, y, window) && Held(x.sess.value) < U32_LIMIT
    requires y.sess.Some? ==> !y.sess.value.udp && Balanced(y, x, window)
    ensures Balanced(UseHalf(x, c, maxChunk), y, window)
    ensures y.sess.Some? ==> Balanced(y, UseHalf(x, c, maxChunk), window)
  {
    hide Invoke, Count, Held;
    var eff := Invoke(x.sess.value, c, maxChunk, !x.closed);
    InvokeBooks(x.sess.value, c, maxChunk, !x.closed);
    InvokeFrames(x.sess.value, c, maxChunk, !x.closed);
    InvokeUdp(x.sess.value, c, maxChunk, !x.closed);
    CountInstall(x.out, eff.frames);
  }

  lemma {:induction false} InvokeUdp(s: Sess, c: Call, maxChunk: nat, linkOpen: bool)
    ensures Invoke(s, c, maxChunk, linkOpen).sess.udp == s.udp
  {
    hide Invoke;
    CallTouches(s, c, maxChunk, linkOpen);
  }

  /** An idle UDP or absent session keeps no books. */
  predicate Keeps(h: Half) {
    h.sess.Some? && !h.sess.value.udp
  }

  lemma {:induction false} UseLedger(p: Pair, side: W.Side, c: Call, maxChunk: nat, x: Ctx)
    requires Base(p, x) && Ledger(p, x)
    ensures Ledger(Next(p, Move.Use(side, c, maxChunk)), x)
  {
    hide Balanced, Count, Held, OwnFrames, Invoke, SessOk;
    var h, o := Of(p, side), Of(p, W.Peer(side));
    if Keeps(h) {
      if o.sess.Some? {
        HeldBound(o, h, x.clientWindow);
      } else {
        UntouchedHeld(h);
      }
      UseBooks(h, o, c, maxChunk, x.clientWindow);
      if o.sess.None? {
        NoBooks(o, UseHalf(h, c, maxChunk), x.clientWindow);
      }
    } else {
      if h.sess.Some? {
        InvokeUdp(h.sess.value, c, maxChunk, !h.closed);
      }
      NoBooks(UseHalf(h, c, maxChunk), o, x.clientWindow);
      NoBooksEither(o, h, UseHalf(h, c, maxChunk), x.clientWindow);
    }
  }

  lemma {:induction false} UntouchedHeld(h: Half)
    requires h.sess.Some? && Untouched(h.sess.value)
    ensures Held(h.sess.value) == 0
  {
  }

  lemma {:induction false} NoBooks(h: Half, o: Half, window: U32)
    requires !Keeps(h)
    ensures Balanced(h, o, window)
  {
  }

  /** Where one end is absent, or UDP, the other end's books see no change in it. */
  lemma {:induction false} NoBooksEither(o: Half, h: Half, h': Half, window: U32)
    requires Balanced(o, h, window)
    requires (h.sess.None? && h' == h) || !Keeps(o)
    ensures Balanced(o, h', window)
  {
  }

  lemma {:induction false} TakeBooks(y: Half, x: Half, f: ShineFrame, server: bool, own: U32, window: U32)
    requires y.sess.Some? && !y.closed && x.out != [] && x.out[0] == f && !f.New? && !f.NewUdp?
    requires Balanced(x, y, window) && Balanced(y, x, window)
    ensures Balanced(Pop(x), TakeFrame(y, f, server, own), window)
    ensures Balanced(TakeFrame(y, f, server, own), Pop(x), window)
  {
    hide OnFrame, Count, Held;
    CountPop(x.out);
    OnFrameBooks(y.sess.value, f);
    OnFrameTagged(y.sess.value, f);
    OnFrameUdp(y.sess.value, f);
    assert y.out + [] == y.out;
  }

  lemma {:induction false} OnFrameUdp(s: Sess, f: ShineFrame)
    ensures OnFrame(s, f).sess.udp == s.udp
  {
    hide ParseBinary;
  }

  /** The server's end is born with the credit that NEW brings, and with nothing held. */
  lemma {:induction false} AcceptBooks(p: Pair, x: Ctx)
    requires Base(p, x) && Ledger(p, x) && p.client.out != [] && !p.server.closed
    requires p.client.out[0].New? || p.client.out[0].NewUdp?
    ensures var s' := TakeFrame(p.server, p.client.out[0], true, x.serverWindow);
            Balanced(Pop(p.client), s', x.clientWindow) && Balanced(s', Pop(p.client), x.clientWindow)
  {
    hide Count, ParseBinary, OwnFrames;
    CountPop(p.client.out);
    CountSnoc(p.server.out, Reset(x.sid));
    CountSnoc(p.server.out, Ack(x.sid));
    assert p.server.sess.None?;
    OwnHead(p.client.out, x.sid);
    assert Flatten([]) == [];
    hide Flatten;
  }

  lemma {:induction false} TakeLedger(p: Pair, side: W.Side, x: Ctx)
    requires Base(p, x) && Ledger(p, x)
    ensures Ledger(Next(p, Move.Take(side, WindowOf(side, x))), x)
  {
    hide Balanced, Count, OwnFrames, TakeFrame, ParseBinary;
    var h, from := Of(p, side), Of(p, W.Peer(side));
    if from.out != [] && !h.closed {
      var f := from.out[0];
      if f.New? || f.NewUdp? {
        NewAtServer(p, side, x);
        AcceptBooks(p, x);
      } else if h.sess.Some? {
        TakeBooks(h, from, f, side.Server?, WindowOf(side, x), x.clientWindow);
      } else {
        TakeNothing(h, from, f, side.Server?, WindowOf(side, x), x.clientWindow);
      }
    }
  }

  lemma {:induction false} NewAtServer(p: Pair, side: W.Side, x: Ctx)
    requires Base(p, x) && Of(p, W.Peer(side)).out != []
    requires Of(p, W.Peer(side)).out[0].New? || Of(p, W.Peer(side)).out[0].NewUdp?
    ensures side.Server?
  {
    hide Count, OwnFrames;
    CountPop(p.server.out);
  }

  lemma {:induction false} TakeNothing(y: Half, x: Half, f: ShineFrame, server: bool, own: U32, window: U32)
    requires y.sess.None? && x.out != [] && x.out[0] == f && !f.New? && !f.NewUdp? && Balanced(x, y, window)
    ensures Balanced(Pop(x), TakeFrame(y, f, server, own), window)
    ensures Balanced(TakeFrame(y, f, server, own), Pop(x), window)
  {
    hide Count;
    CountPop(x.out);
  }

  lemma {:induction false} CutBooks(x: Half, y: Half, keep: nat, window: U32)
    requires Balanced(x, y, window) && Balanced(y, x, window) && keep <= |x.out|
    ensures var x' := x.(out := x.out[..keep], lost := x.lost || keep < |x.out|);
            Balanced(x', y, window) && Balanced(y, x', window)
  {
    hide Count, Held;
    CountPrefix(x.out, keep);
    if keep == |x.out| {
      assert x.out[..keep] == x.out;
    }
  }

  lemma {:induction false} FailBooks(x: Half, y: Half, window: U32)
    requires Balanced(x, y, window) && Balanced(y, x, window)
    ensures Balanced(FailHalf(x), y, window) && Balanced(y, FailHalf(x), window)
    ensures Balanced(FailHalf(x.(lost := true)), y, window) && Balanced(y, FailHalf(x.(lost := true)), window)
    ensures Balanced(x.(closed := true), y, window) && Balanced(y, x.(closed := true), window)
  {
    hide Count;
  }

  lemma {:induction false} RefuseBooks(x: Half, y: Half, window: U32)
    requires Balanced(x, y, window) && Balanced(y, x, window) && x.out != []
    ensures Balanced(Pop(x), y.(lost := true), window) && Balanced(y.(lost := true), Pop(x), window)
  {
    hide Count, Held;
    CountPop(x.out);
  }

  lemma {:induction false} OpenLedger(p: Pair, target: Address, udp: bool, x: Ctx)
    requires Base(p, x) && Ledger(p, x)
    ensures Ledger(Next(p, Move.Open(x.sid, target, udp, x.clientWindow)), x)
  {
    hide Count, ToBinary, OwnFrames;
    var c := p.client;
    if !c.closed && c.sess.None? {
      var f := if udp then NewUdp(x.sid) else New(x.sid, ToBinary(target), x.clientWindow);
      assert c.out + [f] == [f];
      CountOne(f);
      CountPop(p.server.out);
    }
  }

  /** Conservation: every move keeps the books. */
  lemma {:induction false} NextLedger(p: Pair, m: Move, x: Ctx)
    requires Base(p, x) && Ledger(p, x) && Legit(m, x)
    ensures Ledger(Next(p, m), x)
  {
    match m {
      case Idle =>
      case Use(side, c, maxChunk) => UseLedger(p, side, c, maxChunk, x);
      case Open(sid, target, udp, window) => OpenLedger(p, target, udp, x);
      case Take(side, window) => TakeLedger(p, side, x);
      case Refuse(side) =>
        hide Balanced;
        var h, from := Of(p, side), Of(p, W.Peer(side));
        if from.out != [] && !h.closed {
          RefuseBooks(from, h, x.clientWindow);
          FailBooks(h.(lost := true), Pop(from), x.clientWindow);
        }
      case Fail(side) =>
        hide Balanced;
        FailBooks(Of(p, side), Of(p, W.Peer(side)), x.clientWindow);
      case CloseNow(side) =>
        hide Balanced;
        FailBooks(Of(p, side), Of(p, W.Peer(side)), x.clientWindow);
      case Cut(side, keep) =>
        hide Balanced;
        if keep <= |Of(p, side).out| {
          CutBooks(Of(p, side), Of(p, W.Peer(side)), keep, x.clientWindow);
        }
    }
  }
}
