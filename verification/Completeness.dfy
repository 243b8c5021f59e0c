/** Nothing goes missing on the way: arrived bytes and bytes under way are together all that was sent; and what happens
    to a reader whose read side is done. */
module Completeness {
  import opened Octets
  import opened ShineFrames
  import opened Addresses
  import opened SessionModel
  import opened LinkModel
  import opened Isolation
  import opened PairBase
  import opened Delivery
  import W = World

  // ---------------- all that was sent ----------------

  /** One direction, while both links are up and the reader's end has thrown nothing away. */
  predicate AllThere(x: Half, y: Half) {
    !x.closed && !y.closed && !y.lost ==> BytesOf(ViewOf(y)) + Payloads(x.out) == SentBy(x)
  }

  predicate Whole(p: Pair) {
    AllThere(p.client, p.server) && AllThere(p.server, p.client)
  }

  lemma {:induction false} UseAll(x: Half, y: Half, c: Call, maxChunk: nat)
    requires x.sess.Some? && AllThere(x, y) && AllThere(y, x)
    ensures AllThere(UseHalf(x, c, maxChunk), y) && AllThere(y, UseHalf(x, c, maxChunk))
  {
    hide Invoke, Payloads, Arrived;
    var s := x.sess.value;
    var eff := Invoke(s, c, maxChunk, !x.closed);
    InvokeStream(s, c, maxChunk, !x.closed);
    InvokeFrames(s, c, maxChunk, !x.closed);
    PayloadsInstall(x.out, eff.frames);
    var b, u := BytesOf(ViewOf(y)), Payloads(x.out);
    if eff.frames != [] && eff.frames[0].Data? {
      assert b + (u + eff.frames[0].payload) == b + u + eff.frames[0].payload;
    }
  }

  /** A frame at the reader: DATA joins what has arrived or is thrown away, and nothing else touches it. */
  lemma {:induction false} TakeArrived(y: Half, f: ShineFrame, server: bool, own: U32)
    ensures var y' := TakeFrame(y, f, server, own);
            y'.closed == y.closed && SentBy(y') == SentBy(y) && (y.lost ==> y'.lost) &&
            (!y'.lost ==> BytesOf(ViewOf(y')) == BytesOf(ViewOf(y)) + (if f.Data? then f.payload else []))
  {
    hide ParseBinary, OnFrame, Arrived;
    FreshArrived();
    var b := BytesOf(ViewOf(y));
    assert b + [] == b;
    if y.sess.Some? {
      OnFrameArrived(y.sess.value, f);
    }
  }

  lemma {:induction false} FreshArrived()
    ensures forall sid: U64, target: Address, udp: bool, credit: U32, window: U32 ::
              Arrived(Fresh(sid, target, udp, credit, window)) == []
  {
    FlattenNil();
  }

  lemma {:induction false} OnFrameArrived(s: Sess, f: ShineFrame)
    ensures var eff := OnFrame(s, f);
            eff.sess.sent == s.sent && (!eff.drop ==> Arrived(eff.sess) == Arrived(s) + (if f.Data? then f.payload else []))
  {
    hide ParseBinary, Flatten;
    assert Arrived(s) + [] == Arrived(s);
    if f.Data? {
      FlattenSnoc(s.inbox, f.payload);
      assert s.got + s.leftover + (Flatten(s.inbox) + f.payload) == Arrived(s) + f.payload;
    }
  }

  lemma {:induction false} TakeAll(y: Half, x: Half, server: bool, own: U32)
    requires x.out != [] && !y.closed && AllThere(x, y) && AllThere(y, x)
    ensures var y' := TakeFrame(y, x.out[0], server, own);
            AllThere(Pop(x), y') && AllThere(y', Pop(x))
  {
    hide TakeFrame, Payloads, Arrived;
    var f := x.out[0];
    var y' := TakeFrame(y, f, server, own);
    TakeArrived(y, f, server, own);
    TakePosts(y, f, server, own);
    PayloadsPop(x.out);
    var b, first, rest := BytesOf(ViewOf(y)), if f.Data? then f.payload else [], Payloads(x.out[1..]);
    assert b + (first + rest) == b + first + rest;
    if y'.out != y.out {
      PayloadsInstall(y.out, [y'.out[|y.out|]]);
    }
  }

  lemma {:induction false} OpenAll(c: Half, s: Half, sid: U64, target: Address, udp: bool, window: U32)
    requires AllThere(c, s) && AllThere(s, c)
    ensures var c' := OpenHalf(c, sid, target, udp, window); AllThere(c', s) && AllThere(s, c')
  {
    hide Payloads, ToBinary;
    PayloadsInstall(c.out, [if udp then NewUdp(sid) else New(sid, ToBinary(target), window)]);
    FlattenNil();
  }

  lemma {:induction false} NextWhole(p: Pair, m: Move)
    requires Whole(p)
    ensures Whole(Next(p, m))
  {
    hide AllThere;
    match m {
      case Idle =>
      case Use(side, c, maxChunk) =>
        hide UseHalf;
        var h, o := Of(p, side), Of(p, W.Peer(side));
        if h.sess.Some? {
          UseAll(h, o, c, maxChunk);
        } else {
          NoUse(h, c, maxChunk);
        }
      case Open(sid, target, udp, window) =>
        hide OpenHalf;
        OpenAll(p.client, p.server, sid, target, udp, window);
      case Take(side, window) =>
        hide TakeFrame;
        var h, from := Of(p, side), Of(p, W.Peer(side));
        if from.out != [] && !h.closed {
          TakeAll(h, from, side.Server?, window);
        }
      case Refuse(side) =>
        var h, from := Of(p, side), Of(p, W.Peer(side));
        DownAll(FailHalf(h.(lost := true)), from);
        if from.out != [] {
          DownAll(FailHalf(h.(lost := true)), Pop(from));
        }
      case Fail(side) => DownAll(FailHalf(Of(p, side)), Of(p, W.Peer(side)));
      case CloseNow(side) => DownAll(Of(p, side).(closed := true), Of(p, W.Peer(side)));
      case Cut(side, keep) =>
        var h, o := Of(p, side), Of(p, W.Peer(side));
        if (h.closed || o.closed) && keep <= |h.out| {
          var h' := h.(out := h.out[..keep], lost := h.lost || keep < |h.out|);
          DownAll(h', o);
          DownAll(o, h');
        }
    }
  }

  /** With a link down nothing is promised. */
  lemma {:induction false} DownAll(x: Half, y: Half)
    ensures x.closed || y.closed ==> AllThere(x, y) && AllThere(y, x)
  {
  }

  // ---------------- nothing is thrown away at a listening end ----------------

  predicate Listening(h: Half) {
    h.sess.Some? && h.listed && h.sess.value.receiving && !h.sess.value.udp
  }

  /** While both links are up: an end has thrown nothing away as long as it listens, or is about to be created. */
  predicate Unlost(p: Pair, t: Tally) {
    !p.client.closed && !p.server.closed ==>
      (p.client.sess.None? ==> !p.client.lost && !p.server.lost) &&
      (p.server.sess.None? && t.news > 0 ==> !p.server.lost) &&
      (Listening(p.client) ==> !p.client.lost) && (Listening(p.server) ==> !p.server.lost)
  }

  lemma {:induction false} UseListening(h: Half, c: Call, maxChunk: nat)
    ensures var h' := UseHalf(h, c, maxChunk);
            h'.closed == h.closed && (h'.sess.Some? <==> h.sess.Some?) && (Listening(h') ==> Listening(h)) && (!h.closed ==> h'.lost == h.lost)
    ensures Count(UseHalf(h, c, maxChunk).out).news == Count(h.out).news
  {
    hide Invoke, Count;
    if h.sess.Some? {
      CallTouches(h.sess.value, c, maxChunk, !h.closed);
      CountInstall(h.out, Invoke(h.sess.value, c, maxChunk, !h.closed).frames);
    }
  }

  lemma {:induction false} TakeListening(h: Half, f: ShineFrame, server: bool, own: U32)
    requires !h.closed
    ensures var h' := TakeFrame(h, f, server, own);
            h'.closed == h.closed && (h.sess.Some? ==> h'.sess.Some?) && (h'.lost ==> h.lost || !(f.New? || f.NewUdp?)) &&
            (h'.sess.Some? && h.sess.None? ==> f.New? || f.NewUdp?) &&
            (Listening(h') && h.sess.Some? ==> Listening(h)) && (Listening(h) && h'.lost ==> h.lost)
  {
    hide ParseBinary;
  }

  lemma {:induction false} TakeUnlost(p: Pair, side: W.Side, x: Ctx)
    requires Base(p, x) && Unlost(p, Count(p.client.out)) && Of(p, W.Peer(side)).out != [] && !Of(p, side).closed
    ensures var p' := Next(p, Move.Take(side, WindowOf(side, x))); Unlost(p', Count(p'.client.out))
  {
    hide Count, OwnFrames, SessOk, Untouched, TakeFrame, Listening;
    var h, from := Of(p, side), Of(p, W.Peer(side));
    TakeListening(h, from.out[0], side.Server?, WindowOf(side, x));
    CountPop(from.out);
    NotListening(p.client);
    NotListening(p.server);
    SameListening(from, Pop(from));
    NotListening(TakeFrame(h, from.out[0], side.Server?, WindowOf(side, x)));
    if side.Client? {
      TakeAtClient(h, from.out[0], x.clientWindow);
    }
  }

  lemma {:induction false} NotListening(h: Half)
    ensures Listening(h) ==> h.sess.Some?
  {
  }

  lemma {:induction false} SameListening(h: Half, h': Half)
    requires h'.sess == h.sess && h'.listed == h.listed
    ensures Listening(h') <==> Listening(h)
  {
  }

  lemma {:induction false} NextUnlost(p: Pair, m: Move, x: Ctx)
    requires Base(p, x) && Unlost(p, Count(p.client.out)) && Legit(m, x)
    ensures Unlost(Next(p, m), Count(Next(p, m).client.out))
  {
    hide Count, OwnFrames, SessOk, Untouched, TakeFrame, UseHalf;
    match m {
      case Use(side, c, maxChunk) =>
        hide Listening;
        UseListening(Of(p, side), c, maxChunk);
      case Open(sid, target, udp, window) =>
        hide ToBinary;
      case Take(side, window) =>
        if Of(p, W.Peer(side)).out != [] && !Of(p, side).closed {
          TakeUnlost(p, side, x);
        }
      case _ =>
    }
  }

  // ---------------- no empty payloads ----------------

  predicate NoBlanks(inbox: seq<Bytes>) {
    forall i :: 0 <= i < |inbox| ==> inbox[i] != []
  }

  predicate Filled(h: Half) {
    h.sess.Some? ==> NoBlanks(h.sess.value.inbox)
  }

  lemma {:induction false} FlattenFilled(inbox: seq<Bytes>)
    requires NoBlanks(inbox)
    ensures Flatten(inbox) == [] <==> inbox == []
  {
  }

  /** A call leaves the inbox alone or takes its head. */
  lemma {:induction false} InvokeInbox(s: Sess, c: Call, maxChunk: nat, linkOpen: bool)
    ensures var inbox := Invoke(s, c, maxChunk, linkOpen).sess.inbox;
            inbox == s.inbox || (s.inbox != [] && inbox == s.inbox[1..])
  {
    hide SendChunk, StartWrite, Shutdown, CloseBoth, Flush, SendDatagram, TakeDatagram;
    CallTouches(s, c, maxChunk, linkOpen);
  }

  lemma {:induction false} TakeFilled(h: Half, f: ShineFrame, server: bool, own: U32)
    requires Filled(h)
    ensures Filled(TakeFrame(h, f, server, own))
  {
    hide ParseBinary;
  }

  lemma {:induction false} NextFilled(p: Pair, m: Move)
    requires Filled(p.client) && Filled(p.server)
    ensures Filled(Next(p, m).client) && Filled(Next(p, m).server)
  {
    match m {
      case Use(side, c, maxChunk) =>
        hide Invoke;
        var h := Of(p, side);
        if h.sess.Some? {
          InvokeInbox(h.sess.value, c, maxChunk, !h.closed);
        }
      case Take(side, window) =>
        hide TakeFrame;
        var h, from := Of(p, side), Of(p, W.Peer(side));
        if from.out != [] {
          TakeFilled(h, from.out[0], side.Server?, window);
        }
      case _ =>
    }
  }

  // ---------------- after the read side is done ----------------

  /** The inbox is never touched again, and only the leftover is still handed out. */
  predicate Frozen(s: Sess, s': Sess) {
    ReadSideDone(s'.phase) && s'.inbox == s.inbox && s.got <= s'.got && s'.got + s'.leftover == s.got + s.leftover
  }

  lemma {:induction false} FrozenTwice(s: Sess, s': Sess, s'': Sess)
    requires Frozen(s, s') && Frozen(s', s'')
    ensures Frozen(s, s'')
  {
  }

  lemma {:induction false} UseFrozen(s: Sess, c: Call, maxChunk: nat, linkOpen: bool)
    requires ReadSideDone(s.phase)
    ensures Frozen(s, Invoke(s, c, maxChunk, linkOpen).sess)
  {
    hide ReadCall, SendChunk, StartWrite, SendDatagram, TakeDatagram;
    CallTouches(s, c, maxChunk, linkOpen);
    if c.Read? {
      ReadFrozen(s, c.room, linkOpen);
    }
  }

  lemma {:induction false} ReadFrozen(s: Sess, room: nat, linkOpen: bool)
    requires ReadSideDone(s.phase)
    ensures Frozen(s, ReadCall(s, room, linkOpen).sess)
  {
    if s.leftover != [] {
      var n := Min(room, |s.leftover|);
      assert s.got + s.leftover[..n] + s.leftover[n..] == s.got + s.leftover;
    }
  }

  lemma {:induction false} TakeFrozen(h: Half, f: ShineFrame, server: bool, own: U32)
    requires h.sess.Some? && ReadSideDone(h.sess.value.phase) && !h.sess.value.receiving
    ensures var h' := TakeFrame(h, f, server, own); h'.sess.Some? && Frozen(h.sess.value, h'.sess.value)
  {
    hide ParseBinary;
  }

  lemma {:induction false} SameFrozen(h: Half)
    requires h.sess.Some? && ReadSideDone(h.sess.value.phase)
    ensures Frozen(h.sess.value, h.sess.value) && FailHalf(h).sess.Some? && Frozen(h.sess.value, FailHalf(h).sess.value)
  {
  }

  lemma {:induction false} NextFrozen(p: Pair, m: Move, x: Ctx, side: W.Side)
    requires SessOk(Of(p, side), WindowOf(side, x), x.sid) && Of(p, side).sess.Some?
    requires ReadSideDone(Of(p, side).sess.value.phase)
    ensures var h' := Of(Next(p, m), side); h'.sess.Some? && Frozen(Of(p, side).sess.value, h'.sess.value)
  {
    hide Frozen, Invoke, TakeFrame, FailHalf, OpenHalf;
    var h, o := Of(p, side), Of(p, W.Peer(side));
    SameFrozen(h);
    match m {
      case Use(s, c, maxChunk) =>
        if s == side {
          UseFrozen(h.sess.value, c, maxChunk, !h.closed);
        }
      case Open(id, target, udp, window) =>
        if side.Client? {
          NoReopen(h, id, target, udp, window);
        }
      case Take(s, window) =>
        if s == side && o.out != [] {
          TakeFrozen(h, o.out[0], s.Server?, window);
        }
      case Refuse(s) => SameFrozen(h.(lost := true));
      case _ =>
    }
  }
}
