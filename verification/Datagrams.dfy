/** UDP sessions: datagrams may be dropped, but never reordered, duplicated, altered or invented. */
module Datagrams {
  import opened Octets
  import opened ShineFrames
  import opened Addresses
  import opened SessionModel
  import opened LinkModel
  import opened Isolation
  import opened PairBase
  import W = World

  type Datas = seq<Datagram>

  // ---------------- subsequences ----------------

  /** `a` is `b` with some elements left out. */
  predicate IsSubseq(a: Datas, b: Datas) {
    if a == [] then true
    else if b == [] then false
    else (a[0] == b[0] && IsSubseq(a[1..], b[1..])) || IsSubseq(a, b[1..])
  }

  lemma {:induction false} SubseqExtend(a: Datas, b: Datas, c: Datas)
    requires IsSubseq(a, b)
    ensures IsSubseq(a + c, b + c)
    decreases |b|
  {
    if a == [] {
      assert a + c == c;
      SubseqSuffix(b, c);
    } else {
      assert (a + c)[0] == a[0] && (a + c)[1..] == a[1..] + c && (b + c)[0] == b[0] && (b + c)[1..] == b[1..] + c;
      if a[0] == b[0] && IsSubseq(a[1..], b[1..]) {
        SubseqExtend(a[1..], b[1..], c);
      } else {
        SubseqExtend(a, b[1..], c);
      }
    }
  }

  lemma {:induction false} SubseqSuffix(b: Datas, c: Datas)
    ensures IsSubseq(c, b + c)
    decreases |b|, |c|
  {
    if b != [] {
      assert (b + c)[1..] == b[1..] + c;
      SubseqSuffix(b[1..], c);
    } else if c != [] {
      assert b + c == c;
      SubseqSuffix([], c[1..]);
      assert [] + c[1..] == c[1..];
    }
  }

  /** Leaving out one more element. */
  lemma {:induction false} SubseqDrop(a: Datas, m: Datagram, c: Datas, b: Datas)
    requires IsSubseq(a + [m] + c, b)
    ensures IsSubseq(a + c, b)
    decreases |b|
  {
    var all := a + [m] + c;
    if all[0] == b[0] && IsSubseq(all[1..], b[1..]) {
      if a == [] {
        assert all[1..] == c && a + c == c;
      } else {
        assert all[1..] == a[1..] + [m] + c;
        SubseqDrop(a[1..], m, c, b[1..]);
        assert (a + c)[0] == a[0] && (a + c)[1..] == a[1..] + c;
      }
    } else {
      SubseqDrop(a, m, c, b[1..]);
    }
  }

  lemma {:induction false} SubseqPrefix(a: Datas, c: Datas, b: Datas)
    requires IsSubseq(a + c, b)
    ensures IsSubseq(a, b)
    decreases |c|
  {
    if c == [] {
      assert a + c == a;
    } else {
      assert a + c == a + [c[0]] + c[1..];
      SubseqDrop(a, c[0], c[1..], b);
      SubseqPrefix(a, c[1..], b);
    }
  }

  // ---------------- what is on the wire ----------------

  function Decoded(f: ShineFrame): Datas {
    if !f.UdpData? then []
    else
      match ParseBinary(f.addrBlob)
      case Err(_) => []
      case Ok(addr) => [Datagram(f.payload, addr)]
  }

  function UnderWay(out: seq<ShineFrame>): Datas {
    if out == [] then [] else Decoded(out[0]) + UnderWay(out[1..])
  }

  /** A sent datagram as the wire format carries it. */
  function Carry(d: Datagram): Datas {
    match Received(d.addr)
    case Err(_) => []
    case Ok(addr) => [Datagram(d.payload, addr)]
  }

  function CarryAll(ds: Datas): Datas {
    if ds == [] then [] else CarryAll(ds[..|ds| - 1]) + Carry(ds[|ds| - 1])
  }

  /** For the addresses that the format can carry, nothing is lost or changed on the wire. */
  lemma {:induction false} CarryAllIntact(ds: Datas)
    requires forall i :: 0 <= i < |ds| ==> Carried(ds[i].addr)
    ensures CarryAll(ds) == ds
  {
    if ds != [] {
      var front, d := ds[..|ds| - 1], ds[|ds| - 1];
      CarryAllIntact(front);
      CarryIntact(d);
      assert ds == front + [d];
    }
  }

  lemma {:induction false} CarryIntact(d: Datagram)
    requires Carried(d.addr)
    ensures Carry(d) == [d]
  {
    if d.addr.Domain? {
      assert d.addr.domain[..|d.addr.domain|] == d.addr.domain;
    }
  }

  lemma {:induction false} UnderWayAppend(a: seq<ShineFrame>, b: seq<ShineFrame>)
    ensures UnderWay(a + b) == UnderWay(a) + UnderWay(b)
  {
    hide Decoded;
    if a == [] {
      assert a + b == b;
    } else {
      assert (a + b)[1..] == a[1..] + b;
      UnderWayAppend(a[1..], b);
    }
  }

  lemma {:induction false} UnderWayInstall(out: seq<ShineFrame>, fs: seq<ShineFrame>)
    requires |fs| <= 1
    ensures UnderWay(out + fs) == UnderWay(out) + (if fs == [] then [] else Decoded(fs[0]))
  {
    hide Decoded;
    UnderWayAppend(out, fs);
    if fs != [] {
      assert fs[1..] == [];
      assert UnderWay(fs) == Decoded(fs[0]) + UnderWay([]);
    }
  }

  // ---------------- one direction ----------------

  function ArrivedAt(h: Half): Datas {
    match h.sess
    case None => []
    case Some(s) => s.datagramsGot + s.udpInbox
  }

  function SentFrom(h: Half): Datas {
    match h.sess
    case None => []
    case Some(s) => s.datagramsSent
  }

  predicate Faithful(x: Half, y: Half) {
    IsSubseq(ArrivedAt(y) + UnderWay(x.out), CarryAll(SentFrom(x)))
  }

  predicate Relayed(p: Pair) {
    Faithful(p.client, p.server) && Faithful(p.server, p.client)
  }

  /** A call changes what has arrived only by moving the head of the queue to the user, and sends what it records. */
  lemma {:induction false} InvokeDatagrams(s: Sess, c: Call, maxChunk: nat, linkOpen: bool)
    ensures var eff := Invoke(s, c, maxChunk, linkOpen);
            eff.sess.datagramsGot + eff.sess.udpInbox == s.datagramsGot + s.udpInbox && |eff.frames| <= 1 &&
            CarryAll(eff.sess.datagramsSent) ==
              CarryAll(s.datagramsSent) + (if eff.frames == [] then [] else Decoded(eff.frames[0]))
  {
    hide ReadCall, SendChunk, StartWrite, Shutdown, CloseBoth, Flush, SendDatagram, CarryAll, ParseBinary;
    CallTouches(s, c, maxChunk, linkOpen);
    match c {
      case SendTo(payload, addr) => SendDatagrams(s, payload, addr, linkOpen);
      case ReceiveFrom =>
        if s.udpInbox != [] {
          assert s.datagramsGot + [s.udpInbox[0]] + s.udpInbox[1..] == s.datagramsGot + s.udpInbox;
        }
      case _ =>
    }
  }

  lemma {:induction false} SendDatagrams(s: Sess, payload: Bytes, addr: Address, linkOpen: bool)
    ensures var eff := SendDatagram(s, payload, addr, linkOpen);
            eff.sess.datagramsGot == s.datagramsGot && eff.sess.udpInbox == s.udpInbox && |eff.frames| <= 1 &&
            CarryAll(eff.sess.datagramsSent) ==
              CarryAll(s.datagramsSent) + (if eff.frames == [] then [] else Decoded(eff.frames[0]))
  {
    hide ToBinary, ParseBinary, Received;
    ParseAfterPrint(addr, []);
    assert ToBinary(addr) + [] == ToBinary(addr);
    var d := Datagram(payload, addr);
    assert Decoded(UdpData(s.sid, ToBinary(addr), payload)) == Carry(d);
    CarryAllSnoc(s.datagramsSent, d);
    hide CarryAll;
  }

  lemma {:induction false} CarryAllSnoc(ds: Datas, d: Datagram)
    ensures CarryAll(ds + [d]) == CarryAll(ds) + Carry(d)
  {
    hide Carry;
    assert (ds + [d])[..|ds|] == ds;
  }

  lemma {:induction false} OnFrameDatagrams(s: Sess, f: ShineFrame)
    ensures var s' := OnFrame(s, f).sess;
            s'.datagramsSent == s.datagramsSent && s'.datagramsGot == s.datagramsGot &&
            (s'.udpInbox == s.udpInbox || s'.udpInbox == s.udpInbox + Decoded(f))
  {
    hide ParseBinary;
  }

  lemma {:induction false} UseFaithful(x: Half, y: Half, c: Call, maxChunk: nat)
    requires x.sess.Some? && Faithful(x, y) && Faithful(y, x)
    ensures Faithful(UseHalf(x, c, maxChunk), y) && Faithful(y, UseHalf(x, c, maxChunk))
  {
    hide Invoke, IsSubseq, CarryAll, UnderWay, Decoded;
    var eff := Invoke(x.sess.value, c, maxChunk, !x.closed);
    InvokeDatagrams(x.sess.value, c, maxChunk, !x.closed);
    UnderWayInstall(x.out, eff.frames);
    var more := if eff.frames == [] then [] else Decoded(eff.frames[0]);
    assert ArrivedAt(y) + (UnderWay(x.out) + more) == ArrivedAt(y) + UnderWay(x.out) + more;
    SubseqExtend(ArrivedAt(y) + UnderWay(x.out), CarryAll(SentFrom(x)), more);
  }

  /** Taking the head of the pipe: it arrives, or it is left out. */
  lemma {:induction false} HeadTaken(arrived: Datas, arrived': Datas, out: seq<ShineFrame>, all: Datas)
    requires out != [] && IsSubseq(arrived + UnderWay(out), all)
    requires arrived' == arrived || arrived' == arrived + Decoded(out[0])
    ensures IsSubseq(arrived' + UnderWay(out[1..]), all)
  {
    hide IsSubseq, ParseBinary;
    var d, rest := Decoded(out[0]), UnderWay(out[1..]);
    assert |d| <= 1;
    assert UnderWay(out) == d + rest;
    hide UnderWay, Decoded;
    assert arrived + (d + rest) == arrived + d + rest;
    if d == [] {
      assert arrived + d + rest == arrived + rest && arrived + d == arrived;
    } else if arrived' == arrived {
      assert d == [d[0]];
      SubseqDrop(arrived, d[0], rest, all);
    }
  }

  lemma {:induction false} TakeFaithful(y: Half, x: Half, server: bool, own: U32)
    requires x.out != [] && !y.closed && Faithful(x, y) && Faithful(y, x)
    ensures var y' := TakeFrame(y, x.out[0], server, own);
            Faithful(Pop(x), y') && Faithful(y', Pop(x))
  {
    hide IsSubseq, UnderWay, TakeFrame, Decoded, ArrivedAt, SentFrom;
    var f := x.out[0];
    var y' := TakeFrame(y, f, server, own);
    TakeArrives(y, f, server, own);
    SameHalf(x);
    HeadTaken(ArrivedAt(y), ArrivedAt(y'), x.out, CarryAll(SentFrom(x)));
  }

  lemma {:induction false} SameHalf(x: Half)
    requires x.out != []
    ensures ArrivedAt(Pop(x)) == ArrivedAt(x) && SentFrom(Pop(x)) == SentFrom(x)
  {
  }

  lemma {:induction false} TakeArrives(y: Half, f: ShineFrame, server: bool, own: U32)
    ensures var y' := TakeFrame(y, f, server, own);
            (ArrivedAt(y') == ArrivedAt(y) || ArrivedAt(y') == ArrivedAt(y) + Decoded(f)) &&
            SentFrom(y') == SentFrom(y) && UnderWay(y'.out) == UnderWay(y.out)
  {
    hide UnderWay, OnFrame, ParseBinary, Decoded;
    if y.sess.Some? {
      OnFrameDatagrams(y.sess.value, f);
      OnFrameTagged(y.sess.value, f);
      assert y.out + [] == y.out;
      var s := y.sess.value;
      assert s.datagramsGot + (s.udpInbox + Decoded(f)) == s.datagramsGot + s.udpInbox + Decoded(f);
    }
    if SidOf(f).Some? {
      ReplyUnderWay(y.out, Reset(SidOf(f).value));
      ReplyUnderWay(y.out, Ack(SidOf(f).value));
    }
  }

  lemma {:induction false} ReplyUnderWay(out: seq<ShineFrame>, g: ShineFrame)
    requires g.Ack? || g.Reset?
    ensures UnderWay(out + [g]) == UnderWay(out)
  {
    UnderWayInstall(out, [g]);
    hide UnderWay;
    assert Decoded(g) == [];
  }

  lemma {:induction false} CutFaithful(x: Half, y: Half, keep: nat)
    requires Faithful(x, y) && Faithful(y, x) && keep <= |x.out|
    ensures var x' := x.(out := x.out[..keep], lost := x.lost || keep < |x.out|);
            Faithful(x', y) && Faithful(y, x')
  {
    hide IsSubseq, UnderWay, CarryAll;
    var a, b := x.out[..keep], x.out[keep..];
    assert x.out == a + b;
    UnderWayAppend(a, b);
    assert ArrivedAt(y) + (UnderWay(a) + UnderWay(b)) == ArrivedAt(y) + UnderWay(a) + UnderWay(b);
    SubseqPrefix(ArrivedAt(y) + UnderWay(a), UnderWay(b), CarryAll(SentFrom(x)));
  }

  lemma {:induction false} FailFaithful(x: Half, y: Half)
    requires Faithful(x, y) && Faithful(y, x)
    ensures Faithful(FailHalf(x), y) && Faithful(y, FailHalf(x))
    ensures Faithful(x.(closed := true), y) && Faithful(y, x.(closed := true))
    ensures Faithful(FailHalf(x.(lost := true)), y) && Faithful(y, FailHalf(x.(lost := true)))
  {
    hide IsSubseq, UnderWay, CarryAll;
  }

  lemma {:induction false} PopFaithful(x: Half, y: Half)
    requires Faithful(x, y) && Faithful(y, x) && x.out != []
    ensures Faithful(Pop(x), y) && Faithful(y, Pop(x))
  {
    hide IsSubseq, UnderWay, CarryAll;
    HeadTaken(ArrivedAt(y), ArrivedAt(y), x.out, CarryAll(SentFrom(x)));
  }

  lemma {:induction false} OpenFaithful(p: Pair, target: Address, udp: bool, x: Ctx)
    requires Base(p, x) && Relayed(p)
    ensures Relayed(Next(p, Move.Open(x.sid, target, udp, x.clientWindow)))
  {
    hide IsSubseq, UnderWay, CarryAll, ToBinary, Count, OwnFrames;
    var f := if udp then NewUdp(x.sid) else New(x.sid, ToBinary(target), x.clientWindow);
    UnderWayInstall(p.client.out, [f]);
    assert Decoded(f) == [];
    assert UnderWay(p.client.out) + [] == UnderWay(p.client.out);
    var born := Fresh(x.sid, target, udp, x.clientWindow, x.clientWindow);
    assert born.datagramsGot + born.udpInbox == [];
  }

  lemma {:induction false} NextRelayed(p: Pair, m: Move, x: Ctx)
    requires Base(p, x) && Relayed(p) && Legit(m, x)
    ensures Relayed(Next(p, m))
  {
    hide Faithful, Count, OwnFrames, TakeFrame, FailHalf;
    match m {
      case Idle =>
      case Use(side, c, maxChunk) =>
        hide Invoke;
        if Of(p, side).sess.Some? {
          UseFaithful(Of(p, side), Of(p, W.Peer(side)), c, maxChunk);
        }
      case Open(sid, target, udp, window) => OpenFaithful(p, target, udp, x);
      case Take(side, window) =>
        var h, from := Of(p, side), Of(p, W.Peer(side));
        if from.out != [] && !h.closed {
          TakeFaithful(h, from, side.Server?, WindowOf(side, x));
        }
      case Refuse(side) =>
        var h, from := Of(p, side), Of(p, W.Peer(side));
        if from.out != [] {
          PopFaithful(from, h);
          FailFaithful(h, Pop(from));
        }
      case Fail(side) => FailFaithful(Of(p, side), Of(p, W.Peer(side)));
      case CloseNow(side) => FailFaithful(Of(p, side), Of(p, W.Peer(side)));
      case Cut(side, keep) =>
        if keep <= |Of(p, side).out| {
          CutFaithful(Of(p, side), Of(p, W.Peer(side)), keep);
        }
    }
  }
}
