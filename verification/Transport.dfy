/** The two objects of the transport layer, with the fields and methods of `Session` and `Link`
    (src/transport/session.cpp, src/transport/link.cpp). Each method is proved to do to its object what the step
    functions of SessionModel and LinkModel do to values; everything proved about runs is proved about those.
    A method that would suspend says so in its result instead. */
module Transport {
  import opened Octets
  import opened ShineFrames
  import opened Addresses
  import opened SessionModel
  import opened LinkModel
  import opened Delivery
  import Heartbeat
  import W = World

  /** What `receiveFrom` comes to: a datagram, an error, or a wait for the queue. */
  datatype Receipt = Delivered(datagram: Datagram) | Refused | Waiting

  class Session {
    const link: Link
    const sid: U64
    const target: Address
    const udp: bool
    const ourInitialWindow: U32

    var sendCredit: int
    var recvUnacked: U32
    var state: Phase
    var channelOpen: bool
    var inbox: seq<Bytes>
    var udpInbox: seq<Datagram>
    var leftover: Option<Bytes>
    var leftoverOff: nat
    var unsent: Bytes
    var closeSpawned: bool
    var creditToken: bool

    ghost var accepted: Bytes
    ghost var sent: Bytes
    ghost var got: Bytes
    ghost var datagramsSent: seq<Datagram>
    ghost var datagramsGot: seq<Datagram>
    ghost var shut: bool

    ghost predicate Valid()
      reads this
    {
      leftover.Some? ==> leftoverOff < |leftover.value|
    }

    ghost function Rest(): Bytes
      requires Valid()
      reads this
    {
      if leftover.None? then [] else leftover.value[leftoverOff..]
    }

    /** The value that the object stands for. */
    ghost function Model(): Sess
      requires Valid()
      reads this
    {
      Sess(sid, target, udp, ourInitialWindow, sendCredit, recvUnacked, state, channelOpen, inbox, Rest(), udpInbox, unsent,
           closeSpawned, accepted, sent, got, datagramsSent, datagramsGot, shut)
    }

    constructor (link: Link, sid: U64, target: Address, peerInitialWindow: U32, ourInitialWindow: U32, udp: bool)
      ensures Valid() && Model() == Fresh(sid, target, udp, peerInitialWindow, ourInitialWindow)
      ensures this.link == link && this.sid == sid && this.target == target
    {
      this.link, this.sid, this.target, this.udp, this.ourInitialWindow := link, sid, target, udp, ourInitialWindow;
      sendCredit, recvUnacked, state, channelOpen := peerInitialWindow, 0, Open, true;
      inbox, udpInbox, leftover, leftoverOff, unsent, closeSpawned := [], [], None, 0, [], false;
      creditToken := false;
      accepted, sent, got, datagramsSent, datagramsGot, shut := [], [], [], [], [], false;
    }

    /** `read` into `room` bytes; `None` where the coroutine waits for the inbox. */
    method Read(room: nat) returns (r: Option<Bytes>)
      requires Valid() && !udp
      modifies this, link`out
      ensures Valid()
      ensures r == ReadResult(old(Model()), room)
      ensures got == old(got) + (if r.Some? then r.value else []) && (r.Some? ==> |r.value| <= room)
      ensures r.Some? ==> r.value <= old(Rest() + Flatten(inbox))
      ensures Model() == ReadCall(old(Model()), room, !link.closed).sess
      ensures link.out == old(link.out) + ReadCall(old(Model()), room, !link.closed).frames
    {
      hide Consumed;
      ReadReturns(Model(), room, !link.closed);
      assert link.out + [] == link.out;
      if leftover.Some? {
        var piece := ReadLeftover(room);
        return Some(piece);
      }
      if state == Closed || state == HalfClosedRemote {
        return Some([]);
      }
      if inbox == [] {
        return if channelOpen then None else Some([]);
      }
      var piece := ReadInbox(room);
      return Some(piece);
    }

    method ReadLeftover(room: nat) returns (piece: Bytes)
      requires Valid() && leftover.Some?
      modifies this, link`out
      ensures Valid() && piece == old(Rest())[..Min(room, |old(Rest())|)]
      ensures Model() == Consumed(old(Model()), old(Rest()), room, old(inbox), !link.closed).sess
      ensures link.out == old(link.out) + Consumed(old(Model()), old(Rest()), room, old(inbox), !link.closed).frames
    {
      hide MaybeSendWindow;
      assert inbox == Model().inbox;
      hide Model, Rest, Valid;
      piece := TakeLeftover(room);
      Account(piece);
    }

    method TakeLeftover(room: nat) returns (piece: Bytes)
      requires Valid() && leftover.Some?
      modifies this`leftover, this`leftoverOff
      ensures var n := Min(room, |old(Rest())|);
              Valid() && piece == old(Rest())[..n] && Model() == old(Model()).(leftover := old(Rest())[n..])
    {
      ghost var rest := Rest();
      var n := Min(room, |leftover.value| - leftoverOff);
      piece := leftover.value[leftoverOff..leftoverOff + n];
      assert piece == rest[..n];
      assert leftover.value[leftoverOff + n..] == rest[n..];
      leftoverOff := leftoverOff + n;
      if leftoverOff >= |leftover.value| {
        leftover, leftoverOff := None, 0;
      }
    }

    method ReadInbox(room: nat) returns (piece: Bytes)
      requires Valid() && leftover.None? && inbox != []
      modifies this, link`out
      ensures Valid() && piece == old(inbox[0])[..Min(room, |old(inbox[0])|)]
      ensures Model() == Consumed(old(Model()), old(inbox[0]), room, old(inbox)[1..], !link.closed).sess
      ensures link.out == old(link.out) + Consumed(old(Model()), old(inbox[0]), room, old(inbox)[1..], !link.closed).frames
    {
      hide MaybeSendWindow, Model, Rest, Valid;
      piece := TakeInbox(room);
      Account(piece);
    }

    method TakeInbox(room: nat) returns (piece: Bytes)
      requires Valid() && leftover.None? && inbox != []
      modifies this`leftover, this`leftoverOff, this`inbox
      ensures var pay := old(inbox[0]);
              var n := Min(room, |pay|);
              Valid() && piece == pay[..n] && Model() == old(Model()).(inbox := old(inbox)[1..], leftover := pay[n..])
    {
      var pay := inbox[0];
      inbox := inbox[1..];
      var n := Min(room, |pay|);
      piece := pay[..n];
      if n < |pay| {
        leftover, leftoverOff := Some(pay), n;
      }
    }

    /** Bytes handed to the user count towards the next WINDOW. */
    method Account(piece: Bytes)
      requires Valid()
      modifies this`got, this`recvUnacked, link`out
      ensures Valid()
      ensures var s := old(Model());
              var eff := MaybeSendWindow(s.(got := s.got + piece, unacked := (s.unacked + |piece|) % U32_LIMIT), !link.closed);
              Model() == eff.sess && link.out == old(link.out) + eff.frames
    {
      hide MaybeSendWindow;
      got, recvUnacked := got + piece, (recvUnacked + |piece|) % U32_LIMIT;
      SendWindowIfDue();
    }

    /** `maybeSendWindow`. */
    method SendWindowIfDue()
      requires Valid()
      modifies this`recvUnacked, link`out
      ensures Valid() && Model() == MaybeSendWindow(old(Model()), !link.closed).sess
      ensures link.out == old(link.out) + MaybeSendWindow(old(Model()), !link.closed).frames
    {
      if !link.closed {
        var threshold := ourInitialWindow / 2;
        if recvUnacked >= threshold {
          var delta := recvUnacked;
          recvUnacked := 0;
          link.out := link.out + [Window(sid, delta)];
        }
      }
    }

    /** `write`, up to the point where it waits for credit. The bytes left over stay in the call. */
    method Write(data: Bytes) returns (ok: bool)
      requires Valid() && !udp && unsent == [] && link.maxChunk > 0
      modifies this, link`out
      ensures Valid()
      ensures ok <==> !link.closed && !WriteSideDone(old(state))
      ensures ok ==> accepted == old(accepted) + data && sent + unsent == old(sent) + data
      ensures var eff := SendAll(StartWrite(old(Model()), data, !link.closed), link.maxChunk);
              if ok then Model() == eff.sess && link.out == old(link.out) + eff.frames
              else Model() == old(Model()) && link.out == old(link.out)
    {
      hide SendAll;
      ok := BeginWrite(data);
      if !ok {
        return false;
      }
      ghost var goal, before := SendAll(Model(), link.maxChunk), link.out;
      while |unsent| > 0 && sendCredit > 0
        invariant Valid() && !link.closed && goal.sess == SendAll(Model(), link.maxChunk).sess
        invariant accepted == old(accepted) + data && sent + unsent == old(sent) + data
        invariant before + goal.frames == link.out + SendAll(Model(), link.maxChunk).frames
        decreases |unsent|
      {
        SendOne();
      }
      SendAllDone(Model(), link.maxChunk);
      assert link.out + [] == link.out;
      return true;
    }

    /** The entry checks of `write`. */
    method BeginWrite(data: Bytes) returns (ok: bool)
      requires Valid() && !udp && unsent == []
      modifies this
      ensures Valid() && (ok <==> !link.closed && !WriteSideDone(old(state)))
      ensures ok ==> accepted == old(accepted) + data && unsent == data && sent == old(sent)
      ensures Model() == StartWrite(old(Model()), data, !link.closed)
    {
      if link.closed || state == Closed || state == HalfClosedLocal {
        return false;
      }
      unsent, accepted := data, accepted + data;
      return true;
    }

    /** One turn of the write loop. Out of credit it waits, and gives up only when it finds the link closed. */
    method WriteTurn()
      requires Valid()
      modifies this, link`out
      ensures Valid()
      ensures Model() == SendChunk(old(Model()), link.maxChunk, !link.closed).sess
      ensures link.out == old(link.out) + SendChunk(old(Model()), link.maxChunk, !link.closed).frames
    {
      assert link.out + [] == link.out;
      if unsent == [] {
        return;
      }
      if sendCredit <= 0 {
        if link.closed {
          unsent := [];
        }
        return;
      }
      var chunk := Min(|unsent|, Min(link.maxChunk, sendCredit));
      if chunk == 0 {
        return;
      }
      sendCredit := sendCredit - chunk;
      link.EnqueueFrame(Data(sid, unsent[..chunk]));
      if !link.closed {
        sent := sent + unsent[..chunk];
      }
      unsent := unsent[chunk..];
    }

    /** A turn of the write loop that finds credit on an open link. */
    method SendOne()
      requires Valid() && unsent != [] && sendCredit > 0 && link.maxChunk > 0 && !link.closed
      modifies this, link`out
      ensures Valid() && |unsent| < |old(unsent)| && accepted == old(accepted) && sent + unsent == old(sent + unsent)
      ensures SendAll(Model(), link.maxChunk).sess == SendAll(old(Model()), link.maxChunk).sess
      ensures link.out + SendAll(Model(), link.maxChunk).frames == old(link.out) + SendAll(old(Model()), link.maxChunk).frames
    {
      hide SendAll;
      SendAllStep(Model(), link.maxChunk, link.out);
      ChunkWriter(Model(), link.maxChunk, true);
      WriteTurn();
    }

    method ShutdownWrite()
      requires Valid()
      modifies this, link`out, link`sessions
      ensures Valid()
      ensures Model() == Shutdown(old(Model()), !link.closed).sess
      ensures link.out == old(link.out) + Shutdown(old(Model()), !link.closed).frames
      ensures link.sessions == if Shutdown(old(Model()), !link.closed).erase then old(link.sessions) - {sid} else old(link.sessions)
    {
      assert link.out + [] == link.out;
      if link.closed {
        return;
      }
      shut := true;
      if state == Open {
        state := HalfClosedLocal;
      } else if state == HalfClosedRemote {
        state := Closed;
        link.EraseSession(sid);
      } else {
        return;
      }
      link.out := link.out + [ShineFrame.Close(sid, [])];
    }

    method Close()
      requires Valid()
      modifies this, link`sessions
      ensures Valid()
      ensures Model() == CloseBoth(old(Model()), !link.closed).sess
      ensures link.sessions == if CloseBoth(old(Model()), !link.closed).erase then old(link.sessions) - {sid} else old(link.sessions)
    {
      hide Link.Valid;
      shut := shut || !link.closed;
      if state != Closed {
        state := Closed;
        if !link.closed {
          closeSpawned := true;
        }
        link.EraseSession(sid);
      }
      channelOpen := false;
    }

    /** The coroutine that `close()` has spawned. */
    method RunSpawnedClose()
      requires Valid()
      modifies this, link`out
      ensures Valid()
      ensures Model() == Flush(old(Model()), !link.closed).sess
      ensures link.out == old(link.out) + Flush(old(Model()), !link.closed).frames
    {
      assert link.out + [] == link.out;
      if closeSpawned {
        closeSpawned := false;
        link.EnqueueFrame(ShineFrame.Close(sid, []));
      }
    }

    method SendTo(payload: Bytes, target: Address) returns (ok: bool)
      requires Valid() && udp
      modifies this, link`out
      ensures Valid()
      ensures ok <==> !link.closed && !WriteSideDone(old(state))
      ensures ok ==> datagramsSent == old(datagramsSent) + [Datagram(payload, target)]
      ensures ok ==> |link.out| == |old(link.out)| + 1 &&
                     var f := link.out[|old(link.out)|];
                     f.UdpData? && f.sid == sid && f.payload == payload && ParseBinary(f.addrBlob) == Received(target)
      ensures Model() == SendDatagram(old(Model()), payload, target, !link.closed).sess
      ensures link.out == old(link.out) + SendDatagram(old(Model()), payload, target, !link.closed).frames
    {
      assert link.out + [] == link.out;
      if link.closed || state == Closed || state == HalfClosedLocal {
        return false;
      }
      ParseAfterPrint(target, []);
      assert ToBinary(target) + [] == ToBinary(target);
      datagramsSent := datagramsSent + [Datagram(payload, target)];
      link.EnqueueFrame(UdpData(sid, ToBinary(target), payload));
      return true;
    }

    /** `receiveFrom`. */
    method ReceiveFrom() returns (r: Receipt)
      requires Valid() && udp
      modifies this
      ensures Valid() && Model() == TakeDatagram(old(Model()))
      ensures r.Delivered? <==> !ReadSideDone(old(state)) && old(udpInbox) != []
      ensures r.Delivered? ==> old(udpInbox) == [r.datagram] + udpInbox && datagramsGot == old(datagramsGot) + [r.datagram]
      ensures r.Waiting? <==> !ReadSideDone(old(state)) && old(udpInbox) == [] && channelOpen
    {
      if state == Closed || state == HalfClosedRemote {
        return Refused;
      }
      if udpInbox == [] {
        return if channelOpen then Waiting else Refused;
      }
      r := Delivered(udpInbox[0]);
      udpInbox, datagramsGot := udpInbox[1..], datagramsGot + [udpInbox[0]];
    }

    /** Any one call; a call of the wrong kind for the session, or a second `write` during the first, is not made. */
    method Perform(c: Call)
      requires Valid()
      modifies this, link`out, link`sessions
      ensures Valid()
      ensures Model() == SessionModel.Invoke(old(Model()), c, link.maxChunk, !link.closed).sess
      ensures link.out == old(link.out) + SessionModel.Invoke(old(Model()), c, link.maxChunk, !link.closed).frames
      ensures link.sessions == if SessionModel.Invoke(old(Model()), c, link.maxChunk, !link.closed).erase
                               then old(link.sessions) - {sid} else old(link.sessions)
    {
      hide ReadCall, SendChunk, StartWrite, Shutdown, CloseBoth, Flush, SendDatagram, TakeDatagram, Valid, Rest, Link.Valid;
      CallTouches(Model(), c, link.maxChunk, !link.closed);
      NotMade(Model(), c, link.maxChunk, !link.closed);
      assert link.out + [] == link.out;
      match c {
        case Read(room) =>
          if !udp {
            var _ := Read(room);
          }
        case BeginWrite(data) =>
          if !udp && unsent == [] {
            var _ := BeginWrite(data);
          }
        case WriteChunk => WriteTurn();
        case ShutdownWrite => ShutdownWrite();
        case CloseCall =>
          CloseSilent(Model(), !link.closed);
          Close();
        case FlushClose =>
          FlushKeeps(Model(), !link.closed);
          RunSpawnedClose();
        case SendTo(payload, addr) =>
          if udp {
            var _ := SendTo(payload, addr);
          }
        case ReceiveFrom =>
          if udp {
            var _ := ReceiveFrom();
          }
      }
    }

    // ---- invoked by the link's reader ----

    /** A frame of `dispatchFrame` that has found its session; the result says whether the table must forget it. */
    method Handle(f: ShineFrame) returns (erase: bool)
      requires Valid()
      modifies this
      ensures Valid() && Model() == OnFrame(old(Model()), f).sess && erase == OnFrame(old(Model()), f).erase
    {
      hide ParseBinary, Model, Valid;
      erase := false;
      match f {
        case Data(_, payload) => OnDataFrame(payload);
        case UdpData(_, blob, payload) =>
          var addr := ParseBinary(blob);
          if addr.Ok? {
            OnUdpDataFrame(Datagram(payload, addr.value));
          }
        case Close(_, _) => erase := OnCloseFrame();
        case Reset(_) =>
          OnResetFrame();
          erase := true;
        case Window(_, delta) => OnWindowFrame(delta);
        case _ =>
      }
    }

    /** `onData`. The caller has waited for room in the inbox. */
    method OnDataFrame(payload: Bytes)
      requires Valid()
      modifies this
      ensures Valid() && Model() == OnData(old(Model()), payload).sess
      ensures inbox == if payload != [] && !udp && channelOpen then old(inbox) + [payload] else old(inbox)
    {
      if payload == [] || udp {
        return;
      }
      if channelOpen {
        inbox := inbox + [payload];
      }
    }

    method OnUdpDataFrame(d: Datagram)
      requires Valid()
      modifies this
      ensures Valid() && Model() == OnUdpData(old(Model()), d)
      ensures udpInbox == if udp && channelOpen && |old(udpInbox)| < 1024 then old(udpInbox) + [d] else old(udpInbox)
    {
      if !udp {
        return;
      }
      if channelOpen && |udpInbox| < INBOX_SLOTS {
        udpInbox := udpInbox + [d];
      }
    }

    method OnWindowFrame(delta: U32)
      requires Valid()
      modifies this
      ensures Valid() && Model() == old(Model()).(credit := old(Model()).credit + delta)
      ensures creditToken == (old(creditToken) || (!udp && state != Closed))
    {
      sendCredit := sendCredit + delta;
      if !udp && state != Closed {
        creditToken := true;
      }
    }

    method OnCloseFrame() returns (nowClosed: bool)
      requires Valid()
      modifies this
      ensures Valid() && Model() == OnPeerClose(old(Model())) && nowClosed == Model().phase.Closed?
    {
      if state == HalfClosedLocal {
        state := Closed;
      } else if state == Open {
        state := HalfClosedRemote;
      }
      channelOpen := false;
      return state == Closed;
    }

    method OnResetFrame()
      requires Valid()
      modifies this
      ensures Valid() && Model() == OnReset(old(Model()))
    {
      state, channelOpen := Closed, false;
    }
  }

  /** Calls that are not made. */
  lemma {:induction false} NotMade(s: Sess, c: Call, maxChunk: nat, linkOpen: bool)
    ensures (if c.Read? then s.udp else if c.BeginWrite? then s.udp || s.writing != [] else (c.SendTo? || c.ReceiveFrom?) && !s.udp) ==>
              SessionModel.Invoke(s, c, maxChunk, linkOpen) == Only(s)
  {
    hide SendChunk, Shutdown, CloseBoth, Flush, ToBinary;
  }

  lemma {:induction false} ReadDropsNothing(s: Sess, room: nat, linkOpen: bool)
    ensures !ReadCall(s, room, linkOpen).drop
  {
  }

  lemma {:induction false} CloseSilent(s: Sess, linkOpen: bool)
    ensures CloseBoth(s, linkOpen).frames == []
  {
  }

  lemma {:induction false} FlushKeeps(s: Sess, linkOpen: bool)
    ensures !Flush(s, linkOpen).erase
  {
  }

  /** Turns of the write loop until the call is done or the credit is gone. */
  function SendAll(s: Sess, maxChunk: nat): Effect
    decreases |s.writing|
  {
    if s.writing == [] || s.credit <= 0 || maxChunk == 0 then Only(s)
    else
      var first := SendChunk(s, maxChunk, true);
      var rest := SendAll(first.sess, maxChunk);
      Effect(rest.sess, first.frames + rest.frames, false, false)
  }

  lemma {:induction false} SendAllStep(s: Sess, maxChunk: nat, out: seq<ShineFrame>)
    requires s.writing != [] && s.credit > 0 && maxChunk > 0
    ensures var n := Min(|s.writing|, Min(maxChunk, s.credit));
            var s' := Spent(s, n);
            SendAll(s, maxChunk).sess == SendAll(s', maxChunk).sess &&
            out + SendAll(s, maxChunk).frames == out + [Data(s.sid, s.writing[..n])] + SendAll(s', maxChunk).frames
  {
    var n := Min(|s.writing|, Min(maxChunk, s.credit));
    var s' := s.(writing := s.writing[n..], credit := s.credit - n, sent := s.sent + s.writing[..n]);
    var first := [Data(s.sid, s.writing[..n])];
    assert SendChunk(s, maxChunk, true) == Effect(s', first, false, false);
    var rest := SendAll(s', maxChunk);
    assert SendAll(s, maxChunk) == Effect(rest.sess, first + rest.frames, false, false);
    hide SendAll, SendChunk;
    assert out + (first + rest.frames) == out + first + rest.frames;
  }

  lemma {:induction false} SendAllDone(s: Sess, maxChunk: nat)
    requires s.writing == [] || s.credit <= 0
    ensures SendAll(s, maxChunk) == Only(s)
  {
  }

  /** Non-empty DATA frames of one session, none above the limit and all but the last up to it. */
  predicate Chunks(fs: seq<ShineFrame>, sid: U64, maxChunk: nat) {
    (forall i :: 0 <= i < |fs| ==> fs[i].Data? && fs[i].sid == sid && 0 < |fs[i].payload| <= maxChunk) &&
    forall i :: 0 <= i < |fs| - 1 ==> |fs[i].payload| == maxChunk
  }

  lemma {:induction false} CutTwice(front: Bytes, w: Bytes, k: nat, n: nat)
    requires k <= n <= |w|
    ensures w[k..][n - k..] == w[n..] && w[..k] + w[k..][..n - k] == w[..n]
    ensures front + w[..k] + w[k..][..n - k] == front + w[..n]
  {
    assert w[..k] + w[k..][..n - k] == w[..n];
    assert front + w[..k] + w[k..][..n - k] == front + (w[..k] + w[k..][..n - k]);
  }

  /** The first piece is part of what the credit allows, and leaves the rest of it. */
  lemma {:induction false} FirstPiece(len: nat, credit: nat, maxChunk: nat)
    requires maxChunk > 0
    ensures var k, n := Min(len, Min(maxChunk, credit)), Min(len, credit);
            k <= n <= len && n <= credit && k <= maxChunk && Min(len - k, credit - k) == n - k &&
            (k == 0 <==> n == 0) && (n == 0 <==> len == 0 || credit == 0) && (k == maxChunk || k == len || k == credit)
  {
  }

  /** The first `n` bytes of the data on the wire, and charged to the credit. */
  function Spent(s: Sess, n: nat): Sess
    requires n <= |s.writing|
  {
    s.(writing := s.writing[n..], credit := s.credit - n, sent := s.sent + s.writing[..n])
  }

  lemma {:induction false} SpentTwice(s: Sess, k: nat, n: nat)
    requires k <= n <= |s.writing|
    ensures Spent(s, k).writing == s.writing[k..] && Spent(s, k).credit == s.credit - k && Spent(s, k).sid == s.sid
    ensures Spent(Spent(s, k), n - k) == Spent(s, n)
    ensures Spent(s, 0) == s
  {
    CutTwice(s.sent, s.writing, k, n);
    assert s.sent + [] == s.sent;
  }

  /** What `write` achieves before it has to wait: it spends the credit, or as much of it as there is data. */
  lemma {:induction false} SendAllSpends(s: Sess, maxChunk: nat)
    requires maxChunk > 0 && 0 <= s.credit
    ensures SendAll(s, maxChunk).sess == Spent(s, Min(|s.writing|, s.credit))
    decreases |s.writing|
  {
    hide SendAll, Min, Spent;
    FirstPiece(|s.writing|, s.credit, maxChunk);
    var k, n := Min(|s.writing|, Min(maxChunk, s.credit)), Min(|s.writing|, s.credit);
    SpentTwice(s, k, n);
    if s.writing != [] && s.credit > 0 {
      SendAllStep(s, maxChunk, []);
      SendAllSpends(Spent(s, k), maxChunk);
    } else {
      SendAllDone(s, maxChunk);
    }
  }

  /** The frames carry exactly those bytes, in order, in pieces as large as the limit allows. */
  lemma {:induction false} SendAllFrames(s: Sess, maxChunk: nat)
    requires maxChunk > 0 && 0 <= s.credit
    ensures var fs := SendAll(s, maxChunk).frames;
            Payloads(fs) == s.writing[..Min(|s.writing|, s.credit)] && Chunks(fs, s.sid, maxChunk)
    decreases |s.writing|
  {
    hide SendAll, Min, Spent, Payloads, Chunks;
    FirstPiece(|s.writing|, s.credit, maxChunk);
    var k, n := Min(|s.writing|, Min(maxChunk, s.credit)), Min(|s.writing|, s.credit);
    if s.writing != [] && s.credit > 0 {
      var head, rest := Data(s.sid, s.writing[..k]), SendAll(Spent(s, k), maxChunk).frames;
      SpentFields(s, k);
      FirstFrame(s, maxChunk);
      SendAllFrames(Spent(s, k), maxChunk);
      LastPiece(s, maxChunk);
      ChunksCons(head, rest, s.sid, maxChunk);
      JoinPieces(s.writing, k, n);
    } else {
      SendAllDone(s, maxChunk);
      NoChunks(s.sid, maxChunk);
    }
  }

  lemma {:induction false} SpentFields(s: Sess, k: nat)
    requires k <= |s.writing|
    ensures Spent(s, k).writing == s.writing[k..] && Spent(s, k).credit == s.credit - k && Spent(s, k).sid == s.sid
  {
  }

  lemma {:induction false} JoinPieces(w: Bytes, k: nat, n: nat)
    requires k <= n <= |w|
    ensures w[..k] + w[k..][..n - k] == w[..n]
  {
  }

  lemma {:induction false} FirstFrame(s: Sess, maxChunk: nat)
    requires s.writing != [] && s.credit > 0 && maxChunk > 0
    ensures var k := Min(|s.writing|, Min(maxChunk, s.credit));
            SendAll(s, maxChunk).frames == [Data(s.sid, s.writing[..k])] + SendAll(Spent(s, k), maxChunk).frames
  {
    hide SendAll, Spent;
    SendAllStep(s, maxChunk, []);
    var k := Min(|s.writing|, Min(maxChunk, s.credit));
    var fs, head, rest := SendAll(s, maxChunk).frames, Data(s.sid, s.writing[..k]), SendAll(Spent(s, k), maxChunk).frames;
    assert [] + fs == fs && [] + [head] + rest == [head] + rest;
  }

  /** A piece below the limit is the last one. */
  lemma {:induction false} LastPiece(s: Sess, maxChunk: nat)
    requires s.writing != [] && s.credit > 0 && maxChunk > 0
    ensures var k := Min(|s.writing|, Min(maxChunk, s.credit));
            k != maxChunk ==> SendAll(Spent(s, k), maxChunk).frames == []
  {
    hide SendAll;
    var k := Min(|s.writing|, Min(maxChunk, s.credit));
    if k != maxChunk {
      SendAllDone(Spent(s, k), maxChunk);
    }
  }

  lemma {:induction false} NoChunks(sid: U64, maxChunk: nat)
    ensures Payloads([]) == [] && Chunks([], sid, maxChunk)
  {
  }

  lemma {:induction false} ChunksCons(f: ShineFrame, rest: seq<ShineFrame>, sid: U64, maxChunk: nat)
    requires f.Data? && f.sid == sid && 0 < |f.payload| <= maxChunk && Chunks(rest, sid, maxChunk)
    requires rest != [] ==> |f.payload| == maxChunk
    ensures Chunks([f] + rest, sid, maxChunk) && Payloads([f] + rest) == f.payload + Payloads(rest)
  {
    assert ([f] + rest)[1..] == rest;
  }

  // ---------------- calls in a row ----------------

  function UseMany(e: End, sid: U64, calls: seq<Call>): End
    decreases calls
  {
    if calls == [] then e else UseMany(LinkModel.Use(e, sid, calls[0]), sid, calls[1..])
  }

  function Turns(n: nat): seq<Call> {
    seq(n, _ => WriteChunk)
  }

  /** How many turns the write loop takes before it waits. */
  function TurnsOf(s: Sess, maxChunk: nat): nat
    decreases |s.writing|
  {
    if s.writing == [] || s.credit <= 0 || maxChunk == 0 then 0
    else 1 + TurnsOf(SendChunk(s, maxChunk, true).sess, maxChunk)
  }

  lemma {:induction false} ApplyTwice(e: End, sid: U64, first: Effect, second: Effect)
    requires !first.erase && !first.drop && !second.erase && !second.drop
    ensures Apply(Apply(e, sid, first), sid, second) == Apply(e, sid, Effect(second.sess, first.frames + second.frames, false, false))
  {
    assert e.out + first.frames + second.frames == e.out + (first.frames + second.frames);
  }

  lemma {:induction false} ApplyNothing(e: End, sid: U64)
    requires sid in e.sessions
    ensures Apply(e, sid, Only(e.sessions[sid])) == e
  {
    assert e.sessions[sid := e.sessions[sid]] == e.sessions;
    assert e.out + [] == e.out;
  }

  lemma {:induction false} SendAllPlain(s: Sess, maxChunk: nat)
    ensures !SendAll(s, maxChunk).erase && !SendAll(s, maxChunk).drop
  {
  }

  /** The write loop is that many turns in a row. */
  lemma {:induction false} LoopIsTurns(e: End, sid: U64)
    requires sid in e.sessions && !e.closed
    ensures Apply(e, sid, SendAll(e.sessions[sid], e.maxChunk)) == UseMany(e, sid, Turns(TurnsOf(e.sessions[sid], e.maxChunk)))
    decreases |e.sessions[sid].writing|
  {
    var s, maxChunk := e.sessions[sid], e.maxChunk;
    if s.writing == [] || s.credit <= 0 || maxChunk == 0 {
      hide UseMany, Apply;
      ApplyNothing(e, sid);
      assert Turns(0) == [];
      NoCalls(e, sid);
    } else {
      var first := SendChunk(s, maxChunk, true);
      var n := TurnsOf(first.sess, maxChunk);
      var e' := Apply(e, sid, first);
      assert e' == LinkModel.Use(e, sid, WriteChunk);
      assert Turns(1 + n)[1..] == Turns(n);
      SendAllPlain(first.sess, maxChunk);
      ChunkTouches(s, maxChunk, true);
      ApplyTwice(e, sid, first, SendAll(first.sess, maxChunk));
      LoopIsTurns(e', sid);
    }
  }

  /** `write` on the value of a link: the entry, then the loop or nothing. */
  lemma {:induction false} WriteIsCalls(e: End, sid: U64, data: Bytes, ok: bool)
    requires sid in e.sessions && (ok ==> !e.closed)
    ensures var s := StartWrite(e.sessions[sid], data, !e.closed);
            var eff, turns := if ok then SendAll(s, e.maxChunk) else Only(s), if ok then TurnsOf(s, e.maxChunk) else 0;
            Apply(e, sid, eff) == UseMany(e, sid, [BeginWrite(data)] + Turns(turns))
  {
    hide SendAll, TurnsOf, StartWrite, UseMany;
    var s := StartWrite(e.sessions[sid], data, !e.closed);
    var turns := if ok then TurnsOf(s, e.maxChunk) else 0;
    var e' := Apply(e, sid, Only(s));
    assert e' == LinkModel.Use(e, sid, BeginWrite(data));
    CallsCons(e, sid, BeginWrite(data), Turns(turns));
    if ok {
      LoopIsTurns(e', sid);
      SendAllPlain(s, e.maxChunk);
      ApplyTwice(e, sid, Only(s), SendAll(s, e.maxChunk));
      assert [] + SendAll(s, e.maxChunk).frames == SendAll(s, e.maxChunk).frames;
    } else {
      assert Turns(0) == [];
      NoCalls(e', sid);
    }
  }

  lemma {:induction false} NoCalls(e: End, sid: U64)
    ensures UseMany(e, sid, []) == e
  {
  }

  lemma {:induction false} CallsCons(e: End, sid: U64, c: Call, calls: seq<Call>)
    ensures UseMany(e, sid, [c] + calls) == UseMany(LinkModel.Use(e, sid, c), sid, calls)
  {
    hide LinkModel.Use;
    assert ([c] + calls)[1..] == calls;
  }

  lemma {:induction false} OnFrameSilent(s: Sess, f: ShineFrame)
    ensures OnFrame(s, f).frames == []
  {
    hide ParseBinary;
  }

  class Link {
    const isServer: bool
    const initWindow: U32
    const password: Bytes
    const maxChunk: nat
    const limits: Heartbeat.Limits

    var stage: Stage
    var closed: bool
    var sessions: map<U64, Session>
    var out: seq<ShineFrame>
    var pendingPingNonce: U64
    var lastPong: nat
    var lastPingSent: nat

    /** Every session object handed out so far, which its users keep alive. */
    var all: map<U64, Session>
    /** The sessions that have lost something. */
    ghost var lost: set<U64>

    ghost predicate Valid()
      reads this`all, this`sessions, all.Values
    {
      (forall sid :: sid in all ==> all[sid].sid == sid && all[sid].link == this && all[sid].Valid()) &&
      (forall sid :: sid in sessions ==> sid in all && sessions[sid] == all[sid])
    }

    ghost function Values(): map<U64, Sess>
      requires Valid()
      reads this`all, this`sessions, all.Values
    {
      map sid | sid in all :: all[sid].Model()
    }

    ghost function Model(): End
      requires Valid()
      reads this, all.Values
    {
      End(isServer, initWindow, password, maxChunk, limits, stage, closed, Values(), sessions.Keys, out,
          Heartbeat.Heart(pendingPingNonce, lastPong, lastPingSent), lost)
    }

    /** `Link::Link` and `start`; the client's handshake begins by queueing its HELLO. */
    constructor (isServer: bool, initWindow: U32, password: Bytes, maxChunk: nat, limits: Heartbeat.Limits, now: nat)
      ensures Valid() && Model() == Start(isServer, initWindow, password, maxChunk, limits, now) && all == map[]
      ensures this.isServer == isServer
    {
      this.isServer, this.initWindow, this.password, this.maxChunk, this.limits := isServer, initWindow, password, maxChunk, limits;
      stage, closed, sessions := AwaitHello, false, map[];
      out := if isServer then [] else [GREETING];
      pendingPingNonce, lastPong, lastPingSent := 0, now, 0;
      all, lost := map[], {};
    }

    method EnqueueFrame(f: ShineFrame)
      modifies this`out
      ensures out == if closed then old(out) else old(out) + [f]
    {
      if closed {
        return;
      }
      out := out + [f];
    }

    method EraseSession(sid: U64)
      modifies this`sessions
      ensures sessions == old(sessions) - {sid}
    {
      sessions := sessions - {sid};
    }

    lemma {:induction false} KnownIds()
      requires Valid()
      ensures Values().Keys == all.Keys && sessions.Keys <= all.Keys
    {
    }

    /** What of the object is seen in its value. */
    lemma {:induction false} Shown()
      requires Valid()
      ensures var e := Model();
              e.sessions.Keys == all.Keys && e.table == sessions.Keys && e.out == out && e.closed == closed && e.stage == stage &&
              e.server == isServer
    {
      KnownIds();
    }

    /** A session has changed and nothing else has. */
    twostate lemma OnlyOneChanged(sid: U64)
      requires old(Valid()) && Valid() && all == old(all) && sid in all
      requires forall id :: id in all && id != sid ==> all[id].Model() == old(all[id].Model())
      ensures Values() == old(Values())[sid := all[sid].Model()]
    {
    }

    /** A new session object, listed in the table. */
    method AddSession(sid: U64, target: Address, credit: U32, isUdp: bool) returns (s: Session)
      requires Valid() && sid !in all
      modifies this`sessions, this`all
      ensures Valid() && fresh(s) && s.target == target && all == old(all)[sid := s] && sessions.Keys == old(sessions).Keys + {sid}
      ensures Values() == old(Values())[sid := Fresh(sid, target, isUdp, credit, initWindow)]
    {
      hide Session.Model, Session.Valid, Fresh;
      s := new Session(this, sid, target, credit, initWindow, isUdp);
      sessions := sessions[sid := s];
      all := all[sid := s];
    }

    /** A call has done to one session, and to the link for it, what the effect says. */
    twostate lemma Applied(sid: U64, new eff: Effect)
      requires old(Valid()) && all == old(all) && sid in all
      requires all[sid].Valid() && all[sid].Model() == eff.sess
      requires forall id :: id in all && id != sid ==> all[id].Valid() && all[id].Model() == old(all[id].Model())
      requires sessions == (if eff.erase then old(sessions) - {sid} else old(sessions)) && out == old(out) + eff.frames
      requires lost == (if eff.drop then old(lost) + {sid} else old(lost)) && stage == old(stage) && closed == old(closed)
      requires pendingPingNonce == old(pendingPingNonce) && lastPong == old(lastPong) && lastPingSent == old(lastPingSent)
      ensures Valid() && Model() == Apply(old(Model()), sid, eff)
    {
      hide Session.Model, Session.Valid;
      OnlyOneChanged(sid);
    }

    /** A call by the user of a session is a step of its link. */
    method UseSession(sid: U64, c: Call)
      requires Valid() && sid in all
      modifies this, all[sid]
      ensures Valid() && all == old(all) && Model() == LinkModel.Use(old(Model()), sid, c)
    {
      hide Session.Model, Session.Valid, SessionModel.Invoke, Apply;
      ghost var eff := SessionModel.Invoke(all[sid].Model(), c, maxChunk, !closed);
      all[sid].Perform(c);
      lost := if eff.drop then lost + {sid} else lost;
      Applied(sid, eff);
    }

    /** So is `read`, and its answer is the model's. */
    method ReadSession(sid: U64, room: nat) returns (r: Option<Bytes>)
      requires Valid() && sid in all && !all[sid].udp
      modifies this, all[sid]
      ensures Valid() && all == old(all) && Model() == LinkModel.Use(old(Model()), sid, SessionModel.Read(room))
      ensures r == ReadResult(old(all[sid].Model()), room)
    {
      hide Session.Model, Session.Valid, ReadCall, ReadResult, Apply, Session.Rest;
      ghost var eff := ReadCall(all[sid].Model(), room, !closed);
      ReadTouches(all[sid].Model(), room, !closed);
      ReadDropsNothing(all[sid].Model(), room, !closed);
      r := all[sid].Read(room);
      Applied(sid, eff);
    }

    /** And `receiveFrom`. */
    method ReceiveSession(sid: U64) returns (r: Receipt)
      requires Valid() && sid in all && all[sid].udp
      modifies this, all[sid]
      ensures Valid() && all == old(all) && Model() == LinkModel.Use(old(Model()), sid, SessionModel.ReceiveFrom)
      ensures r.Delivered? <==> !ReadSideDone(old(all[sid].state)) && old(all[sid].udpInbox) != []
      ensures r.Delivered? ==> r.datagram == old(all[sid].udpInbox)[0]
    {
      hide Session.Valid, Apply;
      ghost var eff := SessionModel.Only(TakeDatagram(all[sid].Model()));
      r := all[sid].ReceiveFrom();
      assert out + [] == out;
      Applied(sid, eff);
    }

    /** A whole `write`, up to its wait for credit, is its entry and then turns of its loop. */
    method WriteSession(sid: U64, data: Bytes) returns (ok: bool, ghost turns: nat)
      requires Valid() && sid in all && !all[sid].udp && all[sid].unsent == [] && maxChunk > 0
      modifies this, all[sid]
      ensures Valid() && all == old(all) && Model() == UseMany(old(Model()), sid, [BeginWrite(data)] + Turns(turns))
      ensures ok <==> !closed && !WriteSideDone(old(all[sid].state))
    {
      hide Session.Valid, SendAll, TurnsOf, Apply, UseMany, LinkModel.Use;
      ghost var e := Model();
      ghost var s := StartWrite(all[sid].Model(), data, !closed);
      ok := all[sid].Write(data);
      turns := if ok then TurnsOf(s, maxChunk) else 0;
      ghost var eff := if ok then SendAll(s, maxChunk) else Only(s);
      SendAllPlain(s, maxChunk);
      assert out + [] == out;
      Applied(sid, eff);
      WriteIsCalls(e, sid, data, ok);
    }

    /** `openSession`, the random id being a parameter. */
    method OpenSession(sid: U64, target: Address, isUdp: bool) returns (s: Session?)
      requires Valid() && sid !in all
      modifies this
      ensures Valid() && Model() == LinkModel.OpenSession(old(Model()), sid, target, isUdp)
      ensures s != null <==> !closed
      ensures s != null ==> fresh(s) && all == old(all)[sid := s]
      ensures fresh(all.Values - old(all.Values))
      ensures s != null ==> s.target == target && |out| == |old(out)| + 1 && old(out) <= out
      ensures s != null ==>
                var f := out[|old(out)|];
                if isUdp then f == NewUdp(sid)
                else f.New? && f.sid == sid && f.window == initWindow && ParseBinary(f.addrBlob) == Received(target)
    {
      hide Valid, Values, Fresh, ToBinary, ParseBinary, Received;
      KnownIds();
      if closed {
        return null;
      }
      ParseAfterPrint(target, []);
      assert ToBinary(target) + [] == ToBinary(target);
      var session := AddSession(sid, target, initWindow, isUdp);
      EnqueueFrame(if isUdp then NewUdp(sid) else New(sid, ToBinary(target), initWindow));
      return session;
    }

    /** `failLink`. */
    method FailLink()
      requires Valid()
      modifies this, all.Values
      ensures Valid() && all == old(all) && Model() == LinkModel.FailLink(old(Model()))
    {
      hide Session.Model, Session.Valid, OnReset, Values;
      if closed {
        return;
      }
      closed := true;
      var victims := sessions;
      sessions := map[];
      ResetAll(victims);
      ListedReset();
    }

    /** The sessions that were listed have been reset, and no other has changed. */
    twostate lemma ListedReset()
      requires old(Valid()) && Valid() && all == old(all)
      requires forall id :: id in all ==>
                 all[id].Model() == if id in old(sessions) then OnReset(old(all[id].Model())) else old(all[id].Model())
      ensures Values() ==
              map id | id in old(Values()) :: if id in old(sessions).Keys then OnReset(old(Values())[id]) else old(Values())[id]
    {
      hide Session.Model, Session.Valid, OnReset;
    }

    method ResetAll(victims: map<U64, Session>)
      requires Valid() && forall id :: id in victims ==> id in all && victims[id] == all[id]
      modifies all.Values
      ensures Valid() && forall id :: id in all ==>
                all[id].Model() == if id in victims then OnReset(old(all[id].Model())) else old(all[id].Model())
    {
      hide Session.Model, Session.Valid, OnReset;
      var todo := victims.Keys;
      while todo != {}
        invariant Valid() && todo <= victims.Keys
        invariant forall id :: id in all ==>
                    all[id].Model() == if id in victims && id !in todo then OnReset(old(all[id].Model())) else old(all[id].Model())
        decreases |todo|
      {
        var id :| id in todo;
        victims[id].OnResetFrame();
        todo := todo - {id};
      }
    }

    method CloseNow()
      requires Valid()
      modifies this`closed
      ensures Valid() && Model() == LinkModel.CloseNow(old(Model()))
    {
      closed := true;
    }

    /** One turn of `heartbeatLoop`; the nonce is drawn by the caller. */
    method Beat(now: nat, random: U64)
      requires Valid()
      modifies this, all.Values
      ensures Valid() && all == old(all) && Model() == LinkModel.Beat(old(Model()), now, random)
    {
      hide Valid, Values, Heartbeat.Elapsed, LinkModel.FailLink;
      if closed || stage != Ready {
        return;
      }
      ghost var h := Heartbeat.Heart(pendingPingNonce, lastPong, lastPingSent);
      if pendingPingNonce != 0 && Heartbeat.Elapsed(now, lastPingSent) > limits.pongTimeout {
        assert Heartbeat.Decide(h, now, random, limits).TimedOut?;
        FailLink();
        return;
      }
      if pendingPingNonce == 0 && Heartbeat.Elapsed(now, lastPong) > limits.pingInterval {
        var nonce := random;
        if nonce == 0 {
          nonce := 1;
        }
        pendingPingNonce, lastPingSent := nonce, now;
        EnqueueFrame(Ping(nonce));
      }
    }

    /** One frame of `handshakeServer` or `handshakeClient`. */
    method HandshakeFrame(f: ShineFrame)
      requires Valid() && !closed && stage != Ready
      modifies this, all.Values
      ensures Valid() && all == old(all) && Model() == Greet(old(Model()), f)
    {
      hide Valid, Values, LinkModel.FailLink;
      if stage == AwaitHello {
        if !f.Hello? {
          lost := lost + SidSet(f);
          FailLink();
          return;
        }
        if isServer {
          EnqueueFrame(GREETING);
          stage := if password == [] then Ready else AwaitAuth;
        } else if password == [] {
          stage := Ready;
        } else {
          EnqueueFrame(Auth(password));
          stage := AwaitOk;
        }
      } else if stage == AwaitAuth {
        if !f.Auth? {
          lost := lost + SidSet(f);
          FailLink();
          return;
        }
        if f.password != password {
          EnqueueFrame(REFUSAL);
          FailLink();
          return;
        }
        EnqueueFrame(Okay);
        stage := Ready;
      } else {
        if f.Okay? {
          stage := Ready;
        } else {
          lost := lost + SidSet(f);
          FailLink();
        }
      }
    }

    /** Whether the reader has to wait before it can hand this frame over. */
    method Waits(f: ShineFrame) returns (b: bool)
      requires Valid()
      ensures b <==> Blocked(Model(), f)
    {
      KnownIds();
      if stage != Ready || !f.Data? || f.sid !in sessions {
        return false;
      }
      var s := sessions[f.sid];
      return f.payload != [] && !s.udp && s.channelOpen && |s.inbox| >= INBOX_SLOTS;
    }

    /** The next frame from the peer: the handshake's while it lasts, then the dispatcher's. */
    method ReceiveFrame(f: ShineFrame, now: nat)
      requires Valid() && !closed && (isServer && (f.New? || f.NewUdp?) ==> f.sid in sessions || f.sid !in all)
      modifies this, all.Values
      ensures Valid() && (forall id :: id in old(all) ==> id in all && all[id] == old(all)[id])
      ensures fresh(all.Values - old(all.Values))
      ensures Model() == Receive(old(Model()), f, now)
    {
      hide Valid, Values, Dispatch, Greet;
      if stage == Ready {
        DispatchFrame(f, now);
      } else {
        HandshakeFrame(f);
      }
    }

    /** The oldest frame leaves for the peer. */
    method Unqueue() returns (f: ShineFrame)
      requires out != []
      modifies this`out
      ensures f == old(out)[0] && out == old(out)[1..]
    {
      f, out := out[0], out[1..];
    }

    /** The last frames under way are lost. */
    method CutOut(keep: nat)
      requires keep <= |out|
      modifies this`out, this`lost
      ensures out == old(out)[..keep] && lost == old(lost) + W.SidsIn(old(out)[keep..])
    {
      lost := lost + W.SidsIn(out[keep..]);
      out := out[..keep];
    }

    /** `dispatchFrame`. A DATA frame comes only when its session has room for it, and NEW does not name a session that
        has been closed. */
    method DispatchFrame(f: ShineFrame, now: nat)
      requires Valid() && !closed && (isServer && (f.New? || f.NewUdp?) ==> f.sid in sessions || f.sid !in all)
      modifies this, all.Values
      ensures Valid() && (forall id :: id in old(all) ==> id in all && all[id] == old(all)[id])
      ensures fresh(all.Values - old(all.Values))
      ensures Model() == Dispatch(old(Model()), f, now)
      ensures f.Hello? || f.Auth? || f.Okay? || f.Failure? || f.Ack? || (!isServer && (f.New? || f.NewUdp?)) ==> Model() == old(Model())
    {
      hide Valid, Values, Accept, ForSession, ParseBinary;
      match f {
        case New(sid, blob, window) =>
          if isServer {
            AcceptSession(sid, false, window, ParseBinary(blob));
          }
        case NewUdp(sid) =>
          if isServer {
            AcceptSession(sid, true, 0, Ok(NO_TARGET));
          }
        case Data(sid, _) => SessionFrame(sid, f);
        case UdpData(sid, _, _) => SessionFrame(sid, f);
        case Close(sid, _) => SessionFrame(sid, f);
        case Reset(sid) => SessionFrame(sid, f);
        case Window(sid, _) => SessionFrame(sid, f);
        case _ => HeartFrame(f, now);
      }
    }

    /** The PING and PONG branches of `dispatchFrame`; what is left is ignored. */
    method HeartFrame(f: ShineFrame, now: nat)
      requires Valid() && !closed && (SidOf(f).None? || f.Ack?)
      modifies this`out, this`pendingPingNonce, this`lastPong
      ensures Valid() && Model() == Dispatch(old(Model()), f, now)
    {
      hide Valid, Values;
      match f {
        case Ping(nonce) => EnqueueFrame(Pong(nonce));
        case Pong(nonce) =>
          if pendingPingNonce == nonce {
            pendingPingNonce, lastPong := 0, now;
          }
        case _ =>
      }
    }

    /** The NEW and NEW_UDP branches of `dispatchFrame`. */
    method AcceptSession(sid: U64, isUdp: bool, credit: U32, target: Result<Address, AddressError>)
      requires Valid() && !closed && (sid in sessions || sid !in all)
      modifies this
      ensures Valid() && (forall id :: id in old(all) ==> id in all && all[id] == old(all)[id])
      ensures fresh(all.Values - old(all.Values))
      ensures Model() == Accept(old(Model()), sid, isUdp, credit, target)
    {
      hide Valid, Values, Fresh;
      KnownIds();
      if target.Err? {
        EnqueueFrame(ShineFrame.Reset(sid));
        return;
      }
      if sid in sessions {
        // `emplace` keeps the session that is listed; the new object stays outside the table.
        var unlisted := new Session(this, sid, target.value, credit, initWindow, isUdp);
      } else {
        var s := AddSession(sid, target.value, credit, isUdp);
      }
      EnqueueFrame(Ack(sid));
    }

    /** The branches of `dispatchFrame` that look up a session first. */
    method SessionFrame(sid: U64, f: ShineFrame)
      requires Valid() && !closed && SidOf(f) == Some(sid) && (f.Data? || f.UdpData? || f.Close? || f.Reset? || f.Window?)
      modifies this, all.Values
      ensures Valid() && all == old(all) && Model() == ForSession(old(Model()), sid, f)
    {
      hide Valid, Values, OnFrame;
      ghost var was := Model();
      KnownIds();
      if sid !in sessions {
        lost := lost + {sid};
        return;
      }
      var erase := HandOver(sid, f);
      OnFrameSilent(was.sessions[sid], f);
      assert out + [] == out;
      if OnFrame(was.sessions[sid], f).drop {
        lost := lost + {sid};
      }
      if erase {
        Forget(sid);
      }
    }

    /** The session part of a frame for a listed session. */
    method HandOver(sid: U64, f: ShineFrame) returns (erase: bool)
      requires Valid() && sid in sessions
      modifies all.Values
      ensures Valid() && sid in old(Values())
      ensures var eff := OnFrame(old(Values())[sid], f);
              Values() == old(Values())[sid := eff.sess] && erase == eff.erase
    {
      hide Session.Model, Session.Valid, OnFrame;
      erase := sessions[sid].Handle(f);
      OnlyOneChanged(sid);
    }

    method Forget(sid: U64)
      requires Valid()
      modifies this`sessions
      ensures Valid() && sessions == old(sessions) - {sid} && Values() == old(Values())
    {
      EraseSession(sid);
    }
  }
}
