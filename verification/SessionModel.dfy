/** One endpoint of one logical session as a value, and what each call or frame does to it
    (src/transport/session.cpp). Every function is one handler-atomic step. */
module SessionModel {
  import opened Octets
  import opened ShineFrames
  import opened Addresses

  datatype Phase = Open | HalfClosedLocal | HalfClosedRemote | Closed

  datatype Datagram = Datagram(payload: Bytes, addr: Address)

  const INBOX_SLOTS: nat := 1024

  /** `receiving` says that the inbox channel is open. `writing` is what the current `write` call has still to send.
      `closeSpawned` is the CLOSE that `close()` hands to a detached coroutine. The last six fields are history:
      bytes passed to `write`, bytes put on the wire, bytes returned by `read`, datagrams sent and received, and
      whether `shutdownWrite` or `close` has been called. */
  datatype Sess = Sess(
    sid: U64,
    target: Address,
    udp: bool,
    window: U32,
    credit: int,
    unacked: U32,
    phase: Phase,
    receiving: bool,
    inbox: seq<Bytes>,
    leftover: Bytes,
    udpInbox: seq<Datagram>,
    writing: Bytes,
    closeSpawned: bool,
    accepted: Bytes,
    sent: Bytes,
    got: Bytes,
    datagramsSent: seq<Datagram>,
    datagramsGot: seq<Datagram>,
    shut: bool)

  /** The new state, the frames put on the link's write queue, whether the session leaves the link's table, and
      whether bytes or credit for it were thrown away. */
  datatype Effect = Effect(sess: Sess, frames: seq<ShineFrame>, erase: bool, drop: bool)

  function Fresh(sid: U64, target: Address, udp: bool, credit: U32, window: U32): Sess {
    Sess(sid, target, udp, window, credit, 0, Open, true, [], [], [], [], false, [], [], [], [], [], false)
  }

  function Only(s: Sess): Effect {
    Effect(s, [], false, false)
  }

  predicate ReadSideDone(p: Phase) {
    p.Closed? || p.HalfClosedRemote?
  }

  predicate WriteSideDone(p: Phase) {
    p.Closed? || p.HalfClosedLocal?
  }

  // ---------------- calls by the user of the session ----------------

  datatype Call =
    | Read(room: nat)
    | BeginWrite(data: Bytes)
    | WriteChunk
    | ShutdownWrite
    | CloseCall
    | FlushClose
    | SendTo(payload: Bytes, addr: Address)
    | ReceiveFrom

  function Invoke(s: Sess, c: Call, maxChunk: nat, linkOpen: bool): Effect {
    match c
    case Read(room) => ReadCall(s, room, linkOpen)
    case BeginWrite(data) => Only(StartWrite(s, data, linkOpen))
    case WriteChunk => SendChunk(s, maxChunk, linkOpen)
    case ShutdownWrite => Shutdown(s, linkOpen)
    case CloseCall => CloseBoth(s, linkOpen)
    case FlushClose => Flush(s, linkOpen)
    case SendTo(payload, addr) => SendDatagram(s, payload, addr, linkOpen)
    case ReceiveFrom => Only(TakeDatagram(s))
  }

  /** The bytes a `read` into `room` bytes returns now; `None` while it waits. An empty result is end of file, or an
      empty buffer. */
  function ReadResult(s: Sess, room: nat): Option<Bytes> {
    if s.leftover != [] then Some(s.leftover[..Min(room, |s.leftover|)])
    else if ReadSideDone(s.phase) then Some([])
    else if s.inbox == [] then (if s.receiving then None else Some([]))
    else Some(s.inbox[0][..Min(room, |s.inbox[0]|)])
  }

  function ReadCall(s: Sess, room: nat, linkOpen: bool): Effect {
    if s.udp then Only(s)
    else if s.leftover != [] then
      Consumed(s, s.leftover, room, s.inbox, linkOpen)
    else if ReadSideDone(s.phase) || s.inbox == [] then Only(s)
    else Consumed(s, s.inbox[0], room, s.inbox[1..], linkOpen)
  }

  /** Hand out up to `room` bytes of `payload` and keep the rest as leftover. */
  function Consumed(s: Sess, payload: Bytes, room: nat, inbox: seq<Bytes>, linkOpen: bool): Effect {
    var n := Min(room, |payload|);
    MaybeSendWindow(
      s.(inbox := inbox, leftover := payload[n..], got := s.got + payload[..n], unacked := (s.unacked + n) % U32_LIMIT),
      linkOpen)
  }

  function MaybeSendWindow(s: Sess, linkOpen: bool): Effect {
    if linkOpen && s.unacked >= s.window / 2 then
      Effect(s.(unacked := 0), [Window(s.sid, s.unacked)], false, false)
    else Only(s)
  }

  /** The entry checks of `write`. */
  function StartWrite(s: Sess, data: Bytes, linkOpen: bool): Sess {
    if s.udp || !linkOpen || WriteSideDone(s.phase) || s.writing != [] then s
    else s.(writing := data, accepted := s.accepted + data)
  }

  /** One turn of the write loop. Without credit the writer waits, and gives up only if it finds the link closed;
      the session's own state is not looked at again. A frame offered to a closed link is lost. */
  function SendChunk(s: Sess, maxChunk: nat, linkOpen: bool): Effect {
    if s.writing == [] then Only(s)
    else if s.credit <= 0 then Only(if linkOpen then s else s.(writing := []))
    else
      var n := Min(|s.writing|, Min(maxChunk, s.credit));
      var chunk, rest := s.writing[..n], s.writing[n..];
      if n == 0 then Only(s)
      else if linkOpen then
        Effect(s.(writing := rest, credit := s.credit - n, sent := s.sent + chunk), [Data(s.sid, chunk)], false, false)
      else Effect(s.(writing := rest, credit := s.credit - n), [], false, true)
  }

  function Shutdown(s: Sess, linkOpen: bool): Effect {
    if !linkOpen then Only(s)
    else
      match s.phase
      case Open => Effect(s.(phase := HalfClosedLocal, shut := true), [Close(s.sid, [])], false, false)
      case HalfClosedRemote => Effect(s.(phase := Closed, shut := true), [Close(s.sid, [])], true, false)
      case _ => Only(s.(shut := true))
  }

  function CloseBoth(s: Sess, linkOpen: bool): Effect {
    var s' := s.(receiving := false, shut := s.shut || linkOpen);
    if s.phase.Closed? then Only(s')
    else Effect(s'.(phase := Closed, closeSpawned := s.closeSpawned || linkOpen), [], true, false)
  }

  /** The detached coroutine of `close()` gets to run. */
  function Flush(s: Sess, linkOpen: bool): Effect {
    if !s.closeSpawned then Only(s)
    else Effect(s.(closeSpawned := false), if linkOpen then [Close(s.sid, [])] else [], false, false)
  }

  function SendDatagram(s: Sess, payload: Bytes, addr: Address, linkOpen: bool): Effect {
    if !s.udp || !linkOpen || WriteSideDone(s.phase) then Only(s)
    else Effect(s.(datagramsSent := s.datagramsSent + [Datagram(payload, addr)]),
                [UdpData(s.sid, ToBinary(addr), payload)], false, false)
  }

  function TakeDatagram(s: Sess): Sess {
    if !s.udp || ReadSideDone(s.phase) || s.udpInbox == [] then s
    else s.(udpInbox := s.udpInbox[1..], datagramsGot := s.datagramsGot + [s.udpInbox[0]])
  }

  // ---------------- frames for a session in the table ----------------

  function OnFrame(s: Sess, f: ShineFrame): Effect {
    match f
    case Data(_, payload) => OnData(s, payload)
    case UdpData(_, blob, payload) =>
      (match ParseBinary(blob)
       case Err(_) => Only(s)
       case Ok(addr) => Only(OnUdpData(s, Datagram(payload, addr))))
    case Close(_, _) =>
      var s' := OnPeerClose(s);
      Effect(s', [], s'.phase.Closed?, false)
    case Reset(_) => Effect(OnReset(s), [], true, false)
    case Window(_, delta) => Only(s.(credit := s.credit + delta))
    case _ => Only(s)
  }

  function OnData(s: Sess, payload: Bytes): Effect {
    if payload == [] then Only(s)
    else if s.udp || !s.receiving then Effect(s, [], false, true)
    else Only(s.(inbox := s.inbox + [payload]))
  }

  /** A full queue drops the datagram instead of making the link's reader wait. */
  function OnUdpData(s: Sess, d: Datagram): Sess {
    if s.udp && s.receiving && |s.udpInbox| < INBOX_SLOTS then s.(udpInbox := s.udpInbox + [d]) else s
  }

  function OnPeerClose(s: Sess): Sess {
    var phase' :=
      match s.phase
      case HalfClosedLocal => Closed
      case Open => HalfClosedRemote
      case other => other;
    s.(phase := phase', receiving := false)
  }

  function OnReset(s: Sess): Sess {
    s.(phase := Closed, receiving := false)
  }

  /** A DATA frame waits while the inbox is full: `onData` blocks the link's reader. */
  predicate MustWait(s: Sess, f: ShineFrame) {
    f.Data? && f.payload != [] && !s.udp && s.receiving && |s.inbox| >= INBOX_SLOTS
  }

  // ---------------- what a call leaves alone ----------------

  /** What each call may change in its session, and what it may announce. */
  predicate Touches(s: Sess, c: Call, linkOpen: bool, eff: Effect) {
    var s', fs := eff.sess, eff.frames;
    |fs| <= 1 && (fs != [] ==> linkOpen) && (linkOpen ==> !eff.drop) &&
    match c
    case Read(_) =>
      s'.(inbox := s.inbox, leftover := s.leftover, got := s.got, unacked := s.unacked) == s && !eff.erase && (fs != [] ==> fs[0].Window? && fs[0].sid == s.sid)
    case BeginWrite(_) => s'.(writing := s.writing, accepted := s.accepted) == s && !eff.erase && fs == []
    case WriteChunk =>
      s'.(writing := s.writing, credit := s.credit, sent := s.sent) == s && !eff.erase && (fs != [] ==> fs[0].Data? && fs[0].sid == s.sid)
    case SendTo(_, _) => s'.(datagramsSent := s.datagramsSent) == s && !eff.erase && (fs != [] ==> fs[0].UdpData? && fs[0].sid == s.sid)
    case ReceiveFrom => s'.(udpInbox := s.udpInbox, datagramsGot := s.datagramsGot) == s && !eff.erase && fs == []
    case _ =>
      s'.(phase := s.phase, receiving := s.receiving, shut := s.shut, closeSpawned := s.closeSpawned) == s &&
      (s'.receiving ==> s.receiving) && (fs != [] ==> fs[0].Close? && fs[0].sid == s.sid)
  }

  lemma {:induction false} CallTouches(s: Sess, c: Call, maxChunk: nat, linkOpen: bool)
    ensures Touches(s, c, linkOpen, Invoke(s, c, maxChunk, linkOpen))
  {
    hide Touches, ReadCall, SendChunk, StartWrite, Shutdown, CloseBoth, Flush, SendDatagram, TakeDatagram;
    match c {
      case Read(room) => ReadTouches(s, room, linkOpen);
      case BeginWrite(data) => BeginTouches(s, data, linkOpen);
      case WriteChunk => ChunkTouches(s, maxChunk, linkOpen);
      case SendTo(payload, addr) => DatagramTouches(s, payload, addr, linkOpen);
      case ReceiveFrom => DatagramTouches(s, [], Domain([], 0), linkOpen);
      case ShutdownWrite => ShutdownTouches(s, linkOpen);
      case CloseCall => CloseTouches(s, linkOpen);
      case FlushClose => FlushTouches(s, linkOpen);
    }
  }

  lemma {:induction false} ReadTouches(s: Sess, room: nat, linkOpen: bool)
    ensures Touches(s, Read(room), linkOpen, ReadCall(s, room, linkOpen))
  {
    hide Consumed;
    if s.leftover != [] {
      ConsumedTouches(s, s.leftover, room, s.inbox, linkOpen);
    } else if s.inbox != [] {
      ConsumedTouches(s, s.inbox[0], room, s.inbox[1..], linkOpen);
    }
  }

  lemma {:induction false} ConsumedTouches(s: Sess, payload: Bytes, room: nat, inbox: seq<Bytes>, linkOpen: bool)
    ensures Touches(s, Read(room), linkOpen, Consumed(s, payload, room, inbox, linkOpen))
  {
  }

  lemma {:induction false} ChunkTouches(s: Sess, maxChunk: nat, linkOpen: bool)
    ensures Touches(s, WriteChunk, linkOpen, SendChunk(s, maxChunk, linkOpen))
  {
  }

  lemma {:induction false} BeginTouches(s: Sess, data: Bytes, linkOpen: bool)
    ensures Touches(s, BeginWrite(data), linkOpen, Only(StartWrite(s, data, linkOpen)))
  {
  }

  lemma {:induction false} DatagramTouches(s: Sess, payload: Bytes, addr: Address, linkOpen: bool)
    ensures Touches(s, SendTo(payload, addr), linkOpen, SendDatagram(s, payload, addr, linkOpen))
    ensures Touches(s, ReceiveFrom, linkOpen, Only(TakeDatagram(s)))
  {
    hide ToBinary;
  }

  lemma {:induction false} ShutdownTouches(s: Sess, linkOpen: bool)
    ensures Touches(s, ShutdownWrite, linkOpen, Shutdown(s, linkOpen))
  {
  }

  lemma {:induction false} CloseTouches(s: Sess, linkOpen: bool)
    ensures Touches(s, CloseCall, linkOpen, CloseBoth(s, linkOpen))
  {
  }

  lemma {:induction false} FlushTouches(s: Sess, linkOpen: bool)
    ensures Touches(s, FlushClose, linkOpen, Flush(s, linkOpen))
  {
  }

  // ---------------- what read returns ----------------

  /** `read` returns what it records as read: the front of the leftover, or else of the next payload, as much of it as
      there is room for; and it waits only while there is nothing and more may come. */
  lemma {:induction false} ReadReturns(s: Sess, room: nat, linkOpen: bool)
    requires !s.udp
    ensures var r := ReadResult(s, room);
            ReadCall(s, room, linkOpen).sess.got == s.got + (if r.Some? then r.value else [])
    ensures var r := ReadResult(s, room);
            r.Some? ==> |r.value| <= room && r.value <= s.leftover + Flatten(s.inbox)
    ensures s.leftover != [] ==> ReadResult(s, room).Some? && |ReadResult(s, room).value| == Min(room, |s.leftover|)
    ensures s.leftover == [] && !ReadSideDone(s.phase) && s.inbox != [] ==>
              ReadResult(s, room).Some? && |ReadResult(s, room).value| == Min(room, |s.inbox[0]|)
  {
    hide MaybeSendWindow;
    assert s.got + [] == s.got;
    WindowKeepsRead(linkOpen);
  }

  lemma {:induction false} WindowKeepsRead(linkOpen: bool)
    ensures forall s: Sess :: MaybeSendWindow(s, linkOpen).sess.got == s.got
  {
  }
}
