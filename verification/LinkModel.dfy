/** One end of a link as a value: handshake, session table, write queue and heartbeat (src/transport/link.cpp). */
module LinkModel {
  import opened Octets
  import opened ShineFrames
  import opened Addresses
  import opened SessionModel
  import Heartbeat

  datatype Stage = AwaitHello | AwaitAuth | AwaitOk | Ready

  /** `sessions` holds every session object created so far, `table` the ids that `sessions_` still lists, `out` the
      frames in the write queue and in the socket. `lost` is history: sessions that had data or credit thrown away. */
  datatype End = End(
    server: bool,
    window: U32,
    password: Bytes,
    maxChunk: nat,
    limits: Heartbeat.Limits,
    stage: Stage,
    closed: bool,
    sessions: map<U64, Sess>,
    table: set<U64>,
    out: seq<ShineFrame>,
    heart: Heartbeat.Heart,
    lost: set<U64>)

  /** "1" and "mux,flow". */
  const GREETING: ShineFrame := Hello([49], [109, 117, 120, 44, 102, 108, 111, 119])

  /** "AUTH" and "bad password". */
  const REFUSAL: ShineFrame := Failure([65, 85, 84, 72], [98, 97, 100, 32, 112, 97, 115, 115, 119, 111, 114, 100])

  /** `Address()`, the target of a session that NEW_UDP creates. */
  const NO_TARGET: Address := Domain([], 0)

  function Start(server: bool, window: U32, password: Bytes, maxChunk: nat, limits: Heartbeat.Limits, now: nat): End {
    End(server, window, password, maxChunk, limits, AwaitHello, false, map[], {},
        if server then [] else [GREETING], Heartbeat.Heart(0, now, 0), {})
  }

  /** The session that a frame is about. */
  function SidOf(f: ShineFrame): Option<U64> {
    match f
    case New(sid, _, _) => Some(sid)
    case Ack(sid) => Some(sid)
    case Close(sid, _) => Some(sid)
    case Reset(sid) => Some(sid)
    case Window(sid, _) => Some(sid)
    case Data(sid, _) => Some(sid)
    case NewUdp(sid) => Some(sid)
    case UdpData(sid, _, _) => Some(sid)
    case _ => None
  }

  function SidSet(f: ShineFrame): set<U64> {
    match SidOf(f)
    case None => {}
    case Some(sid) => {sid}
  }

  function Lose(e: End, f: ShineFrame): End {
    e.(lost := e.lost + SidSet(f))
  }

  function Post(e: End, f: ShineFrame): End {
    if e.closed then e else e.(out := e.out + [f])
  }

  /** Install what a step did to one session. */
  function Apply(e: End, sid: U64, eff: Effect): End {
    e.(sessions := e.sessions[sid := eff.sess],
       table := if eff.erase then e.table - {sid} else e.table,
       out := e.out + eff.frames,
       lost := if eff.drop then e.lost + {sid} else e.lost)
  }

  // ---------------- local steps ----------------

  function Use(e: End, sid: U64, c: Call): End {
    if sid in e.sessions then Apply(e, sid, Invoke(e.sessions[sid], c, e.maxChunk, !e.closed)) else e
  }

  /** `openSession` with an id that has not been used before; the source draws it at random. */
  function OpenSession(e: End, sid: U64, target: Address, udp: bool): End {
    if e.closed || sid in e.sessions then e
    else
      e.(sessions := e.sessions[sid := Fresh(sid, target, udp, e.window, e.window)],
         table := e.table + {sid},
         out := e.out + [if udp then NewUdp(sid) else New(sid, ToBinary(target), e.window)])
  }

  function FailLink(e: End): End {
    if e.closed then e
    else
      e.(closed := true,
         sessions := map sid | sid in e.sessions :: if sid in e.table then OnReset(e.sessions[sid]) else e.sessions[sid],
         table := {})
  }

  /** `closeNow` and the destructor: sessions are left as they are. */
  function CloseNow(e: End): End {
    e.(closed := true)
  }

  /** One turn of `heartbeatLoop`. */
  function Beat(e: End, now: nat, nonce: U64): End {
    if e.closed || !e.stage.Ready? then e
    else
      var e' := e.(heart := Heartbeat.Tick(e.heart, now, nonce, e.limits));
      match Heartbeat.Decide(e.heart, now, nonce, e.limits)
      case Quiet => e'
      case SendPing(n) => Post(e', Ping(n))
      case TimedOut => FailLink(e')
  }

  // ---------------- frames from the peer ----------------

  /** The reader has to wait before it can dispatch this frame. */
  predicate Blocked(e: End, f: ShineFrame) {
    e.stage.Ready? && f.Data? && f.sid in e.table && f.sid in e.sessions && MustWait(e.sessions[f.sid], f)
  }

  function Receive(e: End, f: ShineFrame, now: nat): End {
    if e.stage.Ready? then Dispatch(e, f, now) else Greet(e, f)
  }

  /** `handshakeServer` and `handshakeClient`, frame by frame. */
  function Greet(e: End, f: ShineFrame): End {
    match e.stage
    case AwaitHello =>
      if !f.Hello? then FailLink(Lose(e, f))
      else if e.server then Post(e, GREETING).(stage := if e.password == [] then Ready else AwaitAuth)
      else if e.password == [] then e.(stage := Ready)
      else Post(e, Auth(e.password)).(stage := AwaitOk)
    case AwaitAuth =>
      if !f.Auth? then FailLink(Lose(e, f))
      else if f.password != e.password then FailLink(Post(e, REFUSAL))
      else Post(e, Okay).(stage := Ready)
    case _ =>
      if f.Okay? then e.(stage := Ready) else FailLink(Lose(e, f))
  }

  /** `dispatchFrame`. */
  function Dispatch(e: End, f: ShineFrame, now: nat): End {
    match f
    case New(sid, blob, window) => if e.server then Accept(e, sid, false, window, ParseBinary(blob)) else e
    case NewUdp(sid) => if e.server then Accept(e, sid, true, 0, Ok(NO_TARGET)) else e
    case Ping(nonce) => Post(e, Pong(nonce))
    case Pong(nonce) => e.(heart := Heartbeat.OnPong(e.heart, nonce, now))
    case Data(sid, _) => ForSession(e, sid, f)
    case UdpData(sid, _, _) => ForSession(e, sid, f)
    case Close(sid, _) => ForSession(e, sid, f)
    case Reset(sid) => ForSession(e, sid, f)
    case Window(sid, _) => ForSession(e, sid, f)
    case _ => e
  }

  function ForSession(e: End, sid: U64, f: ShineFrame): End {
    if sid in e.table && sid in e.sessions then Apply(e, sid, OnFrame(e.sessions[sid], f)) else Lose(e, f)
  }

  /** A NEW or NEW_UDP on the server: ACK and a session, or RESET when the address does not parse. Ids are fresh, so
      the case of a known id, in which `emplace` keeps the old session, does not arise in any run. */
  function Accept(e: End, sid: U64, udp: bool, credit: U32, target: Result<Address, AddressError>): End {
    if target.Err? then Post(e, Reset(sid))
    else if sid in e.sessions then Post(e, Ack(sid))
    else Post(e.(sessions := e.sessions[sid := Fresh(sid, target.value, udp, credit, e.window)], table := e.table + {sid}), Ack(sid))
  }
}
