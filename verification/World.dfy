/** Two joined links and everything that can happen to them, one handler-atomic step at a time. */
module World {
  import opened Octets
  import opened ShineFrames
  import opened Addresses
  import opened SessionModel
  import opened LinkModel
  import Heartbeat

  datatype Side = Client | Server

  function Peer(side: Side): Side {
    if side.Client? then Server else Client
  }

  datatype Config = Config(
    clientWindow: U32, serverWindow: U32,
    clientPassword: Bytes, serverPassword: Bytes,
    clientChunk: nat, serverChunk: nat,
    limits: Heartbeat.Limits, start: nat)

  /** Each end's `out` is the pipe towards the other end. */
  datatype World = World(client: End, server: End)

  function Initial(cfg: Config): World {
    World(Start(false, cfg.clientWindow, cfg.clientPassword, cfg.clientChunk, cfg.limits, cfg.start),
          Start(true, cfg.serverWindow, cfg.serverPassword, cfg.serverChunk, cfg.limits, cfg.start))
  }

  function EndOf(w: World, side: Side): End {
    if side.Client? then w.client else w.server
  }

  function With(w: World, side: Side, e: End): World {
    if side.Client? then w.(client := e) else w.(server := e)
  }

  datatype Act =
    | Use(side: Side, sid: U64, call: Call)
    | Open(sid: U64, target: Address, udp: bool)
    | Deliver(side: Side, now: nat)
    | Beat(side: Side, now: nat, nonce: U64)
    | Fail(side: Side)
    | CloseNow(side: Side)
    | Cut(side: Side, keep: nat)

  /** The next frame can reach `side`: its link is up and its reader is not waiting for room in an inbox. */
  predicate CanDeliver(w: World, side: Side) {
    !EndOf(w, side).closed && EndOf(w, Peer(side)).out != [] && !Blocked(EndOf(w, side), EndOf(w, Peer(side)).out[0])
  }

  /** Frames under way are lost only when one of the links is down. */
  predicate CanCut(w: World, side: Side, keep: nat) {
    (EndOf(w, side).closed || EndOf(w, Peer(side)).closed) && keep <= |EndOf(w, side).out|
  }

  function SidsIn(out: seq<ShineFrame>): set<U64> {
    if out == [] then {} else SidSet(out[0]) + SidsIn(out[1..])
  }

  /** An act that is not possible leaves the world as it is, so every list of acts is a run. */
  function Step(w: World, a: Act): World {
    match a
    case Use(side, sid, call) => With(w, side, LinkModel.Use(EndOf(w, side), sid, call))
    case Open(sid, target, udp) => With(w, Client, OpenSession(w.client, sid, target, udp))
    case Deliver(side, now) => if CanDeliver(w, side) then DeliverTo(w, side, now) else w
    case Beat(side, now, nonce) => With(w, side, LinkModel.Beat(EndOf(w, side), now, nonce))
    case Fail(side) => With(w, side, FailLink(EndOf(w, side)))
    case CloseNow(side) => With(w, side, LinkModel.CloseNow(EndOf(w, side)))
    case Cut(side, keep) => if CanCut(w, side, keep) then CutPipe(w, side, keep) else w
  }

  function DeliverTo(w: World, side: Side, now: nat): World
    requires EndOf(w, Peer(side)).out != []
  {
    var from := EndOf(w, Peer(side));
    var w' := With(w, Peer(side), from.(out := from.out[1..]));
    With(w', side, Receive(EndOf(w, side), from.out[0], now))
  }

  function CutPipe(w: World, side: Side, keep: nat): World
    requires keep <= |EndOf(w, side).out|
  {
    var e := EndOf(w, side);
    With(w, side, e.(out := e.out[..keep], lost := e.lost + SidsIn(e.out[keep..])))
  }

  function Run(w: World, acts: seq<Act>): World {
    if acts == [] then w else Step(Run(w, acts[..|acts| - 1]), acts[|acts| - 1])
  }
}
