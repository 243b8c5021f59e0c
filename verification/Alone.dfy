/** A session by itself: for every run there is a run of the same two links that never hears of any other session, and in
    which this session, the handshake and the heartbeat go exactly the same. */
module Alone {
  import opened Octets
  import opened ShineFrames
  import opened Addresses
  import opened SessionModel
  import opened LinkModel
  import opened Isolation
  import opened Guarantees
  import Heartbeat
  import W = World

  /** The frames of a pipe that are about this session or about the link. */
  function Mine(out: seq<ShineFrame>, sid: U64): seq<ShineFrame> {
    if out == [] then [] else (if Concerns(out[0], sid) then [out[0]] else []) + Mine(out[1..], sid)
  }

  predicate Concerns(f: ShineFrame, sid: U64) {
    SidOf(f) == None || SidOf(f) == Some(sid)
  }

  function Own(sessions: map<U64, Sess>, sid: U64): map<U64, Sess> {
    if sid in sessions then map[sid := sessions[sid]] else map[]
  }

  /** An end without the other sessions. */
  function AloneEnd(e: End, sid: U64): End {
    e.(sessions := Own(e.sessions, sid), table := e.table * {sid}, out := Mine(e.out, sid), lost := e.lost * {sid})
  }

  function AloneIn(w: W.World, sid: U64): W.World {
    W.World(AloneEnd(w.client, sid), AloneEnd(w.server, sid))
  }

  /** What is left of an act: frames of other sessions are not there to be delivered, except that one which breaks the
      handshake is an ordinary failure. */
  function ActsFor(w: W.World, a: W.Act, sid: U64): seq<W.Act> {
    match a
    case Use(side, id, call) => if id == sid then [a] else []
    case Open(id, target, udp) => if id == sid then [a] else []
    case Deliver(side, now) =>
      if !W.CanDeliver(w, side) then []
      else if Concerns(W.EndOf(w, W.Peer(side)).out[0], sid) then [a]
      else if W.EndOf(w, side).stage.Ready? then [] else [W.Fail(side)]
    case Cut(side, keep) => if W.CanCut(w, side, keep) then [W.Cut(side, |Mine(W.EndOf(w, side).out[..keep], sid)|)] else []
    case _ => [a]
  }

  predicate About(a: W.Act, sid: U64) {
    (a.Use? ==> a.sid == sid) && (a.Open? ==> a.sid == sid)
  }

  // ---------------- pipes ----------------

  lemma {:induction false} MineAppend(a: seq<ShineFrame>, b: seq<ShineFrame>, sid: U64)
    ensures Mine(a + b, sid) == Mine(a, sid) + Mine(b, sid)
  {
    hide Mine, Concerns;
    if a == [] {
      assert a + b == b;
      MineNone(sid);
    } else {
      assert (a + b)[1..] == a[1..] + b;
      MineAppend(a[1..], b, sid);
      MinePop(a, sid);
      MinePop(a + b, sid);
      var head := if Concerns(a[0], sid) then [a[0]] else [];
      assert head + (Mine(a[1..], sid) + Mine(b, sid)) == head + Mine(a[1..], sid) + Mine(b, sid);
    }
  }

  lemma {:induction false} MineNone(sid: U64)
    ensures Mine([], sid) == []
  {
  }

  lemma {:induction false} MinePop(out: seq<ShineFrame>, sid: U64)
    requires out != []
    ensures Mine(out, sid) == (if Concerns(out[0], sid) then [out[0]] else []) + Mine(out[1..], sid)
  {
  }

  lemma {:induction false} MineSnoc(out: seq<ShineFrame>, f: ShineFrame, sid: U64)
    ensures Mine(out + [f], sid) == Mine(out, sid) + (if Concerns(f, sid) then [f] else [])
  {
    hide Concerns;
    MineAppend(out, [f], sid);
    assert Mine([f][1..], sid) == [];
  }

  lemma {:induction false} MineTagged(out: seq<ShineFrame>, fs: seq<ShineFrame>, id: U64, sid: U64)
    requires Tagged(fs, id)
    ensures Mine(out + fs, sid) == if id == sid then Mine(out, sid) + fs else Mine(out, sid)
  {
    hide Mine;
    if fs == [] {
      assert out + fs == out;
      assert Mine(out, sid) + fs == Mine(out, sid);
    } else {
      assert fs == [fs[0]];
      MineSnoc(out, fs[0], sid);
    }
  }

  lemma {:induction false} MineCut(out: seq<ShineFrame>, keep: nat, sid: U64)
    requires keep <= |out|
    ensures var m, k := Mine(out, sid), |Mine(out[..keep], sid)|;
            k <= |m| && m[..k] == Mine(out[..keep], sid) && m[k..] == Mine(out[keep..], sid)
  {
    assert out == out[..keep] + out[keep..];
    MineAppend(out[..keep], out[keep..], sid);
  }

  lemma {:induction false} MineSids(out: seq<ShineFrame>, sid: U64)
    ensures W.SidsIn(Mine(out, sid)) * {sid} == W.SidsIn(out) * {sid}
  {
    hide SidOf;
    if out != [] {
      MineSids(out[1..], sid);
      var head, rest := if Concerns(out[0], sid) then [out[0]] else [], Mine(out[1..], sid);
      var ids := W.SidsIn(rest) * {sid};
      assert W.SidsIn(out) * {sid} == SidSet(out[0]) * {sid} + ids;
      if head != [] {
        assert (head + rest)[1..] == rest;
        assert W.SidsIn(head + rest) * {sid} == SidSet(out[0]) * {sid} + ids;
      } else {
        assert head + rest == rest;
        assert SidSet(out[0]) * {sid} == {};
      }
    }
  }

  lemma {:induction false} KeepMine(out: seq<ShineFrame>, sid: U64)
    ensures Keep(Mine(out, sid), sid) == Keep(out, sid)
  {
    hide SidOf;
    if out != [] {
      KeepMine(out[1..], sid);
      var head, rest := if Concerns(out[0], sid) then [out[0]] else [], Mine(out[1..], sid);
      if head != [] {
        assert (head + rest)[1..] == rest;
      } else {
        assert head + rest == rest;
      }
    }
  }

  /** The session sees no difference. */
  lemma {:induction false} SamePair(w: W.World, sid: U64)
    ensures PairOf(AloneIn(w, sid), sid) == PairOf(w, sid)
  {
    hide Mine, Keep;
    KeepMine(w.client.out, sid);
    KeepMine(w.server.out, sid);
  }

  // ---------------- one end ----------------

  lemma {:induction false} ApplyAlone(e: End, id: U64, eff: Effect, sid: U64)
    requires Tagged(eff.frames, id) && id in e.sessions
    ensures AloneEnd(Apply(e, id, eff), sid) == if id == sid then Apply(AloneEnd(e, sid), id, eff) else AloneEnd(e, sid)
  {
    hide Mine;
    MineTagged(e.out, eff.frames, id, sid);
  }

  lemma {:induction false} UseAlone(e: End, id: U64, call: Call, sid: U64)
    requires Named(e)
    ensures AloneEnd(LinkModel.Use(e, id, call), sid) ==
            if id == sid then LinkModel.Use(AloneEnd(e, sid), id, call) else AloneEnd(e, sid)
  {
    hide Invoke, Apply, Mine;
    if id in e.sessions {
      InvokeTagged(e.sessions[id], call, e.maxChunk, !e.closed);
      ApplyAlone(e, id, Invoke(e.sessions[id], call, e.maxChunk, !e.closed), sid);
    }
  }

  lemma {:induction false} OpenAlone(e: End, id: U64, target: Address, udp: bool, sid: U64)
    ensures AloneEnd(OpenSession(e, id, target, udp), sid) ==
            if id == sid then OpenSession(AloneEnd(e, sid), id, target, udp) else AloneEnd(e, sid)
  {
    hide Mine, ToBinary;
    MineSnoc(e.out, if udp then NewUdp(id) else New(id, ToBinary(target), e.window), sid);
  }

  lemma {:induction false} FailAlone(e: End, sid: U64)
    ensures AloneEnd(FailLink(e), sid) == FailLink(AloneEnd(e, sid))
  {
    hide Mine;
  }

  lemma {:induction false} PostAlone(e: End, f: ShineFrame, sid: U64)
    ensures AloneEnd(Post(e, f), sid) == if Concerns(f, sid) then Post(AloneEnd(e, sid), f) else AloneEnd(e, sid)
  {
    hide Mine;
    MineSnoc(e.out, f, sid);
    assert Mine(e.out, sid) + [] == Mine(e.out, sid);
  }

  lemma {:induction false} LoseAlone(e: End, f: ShineFrame, sid: U64)
    ensures AloneEnd(Lose(e, f), sid) == if Concerns(f, sid) then Lose(AloneEnd(e, sid), f) else AloneEnd(e, sid)
  {
    hide Mine;
  }

  lemma {:induction false} BeatAlone(e: End, now: nat, nonce: U64, sid: U64)
    ensures AloneEnd(LinkModel.Beat(e, now, nonce), sid) == LinkModel.Beat(AloneEnd(e, sid), now, nonce)
  {
    hide Mine, FailLink, Post, Heartbeat.Elapsed;
    var e' := e.(heart := Heartbeat.Tick(e.heart, now, nonce, e.limits));
    FailAlone(e', sid);
    var d := Heartbeat.Decide(e.heart, now, nonce, e.limits);
    if d.SendPing? {
      PostAlone(e', Ping(d.nonce), sid);
    }
  }

  lemma {:induction false} GreetAlone(e: End, f: ShineFrame, sid: U64)
    requires !e.stage.Ready?
    ensures AloneEnd(Greet(e, f), sid) == if Concerns(f, sid) then Greet(AloneEnd(e, sid), f) else FailLink(AloneEnd(e, sid))
  {
    hide Mine, FailLink, Post, Lose;
    FailAlone(Lose(e, f), sid);
    LoseAlone(e, f, sid);
    FailAlone(Post(e, REFUSAL), sid);
    PostAlone(e, REFUSAL, sid);
    PostAlone(e, GREETING, sid);
    PostAlone(e, Okay, sid);
    PostAlone(e, Auth(e.password), sid);
    StageAlone(Post(e, GREETING), if e.password == [] then Ready else AwaitAuth, sid);
    StageAlone(Post(e, Auth(e.password)), AwaitOk, sid);
    StageAlone(Post(e, Okay), Ready, sid);
    StageAlone(e, Ready, sid);
  }

  lemma {:induction false} StageAlone(e: End, stage: Stage, sid: U64)
    ensures AloneEnd(e.(stage := stage), sid) == AloneEnd(e, sid).(stage := stage)
  {
    hide Mine;
  }

  lemma {:induction false} AcceptAlone(e: End, id: U64, udp: bool, credit: U32, target: Result<Address, AddressError>, sid: U64)
    ensures AloneEnd(Accept(e, id, udp, credit, target), sid) ==
            if id == sid then Accept(AloneEnd(e, sid), id, udp, credit, target) else AloneEnd(e, sid)
  {
    hide Mine, Post;
    PostAlone(e, Reset(id), sid);
    PostAlone(e, Ack(id), sid);
    if target.Ok? {
      var e' := e.(sessions := e.sessions[id := Fresh(id, target.value, udp, credit, e.window)], table := e.table + {id});
      PostAlone(e', Ack(id), sid);
      assert id != sid ==> AloneEnd(e', sid) == AloneEnd(e, sid);
      if id == sid && id !in e.sessions {
        var v := AloneEnd(e, sid);
        assert AloneEnd(e', sid) == v.(sessions := v.sessions[id := Fresh(id, target.value, udp, credit, v.window)], table := v.table + {id});
      }
    }
  }

  lemma {:induction false} SessionAlone(e: End, id: U64, f: ShineFrame, sid: U64)
    requires Named(e) && SidOf(f) == Some(id)
    ensures AloneEnd(ForSession(e, id, f), sid) == if id == sid then ForSession(AloneEnd(e, sid), id, f) else AloneEnd(e, sid)
  {
    hide OnFrame, Apply, Mine, Lose;
    if id in e.table && id in e.sessions {
      OnFrameTagged(e.sessions[id], f);
      ApplyAlone(e, id, OnFrame(e.sessions[id], f), sid);
    } else {
      LoseAlone(e, f, sid);
    }
  }

  lemma {:induction false} DispatchAlone(e: End, f: ShineFrame, now: nat, sid: U64)
    requires Named(e)
    ensures AloneEnd(Dispatch(e, f, now), sid) == if Concerns(f, sid) then Dispatch(AloneEnd(e, sid), f, now) else AloneEnd(e, sid)
  {
    hide Mine, Accept, ForSession, ParseBinary, Post;
    match f {
      case New(id, blob, window) => AcceptAlone(e, id, false, window, ParseBinary(blob), sid);
      case NewUdp(id) => AcceptAlone(e, id, true, 0, Ok(NO_TARGET), sid);
      case Ping(nonce) => PostAlone(e, Pong(nonce), sid);
      case Data(id, _) => SessionAlone(e, id, f, sid);
      case UdpData(id, _, _) => SessionAlone(e, id, f, sid);
      case Close(id, _) => SessionAlone(e, id, f, sid);
      case Reset(id) => SessionAlone(e, id, f, sid);
      case Window(id, _) => SessionAlone(e, id, f, sid);
      case _ =>
    }
  }

  // ---------------- one step ----------------

  lemma {:induction false} BlockedAlone(e: End, f: ShineFrame, sid: U64)
    requires Concerns(f, sid)
    ensures Blocked(AloneEnd(e, sid), f) <==> Blocked(e, f)
  {
    hide Mine;
  }

  lemma {:induction false} PopAlone(e: End, sid: U64)
    requires e.out != []
    ensures var m := Mine(e.out, sid);
            if Concerns(e.out[0], sid) then m != [] && m[0] == e.out[0] && AloneEnd(e.(out := e.out[1..]), sid) == AloneEnd(e, sid).(out := m[1..])
            else AloneEnd(e.(out := e.out[1..]), sid) == AloneEnd(e, sid)
  {
    hide Concerns;
    var rest := Mine(e.out[1..], sid);
    assert ([e.out[0]] + rest)[1..] == rest;
    assert [] + rest == rest;
  }

  lemma {:induction false} DeliverAlone(w: W.World, side: W.Side, now: nat, sid: U64)
    requires Roles(w) && W.CanDeliver(w, side)
    ensures var f, v := W.EndOf(w, W.Peer(side)).out[0], AloneIn(w, sid);
            AloneIn(W.DeliverTo(w, side, now), sid) ==
            if Concerns(f, sid) then W.Step(v, W.Deliver(side, now))
            else if W.EndOf(w, side).stage.Ready? then v else W.Step(v, W.Fail(side))
  {
    hide Mine, Dispatch, Greet, Blocked, Concerns, FailLink;
    var e, from := W.EndOf(w, side), W.EndOf(w, W.Peer(side));
    var f := from.out[0];
    PopAlone(from, sid);
    if Concerns(f, sid) {
      BlockedAlone(e, f, sid);
    }
    if e.stage.Ready? {
      DispatchAlone(e, f, now, sid);
    } else {
      GreetAlone(e, f, sid);
    }
  }

  lemma {:induction false} CutAlone(w: W.World, side: W.Side, keep: nat, sid: U64)
    requires W.CanCut(w, side, keep)
    ensures AloneIn(W.CutPipe(w, side, keep), sid) ==
            W.Step(AloneIn(w, sid), W.Cut(side, |Mine(W.EndOf(w, side).out[..keep], sid)|))
  {
    hide Mine, W.SidsIn;
    var e := W.EndOf(w, side);
    MineCut(e.out, keep, sid);
    MineSids(e.out[keep..], sid);
    assert (e.lost + W.SidsIn(e.out[keep..])) * {sid} == e.lost * {sid} + W.SidsIn(e.out[keep..]) * {sid};
    assert W.SidsIn(Mine(e.out[keep..], sid)) <= {sid} by {
      OnlyMine(e.out[keep..], sid);
    }
  }

  lemma {:induction false} OnlyMine(out: seq<ShineFrame>, sid: U64)
    ensures W.SidsIn(Mine(out, sid)) <= {sid}
  {
    hide SidOf;
    if out != [] {
      OnlyMine(out[1..], sid);
      var head, rest := if Concerns(out[0], sid) then [out[0]] else [], Mine(out[1..], sid);
      if head != [] {
        assert (head + rest)[1..] == rest;
      } else {
        assert head + rest == rest;
      }
    }
  }

  /** One step of the crowded links is at most one step of the links that carry this session alone. */
  lemma {:induction false} StepAlone(w: W.World, a: W.Act, sid: U64)
    requires Roles(w)
    ensures AloneIn(W.Step(w, a), sid) == W.Run(AloneIn(w, sid), ActsFor(w, a, sid))
  {
    hide Mine, LinkModel.Use, OpenSession, LinkModel.Beat, FailLink, W.DeliverTo, W.CutPipe, W.CanDeliver, W.CanCut, AloneEnd, W.Run, W.Step;
    var v := AloneIn(w, sid);
    RunNone(v);
    if |ActsFor(w, a, sid)| == 1 {
      RunOne(v, ActsFor(w, a, sid)[0]);
    }
    StepFor(w, a, sid);
  }

  lemma {:induction false} RunNone(w: W.World)
    ensures W.Run(w, []) == w
  {
  }

  lemma {:induction false} RunOne(w: W.World, a: W.Act)
    ensures W.Run(w, [a]) == W.Step(w, a)
  {
    hide W.Step;
    assert [a][..0] == [];
  }

  lemma {:induction false} StepFor(w: W.World, a: W.Act, sid: U64)
    requires Roles(w)
    ensures var as_ := ActsFor(w, a, sid);
            |as_| <= 1 && AloneIn(W.Step(w, a), sid) == if as_ == [] then AloneIn(w, sid) else W.Step(AloneIn(w, sid), as_[0])
  {
    hide Mine, LinkModel.Use, OpenSession, LinkModel.Beat, FailLink, W.DeliverTo, W.CutPipe, W.CanDeliver, W.CanCut, AloneEnd;
    match a {
      case Use(side, id, call) => UseAlone(W.EndOf(w, side), id, call, sid);
      case Open(id, target, udp) => OpenAlone(w.client, id, target, udp, sid);
      case Deliver(side, now) => DeliverFor(w, side, now, sid);
      case Beat(side, now, nonce) => BeatAlone(W.EndOf(w, side), now, nonce, sid);
      case Fail(side) => FailAlone(W.EndOf(w, side), sid);
      case CloseNow(side) => CloseAlone(W.EndOf(w, side), sid);
      case Cut(side, keep) => CutFor(w, side, keep, sid);
    }
  }

  lemma {:induction false} DeliverFor(w: W.World, side: W.Side, now: nat, sid: U64)
    requires Roles(w)
    ensures var a := W.Deliver(side, now);
            var as_ := ActsFor(w, a, sid);
            |as_| <= 1 && AloneIn(W.Step(w, a), sid) == if as_ == [] then AloneIn(w, sid) else W.Step(AloneIn(w, sid), as_[0])
  {
    hide Mine, FailLink, W.DeliverTo, AloneEnd, Blocked;
    if W.CanDeliver(w, side) {
      DeliverAlone(w, side, now, sid);
    }
  }

  lemma {:induction false} CutFor(w: W.World, side: W.Side, keep: nat, sid: U64)
    ensures var a := W.Cut(side, keep);
            var as_ := ActsFor(w, a, sid);
            |as_| <= 1 && AloneIn(W.Step(w, a), sid) == if as_ == [] then AloneIn(w, sid) else W.Step(AloneIn(w, sid), as_[0])
  {
    hide Mine, W.CutPipe, AloneEnd;
    if W.CanCut(w, side, keep) {
      CutAlone(w, side, keep, sid);
    }
  }

  lemma {:induction false} CloseAlone(e: End, sid: U64)
    ensures AloneEnd(LinkModel.CloseNow(e), sid) == LinkModel.CloseNow(AloneEnd(e, sid))
  {
  }

  // ---------------- runs ----------------

  /** The acts of a run that concern this session or the links. */
  function ActsAlone(cfg: W.Config, acts: seq<W.Act>, sid: U64): seq<W.Act> {
    if acts == [] then []
    else
      var front := acts[..|acts| - 1];
      ActsAlone(cfg, front, sid) + ActsFor(After(cfg, front), acts[|acts| - 1], sid)
  }

  lemma {:induction false} RunAppend(w: W.World, a: seq<W.Act>, b: seq<W.Act>)
    requires |b| <= 1
    ensures W.Run(w, a + b) == W.Run(W.Run(w, a), b)
  {
    hide W.Step;
    if b == [] {
      assert a + b == a;
    } else {
      assert (a + b)[..|a|] == a && b[..0] == [];
    }
  }

  /** Isolation: every run has a run that opens and uses no session but this one, and ends with the same two links, less
      the other sessions; this session, its frames under way, the handshake, the heartbeat and the links are the same. */
  lemma {:induction false} AloneInSomeRun(cfg: W.Config, acts: seq<W.Act>, sid: U64)
    ensures var alone := ActsAlone(cfg, acts, sid);
            (forall i :: 0 <= i < |alone| ==> About(alone[i], sid)) &&
            After(cfg, alone) == AloneIn(After(cfg, acts), sid) && PairOf(After(cfg, alone), sid) == PairOf(After(cfg, acts), sid)
  {
    hide W.Step, AloneIn, PairOf, ActsFor, About;
    SamePair(After(cfg, acts), sid);
    if acts == [] {
      StartAlone(cfg, sid);
    } else {
      var front, a := acts[..|acts| - 1], acts[|acts| - 1];
      AloneInSomeRun(cfg, front, sid);
      RunRoles(cfg, front);
      StepAlone(After(cfg, front), a, sid);
      ForIsAbout(After(cfg, front), a, sid);
      RunAppend(W.Initial(cfg), ActsAlone(cfg, front, sid), ActsFor(After(cfg, front), a, sid));
    }
  }

  lemma {:induction false} ForIsAbout(w: W.World, a: W.Act, sid: U64)
    ensures |ActsFor(w, a, sid)| <= 1 && forall i :: 0 <= i < |ActsFor(w, a, sid)| ==> About(ActsFor(w, a, sid)[i], sid)
  {
  }

  lemma {:induction false} StartAlone(cfg: W.Config, sid: U64)
    ensures AloneIn(W.Initial(cfg), sid) == W.Initial(cfg)
  {
    MineSnoc([], GREETING, sid);
    assert [] + [GREETING] == [GREETING];
  }
}
