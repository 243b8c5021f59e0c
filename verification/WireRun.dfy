/** Frames and bytes meet: every frame that a run puts into a pipe fits the parser at the other end, so the bytes of the
    pipe decode to exactly its frames. */
module WireRun {
  import opened Octets
  import opened BigEndian
  import opened ShineFrames
  import opened Addresses
  import opened SessionModel
  import opened LinkModel
  import opened Isolation
  import opened FrameStream
  import opened Guarantees
  import Decimal
  import Heartbeat
  import Resp2
  import W = World

  /** The longest binary address: two bytes of header, 255 of domain and two of port. */
  const MAX_ADDRESS: nat := 259

  /** The parser's limit leaves room for what the two links are configured to send. */
  predicate Roomy(cfg: W.Config, maxBulk: nat) {
    MAX_ADDRESS <= maxBulk < Decimal.I64_LIMIT && cfg.clientChunk + 9 <= maxBulk && cfg.serverChunk + 9 <= maxBulk &&
    |cfg.clientPassword| <= maxBulk && |cfg.serverPassword| <= maxBulk
  }

  /** A user's datagram is within the limit; everything else is cut to size by the code. */
  predicate Modest(a: W.Act, maxBulk: nat) {
    a.Use? && a.call.SendTo? ==> |a.call.payload| <= maxBulk
  }

  ghost predicate AllModest(acts: seq<W.Act>, maxBulk: nat) {
    forall i :: 0 <= i < |acts| ==> Modest(acts[i], maxBulk)
  }

  predicate AllFit(out: seq<ShineFrame>, maxBulk: nat) {
    forall i :: 0 <= i < |out| ==> FitsLink(out[i], maxBulk)
  }

  lemma {:induction false} AddressFits(a: Address)
    ensures |ToBinary(a)| <= MAX_ADDRESS
  {
    hide ToBE;
  }

  /** Frames of fixed size. */
  predicate Small(f: ShineFrame) {
    match f
    case Ack(_) => true
    case Reset(_) => true
    case Close(_, reason) => reason == []
    case Window(_, _) => true
    case Ping(_) => true
    case Pong(_) => true
    case NewUdp(_) => true
    case Okay => true
    case _ => f == GREETING || f == REFUSAL
  }

  lemma {:induction false} SmallFits(f: ShineFrame, maxBulk: nat)
    requires Small(f) && MAX_ADDRESS <= maxBulk < Decimal.I64_LIMIT
    ensures FitsLink(f, maxBulk)
  {
    hide ToBE;
  }

  lemma {:induction false} SnocFits(out: seq<ShineFrame>, f: ShineFrame, maxBulk: nat)
    requires AllFit(out, maxBulk) && FitsLink(f, maxBulk)
    ensures AllFit(out + [f], maxBulk)
  {
  }

  lemma {:induction false} SliceFits(out: seq<ShineFrame>, keep: nat, maxBulk: nat)
    requires AllFit(out, maxBulk) && keep <= |out|
    ensures AllFit(out[..keep], maxBulk) && AllFit(out[keep..], maxBulk)
  {
  }

  /** What a call announces fits: DATA by the chunk limit, datagrams by the user's care. */
  lemma {:induction false} InvokeFits(s: Sess, c: Call, maxChunk: nat, linkOpen: bool, maxBulk: nat)
    requires MAX_ADDRESS <= maxBulk < Decimal.I64_LIMIT && maxChunk + 9 <= maxBulk && (c.SendTo? ==> |c.payload| <= maxBulk)
    ensures var fs := Invoke(s, c, maxChunk, linkOpen).frames; |fs| <= 1 && (fs != [] ==> FitsLink(fs[0], maxBulk))
  {
    hide FitsLink, ReadCall, StartWrite, TakeDatagram, ToBinary;
    CallTouches(s, c, maxChunk, linkOpen);
    var fs := Invoke(s, c, maxChunk, linkOpen).frames;
    if fs != [] {
      if Small(fs[0]) {
        SmallFits(fs[0], maxBulk);
      } else if fs[0].Data? {
        DataFits(fs[0], maxBulk);
      } else {
        AddressFits(c.addr);
        UdpFits(fs[0], maxBulk);
      }
    }
  }

  lemma {:induction false} DataFits(f: ShineFrame, maxBulk: nat)
    requires f.Data? && |f.payload| + 9 <= maxBulk < Decimal.I64_LIMIT
    ensures FitsLink(f, maxBulk)
  {
    hide ToBE;
  }

  lemma {:induction false} UdpFits(f: ShineFrame, maxBulk: nat)
    requires f.UdpData? && |f.addrBlob| <= MAX_ADDRESS <= maxBulk < Decimal.I64_LIMIT && |f.payload| <= maxBulk
    ensures FitsLink(f, maxBulk)
  {
    hide ToBE;
  }

  lemma {:induction false} OpenFits(sid: U64, target: Address, udp: bool, window: U32, maxBulk: nat)
    requires MAX_ADDRESS <= maxBulk < Decimal.I64_LIMIT
    ensures FitsLink(if udp then NewUdp(sid) else New(sid, ToBinary(target), window), maxBulk)
  {
    hide ToBE, ToBinary;
    AddressFits(target);
  }

  lemma {:induction false} AuthFits(password: Bytes, maxBulk: nat)
    requires |password| <= maxBulk && MAX_ADDRESS <= maxBulk < Decimal.I64_LIMIT
    ensures FitsLink(Auth(password), maxBulk)
  {
  }

  // ---------------- one end ----------------

  lemma {:induction false} UseFits(e: End, sid: U64, call: Call, maxBulk: nat)
    requires AllFit(e.out, maxBulk) && MAX_ADDRESS <= maxBulk < Decimal.I64_LIMIT && e.maxChunk + 9 <= maxBulk
    requires call.SendTo? ==> |call.payload| <= maxBulk
    ensures AllFit(LinkModel.Use(e, sid, call).out, maxBulk)
  {
    hide Invoke, AllFit, FitsLink;
    if sid in e.sessions {
      var fs := Invoke(e.sessions[sid], call, e.maxChunk, !e.closed).frames;
      InvokeFits(e.sessions[sid], call, e.maxChunk, !e.closed, maxBulk);
      if fs == [] {
        assert e.out + fs == e.out;
      } else {
        assert fs == [fs[0]];
        SnocFits(e.out, fs[0], maxBulk);
      }
    }
  }

  lemma {:induction false} PostFits(e: End, f: ShineFrame, maxBulk: nat)
    requires AllFit(e.out, maxBulk) && FitsLink(f, maxBulk)
    ensures AllFit(Post(e, f).out, maxBulk)
  {
    SnocFits(e.out, f, maxBulk);
  }

  lemma {:induction false} ReceiveFits(e: End, f: ShineFrame, now: nat, maxBulk: nat)
    requires AllFit(e.out, maxBulk) && MAX_ADDRESS <= maxBulk < Decimal.I64_LIMIT && |e.password| <= maxBulk
    ensures AllFit(Receive(e, f, now).out, maxBulk)
  {
    hide AllFit, Dispatch, Greet;
    if e.stage.Ready? {
      DispatchFits(e, f, now, maxBulk);
    } else {
      GreetFits(e, f, maxBulk);
    }
  }

  lemma {:induction false} GreetFits(e: End, f: ShineFrame, maxBulk: nat)
    requires AllFit(e.out, maxBulk) && MAX_ADDRESS <= maxBulk < Decimal.I64_LIMIT && |e.password| <= maxBulk
    ensures AllFit(Greet(e, f).out, maxBulk)
  {
    hide AllFit, FitsLink;
    SmallFits(GREETING, maxBulk);
    SmallFits(REFUSAL, maxBulk);
    SmallFits(Okay, maxBulk);
    AuthFits(e.password, maxBulk);
    PostFits(e, GREETING, maxBulk);
    PostFits(e, REFUSAL, maxBulk);
    PostFits(e, Okay, maxBulk);
    PostFits(e, Auth(e.password), maxBulk);
  }

  lemma {:induction false} DispatchFits(e: End, f: ShineFrame, now: nat, maxBulk: nat)
    requires AllFit(e.out, maxBulk) && MAX_ADDRESS <= maxBulk < Decimal.I64_LIMIT
    ensures AllFit(Dispatch(e, f, now).out, maxBulk)
  {
    hide AllFit, FitsLink, OnFrame, ParseBinary;
    if f.Ping? {
      SmallFits(Pong(f.nonce), maxBulk);
      PostFits(e, Pong(f.nonce), maxBulk);
    }
    if SidOf(f).Some? {
      var sid := SidOf(f).value;
      SmallFits(Reset(sid), maxBulk);
      SmallFits(Ack(sid), maxBulk);
      SnocFits(e.out, Reset(sid), maxBulk);
      SnocFits(e.out, Ack(sid), maxBulk);
      if sid in e.sessions {
        OnFrameTagged(e.sessions[sid], f);
        assert e.out + [] == e.out;
      }
    }
  }

  lemma {:induction false} BeatFits(e: End, now: nat, nonce: U64, maxBulk: nat)
    requires AllFit(e.out, maxBulk) && MAX_ADDRESS <= maxBulk < Decimal.I64_LIMIT
    ensures AllFit(LinkModel.Beat(e, now, nonce).out, maxBulk)
  {
    hide AllFit, FitsLink, Heartbeat.Elapsed;
    var d := Heartbeat.Decide(e.heart, now, nonce, e.limits);
    if d.SendPing? {
      SmallFits(Ping(d.nonce), maxBulk);
      SnocFits(e.out, Ping(d.nonce), maxBulk);
    }
  }

  // ---------------- runs ----------------

  ghost predicate PipesFit(w: W.World, maxBulk: nat) {
    AllFit(w.client.out, maxBulk) && AllFit(w.server.out, maxBulk)
  }

  ghost predicate AsConfigured(w: W.World, cfg: W.Config) {
    w.client.maxChunk == cfg.clientChunk && w.client.password == cfg.clientPassword &&
    w.server.maxChunk == cfg.serverChunk && w.server.password == cfg.serverPassword
  }

  lemma {:induction false} StepFits(w: W.World, a: W.Act, cfg: W.Config, maxBulk: nat)
    requires PipesFit(w, maxBulk) && Roomy(cfg, maxBulk) && Modest(a, maxBulk) && AsConfigured(w, cfg)
    ensures PipesFit(W.Step(w, a), maxBulk)
  {
    hide AllFit, FitsLink, LinkModel.Use, Receive, LinkModel.Beat, Blocked, ToBinary;
    match a {
      case Use(side, sid, call) => UseFits(W.EndOf(w, side), sid, call, maxBulk);
      case Open(sid, target, udp) =>
        OpenFits(sid, target, udp, w.client.window, maxBulk);
        SnocFits(w.client.out, if udp then NewUdp(sid) else New(sid, ToBinary(target), w.client.window), maxBulk);
      case Deliver(side, now) =>
        var from := W.EndOf(w, W.Peer(side));
        if W.CanDeliver(w, side) {
          SliceFits(from.out, 1, maxBulk);
          ReceiveFits(W.EndOf(w, side), from.out[0], now, maxBulk);
        }
      case Beat(side, now, nonce) => BeatFits(W.EndOf(w, side), now, nonce, maxBulk);
      case Fail(side) =>
      case CloseNow(side) =>
      case Cut(side, keep) =>
        if keep <= |W.EndOf(w, side).out| {
          SliceFits(W.EndOf(w, side).out, keep, maxBulk);
        }
    }
  }

  lemma {:induction false} RunFits(cfg: W.Config, acts: seq<W.Act>, maxBulk: nat)
    requires Roomy(cfg, maxBulk) && AllModest(acts, maxBulk)
    ensures PipesFit(After(cfg, acts), maxBulk)
  {
    hide PipesFit, W.Step, Modest, Roomy;
    if acts == [] {
      StartFits(cfg, maxBulk);
    } else {
      var front, a := acts[..|acts| - 1], acts[|acts| - 1];
      RunFits(cfg, front, maxBulk);
      RunRoles(cfg, front);
      StepFits(After(cfg, front), a, cfg, maxBulk);
    }
  }

  lemma {:induction false} StartFits(cfg: W.Config, maxBulk: nat)
    requires Roomy(cfg, maxBulk)
    ensures PipesFit(W.Initial(cfg), maxBulk)
  {
    hide FitsLink;
    SmallFits(GREETING, maxBulk);
  }

  /** In every run, the bytes of each pipe, however they are cut into reads, decode to exactly the frames of the pipe,
      with nothing left over and never an error. */
  lemma {:induction false} PipesDecode(cfg: W.Config, acts: seq<W.Act>, side: W.Side, chunks: seq<Bytes>, maxBulk: nat)
    requires Roomy(cfg, maxBulk) && AllModest(acts, maxBulk)
    requires Flatten(chunks) == WireAll(W.EndOf(After(cfg, acts), side).out)
    ensures FeedAll(DecodeStream([], maxBulk), chunks, maxBulk) == Stream(W.EndOf(After(cfg, acts), side).out, Ongoing, [])
  {
    hide W.Run, FitsLink, DecodeStream, FeedAll, WireAll;
    RunFits(cfg, acts, maxBulk);
    ChunkIndependence([], chunks, maxBulk);
    assert [] + Flatten(chunks) == Flatten(chunks);
    WholeStreamRoundTrip(W.EndOf(After(cfg, acts), side).out, maxBulk);
  }
}
