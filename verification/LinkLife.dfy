/** The two limits of a link: what happens after it is closed, and how full its sessions can get. */
module LinkLife {
  import opened Octets
  import opened ShineFrames
  import opened Addresses
  import opened SessionModel
  import opened LinkModel
  import opened Isolation
  import opened Completeness
  import opened Guarantees
  import Heartbeat
  import W = World

  // ---------------- closed for ever ----------------

  /** `a` is `b` less some frames at its front and at its end. */
  ghost predicate IsPart(a: seq<ShineFrame>, b: seq<ShineFrame>) {
    exists front, back :: b == front + a + back
  }

  lemma {:induction false} PartTwice(a: seq<ShineFrame>, b: seq<ShineFrame>, c: seq<ShineFrame>)
    requires IsPart(a, b) && IsPart(b, c)
    ensures IsPart(a, c)
  {
    var front, back :| b == front + a + back;
    var front', back' :| c == front' + b + back';
    assert c == (front' + front) + a + (back + back');
  }

  lemma {:induction false} PartSelf(a: seq<ShineFrame>)
    ensures IsPart(a, a) && (a != [] ==> IsPart(a[1..], a)) && forall keep :: 0 <= keep <= |a| ==> IsPart(a[..keep], a)
  {
    assert a == [] + a + [];
    if a != [] {
      assert a == [a[0]] + a[1..] + [];
    }
    forall keep | 0 <= keep <= |a| ensures IsPart(a[..keep], a) {
      assert a == [] + a[..keep] + a[keep..];
    }
  }

  /** A closed end after something has happened: still closed, nothing queued, no frame taken, no heartbeat. */
  ghost predicate Dead(e: End, e': End) {
    e'.closed && IsPart(e'.out, e.out) && e'.heart == e.heart && e'.stage == e.stage && e'.sessions.Keys == e.sessions.Keys
  }

  lemma {:induction false} UseOfClosed(e: End, sid: U64, c: Call)
    requires e.closed
    ensures Dead(e, LinkModel.Use(e, sid, c))
  {
    hide Invoke, IsPart;
    PartSelf(e.out);
    if sid in e.sessions {
      CallTouches(e.sessions[sid], c, e.maxChunk, false);
      assert e.out + [] == e.out;
    }
  }

  lemma {:induction false} ClosedStep(w: W.World, a: W.Act, side: W.Side)
    requires W.EndOf(w, side).closed
    ensures var e, e' := W.EndOf(w, side), W.EndOf(W.Step(w, a), side);
            Dead(e, e') && (!(a.Use? && a.side == side) ==> e'.sessions == e.sessions && e'.table == e.table)
  {
    hide LinkModel.Use, Receive, IsPart, Blocked, W.SidsIn;
    PartSelf(W.EndOf(w, side).out);
    if a.Use? && a.side == side {
      UseOfClosed(W.EndOf(w, side), a.sid, a.call);
    }
  }

  /** In every continuation of a run a closed link stays closed: its pipe only gets shorter, it takes no frame, sends no
      ping and gets no session. */
  lemma {:induction false} ClosedForEver(cfg: W.Config, acts: seq<W.Act>, more: seq<W.Act>, side: W.Side)
    requires W.EndOf(After(cfg, acts), side).closed
    ensures Dead(W.EndOf(After(cfg, acts), side), W.EndOf(After(cfg, acts + more), side))
    decreases more
  {
    hide W.Step, IsPart, W.Run;
    var e := W.EndOf(After(cfg, acts), side);
    if more == [] {
      assert acts + more == acts;
      PartSelf(e.out);
    } else {
      var front, a := more[..|more| - 1], more[|more| - 1];
      assert acts + more == acts + front + [a];
      ClosedForEver(cfg, acts, front, side);
      AfterSnoc(cfg, acts + front, a);
      ClosedStep(After(cfg, acts + front), a, side);
      PartTwice(W.EndOf(After(cfg, acts + more), side).out, W.EndOf(After(cfg, acts + front), side).out, e.out);
    }
  }

  /** When a link is closed, its table is empty afterwards, and so every session of it Closed, exactly when it was closed
      by anything but `closeNow`, or had no session that was not Closed. */
  lemma {:induction false} ClosingEmptiesExactly(cfg: W.Config, acts: seq<W.Act>, a: W.Act, side: W.Side)
    requires !W.EndOf(After(cfg, acts), side).closed && W.EndOf(After(cfg, acts + [a]), side).closed
    ensures var e, e' := W.EndOf(After(cfg, acts), side), W.EndOf(After(cfg, acts + [a]), side);
            (e'.table == {} <==> a != W.CloseNow(side) || e.table == {}) &&
            (e'.table == {} <==> forall sid :: sid in e'.sessions ==> e'.sessions[sid].phase.Closed?)
  {
    hide W.Run, W.Step;
    AfterSnoc(cfg, acts, a);
    WhoCloses(After(cfg, acts), a, side);
    TableIsLiveSessions(cfg, acts + [a], side);
    var e' := W.EndOf(After(cfg, acts + [a]), side);
    if e'.table != {} {
      var sid :| sid in e'.table;
      assert sid in e'.sessions && !e'.sessions[sid].phase.Closed?;
    }
  }

  lemma {:induction false} WhoCloses(w: W.World, a: W.Act, side: W.Side)
    requires !W.EndOf(w, side).closed && W.EndOf(W.Step(w, a), side).closed
    ensures W.EndOf(W.Step(w, a), side).table == if a == W.CloseNow(side) then W.EndOf(w, side).table else {}
  {
    hide OnFrame, Invoke, ParseBinary, Heartbeat.Elapsed, Blocked, W.SidsIn;
  }

  // ---------------- how full a session can get ----------------

  predicate Within(s: Sess) {
    |s.inbox| <= 1024 && |s.udpInbox| <= 1024
  }

  ghost predicate AllWithin(e: End) {
    forall sid :: sid in e.sessions ==> Within(e.sessions[sid])
  }

  lemma {:induction false} CallWithin(s: Sess, c: Call, maxChunk: nat, linkOpen: bool)
    requires Within(s)
    ensures Within(Invoke(s, c, maxChunk, linkOpen).sess)
  {
    hide SendChunk, StartWrite, Shutdown, CloseBoth, Flush, SendDatagram;
    CallTouches(s, c, maxChunk, linkOpen);
  }

  lemma {:induction false} FrameWithin(s: Sess, f: ShineFrame)
    requires Within(s) && !MustWait(s, f)
    ensures Within(OnFrame(s, f).sess)
  {
    hide ParseBinary;
  }

  lemma {:induction false} UseWithin(e: End, sid: U64, c: Call)
    requires AllWithin(e)
    ensures AllWithin(LinkModel.Use(e, sid, c))
  {
    hide Invoke, Within;
    if sid in e.sessions {
      CallWithin(e.sessions[sid], c, e.maxChunk, !e.closed);
    }
  }

  lemma {:induction false} ReceiveWithin(e: End, f: ShineFrame, now: nat)
    requires AllWithin(e) && !Blocked(e, f)
    ensures AllWithin(Receive(e, f, now))
  {
    hide AllWithin, ForSession, Accept, ParseBinary;
    if e.stage.Ready? {
      match f {
        case New(sid, blob, window) => AcceptWithin(e, sid, false, window, ParseBinary(blob));
        case NewUdp(sid) => AcceptWithin(e, sid, true, 0, Ok(NO_TARGET));
        case Data(sid, _) => SessionWithin(e, sid, f);
        case UdpData(sid, _, _) => SessionWithin(e, sid, f);
        case Close(sid, _) => SessionWithin(e, sid, f);
        case Reset(sid) => SessionWithin(e, sid, f);
        case Window(sid, _) => SessionWithin(e, sid, f);
        case _ => SameWithin(e, Dispatch(e, f, now));
      }
    } else {
      GreetWithin(e, f);
    }
  }

  lemma {:induction false} SameWithin(e: End, e': End)
    requires AllWithin(e) && e'.sessions == e.sessions
    ensures AllWithin(e')
  {
  }

  lemma {:induction false} GreetWithin(e: End, f: ShineFrame)
    requires AllWithin(e)
    ensures AllWithin(Greet(e, f))
  {
    hide AllWithin, FailLink;
    FailWithin(Lose(e, f));
    FailWithin(Post(e, REFUSAL));
    SameWithin(e, Lose(e, f));
    SameWithin(e, Post(e, REFUSAL));
    if Greet(e, f).sessions == e.sessions {
      SameWithin(e, Greet(e, f));
    }
  }

  lemma {:induction false} FailWithin(e: End)
    ensures AllWithin(e) ==> AllWithin(FailLink(e))
  {
  }

  lemma {:induction false} BeatWithin(e: End, now: nat, nonce: U64)
    requires AllWithin(e)
    ensures AllWithin(LinkModel.Beat(e, now, nonce))
  {
    hide AllWithin, FailLink, Heartbeat.Elapsed;
    var e' := e.(heart := Heartbeat.Tick(e.heart, now, nonce, e.limits));
    SameWithin(e, e');
    FailWithin(e');
    if LinkModel.Beat(e, now, nonce).sessions == e.sessions {
      SameWithin(e, LinkModel.Beat(e, now, nonce));
    }
  }

  lemma {:induction false} AcceptWithin(e: End, sid: U64, udp: bool, credit: U32, target: Result<Address, AddressError>)
    requires AllWithin(e)
    ensures AllWithin(Accept(e, sid, udp, credit, target))
  {
  }

  lemma {:induction false} SessionWithin(e: End, sid: U64, f: ShineFrame)
    requires AllWithin(e) && e.stage.Ready? && SidOf(f) == Some(sid) && !Blocked(e, f)
    ensures AllWithin(ForSession(e, sid, f))
  {
    hide OnFrame, MustWait, Within;
    if sid in e.sessions && sid in e.table {
      OnlyDataWaits(e.sessions[sid], f);
      FrameWithin(e.sessions[sid], f);
    }
  }

  lemma {:induction false} OnlyDataWaits(s: Sess, f: ShineFrame)
    ensures MustWait(s, f) ==> f.Data?
  {
  }

  lemma {:induction false} StepWithin(w: W.World, a: W.Act)
    requires AllWithin(w.client) && AllWithin(w.server)
    ensures AllWithin(W.Step(w, a).client) && AllWithin(W.Step(w, a).server)
  {
    match a {
      case Use(side, sid, c) =>
        hide LinkModel.Use, AllWithin;
        UseWithin(W.EndOf(w, side), sid, c);
      case Deliver(side, now) =>
        hide Receive, Blocked;
        if W.CanDeliver(w, side) {
          ReceiveWithin(W.EndOf(w, side), W.EndOf(w, W.Peer(side)).out[0], now);
        }
      case Beat(side, now, nonce) =>
        hide LinkModel.Beat, AllWithin;
        BeatWithin(W.EndOf(w, side), now, nonce);
      case Fail(side) =>
        hide FailLink, AllWithin;
        FailWithin(W.EndOf(w, side));
      case _ =>
        hide ToBinary, W.SidsIn;
    }
  }

  /** In every run no inbox and no datagram queue holds more than 1024 entries. */
  lemma {:induction false} QueuesBounded(cfg: W.Config, acts: seq<W.Act>)
    ensures AllWithin(After(cfg, acts).client) && AllWithin(After(cfg, acts).server)
  {
    if acts != [] {
      hide AllWithin, W.Step;
      QueuesBounded(cfg, acts[..|acts| - 1]);
      StepWithin(After(cfg, acts[..|acts| - 1]), acts[|acts| - 1]);
    }
  }

  /** A reader that is up waits, with frames in its pipe, exactly when the next one is DATA for a stream session that
      listens and has exactly 1024 payloads unread. */
  lemma {:induction false} ReaderWaitsExactly(cfg: W.Config, acts: seq<W.Act>, side: W.Side)
    requires var w := After(cfg, acts); !W.EndOf(w, side).closed && W.EndOf(w, W.Peer(side)).out != []
    ensures var w := After(cfg, acts);
            var e, f := W.EndOf(w, side), W.EndOf(w, W.Peer(side)).out[0];
            !W.CanDeliver(w, side) <==>
            e.stage.Ready? && f.Data? && f.payload != [] && Listens(w, side, f.sid) && |e.sessions[f.sid].inbox| == 1024
  {
    hide W.Run, Sound, AllThere, Filled;
    var w := After(cfg, acts);
    QueuesBounded(cfg, acts);
    var f := W.EndOf(w, W.Peer(side)).out[0];
    if f.Data? && At(w, side, f.sid).Some? {
      RunSound(cfg, acts, f.sid);
      SoundWhole(PairOf(w, f.sid), CtxOf(cfg, f.sid), side);
      assert Within(W.EndOf(w, side).sessions[f.sid]);
    }
  }
}
