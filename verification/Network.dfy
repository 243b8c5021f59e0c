/** Two joined links as objects. Whatever is done to them is a run of the model, so what holds in every run holds of the
    objects. */
module Network {
  import opened Octets
  import opened ShineFrames
  import opened Addresses
  import opened SessionModel
  import opened LinkModel
  import opened Guarantees
  import opened Transport
  import opened CallLog
  import opened Targets
  import Heartbeat
  import W = World

  class Network {
    const client: Link
    const server: Link
    ghost const cfg: W.Config
    ghost var history: seq<W.Act>

    ghost predicate Joined()
      reads client, server, client.all.Values, server.all.Values
    {
      client != server && !client.isServer && server.isServer && client.Valid() && server.Valid()
    }

    ghost function Model(): W.World
      requires Joined()
      reads client, server, client.all.Values, server.all.Values
    {
      W.World(client.Model(), server.Model())
    }

    /** The two objects are where the acts performed so far lead. */
    ghost predicate Valid()
      reads this`history, client, server, client.all.Values, server.all.Values
    {
      Joined() && Model() == After(cfg, history)
    }

    function LinkAt(side: W.Side): Link {
      if side.Client? then client else server
    }

    constructor (cfg: W.Config)
      ensures Valid() && history == [] && this.cfg == cfg
    {
      client := new Link(false, cfg.clientWindow, cfg.clientPassword, cfg.clientChunk, cfg.limits, cfg.start);
      server := new Link(true, cfg.serverWindow, cfg.serverPassword, cfg.serverChunk, cfg.limits, cfg.start);
      this.cfg, history := cfg, [];
    }

    /** No session object belongs to both links. */
    lemma {:induction false} Apart()
      requires Joined()
      ensures client.all.Values !! server.all.Values
    {
    }

    /** A call on a session; a session that is not there has no user. */
    method PerformUse(side: W.Side, sid: U64, c: Call)
      requires Joined()
      modifies client, server, client.all.Values, server.all.Values
      ensures Joined() && client.all == old(client.all) && server.all == old(server.all)
      ensures Model() == W.Step(old(Model()), W.Use(side, sid, c))
    {
      hide Link.Valid, Link.Model, LinkModel.Use;
      Apart();
      var e := LinkAt(side);
      e.Shown();
      UnknownSession(e.Model(), sid, c);
      if sid in e.all {
        e.UseSession(sid, c);
      }
    }

    /** A new session; an id that has been drawn before is not drawn again. */
    method PerformOpen(sid: U64, target: Address, udp: bool)
      requires Joined()
      modifies client
      ensures Joined() && server.all == old(server.all) && fresh(client.all.Values - old(client.all.Values))
      ensures Model() == W.Step(old(Model()), W.Open(sid, target, udp))
    {
      hide Link.Valid, Link.Model, LinkModel.OpenSession;
      Apart();
      client.Shown();
      KnownSession(client.Model(), sid, target, udp);
      if sid !in client.all {
        var _ := client.OpenSession(sid, target, udp);
      }
    }

    /** The next frame crosses, if the reader can take it. */
    method PerformDeliver(side: W.Side, now: nat)
      requires Joined() && NewIsNew(Model(), side)
      modifies client, server, client.all.Values, server.all.Values
      ensures Joined() && fresh(client.all.Values - old(client.all.Values)) && fresh(server.all.Values - old(server.all.Values))
      ensures Model() == W.Step(old(Model()), W.Deliver(side, now))
    {
      hide Joined, Model, W.CanDeliver, W.DeliverTo;
      var can := CanCross(side);
      if can {
        Cross(side, now);
      }
    }

    method CanCross(side: W.Side) returns (b: bool)
      requires Joined()
      ensures b <==> W.CanDeliver(Model(), side)
      ensures b ==> !LinkAt(side).closed && LinkAt(W.Peer(side)).out != [] && W.EndOf(Model(), W.Peer(side)).out != []
    {
      hide Link.Valid, Link.Model, Blocked;
      var e, from := LinkAt(side), LinkAt(W.Peer(side));
      e.Shown();
      from.Shown();
      if e.closed || from.out == [] {
        return false;
      }
      var wait := e.Waits(from.out[0]);
      return !wait;
    }

    method Cross(side: W.Side, now: nat)
      requires Joined() && NewIsNew(Model(), side) && !LinkAt(side).closed
      requires LinkAt(W.Peer(side)).out != [] && W.EndOf(Model(), W.Peer(side)).out != []
      modifies client, server, client.all.Values, server.all.Values
      ensures Joined() && fresh(client.all.Values - old(client.all.Values)) && fresh(server.all.Values - old(server.all.Values))
      ensures Model() == W.DeliverTo(old(Model()), side, now)
    {
      hide Link.Valid, Link.Values, Receive;
      Apart();
      var e, from := LinkAt(side), LinkAt(W.Peer(side));
      e.Shown();
      var f := from.Unqueue();
      e.ReceiveFrame(f, now);
    }

    method PerformBeat(side: W.Side, now: nat, nonce: U64)
      requires Joined()
      modifies client, server, client.all.Values, server.all.Values
      ensures Joined() && client.all == old(client.all) && server.all == old(server.all)
      ensures Model() == W.Step(old(Model()), W.Beat(side, now, nonce))
    {
      hide Link.Valid, Link.Model, LinkModel.Beat;
      Apart();
      LinkAt(side).Beat(now, nonce);
    }

    method PerformFail(side: W.Side)
      requires Joined()
      modifies client, server, client.all.Values, server.all.Values
      ensures Joined() && client.all == old(client.all) && server.all == old(server.all)
      ensures Model() == W.Step(old(Model()), W.Fail(side))
    {
      hide Link.Valid, Link.Model, LinkModel.FailLink;
      Apart();
      LinkAt(side).FailLink();
    }

    method PerformClose(side: W.Side)
      requires Joined()
      modifies client`closed, server`closed
      ensures Joined() && Model() == W.Step(old(Model()), W.CloseNow(side))
    {
      hide Link.Valid, Link.Model, LinkModel.CloseNow;
      LinkAt(side).CloseNow();
    }

    method PerformCut(side: W.Side, keep: nat)
      requires Joined()
      modifies client`out, client`lost, server`out, server`lost
      ensures Joined() && Model() == W.Step(old(Model()), W.Cut(side, keep))
    {
      hide Link.Valid, Link.Values, W.SidsIn;
      var e, o := LinkAt(side), LinkAt(W.Peer(side));
      if (e.closed || o.closed) && keep <= |e.out| {
        e.CutOut(keep);
      }
    }

    /** Every act on the two objects is the same act on their model, and the network stays where its acts lead. */
    method Perform(a: W.Act)
      requires Valid()
      modifies this`history, client, server, client.all.Values, server.all.Values
      ensures Valid() && history == old(history) + [a] && Model() == W.Step(old(Model()), a)
      ensures fresh(client.all.Values - old(client.all.Values)) && fresh(server.all.Values - old(server.all.Values))
    {
      hide Joined, Model, W.Step, After;
      AfterSnoc(cfg, history, a);
      match a {
        case Use(side, sid, c) => PerformUse(side, sid, c);
        case Open(sid, target, udp) => PerformOpen(sid, target, udp);
        case Deliver(side, now) =>
          FreshInRun(cfg, history, side);
          PerformDeliver(side, now);
        case Beat(side, now, nonce) => PerformBeat(side, now, nonce);
        case Fail(side) => PerformFail(side);
        case CloseNow(side) => PerformClose(side);
        case Cut(side, keep) => PerformCut(side, keep);
      }
      history := history + [a];
    }

    /** Any list of acts, one after the other. */
    method PerformAll(acts: seq<W.Act>)
      requires Valid()
      modifies this`history, client, server, client.all.Values, server.all.Values
      ensures Valid() && history == old(history) + acts && Model() == After(cfg, old(history) + acts)
      ensures fresh(client.all.Values - old(client.all.Values)) && fresh(server.all.Values - old(server.all.Values))
    {
      hide Joined, Model, W.Step, After;
      for i := 0 to |acts|
        invariant Valid() && history == old(history) + acts[..i]
        invariant fresh(client.all.Values - old(client.all.Values)) && fresh(server.all.Values - old(server.all.Values))
      {
        Perform(acts[i]);
        assert acts[..i + 1] == acts[..i] + [acts[i]];
      }
      assert acts[..|acts|] == acts;
    }

    /** `write` on the object of a session, up to its wait for credit, is a run of its entry and its turns. */
    method Write(side: W.Side, sid: U64, data: Bytes) returns (ok: bool, ghost turns: nat)
      requires Valid() && sid in LinkAt(side).all && LinkAt(side).maxChunk > 0
      requires !LinkAt(side).all[sid].udp && LinkAt(side).all[sid].unsent == []
      modifies this`history, client, server, client.all.Values, server.all.Values
      ensures Valid() && history == old(history) + CallActs(side, sid, [BeginWrite(data)] + Turns(turns))
      ensures client.all == old(client.all) && server.all == old(server.all)
    {
      hide Link.Valid, Link.Model, UseMany, W.Run, W.Step;
      Apart();
      ghost var w := Model();
      ok, turns := LinkAt(side).WriteSession(sid, data);
      ghost var calls := [BeginWrite(data)] + Turns(turns);
      CallsAreActs(cfg, history, side, sid, calls);
      history := history + CallActs(side, sid, calls);
    }

    /** `read` on a stream session's object: an act of the run, and its answer is that act's. */
    method Read(side: W.Side, sid: U64, room: nat) returns (r: Option<Bytes>)
      requires Valid() && sid in LinkAt(side).all && !LinkAt(side).all[sid].udp
      modifies this`history, client, server, client.all.Values, server.all.Values
      ensures Valid() && history == old(history) + [W.Use(side, sid, SessionModel.Read(room))]
      ensures client.all == old(client.all) && server.all == old(server.all)
      ensures EntryOf(After(cfg, old(history)), W.Use(side, sid, SessionModel.Read(room)), side, sid).read ==
              if r.Some? then r.value else []
    {
      hide Link.Valid, Link.Model, LinkModel.Use, W.Run, ReadResult;
      Apart();
      ValueOf(side, sid);
      ghost var a := W.Use(side, sid, SessionModel.Read(room));
      AfterSnoc(cfg, history, a);
      r := LinkAt(side).ReadSession(sid, room);
      history := history + [a];
    }

    /** `receiveFrom` on a datagram session's object, likewise. */
    method ReceiveFrom(side: W.Side, sid: U64) returns (r: Receipt)
      requires Valid() && sid in LinkAt(side).all && LinkAt(side).all[sid].udp
      modifies this`history, client, server, client.all.Values, server.all.Values
      ensures Valid() && history == old(history) + [W.Use(side, sid, SessionModel.ReceiveFrom)]
      ensures client.all == old(client.all) && server.all == old(server.all)
      ensures EntryOf(After(cfg, old(history)), W.Use(side, sid, SessionModel.ReceiveFrom), side, sid).received ==
              if r.Delivered? then [r.datagram] else []
    {
      hide Link.Valid, Link.Model, LinkModel.Use, W.Run;
      Apart();
      ValueOf(side, sid);
      ghost var a := W.Use(side, sid, SessionModel.ReceiveFrom);
      AfterSnoc(cfg, history, a);
      r := LinkAt(side).ReceiveSession(sid);
      history := history + [a];
    }

    // ---- what holds of the objects ----

    /** The guarantees of every run, on the session objects of both links: the answers of all `read` calls so far are a
        prefix of the arguments of all `write` calls, credit and buffers are within the window, and the table lists the
        sessions that are not Closed. */
    lemma {:induction false} ObjectsKeepWord(sid: U64, side: W.Side)
      requires Valid() && sid in LinkAt(side).all && sid in LinkAt(W.Peer(side)).all
      ensures var reader, writer := LinkAt(side).all[sid], LinkAt(W.Peer(side)).all[sid];
              reader.Valid() && writer.Valid() && reader.got <= writer.sent <= writer.accepted &&
              reader.got == LogOf(cfg, history, side, sid).read && writer.accepted == LogOf(cfg, history, W.Peer(side), sid).written &&
              (!writer.udp ==> 0 <= writer.sendCredit <= cfg.clientWindow) &&
              (!reader.udp ==> |Flatten(reader.inbox)| + |reader.Rest()| + reader.recvUnacked <= cfg.clientWindow)
      ensures forall id :: id in LinkAt(side).sessions <==> id in LinkAt(side).all && LinkAt(side).all[id].state != Closed
    {
      hide After, Flatten, LogOf;
      var w := After(cfg, history);
      ValueOf(side, sid);
      ValueOf(W.Peer(side), sid);
      HistoryIsLog(cfg, history, side, sid);
      HistoryIsLog(cfg, history, W.Peer(side), sid);
      PrefixDelivery(cfg, history, sid, side);
      TableIsLiveSessions(cfg, history, side);
      if !At(w, side, sid).value.udp {
        ReceiverBounded(cfg, history, sid, side);
      }
      if !At(w, W.Peer(side), sid).value.udp {
        CreditConserved(cfg, history, sid, W.Peer(side));
        BooksBoundCredit(w, W.Peer(side), sid);
      }
      forall id: U64 ensures id in LinkAt(side).sessions <==> id in LinkAt(side).all && LinkAt(side).all[id].state != Closed {
        if id in LinkAt(side).all {
          ValueOf(side, id);
        }
      }
    }

    /** A server's stream session object has the target that the client's `openSession` was given, as the wire format
        carries it. */
    lemma {:induction false} TargetsKeepWord(sid: U64)
      requires Valid() && sid in server.all && !server.all[sid].udp
      ensures sid in client.all && Received(client.all[sid].target) == Ok(server.all[sid].target)
      ensures AskedFor(cfg, history, sid) == Some((client.all[sid].target, false))
    {
      hide After, AskedFor, Received;
      ValueOf(W.Server, sid);
      TargetArrives(cfg, history, sid);
      OpenedAsAsked(cfg, history, sid);
      client.Shown();
      ValueOf(W.Client, sid);
    }

    /** The value of a session object in the model of its link. */
    lemma {:induction false} ValueOf(side: W.Side, sid: U64)
      requires Valid() && sid in LinkAt(side).all
      ensures LinkAt(side).all[sid].Valid() && At(After(cfg, history), side, sid) == Some(LinkAt(side).all[sid].Model())
      ensures W.EndOf(After(cfg, history), side).table == LinkAt(side).sessions.Keys
      ensures W.EndOf(After(cfg, history), side).sessions.Keys == LinkAt(side).all.Keys
    {
      hide After;
      LinkAt(side).Shown();
    }
  }

  lemma {:induction false} UnknownSession(e: End, sid: U64, c: Call)
    ensures sid !in e.sessions ==> LinkModel.Use(e, sid, c) == e
  {
  }

  lemma {:induction false} KnownSession(e: End, sid: U64, target: Address, udp: bool)
    ensures sid in e.sessions ==> LinkModel.OpenSession(e, sid, target, udp) == e
  {
  }

  /** A NEW at the head of the client's pipe is about a session that the server does not have. */
  predicate NewIsNew(w: W.World, side: W.Side) {
    var out := W.EndOf(w, W.Peer(side)).out;
    side.Server? && out != [] && (out[0].New? || out[0].NewUdp?) ==> out[0].sid !in w.server.sessions
  }

  lemma {:induction false} FreshInRun(cfg: W.Config, acts: seq<W.Act>, side: W.Side)
    ensures NewIsNew(After(cfg, acts), side)
  {
    hide W.Run;
    var out := After(cfg, acts).client.out;
    if side.Server? && out != [] && (out[0].New? || out[0].NewUdp?) {
      NewIsFresh(cfg, acts);
    }
  }

  lemma {:induction false} BooksBoundCredit(w: W.World, side: W.Side, sid: U64)
    requires At(w, side, sid).Some?
    ensures At(w, side, sid).value.credit <= Books(w, side, sid)
  {
  }

  /** Calls on one session as acts. */
  function CallActs(side: W.Side, sid: U64, calls: seq<Call>): seq<W.Act> {
    seq(|calls|, i requires 0 <= i < |calls| => W.Use(side, sid, calls[i]))
  }

  lemma {:induction false} CallsAreActs(cfg: W.Config, acts: seq<W.Act>, side: W.Side, sid: U64, calls: seq<Call>)
    ensures var w := After(cfg, acts);
            After(cfg, acts + CallActs(side, sid, calls)) == W.With(w, side, UseMany(W.EndOf(w, side), sid, calls))
    decreases calls
  {
    hide LinkModel.Use, W.Run;
    if calls == [] {
      assert acts + CallActs(side, sid, calls) == acts;
      NoCalls(W.EndOf(After(cfg, acts), side), sid);
    } else {
      var a := W.Use(side, sid, calls[0]);
      AfterSnoc(cfg, acts, a);
      CallsAreActs(cfg, acts + [a], side, sid, calls[1..]);
      assert acts + CallActs(side, sid, calls) == acts + [a] + CallActs(side, sid, calls[1..]);
      assert calls == [calls[0]] + calls[1..];
      CallsCons(W.EndOf(After(cfg, acts), side), sid, calls[0], calls[1..]);
    }
  }
}
