/** End of file: what a reader has then, what it will never have, and when it has everything. */
module EndOfFile {
  import opened Octets
  import opened ShineFrames
  import opened SessionModel
  import opened LinkModel
  import opened Isolation
  import opened PairBase
  import opened Delivery
  import opened Completeness
  import opened Guarantees
  import W = World

  /** A reader at end of file with bytes still in its inbox. */
  predicate CutShort(s: Sess) {
    ReadSideDone(s.phase) && s.leftover == [] && s.inbox != []
  }

  // ---------------- a read side that is done ----------------

  lemma {:induction false} FrozenStep(cfg: W.Config, acts: seq<W.Act>, a: W.Act, sid: U64, side: W.Side)
    requires At(After(cfg, acts), side, sid).Some? && ReadSideDone(At(After(cfg, acts), side, sid).value.phase)
    ensures var s, s' := At(After(cfg, acts), side, sid), At(After(cfg, acts + [a]), side, sid);
            s'.Some? && Frozen(s.value, s'.value)
  {
    hide W.Step, W.Run, Next, Frozen, Sound, SessOk, Keep;
    var w := After(cfg, acts);
    AfterSnoc(cfg, acts, a);
    RunRoles(cfg, acts);
    RunSound(cfg, acts, sid);
    StepSeen(w, a, sid);
    SoundWhole(PairOf(w, sid), CtxOf(cfg, sid), side);
    NextFrozen(PairOf(w, sid), MoveOf(w, a, sid), CtxOf(cfg, sid), side);
  }

  /** From then on, in every continuation, the inbox is left as it is and only the leftover is still handed out. */
  lemma {:induction false} FrozenRun(cfg: W.Config, acts: seq<W.Act>, more: seq<W.Act>, sid: U64, side: W.Side)
    requires At(After(cfg, acts), side, sid).Some? && ReadSideDone(At(After(cfg, acts), side, sid).value.phase)
    ensures var s, s' := At(After(cfg, acts), side, sid), At(After(cfg, acts + more), side, sid);
            s'.Some? && Frozen(s.value, s'.value)
    decreases more
  {
    hide After, At;
    if more == [] {
      assert acts + more == acts;
    } else {
      var front, a := more[..|more| - 1], more[|more| - 1];
      assert acts + more == acts + front + [a];
      FrozenRun(cfg, acts, front, sid, side);
      FrozenStep(cfg, acts + front, a, sid, side);
      FrozenTwice(At(After(cfg, acts), side, sid).value, At(After(cfg, acts + front), side, sid).value,
                  At(After(cfg, acts + more), side, sid).value);
    }
  }

  /** In every run `read` reports end of file exactly when the read side is done and no leftover remains, whatever the
      inbox holds; and then no continuation ever returns another byte. */
  lemma {:induction false} EndOfFileExactly(cfg: W.Config, acts: seq<W.Act>, sid: U64, side: W.Side, room: nat)
    requires At(After(cfg, acts), side, sid).Some? && room > 0
    ensures var s := At(After(cfg, acts), side, sid).value;
            (ReadResult(s, room) == Some([]) <==> ReadSideDone(s.phase) && s.leftover == []) &&
            (ReadResult(s, room) == None <==> !ReadSideDone(s.phase) && s.leftover == [] && s.inbox == [])
    ensures var s := At(After(cfg, acts), side, sid).value;
            ReadResult(s, room) == Some([]) ==>
              forall more: seq<W.Act> ::
                var s' := At(After(cfg, acts + more), side, sid); s'.Some? && s'.value.got == s.got && s'.value.inbox == s.inbox
  {
    hide W.Run, Sound, Keep, AllThere;
    RunSound(cfg, acts, sid);
    SoundWhole(PairOf(After(cfg, acts), sid), CtxOf(cfg, sid), side);
    var s := At(After(cfg, acts), side, sid).value;
    if ReadSideDone(s.phase) && s.leftover == [] {
      forall more: seq<W.Act>
        ensures var s' := At(After(cfg, acts + more), side, sid); s'.Some? && s'.value.got == s.got && s'.value.inbox == s.inbox
      {
        FrozenRun(cfg, acts, more, sid, side);
        assert s.got + s.leftover == s.got;
      }
    }
  }

  // ---------------- the moment of CLOSE ----------------

  /** The next frame for an end past its handshake is the CLOSE of a session that listens there. */
  predicate CloseNext(w: W.World, side: W.Side, sid: U64) {
    W.CanDeliver(w, side) && W.EndOf(w, side).stage.Ready? && Listens(w, side, sid) &&
    var f := W.EndOf(w, W.Peer(side)).out[0]; f.Close? && f.sid == sid
  }

  lemma {:induction false} CloseTaken(h: Half, f: ShineFrame, server: bool, own: U32)
    requires h.sess.Some? && h.listed && f.Close?
    ensures var h' := TakeFrame(h, f, server, own);
            h'.sess.Some? && ReadSideDone(h'.sess.value.phase) &&
            h'.sess.value.inbox == h.sess.value.inbox && h'.sess.value.got == h.sess.value.got && h'.sess.value.leftover == h.sess.value.leftover
  {
  }

  lemma {:induction false} CloseDelivered(cfg: W.Config, acts: seq<W.Act>, sid: U64, side: W.Side, now: nat)
    requires CloseNext(After(cfg, acts), side, sid)
    ensures var s, s' := At(After(cfg, acts), side, sid).value, At(After(cfg, acts + [W.Deliver(side, now)]), side, sid);
            s'.Some? && ReadSideDone(s'.value.phase) && s'.value.inbox == s.inbox && s'.value.got == s.got && s'.value.leftover == s.leftover
  {
    hide W.Step, W.Run, Sound, Keep, TakeFrame, AllThere;
    var w, a := After(cfg, acts), W.Deliver(side, now);
    AfterSnoc(cfg, acts, a);
    RunRoles(cfg, acts);
    RunSound(cfg, acts, sid);
    StepSeen(w, a, sid);
    SoundWhole(PairOf(w, sid), CtxOf(cfg, sid), side);
    KeepHead(W.EndOf(w, W.Peer(side)).out, sid);
    CloseTaken(Of(PairOf(w, sid), side), W.EndOf(w, W.Peer(side)).out[0], side.Server?, W.EndOf(w, side).window);
  }

  lemma {:induction false} KeepHead(out: seq<ShineFrame>, sid: U64)
    requires out != [] && SidOf(out[0]) == Some(sid)
    ensures Keep(out, sid) != [] && Keep(out, sid)[0] == out[0]
  {
  }

  /** A CLOSE finds everything that was sent ahead of it: what has arrived is all but the payloads behind the CLOSE.
      Whatever happens afterwards, a reader at end of file has read all of that exactly when its inbox was empty as the
      CLOSE was dispatched. */
  lemma {:induction false} CloseFindsAll(cfg: W.Config, acts: seq<W.Act>, more: seq<W.Act>, sid: U64, side: W.Side, now: nat)
    requires LinksOpen(After(cfg, acts)) && CloseNext(After(cfg, acts), side, sid)
    ensures var w := After(cfg, acts);
            var behind := Keep(W.EndOf(w, W.Peer(side)).out, sid)[1..];
            Arrived(At(w, side, sid).value) + Payloads(behind) == SentAt(w, W.Peer(side), sid)
    ensures var s, s' := At(After(cfg, acts), side, sid).value, At(After(cfg, acts + [W.Deliver(side, now)] + more), side, sid);
            s'.Some? && ReadSideDone(s'.value.phase) &&
            (s'.value.leftover == [] ==> (s'.value.got == Arrived(s) <==> s.inbox == []))
  {
    hide W.Run, Sound, Keep, AllThere, Payloads, Flatten, W.CanDeliver;
    var w, a := After(cfg, acts), W.Deliver(side, now);
    var s := At(w, side, sid).value;
    NothingMissing(cfg, acts, sid, side);
    HeadOfPipe(w, side, sid);
    PayloadsPop(Keep(W.EndOf(w, W.Peer(side)).out, sid));
    RunSound(cfg, acts, sid);
    SoundWhole(PairOf(w, sid), CtxOf(cfg, sid), side);
    FlattenFilled(s.inbox);
    CloseDelivered(cfg, acts, sid, side, now);
    FrozenRun(cfg, acts + [a], more, sid, side);
  }

  /** So a reader at end of file, on links that are up, with nothing thrown away at its end and nothing on its way, has
      read all that was ever sent exactly when its inbox was empty as the CLOSE was dispatched. */
  lemma {:induction false} ReadAllExactly(cfg: W.Config, acts: seq<W.Act>, more: seq<W.Act>, sid: U64, side: W.Side, now: nat)
    requires LinksOpen(After(cfg, acts)) && CloseNext(After(cfg, acts), side, sid)
    requires var w := After(cfg, acts + [W.Deliver(side, now)] + more);
             LinksOpen(w) && sid !in W.EndOf(w, side).lost && Keep(W.EndOf(w, W.Peer(side)).out, sid) == [] &&
             At(w, side, sid).Some? && At(w, side, sid).value.leftover == []
    ensures var w := After(cfg, acts + [W.Deliver(side, now)] + more);
            At(w, side, sid).value.got == SentAt(w, W.Peer(side), sid) <==> At(After(cfg, acts), side, sid).value.inbox == []
  {
    hide After, At, Keep, LinksOpen, SentAt;
    CloseDelivered(cfg, acts, sid, side, now);
    FrozenRun(cfg, acts + [W.Deliver(side, now)], more, sid, side);
    CaughtUp(cfg, acts + [W.Deliver(side, now)] + more, sid, side);
  }

  lemma {:induction false} HeadOfPipe(w: W.World, side: W.Side, sid: U64)
    requires CloseNext(w, side, sid)
    ensures var out := Keep(W.EndOf(w, W.Peer(side)).out, sid); out != [] && out[0].Close?
  {
    KeepHead(W.EndOf(w, W.Peer(side)).out, sid);
  }
}
