/** One writer and the link's reader, one atomic operation at a time: `Session::write` against `Session::onWindow`
    (src/transport/session.cpp). */
module CreditWakeup {
  import opened Octets

  /** Where the writer is: about to load the credit, waiting on the one-slot channel, just woken, about to load the
      credit again to size a chunk, about to subtract it, about to queue the frame, or not writing. */
  datatype Writer =
    | Idle
    | Check
    | Wait
    | Woken
    | Measure
    | Subtract(chunk: nat)
    | Enqueue(chunk: nat)

  /** The reader between its `fetch_add` and its `try_send`. */
  datatype Reader = Quiet | Posting

  /** `granted` and `spent` are history. */
  datatype State = State(
    credit: int, token: bool, writer: Writer, remaining: nat, reader: Reader,
    initial: nat, granted: nat, spent: nat, queued: nat)

  datatype Op = Begin(size: nat) | WriterOp | AddCredit(delta: U32) | PostToken

  function Start(window: U32): State {
    State(window, false, Idle, 0, Quiet, window, 0, 0, 0)
  }

  function Step(s: State, op: Op, maxFrame: nat): State {
    match op
    case Begin(size) => if s.writer.Idle? && size > 0 then s.(writer := Check, remaining := size) else s
    case WriterOp => Advance(s, maxFrame)
    case AddCredit(delta) =>
      if s.reader.Quiet? then s.(credit := s.credit + delta, granted := s.granted + delta, reader := Posting) else s
    case PostToken => if s.reader.Posting? then s.(token := true, reader := Quiet) else s
  }

  function Advance(s: State, maxFrame: nat): State {
    match s.writer
    case Idle => s
    case Check => s.(writer := if s.credit <= 0 then Wait else Measure)
    case Wait => if s.token then s.(token := false, writer := Woken) else s
    case Woken => s.(writer := Check)
    case Measure =>
      var chunk := Min(s.remaining, Min(maxFrame, if s.credit > 0 then s.credit else 0));
      s.(writer := if chunk == 0 then Check else Subtract(chunk))
    case Subtract(chunk) => s.(credit := s.credit - chunk, spent := s.spent + chunk, writer := Enqueue(chunk))
    case Enqueue(chunk) =>
      if chunk <= s.remaining then
        s.(remaining := s.remaining - chunk, queued := s.queued + chunk,
           writer := if s.remaining == chunk then Idle else Check)
      else s
  }

  function Run(s: State, ops: seq<Op>, maxFrame: nat): State {
    if ops == [] then s else Step(Run(s, ops[..|ops| - 1], maxFrame), ops[|ops| - 1], maxFrame)
  }

  /** No lost wake-up: a writer that waits although there is credit has a token, or one is about to be posted. */
  predicate WillWake(s: State) {
    s.writer.Wait? && s.credit > 0 ==> s.token || s.reader.Posting?
  }

  predicate Inv(s: State) {
    && 0 <= s.credit
    && s.credit + s.spent == s.initial + s.granted
    && WillWake(s)
    && (s.writer.Subtract? ==> 0 < s.writer.chunk <= s.credit && s.writer.chunk <= s.remaining)
    && (s.writer.Enqueue? ==> 0 < s.writer.chunk <= s.remaining)
    && s.spent == s.queued + (if s.writer.Enqueue? then s.writer.chunk else 0)
    && (!s.writer.Idle? ==> s.remaining > 0)
  }

  lemma {:induction false} StepInv(s: State, op: Op, maxFrame: nat)
    requires Inv(s)
    ensures Inv(Step(s, op, maxFrame))
  {
  }

  /** Under every interleaving of single atomic operations: the credit is never negative and never created, what has
      been queued was paid for, and no wake-up is lost. */
  lemma {:induction false} EveryInterleaving(window: U32, ops: seq<Op>, maxFrame: nat)
    ensures var s := Run(Start(window), ops, maxFrame);
            Inv(s) && s.initial == window && s.queued <= window + s.granted && 0 <= s.credit
    ensures WillWake(Run(Start(window), ops, maxFrame))
  {
    if ops != [] {
      hide Step;
      EveryInterleaving(window, ops[..|ops| - 1], maxFrame);
      StepInv(Run(Start(window), ops[..|ops| - 1], maxFrame), ops[|ops| - 1], maxFrame);
      StepInitial(Run(Start(window), ops[..|ops| - 1], maxFrame), ops[|ops| - 1], maxFrame);
    }
  }

  lemma {:induction false} StepInitial(s: State, op: Op, maxFrame: nat)
    ensures Step(s, op, maxFrame).initial == s.initial
  {
  }

  /** And the wake-up takes effect: from any reachable state with credit and a waiting writer, the reader's pending
      post and six writer operations put at least one more byte on the queue. */
  lemma {:induction false} WaiterGoesOn(s: State, maxFrame: nat)
    requires Inv(s) && s.writer.Wait? && s.credit > 0 && maxFrame > 0
    ensures Run(s, [PostToken, WriterOp, WriterOp, WriterOp, WriterOp, WriterOp, WriterOp], maxFrame).queued > s.queued
  {
    var s1 := Step(s, PostToken, maxFrame);
    var s2 := Step(s1, WriterOp, maxFrame);
    var s3 := Step(s2, WriterOp, maxFrame);
    var s4 := Step(s3, WriterOp, maxFrame);
    var s5 := Step(s4, WriterOp, maxFrame);
    var s6 := Step(s5, WriterOp, maxFrame);
    var s7 := Step(s6, WriterOp, maxFrame);
    assert s2.writer.Woken? && s4.writer.Measure? && s5.writer.Subtract? && s6.writer.Enqueue?;
    assert s7.queued > s.queued;
    hide Step, Run;
    PostThenSix(s, maxFrame);
  }

  lemma {:induction false} PostThenSix(s: State, k: nat)
    ensures Run(s, [PostToken, WriterOp, WriterOp, WriterOp, WriterOp, WriterOp, WriterOp], k) ==
            Step(Step(Step(Step(Step(Step(Step(s, PostToken, k), WriterOp, k), WriterOp, k), WriterOp, k), WriterOp, k), WriterOp, k), WriterOp, k)
  {
    hide Step, Run;
    var ops := [PostToken, WriterOp, WriterOp, WriterOp, WriterOp, WriterOp, WriterOp];
    RunNone(s, k);
    RunStep(s, [], PostToken, k);
    RunStep(s, ops[..1], WriterOp, k);
    RunStep(s, ops[..2], WriterOp, k);
    RunStep(s, ops[..3], WriterOp, k);
    RunStep(s, ops[..4], WriterOp, k);
    RunStep(s, ops[..5], WriterOp, k);
    RunStep(s, ops[..6], WriterOp, k);
    assert ops[..1] == [] + [PostToken] && ops[..2] == ops[..1] + [WriterOp] && ops[..3] == ops[..2] + [WriterOp];
    assert ops[..4] == ops[..3] + [WriterOp] && ops[..5] == ops[..4] + [WriterOp] && ops[..6] == ops[..5] + [WriterOp];
    assert ops == ops[..6] + [WriterOp];
  }

  lemma {:induction false} RunNone(s: State, maxFrame: nat)
    ensures Run(s, [], maxFrame) == s
  {
  }

  lemma {:induction false} RunStep(s: State, ops: seq<Op>, op: Op, maxFrame: nat)
    ensures Run(s, ops + [op], maxFrame) == Step(Run(s, ops, maxFrame), op, maxFrame)
  {
    hide Step;
    assert (ops + [op])[..|ops|] == ops;
  }
}
