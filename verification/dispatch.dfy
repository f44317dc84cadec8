/** `Hub#receive(message, payload)`: the per-message dispatch cycle. It logs a
    preview of the payload, runs decode / Handler.for / handle inside
    `with(:benchmarking, :caching)`, acks the message, and on any exception
    acks (again, if the first ack was what raised) and reports the error.

    The collaborators are not modelled; how each of them behaves for the one
    message at hand is an input (`Env`). The result is the run of `receive`:
    its effects in order, and whether an exception escaped it.
 */
module Dispatch {
  import opened Common
  import opened Preview
  import opened Wrapping
  import opened Decoding

  /** How the collaborators behave for one message. */
  datatype Env = Env(
    json: JsonResult,    // MultiJson.decode on the payload
    resolve: Outcome,    // Handler.for(event, payload)
    handle: Outcome,     // handler.handle
    ack: Outcome,        // message.ack after the wrapped block
    rescueAck: Outcome)  // message.ack inside the rescue clause

  /** The wrappers `receive` asks for, in the order it lists them. */
  const Stages: seq<Stage> := [Benchmarking, Caching]

  /** The block given to `with`: how it ran, and the value of `payload` when
      it stopped (the assignment in the `if` rebinds the method's local). */
  datatype BlockEnd = BlockEnd(run: Run, payload: Payload)

  function Block(event: string, raw: string, env: Env): BlockEnd
  {
    match Decode(env.json)
    case Escaped(e) => BlockEnd(Run([DecodeCall(raw)], Raised(e)), Raw(raw))
    case Returned(v) =>
      if !Truthy(v) then
        BlockEnd(Run([DecodeCall(raw)], Normal), Decoded(v))
      else if env.resolve.Raised? then
        BlockEnd(Run([DecodeCall(raw), Resolve(event, v)], env.resolve), Decoded(v))
      else
        BlockEnd(Run([DecodeCall(raw), Resolve(event, v), Handle], env.handle), Decoded(v))
  }

  /** The rescue clause, entered with the effects so far and the exception. */
  function Rescue(trace: seq<Effect>, event: string, payload: Payload, cause: Exn, env: Env): Run
  {
    if env.rescueAck.Raised? then Run(trace + [Ack], env.rescueAck)
    else Run(trace + [Ack, Notify(HubError(event, payload, cause))], Normal)
  }

  /** The effects of `receive` before its first ack: the debug line and the
      wrapped block. The lemmas below state facts about this prefix of a run. */
  function Head(event: string, raw: string, env: Env): seq<Effect>
  {
    [Debug(event, PayloadPreview(raw))] + With(Stages, Block(event, raw, env).run).trace
  }

  /** `receive` in one pass: the debug line, the wrapped block, then the ack,
      or the rescue clause when the block or that ack raised. */
  function Receive(event: string, raw: string, env: Env): Run
  {
    var b := Block(event, raw, env);
    var w := With(Stages, b.run);
    var head := [Debug(event, PayloadPreview(raw))] + w.trace;
    if w.outcome.Raised? then Rescue(head, event, b.payload, w.outcome.exn, env)
    else if env.ack.Raised? then Rescue(head + [Ack], event, b.payload, env.ack.exn, env)
    else Run(head + [Ack], Normal)
  }

  // ---------------------------------------------------------------------------
  // Classifying one message by how its collaborators behave

  /** Decode returned a truthy value, so a handler is looked up. */
  predicate HandlerReached(env: Env) {
    Decode(env.json).Returned? && Truthy(Decode(env.json).value)
  }

  /** The wrapped block raised: decode let an exception escape, or handler
      resolution or `handle` raised. */
  predicate BlockFails(env: Env) {
    || Decode(env.json).Escaped?
    || (HandlerReached(env) && (env.resolve.Raised? || env.handle.Raised?))
  }

  /** The exception the wrapped block raised. */
  function BlockExn(env: Env): Exn
    requires BlockFails(env)
  {
    if Decode(env.json).Escaped? then Decode(env.json).exn
    else if env.resolve.Raised? then env.resolve.exn
    else env.handle.exn
  }

  /** The rescue clause runs: the block raised, or the first ack did. */
  predicate Rescued(env: Env) {
    BlockFails(env) || env.ack.Raised?
  }

  /** The exception the rescue clause catches. */
  function Caught(env: Env): Exn
    requires Rescued(env)
  {
    if BlockFails(env) then BlockExn(env) else env.ack.exn
  }

  /** The value of `payload` in the rescue clause. */
  function PayloadAt(raw: string, env: Env): Payload
  {
    match Decode(env.json)
    case Escaped(_) => Raw(raw)
    case Returned(v) => Decoded(v)
  }

  /** The effects `receive` adds after its head, by case. */
  function Tail(event: string, raw: string, env: Env): seq<Effect>
  {
    var acks := if !BlockFails(env) && env.ack.Raised? then [Ack, Ack] else [Ack];
    if Rescued(env) && env.rescueAck.Normal? then
      acks + [Notify(HubError(event, PayloadAt(raw, env), Caught(env)))]
    else acks
  }

  // ---------------------------------------------------------------------------
  // Structure of the run

  lemma BlockFacts(event: string, raw: string, env: Env)
    ensures var b := Block(event, raw, env);
      && b.run.outcome.Raised? == BlockFails(env)
      && (BlockFails(env) ==> b.run.outcome.exn == BlockExn(env))
      && b.payload == PayloadAt(raw, env)
      && Ack !in b.run.trace
      && (forall i :: 0 <= i < |b.run.trace| ==> !b.run.trace[i].Notify?)
      && Count(b.run.trace, Handle) == (if HandlerReached(env) && env.resolve.Normal? then 1 else 0)
      && (forall e :: Resolve(event, e) in b.run.trace <==> Decode(env.json) == Returned(e) && Truthy(e))
  {
    var t := Block(event, raw, env).run.trace;
    if |t| == 3 {
      assert t == [t[0]] + ([t[1]] + ([t[2]] + []));
      CountCons(t[0], [t[1]] + ([t[2]] + []), Handle);
      CountCons(t[1], [t[2]] + [], Handle);
      CountCons(t[2], [], Handle);
    } else if |t| == 2 {
      assert t == [t[0]] + ([t[1]] + []);
      CountCons(t[0], [t[1]] + [], Handle);
      CountCons(t[1], [], Handle);
    } else {
      assert t == [t[0]] + [];
      CountCons(t[0], [], Handle);
    }
  }

  /** The head never acks or notifies; the wrapped block's outcome decides
      whether the rescue clause is entered from it. */
  lemma HeadFacts(event: string, raw: string, env: Env)
    ensures var h := Head(event, raw, env);
      && Ack !in h
      && (forall i :: 0 <= i < |h| ==> !h[i].Notify?)
      && Count(h, Handle) == (if HandlerReached(env) && env.resolve.Normal? then 1 else 0)
      && With(Stages, Block(event, raw, env).run).outcome == Block(event, raw, env).run.outcome
  {
    var b := Block(event, raw, env);
    BlockFacts(event, raw, env);
    BenchmarkingInsideCaching(b.run);
    var closing := if b.run.outcome.Normal? then [Exit(Benchmarking), Exit(Caching)] else [];
    var h := Head(event, raw, env);
    assert h == [Debug(event, PayloadPreview(raw)), Enter(Caching), Enter(Benchmarking)] + b.run.trace + closing;
    forall i | 0 <= i < |h| ensures !h[i].Notify? && h[i] != Ack {
      if 3 <= i < 3 + |b.run.trace| {
        assert h[i] == b.run.trace[i - 3];
      }
    }
    CountAppend([Debug(event, PayloadPreview(raw)), Enter(Caching), Enter(Benchmarking)] + b.run.trace, closing, Handle);
    CountAppend([Debug(event, PayloadPreview(raw)), Enter(Caching), Enter(Benchmarking)], b.run.trace, Handle);
    CountAbsent([Debug(event, PayloadPreview(raw)), Enter(Caching), Enter(Benchmarking)], Handle);
    CountAbsent(closing, Handle);
  }

  /** Every run of `receive` is its head followed by the tail of its case. */
  lemma ReceiveSplits(event: string, raw: string, env: Env)
    ensures Receive(event, raw, env).trace == Head(event, raw, env) + Tail(event, raw, env)
    ensures Receive(event, raw, env).outcome
         == (if Rescued(env) && env.rescueAck.Raised? then env.rescueAck else Normal)
  {
  }

  /** The head spelled out: debug line, caching entered, benchmarking
      entered, the block, and the two exits only if the block returned. */
  lemma HeadShape(event: string, raw: string, env: Env)
    ensures var b := Block(event, raw, env);
      Head(event, raw, env)
      == [Debug(event, PayloadPreview(raw)), Enter(Caching), Enter(Benchmarking)] + b.run.trace
         + (if b.run.outcome.Normal? then [Exit(Benchmarking), Exit(Caching)] else [])
  {
  }

  // ---------------------------------------------------------------------------
  // Properties over every message

  /** Every message is acked; exactly once, except when the ack after a
      successful block raises, and the rescue clause acks a second time. */
  lemma ReceiveAcks(event: string, raw: string, env: Env)
    ensures Count(Receive(event, raw, env).trace, Ack)
         == (if !BlockFails(env) && env.ack.Raised? then 2 else 1)
  {
    ReceiveSplits(event, raw, env);
    HeadFacts(event, raw, env);
    var h := Head(event, raw, env);
    var t := Tail(event, raw, env);
    CountAppend(h, t, Ack);
    CountAbsent(h, Ack);
    var acks: seq<Effect> := if !BlockFails(env) && env.ack.Raised? then [Ack, Ack] else [Ack];
    CountCons(Ack, [], Ack);
    CountCons(Ack, [Ack], Ack);
    assert acks == [Ack] + [] || acks == [Ack] + [Ack];
    if Rescued(env) && env.rescueAck.Normal? {
      var n := Notify(HubError(event, PayloadAt(raw, env), Caught(env)));
      CountAppend(acks, [n], Ack);
      CountCons(n, [], Ack);
    }
  }

  /** An exception escapes `receive` only when the rescue clause's own ack
      raises, and then it is that exception. */
  lemma ReceiveEscapes(event: string, raw: string, env: Env)
    ensures Receive(event, raw, env).outcome.Raised?
        <==> Rescued(env) && env.rescueAck.Raised?
    ensures Receive(event, raw, env).outcome.Raised?
        ==> Receive(event, raw, env).outcome == env.rescueAck
  {
  }

  /** An error is reported exactly when the rescue clause ran to completion;
      the report is the last effect, it comes right after an ack, there is
      only one, and it carries the event, the payload as the rescue clause
      sees it, and the caught exception. */
  lemma ReceiveNotifies(event: string, raw: string, env: Env)
    ensures var t := Receive(event, raw, env).trace;
      && ((exists i :: 0 <= i < |t| && t[i].Notify?) <==> Rescued(env) && env.rescueAck.Normal?)
      && (forall i :: 0 <= i < |t| && t[i].Notify? ==>
            && i == |t| - 1
            && 1 <= i && t[i - 1] == Ack
            && t[i].error == HubError(event, PayloadAt(raw, env), Caught(env)))
  {
    ReceiveSplits(event, raw, env);
    HeadFacts(event, raw, env);
    var h := Head(event, raw, env);
    var tl := Tail(event, raw, env);
    var t := Receive(event, raw, env).trace;
    assert forall i :: 0 <= i < |h| ==> t[i] == h[i];
    forall i | 0 <= i < |t| && t[i].Notify?
      ensures i == |t| - 1 && 1 <= i && t[i - 1] == Ack
      ensures t[i].error == HubError(event, PayloadAt(raw, env), Caught(env))
    {
      assert t[i] == tl[i - |h|];
    }
    if Rescued(env) && env.rescueAck.Normal? {
      assert t[|t| - 1].Notify?;
    }
  }

  /** The handler runs at most once, and it runs exactly when decode gave a
      truthy value and a handler could be resolved for it. */
  lemma ReceiveHandles(event: string, raw: string, env: Env)
    ensures Count(Receive(event, raw, env).trace, Handle)
         == (if HandlerReached(env) && env.resolve.Normal? then 1 else 0)
  {
    ReceiveSplits(event, raw, env);
    HeadFacts(event, raw, env);
    var h := Head(event, raw, env);
    var t := Tail(event, raw, env);
    CountAppend(h, t, Handle);
    assert Handle !in t;
    CountAbsent(t, Handle);
  }

  // ---------------------------------------------------------------------------
  // The trace of each path

  /** Decode gave `nil` or `false` (a decode failure included): no handler is
      looked up or run, the message is acked once, and nothing is reported. */
  lemma FalsyPayloadIsOnlyAcked(event: string, raw: string, env: Env, v: Value)
    requires Decode(env.json) == Returned(v) && !Truthy(v)
    requires env.ack.Normal?
    ensures Receive(event, raw, env)
         == Run([Debug(event, PayloadPreview(raw)), Enter(Caching), Enter(Benchmarking),
                 DecodeCall(raw), Exit(Benchmarking), Exit(Caching), Ack], Normal)
  {
  }

  /** The successful path: the handler is resolved for the decoded value and
      handled once inside both wrappers, then the message is acked. */
  lemma HandledMessageTrace(event: string, raw: string, env: Env, v: Value)
    requires Decode(env.json) == Returned(v) && Truthy(v)
    requires env.resolve.Normal? && env.handle.Normal? && env.ack.Normal?
    ensures Receive(event, raw, env)
         == Run([Debug(event, PayloadPreview(raw)), Enter(Caching), Enter(Benchmarking),
                 DecodeCall(raw), Resolve(event, v), Handle,
                 Exit(Benchmarking), Exit(Caching), Ack], Normal)
  {
  }

  /** Handler resolution raises (an unknown event, say): the wrappers are left
      without their exits, the message is acked, then the error is reported
      with the decoded value as its payload. */
  lemma ResolveFailureTrace(event: string, raw: string, env: Env, v: Value, e: Exn)
    requires Decode(env.json) == Returned(v) && Truthy(v)
    requires env.resolve == Raised(e) && env.rescueAck.Normal?
    ensures Receive(event, raw, env)
         == Run([Debug(event, PayloadPreview(raw)), Enter(Caching), Enter(Benchmarking),
                 DecodeCall(raw), Resolve(event, v),
                 Ack, Notify(HubError(event, Decoded(v), e))], Normal)
  {
  }

  /** `handle` raises: acked once, then reported with the decoded value. */
  lemma HandleFailureTrace(event: string, raw: string, env: Env, v: Value, e: Exn)
    requires Decode(env.json) == Returned(v) && Truthy(v)
    requires env.resolve.Normal? && env.handle == Raised(e) && env.rescueAck.Normal?
    ensures Receive(event, raw, env)
         == Run([Debug(event, PayloadPreview(raw)), Enter(Caching), Enter(Benchmarking),
                 DecodeCall(raw), Resolve(event, v), Handle,
                 Ack, Notify(HubError(event, Decoded(v), e))], Normal)
  {
  }

  /** An exception outside StandardError escapes decode: `payload` was never
      reassigned, so the report carries the raw body. */
  lemma DecodeEscapeTrace(event: string, raw: string, env: Env, e: Exn)
    requires env.json == ParseRaised(e) && !e.standard
    requires env.rescueAck.Normal?
    ensures Receive(event, raw, env)
         == Run([Debug(event, PayloadPreview(raw)), Enter(Caching), Enter(Benchmarking),
                 DecodeCall(raw), Ack, Notify(HubError(event, Raw(raw), e))], Normal)
  {
  }

  /** The ack after a successful block raises: when its own ack returns, the
      rescue clause acks a second time and reports the ack's exception. */
  lemma AckFailureTrace(event: string, raw: string, env: Env, e: Exn)
    requires !BlockFails(env)
    requires env.ack == Raised(e) && env.rescueAck.Normal?
    ensures Receive(event, raw, env).trace
         == Head(event, raw, env) + [Ack, Ack, Notify(HubError(event, PayloadAt(raw, env), e))]
    ensures Receive(event, raw, env).outcome == Normal
  {
  }
}
