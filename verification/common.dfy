/** Values shared by the model of the hub's message dispatch: Ruby
    exceptions, the outcome of a call into a collaborator, decoded JSON
    values, and the trace of effects one message produces.
 */
module Common {

  datatype Option<+T> = None | Some(value: T)

  /** A Ruby exception: its class name and whether its class descends from
      StandardError (the only exceptions a bare `rescue StandardError` catches). */
  datatype Exn = Exn(className: string, standard: bool)

  /** How a call into a collaborator ends: it returns, or it raises. */
  datatype Outcome = Normal | Raised(exn: Exn)

  /** A decoded JSON value, with numbers restricted to integers (only
      truthiness and identity of a value matter to the dispatcher). */
  datatype Value =
    | Null
    | Bool(b: bool)
    | Num(n: int)
    | Str(s: string)
    | Arr(items: seq<Value>)
    | Obj(fields: map<string, Value>)

  /** Ruby truthiness: only `nil` and `false` are falsy; `0`, `""`, `[]` and
      `{}` are all truthy. */
  predicate Truthy(v: Value) {
    v != Null && v != Bool(false)
  }

  /** What the local `payload` of `receive` holds: the raw message body, or,
      once `decode` has returned, whatever it returned. */
  datatype Payload = Raw(text: string) | Decoded(value: Value)

  /** The record handed to the error reporter: event tag, payload, cause. */
  datatype HubError = HubError(event: string, payload: Payload, cause: Exn)

  /** The named wrappers `with` can nest around a block. */
  datatype Stage = Benchmarking | Caching

  /** One observable step of handling a message. */
  datatype Effect =
    | Debug(event: string, preview: string)  // the "Handling event" debug line
    | Enter(stage: Stage)                    // a wrapper starts its work
    | Exit(stage: Stage)                     // a wrapper finishes after its block returned
    | DecodeCall(raw: string)                // decode is called on the raw payload
    | Resolve(event: string, payload: Value) // Handler.for(event, payload)
    | Handle                                 // handler.handle
    | Ack                                    // message.ack is called
    | Notify(error: HubError)                // notify_error enqueues an error record

  /** A run of some code: the effects it produced, in order, and how it ended. */
  datatype Run = Run(trace: seq<Effect>, outcome: Outcome)

  /** Number of occurrences of `e` in `s`. */
  function Count(s: seq<Effect>, e: Effect): nat
  {
    if |s| == 0 then 0
    else (if s[0] == e then 1 else 0) + Count(s[1..], e)
  }

  lemma {:induction false} CountAppend(a: seq<Effect>, b: seq<Effect>, e: Effect)
    ensures Count(a + b, e) == Count(a, e) + Count(b, e)
  {
    if |a| == 0 {
      assert a + b == b;
    } else {
      assert (a + b)[1..] == a[1..] + b;
      CountAppend(a[1..], b, e);
    }
  }

  lemma CountCons(x: Effect, s: seq<Effect>, e: Effect)
    ensures Count([x] + s, e) == (if x == e then 1 else 0) + Count(s, e)
  {
  }

  lemma {:induction false} CountAbsent(s: seq<Effect>, e: Effect)
    requires e !in s
    ensures Count(s, e) == 0
  {
    if |s| > 0 {
      assert e !in s[1..] by {
        forall i | 0 <= i < |s[1..]| ensures s[1..][i] != e {
          assert s[1..][i] == s[i + 1];
        }
      }
      CountAbsent(s[1..], e);
    }
  }
}
