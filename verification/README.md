# Travis hub: per-message dispatch, modelled in Dafny

The Travis hub subscribes one handler method, `receive`, to a set of message
queues. For every message it logs a short preview of the payload. It then runs
three steps inside the `with(:benchmarking, :caching)` wrapper: decode the JSON
payload, resolve a handler for the message's event type with `Handler.for`,
and call `handle`. After that it acks the message. If anything raises, it acks
the message and then enqueues an error record for the error reporter, unless
that ack raises in turn, in which case its exception leaves `receive`.

The model is a set of pure functions over immutable values:

- `Common`: Ruby exceptions (`Exn`, with whether the class descends from
  StandardError), call outcomes, decoded JSON values with Ruby truthiness,
  and the `Effect` trace one message produces.
- `Preview`: the payload excerpt in the "Handling event" debug line.
- `Wrapping`: the recursive `with` combinator. It comes with a reference
  definition (`Nest`) and the trace shape it produces.
- `Decoding`: `decode`. The JSON library's result for the payload is an input.
- `Dispatch`: `receive`. The behaviour of every collaborator on one message is
  an input (`Env`): what the JSON library does, whether `Handler.for` raises,
  whether `handle` raises, and whether each of the two `ack` calls raises. The
  result is the ordered trace of effects plus whether an exception escaped.
- `Queues`: Ruby's `Array#uniq`, given both as a recursive definition and as
  the forward scan Ruby performs. Also the reporting queue-name list and the
  full list of subscriptions.

Behaviours of the code that are easy to miss:

- In the rescue clause the message is acked first, and the error is reported
  after the ack.
- The error record carries the *decoded* payload once `decode` has returned,
  because the block rebinds `payload`. It carries the raw body only when
  `decode` itself let an exception escape.
- `with(:benchmarking, :caching)` makes caching the *outer* wrapper.
  Benchmarking is nested inside it.
- When the ack after a successful block raises, the rescue clause acks a second
  time, so such a message is acked twice.
- `decode` rescues only StandardError. Any other exception escapes it and,
  when the rescue clause's ack returns, is reported with the raw payload.
- A payload whose JSON is `false` or `null` is treated like a decode failure:
  no handler runs, and, when the ack returns, the message is acked once and
  nothing is reported.
- A payload of exactly 161 characters is shown in full followed by " ...". The
  inclusive range `0..160` keeps 161 characters while the guard only cuts
  payloads longer than 160 (`Preview.PreviewOfJustOverLimit`).

## Model

| member | source | states |
|---|---|---|
| `Preview.SliceThrough` | lib/travis/hub.rb:103 | Ruby's inclusive `s[0..last]` is the prefix of `s` of length `last + 1`, or all of `s` when it is shorter |
| `Preview.PayloadPreview` | lib/travis/hub.rb:103 | a payload of at most 160 characters is shown unchanged; a longer one is its first 161 characters followed by " ..."; the preview never exceeds 165 characters |
| `Preview.PreviewKeepsPrefix` | lib/travis/hub.rb:103 | the preview begins with the payload's own first min(size, 161) characters |
| `Preview.PreviewOfJustOverLimit` | lib/travis/hub.rb:103 | a 161-character payload is printed whole plus " ...", so the preview is longer than the payload |
| `Preview.PreviewLengthWhenCut` | lib/travis/hub.rb:103 | every cut preview has exactly the bound's length, 161 kept characters plus the 4 of " ..." |
| `Wrapping.NestPeel` | lib/travis/hub.rb:121-128 | moving the first wrapper into the block and nesting the rest gives the same run as nesting the whole list |
| `Wrapping.WithIsNest` | lib/travis/hub.rb:121-128 | for a nonempty list, the source's shift-and-recurse `with` equals the reference nesting, in which the last-listed wrapper is outermost |
| `Wrapping.NestShape` | lib/travis/hub.rb:121-137 | a nesting enters the wrappers last-listed first, runs the block's effects once, and exits them first-listed first only if the block returned; the block's outcome passes through unchanged |
| `Wrapping.WithShape` | lib/travis/hub.rb:121-137 | the same trace shape and outcome for `with` itself, for every nonempty wrapper list and block |
| `Wrapping.WithNoStages` | lib/travis/hub.rb:126 | `with` on no names raises TypeError from `send(nil)` and never runs the block |
| `Wrapping.WithRunsBlockOnce` | lib/travis/hub.rb:121-137 | every effect other than a wrapper's entry or exit occurs in the wrapped run exactly as often as in the block: the block runs once |
| `Wrapping.BenchmarkingInsideCaching` | lib/travis/hub.rb:105-110 | `with(:benchmarking, :caching)` yields Enter(caching), Enter(benchmarking), the block, then Exit(benchmarking), Exit(caching) when the block returns, and only the two entries when it raises |
| `Wrapping.Wrap` | lib/travis/hub.rb:130-137 | one wrapper method around its block: entry, the block once, exit only if the block returned; no contract of its own, its behaviour is stated by `Wrapping.NestShape` and `Wrapping.WithShape` |
| `Wrapping.With` | lib/travis/hub.rb:121-128 | the source's recursion step for step; no contract of its own, its properties are stated by `Wrapping.WithIsNest`, `Wrapping.WithShape`, `Wrapping.WithNoStages` and `Wrapping.WithRunsBlockOnce` |
| `Common.Truthy` | lib/travis/hub.rb:106 | the `if` test on the decoded value: only `nil` and `false` are falsy; a predicate without a contract, used by `Dispatch.BlockFacts` and `Dispatch.FalsyPayloadIsOnlyAcked` |
| `Decoding.Decode` | lib/travis/hub.rb:139-144 | decode never raises a StandardError; a parsed value is returned as is; a StandardError from the library becomes `nil`; any other exception escapes unchanged |
| `Decoding.DecodeFailureIsFalsy` | lib/travis/hub.rb:139-144 | a rescued decode failure yields a falsy value, the same result as the JSON `null` |
| `Dispatch.Block` | lib/travis/hub.rb:105-110 | the block given to `with`: decode, then, for a truthy value, `Handler.for` and `handle`, and the value `payload` holds when it stops; no contract of its own, its properties are stated by `Dispatch.BlockFacts` |
| `Dispatch.Rescue` | lib/travis/hub.rb:113-117 | the rescue clause: ack, then report the error unless that ack raised; no contract of its own, its properties are stated by `Dispatch.ReceiveSplits`, `Dispatch.ReceiveNotifies` and `Dispatch.ReceiveEscapes` |
| `Dispatch.Receive` | lib/travis/hub.rb:101-117 | `receive` itself: debug line, the wrapped block, the ack, and the rescue clause; no contract of its own, its properties are stated by `Dispatch.ReceiveSplits`, `Dispatch.ReceiveAcks`, `Dispatch.ReceiveEscapes`, `Dispatch.ReceiveNotifies`, `Dispatch.ReceiveHandles` and the per-path trace lemmas |
| `Dispatch.BlockFacts` | lib/travis/hub.rb:105-110 | the block raises exactly when decode lets an exception escape or a handler is reached and resolution or handle raises; it never acks or reports; it calls handle at most once; it resolves a handler exactly for a truthy decoded value; `payload` ends rebound unless decode raised |
| `Dispatch.HeadFacts` | lib/travis/hub.rb:102-110 | before the first ack, `receive` neither acks nor reports, calls handle once exactly when a truthy payload's handler was resolved, and the wrapped run ends as the block ended |
| `Dispatch.HeadShape` | lib/travis/hub.rb:102-110 | the effects before the first ack are the debug line, the two wrapper entries (caching first), the block, and the two exits only if the block returned |
| `Dispatch.ReceiveSplits` | lib/travis/hub.rb:101-117 | every run of `receive` is its head followed by one ack, or two acks when the normal-path ack raised, then one error report if the rescue clause completed; an exception escapes only from the rescue clause's own ack |
| `Dispatch.ReceiveAcks` | lib/travis/hub.rb:101-117 | every message is acked: twice exactly when the block succeeded and the normal-path ack raised, once on every other path |
| `Dispatch.ReceiveEscapes` | lib/travis/hub.rb:113-117 | an exception leaves `receive` if and only if the rescue clause ran and its ack raised, and it is that ack's exception |
| `Dispatch.ReceiveNotifies` | lib/travis/hub.rb:112-117 | an error is reported if and only if the rescue clause ran to completion; the report is the single last effect, comes right after an ack, and carries the event, the payload as rebound by the block, and the caught exception |
| `Dispatch.ReceiveHandles` | lib/travis/hub.rb:105-110 | the handler runs once if decode gave a truthy value and resolution returned, and never otherwise |
| `Dispatch.FalsyPayloadIsOnlyAcked` | lib/travis/hub.rb:105-112 | when decode gives `nil` or `false` and the ack returns, no handler is resolved or run, the message is acked once, nothing is reported, and the full trace is fixed |
| `Dispatch.HandledMessageTrace` | lib/travis/hub.rb:101-112 | on the successful path, when the ack returns, the trace is debug line, caching entry, benchmarking entry, decode, Handler.for(event, decoded value), handle, the two exits, and one ack, with no report |
| `Dispatch.ResolveFailureTrace` | lib/travis/hub.rb:101-117 | when handler resolution raises and the rescue clause's ack returns, the wrappers are left without exits, the message is acked once, and then one error is reported with the decoded payload and that exception |
| `Dispatch.HandleFailureTrace` | lib/travis/hub.rb:101-117 | when handle raises and the rescue clause's ack returns, the message is acked once, and then one error is reported with the decoded payload and that exception |
| `Dispatch.DecodeEscapeTrace` | lib/travis/hub.rb:101-117 | when an exception outside StandardError escapes decode and the rescue clause's ack returns, the message is acked once and the report carries the raw body |
| `Dispatch.AckFailureTrace` | lib/travis/hub.rb:112-116 | when the normal-path ack raises and the rescue clause's ack returns, the rescue clause acks again and then reports the ack's exception, and nothing escapes |
| `Queues.Uniq` | lib/travis/hub.rb:91 | uniq keeps every element of its input, adds none, and leaves no duplicates |
| `Queues.UniqKeepsFirstOccurrenceOrder` | lib/travis/hub.rb:91 | uniq lists elements in the order of their first occurrence in the input |
| `Queues.UniqHead` | lib/travis/hub.rb:91 | the first element of a nonempty input is the first element of its uniq |
| `Queues.UniqScan` | lib/travis/hub.rb:91 | Ruby's forward pass with a set of seen elements computes exactly the recursive uniq |
| `Queues.QueueOf` | lib/travis/hub.rb:89 | `queue[:queue]` on one configured entry, `nil` when the entry has no `queue` attribute; no contract of its own, used by `Queues.ConfiguredNames` |
| `Queues.ConfiguredNames` | lib/travis/hub.rb:89 | the configured names are the `queue` attribute of each entry, `nil` where it is missing, one per entry in order |
| `Queues.CandidateNamesContents` | lib/travis/hub.rb:88-89 | before `uniq`, the list starts with 'builds.common', holds every configured entry's queue name, and holds nothing else |
| `Queues.ReportingQueueNames` | lib/travis/hub.rb:88-91 | the reporting names start with 'builds.common', contain every configured entry's queue name, contain nothing else, and have no duplicates |
| `Queues.ReportingQueueOrder` | lib/travis/hub.rb:88-91 | each reporting name keeps the position of its first occurrence among 'builds.common' followed by the configured names |
| `Queues.BuildRequestSubscriptions` | lib/travis/hub.rb:79-85 | one explicit-ack subscription per fixed build-request queue, in the listed order; no contract of its own, its result is stated by `Queues.SubscribeOrder` |
| `Queues.ReportingSubscriptions` | lib/travis/hub.rb:91-94 | one explicit-ack jobs subscription per name, entry for entry and in order |
| `Queues.Subscribe` | lib/travis/hub.rb:71-77 | build-request subscriptions, then reporting, then worker status; no contract of its own, its result is stated by `Queues.SubscribeOrder` and `Queues.SubscribeCovers` |
| `Queues.SubscribeOrder` | lib/travis/hub.rb:71-99 | the subscriptions are builds.requests, builds.configure and reporting.jobs.builds.configure in that order, then exactly one jobs consumer per reporting name in the order of the reporting names ('builds.common' first), then the workers consumer; all with `:ack => true` |
| `Queues.SubscribeCovers` | lib/travis/hub.rb:79-99 | every configured queue name gets a jobs consumer, and no consumer constructor is called twice with the same argument |

## Left out

- lib/travis/hub/runner.rb: process bootstrap, configuration loading, and the periodic timers it registers. None of it is part of the dispatch path.
- `Hub.start`, `setup`, `start_monitoring`, `prune_workers` and `cleanup_jobs` (lib/travis/hub.rb:30-67): process setup, background reporters and periodic threads, all I/O.
- The AMQP consumers: a subscription is recorded as the consumer it names plus the ack flag. The queue names behind `Consumer.jobs(name)` and `Consumer.workers` are not part of this model, so the model keeps the consumer constructor instead.
- JSON parsing inside `MultiJson.decode`: a foreign library. Its result for the message's payload is an input of the model.
- `Handler.for` and `handle`: travis/hub/handler is not part of this model. Each is an input outcome, either returns or raises.
- The timing measured by `Benchmark.realtime` and its `round(4)`: wall-clock time and floating point. The "Completed in" line is the `Exit(Benchmarking)` effect.
- `ActiveRecord::Base.cache`: modelled only as entering, calling the block once, and exiting when the block returns. The `defined?(ActiveRecord)` branch calls the block the same way, so it is not distinguished. The cache restore that happens when the block raises is not an effect.
- Log texts, thread ids, the `puts` of the exception and backtrace, and the decode-error log line: these are logging only. The receipt debug line is kept as one effect, because it carries the preview.
- `notify_error` and the error reporter's queue: reporting is a single effect, and the model assumes it does not raise.
- `message.properties.type`, the debug line, the wrappers' own code outside the block, the `puts` of the exception and backtrace in the rescue clause (hub.rb:114, before its ack), and the decode-error log line inside decode's rescue (hub.rb:142) are assumed not to raise. `Dispatch.ReceiveAcks` (every message is acked) and `Decoding.Decode` (decode never raises a StandardError) rest on this assumption.
- `with` over arbitrary method names via `send`: the model covers the two wrapper methods the hub defines.
- Concurrency between consumers and worker threads: each message is modelled on its own.
- Queues.SubscribeCovers: distinctness is over consumer constructors and their arguments only. Two different consumers may still name the same broker queue, for example the fixed `reporting.jobs.builds.configure` and the jobs consumer for a configured `builds.configure`, because the queue names behind `Consumer.jobs` are not part of this model.
- JSON numbers: `Value.Num` holds integers only, so a decoded float is not representable. Only the truthiness and identity of a decoded value matter to the dispatcher, and every number is truthy.
- The unit of the payload string: `raw` is a sequence of characters. Ruby's `payload.size` and `payload[0..160]` count in the string's encoding, so for a binary body the 160, 161 and 165 of the preview are bytes rather than characters. The preview bounds hold in either unit.
