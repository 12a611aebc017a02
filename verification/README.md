# eventsource-c: a model and its proofs

This project models the Server-Sent Events client of eventsource-c in Dafny and
proves what it is for: that bytes become the right callbacks, that the
reconnecting client keeps its promises over every run, and that the two
transports hand over every byte in order and keep redirects on one origin.

`dafny verify dfyconfig.toml` checks all of it.

## The parts

| file | models |
|---|---|
| `bytes.dfy`, `wrapping_clock.dfy` | bytes, C strings, 32-bit clock differences |
| `lines.dfy` | lines ended by CRLF, LF or CR, and the byte order mark (section 9.2.5 of the WHATWG HTML Standard) |
| `stream_spec.dfy`, `stream_lemmas.dfy` | the line-oriented reading of a stream, with the buffer sizes and every error |
| `sse_parser.dfy` | the byte machine of `src/sse_parser.c`: a class with its fields and its three buffers, each method proved against the line-oriented reading |
| `stream_theorems.dfy`, `stream_limits.dfy` | what that reading guarantees: no silent loss, independent blocks, callbacks within the buffers |
| `messages.dfy` | the bridge from callbacks to messages, and the round trip |
| `wire.dfy` | the stream format spelled in byte values |
| `html_standard.dfy` | section 9.2.6 of the WHATWG HTML Standard over bytes, and exactly when the code agrees with it |
| `backoff.dfy` | the reconnect delay in 64 bits, its jitter and its clamp |
| `run.dfy`, `run_theorems.dfy`, `run_polls.dfy`, `run_delivery.dfy`, `run_decisions.dfy`, `run_backoff.dfy` | runs of the client as sequences of events, the law of the next event, and what every legal run guarantees: its grammar, what its polls do and return, the messages of a connection, what it decides about each attempt, and the delays of a series of failures |
| `sse_client.dfy` | the client of `src/sse_client.c`: a class whose every method keeps its run legal |
| `curl_ring.dfy` | the receive ring of the POSIX port, with libcurl's write side |
| `esp_origin.dfy` | the origin parser and the redirect loop of the ESP-IDF port |

How the surroundings enter the model:

- User callbacks, the policy hook, the transport and the clock are arbitrary. Every
  call out may let any time pass and may see another task request a stop, every
  callback may close the client, every open and read may return anything. What they
  do is fixed by a `World` that no method of the client can choose: when the user
  closes, what the policy answers, what opens and reads come to, and during which
  polls a stop may be requested. Every result holds for every `World`. `clock` is
  the real time; the program sees it modulo 2^32.
- The parser's callbacks do not read or write the parser, so the client first feeds
  a chunk and then bridges the callbacks it caused, in their order. A user that
  closes the client in the middle stops the rest, as the source's state checks do.
- A callback that the user leaves null is one that does nothing.
- Ghost state is only what a reader needs to say what the fields stand for: the
  bytes fed and the current block of the parser, and the run of the client. `log`,
  `sent`, `accepted`, `handed`, `requested` and `answers` are records kept by the
  surroundings.

Where the code departs from an obvious reading, the model follows the code:

- An invalid id line takes back an earlier valid id of its block
  (`src/sse_parser.c:146-148`), where the standard ignores only that line.
  `HtmlStandard.IdTakenBack` gives a block on which the two differ,
  `HtmlStandard.IdTakenBackWithoutData` one that spoils the next, and
  `HtmlStandard.ConformsExactly` says for which streams they agree.
- An unfinished line can already have caused an error; `StreamSpec.PartialOut` says
  which. It never causes anything else (`StreamTheorems.CompletedNonErrors`).
- A hint of UINT32_MAX is documented to mean that the client is closed. With
  `read_timeout_ms` equal to UINT32_MAX the timeout path returns that value while it
  is not (`src/sse_client.c:305-311`). `RunPolls.HintMeansClosedExactly` rests on such
  a run, and `RunPolls.ClosedHint` says for which polls it happens.
- The hint is documented as the longest sleep. The poll in which an idle timeout fails
  the connection returns the read timeout, which can exceed the delay of the retry it
  has just announced; `RunPolls.AnnouncingHint` says exactly when.
- The policy hook and the failure report run with the transport already closed while
  the state is still open or connecting; the state and the transport agree between
  polls (`RunTheorems.OpensAndShutsPair`).
- The cap of the backoff applies before jitter is added (`Backoff.Announced`).
- After a reconnect the client keeps the last id it stored, and the conformance
  results read each connection with that id; the standard starts each stream with
  an empty one. `HtmlStandard.FreshReadExactly` says when that makes a difference.
- The failure counter wraps at 2^32, and the delay then starts over from the base
  (`RunBackoff.DelayDropsAtWrap`); `RunBackoff.DelaysGrowExactly` says when a delay
  is shorter than one before it.
- The redirect loop compares origins on copies of at most 511 bytes, so a Location
  whose host name is cut there passes for another origin
  (`EspOrigin.CutHostIsFollowed`).

Integer widths: the delay is computed in a 64-bit type whose bounds Dafny checks,
counters and deadlines wrap at 32 bits where the source's do, the retry accumulator
saturates by the source's own test, and buffer lengths are unbounded naturals, which
array bounds keep within their buffers. Proofs use `hide` for definitions they do
not need.

## Model

| member | source | states |
|---|---|---|
| Parser.SseParser.Feed | src/sse_parser.c:279-284 | Refinement: after any number of calls with any chunks, the callbacks so far are exactly, and in order, those of the line-oriented reading of all bytes since the reset, errors of an unfinished line included. |
| Parser.SseParser.ProcessByte | src/sse_parser.c:205-237 | A byte continues the body of the stream; a byte order mark is dropped wherever the chunks cut it, and a prefix that turns out not to be one is replayed as ordinary bytes; the replay terminates. |
| Parser.SseParser.LineByte | src/sse_parser.c:229-237 | A terminator ends the line and its callbacks become those of one more complete line; any other byte extends the unfinished line. |
| Parser.SseParser.ContentByte | src/sse_parser.c:239-268 | Whatever the state, a byte that ends no line leads to the state, buffers and errors that the longer unfinished line calls for. |
| Parser.SseParser.NameByte | src/sse_parser.c:245-258 | A name is collected up to six bytes, resolved at the colon, and reported unknown exactly once as soon as it is longer than any known name. |
| Parser.SseParser.PaddedByte | src/sse_parser.c:259-265 | One space after the colon is not part of the value; every other byte is. |
| Parser.SseParser.LineEnd | src/sse_parser.c:183-201 | At a terminator the block and the callbacks become what the whole line, read at once, makes of them. |
| Parser.SseParser.FinishLine | src/sse_parser.c:183-199 | The same for the effect of the line, from each of the machine's states. |
| Parser.SseParser.ResolveFieldName | src/sse_parser.c:166-181 | A known name starts an empty value of its field on top of the unchanged block; any other is reported and skipped. |
| Parser.SseParser.StartValue | src/sse_parser.c:47-64 | Starting a value leaves everything else the block has collected intact. |
| Parser.SseParser.ValueByte | src/sse_parser.c:76-128 | The buffers hold the value seen so far whenever it still fits, and the error for a value that no longer fits has been emitted exactly once. |
| Parser.SseParser.DataByte | src/sse_parser.c:78-85 | Data bytes accumulate within the buffer; the first that does not fit discards the block with one error. |
| Parser.SseParser.EventByte | src/sse_parser.c:86-102 | A type with a NUL or without room discards the block, with the cause that comes first in the value. |
| Parser.SseParser.IdByte | src/sse_parser.c:103-111 | An id with a NUL or without room is reported once and its remaining bytes are ignored. |
| Parser.SseParser.RetryByte | src/sse_parser.c:112-124 | The accumulator is min(decimal value, 2^32 - 1) of the digits so far, however many there are, until a non-digit. |
| Parser.SseParser.CommitValue | src/sse_parser.c:130-164 | At the end of a line the block and the callbacks are those of the complete field value. |
| Parser.SseParser.CommitData | src/sse_parser.c:132-141 | The separator LF joins the value if there is room for it; otherwise the block is discarded. |
| Parser.SseParser.DispatchBlock | src/sse_parser.c:11-45 | A blank line causes the id, then the event with the joined payload, and leaves an empty block. |
| Parser.SseParser.EventPointer | src/sse_parser.c:27-32 | The type a C reader sees in the buffer is the whole type, or null when it is empty. |
| Parser.SseParser.DiscardBlock | src/sse_parser.c:69-74 | The first cause is reported and no later one. |
| Parser.SseParser.Reset | src/sse_parser.c:286-290 | From any state the parser is as for a new stream, with nothing of the old one left but the record of its callbacks. |
| Parser.SseParser.LogIsTrace | src/sse_parser.c:205-284 | In every reachable state the record is that of the line-oriented reading of the bytes fed. |
| StreamLemmas.SaturatedSnoc | src/sse_parser.c:119-123 | The division test clamps exactly when one more digit would pass 2^32 - 1. |
| StreamLemmas.EventCauseSnoc | src/sse_parser.c:86-100 | The reported cause of a bad type never changes as more of it arrives. |
| Lines.SplitOfRender | src/sse_parser.c:205-237 | Writing lines with any terminators that do not merge, then splitting, gives the lines back. |
| Lines.RenderOfSplit | src/sse_parser.c:205-237 | Splitting then writing gives the stream back: no byte is lost or moved. |
| Lines.SplitSnoc | src/sse_parser.c:206-237 | What one more byte does to the lines, with the LF of a CRLF swallowed. |
| StreamTheorems.CompleteTrace | src/sse_parser.c:183-237 | For a stream that ends in a terminator the callbacks are those of its complete lines. |
| StreamTheorems.CompletedNonErrors | src/sse_parser.c:183-269 | For any stream the callbacks other than errors are those of its complete lines. |
| StreamTheorems.TraceGrows | src/sse_parser.c:279-284 | More bytes only add callbacks. |
| StreamTheorems.Resync | src/sse_parser.c:37-45 | After any block boundary later callbacks depend on nothing before it but a pending LF to swallow. |
| StreamTheorems.NoSilentLoss | src/sse_parser.c:11-45 | A block with data is delivered or reported as discarded, exactly one of the two and once, with the first cause; delivered exactly when its joined payload is shorter than the data buffer and its types fit; its last id and all its retry fields take effect either way. |
| StreamTheorems.FirstCauseIs | src/sse_parser.c:69-102 | The cause reported is that of the one line with which the block stops fitting. |
| StreamTheorems.CollectBlock | src/sse_parser.c:69-164 | What the lines of a block leave behind and cause, in terms of its values field by field; of the discard errors only the first cause. |
| StreamLimits.TraceWellFormed | src/sse_parser.c:16-35 | Every id reported fits its buffer and has no NUL, CR or LF, every payload is shorter than the data buffer, and every retry time fits 32 bits. |
| Wire.DataStream | src/sse_parser.c:166-201 | The bytes of `data: v`, a line ending and a blank line, for every v that fits and all endings that do not merge: one event without a type and with payload v. |
| Wire.UnpaddedStream | src/sse_parser.c:259-265 | The same without the space after the colon. |
| Wire.TwoDataStream | src/sse_parser.c:132-141 | Two such lines: one event, their values joined by byte 10. |
| Wire.LargeDataStream | src/sse_parser.c:78-85 | A value without room: one error and no event. |
| Wire.TypeStream | src/sse_parser.c:166-181 | The bytes of `event: t` before it give the event that type. |
| Wire.BadTypeStream | src/sse_parser.c:86-102 | A type with a NUL or without room: one error with the first cause, and no event. |
| Wire.IdStream | src/sse_parser.c:16-35 | The bytes of `id: d` before it are reported first, and again with the event. |
| Wire.BadIdStream | src/sse_parser.c:103-111 | An id with a NUL or without room: one error, and the event without it. |
| Wire.RetryStream | src/sse_parser.c:112-124 | The bytes of `retry: r` give the number, at most 4294967295, if r is one or more digits, and else exactly one error. |
| Wire.UnknownStream | src/sse_parser.c:166-181 | A line whose name is none of the four spellings is one error. |
| Wire.CommentStream | src/sse_parser.c:239-245 | A line that starts with byte 58 is nothing. |
| Wire.LongNameStream | src/sse_parser.c:245-258 | A name without an end is reported unknown with its sixth byte, not before and not again. |
| Wire.MarkStream | src/sse_parser.c:205-237 | The bytes 239, 187, 191 at the start are not part of the stream. |
| Wire.UntypedMessage | src/sse_client.c:43-54 | An event without a type reaches the user as `message`. |
| Messages.RoundTrip | src/sse_parser.c:130-284 | Any list of events that fit, written with any terminators that do not merge, with or without a byte order mark, is delivered as exactly that list, ids carried over. |
| Messages.RunEvent | src/sse_parser.c:11-164 | One event's lines cause its id and its event and leave an empty block. |
| Messages.RetryRoundTrip | src/sse_parser.c:153-159 | A retry line written for any number is reported as that number, cut off at 2^32 - 1. |
| HtmlStandard.ResumedConformsExactly | src/sse_client.c:28-54 | For every stream, every id that the code goes on with and every id that the standard starts with, the empty one of a new stream included: the messages delivered are those section 9.2.6 dispatches if and only if at each blank line of a block with data everything fits and both have arrived at the same id. |
| HtmlStandard.ConformsExactly | src/sse_client.c:28-54 | For every stream and every last event id, the messages delivered are those section 9.2.6 dispatches if and only if at each blank line of a block with data everything fits and the id committed is the last one without a NUL. |
| HtmlStandard.ConformsWhateverId | src/sse_client.c:28-54 | They agree for every last event id at once if and only if the same holds with that id left open. |
| HtmlStandard.Conformance | src/sse_client.c:28-54 | When every field fits, no event type holds a NUL and no invalid id follows a valid one in its block, the messages delivered on a connection are those section 9.2.6 dispatches, ids persisting between blocks. |
| HtmlStandard.BlockConformsExactly | src/sse_parser.c:130-152 | A block has the effect that the standard says, on the messages and on the last event id it leaves behind, whatever the id was before, if and only if its last id line is valid or none is, and, if it has data, all its fields fit. |
| HtmlStandard.IdTakenBack | src/sse_parser.c:145-151 | A concrete block that the code delivers with an older id than the standard. |
| HtmlStandard.IdTakenBackWithoutData | src/sse_parser.c:145-151 | A concrete block without data that makes the next block differ from the standard. |
| HtmlStandard.FreshReadExactly | src/sse_client.c:109-118 | In the standard itself, reading a stream on with the last id instead of an empty one makes a difference exactly when there is such an id and an event comes before the first id of the stream. |
| Backoff.Delay | src/sse_client.c:167-187 | No 64-bit step overflows for any 32-bit Retry-After, base and cap and 8-bit jitter; the delay is the nominal one plus that percentage of it which the random number gives, at most the jitter, and clamped to 2147483647. |
| Backoff.NominalDoubles | src/sse_client.c:175-179 | Without Retry-After the first delay is the base, each of the next fifteen is twice the one before, cut off at the cap, and then it stays; without a cap it is the base. |
| Backoff.RetryAfterDelay | src/sse_client.c:173-174 | A Retry-After fixes the delay: seconds times 1000. |
| Backoff.BackoffGrowsExactly | src/sse_client.c:175-179 | Without Retry-After the clamped delay after n failures is not shorter than after m if and only if it is doubled no less often, or doubling has no more effect. |
| Backoff.WithoutJitter | src/sse_client.c:180-187 | Without jitter the announced delay is the nominal one, clamped. |
| Backoff.XorShiftNeverZero | src/sse_client.c:75-82 | The generator never reaches zero from a nonzero state. |
| Backoff.XorShiftValues | src/sse_client.c:75-82 | Two values that the three shifts give. |
| Client.SseClient.NextDelay | src/sse_client.c:167-182 | The delay uses the next random number, and none without jitter. |
| WrappingClock.DeadlineReads | src/sse_client.c:278-283 | The signed 32-bit difference is exact up to 2^31 - 1 ms before a deadline, and not positive exactly in the first 2^31 ms of every turn of the clock after it. |
| WrappingClock.ElapsedReads | src/sse_client.c:306-307 | An elapsed time as the program computes it is the real one without whole turns of the clock. |
| Client.Init | src/sse_client.c:232-263 | A client comes into being exactly for configurations whose sizes are accepted, idle, with an empty run and with the defaults 3000 and 500 for a zero retry and read timeout. |
| Client.SseClient.Poll | src/sse_client.c:265-318 | The run grows by exactly one whole poll and stays legal, which fixes what that does: it opens or reads at most once, hands every byte read to the parser before it ends, may stay open after silence only within the idle timeout, fails only for the reason that the response or the read gives, and returns the hint that the law of its end prescribes. It leaves the idle and connecting states, closes after a stop request, and while waiting returns exactly the time left and goes on to connect exactly when that is 0, which the next poll does. |
| Client.SseClient.PollWaiting | src/sse_client.c:277-284 | The hint is the exact remaining time before the deadline and after it what the wrapped clock makes of it; the client goes on to connect exactly when the hint is 0. |
| Client.SseClient.PollOpen | src/sse_client.c:285-315 | One read, with every outcome, keeps the run legal and leaves what a poll owes at its end: all bytes parsed, the exact hint; nothing read while a stop was requested is parsed. |
| Client.SseClient.Silence | src/sse_client.c:305-311 | A read timeout fails the connection only when the silence has lasted the idle timeout on the real clock, and always within one turn of the 32-bit clock, and returns the read timeout while the client is not closed. |
| Client.SseClient.Took | src/sse_client.c:296-304 | A count beyond the buffer is a transport failure; any other is parsed completely. |
| Client.SseClient.IsIdle | src/sse_client.c:306-307 | Silence counts exactly when the real elapsed time, without whole turns of the 32-bit clock, reaches the timeout; so never early. |
| Client.SseClient.Consume | src/sse_client.c:299-303 | The bytes read go to the parser, and the callbacks they cause to the user, in order and all of them; or, when the client is closed in the middle, the first of them and no others. |
| Client.SseClient.DoConnect | src/sse_client.c:195-228 | A connection attempt ends open, waiting or closed, with the headers of the law sent. |
| Client.SseClient.Answered | src/sse_client.c:209-227 | Each kind of response leads to the reason the law prescribes, or to an open connection with a reset parser. |
| Client.SseClient.BuildHeaders | src/sse_client.c:109-125 | The array holds the two fixed headers, the last id when there is one, and the extras, never past its end; the id is not truncated. |
| Client.CtIsEventStream | src/sse_client.c:98-107 | Decides the content type as text/event-stream in any case, alone or before a separator. |
| Client.SseClient.FailConn | src/sse_client.c:144-193 | A failure ends waiting or closed, and closed whenever the user closed, whatever the policy answered. |
| Client.SseClient.Decide | src/sse_client.c:151-160 | The decision is the policy's answer about this failure, or the default, which `RunDecisions.RetryDecided` spells out. |
| Client.SseClient.Schedule | src/sse_client.c:167-192 | The announced delay obeys the backoff law for the failures since the last event, and the deadline lies that far ahead on the real clock. |
| Client.SseClient.ToClosed | src/sse_client.c:91-96 | From any point the client ends closed, with the transport closed and on_closed called once, and everything read, parsed and delivered as it was. |
| Client.SseClient.CloseTransport | src/sse_client.c:84-89 | Closes exactly when open. |
| Client.SseClient.Dispatch | src/sse_client.c:28-71 | The parser's callbacks are bridged in order, all of them unless the client is closed, and then exactly a beginning of them; nothing that was read or delivered changes by closing. |
| Client.SseClient.BridgeOnEvent | src/sse_client.c:43-54 | A dispatched event reaches the user with the stored id as a C string, and resets the failure counter. |
| Client.SseClient.Tell | src/sse_client.c:43-71 | The user is told what the parser callback obliges the client to, and may close: then nothing read, parsed or delivered changes. |
| Client.SseClient.BridgeOnId | src/sse_client.c:28-35 | The stored id becomes the committed one while open, and only then. |
| Client.SseClient.BridgeOnRetry | src/sse_client.c:37-41 | The base retry time becomes the committed one while open, and only then. |
| Client.SseClient.BridgeOnError | src/sse_client.c:56-71 | Discarded blocks, and nothing else, reach the user as informational errors. |
| Client.SseClient.Close | src/sse_client.c:320-320 | Closes from any point, in callbacks too. |
| Client.SseClient.RequestStop | src/sse_client.c:322-322 | Sets the flag and nothing else. |
| Client.Drive | src/sse_client.c:265-322 | Every sequence of calls on a client keeps its run legal and only extends it. |
| RunTheorems.ClosedIsFinal | src/sse_client.c:91-96 | on_closed comes once, and nothing is opened, read, reported or closed after it. |
| RunTheorems.CloseIsObeyed | src/sse_client.c:151-160 | After a close, from a callback or the policy hook too, nothing more is opened, read or reported, even if the policy then returns true. |
| RunTheorems.StopIsObeyed | src/sse_client.c:266-291 | After a stop request no later poll opens, reads or reports, and bytes of a read that ends later are never parsed. |
| RunTheorems.CloseIsAnswered | src/sse_client.c:91-96 | A close, wherever it is called, is answered by on_closed before the poll under way, or else the next one, ends. |
| RunTheorems.StopIsAnswered | src/sse_client.c:266-291 | So is a stop requested before a poll began or its read returned. |
| RunTheorems.ReportsBelongToConnection | src/sse_client.c:43-71 | Messages and informational errors come only between on_open and that connection's end. |
| RunDelivery.DeliveryIsFaithful | src/sse_client.c:285-304 | At every moment of a connection, also after it failed or was closed from a callback in the middle of a chunk, its messages and its informational errors are a beginning of those of its bytes read line by line, with the id remembered from the connections before; what is parsed is a beginning of what was read. |
| RunDelivery.DeliveryIsComplete | src/sse_client.c:285-315 | When a poll ends with the connection open, or its failure is reported, all bytes read have been parsed, all their messages delivered and all blocks that were given up reported, in order; the messages are what the standard dispatches, starting with any last event id, if and only if the lines conform from there. |
| RunTheorems.OneStepPerPoll | src/sse_client.c:265-318 | The client opens, reads, parses and reports only inside a poll; polls do not overlap; one poll opens or reads at most once. |
| RunPolls.HintExactly | src/sse_client.c:265-318 | The hint of every poll of every run: UINT32_MAX once closed, the read timeout after a read that timed out, even if that failed the connection, 0 after any other open or read, and else the time left to the announced retry. |
| RunPolls.ClosedHint | src/sse_client.c:265-318 | A poll returns UINT32_MAX exactly when on_closed has been called, or when its read timed out and that is the read timeout. |
| RunPolls.HintMeansClosedExactly | src/sse_client.c:305-318 | UINT32_MAX means closed, in every run, if and only if the read timeout is smaller; otherwise there is a legal run in which it does not. |
| RunPolls.WaitingHint | src/sse_client.c:277-284 | A poll that begins after a retry was announced, and neither opens nor closes, returns the announced moment minus its own time, on the real clock, and 0 from then on in the first 2^31 ms of every turn of the 32-bit clock. |
| RunPolls.AnnouncingHint | src/sse_client.c:305-318 | The poll that announces a retry returns 0, but the read timeout after an idle timeout; its hint exceeds the time left exactly when the reason is an idle timeout and the read timeout is longer than that. |
| RunPolls.NextPollConnects | src/sse_client.c:273-284 | After a poll that only waited and returned 0, the next one opens or closes. |
| RunPolls.RetryHappens | src/sse_client.c:183-284 | A retry that was announced happens unless the client closes: once a poll has ended within 2^31 ms of the announced moment and one more has ended, there was an open. |
| RunPolls.PollWorks | src/sse_client.c:265-318 | Progress: a poll of a client that has not been stopped or closed, and is not waiting for an announced retry, opens or reads. |
| RunTheorems.OpensAndShutsPair | src/sse_client.c:84-89 | Each successful open is closed exactly once before the next open, any failure report and on_closed; a failed open never; between polls the transport is open exactly when the client receives. |
| RunTheorems.NoEarlyReconnect | src/sse_client.c:183-191 | No open comes before the announced delay is over, on the real clock. |
| RunTheorems.DelayLaw | src/sse_client.c:167-192 | Every announced delay obeys the backoff law for the last retry time received, the failures since the last event and the Retry-After of the last response, all as the run itself shows. |
| RunBackoff.DelaysGrowExactly | src/sse_client.c:167-192 | Over a series of failures without jitter, Retry-After, events or retry fields, a later delay is not shorter if and only if the counter, modulo 2^32, doubles it no less often, or doubling has no more effect. |
| RunBackoff.DelaysGrow | src/sse_client.c:167-192 | So the delays of a series never decrease within 2^32 failures. |
| RunBackoff.FirstDelay | src/sse_client.c:167-187 | The delay announced after the first failure is the base, cut off at the cap and at 2147483647. |
| RunBackoff.NextDelayDoubles | src/sse_client.c:167-187 | The next one of a series is twice the one before, cut off at the cap and at 2147483647, fifteen times, and then the same until the counter wraps. |
| RunBackoff.NextDelayDropsExactly | src/sse_client.c:175-187 | The next delay is shorter exactly when the counter wraps, there is a cap and the base is positive and below the cap and the clamp. |
| RunBackoff.DelayDropsAtWrap | src/sse_client.c:175-187 | A legal run in which the delay falls from 30 s to 1 s: 2^32 failures in a row. |
| RunTheorems.ReconnectCount | src/sse_client.c:225-227 | on_open reports the retries since the last event, modulo 4294967296. |
| RunTheorems.ResumeHeaders | src/sse_client.c:109-125 | Every open sends the last id committed on any earlier connection, untruncated and free of line breaks, exactly when it is not empty; at most 16 headers. |
| RunTheorems.FactsRemember | src/sse_client.c:28-46 | The stored id, the base retry time and the failure counter are what the run's own events say. |
| RunTheorems.PolicyDecides | src/sse_client.c:151-165 | With a policy hook its answer about this failure, given the default, is final; without one the default is, from the reason, the status and the Retry-After of the last response. |
| RunDecisions.RetryDecided | src/sse_client.c:126-142 | Without a policy hook a failure is retried exactly unless it follows a 204, or a status other than 200 that is below 500, not 429 and came without Retry-After; with one, the hook is told this. |
| RunDecisions.FailureReason | src/sse_client.c:195-228 | Each failure is reported with the reason and the status of what the run shows: a read that timed out or ended, no response, 204, another status, or a content type that is not accepted. |
| RunDecisions.ServerStopCloses | src/sse_client.c:211-213 | After a 204, without a policy hook, on_closed comes before the poll ends, before any further open and before any retry is announced. |
| RunDecisions.EveryOpenAnswered | src/sse_client.c:195-228 | Before its poll ends every open has led to on_open, if the response is acceptable, and else to a failure that the policy or the user has heard of. |
| RunDecisions.OpenIsAccepted | src/sse_client.c:209-227 | on_open comes only after a 200 with an accepted content type. |
| RunDecisions.ContentTypeSpelled | src/sse_client.c:98-107 | The accepted content type, byte by byte, in letters of either case and before a NUL, a semicolon or a space. |
| RunDecisions.SentBytes | src/sse_client.c:109-125 | The headers of every open, byte by byte; at most 16, with an id of at most 128 bytes. |
| RunDecisions.ClosedForACause | src/sse_client.c:91-96 | on_closed never comes without a close by the user, a stop request or a failure that is not retried before it. |
| RunDecisions.ClosingIsTheUsers | src/sse_client.c:320-320 | A close comes from inside a user callback, where the user wants it, or from between two polls. |
| RunTheorems.IdleTimeoutNotEarly | src/sse_client.c:305-308 | An idle timeout is reported only after bytes have really been missing for that long. |
| RunPolls.SilenceIsNoticed | src/sse_client.c:305-311 | After a read that timed out the connection is still open only if bytes came within the idle timeout, on a 32-bit clock. |
| CurlRing.Transfer.OnBody | ports/posix/sse_transport_curl.c:33-53 | A delivery goes into the queue whole and in order across the wraparound, or pauses the transfer and changes nothing; bodies of redirects go nowhere. |
| CurlRing.Transfer.Read | ports/posix/sse_transport_curl.c:265-290 | What comes out continues what came out before, as much as is there and fits; an end is reported only when everything libcurl brought has been handed out, and always once a finished transfer is drained; a timeout never while the transfer is paused. |
| CurlRing.Transfer.TakeOut | ports/posix/sse_transport_curl.c:279-284 | The oldest bytes leave the queue in order. |
| CurlRing.Transfer.Unpause | ports/posix/sse_transport_curl.c:97-100 | A transfer paused again after going on has accepted the chunk it had refused. |
| CurlRing.Transfer.Pump | ports/posix/sse_transport_curl.c:95-112 | libcurl's work loses nothing and leaves a paused transfer with at least half the ring to read. |
| CurlRing.Transfer.ReadUntilResumed | ports/posix/sse_transport_curl.c:265-290 | No deadlock: after finitely many reads the transfer goes on or has accepted more. |
| CurlRing.Transfer.FirstInFirstOut | ports/posix/sse_transport_curl.c:33-53 | What has come out is a beginning of what went in, which is a beginning of what was sent. |
| CurlRing.QueueDropped | ports/posix/sse_transport_curl.c:283-284 | Moving the head drops exactly the first bytes of the queue. |
| EspOrigin.OriginOf | ports/esp-idf/sse_transport_esp.c:29-92 | The pointer walk accepts exactly the URLs that have an origin, and fills the buffers with it as C strings. |
| EspOrigin.WalkAuthority | ports/esp-idf/sse_transport_esp.c:42-49 | The loop finds the end of the authority and the host after its last `@`. |
| EspOrigin.ParsePort | ports/esp-idf/sse_transport_esp.c:75-83 | A port is accepted exactly when it is a nonempty digit string of value at most 65535, though the loop gives up early. |
| EspOrigin.SameOriginUrls | ports/esp-idf/sse_transport_esp.c:94-100 | Two URLs compare equal exactly when both have an origin and it is the same. |
| EspOrigin.OriginRoundTrip | ports/esp-idf/sse_transport_esp.c:29-92 | A URL written for a scheme, user information, a host or IPv6 literal, a port and any suffix parses back to the lower-case origin, with default ports where none is written. |
| EspOrigin.OriginSpelled | ports/esp-idf/sse_transport_esp.c:29-92 | The same for a URL spelled in byte values, with schemes of up to 7 letters, hosts of up to 255 bytes, ports up to 65535 and the defaults 80 and 443. |
| EspOrigin.DefaultPortsAgree | ports/esp-idf/sse_transport_esp.c:84-88 | An explicit default port is the same origin as none, whatever the case, user information and path. |
| EspOrigin.Handle.Open | ports/esp-idf/sse_transport_esp.c:132-206 | At most six requests; a redirect is followed exactly when it may be: every answer but the last was a redirect that keeps the origin its buffer shows, and the last was none, or the five hops are used up, or the HTTP client refused; the URL kept for comparison never changes its origin; every request goes to the origin of the first if and only if every followed Location is of that origin, and, when the buffer shows the first URL truly, if and only if it shows every followed Location truly; every followed Location starts with one slash, and keeps the origin, or shows the origin shown first. |
| EspOrigin.Handle.Hop | ports/esp-idf/sse_transport_esp.c:167-200 | One request, after which the chain of followed redirects is one longer or the open is at its end. |
| EspOrigin.PathKeepsOrigin | ports/esp-idf/sse_transport_esp.c:180-188 | A Location that the code takes for a path resolves to a URL of the origin that it came from. |
| EspOrigin.AllSpelled | ports/esp-idf/sse_transport_esp.c:176-195 | In numbers and bytes: only 301, 302, 303, 307 and 308 lead on, only to a Location of one slash and not two, resolved where it came from, or to one whose buffer shows the origin shown first. |
| EspOrigin.NotFollowedSpelled | ports/esp-idf/sse_transport_esp.c:187-194 | And a Location that is not followed is neither a path nor an http or https URL of the same origin. |
| EspOrigin.ChainKeepsOrigin | ports/esp-idf/sse_transport_esp.c:187-195 | No chain of redirects that may be followed leaves the origin of the first URL. |
| EspOrigin.RequestsStayExactly | ports/esp-idf/sse_transport_esp.c:166-200 | For every chain of redirects: all requests stay on the first origin if and only if every followed Location is of it; if the first URL's first 511 bytes show its origin, exactly when those of every Location do, and if they do not, only when those of none do. |
| EspOrigin.ShownOriginIsTrue | ports/esp-idf/sse_transport_esp.c:104-109 | A URL whose authority ends within the buffer, or that fits, keeps its origin in the buffer. |
| EspOrigin.ShownIsHonest | ports/esp-idf/sse_transport_esp.c:187-195 | So a chain whose Locations are paths, fit the buffer or end their authority in it keeps every request on the first origin. |
| EspOrigin.CutHostIsNotHonest | ports/esp-idf/sse_transport_esp.c:104-109 | Conversely a URL whose host name the buffer cuts in two, for every scheme, user information, port and suffix, is of another origin than the buffer shows. |
| EspOrigin.CutHostIsFollowed | ports/esp-idf/sse_transport_esp.c:187-195 | Such a Location passes the comparison with any URL of the origin shown, and the request then goes to another one. |
| EspOrigin.Handle.Follow | ports/esp-idf/sse_transport_esp.c:187-195 | A path, or a URL of the same origin, is followed unless the HTTP client refuses; anything else is not, and changes nothing. |

## Left out

- EspOrigin.Handle.Open: an HTTP client that cannot even be created is left out, which is a failed open without a request.
- EspOrigin.CutHostIsNotHonest: covers a cut inside the host; a cut inside user information or a port number can leave the origin as it was or not, and then only the comparison of `EspOrigin.RequestsStayExactly` decides.
- EspOrigin.Handle.SetRedirection: a Location is resolved by its leading slashes, as section 5.2 of RFC 3986 has it, without merging dots in paths; esp_http_client, which does it, is not part of this model.
- CurlRing.Transfer.ReadUntilResumed: that libcurl eventually delivers again is up to libcurl, which is not part of this model.
- Client.Init: null pointers in the configuration cannot be expressed and their checks are not modelled; the extra headers are the lines before the terminating null, and do not change.
- libcurl, esp_http_client, sockets, TLS, header lists and the header callback of the curl port, with the parsing of Retry-After: a response has any status, content type and 32-bit Retry-After.
- The open function of the curl port, whose redirects compare origins with libcurl's own URL parser.
- The memory model of the stop flag: it is a flag that the surroundings may set whenever the client calls out.
- UTF-8: everything is bytes, as in the code.
- The read function of the ESP-IDF port, the FreeRTOS task, clocks, examples and build files: plumbing without rules of its own.
