# Verified models of the proxy's protocols

This directory models the self-contained protocols of the WindsurfAPI Go proxy and proves what
they promise: the streaming text transducers between the language server and the API clients, the
wire codecs, the process pool, the disk-backed cache, the account scheduler, the save-writer, the
poll loop, the conversation pool, the login lockout and the request statistics. `dafny verify dfyconfig.toml` checks
everything.

## How the models are laid out

- **Values and functions** stand for code that computes: grammars, codecs, parsers, rankings.
- **Classes** stand for code that updates fields: `StreamParser`, `Stream`, `Pipeline`, both
  `Translator`s, `Cache`, `Account` and the pools, `Poller`, `Guard`. Each method is proved to do
  what a specification function says, and the laws are proved about those functions.
- **Transition systems** stand for goroutines: every locked section, channel operation, process
  action and file-system effect is one step, and invariants are proved for every step and run.

| files | part of the repository |
|---|---|
| `ToolStream`, `ToolBlocks`, `ToolBody`, `ToolRepair`, `ToolNormalize` | `internal/toolemu` |
| `SanitizeText`, `SanitizeSplit`, `SanitizeBlocks`, `SanitizeClean`, `SanitizeGaps`, `SanitizeStream`, `SanitizeExact`, `SanitizeBytes`, `SanitizeLimits` | `internal/sanitize` |
| `ChatWrites`, `ChatStream`, `ChatToClients`, `ChatToResponses`, `ChatDelivery` | `internal/server/chat.go`, and the way from there to both clients |
| `SseFrames`, `Upstream`, `AnthropicEvents`, `AnthropicTranslator`, `ResponsesEvents`, `ResponsesGrammar`, `ResponsesTranslator` | `internal/server/messages.go`, `internal/server/responses.go` |
| `Varint`, `ProtoFields`, `Trajectory`, `TrajectorySteps`, `StepWire`, `GrpcFrames` | `internal/pbenc`, `internal/windsurf`, `internal/grpcx` |
| `PollRules`, `PollTurns`, `CascadePoll` | `internal/client` |
| `LangServerPool` | `internal/langserver` |
| `ResponseCache` | `internal/cache` |
| `RateWindow`, `AccountRules`, `AccountPool` | `internal/auth` |
| `SaveWriter` | `internal/proxycfg`, `internal/modelaccess`, `internal/runtimecfg`, `internal/atomicfile` |
| `ConvPool` | `internal/convpool` |
| `Lockout` | `internal/dashapi` |
| `Stats` | `internal/stats` |
| `GoStrings`, `Json`, `Options` | shared: Go's `strings`, the JSON codec as a parameter, `Option` |

## Assumptions

- A Go string is a sequence of bytes, modelled as one character per byte. `TrimSpace` knows the
  ASCII white space only.
- The JSON codec is a parameter. `Json.Lawful` lists all that is used of it: decoding inverts
  encoding, the encoder emits neither `<` nor a NUL byte, a document's first character fixes its
  kind, a nested value is written as it would be alone. Numbers are float64 values, numbered. Strings are taken to be valid UTF-8 (Go
  replaces invalid bytes). The chunk codec of `ChatToClients` and the entry codec of
  `ResponseCache` are parameters of the same kind.
- SHA-256 is a function; that it tells inputs apart is a hypothesis of the one lemma that needs it.
- Ids drawn from `crypto/rand` are numbered in the order they are drawn.
- Clock readings do not go back in lock order. In `internal/auth/pool.go:647` and `:712` and in
  `internal/dashapi/dashapi.go:154` the clock is read before the lock is taken, so this is an
  assumption about the scheduler there.
- A gRPC response is shorter than 2^32 bytes; `Unary` reads at most 64 MB.

## Findings

Where the code does not meet a promise for all inputs, the models say exactly when it does:

- Streamed redaction (`internal/sanitize/sanitize.go:63-132`) equals one-shot redaction for every
  chunking of a text if and only if the second pattern (`:26`) matches only where one of the five
  literals (`:37-43`) begins or still runs, and the text has no closed block (`:32-34`):
  `SanitizeBytes.StreamingIsExact`, with `OnlyLiterals` as the condition. The failing families are
  `SanitizeLimits.DriveLetterIsCutOff`, `MixedSeparatorsAreCutOff` and `BlockIsCutOff`.
- The blocks are removed after the paths are redacted (`internal/sanitize/sanitize.go:46-55`), so removing one can
  put two halves of a path together: the result shows a path if and only if such halves meet
  (`SanitizeGaps.PathsComeFromHalves`), as in `SanitizeGaps.HalvesAreJoined`. Without a closed block no path is left
  (`SanitizeClean.TextIsClean`).
- The Anthropic stream (`internal/server/messages.go:568-588`) is well formed if and only if the
  arguments of each tool call arrive while its block is open: `AnthropicEvents.WellFormedIffInOrder`.
  `emitTool` sends each call whole and so always meets this: `AnthropicEvents.WholeCallsAreInOrder`.
- The Responses translator keeps one message item and one text for the whole response, and an opened
  call does not take up its output index (`internal/server/responses.go:520-621`). If prose resumes
  behind a call, which the comment at `:592-595` rules out, the message item that was done is added
  again, under the call's index, and its done events repeat the earlier prose:
  `ResponsesGrammar.ResumedTextIsRepeated`. `ResponsesGrammar.AcceptedIff` says exactly which upstreams
  lead to streams that a client accepts, by the rules the code keeps and by stricter ones;
  `ChatToResponses.ResponsesClientReceives` says it of what the chat handler writes.
- Text before the first chunk, which only the error path sends (`internal/server/responses.go:520-533`),
  is not accepted: `ResponsesGrammar.UnheadedIsUnread`.
- Arguments that arrive before a call's id and name (`internal/server/responses.go:612`) are dropped. All of
  a call's arguments arrive if and only if none is early: `ResponsesEvents.AllArgumentsArriveIff`, with a
  failing input in `EarlyArgumentsAreLost`.
- A call is written as soon as it is parsed (`internal/server/chat.go:981-995`), past prose that the redactor
  still holds. The content in front of it is the prose so far if and only if nothing is held, which is if and
  only if no literal begins or still runs at its end: `ChatStream.StreamChat`,
  `SanitizeStream.NothingHeldIff`; a prose that ends in a separator (`SlashIsHeld`) is overtaken.
- A language server that dies before it is registered (`internal/langserver/pool.go:484-531`) leaves an entry
  that its exit watcher no longer drops: `LangServerPool.StaleIff` says exactly when, `DeadOnArrival` is a run, and
  `StaleStays` says that a ready one is served until `StopAll`.
- The choice among proposed calls (`internal/windsurf/windsurf.go:598-612`) is bounded above only; a number of
  2^63 or more is a negative index: `TrajectorySteps.TrajectoryOutOfBoundsIff`,
  `StepWire.ChoiceCanBeOutOfBounds`.
- Failures of overlapping requests that find a ban already set (`internal/dashapi/dashapi.go:150-173`) come on
  top of the five: `Lockout.Guard.AtMostFiveInAnyHalfHour`, `Lockout.Guard.FailedAuthAttempt`.
- A response of compressed gRPC messages alone is handed on as raw bytes
  (`internal/grpcx/grpcx.go:66-70`): `GrpcFrames.ExtractOfMessages`.
- The length check on a frame wraps at 32 bits (`internal/grpcx/grpcx.go:58`), and a declared end of 2^32 or
  more makes `ExtractFrames` slice out of bounds, a panic: `GrpcFrames.CrashIff`, `GrpcFrames.HugeLengthCrashes`.
- A field of more than 2^31 bytes can be written and not read (`internal/pbenc/pbenc.go:144-157`):
  `ProtoFields.ParseInvertsWriting`.
- A quarantine (`internal/auth/pool.go:804-813`) covers the requested time plus a whole minute except when the
  request exceeds a whole minute by less than a millisecond: `AccountRules.WindowCoversTheRequest`.
- A configuration write that fails is not repeated (`internal/proxycfg/proxycfg.go:77-88`): at rest the file is
  the latest state if and only if the last write did not fail (`SaveWriter.QuietMeansSaved`), and a failed
  one reaches the disk only with the next save (`FailedWriteIsNotRetried`, `FailedRun`).
- The warm-stall exit of the poll loop (`internal/client/client.go:435-443`) leaves out the snapshot it has just
  read. It is taken if and only if the environment stalls warm, `PollTurns.StallsWarmAt`
  (`CascadePoll.Poller.Run`); text is lost if and only if the snapshot has a longer step
  (`PollTurns.LeftOutIff`), as in `PollTurns.SlowCallIsCutOff`.

## Model

| member | source | states |
|---|---|---|
| ToolStream.Advance | internal/toolemu/toolemu.go:298-401 | one move of the parser on a prefix, then the rest, is the move on the whole text |
| ToolStream.StepStable | internal/toolemu/toolemu.go:298-401 | a decided move is not changed by text that arrives later |
| ToolStream.HeldIsProse | internal/toolemu/toolemu.go:352-378 | text before the held-back tail is prose whatever follows |
| ToolStream.HoldBack | internal/toolemu/toolemu.go:352-378 | no opening tag can start before the held-back tail, whatever is appended |
| ToolStream.HoldLen | internal/toolemu/toolemu.go:352-378 | the held-back length is the longest suffix that is a proper prefix of an opening tag |
| ToolStream.HoldFor | internal/toolemu/toolemu.go:352-378 | the same for one tag |
| ToolStream.StreamParser.Feed | internal/toolemu/toolemu.go:275-282 | output now, then the meaning of what remains, is the old meaning of the text with the delta |
| ToolStream.StreamParser.Flush | internal/toolemu/toolemu.go:284-296 | the flush emits exactly the meaning of the remaining text |
| ToolStream.StreamParser.Drain | internal/toolemu/toolemu.go:298-401 | draining keeps the meaning and terminates because every turn shortens the buffer |
| ToolStream.StreamParser.DrainOnce | internal/toolemu/toolemu.go:298-401 | one turn of the loop keeps the meaning |
| ToolStream.StreamParser.DrainBlock | internal/toolemu/toolemu.go:298-350 | a turn inside a call or result keeps the meaning |
| ToolStream.StreamParser.DrainProse | internal/toolemu/toolemu.go:350-401 | a turn outside keeps the meaning |
| ToolStream.FeedAll | internal/toolemu/toolemu.go:275-296 | for every cutting into deltas the result is the meaning of the whole text |
| ToolStream.ParseAll | internal/toolemu/toolemu.go:598-607 | the one-shot parse has that same meaning |
| ToolStream.TagFreeText | internal/toolemu/toolemu.go:298-401 | text with neither opening tag comes out unchanged and without calls |
| ToolStream.CallIdsAreConsecutive | internal/toolemu/toolemu.go:435-470 | calls are numbered consecutively over the whole stream |
| ToolBlocks.ResultIsDropped | internal/toolemu/toolemu.go:284-318 | a closed tool result is not shown, whatever is in it, and what follows is read as if it stood alone |
| ToolBlocks.UnclosedResult | internal/toolemu/toolemu.go:284-318 | a result that is never closed is not shown either; one whose opening tag does not end is |
| ToolBlocks.RenderedResultIsDropped | internal/toolemu/toolemu.go:204-318 | a tool's message, rendered for the model, is not shown if the model repeats it |
| ToolBlocks.CallIsRead | internal/toolemu/toolemu.go:319-350 | a closed call is the call its trimmed body decodes to; if it decodes to none, the trimmed body is shown between its tags |
| ToolBlocks.UnclosedCall | internal/toolemu/toolemu.go:284-296 | a call that is never closed is shown with its opening tag |
| ToolBlocks.TrimmedBody | internal/toolemu/toolemu.go:319-340 | white space of six kinds around a body does not count |
| ToolBlocks.SoundBodyIsRead | internal/toolemu/toolemu.go:424-470 | a body that decodes is the call it says, under the running number, with normalised arguments |
| ToolBlocks.FencedCallIsRead | internal/toolemu/toolemu.go:424-547 | a body in a code fence is read as what stands in the fence |
| ToolBlocks.RawControlsAreRead | internal/toolemu/toolemu.go:424-594 | a body that decodes only with its raw control bytes escaped is read as that |
| ToolBlocks.BrokenBodyIsNoCall | internal/toolemu/toolemu.go:424-433 | a body that decodes neither as it is nor repaired is no call |
| ToolBlocks.OtherArgumentsAreEmpty | internal/toolemu/toolemu.go:472-514 | arguments that are a list, a number or a truth value are replaced by the empty object |
| ToolRepair.EscapeInStringControls | internal/toolemu/toolemu.go:549-594 | the flag-driven loop computes the escape of the three-state lexer |
| ToolRepair.EscapeIdempotent | internal/toolemu/toolemu.go:549-594 | escaping twice is escaping once |
| ToolRepair.EscapeIdentityIff | internal/toolemu/toolemu.go:549-594 | the text is unchanged exactly when no unescaped control byte stands in a string |
| ToolRepair.EscapeKeepsMeaning | internal/toolemu/toolemu.go:549-594 | a lenient decoder (RFC 8259 section 7) that accepts raw controls reads the same tokens before and after |
| ToolBody.ArgumentsAreAnObject | internal/toolemu/toolemu.go:472-514 | whatever the raw arguments, the normalised ones decode to an object |
| ToolBody.ObjectArgumentsKeepTheirValue | internal/toolemu/toolemu.go:472-514 | object arguments keep their value |
| ToolBody.WrappedArgumentsKeepTheirValue | internal/toolemu/toolemu.go:472-514 | an object wrapped in a JSON string is unwrapped to the same object |
| ToolNormalize.Normalize | internal/toolemu/toolemu.go:204-242 | the loop renders message by message; a tool's message becomes a user's with its content between result tags, roles other than these two keep role and content |
| ToolNormalize.OneCall | internal/toolemu/toolemu.go:204-242 | a rendered call in front of any text is read back as that call |
| ToolNormalize.CallsRoundTrip | internal/toolemu/toolemu.go:204-242 | rendered calls are read back in order, with only the joining newlines as text |
| ToolNormalize.AssistantRoundTrip | internal/toolemu/toolemu.go:204-242 | an assistant turn of tag-free text and calls is read back with the same text and calls |
| ToolNormalize.ReadBackKeepsCalls | internal/toolemu/toolemu.go:204-242 | each call read back has the name that was sent, or "unknown" for none, and the argument object that was sent, or an empty one for text that does not decode |
| SanitizeStream.SafeCutPoint | internal/sanitize/sanitize.go:89-132 | the computed cut is one no sensitive literal or path body spans |
| SanitizeStream.FirstRunning | internal/sanitize/sanitize.go:89-118 | the first literal whose path body runs to the end of the buffer |
| SanitizeStream.FirstStarting | internal/sanitize/sanitize.go:119-132 | the first suffix that is a proper prefix of a literal |
| SanitizeStream.CutDoesNotSpan | internal/sanitize/sanitize.go:89-132 | no literal with its path crosses the cut, whatever text follows |
| SanitizeStream.TextSplit | internal/sanitize/sanitize.go:46-55 | at such a cut the redaction of a text with only literals is that of its halves, and the rest has only literals |
| SanitizeStream.CutIsSafe | internal/sanitize/sanitize.go:63-78 | what is emitted and what is held redact together as the whole |
| SanitizeStream.HeldNext | internal/sanitize/sanitize.go:63-78 | what is held back of a text does not depend on how it was cut |
| SanitizeStream.NothingHeldIff | internal/sanitize/sanitize.go:89-132 | nothing is held if and only if no literal begins or still runs at the end of the text |
| SanitizeStream.SlashIsHeld | internal/sanitize/sanitize.go:115-132 | text that ends in a separator is held back |
| SanitizeStream.StreamIsText | internal/sanitize/sanitize.go:63-85 | however a text with only literals is cut, from any held text on, streaming redacts the whole |
| SanitizeSplit.ReplaceSplit | internal/sanitize/sanitize.go:37-58 | one path pattern over a text with a cut no match spans is the pattern over its halves |
| SanitizeSplit.SpanKept | internal/sanitize/sanitize.go:37-58 | a pass keeps the cut unspanned by literals for the passes after it |
| SanitizeSplit.HomesKept | internal/sanitize/sanitize.go:26 | a literal pass lets no match of the second pattern grow over a cut it did not reach |
| SanitizeSplit.PathsSplit | internal/sanitize/sanitize.go:18-55 | the four path passes over a text with such a cut are the passes over its halves |
| SanitizeBlocks.BlocksOfPaths | internal/sanitize/sanitize.go:32-34 | redacting the paths neither makes nor breaks a block of any of the three tags |
| SanitizeBlocks.TextOrShorter | internal/sanitize/sanitize.go:18-55 | without a block the redaction is that of the paths; any block makes it shorter |
| SanitizeClean.PathsAreGone | internal/sanitize/sanitize.go:18-55 | after the four path passes none of the three server directories and no workspace path, by either pattern, stands anywhere in the text |
| SanitizeClean.TextIsClean | internal/sanitize/sanitize.go:18-55 | without a closed block that holds of the whole redaction |
| SanitizeClean.UntouchedIff | internal/sanitize/sanitize.go:18-55 | the redaction is the text itself if and only if it shows none of these paths and has no closed block |
| SanitizeClean.TextIsIdempotent | internal/sanitize/sanitize.go:18-55 | without a closed block, redacting the redaction again changes nothing |
| SanitizeClean.PathIsReplaced | internal/sanitize/sanitize.go:18-30 | in prose, a server path and all of it is replaced by its marker and nothing else changes |
| SanitizeClean.HomeIsReplaced | internal/sanitize/sanitize.go:26 | the same for a workspace path of the second pattern, with or without a drive letter |
| SanitizeGaps.BlockIsRemoved | internal/sanitize/sanitize.go:32-34 | in text that shows no path a closed block goes with what is in it |
| SanitizeGaps.PathsComeFromHalves | internal/sanitize/sanitize.go:46-55 | the redaction of any text shows a path if and only if between two neighbouring characters of it, whose places in the path-free text are not neighbours, one half of a path meets the other |
| SanitizeGaps.HalvesAreJoined | internal/sanitize/sanitize.go:46-55 | a block between two halves of a path: the redaction is the path |
| SanitizeStream.Stream.Feed | internal/sanitize/sanitize.go:63-79 | the part in front of the cut is redacted and emitted, the rest held; without a closed block the emitted text shows no path; `CutIsSafe` says when both redact as the whole |
| SanitizeStream.Stream.Flush | internal/sanitize/sanitize.go:81-87 | the flush redacts what is held; without a closed block it shows no path |
| SanitizeStream.FeedAll | internal/sanitize/sanitize.go:58-87 | the emitted text is `Streamed`, and for every chunking of a text with only literals the one-shot redaction, which shows no path |
| SanitizeExact.AnyCut | internal/sanitize/sanitize.go:26 | a match of the second pattern cut within its first thirty bytes is redacted longer than whole |
| SanitizeBytes.CutMakesLonger | internal/sanitize/sanitize.go:18-55 | so is any text cut inside a match behind such a front |
| SanitizeBytes.ByteByByte | internal/sanitize/sanitize.go:63-85 | fed byte by byte, paths come out redacted as a whole if the literals guard them all, and longer if not |
| SanitizeBytes.OthersDisagree | internal/sanitize/sanitize.go:63-132 | any text with an unguarded match or a block comes out differently byte by byte |
| SanitizeBytes.StreamingIsExact | internal/sanitize/sanitize.go:46-132 | every chunking of a text agrees with one-shot redaction if and only if the second pattern matches only under a literal and there is no block |
| SanitizeBytes.HeldIsSeen | internal/sanitize/sanitize.go:81-85 | what is held back is never redacted to nothing |
| SanitizeLimits.DriveLetterIsCutOff | internal/sanitize/sanitize.go:89-140 | every drive-letter path comes out differently when cut behind the colon |
| SanitizeLimits.MixedSeparatorsAreCutOff | internal/sanitize/sanitize.go:26-43 | every path with mixed separators comes out differently byte by byte |
| SanitizeLimits.BlockIsCutOff | internal/sanitize/sanitize.go:32-43 | so does every text with a closed block of any of the three tags |
| SanitizeLimits.UnheldPathIsCutOff | internal/sanitize/sanitize.go:37-132 | in general, so does any workspace path that begins with no literal |
| ChatStream.Pipeline.EmitContent | internal/server/chat.go:938-944 | the content accumulated and the content written grow by the same |
| ChatStream.Pipeline.EmitTools | internal/server/chat.go:985-991 | calls are collected and sent at once under their position |
| ChatStream.Pipeline.EmitThink | internal/server/chat.go:945-951 | the same for thinking |
| ChatStream.Pipeline.SendProse | internal/server/chat.go:982-994 | content written, then the redaction of what is held with the rest, is unchanged wherever redaction is exact; what is held depends on the prose so far only |
| ChatStream.Pipeline.SendThinking | internal/server/chat.go:996-998 | the same for thinking, through its own redactor |
| ChatStream.Pipeline.OnChunk | internal/server/chat.go:973-999 | for prose, calls and thinking: the outcome of what follows is the outcome of the chunk with what follows, before it |
| ChatStream.Pipeline.TailFlush | internal/server/chat.go:1103-1115 | the tail flush sends exactly what was outstanding of prose, calls and thinking |
| ChatStream.StreamChat | internal/server/chat.go:973-1149 | on both paths: the writes tell the redaction of the parsed prose and of the thinking, and the parsed calls whole, in order, under consecutive indices; the content in front of a call is the redaction of the prose so far if and only if the redactor holds nothing of it; the finish reason says whether there are calls, and usage and end marker follow; the role is written first, and once |
| ChatStream.StandingIsInPlace | internal/server/chat.go:981-995 | prose and calls are in order at a call if and only if the redactor holds nothing |
| ChatWrites.PositionsAreDistinct | internal/server/chat.go:985-991 | calls written under their positions are written under distinct indices |
| ChatWrites.PingsSayNothing | internal/server/chat.go:895-909 | keep-alives between any two writes change neither content, thinking nor calls |
| ChatToClients.BytesAreRead | internal/server/chat.go:1287-1313 | all frames the chat handler writes are read back as the inputs that were meant, pings and the end marker included |
| ChatToClients.AnthropicClientReceives | internal/server/messages.go:534-719 | whatever is written in whatever interleaving, an Anthropic client reads a well-formed stream with exactly the content, the thoughts and the calls, each in its own block |
| ChatToResponses.CallsAreSent | internal/server/responses.go:579-621 | what the translator knows of a call is its one write |
| ChatToResponses.OrderIsSeen | internal/server/responses.go:520-621 | message and call items alternate for the translator as prose and calls alternate in the writes |
| ChatToResponses.ResponsesClientReceives | internal/server/responses.go:451-764 | a Responses client reads to the end and receives exactly the content and each call's arguments; its message item is added once if and only if prose does not resume behind a call |
| ChatDelivery.AnthropicClientIsTold | internal/server/messages.go:534-719 | from the model's text to the client: prose and thinking redacted, the parsed calls in order, each in a block of its own |
| ChatDelivery.ResponsesClientIsTold | internal/server/responses.go:451-764 | the same for a Responses client: prose redacted, and of every parsed call all its arguments |
| SseFrames.FramesResume | internal/server/messages.go:636-686 | splitting the bytes anywhere yields the same frames and the same pending rest |
| SseFrames.NothingIsLost | internal/server/messages.go:636-686 | frames and rest, written out, are the bytes; frames hold no blank line |
| SseFrames.FramesOfWire | internal/server/messages.go:636-686 | every list of frames is read back from its bytes |
| SseFrames.DataFramesAreRead | internal/server/messages.go:648-676 | every data frame yields its one payload |
| SseFrames.EventOnTheWire | internal/server/chat.go:866-878 | `data: `, a payload and two line feeds, in front of any bytes, are one frame that yields the payload |
| Upstream.InputsResume | internal/server/responses.go:694-731 | the inputs of bytes in two pieces are those of the bytes together |
| Upstream.OneChoiceInputs | internal/server/messages.go:590-633 | a chunk of one choice comes to the start, its thinking, its text, its tool deltas in order, its finish reason and the usage, field by field |
| Upstream.WrittenChunksAreRead | internal/server/messages.go:648-676 | written chunks come out as their inputs in order |
| Upstream.NextPiece | internal/server/messages.go:636-686 | acting on a further piece behind the pending text is acting on all bytes so far |
| AnthropicEvents.WellFormedIffInOrder | internal/server/messages.go:486-719 | the stream follows the event grammar to its end if and only if each call's arguments come while its block is open |
| AnthropicEvents.RunStep | internal/server/messages.go:486-633 | the same for every prefix, with the translator standing where a client stands |
| AnthropicEvents.ApplyStep | internal/server/messages.go:534-633 | one input keeps the stream readable exactly when it is contiguous |
| AnthropicEvents.WholeCallsAreInOrder | internal/server/chat.go:952-971 | calls sent whole under distinct indices are in order |
| AnthropicEvents.PrefixesScan | internal/server/messages.go:486-719 | a client that follows along never meets a stray event |
| AnthropicEvents.InterleavedCallsBreakTheStream | internal/server/messages.go:568-588 | resuming an earlier call after a later one breaks the stream |
| AnthropicEvents.NothingLostOrReordered | internal/server/messages.go:534-588 | text, thinking, call headers and argument bytes arrive exactly, in order, for every upstream; blocks of calls are distinct |
| AnthropicEvents.FinishClosesTheMessage | internal/server/messages.go:688-719 | the message ends once with the last known stop reason and the token counts of the last usage; finishing again adds nothing |
| AnthropicEvents.StopReasonIs | internal/server/messages.go:590-633 | "stop" is told as "end_turn", "length" as "max_tokens" and "tool_calls" as "tool_use", whichever of them came last |
| AnthropicEvents.WithoutReasonTheTurnEnds | internal/server/messages.go:486-506 | with none of the three it is "end_turn" |
| AnthropicEvents.PingsArePassedOn | internal/server/messages.go:676-682 | every keep-alive that comes once the message has started is passed on, and no other is sent |
| AnthropicTranslator.Translator.ProcessChunk | internal/server/messages.go:590-633 | a chunk acts as its inputs in order |
| AnthropicTranslator.Translator.ProcessFrame | internal/server/messages.go:648-682 | a frame acts as its payloads and then its ping |
| AnthropicTranslator.Translator.Feed | internal/server/messages.go:636-686 | the fields change as the inputs of pending and new bytes say, and the unfinished rest is kept |
| AnthropicTranslator.Translator.EmitToolCallDelta | internal/server/messages.go:568-588 | a new index closes the open block and opens one under the given or a made-up id; arguments go to the block of their own call |
| AnthropicTranslator.Translator.FinishStream | internal/server/messages.go:688-719 | the first call starts the message if need be, closes the block and ends the message; later calls do nothing |
| AnthropicTranslator.TranslateAll | internal/server/messages.go:636-719 | the events of a response do not depend on the cutting, and are well formed exactly when the upstream is in order |
| ResponsesEvents.EverythingKnownArrives | internal/server/responses.go:520-621 | the client receives exactly the text, and of each call the arguments from where id and name are known |
| ResponsesEvents.AllArgumentsArriveIff | internal/server/responses.go:579-621 | of all arguments sent for a call everything arrives if and only if none came before both its id and its name; otherwise the client has less |
| ResponsesEvents.EarlyArgumentsAreLost | internal/server/responses.go:585-612 | arguments, then id and name: the client receives none of them |
| ResponsesEvents.RunKept | internal/server/responses.go:451-692 | at every point the accumulated text and arguments are what the deltas carried, and what the upstream sent |
| ResponsesEvents.FinishKeeps | internal/server/responses.go:733-764 | the end keeps text and arguments, in any map order, and sends the last status and usage; finishing again adds nothing |
| ResponsesEvents.CompletionIs | internal/server/responses.go:387-764 | the last event is "incomplete" where the last finish reason was "length" or "content_filter" and "completed" where it was another, with the token counts of the last usage |
| ResponsesEvents.PingIsPassedOn | internal/server/responses.go:722-727 | a keep-alive that comes once the response has started is passed on |
| ResponsesEvents.HeaderIsTheFirst | internal/server/responses.go:579-607 | the id of a call is the first that is not empty, whatever comes after it, and so is its name |
| ResponsesGrammar.RunReads | internal/server/responses.go:451-692 | at every point of every run the client follows, item by item and index by index, exactly if the upstream is allowed so far |
| ResponsesGrammar.ClientKnowsTheCall | internal/server/responses.go:579-621 | the client knows a call by that id and that name, with the arguments sent so far |
| ResponsesGrammar.RunTracked | internal/server/responses.go:520-621 | whether a message is open, a call was opened and text was sent is what the upstream says |
| ResponsesGrammar.FinishFollowed | internal/server/responses.go:733-764 | the end closes message, part and calls under the indices they were added at, in any map order |
| ResponsesGrammar.UnheadedIsUnread | internal/server/responses.go:520-533 | text before the first chunk is an item before the greetings |
| ResponsesGrammar.AcceptedIff | internal/server/responses.go:451-764 | the stream is accepted to its end if and only if text comes only within chunks, and, where items must not be added again, never resumes behind a call, and, where output indices must differ, nothing follows an opened call |
| ResponsesGrammar.ResumedTextIsRepeated | internal/server/responses.go:520-621 | prose, a call, prose: the second message item has the id of the first, the index of the call, and the text of both |
| ResponsesGrammar.StreamEndsWell | internal/server/responses.go:654-764 | every upstream of chunks, cut anyhow: what each of the three grammars makes of it; the text arrives, and all arguments of a call exactly if none came early |
| ResponsesTranslator.Translator.ProcessChunk | internal/server/responses.go:654-692 | a chunk acts as its inputs in order |
| ResponsesTranslator.Translator.EmitToolCallDelta | internal/server/responses.go:579-621 | id and name are kept from where they first come, the item opens once both are known, and only then are arguments passed on |
| ResponsesTranslator.Translator.CloseToolItems | internal/server/responses.go:623-652 | all items are closed in some order |
| ResponsesTranslator.Translator.Feed | internal/server/responses.go:694-731 | the fields change as the inputs of pending and new bytes say, and the unfinished rest is kept |
| ResponsesTranslator.Translator.FinishStream | internal/server/responses.go:733-762 | start if need be, message closed, items closed in some order, completion sent |
| ResponsesTranslator.TranslateAll | internal/server/responses.go:694-762 | for every cutting: accepted by the grammar the code keeps, by the strict one exactly if text never resumes behind a call, by the one with distinct indices exactly if nothing follows a call; the text arrives, and all arguments of a call exactly if none came early |
| Varint.AppendVarint | internal/pbenc/pbenc.go:22-28 | the loop appends the base-128 form |
| Varint.DecodeVarint | internal/pbenc/pbenc.go:31-45 | the loop decodes modulo 2^64, stops after ten bytes, and fails as specified |
| Varint.DecodeEncode | internal/pbenc/pbenc.go:22-45 | decoding inverts encoding for every uint64 and any suffix, using exactly its bytes |
| Varint.TenBytesSuffice | internal/pbenc/pbenc.go:22-28 | a uint64 takes at most ten bytes |
| Varint.DecodeAppend | internal/pbenc/pbenc.go:31-45 | bytes behind a varint do not change it |
| Varint.EncodeIsShortest | internal/pbenc/pbenc.go:22-45 | no shorter byte string decodes to the same number |
| Varint.GroupsOfSeven | internal/pbenc/pbenc.go:22-28 | the k-th byte carries the k-th group of seven bits, and the mark exactly if anything is left above it |
| ProtoFields.AppendVarintField | internal/pbenc/pbenc.go:52-55 | appends tag and value |
| ProtoFields.AppendLenField | internal/pbenc/pbenc.go:60-87 | appends tag, length and bytes, and nothing for an empty field |
| ProtoFields.AppendBoolField | internal/pbenc/pbenc.go:90-95 | appends a true flag and nothing for false |
| ProtoFields.AppendFixed64Field | internal/pbenc/pbenc.go:98-103 | appends tag and little-endian word |
| ProtoFields.Parse | internal/pbenc/pbenc.go:119-169 | the position-driven loop computes the recursive parse, errors included |
| ProtoFields.ParseField | internal/pbenc/pbenc.go:121-166 | one tag and what its wire type announces |
| ProtoFields.ParseInvertsWriting | internal/pbenc/pbenc.go:49-169 | parsing any sequence of appended fields returns them, the skipped empty ones left out, if and only if no field is longer than 2^31 bytes; else it fails as truncated |
| ProtoFields.LongFieldIsRejected | internal/pbenc/pbenc.go:144-157 | a field of more than 2^31 bytes is written, and refused on reading whatever follows |
| ProtoFields.SmallFieldsOnTheWire | internal/pbenc/pbenc.go:49-95 | under a small number a field is one byte of number and wire type, and the number, the flag, or length and bytes |
| ProtoFields.Fixed64OnTheWire | internal/pbenc/pbenc.go:98-103 | a word is eight bytes, the low one first, under wire type 1 |
| ProtoFields.Fixed32OnTheWire | internal/pbenc/pbenc.go:119-169 | four bytes under wire type 5 are read as a word, the low byte first |
| ProtoFields.ParseConcat | internal/pbenc/pbenc.go:119-169 | behind a buffer that parses, parsing goes on as if it started there |
| ProtoFields.Get | internal/pbenc/pbenc.go:172-179 | the loop returns the first match |
| ProtoFields.FirstMatch | internal/pbenc/pbenc.go:172-179 | the result matches and nothing before it does; there is none exactly when nothing matches |
| ProtoFields.All | internal/pbenc/pbenc.go:182-190 | the loop collects the fields of a number |
| ProtoFields.HavingIs | internal/pbenc/pbenc.go:182-190 | exactly the fields with the number are among them |
| ProtoFields.HavingConcat | internal/pbenc/pbenc.go:182-190 | the fields found in two parts are those of the first, then those of the second |
| Trajectory.ParseGeneratorMetadata | internal/windsurf/windsurf.go:677-730 | the loop totals the usage of all records |
| Trajectory.UsageAdds | internal/windsurf/windsurf.go:469-474 | the usage of two parts together is the sum of each counter modulo 2^64, with "none" as zero |
| Trajectory.UsageRoundTrip | internal/windsurf/windsurf.go:677-730 | usage written into one record is read back exactly, a report of zeros as none |
| TrajectorySteps.ParseTrajectorySteps | internal/windsurf/windsurf.go:491-673 | the loop reads the steps, field by field, up to the first that is out of bounds |
| TrajectorySteps.StepsConcatenate | internal/windsurf/windsurf.go:491-673 | the steps of two parts together are those of the first, then those of the second, and out of bounds if either part is |
| TrajectorySteps.FirstLine | internal/windsurf/windsurf.go:638-656 | the error is the first line, at most 300 bytes of it |
| TrajectorySteps.TrajectoryOutOfBoundsIff | internal/windsurf/windsurf.go:596-614 | reading indexes out of bounds if and only if a step has a choice among calls whose number is 2^63 or more |
| StepWire.StepRoundTrip | internal/windsurf/windsurf.go:491-673 | a step written with any of its parts is read back: the texts, the usage, the calls of all four shapes in order, the error as one line; only a choice among calls numbered 2^63 or more ends out of bounds |
| StepWire.CustomIsRead | internal/windsurf/windsurf.go:549-568 | a custom call: its id for a name if it has none |
| StepWire.ServerIsRead | internal/windsurf/windsurf.go:569-583 | a server's call: the embedded call with the server's name and the result beside it |
| StepWire.ProposedIsRead | internal/windsurf/windsurf.go:584-590 | a proposed call |
| StepWire.ChoiceIsRead | internal/windsurf/windsurf.go:591-614 | of several calls the one with the number, or the first if there is no such call; out of bounds exactly from 2^63 on |
| StepWire.ErrorIsRead | internal/windsurf/windsurf.go:637-668 | the first line of the step's own error, or of the general one if that has none |
| StepWire.UsageIsRead | internal/windsurf/windsurf.go:516-538 | the usage of the step, a report of zeros as none |
| StepWire.ChoiceCanBeOutOfBounds | internal/windsurf/windsurf.go:591-614 | a choice numbered 2^63 among one call makes the whole reading stop |
| GrpcFrames.Frame | internal/grpcx/grpcx.go:25-31 | the filled buffer is flag, big-endian length and payload |
| GrpcFrames.FrameOnTheWire | internal/grpcx/grpcx.go:25-31 | the bytes of a message: its flag, four bytes of length from the high one on, its payload |
| GrpcFrames.ExtractFrames | internal/grpcx/grpcx.go:49-72 | the loop walks the frames with 32-bit wrap-around, including where it would crash |
| GrpcFrames.ExtractOfMessages | internal/grpcx/grpcx.go:49-72 | extracting messages gives the uncompressed payloads if and only if one is non-empty or the first is uncompressed |
| GrpcFrames.ExtractOfFrames | internal/grpcx/grpcx.go:25-72 | extracting concatenated frames gives the concatenated payloads |
| GrpcFrames.TruncatedTailIsDropped | internal/grpcx/grpcx.go:58-61 | a response that stops inside a frame yields what came before it |
| GrpcFrames.CrashIff | internal/grpcx/grpcx.go:49-72 | extraction slices out of bounds if and only if behind whole messages stands an uncompressed frame whose declared end is 2^32 or more; the fallback never does |
| GrpcFrames.HugeLengthCrashes | internal/grpcx/grpcx.go:56-63 | five bytes that do it, in front of anything |
| GrpcFrames.Stream | internal/grpcx/grpcx.go:193-216 | the frame loop delivers frames up to the end or the first error |
| GrpcFrames.StreamOfMessages | internal/grpcx/grpcx.go:193-216 | whole messages are delivered one by one without error |
| GrpcFrames.StreamJoinsToPlain | internal/grpcx/grpcx.go:49-216 | what is streamed, joined, is what is extracted |
| PollRules.GrowIff | internal/client/client.go:478-491 | what is passed on equals the text just seen exactly if that extends what was passed on before |
| PollRules.NothingLostOrRepeated | internal/client/client.go:450-493 | if a step's text, or its thinking, only grows, exactly the last of it has been passed on |
| PollRules.SweptIs | internal/client/client.go:536-557 | the sweep ends at the modified response where that extends the response, else at the response, if and only if that extends what was passed on |
| PollRules.SweptExtends | internal/client/client.go:536-557 | a sweep only adds |
| PollRules.FinalIs | internal/client/client.go:445-557 | of a step that only grew the last text and thinking have been passed on, and the sweep's text exactly where it extends them |
| PollRules.ResponsesAreShown | internal/client/client.go:478-491 | where every snapshot that has the step gives it a response, and these only grow, exactly the last response has been passed on, whatever the step's text and modified response are |
| PollRules.FinalDelivers | internal/client/client.go:445-557 | what a step passes on over the whole run, in its fields: the response, or the text where there is none, and at the end the modified response where that extends it |
| PollRules.DedupKeepsEachKeyOnce | internal/client/client.go:454-465 | every tool key seen is reported, and once |
| PollRules.DedupIsOneOfEach | internal/client/client.go:454-465 | of the calls seen one of each is kept: calls are the same by their ids, or without ids by name and arguments |
| PollRules.AtLeast | internal/client/client.go:287-299 | with the poll interval between tests the n-th test is no earlier than n intervals |
| CascadePoll.Poller.EmitText | internal/client/client.go:485-492 | the cursor and totals move with the chunk, and only this step's text grows |
| CascadePoll.Poller.EmitThinking | internal/client/client.go:467-476 | the same for thinking |
| CascadePoll.Poller.CollectTools | internal/client/client.go:454-465 | the calls kept are the first of each key |
| CascadePoll.Poller.ObserveStep | internal/client/client.go:450-493 | one step of a snapshot passes on exactly what is new of its response, or of its text where there is no response |
| CascadePoll.Poller.Observe | internal/client/client.go:445-493 | after a snapshot every step has passed on what the snapshots amount to, the text is theirs in the order it came, and growth is noted exactly if there is any |
| CascadePoll.Poller.SweepAll | internal/client/client.go:536-558 | the final sweep passes on what it amounts to |
| PollTurns.FirstError | internal/client/client.go:418-423 | an error step with a text is found exactly when there is one |
| PollTurns.StreaksAre | internal/client/client.go:394-520 | while the loop goes on its error counters are the streaks of the answers, within the budget |
| PollTurns.EndsHere | internal/client/client.go:375-565 | the loop ends at one turn only, and with a warm stall there exactly under the guard |
| PollTurns.StallsIff | internal/client/client.go:425-443 | when a turn ends the loop as a stall: nothing at all after 30 s and 5 s more per 1500 characters of input, at most 180 s, or nothing more for 25 s; with 300 characters or more the text is kept |
| PollTurns.GrowthIsNoted | internal/client/client.go:445-493 | the stall is measured from the last snapshot with a longer text, longer thinking or more steps; one with nothing new leaves it |
| PollTurns.ActiveIff | internal/client/client.go:519-526 | the cascade counts as active from the first status other than idle |
| PollTurns.IdleEndsTheLoop | internal/client/client.go:526-565 | while the loop goes on the cascade has not been found idle twice in a row with text to show, nor four times in a row at all |
| PollTurns.IdleGoesOn | internal/client/client.go:526-565 | once idle is not enough, nor three times with nothing to show, and in the first 8 s before any activity idle is not counted |
| PollTurns.LeftOutIff | internal/client/client.go:435-493 | leaving a snapshot out loses text if and only if one of its steps is longer than what was passed on |
| PollTurns.SlowCallIsCutOff | internal/client/client.go:389-443 | a call of half a minute that returns more text: the loop ends with what was there before it |
| CascadePoll.Poller.TakeTurn | internal/client/client.go:375-565 | one turn: it leads to another turn exactly when `GoesOn` says so, leaving what `Next` says; the cold stall, the warm stall and its retry come exactly under their guards |
| CascadePoll.Poller.CheckStatus | internal/client/client.go:496-565 | the status half of a turn: it leads to another turn exactly when `StatusGoesOn` says so; only a finished idle phase ends the loop, with the sweep passed on |
| CascadePoll.Poller.Run | internal/client/client.go:336-593 | at most 720 turns; a warm stall ends it if and only if the environment leads to one, and then the text is that of the snapshots before; else all that was seen: the chunks of a step that only grew join to its last text, and to the sweep's exactly where that extends it; every tool key once; giving up takes seven transient errors of the same call with no success of it in between |
| LangServerPool.InitialInv | internal/langserver/pool.go:135-159 | the empty pool satisfies the invariant |
| LangServerPool.StepKeepsInv | internal/langserver/pool.go:318-552 | every step of every goroutine keeps the invariant |
| LangServerPool.StepKeepsClaimsMatch | internal/langserver/pool.go:318-382 | each key has at most one spawner in flight |
| LangServerPool.StepKeepsUnreadyInFlight | internal/langserver/pool.go:484-552 | a registered entry that is not ready has its spawner in flight |
| LangServerPool.StepKeepsNoOrphans | internal/langserver/pool.go:484-552 | every started process is exited, signalled, tracked or held by its spawner |
| LangServerPool.StepKeepsPortsDiffer | internal/langserver/pool.go:340-382 | ports of live processes and claims differ |
| LangServerPool.InvGivesNoDuplicates | internal/langserver/pool.go:318-552 | no two live unsignalled processes share a key or a port |
| LangServerPool.RunsAreSafe | internal/langserver/pool.go:318-676 | the same at every point of every run |
| LangServerPool.StartsAreNeeded | internal/langserver/pool.go:318-382 | a process is started only for a key without a live one |
| LangServerPool.StopAllSignals | internal/langserver/pool.go:628-676 | after StopAll no tracked process is left unsignalled |
| LangServerPool.EndedStaysDown | internal/langserver/pool.go:161-218 | a process that has exited, was killed by the watchdog or for a port that stayed shut does not run at any later point |
| LangServerPool.StaleIff | internal/langserver/pool.go:475-532 | in every run an entry names a process that is gone for good if and only if that process was registered after its exit watcher had run |
| LangServerPool.StaleStays | internal/langserver/pool.go:318-326 | such an entry, once ready, is never spawned anew and stays until StopAll |
| LangServerPool.DeadOnArrival | internal/langserver/pool.go:484-549 | a process that dies before it is registered, on a port that answers, leaves such an entry |
| ResponseCache.Cache.RemoveLocked | internal/cache/cache.go:267-272 | node, index entry, bytes and file go together |
| ResponseCache.Cache.Lookup | internal/cache/cache.go:158-175 | a hit moves to the back, an expired element goes, and which it is |
| ResponseCache.Cache.ReadFile | internal/cache/cache.go:177 | what is read was written for this very key |
| ResponseCache.Cache.DropStale | internal/cache/cache.go:178-205 | only the element that was looked up is dropped, never a re-inserted one |
| ResponseCache.Cache.WriteFile | internal/cache/cache.go:226-229 | the file write keeps the invariant |
| ResponseCache.Cache.Commit | internal/cache/cache.go:231-262 | replaces, inserts with eviction of the least recently touched, or cancels when the file is gone |
| ResponseCache.Cache.ClearLocked | internal/cache/cache.go:276-283 | list, index, bytes and files are emptied together |
| ResponseCache.Run | internal/cache/cache.go:95-289 | any number of goroutines, their sections in any order with stale arguments: list and index stay in step within the capacity, every indexed key has its file, and every file was written for its key |
| ResponseCache.Cache.Clear | internal/cache/cache.go:275-289 | the locked part and the counter reset behind it, run alone: everything is empty |
| ResponseCache.Cache.Reload | internal/cache/cache.go:325-379 | the live files of the listing in order up to the capacity, each until its own time is up, the expired ones deleted |
| ResponseCache.LiveIff | internal/cache/cache.go:340-362 | a listed file is live exactly if its time to live has not run out |
| ResponseCache.Cache.Get | internal/cache/cache.go:158-208 | the entry exactly when an element of the key has not expired and its file decodes; counted as a hit or a miss |
| ResponseCache.Cache.Set | internal/cache/cache.go:218-263 | afterwards the key is most recent, readable until its time is up, and reads back as stored |
| ResponseCache.LeastRecentFirst | internal/cache/cache.go:253-262 | the front of the list is the least recently touched element |
| ResponseCache.TouchKeepsOrder | internal/cache/cache.go:243-249 | moving an element to the back keeps list, index, recency and byte count in step |
| RateWindow.Compact | internal/auth/pool.go:953-963 | the in-place compaction keeps exactly the times not before the cutoff |
| RateWindow.KeptKept | internal/auth/pool.go:953-963 | what pruning drops never matters later |
| RateWindow.KeptIsSuffix | internal/auth/pool.go:953-963 | of an ordered log pruning keeps a suffix |
| RateWindow.WindowHoldsTheCap | internal/auth/pool.go:646-743 | any closed 60 000 ms window holds no more grants than the cap |
| AccountRules.NotBeforeIsTransitive | internal/auth/pool.go:695-702 | the selection order is a weak order |
| AccountRules.NotBehindIff | internal/auth/pool.go:695-702 | not to come behind another is to have an unused share no smaller and, if the shares are the same, no later use |
| AccountRules.EligibleIff | internal/auth/pool.go:667-691 | eligible, in the fields: active, not tried, no window open, the model allowed and not blocked, fewer requests in the last 60 s than 60, 20, 10 or 0 by tier |
| AccountRules.GrantIs | internal/auth/pool.go:704-706 | a grant leaves the times of the last minute with the new one, the time as last use, and the rest as it was |
| AccountRules.VisitingChangesNoAnswer | internal/auth/pool.go:1073-1086 | expiring windows and pruning while looking changes no later answer |
| AccountRules.ReloadingChangesNoAnswer | internal/auth/pool.go:143-163 | dropping ended windows at load changes no later answer |
| AccountRules.NothingFreesBefore | internal/auth/pool.go:747-788 | when all are limited, no request finds an account before the first window ends, whatever was tried |
| AccountRules.EndsIff | internal/auth/pool.go:747-788 | the ends that count are those later than now of the windows of active accounts that may use the model, for all models or this one |
| AccountRules.EffectiveWindow | internal/auth/pool.go:804-813 | a whole number of minutes, at least one, less than two more than asked |
| AccountRules.WindowCoversTheRequest | internal/auth/pool.go:804-813 | covers the request plus a minute if and only if the request is not within a millisecond above a whole minute |
| AccountRules.MarkHolds | internal/auth/pool.go:821-866 | a mark holds for its scope until its end and replaces an earlier one |
| AccountPool.Account.PruneRPM | internal/auth/pool.go:953-963 | the pruned history counts exactly the grants of the last minute in the whole log |
| AccountPool.Account.Record | internal/auth/pool.go:704-705 | the grant is appended to history and log within the cap |
| AccountPool.Account.Consider | internal/auth/pool.go:667-691 | the checks pass exactly for an eligible account |
| AccountPool.First | internal/auth/pool.go:695-703 | an entry with no smaller unused share of its limit than any other and, among equal shares, no later use |
| AccountPool.Pool.Acquire | internal/auth/pool.go:646-707 | none exactly when no account is eligible, else an eligible one whose unused share of its cap no other exceeds and that, among equal shares, was used no later; it alone is granted |
| AccountPool.Pool.AcquireByKey | internal/auth/pool.go:711-743 | the first account with the key exactly when it is eligible; no other changes |
| AccountPool.Pool.IsAllRateLimited | internal/auth/pool.go:747-788 | true exactly when all that count are limited, with the time to the first end, at least a second; the default minute is unreachable |
| AccountPool.Pool.MarkRateLimited | internal/auth/pool.go:821-866 | the first account with the key is marked until the effective window ends, nothing else changes |
| AccountPool.Pool.EveryMinuteIsCapped | internal/auth/pool.go:646-743 | in every reachable state every closed minute of every account is within its largest cap |
| AccountPool.Pool.HistoryTellsTheLastMinute | internal/auth/pool.go:953-963 | the pruned history equals the count over the full log |
| SaveWriter.StepKeepsInv | internal/proxycfg/proxycfg.go:50-88 | pending data always has a token, a saver about to send or a writer about to take it, and the newest version is always held somewhere |
| SaveWriter.StartIsGood | internal/proxycfg/proxycfg.go:50-88 | the state at start-up satisfies the invariant |
| SaveWriter.FileMovesForward | internal/atomicfile/atomicfile.go:33-50 | every step leaves the file a complete version, unchanged or newer |
| SaveWriter.FileIsNeverTorn | internal/atomicfile/atomicfile.go:33-50 | at every point of every run, crashes included, the file is complete and never older than before |
| SaveWriter.QuietMeansSaved | internal/modelaccess/modelaccess.go:52-85 | at rest nothing is pending, and the file is the latest state if and only if the last write did not fail |
| SaveWriter.FailedWriteIsNotRetried | internal/proxycfg/proxycfg.go:77-88 | after a failed write nothing happens until the next save, and a crash loses the update |
| SaveWriter.FailedRun | internal/proxycfg/proxycfg.go:50-88 | the run of one save whose write fails: at rest, the file still holds the version before |
| SaveWriter.WriterGoesOn | internal/runtimecfg/runtimecfg.go:137-150 | until it rests the writer always has a next step, which lessens its work |
| SaveWriter.WriterCatchesUp | internal/runtimecfg/runtimecfg.go:111-150 | left alone, from any reachable state the writer comes to rest, with the latest state on disk if and only if no failed write is outstanding: none failed last, or newer data is pending or being written |
| ConvPool.NextTurnFindsIt | internal/convpool/pool.go:106-132 | what is checked in after a turn is what the next request looks up, whatever follows and however the history is written down |
| ConvPool.RepeatedHistoryFindsIt | internal/convpool/pool.go:106-132 | in particular for a repeated history and any next turn |
| ConvPool.TextPartsReadAsText | internal/convpool/pool.go:55-76 | parts of text have the canonical form of the one string they join to, which is that string |
| ConvPool.TextIsSaid | internal/convpool/pool.go:55-76 | a string reads as itself, and parts of text as their texts end to end |
| ConvPool.OtherContentIsJson | internal/convpool/pool.go:55-76 | content that is neither text nor parts reads as its JSON |
| ConvPool.ReadsTheSame | internal/convpool/pool.go:55-89 | histories with equal canonical forms have the same roles, and the same texts where they say texts, message by message; written as strings they are equal |
| ConvPool.NothingLookedUpIff | internal/convpool/pool.go:106-123 | nothing is looked up exactly for fewer than two messages or a history without an assistant |
| ConvPool.KeyedIsInjective | internal/convpool/pool.go:106-132 | different salts or canonical histories are never hashed from the same bytes |
| ConvPool.Pool.Checkout | internal/convpool/pool.go:135-154 | the entry leaves the pool, is returned if not expired, and was never handed out before |
| ConvPool.Pool.Checkin | internal/convpool/pool.go:157-186 | stored under its key; over capacity an entry with the oldest access goes |
| ConvPool.Pool.InvalidateFor | internal/convpool/pool.go:190-201 | exactly the entries of the account or port go, and are counted |
| ConvPool.Pool.FoundIsOnesOwn | internal/convpool/pool.go:106-154 | what a request finds was checked in by the same caller for a conversation with the same roles and texts |
| ConvPool.Serve | internal/convpool/pool.go:106-201 | over any sequence of look-ups, stores and invalidations: what is found is what an earlier turn of the same caller, message by message of the same roles and texts, stored within the last ten minutes, and no store is found twice |
| ConvPool.FindOldest | internal/convpool/pool.go:170-181 | an entry no other was accessed before |
| Json.ScopedBytesAreInjective | internal/cache/cache.go:144-153 | two scopes or two bodies are never hashed from the same bytes, even where the scope has NUL bytes |
| Lockout.Guard.CheckLockout | internal/dashapi/dashapi.go:125-145 | blocked exactly during a ban; an expired ban is cleared |
| Lockout.Guard.PurgeLockouts | internal/dashapi/dashapi.go:187-196 | exactly the idle entries without a ban go |
| Lockout.Guard.FailedAuthAttempt | internal/dashapi/dashapi.go:150-173 | idle entries go, the failure is counted, the fifth locks out for half an hour, and no other address is touched; a failure that finds a ban set counts towards the next one |
| Lockout.Guard.SuccessfulAuthAttempt | internal/dashapi/dashapi.go:176-183 | a success forgets the address |
| Lockout.Guard.HandleRequest | internal/dashapi/dashapi.go:208-263 | the gate comes before the comparison, and a request with no other in between never fails under a ban |
| Lockout.Guard.AtMostFiveInAnyHalfHour | internal/dashapi/dashapi.go:125-196 | however requests overlap, since its last success an address has at most five failures without a ban set in any half-open half hour, and a counter below five |
| Lockout.WindowHoldsFive | internal/dashapi/dashapi.go:125-196 | failures spread like this put at most five into any window |
| Lockout.ChargeAgrees | internal/dashapi/dashapi.go:150-173 | a counted failure keeps the entry in agreement with the log |
| Lockout.LateChargeAgrees | internal/dashapi/dashapi.go:150-173 | a failure that finds a ban set, running or over, never shortens it |
| Lockout.FifthFailureLocks | internal/dashapi/dashapi.go:150-196 | of five failures in a row the fifth and none before it locks the address out, until half an hour later; with four the entry is idle after two hours |
| Stats.Counters.Record | internal/stats/stats.go:205-307 | after every call each counter is the count over the whole log: totals, tokens, status histogram, models with their durations, tokens and last 200 durations, accounts, hours |
| Stats.Counters.RecordCircuitEvent | internal/stats/stats.go:170-200 | the counter of the event's kind rises, for this account only, and the tallies stay |
| Stats.Counters.Reset | internal/stats/stats.go:373-383 | everything is back at zero |
| Stats.Counters.EverythingAddsUp | internal/stats/stats.go:205-262 | in every reachable state total = success + errors = sum of the status histogram = sum over the models, with the same split per model and account, and at most 200 recent durations |
| Stats.Counters.BucketsStayWithin | internal/stats/stats.go:284-304 | at most 72 buckets of distinct hours, together never more than the total |
| Stats.TableAddsUp | internal/stats/stats.go:205-262 | counts by key, over keys that cover the log, sum to the total |
| Stats.TotalIs | internal/stats/stats.go:205-226 | the total counts the calls, those that succeeded and those that failed |
| Stats.TalliedIs | internal/stats/stats.go:205-262 | under a key a table counts as the total does, over the calls that fall under the key |
| Stats.KeysAre | internal/stats/stats.go:205-290 | the keys: model and hour, the status in decimal or "0", and at most eight characters of an account |
| Stats.HourAdded | internal/stats/stats.go:294-300 | dropping the oldest bucket keeps every count exact for hours never dropped |
| Stats.FindHour | internal/stats/stats.go:286-293 | the bucket of the hour, exactly when there is one |

## Left out

- HTTP routing, TLS and proxy transport, the OAuth and Codeium REST clients, the dashboard UI: I/O plumbing.
- `contentToString`, `ResolveToolChoice` and the tool preamble in `internal/toolemu`: message contents are taken as decoded strings.
- ChatStream.StreamChat: prose that one chunk brings in front of a call and prose it brings behind it are not told apart, as the parser hands both on together. What the client receives where redaction is not exact is only said byte by byte (`SanitizeBytes`).
- The white-space class of the path patterns includes the form feed, which `isPathBody` does not stop at; the model follows the code in both.
- ResponseCache.Cache.Reload: the start-up call over an empty index, which `cmd/windsurfapi/main.go:61` makes once and the comment on `Init` asks for; a second `Init` is not modelled.
- Respawn scheduling, the `stoppingAll` gate against late respawns, adopted entries and channel wake-ups in `internal/langserver`: signals are taken to be delivered, and exits may happen at any time.
- Clean-up of `.tmp` files at cache start-up, `Snapshot` and its hit-rate string.
- List elements of the cache are told apart by a number that is never reused, not by pointer.
- The order of files on disk when two `Set`s of one key race: the byte counter is the sum of the recorded sizes, which may then differ from the sizes on disk.
- Growth of `rpmHistory` below its capacity and the aliasing of the compacted slice with its old backing array beyond the kept prefix.
- `sort.Slice` itself: only its first element is used, and any minimum is allowed.
- Floating point in the ranking: the shares are compared exactly, by cross-multiplication.
- `ReportError`, `ReportSuccess`, `UpdateCapability`, tier inference, drought mode and account persistence in `internal/auth`.
- The request builders of `internal/windsurf` and `assemblePayload` in `internal/client`.
- Token usage in `pollCascade`, and its wording of errors.
- Non-2xx handling of the stream shims beyond the error text they emit.
- The mutators of `proxycfg`, `modelaccess` and `runtimecfg`: each is one `Mutate` step of the save-writer.
- Costs, percentiles, first and last times and the start-up clean-up of `internal/stats`.
- Retries over several accounts in `streamChat`: one attempt is modelled.
