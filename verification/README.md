# Verified model of the Fusion Gateway core

Fusion Gateway routes chat requests between a local inference engine and cloud backends. This
project models the parts of it where concurrency, incremental parsing and multi-step state make
mistakes easy, and proves what each of them promises.

| file | what it models |
|---|---|
| `LocalSlots.dfy` | the lock-free slot counter of the local engine and every request path that owns a slot, as a transition system over any number of goroutines, and the acquire loop run against arbitrary other goroutines |
| `SlotLeaks.dfy` | how the pump of a stream gives its slot back, and the one way in which it never does |
| `EngineGenerations.dfy` | the slot cap across rebuilds of the pool, which make a new counter each time |
| `StreamAggregation.dfy` | rebuilding a message from a stream of Anthropic events |
| `SseParsing.dfy` | the incremental line parsers for server-sent events |
| `StreamConversion.dfy` | Anthropic events to OpenAI chunks, as a relay and as a one-pass parser |
| `LoginLockout.dfy` | the admin login lockout, alone and with concurrent logins |
| `RequestConversion.dfy` | Anthropic conversations to OpenAI conversations |
| `ContentConversion.dfy` | content blocks to OpenAI content and back |
| `ProviderPool.dfy` | the rebuild of the provider pool |
| `StreamForwarding.dfy` | the stream forwarders and the gauge they share |
| `ConfigFile.dfy` | config file writes with an error or a crash at any system call |
| `ConfigRecovery.dfy` | config updates beside the recovery of a broken config, one system call at a time |
| `Framing.dfy` | length-prefixed frames |
| `SigningKeys.dfy` | the signing-key cache with concurrent callers |
| `AnthropicTypes.dfy`, `Prelude.dfy` | shared types; sums, concatenation and small sequence facts |

`dafny verify dfyconfig.toml` checks the whole project.

Code that changes state step by step is modelled by methods and classes, each proved against a
specification function or relation; what the source promises is then proved about that
specification. Where goroutines interleave, a step is one atomic operation, one critical section
or one channel operation, and the theorems range over all runs.

## What the code does that its comments do not say

- The comment on `tryInFlightAcquire` speaks of a compare-and-swap loop and of a bound of zero on
  the overshoot. The code loads, adds and backs out, and the counter does pass the cap for a
  moment. The number of granted slots does not (`LocalSlots.SlotSafety`).
- A refusal means that granted slots and callers about to back out together reach the cap
  (`LocalSlots.RejectionIffFull`). It can happen while every slot is free
  (`LocalSlots.RefusedWithAllSlotsFree`).
- A slot can be lost for good. `parseSSEStream` forwards [DONE] with a send that has no context
  arm (internal/adapter/openai_compatible.go:366), and the handler stops reading without draining
  (internal/server/chat_handlers.go:870-877, 911-914, 991-998). With the channel full the pump of
  a typed `StreamChat` then never returns and its deferred release never runs.
  `SlotLeaks.AllCanEndIff` says exactly when all slots can still come back,
  `SlotLeaks.ReleasesWithoutConsumerIff` when an abandoned stream is sure to give its slot back, and
  `SlotLeaks.EngineCanStarve` exhibits a run after which the local engine refuses everything.
- The cap is per engine object, and every rebuild makes a new object while requests stay with the old
  one, also requests that took their provider before the rebuild and acquire after it
  (internal/server/chat_handlers.go:274). Over several rebuilds the slots held on the one backend can
  reach the sum of the caps and no more (`EngineGenerations.HeldAtMostSumOfCaps`,
  `EngineGenerations.SumOfCapsAttained`); `EngineGenerations.MostHeld` is the exact maximum from any
  point on, and `EngineGenerations.CapBrokenIff` says when a rebuild can break the cap.
- A forwarder whose context is cancelled does not always end: its select may pass the chunk in hand on
  to a channel with room and then wait for the pump. `StreamForwarding.EndsWithoutConsumerIff` says
  exactly when it is sure to end.
- The comment on `maxLoginAttemptsMap` says that it caps the map of login attempts. It is only the size
  from which old entries are swept; recent ones stay, in any number (`LoginLockout.MapHasNoCap`,
  `LoginLockout.MapSizeBound`).
- The recovery of a broken config runs without the mutex of the config updates. It can move away and
  overwrite an update that was saved and reloaded without error, and since an update copies the config
  over the backup without looking at it, both files can end up broken
  (`ConfigRecovery.RecoveryCanBreakBothFiles`). A crash between the two renames of a recovery leaves no
  config, and then the next start fails although the backup is good
  (`ConfigRecovery.LoadWithRecovery`).
- `ReadFrame` bounds only the body by its timeout. The prefix is read without a deadline
  (internal/browser/framing.go:71-74), so an open and quiet peer holds the call for ever between
  two frames or within a prefix; `Framing.CutStreamReturnsIff` is the exact condition.
- A comment in `local_slot.go` says that the typed provider does not cap embedding and rerank
  calls. It does, and both are among the modelled request paths.
- The parsers test the size cap on the whole buffer after a read and before lines are cut, so near
  the cap the result depends on how the body is split into reads
  (`SseParsing.ReaderMattersAtTheCap`). `SseParsing.ChunkingIgnoredIff` says exactly for which
  bodies it does not; bodies without a newline-free stretch longer than 2^20 - 4096 bytes are among
  them.
- A content list with an image given by URL does not come back from the two content conversions, and
  an image without a source is dropped; `ContentConversion.ContentRoundTrip` says exactly which
  lists come back.
- With two or more backends typed fusion-mlx the engine role depends on the iteration order of a
  map; it is determined exactly when there is at most one (`ProviderPool.RoleDeterminedIff`).
- A failed rebuild of the pool leaves the backends visited before the error as new, unwrapped
  providers (`ProviderPool.Pool.InstallEnabled`). The next rebuild that succeeds repairs this.
- An error from `updateYAMLSection` does not always mean that the file is unchanged: when only the
  reload fails, the new bytes are in place (`ConfigFile.System.UpdateSection`).
- `WriteFrame` keeps the low 32 bits of the length and does not look at the reader's cap;
  `Framing.FrameRoundTripIff` says exactly which bodies come back.

## Model

| member | source | states |
|---|---|---|
| LocalSlots.SlotSafety | internal/adapter/fusion_mlx.go:122-144 | In every run of any number of requests the counter is granted slots plus requests about to back out, lies between zero and the number of requests, and granted slots never exceed a positive cap. |
| LocalSlots.StepKeepsInv | internal/adapter/fusion_mlx.go:122-144 | Every atomic step keeps the accounting: ownership of each slot by at most one of caller and pump, and the history that ties retries to the grants of others. |
| LocalSlots.RejectionIffFull | internal/adapter/fusion_mlx.go:127-131 | A load refuses exactly when granted slots and requests backing out reach the cap; with nobody backing out, exactly when full. |
| LocalSlots.RefusedWithAllSlotsFree | internal/adapter/fusion_mlx.go:127-142 | A concrete run with cap 1 in which a request is refused although no slot is owned. |
| LocalSlots.NoGrantKeepsRoom | internal/adapter/fusion_mlx.go:127-143 | As long as nobody is granted a slot, a counter below the cap stays below it, whatever increments and back-outs happen. |
| LocalSlots.OvershootImpliesOtherGrant | internal/adapter/fusion_mlx.go:127-143 | When an increment overshoots, some other request was granted a slot since this one loaded the counter. |
| LocalSlots.RetriesBoundedByOtherGrants | internal/adapter/fusion_mlx.go:127-143 | A request's retries never exceed the grants made to others since its first load. |
| LocalSlots.RunsTerminate | internal/adapter/fusion_mlx.go:127-143 | With n requests no run has more than n(3n + 7) steps that acquire, work or release, under any schedule and whatever the streams do. |
| LocalSlots.ReleasedExactlyOnce | internal/adapter/fusion_mlx.go:383-464 | On every way out of every request path, typed or through the wrapper, an acquired slot is released exactly once, and never without a grant. |
| LocalSlots.WhoReleases | internal/adapter/fusion_mlx.go:394-436 | When a stream succeeds the pump owns the slot and the caller releases nothing; on every other way out the return of the caller releases it. |
| LocalSlots.CounterReturnsToZero | internal/adapter/local_slot.go:56-105 | When all requests have ended the counter is back at its starting value. |
| LocalSlots.CancelChangesNothing | internal/adapter/fusion_mlx.go:778-780 | Removing a cancel step from any run leads to the same state. |
| LocalSlots.Provider.TryInFlightAcquire | internal/adapter/fusion_mlx.go:122-144 | The loop ends whatever other goroutines do between its atomic operations; the caller then owns exactly one slot, or owns none and has just seen the counter at a positive cap. |
| SlotLeaks.ReleasesWithoutConsumerIff | internal/adapter/openai_compatible.go:360-393 | The pump of a stream whose context is cancelled and whose consumer is gone gives its slot back under every schedule, exactly once, if and only if it is safe: not a typed StreamChat, or past its loop, or at [DONE] with room, or at a send with a full channel. |
| SlotLeaks.CanReleaseWithoutConsumer | internal/adapter/openai_compatible.go:360-393 | After a cancellation the pump has some way to release without its consumer if and only if it is not at the send of [DONE] with a full channel. |
| SlotLeaks.PumpRunsAreBounded | internal/adapter/openai_compatible.go:331-393 | The pump of an abandoned stream makes finitely many steps, with an explicit bound. |
| SlotLeaks.OnlyStreamChatLeaks | internal/adapter/fusion_mlx.go:516-578 | In every reachable state only a typed StreamChat stands at that send; StreamMessages and the wrapper never do. |
| SlotLeaks.LeakIsForever | internal/adapter/openai_compatible.go:360-368 | A pump at that send with a full channel and no consumer keeps its slot in every continuation, cancellation included. |
| SlotLeaks.NeverStuck | internal/adapter/fusion_mlx.go:383-464 | A request that has not ended and has not leaked has a step that brings its end nearer. |
| SlotLeaks.AllCanEndIff | internal/adapter/fusion_mlx.go:431-461 | From a reachable state all requests can still end if and only if no slot has leaked, and the counter is zero whenever they have. |
| SlotLeaks.StreamCanLeak | internal/server/chat_handlers.go:868-915 | Every fresh typed stream can be led to a leak by the steps of its own caller, pump, handler and context. |
| SlotLeaks.LeaksOnlyGrow | internal/adapter/openai_compatible.go:360-368 | The number of leaked slots never falls in any run. |
| SlotLeaks.StarvedForEver | internal/adapter/fusion_mlx.go:127-131 | Once as many slots have leaked as the cap allows, every load in every later run refuses its request. |
| SlotLeaks.EngineCanStarve | internal/adapter/fusion_mlx.go:383-464 | Under every positive cap there is a run that comes to that. |
| EngineGenerations.HeldAtMostSumOfCaps | internal/adapter/pool.go:183-294 | Over any number of rebuilds and all steps of all generations, the slots held on one backend never exceed the sum of the caps of its engine objects. |
| EngineGenerations.SumOfCapsAttained | internal/adapter/pool.go:183-294 | For every list of rebuilds there is a run in which they reach that sum. |
| EngineGenerations.ConfiguredLimitMeans | internal/adapter/fusion_mlx.go:66-72 | With a positive configured limit no run of a new engine holds more slots and some run holds that many, given the requests; without one all requests can hold a slot at once. |
| EngineGenerations.MostHeld | internal/adapter/fusion_mlx.go:122-144 | From any reachable fleet, over all interleavings of all generations, the slots held never exceed the sum of what each generation can reach, its undecided and holding requests up to its cap, and some run holds exactly that sum. |
| EngineGenerations.FillUp | internal/adapter/fusion_mlx.go:122-144 | One generation can come from any reachable state to hold all it can reach, through back-outs and retries. |
| EngineGenerations.CapBrokenIff | internal/adapter/pool.go:281-291 | After a rebuild, with enough requests to come, some interleaving of all generations holds more slots than the new cap if and only if a request of an earlier object holds a slot or is still at its acquire loop. |
| StreamAggregation.AggregateStreamEvents | internal/adapter/cloud_signed.go:262-426 | The imperative loop computes the specified outcome: the fold of the events before the first ending one, an upstream error, idle, cancelled, and the defaulted stop reason when the channel closes. |
| StreamAggregation.HandleEvent | internal/adapter/cloud_signed.go:307-392 | Each event changes response, blocks and input buffers as the specification's step does. |
| StreamAggregation.FlushBlock | internal/adapter/cloud_signed.go:270-278 | The list is padded with empty blocks up to the index and the block is stored there, with any buffered input of a tool_use block. |
| StreamAggregation.AggregateReturns | internal/adapter/cloud_signed.go:300-426 | For every list of events and every end of the channel: the error message, idle and cancelled outcomes, and a response whose id, model and role are those of the last message_start with a message, whose stop reason and sequence are those of the last message_delta that gives one, whose counts are the latest reports, with end_turn exactly when the channel closed and no reason was given. |
| StreamAggregation.HeadIsLatest | internal/adapter/cloud_signed.go:308-392 | The same for the head of the response after any events. |
| StreamAggregation.BlockCountIs | internal/adapter/cloud_signed.go:270-278 | The number of blocks is the largest started index and one, or zero. |
| StreamAggregation.TooEarlyIsIgnored | internal/adapter/cloud_signed.go:331-336 | A delta or stop for an index at which there is no block yet changes nothing. |
| StreamAggregation.LastStartDecides | internal/adapter/cloud_signed.go:321-330 | A new start of a tool_use block forgets what came before, text and collected input. |
| StreamAggregation.BlocksAreIndependent | internal/adapter/cloud_signed.go:321-369 | After any interleaving, block i and its buffer are what the block's own events alone build, and the empty block where there are none. |
| StreamAggregation.CellClosedForm | internal/adapter/cloud_signed.go:331-364 | A start and any deltas leave the initial content followed by the concatenated fragments of each kind. |
| StreamAggregation.InterleavingRebuildsBlocks | internal/adapter/cloud_signed.go:321-369 | Any interleaving of any fragmentation of a list of blocks, starts in any order, rebuilds exactly those blocks at their indices. |
| StreamAggregation.AggregateRoundTrip | internal/adapter/cloud_signed.go:262-395 | The same for the whole aggregation up to message_stop, whatever follows. |
| StreamAggregation.EncodeInterleaves | internal/adapter/cloud_signed.go:321-369 | Every list of blocks has such a rendering, so the round trip is about all messages. |
| StreamAggregation.EncodeThenAggregate | internal/adapter/cloud_signed.go:262-395 | Aggregating the encoding of a list of blocks gives the list back. |
| StreamAggregation.UsageIsLatestReport | internal/adapter/cloud_signed.go:308-386 | Each of the four counts is the latest value reported for it, a message_delta reporting input and cache counts only when positive. |
| StreamAggregation.ConvertedUsageIsLatest | internal/adapter/anthropic.go:701-711 | The converted prompt is the sum of the latest input, cache creation and cache read counts of the stream, the completion its latest output count, cached its latest cache read count, and the total their sum. |
| StreamAggregation.ConvertedUsageIsConsistent | internal/adapter/anthropic.go:701-711 | After any stream with nonnegative counts, cached is at most prompt and total is prompt plus completion. |
| SseParsing.WhatLinesCount | internal/adapter/openai_compatible.go:351-373 | A line is an item exactly when its trimmed form is the data prefix and a payload other than [DONE] that decodes, and ends the stream exactly when that payload is [DONE]. |
| SseParsing.TrimSplits | internal/adapter/openai_compatible.go:351-351 | Every line is its trimmed form between two runs of space characters, and the trimmed form neither begins nor ends with a space character. |
| SseParsing.TrimIsExact | internal/adapter/cloud_signed.go:125-125 | Whatever space characters stand around a line that neither begins nor ends with one, trimming gives that line. |
| SseParsing.SpacesAreUnicode | internal/adapter/bedrock.go:226-226 | The space characters are exactly the UTF-8 encodings of the Unicode white space code points. |
| SseParsing.BlanksDoNotMatter | internal/adapter/openai_compatible.go:351-373 | On a data line with any space characters around it, a carriage return for instance, the reader ends the stream on [DONE] and otherwise gives the item the payload decodes to, if any. |
| SseParsing.LinesAreTheBody | internal/adapter/openai_compatible.go:346-352 | The lines with their newlines, followed by the unfinished line, are the body, with no newline within them. |
| SseParsing.CutLines | internal/adapter/cloud_signed.go:120-149 | Cutting the lines of a buffer emits the items of its lines up to [DONE] or a refused send and leaves the unfinished line. |
| SseParsing.ParseStream | internal/adapter/openai_compatible.go:326-402 | The incremental loop refines the simple form: it emits the items of the lines of the accepted reads, in full or cut at a refused send, and ends for the stated reason; a [DONE] that the channel does not take is a send that never ends, with only the items emitted. |
| SseParsing.LinesAppend | internal/adapter/openai_compatible.go:330-352 | Lines of a body in two parts are the lines of the first part and those of its unfinished line followed by the second part. |
| SseParsing.ChunkingIgnoredIff | internal/adapter/openai_compatible.go:330-352 | What is emitted is the simple form for every split into reads of at most 4096 bytes if and only if every unfinished line that something to emit lies in or behind leaves room under the cap for the largest read that can follow. |
| SseParsing.ChunkingDoesNotMatter | internal/adapter/anthropic.go:547-603 | Corollary: if no stretch without a newline exceeds 2^20 - 4096 bytes, every split into reads of 0 to 4096 bytes emits the simple form of the whole body and none is cut off. |
| SseParsing.AlwaysAPrefix | internal/adapter/bedrock.go:201-257 | Whatever the reads, the cap and a refused send do, what is emitted is a prefix of the simple form. |
| SseParsing.BufferWithinCap | internal/adapter/openai_compatible.go:330-345 | Between reads the unfinished line is never longer than the cap. |
| SseParsing.BufferBounded | internal/adapter/bedrock.go:204-220 | The line buffer never exceeds 2^20 + 4096 bytes. |
| SseParsing.CleanCutOff | internal/adapter/cloud_signed.go:103-119 | A stretch of more than 2^20 bytes without a newline before [DONE] closes the stream, if no refused send did before; only items of the lines before it are emitted, in order. Holds for every parser and every point of refusal. |
| SseParsing.ChunkingMattersAtTheCap | internal/adapter/openai_compatible.go:330-345 | For any line reader, a body and two splits of it into reads, one emitting an item and one cut off before it. |
| SseParsing.ReaderMattersAtTheCap | internal/adapter/openai_compatible.go:330-373 | The same with the parsers' own line reader and one concrete JSON object as the payload. |
| StreamConversion.EventsToChunks | internal/adapter/cloud_signed.go:168-232 | The relay emits the specified chunks of the events before message_stop, cut at a refused send. |
| StreamConversion.ChunksTellTheEvents | internal/adapter/cloud_signed.go:178-229 | What both forms emit, for every list of events: one chunk for each text delta and each message_delta before the first message_stop, in order; each with the id of the last message_start before it, a text chunk with its index and text, a finish chunk with the finish reason and the latest output count as completion and total. |
| StreamConversion.TextOfEachIndex | internal/adapter/cloud_signed.go:186-200 | For every index the contents of the chunks are the texts of its deltas, one by one and concatenated. |
| StreamConversion.HandleEvent | internal/adapter/anthropic.go:476-535 | The event switch of the one-pass form carries id and tokens on and makes the chunk that the relay makes. |
| StreamConversion.ConvertLines | internal/adapter/anthropic.go:449-538 | One buffer converts to the chunks of its items and stops at [DONE], message_stop or a refused send. |
| StreamConversion.ParseAnthropicSse | internal/adapter/anthropic.go:430-545 | The one-pass form emits all chunks of the accepted reads, cut at a refused send. |
| StreamConversion.FusedEqualsTwoStage | internal/adapter/anthropic.go:430-545 | For the same reads without cancellation the one-pass and the two-stage form emit the same chunks. |
| StreamConversion.StagedIsAPrefix | internal/adapter/cloud_signed.go:100-232 | With both stages cut off at any point the two-stage form emits a prefix of that. |
| StreamConversion.ConvertAppend | internal/adapter/cloud_signed.go:168-232 | Conversion can be continued from the carried id and token count after any prefix without message_stop. |
| LoginLockout.AdminAuth.IsLockedOut | internal/admin/auth.go:124-142 | Locked exactly while the count is at the threshold and the lockout runs, with the remaining time; an expired lockout is deleted and nothing else changes. |
| LoginLockout.AdminAuth.RecordLoginFailure | internal/admin/auth.go:145-165 | The failure is counted, the lock armed at the threshold, and the map swept when full. |
| LoginLockout.AdminAuth.PruneLoginAttempts | internal/admin/auth.go:173-184 | The sweep, in any order of visits, removes exactly the stale entries, and only when the map is full. |
| LoginLockout.AdminAuth.RecordLoginSuccess | internal/admin/auth.go:187-194 | The history of the user is deleted and nothing else; what that means over runs is SuccessForgets. |
| LoginLockout.AdminAuth.HandleLogin | internal/admin/login.go:52-67 | Gate, check and record happen in that order, with the status and the new map of each outcome. |
| LoginLockout.EntryCountsFailures | internal/admin/auth.go:124-194 | In every concurrent run an entry counts exactly the failures of its user since a point at which it had none, with no success of the user and no expired lock found by one of its gates in between. |
| LoginLockout.LockedMeansFiveFailures | internal/admin/auth.go:124-165 | A locked user has failed five times since its last success and since the last gate that found an expired lock. |
| LoginLockout.SuccessForgets | internal/admin/auth.go:187-194 | After a success of a user, fewer than five failures of that user do not lock it. |
| LoginLockout.RateBound | internal/admin/auth.go:124-194 | Any stretch of a concurrent run shorter than 15 minutes, without a success and with at most p requests of the user between gate and record, records at most 4 + p failures, sweeps and expiry included. |
| LoginLockout.RateBoundAttained | internal/admin/auth.go:124-194 | For every positive p there is a run that reaches 4 + p. |
| LoginLockout.FailuresSpanTheLockout | internal/admin/auth.go:124-194 | With at most p requests between gate and record, two failures with more than 4 + p failures from one to the other and no success are at least 15 minutes apart. |
| LoginLockout.SixFailuresSpanTheLockout | internal/admin/login.go:52-67 | With one request at a time, the first and the sixth of six failures without a success are at least 15 minutes apart. |
| LoginLockout.ArmedLockHolds | internal/admin/auth.go:145-165 | After a failure that arms the lock, every gate within 15 minutes refuses the user, and requests in flight only drain. |
| LoginLockout.WindowStep | internal/admin/auth.go:124-194 | Every step of anybody keeps the invariant behind the rate bound. |
| LoginLockout.SizeAfterFailure | internal/admin/auth.go:145-184 | After a failure the map has all its entries below the threshold, and exactly the recent or locked ones above it. |
| LoginLockout.MapSizeBound | internal/admin/auth.go:167-184 | After any run that ends with a failure the map holds at most 2047 entries or as many as users failed within the 15 minutes before. |
| LoginLockout.MapHasNoCap | internal/admin/auth.go:167-184 | For every number there is a run after which the map has that many entries. |
| RequestConversion.ConvertAssistant | internal/adapter/anthropic.go:735-771 | Text blocks concatenate, tool uses become calls in order, the rest becomes content behind the text. |
| RequestConversion.ConvertUser | internal/adapter/anthropic.go:772-798 | One tool message per result, in order, then one user message with the rest; never an empty conversion. |
| RequestConversion.FlattenResult | internal/adapter/anthropic.go:827-856 | The string of a tool result: texts and placeholders of other items, one a line. |
| RequestConversion.ConvertRequest | internal/adapter/anthropic.go:726-803 | The conversation is the system message, if any, and the conversions of the messages in order. |
| RequestConversion.RequestIsShown | internal/adapter/anthropic.go:726-803 | The converted request in terms of the input alone: the system message with its text, and for each message in turn what shows it, for assistant, user and any other role. |
| RequestConversion.AssistantIsShown | internal/adapter/anthropic.go:735-771 | The calls are the tool_use blocks by position, id for id, name for name, input for arguments; the text is that of the text blocks by position, alone or as the first part in front of the parts of the other blocks. |
| RequestConversion.UserIsShown | internal/adapter/anthropic.go:772-798 | One tool message per tool_result block by position, with its id and its string, then the content of the other blocks, or an empty message when there is nothing. |
| RequestConversion.ResultIsShown | internal/adapter/anthropic.go:827-856 | The string of a result is the string itself, nothing, the JSON form, or the texts and placeholders of a list by position, joined by newlines. |
| RequestConversion.PairingIsKept | internal/adapter/anthropic.go:733-803 | If every tool use is answered by the next user message, every converted message with calls is directly followed by exactly one tool message per call id. |
| RequestConversion.NoOtherToolMessages | internal/adapter/anthropic.go:772-798 | If results stand only behind tool uses, no further tool message follows. |
| RequestConversion.RequestPairing | internal/adapter/anthropic.go:715-803 | Both for the whole request with its system message. |
| RequestConversion.OrderIsKept | internal/adapter/anthropic.go:733-803 | For every role, the messages of that role come out as the contributions of the input messages in their order, none lost or added: assistant messages with their text and calls, tool results, what stands beside the results, and other roles by themselves. |
| ContentConversion.BlocksToContent | internal/adapter/anthropic.go:914-954 | The loop builds the specified content: a string for no or one text block, the list of parts otherwise. |
| ContentConversion.ContentToBlocks | internal/adapter/anthropic.go:956-1011 | The loop builds the specified blocks of a string, a list of parts of any kind, nothing, or any other JSON value. |
| ContentConversion.ContentShowsBlocks | internal/adapter/anthropic.go:914-954 | The content is the empty string for no block, the text of a lone text block, and otherwise one part for each block that makes one, by position, field for field. |
| ContentConversion.BlocksReadContent | internal/adapter/anthropic.go:956-1011 | What any content is read as: one block for each part that is read, by position; a data URL gives the media type before the first semicolon and the data behind the first comma, any other URL is kept as it is, a string input is quoted and any other kept, and an unknown value becomes its JSON text. |
| ContentConversion.MediaTypeComesBack | internal/adapter/anthropic.go:972-978 | The media type read from a printed data URL is the printed one exactly when it contains no semicolon. |
| ContentConversion.DataComesBack | internal/adapter/anthropic.go:979-980 | The data read from a printed data URL is the printed data exactly when the media type contains no comma. |
| ContentConversion.ListOfBlocks | internal/adapter/anthropic.go:918-1003 | Inside a list, of any blocks, the list comes back unchanged exactly when every block survives, and never longer. |
| ContentConversion.ContentRoundTrip | internal/adapter/anthropic.go:914-1005 | Of all lists of blocks, a list comes back unchanged exactly when it is not a lone empty text and every block survives: texts, inline base64 images without a semicolon or comma in the media type, tool uses whose input is its own quoted form, tool results that are no errors. |
| ContentConversion.TextAndInlineImages | internal/adapter/anthropic.go:914-990 | Every list of text blocks and inline images comes back, but for a lone empty text. |
| ProviderPool.Pool.InstallEnabled | internal/adapter/pool.go:187-209 | Succeeds exactly when every enabled type is registered; on a failure the visited names hold new bare providers and the rest is untouched. |
| ProviderPool.Pool.DropStale | internal/adapter/pool.go:212-219 | Exactly the names that are gone or disabled are removed from both maps. |
| ProviderPool.Pool.WrapCloudProviders | internal/adapter/pool.go:232-239 | Exactly the non-local providers gain one layer of tracking. |
| ProviderPool.Pool.ResolveRole | internal/adapter/pool.go:247-294 | The engine role and the slot wrapper are those the configuration calls for. |
| ProviderPool.Pool.BuildProviders | internal/adapter/pool.go:183-311 | A successful rebuild leaves providers, backends and role as functions of the configuration alone, from any earlier state and for any order of map iteration. |
| ProviderPool.Pool.RebuildHistory | internal/adapter/pool.go:183-311 | The same after any history of rebuilds, failed ones included. |
| ProviderPool.Pool.GetFusionMlx | internal/adapter/pool.go:102-113 | A typed provider when there is one, the role otherwise. |
| ProviderPool.Pool.FusionMlxName | internal/adapter/pool.go:120-132 | Name and engine belong together, and are the role's when no provider is typed. |
| ProviderPool.WrappedExactlyOnce | internal/adapter/pool.go:232-291 | Every non-local provider is tracked exactly once and no local one is; the slot wrapper is on the shadow engine's provider only. |
| ProviderPool.CoreIsConfigured | internal/adapter/pool.go:199-208 | Under its wrappers a provider is the one of its own name, backend and type, and an engine has the configured limit when that is positive and none otherwise. |
| ProviderPool.SlotWrapperIff | internal/adapter/pool.go:247-291 | Which provider carries the slot wrapper, in terms of the configuration: no enabled fusion-mlx type, a local backend of another kind than the two services, and the conventional name or the first in the order of the characters. |
| ProviderPool.LocalKinds | internal/adapter/pool.go:94-100 | The three own types are local anywhere; of the others exactly those on a socket or a loopback host. |
| ProviderPool.LeqIsLexicographic | internal/adapter/pool.go:272-272 | The order of the sort is the lexicographic order of the characters. |
| ProviderPool.OneSlotWrapper | internal/adapter/pool.go:247-291 | At most one provider carries the slot wrapper, and one does exactly when no backend is typed fusion-mlx and there is a candidate. |
| ProviderPool.ShadowIsUnique | internal/adapter/pool.go:256-291 | Which backend that is does not depend on any order. |
| ProviderPool.RoleDeterminedIff | internal/adapter/pool.go:247-255 | The configuration determines the engine role exactly when at most one enabled backend is typed fusion-mlx. |
| ProviderPool.HeadIsLeast | internal/adapter/pool.go:272-287 | The first of the sorted candidate names is the least of them, however the map delivered them. |
| StreamForwarding.ForwardingSafety | internal/adapter/local_slot.go:77-105 | For any buffer sizes and any interleaving, what was received followed by what is in flight is a prefix of what was sent, all of it unless the context was cancelled; the release has happened once if the forwarder has ended and not at all before. |
| StreamForwarding.StepKeepsInv | internal/adapter/cloud_tracking.go:116-135 | Every step of pump, forwarder, consumer and context keeps order, conservation and the release count. |
| StreamForwarding.EverythingArrives | internal/adapter/local_slot.go:77-105 | A run without cancellation in which the pump closes and nothing more can happen has delivered everything, closed the outer channel and released once. |
| StreamForwarding.ClosedRunsAreBounded | internal/adapter/cloud_tracking.go:116-135 | Once the pump has closed, no schedule runs for ever. |
| StreamForwarding.QuietIffDrained | internal/adapter/cloud_tracking.go:116-135 | With the pump closed, a stream has no step left exactly when the consumer has drained the closed outer channel. |
| StreamForwarding.BlockedIff | internal/adapter/cloud_tracking.go:120-132 | Without a consumer, whatever the pump does, the forwarder cannot move by itself exactly when it waits for the pump or holds a chunk with the outer buffer full and the context live. |
| StreamForwarding.CanEndWithoutConsumer | internal/adapter/cloud_tracking.go:120-132 | After a cancellation the forwarder has some way to end by its own steps, the pump closed or not, if and only if it is not waiting for a pump with nothing to deliver; every such end has released once. |
| StreamForwarding.EndsWithoutConsumerIff | internal/adapter/local_slot.go:91-103 | After a cancellation the forwarder ends without its consumer and releases once under every schedule of its select, if and only if the pump has closed, or it has left the loop, or it has more chunks at hand than the outer channel takes. |
| StreamForwarding.OwnRunsAreBounded | internal/adapter/local_slot.go:91-103 | The forwarder alone makes finitely many steps, with an explicit bound. |
| StreamForwarding.GaugeCountsLiveStreams | internal/adapter/cloud_tracking.go:99-135 | In every run of any number of streams, setup errors included, the gauge is the number of streams that have not ended, never negative and zero when all have ended. |
| ConfigFile.System.Prepare | internal/admin/config_yaml.go:46-71 | On success a fresh temporary file holds all the bytes, synced; on an error what is left was asked to be removed; the named files are untouched. |
| ConfigFile.System.Install | internal/admin/config_yaml.go:82-85 | The rename replaces the target completely or not at all. |
| ConfigFile.System.BackupFile | internal/config/guard.go:45-61 | On success the bytes of the config also stand under the backup name; the config is never touched. |
| ConfigFile.System.AtomicWriteFile | internal/admin/config_yaml.go:46-87 | On success the config holds the new bytes, synced, and the backup the old ones; on an error the old file is in place and every temporary file left was asked to be removed; after a crash the config is the old or the new file. |
| ConfigFile.System.ValidateAndWrite | internal/admin/config_yaml.go:110-121 | Nothing on the disk changes unless the document marshals and validates. |
| ConfigFile.System.UpdateSection | internal/admin/config_yaml.go:126-165 | Each outcome says exactly what the config file holds; validity of the config, and soundness of the config file alone and of both files, are kept through errors and crashes at any call. |
| ConfigFile.System.RunMutations | internal/admin/config_yaml.go:126-165 | After any sequence of mutations, from any disk, the config holds the bytes that the successful mutations produced in order, a crash leaves the last of them done or not done, and a config that was valid or sound still is, with nothing asked of the backup. |
| ConfigFile.WrittenKeepsSound | internal/admin/config_yaml.go:72-85 | A backup followed by a replacement with valid bytes keeps the config valid, every version of the config synced and valid, and the same of both files together. |
| ConfigFile.SoundSurvives | internal/admin/config_yaml.go:42-45 | Whatever can be read under the name of a sound file, even after a power loss, is valid. |
| ConfigRecovery.RunKeepsValid | internal/config/guard.go:166-196 | Over all interleavings of any number of updates and recoveries, with failures and crashes at any call, both files hold only valid bytes as long as every edit by hand is valid. |
| ConfigRecovery.MissingOnlyInRecovery | internal/config/guard.go:102-111 | The config is missing only between the two renames of a recovery or after one whose restore failed. |
| ConfigRecovery.SavedStaysIff | internal/config/guard.go:166-196 | The config keeps the bytes it holds in every run of the recoveries if and only if none is under way that judged an earlier config, and the bytes load or no backup does. |
| ConfigRecovery.RecoveryCanBreakBothFiles | internal/config/guard.go:45-61 | A run in which a saved and reloaded update is replaced by bytes that do not load and neither file loads at the end. |
| ConfigRecovery.LoadWithRecovery | internal/config/guard.go:117-160 | A start fails exactly when the config does not load and either the backup does not load or there is no config to move away; otherwise it runs with the config or the backup. |
| Framing.Connection.WriteFrame | internal/browser/framing.go:41-55 | A successful call writes the encoding of the body; a failed one has written the part of it that the peer accepted, or nothing if the value did not marshal. |
| Framing.Connection.ReadFrame | internal/browser/framing.go:63-118 | Result and remaining bytes are those of the specified decoding, with the default cap, the empty, oversize, short and timeout cases, and the calls that never return on an open and quiet peer. |
| Framing.Connection.WriteFrames | internal/browser/framing.go:41-55 | Repeated writes put the concatenated encodings on the stream, or as much of them as the peer accepted. |
| Framing.Connection.ReadFrames | internal/browser/framing.go:63-118 | Repeated reads return what the recursive decoding of the stream returns, with the way the last call ends. |
| Framing.PrefixHoldsLength | internal/browser/framing.go:46-47 | The prefix denotes the length modulo 2^32. |
| Framing.BigEndian | internal/browser/framing.go:75-75 | The most significant byte of the prefix comes first. |
| Framing.OversizeIff | internal/browser/framing.go:63-84 | A positive limit refuses exactly the announced lengths above it, a limit that is not positive exactly those above 8388608, and zero is refused as empty. |
| Framing.FrameRoundTripIff | internal/browser/framing.go:41-92 | A frame followed by anything reads back, leaving exactly that, if and only if its length is from 1 to the cap and below 2^32. |
| Framing.StreamRoundTrip | internal/browser/framing.go:41-92 | A stream of such frames reads back as its bodies in order, with nothing left over; the next call reports the end if the peer closed and waits for ever if not. |
| Framing.CutStream | internal/browser/framing.go:71-118 | A stream cut anywhere reads back as the frames that came whole, and the next call ends as the bytes left behind them and the peer determine. |
| Framing.CutStreamReturnsIff | internal/browser/framing.go:71-118 | That call returns an error if and only if the peer closed, or the connection supports deadlines and at least a prefix is left; otherwise it waits with exactly the bytes left. The end is the clean one exactly when the cut falls between frames. |
| Framing.WholeIsMaximal | internal/browser/framing.go:41-92 | The whole frames in those statements are the most whose encodings fit before the cut, and the bytes left are the rest. |
| Framing.CleanStreamIsAnEncoding | internal/browser/framing.go:63-92 | Only the encoding of the returned bodies reads cleanly to the end. |
| SigningKeys.SigningCache.DeriveSigningKey | internal/adapter/bedrock.go:385-414 | The key is the four-step chain for the date; a hit changes nothing and a miss leaves a pruned cache with the date in it. |
| SigningKeys.SigningCache.Store | internal/adapter/bedrock.go:401-411 | The store and sweep, in any order of visits, keep the new entry and exactly the old ones that are not stale beside it. |
| SigningKeys.ChainIsAFold | internal/adapter/bedrock.go:396-400 | The derived key is the left fold of the HMAC over date, region, service and the fixed last element from the prefixed secret. |
| SigningKeys.StoreKeepsIff | internal/adapter/bedrock.go:401-430 | A store leaves the new entry and of the others exactly the well-formed dates not before it, each with its key. |
| SigningKeys.CacheAgreesWithDerivation | internal/adapter/bedrock.go:385-430 | In every run of concurrent callers every returned key and every entry is the chain for its date, and no malformed or earlier entry stands beside the latest well-formed stored date. |
| SigningKeys.CacheStaysSmall | internal/adapter/bedrock.go:403-430 | The cache holds at most one entry for each day from the latest stored date to the latest date requested. |

## Left out

- HTTP calls, headers, transports, credentials and environment reading, logging and metrics: input and output around the modelled code.
- JSON, YAML, bcrypt, HMAC and date parsing: arbitrary functions, or the outcome of the call is an input. Config validation and reloading likewise.
- The inner pump behind a forwarder, which can stay at the send of [DONE] after the forwarder has given up: its goroutine is lost, but no slot and no gauge.
- Time: the clock readings of the lockout are inputs that never go back; idle timers and read deadlines appear only as the outcome they cause.
- The width of the 64-bit slot counter: the model's integers are unbounded, and the counter is proved to stay at or below the number of requests.
- Negative block indices in the aggregation, which the source does not guard against: an index is a natural number.
- The creation time of a stream chunk.
- The text, tool calls and stop reason of `AnthropicToOpenAI`, the flattening of a system prompt given as a list, tool definitions and tool choice: field-by-field copies.
- `OpenAIToAnthropic`: it drops tool calls, so no round trip of whole requests holds.
- SseParsing.AlwaysAPrefix: claims a prefix for the Bedrock parser and no equality, because the source drops the stream when its channel is full. Decoding a Bedrock payload is the decoder parameter.
- SseParsing.ParseStream: a body is the list of the reads it delivers; a read error and the end of the file both end that list.
- SlotLeaks.NeverStuck: the body of a stream may end at any read; what makes it end, such as the watcher that closes it on cancellation, is not modelled.
- LocalSlots.ReleasedExactlyOnce: the number of fallible stages of each request path is fixed by the path; what a stage does is not modelled.
- StreamForwarding.GaugeCountsLiveStreams: the outcome recorder of the cloud tracker and its unary calls, which increment and decrement around one call, are not modelled.
- ProviderPool.Pool.BuildProviders: the refresh of the engine's model set at the end of a rebuild is a network call and is left out. The pool's mutex makes a rebuild one step.
- ConfigFile.System.RunMutations: is about updates alone; the config mutex makes an update one step. Recoveries do not take that mutex, and what they do between and within updates is in `ConfigRecovery`, which leaves power losses out.
- ConfigFile.System.UpdateSection: Permission bits are not modelled. The directory is never synced by the source, so a power loss may bring an older complete version back; the model keeps those versions.
- The idle garbage-collection queue, health and model refresh of the local engine, routing, breakers, quotas and the vendor adapters.
