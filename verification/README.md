# Verified model of crazeeval's proxy and craze-fake-agent's turn runner

crazeeval runs coding agents against paid model providers. A proxy stands between each agent
and the provider. It keeps spending under a cap that several processes share through one log
file, hides provider keys from whatever goes back to the agent, and journals every exchange.
Judging and reporting read those journals afterwards. craze-fake-agent is the scripted agent the
client is developed against; its queue of prompts is worked off by a few goroutines under one
mutex. This project models these parts in Dafny and proves what they promise.

| file | what it models | main results |
|---|---|---|
| `Common.dfy` | optional values, least and greatest | |
| `Pricing.dfy` | prices, cost, reservation | `CostWithinEstimate`, `EstimateReached` |
| `InputBounds.dfy`, `Json.dfy` | output limits, requests whose bytes do not bound their input, keys in decoded JSON | the methods' own contracts, `NoReasonIffClean` |
| `LedgerLog.dfy`, `LedgerMeaning.dfy`, `Ledger.dfy`, `Budget.dfy` | the shared log and what it comes to, one process's ledger, many processes that may die at any byte | `AdmittedWhen`, `ReadsBack`, `GrantedNeverPassCap`, `RunExposureBounded`, `ViewsAgree`, `FinishTotal`, `FinishCanRaise` |
| `Bytes.dfy`, `KeyScan.dfy`, `Redactor.dfy`, `RedactorCount.dfy` | scanning and hiding keys chunk by chunk, and the count of redactions | `NoKeyLeaves`, `CleanStreamUnchanged` |
| `RedactorForms.dfy` | when the redactor's output depends on the chunks | `ChunksNeverMatterIff` |
| `Exchange.dfy` | the bounded queue to the harness | `AnyInterleaving`, `HandlerLeaves`, `FlagsTell`, `DeliveredWhole` |
| `SseFraming.dfy`, `SseParser.dfy`, `SseWire.dfy`, `SseDropped.dfy` | the event stream parser, from the sender's side too, and what it lets go | `AnyChunking`, `WhatIsWrittenIsKept`, `NothingGoesUncounted` |
| `UsageFolding.dfy`, `MessagesUsage.dfy` | the usage read from the events kept, and what it bills | `CountsAreLast`, `FoldingKeepsUsageIff`, `StreamBills` |
| `Journal.dfy` | the capture journal and its assembly | `RoundTrip`, `AnyPrefix` |
| `TurnServer.dfy`, `TurnRuns.dfy`, `TurnOutcomes.dfy`, `TurnMessages.dfy` | the turn queue: its mutex sections, every interleaving of its goroutines, what replies say, what becomes of interjections and of every message | `Section`, `OneAtATime`, `InArrivalOrder`, `CancelledBeforeStart`, `QuiescentAnswered`, `SchedulesEnd`, `NeverStuck`, `ReplyTellsHowFar`, `NoneLeftAtRest`, `HeldAreCancelled` |
| `Reach.dfy` | the memoised call-graph walk of the shared-helper check | `AnyQueries`, `ExactIffNoCycle` |
| `Sampler.dfy` | round-robin choice of calibration pairs | `DrawIsFair` |
| `Stamping.dfy` | stamping older verdicts while others append | `StampedWhen`, `NoAppendLost`, `SecondPassStampsNothing` |
| `WinRates.dfy` | the Wilson interval and the win matrix | `WilsonIsScoreTest`, `CellCounts`, `IntervalsMirror` |

Where the original changes state, the model does: its objects are classes whose methods are proved
against functions on values, and its loops are loops. The functions are then what the lemmas are
about. Concurrent parts are state machines: a step is one section under the lock (or one event of
an event loop), and a statement about a run holds for every order of steps.

Money and proportions are reals. Bytes are characters with the byte's value. A log line is a
sequence of byte cells that parses only when it is all there, so a crash is a prefix of an append.

Five properties the code might be thought to have hold only under a condition. Each condition is
exact, and each comes with an input that fails:

- `reach` (checks.py) remembers answers that were computed while some functions were still being
  visited. `ExactIffNoCycle`: its answers are exact, for all markers and all orders of asking, if
  and only if no two functions call each other, directly or through others. On a cycle
  `CycleMisses` gives the questions. What it does answer is always sound (`AnyQueries`), so a
  helper it lists is one.
- A settlement lowers the ledger's total, except that it also ends a line torn just before its
  newline. `FinishTotal`: the total does not rise if and only if that line reserves no more than
  the settlement gives back, and it changes by exactly the difference. `FinishCanRaise` is a run
  that ends in such a rise. The caps still hold, for they are stated of granted reservations.
- The redactor never lets a key form out, but what goes out in its place can depend on the chunks
  (`NestedFormsDependOnChunks`). `ChunksNeverMatterIff`: it is the whole response with the forms
  replaced, for all responses and chunks, if and only if no form can end inside one replaced before
  it, forms that contain an earlier one aside.
- Past its limits the parser folds the deltas of a Messages stream into one slot
  (`ByteLimitLosesUsage` is a stream it misreads). `FoldingKeepsUsageIff`: the usage read back is
  the stream's, whatever the deltas report, if and only if the start's usage never came or no
  delta is folded while another is kept behind the slot. Past the limit on the number of events
  alone that never happens (`CountLimitInOrder`).
- An interjection acknowledged need not reach a turn. Every one is accounted for
  (`InterjectionsAccounted`, `NoneLeftAtRest`): said by a turn, become a fallback turn, dropped with a
  turn that was cancelled, or lost. `DroppedAndLost`: it is lost if and only if the goroutine that
  took it finds a fallback turn on; `InterjectionLost` is a run of two interjections in which one is.

Where documentation and code differ the model follows the code: the docstring of `_accounting`
speaks of events kept past any bound, while the parser keeps one per type.

## Model

| member | source | states |
|---|---|---|
| Pricing.CostWithinEstimate | eval/crazeeval/pricing.py:180-200 | for non-negative prices, any cached and cache-write split and either context tier, input within the body's bytes and output within the limit cost at most the estimate, at charged and at list prices, and so at most the reservations |
| Pricing.TierCovered | eval/crazeeval/pricing.py:305-313 | the rates a prompt within the body can fall in are at most the dearest rates the estimate looks at |
| Pricing.SplitCovered | eval/crazeeval/pricing.py:191-194 | however a prompt splits into uncached, cached and written parts, its charge is at most all of it at the dearest input rate |
| Pricing.TierBilled | eval/crazeeval/pricing.py:180-198 | a prompt over the threshold costs what the long tier's own price alone says, one at or under it what the base price alone says |
| Pricing.CountsClamped | eval/crazeeval/pricing.py:191-194 | negative counts are none, more cached than the prompt is all of it, more written than is left is the rest |
| Pricing.OneTokenMore | eval/crazeeval/pricing.py:188-200 | within a tier one more output or uncached token adds its own rate over a million, charged or list |
| Pricing.OneTokenCached | eval/crazeeval/pricing.py:188-200 | a token billed as read from or written to the cache changes the cost by the difference of the rates |
| Pricing.EstimateReached | eval/crazeeval/pricing.py:298-330 | some usage within the bounds costs all that is reserved, on either side of the threshold, when the long tier is the dearer |
| InputBounds.RequestMaxTokens | eval/crazeeval/pricing.py:215-227 | the largest limit named under any field, the default when none is, an error exactly when a present one is not a positive integer |
| InputBounds.UnboundedInput | eval/crazeeval/pricing.py:245-295 | the stack finds nothing exactly when no top-level trigger holds and no flagged object can be reached in messages, input or system outside call blocks; a reason it gives is one of theirs |
| InputBounds.FlaggedWhen | eval/crazeeval/pricing.py:277-293 | an object is flagged exactly when it names content by url, file or file id, is a base64 document or a file block, or an image that is no data URL; or its type raises |
| InputBounds.NoReasonIffClean | eval/crazeeval/pricing.py:269-295 | walking a tree finds a reason exactly when some path outside call blocks leads to a flagged object |
| JsonKeys.JsonContainsKey | eval/crazeeval/keys.py:120-135 | true exactly when some path leads to a string, a value or a field's name, that holds a key form |
| KeyScan.ContainsKey | eval/crazeeval/keys.py:112-114 | true exactly when some form occurs in the bytes |
| KeyScan.DataHasKey | eval/crazeeval/keys.py:142-166 | for every sequence of chunk sizes, a hit exactly when the raw bytes or, of a gzip, the whole decompressed stream hold a form |
| KeyScan.TailSuffices | eval/crazeeval/keys.py:155-163 | a form across a seam is in the last (longest form - 1) bytes plus the next chunk |
| LedgerLog.ViewAfterAppend | eval/crazeeval/ledger.py:133-143 | an append is seen as the torn end before it, closed as a line of its own, then its record |
| LedgerLog.TornAppend | eval/crazeeval/ledger.py:135-141 | an append cut at any byte leaves the log as it was, or with the torn end closed and at most a torn or newline-less record behind it, or whole |
| LedgerLog.LinesConcat | eval/crazeeval/ledger.py:105-121 | reading on from a line break sees the lines of what follows |
| LedgerMeaning.ReadsBack | eval/crazeeval/ledger.py:105-143 | a log of whole appends reads back as the last reservation and the last settlement of each id written, ids in the order they first came, nothing torn |
| LedgerMeaning.LinesAreTheLog | eval/crazeeval/ledger.py:105-114 | the lines and the unterminated end together are the log, cut at its newlines |
| LedgerMeaning.TornIsCounted | eval/crazeeval/ledger.py:114-120 | the torn count is the number of lines that are not empty and do not parse |
| LedgerMeaning.SumsAreTotals | eval/crazeeval/ledger.py:147-177 | the ledger's sums are the totals of what each id owes, over all ids, the run's, and those of it that settled; the open count is the number of the others |
| LedgerMeaning.AdmittedWhen | eval/crazeeval/ledger.py:229-248 | a budget stop exactly over the cap; granted exactly when within it, the run's settled charges are below the run cap and fewer than four of its ids are open; else capped |
| LedgerMeaning.NothingSpent | eval/crazeeval/ledger.py:232-241 | a run that has settled nothing is held only to the cap and to four open requests, however much those reserved |
| Ledgers.Ledger.constructor | eval/crazeeval/ledger.py:68-88 | a new process's view is the fold of the log it opened |
| Ledgers.Ledger.Sync | eval/crazeeval/ledger.py:105-121 | after it the process's view is the fold of all the log's whole lines |
| Ledgers.Ledger.Apply | eval/crazeeval/ledger.py:123-131 | a record sets its id's reserve or settle part and keeps insertion order; one without an id changes nothing |
| Ledgers.Ledger.Append | eval/crazeeval/ledger.py:133-143 | the file grows by one line, after a newline when the last line was torn |
| Ledgers.Ledger.Totals | eval/crazeeval/ledger.py:163-177 | the four sums over the entries: everyone's, the run's, its settled part, its open count |
| Ledgers.Ledger.Admit | eval/crazeeval/ledger.py:218-269 | of the whole log: a budget stop exactly when what all ids owe and the amount pass the cap; granted exactly when within it, what the run settled is below the run cap and fewer than four of its ids are open; the totals it reports are those before it; the file grows by the reserve line exactly on admission; the process is in step with the file |
| Ledgers.Ledger.Settle | eval/crazeeval/ledger.py:271-302 | charges the cost when usage and cost came, else the reservation; appends exactly that line |
| Budget.NextKeepsInv | eval/crazeeval/ledger.py:96-143 | every step of any process, whole or cut at any byte, keeps the invariant of log, views and grants |
| Budget.GrantedNeverPassCap | eval/crazeeval/ledger.py:229-269 | in every run, with crashes at any byte, the charges of all granted reservations never pass the cap, each between nothing and what it reserved |
| Budget.RunExposureBounded | eval/crazeeval/ledger.py:234-245 | a run's settled charges and open reservations stay strictly below its cap plus four times its largest granted reservation, and it never has more than four open |
| Budget.ViewsAgree | eval/crazeeval/ledger.py:105-121 | however syncs and appends interleave, each process's view is the fold of the whole lines of the part of the log it has read, and of all the log's whole lines once it reads on |
| Budget.StepLeavesSynced | eval/crazeeval/ledger.py:68-121 | a process that opened, read, admitted or settled has the view of the whole log |
| Budget.ResyncIsFold | eval/crazeeval/ledger.py:105-121 | reading on from an offset gives the same view as reading from the start |
| Budget.SettlesWithinReservation | eval/crazeeval/proxy.py:683-689 | a settlement under the documented billing charges between nothing and the reservation |
| Budget.FinishTotal | eval/crazeeval/ledger.py:280-302 | the total after a settlement, exactly: less the reservation's excess over the cost when usage came, plus the torn line it ends; so it does not rise if and only if that line reserves no more than is given back, and never when nothing was torn |
| Budget.CrashThenFinish | eval/crazeeval/ledger.py:133-143 | wherever one process may reserve while another may settle an open grant: the first dies just before its newline, the second settles without usage, and the total has risen by the first's reservation |
| Budget.FinishCanRaise | eval/crazeeval/ledger.py:133-143 | a run of two processes, caps of 10, that comes to such a state, and the settlement that raises the total |
| Redaction.Redactor.ReplaceAll | eval/crazeeval/proxy.py:140-145 | every form replaced in turn, and as many redactions counted as replacements made |
| Redaction.Redactor.Feed | eval/crazeeval/proxy.py:147-156 | what goes out and what is held are those of the specified step |
| Redaction.Redactor.Flush | eval/crazeeval/proxy.py:158-160 | the held tail goes out replaced and nothing stays held |
| Redaction.Relay | eval/crazeeval/proxy.py:559-567 | the relay loop writes the concatenated outputs and the flush; once the harness is gone, nothing more |
| Redaction.NoKeyLeaves | eval/crazeeval/proxy.py:131-160 | for every chunking, what is relayed holds no key form, when no form has an angle bracket or occurs in the placeholder |
| Redaction.HeldIsAStart | eval/crazeeval/proxy.py:149-155 | the held tail is always the start of some form, and not all of it |
| Redaction.CleanStreamUnchanged | eval/crazeeval/proxy.py:147-160 | a stream holding no form passes through byte for byte, for every chunking |
| Redaction.OneFormAnyChunking | eval/crazeeval/proxy.py:147-160 | with one form, even one that occurs in the placeholder, the relayed bytes are the whole stream with it replaced, for every chunking |
| Redaction.NestedFormsDependOnChunks | eval/crazeeval/keys.py:80-89 | an input on which a form inside another makes the output depend on the chunks |
| Redaction.ReplaceKeepsAbsent | eval/crazeeval/proxy.py:141-144 | replacing one form brings in no other |
| Redaction.CutIsFinal | eval/crazeeval/proxy.py:147-156 | with one form, what goes out would not change however the stream goes on |
| RedactionCount.RedactionsAreThePlaceholders | eval/crazeeval/proxy.py:140-145 | the redactions counted are the placeholders put in, told by their brackets |
| FormChunking.ChunksNeverMatterIff | eval/crazeeval/keys.py:76-89 | for any number of forms without angle brackets or a place in the placeholder: the relayed bytes are the whole stream with the forms replaced, for all streams and chunkings, if and only if no form can end inside one replaced before it, forms containing an earlier one aside |
| FormChunking.IndependentAnyChunking | eval/crazeeval/proxy.py:140-160 | for such forms, any stream and any chunking, the relayed bytes are the whole stream with every form replaced in turn |
| FormChunking.DependentDiffers | eval/crazeeval/proxy.py:147-156 | from any two forms of which the later can end inside the earlier, chunks whose relayed bytes are not the stream replaced |
| FormChunking.PairCommutes | eval/crazeeval/proxy.py:141-144 | replacing a later form early, in what is there already, changes nothing that an earlier form would have hidden |
| Exchanges.Exchange.OfferChunk | eval/crazeeval/proxy.py:186-196 | a chunk over the limit gives the harness up, one to a gone harness is dropped, any other is queued and counted |
| Exchanges.Exchange.TakeItem | eval/crazeeval/proxy.py:198-202 | takes the oldest item and uncounts its bytes |
| Exchanges.Exchange.GiveUp | eval/crazeeval/proxy.py:204-216 | empties the queue but for one end marker, once |
| Exchanges.Exchange.Finish | eval/crazeeval/proxy.py:629-635 | an end marker follows whatever is queued |
| Exchanges.AnyInterleaving | eval/crazeeval/proxy.py:166-216 | in every interleaving the count is the queue's bytes and within the limit, what was taken is a prefix of what was offered, a gone harness's queue holds only end markers, and a waiting handler has something to take once the harness is gone or the upstream ended |
| Exchanges.FlagsTell | eval/crazeeval/proxy.py:186-216 | in every interleaving: gone exactly if the harness hung up or a chunk did not fit, stalled exactly if a chunk did not fit or the handler found it so; the peak is the most that was ever queued |
| Exchanges.HandlerLeaves | eval/crazeeval/proxy.py:554-557 | once the harness is gone or the upstream ended, the handler leaves after at most as many takes as items are queued |
| Exchanges.DeliveredWhole | eval/crazeeval/proxy.py:551-567 | a handler that left without the harness being given up took everything and wrote all of it, with independent forms the whole response with every form replaced; whatever happened, what went out is a start of that and holds no key form |
| SseFraming.FramesConcat | eval/crazeeval/capture.py:82-137 | the events of a longer stream are those of its start, then those of the unfinished end and what follows |
| SseFraming.RescanThree | eval/crazeeval/capture.py:130-134 | searching again from three bytes back finds the first separator of the whole buffer |
| SseFraming.SepLenIs | eval/crazeeval/capture.py:82 | a separator is two line feeds with or without a carriage return before each |
| SseFraming.AnyChunking | eval/crazeeval/capture.py:129-148 | for any stream and chunking the events handed on are the stream's in order but for some longer than the limit less three, and the buffer is within the limit |
| SseFraming.SmallEventsAnyChunking | eval/crazeeval/capture.py:129-148 | when every event is three bytes shorter than the limit the chunking does not matter |
| SseParsing.SseParser.Feed | eval/crazeeval/capture.py:129-148 | a chunk's events, found incrementally, are taken as the specification says, what is let go is counted, and no separator stays in the buffer |
| SseParsing.SseParser.BoundBuffer | eval/crazeeval/capture.py:143-148 | a buffer over the limit keeps its last three bytes, the rest counts as dropped, and its event is skipped and counted once |
| SseParsing.SseParser.Event | eval/crazeeval/capture.py:155-195 | data lines joined, decoded and stripped of Unicode white space for the done mark, which it sets; past a bound only accounting events, the others counted as dropped, one slot per type, message_delta folded |
| SseParsing.SseParser.Close | eval/crazeeval/capture.py:150-153 | the unfinished end counts as an event unless blank or being skipped |
| SseParsing.DataLinesOf | eval/crazeeval/capture.py:156-162 | the values of the data lines, one leading space dropped |
| SseParsing.ParseStream | eval/crazeeval/capture.py:129-153 | feeding chunk by chunk and closing leaves what the chunked specification says |
| SseParsing.ChunkingDoesNotMatter | eval/crazeeval/capture.py:129-195 | for streams whose events fit, the kept events, the done flag and the dropped counts are those of the whole stream, for every chunking |
| SseWire.WhatIsWrittenIsKept | eval/crazeeval/capture.py:129-195 | messages of any number of data and other lines, with either line end and in any chunks, come back as their texts joined by line feeds and parsed, in order; done is set exactly if one of them was the end mark, white space around it or not; nothing counts as dropped |
| SseWire.LastMayBeCut | eval/crazeeval/capture.py:150-153 | and so they do when the stream ends before the last one's empty line |
| SseDropped.NothingGoesUncounted | eval/crazeeval/capture.py:129-148 | of any stream in any chunks: an event not handed on counts as dropped once, with every byte of it but those still in the buffer, and what is kept is what taking the others leaves |
| SseDropped.KeptIsBounded | eval/crazeeval/capture.py:173-195 | whatever is streamed, the bytes kept are within their limit and the events within theirs and one for each type |
| SseDropped.PastTheLimits | eval/crazeeval/capture.py:85-87 | an event is kept while there is room; without, one with usage or of the seven types is kept still and loses none of another type, and any other is counted as dropped |
| UsageFolding.UsageAndModel | eval/crazeeval/capture.py:288-313 | for a Messages stream, the loop's counts are those of the start and the deltas overlaid, none unless both arrived |
| UsageFolding.CountsAreLast | eval/crazeeval/capture.py:288-313 | there is a usage exactly when a start and a delta reported; each count is what the last event to report it said, an absent or null count reporting nothing |
| UsageFolding.MergeByCount | eval/crazeeval/capture.py:90-99 | count by count: one reported replaces what was there, one absent or null keeps it |
| MessagesUsage.StreamBills | eval/crazeeval/pricing.py:158-176 | a stream bills a usage exactly when its start and a delta reported and input and output tokens were among the counts; the uncached prompt and the output are the last reported |
| MessagesUsage.BilledAsReported | eval/crazeeval/pricing.py:158-176 | counts as the API reports them are billed in the parts reported: uncached, read from the cache, written to it; thinking adds nothing to the output it is part of |
| UsageFolding.MergeAssociative | eval/crazeeval/capture.py:90-99 | overlaying counts is associative, whatever is missing or null |
| UsageFolding.FoldTallies | eval/crazeeval/capture.py:185-189 | a delta folded over a kept one tallies as the two in turn |
| UsageFolding.FoldingKeepsUsage | eval/crazeeval/capture.py:173-195 | past either limit, folding gives the same usage as keeping every event, as long as no delta is folded while another is kept behind the slot |
| UsageFolding.FoldingKeepsUsageIff | eval/crazeeval/capture.py:173-195 | of every Messages stream and all limits: the usage is that of every event, whatever the deltas report, if and only if the start's usage never came or no delta is folded while another is kept behind the slot |
| UsageFolding.CountLimitInOrder | eval/crazeeval/capture.py:173-195 | while the byte limit is not reached no delta is ever kept behind the slot |
| UsageFolding.ByteLimitLosesUsage | eval/crazeeval/capture.py:173-195 | a stream past the byte limit whose deltas report 1, 2 and 3 and of which 2 is read back |
| Journals.CaptureWriter.Write | eval/crazeeval/capture.py:45-55 | what would be read back grows by that line, before and after the run's end |
| Journals.CaptureWriter.WriteEvents | eval/crazeeval/capture.py:57-59 | the events go out in order in lines of at most 256 |
| Journals.CaptureWriter.Close | eval/crazeeval/capture.py:61-72 | closing moves the journal and changes nothing that is read back |
| Journals.Assemble | eval/crazeeval/capture.py:226-252 | one record per key in first-line order, each built from its own lines only, for any list of lines |
| Journals.RoundTrip | eval/crazeeval/capture.py:226-252 | for any interleaving of requests and refusals, each comes back as one record in order, start and end laid together, with exactly its own events in order |
| Journals.AnyPrefix | eval/crazeeval/capture.py:226-252 | a journal cut after any line is the journal of the run cut there, and gives exactly that run's records: an unfinished one has its start line's fields, a prefix of its events and is incomplete; a finished one is final |
| Journals.CutJournal | eval/crazeeval/capture.py:45-59 | any prefix of a run's journal is the journal of a run: the same operations up to there, the last one's batches cut short |
| Journals.BatchesAssemble | eval/crazeeval/capture.py:57-59 | assembling undoes the split into lines, and a request's stream touches no other record |
| Journals.BatchesFit | eval/crazeeval/capture.py:57-59 | a batch's lines carry its events in order, 256 to a line and the rest in the last |
| TurnSections.Server.BeginPrompt | cmd/craze-fake-agent/queue.go:111-130 | a prompt joins the queue's end under the next number; all held before it is overtaken |
| TurnSections.Server.CancelReq | cmd/craze-fake-agent/queue.go:148-156 | cancels that prompt and no other, once |
| TurnSections.Server.HeldPrompts | cmd/craze-fake-agent/queue.go:160-166 | the queued prompts and the running one |
| TurnSections.Server.Take | cmd/craze-fake-agent/queue.go:176-188 | the oldest prompt becomes the running one, or the runner stops when there is none or a fallback turn is on |
| TurnSections.Server.Kick | cmd/craze-fake-agent/queue.go:199-208 | starts a runner exactly when none is going |
| TurnSections.Server.EndTurn | cmd/craze-fake-agent/queue.go:300-324 | ends a turn and replies the first time only |
| TurnSections.Server.TakeStrandedText | cmd/craze-fake-agent/queue.go:454-467 | takes the pending text exactly when no turn, runner or fallback is there |
| TurnSections.Server.BeginFallback | cmd/craze-fake-agent/queue.go:472-487 | starts a fallback turn exactly when none is on |
| TurnSections.Server.EndFallback | cmd/craze-fake-agent/queue.go:489-500 | a fallback turn's end frees the session and changes nothing else |
| TurnSections.Server.AddInterjection | cmd/craze-fake-agent/queue.go:405-424 | an interjection waits behind those already waiting |
| TurnSections.Server.MergeInterjections | cmd/craze-fake-agent/queue.go:429-437 | what waits goes to the running turn in order, except under the fallback script |
| TurnSections.Server.TakeMerged | cmd/craze-fake-agent/queue.go:441-449 | the steps with what was merged between them, which is then cleared |
| TurnRuns.Section | cmd/craze-fake-agent/queue.go:174-500 | each move of a goroutine, run with the server's own methods, is exactly the state machine's move |
| TurnRuns.Receive | cmd/craze-fake-agent/server.go:561-592 | what the read loop does with a message, run with the server's own methods, is exactly the state machine's |
| TurnRuns.NextKeepsInv | cmd/craze-fake-agent/queue.go:111-324 | every move of the read loop, a runner, a fallback turn or an interjection keeps the invariant |
| TurnRuns.OneAtATime | cmd/craze-fake-agent/queue.go:174-208 | at most one runner and one fallback turn; a queue that is not empty has a runner, a fallback turn on, or a kick to come |
| TurnRuns.InArrivalOrder | cmd/craze-fake-agent/queue.go:174-196 | prompts start in arrival order, never while a fallback turn is on, and are answered in order, at most once |
| TurnRuns.CancelledBeforeStart | cmd/craze-fake-agent/queue.go:189-192 | a prompt cancelled before its turn starts never runs a step and is answered cancelled |
| TurnRuns.OnlyNewestUncancelled | cmd/craze-fake-agent/queue.go:132-139 | under long-turn, between messages, only the newest prompt held can be uncancelled |
| TurnRuns.SessionCancelLeavesNone | cmd/craze-fake-agent/server.go:656-676 | once a session/cancel is through, no prompt held is uncancelled |
| TurnRuns.QuiescentAnswered | cmd/craze-fake-agent/queue.go:174-208 | a session at rest has answered every prompt exactly once |
| TurnRuns.MoveDescends | cmd/craze-fake-agent/queue.go:174-324 | every move leaves less to do |
| TurnRuns.SchedulesEnd | cmd/craze-fake-agent/queue.go:174-324 | without new messages every schedule ends, within a bound |
| TurnRuns.NeverStuck | cmd/craze-fake-agent/queue.go:174-500 | until it is at rest some goroutine can go on |
| TurnOutcomes.ReplyTellsHowFar | cmd/craze-fake-agent/queue.go:213-245 | a prompt answered with its turn's end completed both steps; one answered cancelled was cancelled and did not |
| TurnOutcomes.InterjectionsAccounted | cmd/craze-fake-agent/queue.go:405-487 | in every interleaving each interjection acknowledged is, as often as it came, waiting, in the running turn, on its way, said, become a fallback turn, dropped or lost |
| TurnOutcomes.DroppedAndLost | cmd/craze-fake-agent/queue.go:300-309 | a turn starts with nothing merged; interjections are dropped only with a turn that was cancelled, and lost exactly when the goroutine that took them finds a fallback turn on |
| TurnOutcomes.NoneLeftAtRest | cmd/craze-fake-agent/queue.go:454-487 | a session at rest has no interjection waiting or merged: each was said, became a fallback turn, was dropped or was lost |
| TurnOutcomes.InterjectionLost | cmd/craze-fake-agent/queue.go:454-478 | a run in which two interjections are taken before either's fallback turn starts, and one is lost |
| TurnMessages.PromptsCounted | cmd/craze-fake-agent/queue.go:111-130 | prompts are numbered as they come, none left out |
| TurnMessages.InterjectionsNoted | cmd/craze-fake-agent/queue.go:405-424 | under the scripts that take them every interjection sent is noted, or about to be |
| TurnMessages.HeldAreCancelled | cmd/craze-fake-agent/queue.go:132-166 | every prompt held when a session/cancel comes, or under long-turn a prompt, is cancelled by the time the read loop is idle again |
| TurnMessages.NothingElseCancels | cmd/craze-fake-agent/queue.go:132-139 | under the other scripts, without a session/cancel no prompt is cancelled |
| TurnMessages.SafePoints | cmd/craze-fake-agent/queue.go:239-241 | after every step what is pending joins the turn, except under the fallback script, whose turns say none |
| TurnMessages.TakenWhenIdle | cmd/craze-fake-agent/queue.go:454-467 | pending text is taken exactly when no turn is running, no runner is going and no fallback turn is on |
| TurnMessages.OwnInterjection | cmd/craze-fake-agent/queue.go:255-273 | only a fallback script's turn strands an interjection of its own, and then ends with a fallback turn on |
| TurnMessages.FallbacksNumbered | cmd/craze-fake-agent/queue.go:472-487 | fallback turns are numbered as they start, one at a time |
| SharedHelpers.Checker.Reaches | eval/crazeeval/checks.py:236-245 | the recursive method with its memo computes the specified visit, on every call graph |
| SharedHelpers.AnyQueries | eval/crazeeval/checks.py:236-245 | whatever was asked before, an answer names only markers of reachable functions, and all of them where no cycle is reachable |
| SharedHelpers.ExactIffNoCycle | eval/crazeeval/checks.py:234-245 | for a call graph, answers are exact for all markers and query orders if and only if no two functions call each other |
| SharedHelpers.CycleMisses | eval/crazeeval/checks.py:234-245 | on any cycle, a marker and two questions whose second answer misses it |
| SharedHelpers.Checker.Helpers | eval/crazeeval/checks.py:249-253 | every helper listed is a function, no caller, that all callers call by the last part of its name and that refers to every marker; none that reaches no cycle is missed |
| SharedHelpers.Checker.Check | eval/crazeeval/checks.py:247-254 | passes only when the callers are there, name no marker, and a helper stands in for them; exactly then without cycles |
| Sampling.Group | eval/crazeeval/judging.py:385-387 | each (task, model) group holds exactly its own pairs, in order |
| Sampling.OwnInOrder | eval/crazeeval/judging.py:385-387 | each pair of a task and a model stands in their group behind as many as came before it |
| Sampling.FullRound | eval/crazeeval/judging.py:392-396 | while every group has pairs left, a round takes one from the end of each, in turn |
| Sampling.PickCalibrationPairs | eval/crazeeval/judging.py:381-397 | terminates with exactly the first n of the round-robin order, for every shuffle |
| Sampling.DrawIsFair | eval/crazeeval/judging.py:392-396 | min(n, all) draws, none more often than given, and a group with pairs left was drawn at most one time fewer than any other |
| Sampling.RoundsAreInput | eval/crazeeval/judging.py:392-396 | all the rounds together draw each pair exactly as often as it was given |
| Stamping.TaskCheck.IsUnchanged | eval/crazeeval/judging.py:194-206 | the cached fingerprint answers as a fresh one would; anything but a known string id is not unchanged |
| Stamping.StampRecord | eval/crazeeval/judging.py:224-236 | the class of a record by the order of the checks, and its stamp exactly when all pass |
| Stamping.StampLines | eval/crazeeval/judging.py:209-239 | in place, every line is stamped or kept as specified; the counts are those of the lines' classes |
| Stamping.StampedWhen | eval/crazeeval/judging.py:194-236 | a pass changes exactly the records without a task hash, judged under today's global hash, on a task known today and to the batch with the fingerprint the batch recorded; they get that task's hash |
| Stamping.CountsByFields | eval/crazeeval/judging.py:209-239 | each count by the records' fields, and every record counted |
| Stamping.StandsWhen | eval/crazeeval/judge.py:157-160 | an unstamped record stands while the global hash is its own, a stamped one while its known task's hash is; an unhashable task raises |
| Stamping.PassGoesThrough | eval/crazeeval/judging.py:309-327 | a stamper that gets the lock and is not cut short leaves the stamped file, the copy unless there was one, and the lock free |
| Stamping.AppendGoesThrough | eval/crazeeval/judging.py:140-154 | an appender with the lock adds its line, one without it changes nothing |
| Stamping.PassKeepsVerdicts | eval/crazeeval/judging.py:209-239 | a pass changes a line exactly when it may be stamped, changes only the hash, and never whether the record stands |
| Stamping.SecondPassStampsNothing | eval/crazeeval/judging.py:209-239 | a second pass changes nothing and counts no stamp |
| Stamping.StampedIsDurable | eval/crazeeval/judge.py:145-160 | under a later judge an unstamped record stands exactly while the global hash stays, a stamped one exactly while its own task's hash stays |
| Stamping.NoAppendLost | eval/crazeeval/judging.py:309-327 | with all writers under the lock, in every interleaving and with deaths at any step, the file holds every appended line once, in order, stamped at most once; the copy kept is the unstamped start; the second read never finds a change |
| Stamping.RunKeepsVerdicts | eval/crazeeval/judging.py:140-154 | with one judge throughout, every appended record stands or falls as it was written |
| WinRates.WilsonIsScoreTest | eval/crazeeval/report.py:65-75 | the interval is exactly the proportions the score test accepts; it holds the observed one and lies in [0, 1] before clamping |
| WinRates.WilsonReflects | eval/crazeeval/report.py:65-75 | counting failures for successes reflects the interval about one half |
| WinRates.WinRate.Add | eval/crazeeval/report.py:96-102 | an outcome of 1, 0 or between adds a win, a loss or a tie |
| WinRates.WinMatrix | eval/crazeeval/report.py:373-392 | a cell for exactly the pairings with a counted verdict, holding all of them, each an object of its own |
| WinRates.CellCounts | eval/crazeeval/report.py:357-392 | a cell's wins, ties and losses are the verdicts that pass the filter, field by field, and that its harness won, tied and lost from either side; its score counts a tie half |
| WinRates.CellsMirror | eval/crazeeval/report.py:390-391 | each cell mirrors the other side's: wins for losses, equal n, rates that sum to one |
| WinRates.IntervalsMirror | eval/crazeeval/report.py:390-391 | and the intervals of the two sides reflect each other about one half |

## Left out

- JSON text and UTF-8: values are trees and lines are records; decoding and parsing an event's text are parameters; a log line with any byte missing is assumed not to parse, one with all its bytes to parse back.
- Log and journal lines of shapes the program itself never writes (a settlement without a charge, a start line with a response) are not modelled.
- The ledger's display totals, medians, harness, model and provider labels and timestamps.
- Freshness of reservation ids is taken from `uuid4`: an id drawn is one never drawn before.
- `flock`, `fsync`, `os.replace`, Go's mutex, `sync.Once`, channels and the event loop are atomic steps.
- HTTP, routing, timeouts, headers, and the drain timer of an exchange; that the settlement hypothesis (input tokens within body bytes, output within the limit) holds of providers is assumed, as the code's comments do.
- Rounding: prices, costs, rates and interval ends are exact reals, and the square root is any real that squares to its argument.
- UsageFolding.UsageAndModel: the counts of a Messages stream; the served model and the usage of chat and Responses streams are not modelled.
- Events whose type cannot be hashed and usages that are not objects where one is required: the original raises there.
- Broadcasts, step names, timings and gates of the fake agent's turns, and its scripts without a queue.
- Provider-specific usage shapes other than the Messages API's.
- Walking a workspace and parsing its functions: a program is its functions, the names each calls in some order, and the markers each names.
- SharedHelpers.Checker.Helpers: lists the helpers in the functions' order; sorting them and reporting only the first ten are not modelled.
- Seeds: the sampler's shuffles are any permutations.
- Stamping: a verdict append cut by a crash, the unlocked dry run, symbolic links and the stamper's refusals by file name.
- Sealing, verdict selection, the success bar, packets, rendering, configuration and the command line.
