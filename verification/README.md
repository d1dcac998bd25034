# rpc-snooper: ordering, capture, modules and correlation

A Dafny model of the parts of rpc-snooper whose correctness is not visible in any one function: the ticket queue that
orders log lines, the readers that capture bodies while they stream through, the WebSocket channel and registry of
modules, the shortening of hex values, and the matching of Xatu responses to requests. Code that changes state in place
is modelled by classes and loops, each proved against a function of the old state; concurrency is modelled by
transition systems whose steps are the critical sections and channel operations of the source, and the theorems about
them hold for every number of goroutines and every interleaving.

| files | subject |
|---|---|
| `TicketQueue`, `OrderedProcessor` | the state behind the mutex of `OrderedProcessor`, as a value and as the class |
| `LoggerSystem`, `LoggerSafety`, `LoggerLiveness`, `LoggerHistory`, `LoggerTraces` | all loggers of all calls: exclusion, wakeups, deadlock freedom, termination, the log, and what the steps of a run say about it |
| `TeeCapture` | the tee that logs a body while it is passed on, and what it loses when its source is closed underneath |
| `EventStream`, `EventParse` | the event-stream pump, and reading its blocks back into fields |
| `HexPreview`, `HexTree`, `Decimals` | shortening hex values: fast form, simple form, trees in place |
| `CallData`, `ModuleOrder` | data kept per call under formatted keys; calling modules in map order |
| `Framing`, `UnlockedFrames`, `ClientRequests` | frames on one connection, with and without a lock; requests of the hook client and their answers |
| `Registry`, `RegistrySystem` | the module registry, alone and shared by many connections |
| `XatuFields`, `XatuHandlers`, `XatuRuns` | extraction, handlers and router, and whole runs of them |
| `CallRuns`, `CallOutcomes` | the loggers together with the modules they call: what a response finds of its request, and whom it reaches |
| `Bytes`, `Options` | shared vocabulary |

Each module has the name of its file, except `OrderedProcessors` in `OrderedProcessor.dfy`.

What the proofs brought to light:

- The skip at the start of `WaitForSequence` never does anything: whenever the mutex is free the cursor already is the
  smallest active ticket, or one past the last ticket (`TicketQueue.SettledMeansNothingToSkip`).
- No waiter is left when all loggers are done, even after `Stop`, although the stop branch does not delete its waiter
  (`LoggerLiveness.RunsEndComplete`).
- In the request phase the modules' order matters to the call data exactly when one fails and another has something new
  to store (`ModuleOrder.OrderIndependentIff`).
- Comments and code differ in two places, and the model follows the code: a module that cannot send its event returns an
  error, so the modules after it are not called (modules/builtin/snooper.go:42-45 speaks of not failing the request);
  and `WaitForSequence` returns true after its timeout and false only on stop (snooper/ordered_processor.go:45-77).
- The gate does not consult the response filter of a response snooper or tracer whose request phase has called it:
  `wants_response` is looked at first. For a module that was not called, because another one had failed, the response
  filter alone decides (`ModuleOrder.WhoPassesGate`).
- Passing its gate does not mean that a module is told of a response: the loop ends at the first module that cannot send
  its event. A module is told in every order exactly if its gate lets the response through and no other module both
  passes its gate and fails (`ModuleOrder.ToldInEveryOrderIff`). So one broken connection can keep the Xatu module from
  ever hearing of a response (`CallOutcomes.BrokenSnooperHidesResponse`), and `CallOutcomes.PublishedIffReached` says
  exactly when the response of a call is published.
- The end of a call's context closes the response body on another goroutine, also while its tee drains it. The logger
  sees the whole body exactly if that comes after the drain has ended or with nothing left
  (`TeeCapture.LoggedWholeIff`); it can see nothing of a body of any length (`TeeCapture.EverythingLost`).
- The hook client writes the two frames of a binary request without a mutex. For any number of such sends, if no
  two writes of single frames overlap, everything arrives exactly if no frames cross
  (`UnlockedFrames.DeliveredIffUncrossed`). Today's client never gets there: its only
  call of `sendRequest` (cmd/snooper-hook/main.go:247) is made once and has no binary data.
- A list of 2^32 blobs is reported as empty (`XatuFields.StatusWrapsAround`); `XatuFields.StatusRightIff` says exactly
  when the reported status is right.

## Model

| member | source | states |
|---|---|---|
| `TicketQueue.SectionsKeepSettled` | snooper/ordered_processor.go:34-104 | every critical section restores: cursor = smallest active ticket or counter + 1, waiters only for later tickets |
| `TicketQueue.SettledMeansNothingToSkip` | snooper/ordered_processor.go:47-51 | with the mutex free, the skip loop moves nothing and wakes nobody |
| `TicketQueue.GrantedIffFirst` | snooper/ordered_processor.go:53-57 | a held ticket is let through at once exactly when it is the smallest active one |
| `TicketQueue.Frontier` | snooper/ordered_processor.go:93-104 | where the skip loop stops: past inactive tickets only, at an active one or beyond the last |
| `TicketQueue.TakeAppends` | snooper/ordered_processor.go:34-43 | taking a ticket appends it to the queue of outstanding tickets |
| `TicketQueue.CompleteRemoves` | snooper/ordered_processor.go:80-89 | completing removes just that ticket, wherever it stands |
| `TicketQueue.OutstandingHead` | snooper/ordered_processor.go:93-104 | the cursor is the head of that queue |
| `TicketQueue.RefinesQueue` | snooper/ordered_processor.go:34-104 | counter, set and cursor simulate a FIFO queue: append on take, remove anywhere on complete, grant the head |
| `OrderedProcessors.OrderedProcessor.constructor` | snooper/ordered_processor.go:17-27 | starts empty, cursor at 1 |
| `OrderedProcessors.OrderedProcessor.Stop` | snooper/ordered_processor.go:29-31 | closes the stop channel, once |
| `OrderedProcessors.OrderedProcessor.GetNextSequence` | snooper/ordered_processor.go:34-43 | hands out the next ticket, marks it active, keeps the invariant |
| `OrderedProcessors.OrderedProcessor.EnterWait` | snooper/ordered_processor.go:47-63 | grants the head, or leaves a fresh open waiter under the ticket; closes no channel |
| `OrderedProcessors.OrderedProcessor.LeaveWait` | snooper/ordered_processor.go:66-77 | true except after stop; only the timeout branch changes the state, deleting the waiter |
| `OrderedProcessors.OrderedProcessor.CompleteSequence` | snooper/ordered_processor.go:80-89 | removes the ticket, advances the cursor, closes exactly the waiters the cursor passes or reaches |
| `OrderedProcessors.OrderedProcessor.SkipCompletedSequences` | snooper/ordered_processor.go:93-104 | cursor, waiters and closed channels afterwards; no channel is closed twice |
| `OrderedProcessors.OrderedProcessor.WakeWaiter` | snooper/ordered_processor.go:98-102 | closes and removes the waiter at the cursor, and no other |
| `LoggerSafety.ReachableInv` | snooper/ordered_processor.go:34-104 | the invariant holds in every reachable state, and the skip loop has run cursor - 1 times |
| `LoggerSafety.Exclusion` | snooper/ordered_processor.go:47-89 | at most one logger is inside by its turn; it holds the smallest active ticket, the cursor; the others inside timed out |
| `LoggerSafety.NoLostWakeup` | snooper/ordered_processor.go:59-104 | an unwoken sleeper has its open channel in the map, its ticket is past the cursor, and the cursor's owner is not asleep; no channel is closed twice; a response waiting for its request holds no ticket |
| `LoggerSafety.WaitersAreWatched` | snooper/ordered_processor.go:59-77 | every waiter in the map belongs to a logger in the select or its timeout branch, or one that left on stop |
| `LoggerSafety.CompleteStopsAtActive` | snooper/ordered_processor.go:80-104 | completing a ticket moves the cursor past no active ticket and wakes only the one it reaches |
| `LoggerLiveness.SomeLoggerMoves` | snooper/proxycall.go:293-312 | whoever waits, waits directly or indirectly for a logger that can move |
| `LoggerLiveness.DeadlockFree` | snooper/ordered_processor.go:47-104 | with an unfinished logger some step other than timeout, stop or a new call is enabled |
| `LoggerLiveness.StepLowersMeasure` | snooper/ordered_processor.go:34-104 | every step but a spawn lowers a measure over all loggers' phases |
| `LoggerLiveness.RunsAreBounded` | snooper/ordered_processor.go:34-104 | a run has at most ten steps per logger started plus what was left at its start |
| `LoggerLiveness.RunsEndComplete` | snooper/ordered_processor.go:80-104 | a run that can go no further has no active ticket, cursor = counter + 1, no waiters, and one skip per ticket |
| `LoggerLiveness.CanAlwaysFinish` | snooper/ordered_processor.go:47-104 | from every reachable state the loggers can all finish without timeout or stop |
| `LoggerHistory.InOrderEntriesIncrease` | snooper/ordered_processor.go:47-57 | every entry after one of a logger whose turn came has a larger ticket, timed out or not |
| `LoggerHistory.RequestReleasedBeforeResponse` | snooper/proxycall.go:293-312 | past its receive, a response logger finds its call's request done for good, with a smaller ticket, timeouts or not |
| `LoggerHistory.RequestLoggedBeforeResponse` | snooper/logging.go:168-182 | a request is logged before its response, and the response finds all the call data as the request phase left it, whatever its type; none exactly if the request was not logged |
| `LoggerHistory.LoggedExactlyOnce` | snooper/logging.go:275-289 | loggers that were let through write one line, the others none |
| `LoggerTraces.CleanLogIsTicketOrder` | snooper/logging.go:168-182 | without timeout and stop the finished log is ticket order with exactly the tickets missing whose owners took the step of a failed decompression |
| `LoggerTraces.WhoWrites` | snooper/logging.go:168-182 | a logger whose body does not decode, or that leaves on the stop, writes no line and leaves no call data; every other one has written its line when done; requests and responses decode first, events do not |
| `LoggerTraces.InOrderIff` | snooper/ordered_processor.go:65-77 | a line is out of turn exactly if its logger took the timeout branch |
| `LoggerTraces.DataIsLeftByRequest` | snooper/logging.go:215-251 | the call data is what the end of the request phase left, and is there exactly if the request was logged |
| `LoggerTraces.RunMarks` | snooper/logging.go:275-289 | in every run exactly the loggers whose steps say so have decoded, failed to decode, left on the stop or timed out |
| `CallRuns.ReachableInv` | snooper/proxycall.go:293-312 | the invariant that joins loggers, call data, module loops and Xatu handlers, in every run |
| `CallOutcomes.ResponseFindsRequestData` | snooper/proxycall.go:308-312 | in the response phase the request phase is over and the call data is all it left; the Xatu module got the request exactly if it was called before another module failed |
| `CallOutcomes.GateFollowsRequest` | modules/manager.go:237-256 | each module's gate, and what a tracer reads, follow from the call's own request phase, in every run |
| `CallOutcomes.HandlerEntry` | modules/builtin/xatu.go:49-52 | the call data names a handler exactly if the Xatu module stored one, and that one |
| `CallOutcomes.HandlerIsRemembered` | modules/builtin/xatu.go:49-60 | the handler a request went to is in the call data before its response is handled |
| `CallOutcomes.ModuleTold` | modules/manager.go:115-126 | in every run a module is told of a response exactly if its gate lets it through and no module before it stopped the loop |
| `CallOutcomes.XatuPasses` | modules/manager.go:237-256 | the gate lets every response through to the Xatu module |
| `CallOutcomes.XatuToldIff` | modules/manager.go:115-126 | so it is told exactly if the loop gets to it |
| `CallOutcomes.TimelyResponsePublished` | modules/builtin/xatu.go:57-72 | when the loop gets to the Xatu module within 30 s of a request not yet answered, the request's data is published; that the handler is stored by then is proved |
| `CallOutcomes.FinishedResponse` | snooper/logging.go:442-478 | a logged response has told the Xatu module exactly if its loop got there; then its request is answered, unless evicted as stale before; no call is answered otherwise |
| `CallOutcomes.PublishedIffReached` | modules/manager.go:101-129 | of a call with one response, in time, the request's data is published exactly if the Xatu module was among the modules and none before it stopped the loop |
| `CallOutcomes.BrokenSnooperHidesResponse` | modules/builtin/snooper.go:98-101 | with a snooper that cannot send before it, the Xatu module never hears of a response that is logged all the same |
| `CallOutcomes.RequestCanEnd` | modules/builtin/xatu.go:49-54 | a request phase is never stuck on its modules |
| `CallOutcomes.ResponseCanEnd` | modules/manager.go:101-129 | nor is a response phase, whatever the order of its modules |
| `CallOutcomes.RunOfLoggers` | snooper/proxycall.go:293-312 | each run, seen from the loggers, is a run of the loggers, so all that is proved of them holds |
| `CallOutcomes.RunOfXatu` | modules/builtin/xatu.go:28-75 | and so for the Xatu handlers |
| `TeeCapture.Source.Read` | snooper/logging.go:126-128 | a read delivers the next chunk or as much of it as there is room for; an error once nothing is left or the body is closed |
| `TeeCapture.LogReadCloser.constructor` | snooper/logging.go:107-124 | an empty buffer |
| `TeeCapture.LogReadCloser.Read` | snooper/logging.go:126-128 | what the consumer gets is what the buffer gains |
| `TeeCapture.LogReadCloser.Close` | snooper/logging.go:130-166 | the first close drains and starts the logger with the buffer, also when the source is closed underneath after any number of reads of the drain |
| `TeeCapture.LogReadCloser.DrainTee` | snooper/logging.go:138-138 | the drain puts what it reads into the buffer, until the end or until it is cut off |
| `TeeCapture.Session` | snooper/logging.go:91-166 | any sequence of reads, closes and cut-offs: the consumer gets and the logger is given what the state functions say, for every chunking and either way a source can end |
| `TeeCapture.NothingInvented` | snooper/logging.go:119-128 | buffer and unread rest make up the source; the consumer got the start of the buffer, and all of it until the close |
| `TeeCapture.ReadsDeliver` | snooper/logging.go:126-128 | while something is left, a read with room delivers something |
| `TeeCapture.LoggedOnce` | snooper/logging.go:130-165 | the logger starts exactly once if the tee is closed at all, with what the buffer holds from then on |
| `TeeCapture.ReadsLeft` | snooper/logging.go:138-138 | how many reads a drain needs after some of them |
| `TeeCapture.LoggedWholeIff` | snooper/proxycall.go:64-68 | what is logged, and that it is the whole source exactly if no cut-off came before the drain had ended, or it came with nothing left |
| `TeeCapture.EverythingLost` | snooper/proxycall.go:64-68 | cut off before its first read, a source of any length is logged as nothing |
| `EventStream.WholeLines` | snooper/proxycall.go:249-258 | the lines at the start of a stream, each with one newline at its end |
| `EventStream.WholeLinesMaximal` | snooper/proxycall.go:249-258 | no further line would fit the buffer: what follows is unfinished or too long |
| `EventStream.LineReader.ReadSlice` | snooper/proxycall.go:256-259 | the next line whatever the chunks, or an error when no whole line fits |
| `EventStream.ClientWriter.Write` | snooper/proxycall.go:261-264 | all bytes or, on failure, a prefix of them |
| `EventStream.GroupedSplits` | snooper/proxycall.go:252-273 | grouping splits at exactly the empty lines and loses no line |
| `EventStream.BlockLength` | snooper/proxycall.go:276-278 | a block is longer than two bytes exactly when its group has a line |
| `EventStream.PassOne` | snooper/proxycall.go:266-273 | a line of one byte closes the group, any other joins it with its newline doubled |
| `EventStream.ForwardLine` | snooper/proxycall.go:256-268 | one round of the inner loop: a line is passed on whole, or the pump stops |
| `EventStream.PumpGroup` | snooper/proxycall.go:252-274 | the inner loop forwards one group and returns its block |
| `EventStream.Pump` | snooper/proxycall.go:248-290 | for any chunks the client gets whole lines from the start (plus part of one if its write fails), the logged blocks are those of the closed non-empty groups, in order, and the pump ends for lack of a line, by a failed write, or cancelled after a group |
| `EventStream.UncancelledPump` | snooper/proxycall.go:256-268 | without cancellation exactly the lines before a failed write are passed on, all of them if none fails |
| `EventParse.Split` | snooper/logging.go:359-359 | no part holds a newline |
| `EventParse.SplitLines` | snooper/logging.go:359-359 | splitting distributes over a newline |
| `EventParse.JoinSplit` | snooper/logging.go:359-359 | the parts joined by newlines are the text |
| `EventParse.TrimSplits` | snooper/logging.go:360-363 | only blanks are trimmed, and all of them at both ends |
| `EventParse.TrimDropsNewline` | snooper/logging.go:360-360 | a line trims to the same text with or without its newline |
| `EventParse.ContributesItsField` | snooper/logging.go:365-382 | name, colon, value sets that name; without a colon, without a name or with undecodable data nothing is set |
| `EventParse.OnlyDataSpellsData` | snooper/logging.go:370-371 | the field that is decoded is the one named data |
| `EventParse.IsBlank` | snooper/logging.go:360-360 | line feeds, carriage returns and spaces are trimmed, nothing else |
| `EventParse.BlockSplitsToGroup` | snooper/proxycall.go:272-277 | splitting and trimming a block gives back the trimmed non-blank lines of its group, in order |
| `EventParse.LastLineWins` | snooper/logging.go:369-382 | a field is the one set by the last line that sets its name |
| `EventParse.ParseEvent` | snooper/logging.go:357-383 | the field loop computes the last-wins fold over the trimmed lines |
| `EventParse.PumpedBlocksParse` | snooper/logging.go:341-383 | from upstream bytes to fields: block b is that of the b-th closed non-empty group, and parses to the fields of its lines |
| `EventParse.BlocksOfNonEmpty` | snooper/proxycall.go:276-278 | the blocks are those of the non-empty groups, one each, in order |
| `Decimals.ValueOfDecimal` | snooper/proxycall.go:79-81 | the decimal form of a number reads back as that number |
| `Decimals.DecimalInjective` | snooper/proxycall.go:79-85 | two numbers with the same decimal form are equal |
| `Decimals.DecimalWidth` | snooper/truncate.go:43-51 | a number below 10^k has at most k digits |
| `HexPreview.HexDecodes` | snooper/logging.go:84-84 | each byte is the value of its two digits |
| `HexPreview.TruncateHexValue` | snooper/truncate.go:23-52 | the loop that checks the first 16 digits decides as the specification does |
| `HexPreview.TruncatedIsShortForm` | snooper/truncate.go:23-52 | position by position: a string of up to 256 characters, or not starting as hex, stays; otherwise 0x, its first 32 digits, dots, its last 32 characters, and a number that reads as its byte count |
| `HexPreview.UntruncatedIsWhole` | snooper/logging.go:83-88 | with truncation off the whole body is shown |
| `HexPreview.HexHead` | snooper/logging.go:77-77 | the first digits of an encoding are the encoding of the first bytes |
| `HexPreview.HexTail` | snooper/logging.go:78-78 | likewise for the last |
| `HexPreview.FastPreviewAgrees` | snooper/logging.go:74-89 | the fast form gives, for every body, what encoding all of it and truncating would |
| `HexPreview.TruncatedShrinks` | snooper/truncate.go:23-52 | strings up to the threshold stay, changed strings get strictly shorter |
| `HexPreview.TruncatedIdempotent` | snooper/truncate.go:23-52 | truncating twice is truncating once, below length 2^63 |
| `HexTree.TruncateHexInTree` | snooper/truncate.go:59-78 | whatever path one follows through maps and slices: a string found there has been replaced by its short form in place, and no string has come or gone |
| `HexTree.TruncateInPlace` | snooper/truncate.go:59-78 | the recursion leaves the heap holding exactly the pure map of the tree |
| `HexTree.TruncateMap` | snooper/truncate.go:65-70 | maps, in any key order |
| `HexTree.TruncateList` | snooper/truncate.go:71-75 | slices |
| `HexTree.StringsAreShortened` | snooper/truncate.go:59-78 | the same of the pure map |
| `HexTree.FoundInTree` | snooper/truncate.go:59-78 | looking along a path in the heap and in the tree finds the same |
| `HexTree.TruncationKeepsShape` | snooper/truncate.go:59-78 | objects, keys, lengths and leaves other than strings are kept |
| `HexTree.TreeTruncationIdempotent` | snooper/truncate.go:59-78 | shortening a tree twice is shortening it once |
| `CallData.FormatKeyInjective` | snooper/proxycall.go:79-85 | different (module, name) pairs never share a key, whatever the names contain |
| `CallData.CallContext.SetData` | snooper/proxycall.go:79-81 | the string map refines a map on pairs: just this pair is set |
| `CallData.CallContext.GetData` | snooper/proxycall.go:83-85 | the value last stored for this pair, or none |
| `ModuleOrder.NameTextInjective` | modules/manager.go:220-246 | the entry names in use differ |
| `ModuleOrder.Writes` | modules/manager.go:220-235 | a gate and its module write under the module's own ID only |
| `ModuleOrder.ShouldProcessRequest` | modules/manager.go:220-235 | the gate's verdict, and the skip mark it leaves when it rejects |
| `ModuleOrder.OnRequest` | modules/builtin/snooper.go:27-81 | what each kind of module stores; only a request snooper or counter that cannot send fails |
| `ModuleOrder.ProcessRequest` | modules/manager.go:71-99 | the call data after the modules in the given order; it fails exactly if a request snooper or counter passes its filter and cannot send |
| `ModuleOrder.AfterRequestHasWrites` | modules/manager.go:71-99 | without failure: each module's entries, and every other entry as before |
| `ModuleOrder.NoFailureNoOrder` | modules/manager.go:75-97 | without failure every order gives the same call data |
| `ModuleOrder.FailureShowsOrder` | modules/manager.go:86-90 | with a failure, and another module with something new to store, some order differs |
| `ModuleOrder.OrderIndependentIff` | modules/manager.go:71-99 | order makes no difference exactly when nobody fails or nobody has anything new to store |
| `ModuleOrder.ShouldProcessResponse` | modules/manager.go:237-256 | wants_response first, then skip_response, then the response filter |
| `ModuleOrder.WhoPassesGate` | modules/manager.go:237-256 | whom the gate lets the response through to, for modules called before a failure and for those not called, in any order |
| `ModuleOrder.BeforeFailureDecides` | modules/manager.go:83-96 | the call data is what the modules before the first failure leave |
| `ModuleOrder.OwnEntries` | modules/manager.go:71-99 | a module finds the entries it wrote, if it was called, and the core its own, failure or not |
| `ModuleOrder.TracerReads` | modules/builtin/tracer.go:48-60 | a tracer reads the data it extracted from this call's request, if it was called, and the core's request size |
| `ModuleOrder.OnlyXatuStoresHandlers` | modules/builtin/xatu.go:49-52 | the handler entry is written by the Xatu module alone |
| `ModuleOrder.OnResponse` | modules/builtin/tracer.go:75-86 | only a response snooper or tracer that cannot send fails |
| `ModuleOrder.ProcessResponse` | modules/manager.go:101-129 | the loop over the modules: who is told; it fails exactly if a response snooper or tracer is told and cannot send |
| `ModuleOrder.ToldPass` | modules/manager.go:115-126 | only modules of the order are told, and only past their gates |
| `ModuleOrder.ToldIff` | modules/manager.go:115-126 | for every order: a module is told exactly if its gate lets the response through and no earlier module that passed its gate is a response snooper or tracer that cannot send |
| `ModuleOrder.ToldInEveryOrderIff` | modules/manager.go:101-129 | a module is told in every order exactly if its gate lets the response through and no other module passes its gate and is a response snooper or tracer that cannot send |
| `Framing.HandleFrames` | cmd/snooper-hook/main.go:287-340 | the loop with its two variables computes the decoder; expecting a payload exactly when a message is kept |
| `Framing.StaysClosed` | modules/manager.go:400-403 | after a frame that is not a message nothing more is handed on |
| `Framing.GarbledEnds` | modules/manager.go:400-403 | a text frame that is not a message ends the delivery |
| `Framing.RoundTrip` | modules/manager.go:166-187 | for every interleaving of senders the receiver gets exactly the messages in lock order, each binary one with its own payload; after a failed write a prefix of them |
| `Framing.TurnsInOrder` | modules/manager.go:166-187 | each sender gets the mutex for all its sends, in order |
| `Framing.TurnsAreTaken` | modules/manager.go:166-187 | and the turns are those of all senders |
| `Framing.SomeSenderMoves` | modules/manager.go:166-187 | while somebody has something to send, somebody can go on, without a failure as long as none has happened |
| `UnlockedFrames.DeliveredIffUncrossed` | cmd/snooper-hook/main.go:213-221 | once all is written, everything sent is handed on with its own payload exactly if no frame of another binary send lies between a message and its payload; if frames cross, something is lost |
| `UnlockedFrames.UncrossedDelivers` | cmd/snooper-hook/main.go:310-339 | at every moment of every uncrossed run, finished or not, exactly the finished sends have been handed on, in the order they finished |
| `UnlockedFrames.ReceiverState` | cmd/snooper-hook/main.go:310-339 | the receiver waits for a payload exactly when the last binary frame was a message, and for that message's |
| `UnlockedFrames.LossesGrow` | cmd/snooper-hook/main.go:310-339 | what is lost, and how many messages were replaced before their payload came, never shrinks |
| `UnlockedFrames.TwoCanCross` | cmd/snooper-hook/main.go:213-221 | two binary sends at once have an interleaving that crosses, and so loses one |
| `ClientRequests.ReachableInv` | cmd/snooper-hook/main.go:187-238 | registration precedes sending and lasts until return, in every run |
| `ClientRequests.PendingIsInFlight` | cmd/snooper-hook/main.go:199-211 | pending keys are exactly the requests in flight; the reader never finds a channel full |
| `ClientRequests.AnswersMatch` | cmd/snooper-hook/main.go:343-364 | a channel holds, and a request returns, only the answer to that very request |
| `ClientRequests.NoAnswerLost` | cmd/snooper-hook/main.go:225-237 | an answer to a waiting request is under way, being delivered or ready to be taken; it is dropped only after the request gave up and returned |
| `ClientRequests.RunMarks` | cmd/snooper-hook/main.go:187-238 | in every run a request has been sent, failed to be sent, been given up or taken its answer exactly if a step did it |
| `ClientRequests.RunAnswers` | cmd/snooper-hook/main.go:343-364 | the answers are what the server said |
| `ClientRequests.EventsPass` | cmd/snooper-hook/main.go:364-377 | an event gets to the reader and disturbs no request |
| `Registry.RemoveFirstRemoves` | modules/manager.go:546-552 | removing the first occurrence from a list without repetitions removes the ID and nothing else |
| `Registry.TornDownRemoves` | modules/manager.go:363-367 | tearing down a list removes exactly its modules and their filters |
| `Registry.TornDownCloses` | modules/manager.go:270-281 | each listed module still registered is closed once, in list order, and no other |
| `Registry.ModuleManager.constructor` | modules/manager.go:48-55 | an empty registry |
| `Registry.ModuleManager.GenerateModuleID` | modules/manager.go:203-205 | the next number |
| `Registry.ModuleManager.RegisterModule` | modules/manager.go:258-268 | the module, and its filter unless nil |
| `Registry.ModuleManager.UnregisterModule` | modules/manager.go:270-281 | closes and removes a registered module with its filter; an unknown ID changes nothing |
| `Registry.ConnectionManager.constructor` | modules/manager.go:346-352 | a connection starts with an empty list |
| `Registry.ConnectionManager.HandleRegistration` | modules/manager.go:462-532 | accepted exactly if every check passes, and then a module of the kind its type names is registered under a new ID with both filters; otherwise the first check that fails gives the reason, and only the counter changes, not even that for a malformed request |
| `Registry.ConnectionManager.HandleUnregistration` | modules/manager.go:534-562 | unregisters any ID and drops its first occurrence from the own list |
| `Registry.ConnectionManager.TearDown` | modules/manager.go:358-370 | the deferred loop |
| `RegistrySystem.ReachableInv` | modules/manager.go:339-378 | the invariant of maps, lists and phases, for any number of connections |
| `RegistrySystem.RegistryConsistent` | modules/manager.go:258-281 | filter keys are the connections' modules; every registered ID is claimed by its owner, or is the Xatu module's |
| `RegistrySystem.ListsApart` | modules/manager.go:519-521 | lists have no repetitions and no two share an ID |
| `RegistrySystem.NeverReused` | modules/manager.go:203-205 | no ID is registered twice, and each registered module is in the maps or was closed, once |
| `RegistrySystem.NothingLeft` | modules/manager.go:358-370 | after a connection's teardown none of its modules remain |
| `RegistrySystem.OnlyXatuLeft` | modules/manager.go:358-370 | with all connections gone only the Xatu module can remain, and no filter |
| `RegistrySystem.TearDownSparesOthers` | modules/manager.go:363-367 | teardown takes no other connection's module or filter, even if some of its IDs were unregistered by others first |
| `RegistrySystem.TearDownSteps` | modules/manager.go:363-367 | undisturbed, the steps of a teardown add up to the loop |
| `RegistrySystem.RegistrationSteps` | modules/manager.go:462-521 | undisturbed, the steps of a registration add up to the handler |
| `RegistrySystem.UnregistrationSteps` | modules/manager.go:534-552 | undisturbed, any connection unregisters any module, and its own list loses the ID if it has it |
| `RegistrySystem.RefusalSteps` | modules/manager.go:469-509 | a refused registration uses up an ID and changes nothing else |
| `RegistrySystem.DisconnectSteps` | modules/manager.go:354-377 | undisturbed, a connection that ends tears down its list and is gone |
| `RegistrySystem.XatuFromStart` | snooper/snooper.go:95-103 | the Xatu module, if on, is registered from the start and stays until somebody unregisters its ID |
| `XatuFields.HexTextNumber` | xatu/engine_newpayload.go:298-304 | the shortest hex text of a number reads as that number |
| `XatuFields.QuantityRoundTrip` | xatu/engine_newpayload.go:290-305 | every 64-bit quantity is read back with any of the prefixes; larger ones become 0 |
| `XatuFields.ExtractVersionedHashes` | xatu/engine_getblobs.go:163-182 | the texts of the first parameter, in order |
| `XatuFields.VersionFollowsPrefix` | xatu/engine_newpayload.go:242-248 | the version is what follows the prefix |
| `XatuFields.BlobRequestRoundTrip` | xatu/engine_getblobs.go:163-190 | a request naming hashes is read back |
| `XatuFields.PayloadRequestRoundTrip` | xatu/engine_newpayload.go:136-194 | a payload request is read back field by field, whatever other members and parameters it has |
| `XatuFields.PayloadRead` | xatu/engine_newpayload.go:136-194 | the same for any members that say what the fields say |
| `XatuFields.ExtractBlobs` | xatu/engine_getblobs.go:196-246 | count, indexes and status computed by the loop with 32-bit counters, and the error cases |
| `XatuFields.PresentIndexes` | xatu/engine_getblobs.go:225-231 | the indexes are those of the non-null elements, ascending |
| `XatuFields.PresentCount` | xatu/engine_getblobs.go:225-231 | none counted exactly if all are null, all exactly if none is |
| `XatuFields.BlobsExact` | xatu/engine_getblobs.go:220-245 | below 2^32 elements count, indexes and status are exact |
| `XatuFields.StatusRightIff` | xatu/engine_getblobs.go:234-243 | for every list, exactly when the reported status says what the list holds |
| `XatuFields.StatusWrapsAround` | xatu/engine_getblobs.go:234-243 | a list of 2^32 blobs, none missing, is answered as empty |
| `XatuHandlers.MatchesOne` | xatu/engine_clientversion.go:35-39 | no method matches two of the three prefixes |
| `XatuHandlers.EventHandler.CleanupStale` | xatu/engine_newpayload.go:70-77 | removes exactly the entries older than 30 s |
| `XatuHandlers.EventHandler.HandleRequest` | xatu/engine_newpayload.go:80-98 | evicts, then stores the request's own fields under its call; asks for the response |
| `XatuHandlers.EventHandler.HandleResponse` | xatu/engine_newpayload.go:101-134 | publishes and removes the call's entry, or does nothing |
| `XatuHandlers.FirstMatchIs` | xatu/router.go:29-42 | the place found is the first that matches, none if none does |
| `XatuHandlers.OrderDoesNotMatter` | xatu/xatu.go:80-101 | routers with the same kinds registered in any order pick the same kind for every method |
| `XatuHandlers.RouteByMethod` | xatu/engine_newpayload.go:64-68 | engine_getBlobs, engine_newPayload and engine_getClientVersion methods, with any suffix, each go to a handler of their own kind if one is registered |
| `XatuHandlers.OthersNotRouted` | xatu/router.go:29-42 | no other method is routed |
| `XatuHandlers.KeptOfRequest` | xatu/engine_newpayload.go:136-141 | what is kept is the call, the time, the suffix as version and the fields of that kind of request |
| `XatuHandlers.RequestBodyRead` | modules/builtin/xatu.go:88-115 | method and parameters are read from a body that has them, whatever else it has |
| `XatuHandlers.Router.Register` | xatu/router.go:22-25 | appends |
| `XatuHandlers.Router.RouteRequest` | xatu/router.go:29-42 | exactly the first matching handler is told of the request |
| `XatuHandlers.XatuModule.OnRequest` | modules/builtin/xatu.go:28-54 | the handler that took the request is what the call data holds afterwards |
| `XatuHandlers.XatuModule.OnResponse` | modules/builtin/xatu.go:57-75 | the stored handler and no other is told of the response |
| `XatuRuns.ReachableInv` | xatu/engine_getblobs.go:54-120 | the invariant of pending, published and evicted calls, in every run |
| `XatuRuns.EveryRequestAccounted` | xatu/engine_newpayload.go:70-134 | every stored request is waiting, answered or evicted, exactly one of them, and waits nowhere but at its handler |
| `XatuRuns.PublishedOnce` | xatu/engine_newpayload.go:101-128 | at most one publish attempt per call, with that call's own ID, time, method version and parameters |
| `XatuRuns.NothingStaleAfterRequest` | xatu/engine_newpayload.go:80-87 | after a request no older entry is past the limit, and only such entries were dropped |
| `XatuRuns.ResponseFindsItsHandler` | modules/builtin/xatu.go:57-72 | the handler in the call data is the one that holds the request, and only its kind matches |
| `XatuRuns.TimelyResponsePublished` | xatu/engine_newpayload.go:101-128 | a first response within 30 s is published with its request's data once the handler is stored; for responses other than events it is, see `CallOutcomes.TimelyResponsePublished` |
| `XatuRuns.RequestIsKept` | xatu/engine_newpayload.go:80-87 | a request of a method some handler is registered for is kept by a handler of that kind |
| `XatuRuns.RunSlots` | modules/builtin/xatu.go:49-52 | in every run a handler is stored with a call exactly if a step stored it |
| `XatuRuns.RunRequests` | modules/builtin/xatu.go:28-54 | and a call has the request that a step handled |
| `XatuRuns.RunKinds` | xatu/router.go:22-25 | the handlers are those registered, in order |

## Left out

- Integer widths of counters: tickets, module IDs, request IDs and call indexes are unbounded here; the 64-bit counters of the source would wrap after 2^64 uses.
- Time: the 5 s timeout, `Stop`, request timeouts and cancellation are steps that may happen whenever the source could take them; Xatu time is a number that only grows.
- Panics inside a logging body: `CompleteSequence` is deferred but the close of `reqSentChan` is not, so the liveness results assume that `logRequest` returns.
- LoggerHistory.RequestReleasedBeforeResponse: does not speak of event-stream loggers, because `logEventResponse` does not wait for the request logger; they are ticket holders like the others everywhere else.
- CallOutcomes.ResponseFindsRequestData: for the same reason speaks of responses that are not events. `CallOutcomes.GateFollowsRequest` speaks of the modules its call's request phase met; modules registered since have no entries.
- Events of an event stream in `CallRuns`: an event is given to the Xatu module or not as it comes; its gates and the order of its loop are not tracked.
- Data races the Go memory model leaves open: unsynchronised closes of one `logReadCloser`, the `data` map of a call (snooper/proxycall.go:79-85), which an event may read while the request phase writes it once one of the two has timed out, the `cancelled` flag (the pump sees a cancellation after a group of any number) and the update channel with its deadline loop.
- TeeCapture.LogReadCloser.constructor: leaves out the size hint, which only sets the capacity of a buffer that grows as needed.
- Reads that return no bytes and no error, and the `io.ErrNoProgress` that follows many of them.
- EventParse.ParseEvent: follows the code where it departs from sections 9.2.5 and 9.2.6 of the WHATWG HTML Living Standard: only LF ends a line, a repeated field overwrites, and a value keeps the space after its colon.
- Decoding of JSON, gzip, brotli and gojq queries: a choice, a parameter or a decoded tree. The rule that an event with fewer than two fields is not decoded further is not modelled.
- HexTree.TruncateInPlace: assumes a tree no two parts of which share an object, as the JSON decoder makes it.
- Strings have one character per byte; keys of JSON objects in `HexTree` are any type.
- Framing.RoundTrip: the failed marshalling of a message, after which the WebSocket library has begun an empty frame, counts as a failed write.
- Frames a client sends are assumed to be handled one after the other, as its read loop does.
- UnlockedFrames.DeliveredIffUncrossed: takes the write of one frame as one step; gorilla/websocket panics when it notices two writes to one connection at the same time.
- `SetEnabled`, which switches all modules off, is left out; a response phase with no modules does the same for one response.
- ClientRequests.NoAnswerLost: assumes a server that answers a request at most once.
- XatuRuns.PublishedOnce: counts attempts; whether publishing succeeds is up to the publisher, which is not part of this model. Call IDs are used once, as the locked counter of snooper/proxycall.go:29-32 makes them.
- The handler of `engine_getClientVersion` is modelled as far as routing goes; the metadata update it triggers is not.
- XatuHandlers.Router.RouteRequest: finds the handler before calling it, where the source calls it inside the loop; handlers are named by their place in the router.
- The status texts of `engine_newPayload` responses, protobuf events, metrics, the API server, configuration, metadata fetching, version strings and utils/hexencoder.go, which nothing here uses.
