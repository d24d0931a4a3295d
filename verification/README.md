# gm_rdb: models and proofs

gm_rdb is a remote debugger server for Lua inside Garry's Mod. This project models five parts of it in Dafny
and proves what they are for. `dafny verify dfyconfig.toml` checks everything.

- **Console pipelines** (`LogPipeline.dfy`, `LogLiveness.dfy`, `LogCalls.dfy`, `SpewPipeline.dfy`, `SpewCalls.dfy`).
  Any number of engine threads, one controller thread and one dispatcher thread, as interleaved step systems. A
  program-counter value is the statement a thread is about to execute; each unlocked read of a flag is a step of
  its own. Other adapters that share the immortal proxy are part of the environment. Safety is proved over finite
  runs, progress over endless ones: a message logged while the adapter accepts is pushed once, conserved, and
  passed to the right callback in the end.
- **Lua stack machine** (`LuaStack.dfy`, `EntityQuery.dfy`, `EntityOperations.dfy`). The shared stack is an object
  with a floor (the current `stack_guard`); popping below the floor violates a precondition, so no path does it.
  The engine is an oracle that may answer anything at any time, or raise. Every protected call is recorded, so a
  contract can say what was asked and what came back. A helper ends normally, with a C++ exception, or with a raw
  Lua error that unwinds the whole frame.
- **Debug session** (`Session.dfy`, `StopOnError.dfy`). The flags, counters and waits of `basic_server`, with
  handlers that may run Lua which ticks the debugger again; and, separately, the two-thread protocol that turns an
  error into a pause.
- **Launch flags and server ownership** (`LaunchFlags.dfy`, `ServerOwnership.dfy`).
- **Text and paging** (`Fingerprint.dfy`, `ErrorAggregator.dfy`, `ErrorLines.dfy`, `NumberFormat.dfy`,
  `Paging.dfy`, `EntitySnapshot.dfy`), over small shared vocabularies (`Text.dfy`, `Words.dfy`, `Decimal.dfy`).

Where a promise holds only under a condition, the exact condition is proved:

- A second `Initialize` over a live server is the only step that breaks ownership (`InitializeCondition`, with
  `SecondInitializeDeletesTwice` as the failing run).
- An unload leaves nothing alive if and only if the active server is all there is (`DeinitializeCondition`). In a legal
  run there can be more: collecting an old, empty slot clears `active_server` under a newer server
  (`ServerCanOutliveUnload`); the collector deletes it later.
- A stop-on-error report is checked and stored in separate steps, so one that is under way during a cache clear, a
  connect or a reset survives it, and one that is under way during a tick-issued pause, or was stored between the
  exchange and the pause, can pause again although no error was raised since. `PauseIsFresh` proves that nothing
  else is ever stale; `StaleAfterClear` and `StaleAfterPause` say exactly in which states a stale pause can still
  happen; `ClearCanMissReport` and `PauseCanMissReport` are runs that reach such states.
- The jump of the flag scanner loses hits if and only if the flag fits onto itself, shifted, with a boundary
  character in front of the overlap (`JumpCondition`). No flag without boundary characters does, and every flag in
  the source is of that kind.
- If the accessor chunk is neither cached nor compiles, each read leaves the registry table on the stack; the
  contract of `TryGetEntityValue` gives the leftover exactly (`Leak`). The walks and the public operations assume
  that the accessors compile (`AccessorsCompile`).
- `exit()` sets its disposed flag before sending the exit notice, so the notice is always suppressed (`DoExit`).
- A stop of the logging adapter can leave one late message, never two; a stop of the Spew adapter leaves none
  (`StoppedForGood`, `OneLateMessageIsPossible`, `SpewPipeline.NoneLeft`).
- A string sent as a field value reads back as the JSON given if and only if it has no NUL inside, as it crosses
  into Lua as a C string (`PrimitiveReadsBack`, `ValueReadsBack`).
- The `filter_id` fast path answers like the scan restricted to that id, whatever the engine holds and whatever the
  filter, if and only if the scan reaches the id (`FastPathCondition`).

## Model

| member | source | states |
|---|---|---|
| LogPipeline.StepKeepsInv | source/console_adapter_logging.cpp:35-335 | every step of every thread, and of the environment, keeps the lock ownership, life cycle, one-late-message and wakeup invariants |
| LogPipeline.ReachableInv | source/console_adapter_logging.cpp:35-335 | the invariants hold in every reachable state, whatever the number of loggers |
| LogPipeline.NothingLostDuplicatedOrReordered | source/console_adapter_logging.cpp:258-335 | over any run between a start and the next: delivered, then the rest of the batch, then the queue equals what was pending followed by everything pushed; after a stop what is delivered is an initial part of that, also when callbacks throw (what each Log call pushes is in LogCalls) |
| LogPipeline.DrainedInOrder | source/console_adapter_logging.cpp:242-289 | once told to stop, the dispatcher delivers exactly the rest of its batch and nothing else |
| LogPipeline.ExitsDrained | source/console_adapter_logging.cpp:263-270 | the dispatcher exits only when told to stop and with an empty queue |
| LogPipeline.StoppedForGood | source/console_adapter_logging.cpp:161-187 | when set_callback(nullptr) has returned there is no dispatcher, the proxy points elsewhere, no logger is inside and at most one message is left |
| LogPipeline.QuietUntilNextStart | source/console_adapter_logging.cpp:156-187 | from then on, in every run without a new callback, no callback is invoked, no logger enters and a leftover message does not change |
| LogPipeline.OneLateMessageIsPossible | source/console_adapter_logging.cpp:308-331 | the bound of one is reached: a completed stop with a late message left |
| LogPipeline.DetachSparesNewerAdapter | source/console_adapter_logging.cpp:45-54 | nothing an adapter does while stopping unhooks an adapter attached after it |
| LogPipeline.LockOrder | source/console_adapter_logging.cpp:56-64 | an owner of m_mutex never waits for m_forward_mutex, and join is reached holding neither |
| LogPipeline.NoDeadlock | source/console_adapter_logging.cpp:178-268 | in every reachable state in which work is left some thread can take its next step; no wakeup is lost |
| LogPipeline.InternalRunsAreShort | source/console_adapter_logging.cpp:231-335 | without new Log calls the threads take a bounded number of steps, with no fairness assumed |
| LogPipeline.EveryCallCompletes | source/console_adapter_logging.cpp:242-256 | hence without new Log calls, under any schedule whatever, every set_callback returns, and after a stop the dispatcher is joined |
| LogLiveness.EveryCallReturns | source/console_adapter_logging.cpp:161-289 | in every fair endless run, with engine threads logging for ever, every set_callback returns; after set_callback(nullptr) the adapter is stopped and at most one message is left |
| LogLiveness.EveryLogReturns | source/console_adapter_logging.cpp:56-64 | in every fair endless run every Log call returns |
| LogLiveness.StopIsBounded | source/console_adapter_logging.cpp:242-289 | whatever the engine threads do meanwhile, new Log calls included, a stop whose flags are set needs only so many steps of the dispatcher and the controller; no fairness assumed |
| LogLiveness.DispatcherExits | source/console_adapter_logging.cpp:253-288 | a dispatcher that is waited for in join is woken up, gets the mutex and exits |
| LogLiveness.ForwardFrees | source/console_adapter_logging.cpp:35-64 | the forward mutex becomes free again and again, as its owner always gets through the queue mutex |
| LogLiveness.EveryScheduleIsAPlay | source/console_adapter_logging.cpp:35-335 | every choice of steps is one of the endless runs considered |
| LogLiveness.EndlessIsFair | source/console_adapter_logging.cpp:56-335 | there are fair endless runs in which a Log call begins again and again, each message being delivered |
| LogCalls.CallPushesAtMostItsText | source/console_adapter_logging.cpp:291-335 | over every run of a Log call, with anything interleaved, the call pushes its own text once or nothing, and nothing without an echo or a text |
| LogCalls.AcceptedCallIsPushed | source/console_adapter_logging.cpp:308-331 | a call during which the adapter is attached, accepting and not told to stop pushes exactly its own text, whatever is queued |
| LogCalls.RefusedCallIsNotPushed | source/console_adapter_logging.cpp:308-314 | a call during which the proxy points elsewhere, or the adapter is told to stop, or it refuses messages, pushes nothing |
| LogCalls.OtherAttachTakesOver | source/console_adapter_logging.cpp:40-54 | once another adapter has attached, no call is pushed here until set_callback is called again |
| LogCalls.LoggedIsDeliveredOrPending | source/console_adapter_logging.cpp:258-335 | what is logged while the adapter accepts has been delivered, or is in the batch or the queue, when the call returns |
| LogCalls.PendingArrives | source/console_adapter_logging.cpp:258-289 | in every fair endless run with an adapter that goes on accepting, every pending message is passed to the callback, those before it first and in order |
| LogCalls.LoggedMessageArrives | source/console_adapter_logging.cpp:258-335 | hence a message logged there is pushed behind what is pending, and at some moment just that and the message have been delivered |
| LogCalls.GoesToItsCallback | source/console_adapter_logging.cpp:258-289 | while no set_callback is under way the rest of the batch goes to the callback it was taken with, and every later message to the one in force |
| LogCalls.SetCallbackDoes | source/console_adapter_logging.cpp:161-187 | when set_callback(cb) returns, cb is the callback; the adapter runs, and accepts unless another adapter has attached, or is stopped and detached if cb is null |
| SpewPipeline.StepKeepsInv | source/console_adapter_spew.cpp:37-206 | every step keeps the lock, life cycle, wakeup and empty-while-stopped invariants of the variant that tests its hook under the lock |
| SpewPipeline.RunKeepsInv | source/console_adapter_spew.cpp:37-206 | so does every run |
| SpewPipeline.NoneLeft | source/console_adapter_spew.cpp:113-200 | between a stop's clear and the next start the queue is empty: no late message at all |
| SpewPipeline.NoDeadlock | source/console_adapter_spew.cpp:113-206 | in every reachable state in which work is left some thread can take its next step |
| SpewPipeline.StopIsBounded | source/console_adapter_spew.cpp:113-167 | whatever the engine threads do meanwhile, a stop needs only so many steps of the dispatcher and the controller before its join |
| SpewPipeline.StopIsNeverStuck | source/console_adapter_spew.cpp:113-206 | until then one of the two can move, or waits for a logger that can move and holds the mutex or is about to notify |
| SpewCalls.NothingLostDuplicatedOrReordered | source/console_adapter_spew.cpp:136-206 | over any run before the next start: delivered, then the rest of the batch, then the queue equals what was pending followed by everything pushed; after a stop an initial part of that |
| SpewCalls.DrainedInOrder | source/console_adapter_spew.cpp:136-167 | once told to stop, the dispatcher delivers exactly the rest of its batch |
| SpewCalls.CallIsPushedAndHandedOn | source/console_adapter_spew.cpp:169-206 | over every run of a Log call the call is handed on to the original function once; it pushes its text once under an active hook, and nothing without a text or a hook |
| SpewCalls.CallIsShort | source/console_adapter_spew.cpp:169-206 | in every run a Log call takes at most five steps of its own thread |
| SpewCalls.SetIsShort | source/console_adapter_spew.cpp:113-134 | and so does a set_callback |
| SpewCalls.GoesToItsCallback | source/console_adapter_spew.cpp:136-167 | the rest of the batch goes to the callback it was taken with, and every later message to the one in force |
| SpewCalls.SetCallbackDoes | source/console_adapter_spew.cpp:37-134 | when set_callback(cb) returns, cb is the callback, with hook and dispatcher up, or both gone and nothing queued if cb is null |
| SpewCalls.QuietUntilNextStart | source/console_adapter_spew.cpp:113-206 | after a completed stop nothing is pushed or delivered until a new callback is set |
| LuaStack.Lua.EnterFrame | source/entity_query.hpp:87-124 | a C frame starts with only its argument, guarded |
| LuaStack.Lua.LeaveFrame | source/entity_query.hpp:87-124 | leaving the frame on any outcome restores the caller's stack and floor; a Lua error becomes a C++ exception |
| LuaStack.Lua.Next | source/entity_query.hpp:180-198 | needs nil or a key of the table on top, and continues after it |
| LuaStack.AfterKeyAt | source/entity_query.hpp:180-198 | continuing from the key at one position reaches the next position |
| EntityQuery.PcallChecked | source/entity_query.hpp:631-642 | net effect of a checked call: results on success, nothing left on an exception |
| EntityQuery.PushRegistryChunk | source/entity_query.hpp:665-680 | one value pushed; exactly when compiling raises, the registry table is left; raw errors come from the two unprotected fetches |
| EntityQuery.GetFieldProtected | source/entity_query.hpp:645-651 | the engine is asked for exactly this key of this value, and its answer is pushed |
| EntityQuery.SetFieldProtected | source/entity_query.hpp:654-663 | the engine is asked to assign exactly this value to this key, and the value is popped |
| EntityQuery.PushEntsTable | source/entity_query.hpp:682-692 | pushes the ents table when it is one and nothing otherwise |
| EntityQuery.PushEntityByIndex | source/entity_query.hpp:694-711 | succeeds exactly when ents.GetByIndex, asked for exactly this index, answers with something other than nil |
| EntityQuery.ReadsStay | source/entity_query.hpp:713-833 | what was read from a value is not changed by later calls |
| EntityQuery.AsksBoth | source/entity_query.hpp:713-833 | what a sequence of helpers looked up or called is what each of them did |
| EntityQuery.InvokeEntityMethod | source/entity_query.hpp:713-727 | net effect on success, missing method, wrong type and raised error, and exactly what the method was asked and brought |
| EntityQuery.TryGetEntityValue | source/entity_query.hpp:729-833 | stack-neutral on every outcome (exactly one leftover value when the accessor cannot be compiled), and the result is what the method brought if it has the wanted type |
| EntityQuery.BuildEntitySummary | source/entity_query.hpp:964-1022 | stack-neutral, and every field is what the matching method of this value brought; an entity that is not valid is asked for nothing but its index and its validity |
| EntityQuery.VisitPair | source/entity_query.hpp:883-944 | one turn of a table walk pops the value, keeps the key and yields the entry of the pair |
| EntityQuery.EntryMeans | source/entity_query.hpp:883-944 | an entry is listed exactly when its key or its display holds the filter, and is editable with its raw value exactly when that is a string, a bool or a finite number |
| EntityQuery.EntriesMean | source/entity_query.hpp:278-310 | the entries of a table are those of the pairs whose key text or display holds the filter, each with its own key and display, counted and in order |
| EntityQuery.DisplayMeans | source/entity_query.hpp:878-944 | the displayed text of numbers and vectors reads back as the millionths; strings and bools are shown as they are, other kinds by their type names |
| EntityQuery.KeyMeans | source/entity_query.hpp:283-297 | the text of a key is that of the string or number, and no other key has one |
| EntityQuery.NextPair | source/entity_query.hpp:278-310 | each Next of a walk sees the key it produced last |
| EntityQuery.EntriesPrefix | source/entity_query.hpp:278-310 | the entries found so far are an initial part of all entries |
| EntityQuery.WalkEntries | source/entity_query.hpp:278-310 | a walk returns the first 2048 entries that pass the filter in iteration order, and both exits leave the same stack |
| EntityOperations.PushValidEntity | source/entity_query.hpp:313-330 | succeeds exactly when the located value says it is valid |
| EntityOperations.MatchingMeans | source/entity_query.hpp:955-962 | the page is cut from exactly the summaries whose lower-cased class holds the lower-cased filter |
| EntityOperations.FieldNameMeans | source/entity_query.hpp:595-611 | field names are 1 to 64 letters, digits and underscores, listed one by one, without two leading underscores |
| EntityOperations.PrimitiveReadsBack | source/entity_query.hpp:1101-1122 | exactly strings, bools and finite numbers are accepted, and what is pushed reads back as the JSON given if and only if no string has a NUL inside |
| EntityOperations.ValueReadsBack | source/entity_query.hpp:1124-1152 | the same with finite vectors, given as arrays of three numbers |
| EntityOperations.WalkEntities | source/entity_query.hpp:180-201 | the entity walk: one summary per entity value in iteration order, page and count of those that match, stack as found |
| EntityOperations.ReadParent | source/entity_query.hpp:204-249 | the parent index is that of the valid value GetParent answered with, on every outcome stack-neutral |
| EntityOperations.DescribeEntity | source/entity_query.hpp:204-249 | summary, parent and health are what the entity's methods brought |
| EntityOperations.PushEntityTable | source/entity_query.hpp:251-276 | succeeds exactly when the method of the valid entity brings a table |
| EntityOperations.CallSetter | source/entity_query.hpp:435-560 | the setter is called with the entity and the argument exactly when it is a function and the argument exists; stack effect of every outcome |
| EntityOperations.RunAngleSetters | source/entity_query.hpp:835-858 | SetAngles, and SetEyeAngles exactly when the first did not go through; where it did, SetEyeAngles is not asked for |
| EntityOperations.Query.ListEntities | source/entity_query.hpp:126-202 | page and total are those of the matching summaries of what was located or scanned: every listed class holds the filter and the total counts exactly those that do; the caller's stack is exactly as found, and it fails only if the engine answered a fetch or call of this operation with an error |
| EntityOperations.Query.GetEntityDetail | source/entity_query.hpp:204-249 | the detail of the value located for the index, not-found exactly without one, stack as found |
| EntityOperations.Query.GetEntityTableEntries | source/entity_query.hpp:251-311 | the first 2048 filtered entries of the table GetTable brought, none without a table, stack as found |
| EntityOperations.Query.GetEntityNetworkVarEntries | source/entity_query.hpp:349-407 | the same for GetNetworkVars, unfiltered |
| EntityOperations.Query.SetEntityField | source/entity_query.hpp:409-433 | reports success exactly when name, entity and value are acceptable, and then the last call made is this assignment, whose argument reads back as the JSON given; otherwise nothing was assigned; stack as found |
| EntityOperations.Query.SetEntityTableField | source/entity_query.hpp:313-347 | the same for a field of the table GetTable brought, vectors included |
| EntityOperations.Query.SetEntityNetworkVar | source/entity_query.hpp:435-467 | reports success exactly when the named setter of the valid entity was called with the value and returned, the argument reading back as the JSON given; stack as found |
| EntityOperations.Query.SetEntityPos | source/entity_query.hpp:469-501 | the same for SetPos with finite coordinates |
| EntityOperations.Query.SetEntityHealth | source/entity_query.hpp:531-560 | the same for SetHealth, where an exception from the call counts as failure |
| EntityOperations.Query.SetEntityAngles | source/entity_query.hpp:503-529 | the same for SetAngles or, exactly when that did not go through, SetEyeAngles |
| Session.ReportKeeps | source/basic_server.hpp:318-331 | a turn that reads the clock prints nothing if the last line still shows the time left, and else one wider-or-equal line that shows exactly the whole seconds left at that reading, strictly fewer than before |
| Session.FinishKeeps | source/basic_server.hpp:333-346 | so does the closing line |
| Session.ReceiveKeeps | source/basic_server.hpp:1991-1992 | taking up a request keeps every request either being handled or answered once with its own id |
| Session.AnswerKeeps | source/basic_server.hpp:392-410 | so does answering the innermost one |
| Session.HandledOne | source/basic_server.hpp:1991-2066 | a request that is received, handled while others come and go inside, and answered leaves the outer ones as they were and is itself answered with its id |
| Session.Server.SendMessage | source/basic_server.hpp:247-256 | accepted, counted as a failure, or suppressed exactly when disposed |
| Session.Server.SendResponse | source/basic_server.hpp:392-410 | counts the response and its error code, and adds one message to accepted, failed or suppressed |
| Session.Server.ConnectedDone | source/basic_server.hpp:211-245 | ends the wait, drops a pause request, announces the connection and the pause, and resumes after an initial wait unless at the entry stop |
| Session.Server.OnClose | source/basic_server.hpp:196-203 | waits again and resumes; counts the close once per connection |
| Session.Server.ExecuteMessage | source/basic_server.hpp:257-282 | a parse error, an invalid request and a request are told apart and each is answered once |
| Session.Server.ExecuteRequest | source/basic_server.hpp:1991-2066 | with any nesting inside: the request ends up answered once with its own id, even if its handler throws, and the ledger balances; that a handler that does not throw sends its response once, as its last act, is part of the model |
| Session.Server.Dispatch | source/basic_server.hpp:2032-2066 | the error code of the response: disposed, unknown method, or internal error when the handler throws |
| Session.Server.PerformAll | source/basic_server.hpp:156-204 | every run of activities keeps the ledger (responses + being handled = requests + parse errors + invalid requests; responses + notifications = accepted + failures + suppressed), the flag invariant, and the nesting |
| Session.Server.DoExit | source/basic_server.hpp:120-142 | the notice of an open session is suppressed: nothing reaches the stream, which ends closed and unhooked |
| Session.Server.HandleConsoleOutput | source/basic_server.hpp:1761-1785 | requests a pause exactly for an error in an attached, live session that stops on errors |
| Session.Server.DoPause | source/basic_server.hpp:156-168 | announces the pause and the resumption, and ends resumed or disconnected, keeping the ledger whatever arrives meanwhile; without a client it stays paused |
| Session.Server.TakePauseRequest | source/basic_server.hpp:170-177 | the request is consumed, and pauses exactly when attached |
| Session.Server.DoTick | source/basic_server.hpp:170-190 | keeps the invariant with nested ticks and waits; a quiet tick does exactly what the pause request says; a due initial wait blocks once; any other tick without a client ends with one or counts a timeout; a request that is waiting is answered |
| Session.Server.WaitForConnection | source/basic_server.hpp:309-391 | blocks once per activation; with a timeout of T seconds ends within 1000 T + 1 turns, connected, disposed, or expired with both flags cleared and the debugger running, never before the deadline; a client who arrives in the first turn ends it; every value shown is the time left in whole seconds when the clock was read, the values fall, the lines widen, and the right line closes them; without blocking it takes one turn |
| Session.RemainingIsTimeLeft | source/basic_server.hpp:363-376 | what is reported is the number of whole seconds left, zero after the deadline |
| Session.CountdownShows | source/basic_server.hpp:318-331 | the padded line starts with that number in decimal |
| Session.Server.Apply | source/basic_server.hpp:2032-2066 | what a handler does to stop-on-error, the pause request and the debugger, and nothing else |
| Session.Server.Activate | source/basic_server.hpp:91-117 | a fresh activation, with or without a client: request and stop-on-error cleared, initial wait exactly when configured, flag invariant kept |
| Session.Server.Start | source/main.cpp:212-247 | a new server waits for a client exactly when the option says so, for the given time or 60 seconds if that is negative |
| StopOnError.StepKeepsInv | source/basic_server.hpp:91-177 | in every interleaving the pending flag says whether a report was stored since the last exchange or clear, and what is stored is the one report under way |
| StopOnError.PausesConsumeReports | source/basic_server.hpp:170-177 | over every run each tick-issued pause consumes a report of its own, which an error had raised and which was stored since the last exchange and clear; pauses never outnumber errors raised or successful exchanges |
| StopOnError.StoredUnderFlags | source/basic_server.hpp:1761-1785 | over every run, between the raise of a stored report and its store the server was attached, live and stopping on errors, each in some state of the run |
| StopOnError.PauseUnderFlags | source/basic_server.hpp:1761-1785 | so every tick-issued pause needed all three flags for the report it consumes |
| StopOnError.NoStopNoPause | source/basic_server.hpp:1761-1785 | a run in which stop-on-error is never set stores and pauses nothing |
| StopOnError.ReportIsStored | source/basic_server.hpp:1761-1785 | a report that is finished while all three flags stay set is stored and not dropped |
| StopOnError.ResetDoes | source/basic_server.hpp:91-117 | whatever the dispatcher does meanwhile, a reset takes at most five more steps and ends attached, live, listening, with stop-on-error off, and paused if asked for |
| StopOnError.ExitDoes | source/basic_server.hpp:120-142 | an exit takes at most four more steps and ends disposed, detached, deaf and running |
| StopOnError.ConsumedOnce | source/basic_server.hpp:170-177 | no report is consumed by two pauses: the later one was raised after the earlier one was stored |
| StopOnError.PauseIsFresh | source/basic_server.hpp:170-177 | over every run a pause consumes a report raised after the previous pause and the last clear, unless at that moment a report was under way or waiting |
| StopOnError.StoredWasRaised | source/basic_server.hpp:1761-1785 | every stored report has its own raised error before it, with no other report in between |
| StopOnError.PausesAtMostTakes | source/basic_server.hpp:170-177 | errors between two ticks coalesce: every pause needs an exchange of its own |
| StopOnError.DispatcherOnlyReports | source/basic_server.hpp:1761-1785 | no run of the dispatcher thread pauses or changes the session, and a waiting request stays |
| StopOnError.NextTickPauses | source/basic_server.hpp:170-177 | a waiting request pauses at the next tick of a live, attached, running session, whatever the dispatcher does in between |
| StopOnError.StalePauseCondition | source/basic_server.hpp:170-177 | between two operations of the Lua thread, a pause without a new error or a clear is possible if and only if a report is under way or waiting and the server is attached and live |
| StopOnError.StaleAfterClear | source/basic_server.hpp:1782-1784 | after a reset, exit, connect or cache clear, a pause without a new error is possible if and only if a report is under way and the server is attached and live |
| StopOnError.StaleAfterPause | source/basic_server.hpp:173-176 | after a tick-issued pause, another one without a new error is possible if and only if a report is under way or waiting and the server is attached and live |
| StopOnError.ClearCanMissReport | source/basic_server.hpp:1977-1988 | such a state is reached by a cache clear during a report |
| StopOnError.PauseCanMissReport | source/basic_server.hpp:1782-1784 | a run from the start to such a state by a pause, with a second report under way |
| LaunchFlags.JumpLosesNothing | source/main.cpp:79-97 | the positions skipped after a rejected match contain no hit, for a flag that does not overlap itself at a boundary |
| LaunchFlags.JumpCanLoseHit | source/main.cpp:79-97 | for every flag that does there is a line in which the scan misses a hit |
| LaunchFlags.JumpCondition | source/main.cpp:79-97 | the scan finds the hits of every line if and only if the flag does not overlap itself at a boundary |
| LaunchFlags.FirstHit | source/main.cpp:116-149 | the first accepted match is the first token equal to the flag |
| LaunchFlags.HasLaunchFlag | source/main.cpp:79-97 | true exactly when the scan meets a hit, and for a flag without boundary characters exactly when it is one of the tokens |
| LaunchFlags.OptionsMean | source/main.cpp:168-185 | each option is set exactly when its flag is a token; the timeout is the number after the first pause flag, 60 without a readable one, 0 without the flag |
| LaunchFlags.ParseAccepts | source/main.cpp:99-114 | white space, at most one sign and digits are read as their value, unless it is negative or beyond the largest int |
| LaunchFlags.ParseReadsNumeral | source/main.cpp:99-114 | and no other text is accepted |
| LaunchFlags.BoundariesListed | source/main.cpp:47-50 | the five boundary characters |
| LaunchFlags.TryParseNonNegativeInt | source/main.cpp:99-114 | accepts exactly the texts of the reference parser, read as a C string, none beyond the largest int |
| LaunchFlags.ParseDigits | source/main.cpp:99-114 | the decimal digits of any int are parsed back |
| LaunchFlags.TryGetLaunchFlagValue | source/main.cpp:116-149 | parses exactly the token after the first occurrence of the flag |
| LaunchFlags.Runtime.RefreshRuntimeOptions | source/main.cpp:168-185 | the options are a function of the token list |
| LaunchFlags.TokensIgnoreSeparators | source/main.cpp:47-50 | the token list does not depend on which boundary characters stand in front of, between and behind the tokens, or how many |
| LaunchFlags.EveryLineIsRendered | source/main.cpp:47-50 | every line is its tokens with such separators, so that covers all lines |
| ServerOwnership.StepKeepsValid | source/main.cpp:199-361 | every legal step keeps: no server deleted twice, each live server in exactly one slot, active server equal to its slot |
| ServerOwnership.OwnershipIsSound | source/main.cpp:199-361 | so does every run in which Initialize and Deinitialize alternate and only collection runs in between; nothing leaks when all slots are gone |
| ServerOwnership.InitializeCondition | source/main.cpp:279-291 | Initialize keeps it if and only if no server is active |
| ServerOwnership.SecondInitializeDeletesTwice | source/main.cpp:279-291 | the run that fails otherwise |
| ServerOwnership.DeinitializeCondition | source/main.cpp:342-361 | an unload leaves no server alive if and only if there is none or the active one is the only one |
| ServerOwnership.ServerCanOutliveUnload | source/main.cpp:265-277 | a legal run in which a late collection makes an unload leave a server alive |
| ServerOwnership.Module.Initialize | source/main.cpp:279-340 | hands out a slot never used before, empty and registered; keeps ownership sound if and only if no server is active |
| ServerOwnership.Module.Activate | source/main.cpp:199-249 | deletes the server the slot held, and on success makes a server never seen before the active one; ownership stays sound, also when construction throws |
| ServerOwnership.Module.Deactivate | source/main.cpp:251-263 | deletes the server the slot held, leaves the slot empty and nothing active; ownership stays sound |
| ServerOwnership.Module.Destruct | source/main.cpp:265-277 | deletes the server the slot held, and nothing when Deinitialize has emptied it; ownership stays sound for live and late-collected slots |
| ServerOwnership.Module.Deinitialize | source/main.cpp:342-361 | deletes the active server and empties its slot, so that a later collection deletes nothing; ownership stays sound |
| Fingerprint.ToFingerprint | source/error_aggregator.hpp:95-123 | the lower-cased alphanumeric runs joined by single dashes, or the fallback |
| Fingerprint.CollectRuns | source/error_aggregator.hpp:97-112 | the loop with its previous-dash flag |
| Fingerprint.OfIsCanonical | source/error_aggregator.hpp:95-123 | no leading, trailing or doubled dash, only lower-case alphanumerics |
| Fingerprint.OfIsIdempotent | source/error_aggregator.hpp:95-123 | a fingerprint is its own fingerprint |
| Fingerprint.OfIgnoresCase | source/error_aggregator.hpp:95-123 | lower-casing the message first changes nothing |
| Fingerprint.SameFingerprint | source/error_aggregator.hpp:95-123 | two messages share a fingerprint exactly when they have the same lower-cased runs |
| ErrorAggregator.Aggregator.AddError | source/error_aggregator.hpp:15-27 | returns the number of reports with this fingerprint since the last clear and keeps the table describing the history |
| ErrorAggregator.Aggregator.Clear | source/error_aggregator.hpp:29-32 | forgets the history |
| ErrorAggregator.AddedDescribes | source/error_aggregator.hpp:15-27 | counts and first trimmed messages after one more report |
| ErrorAggregator.RebuildDescribes | source/error_aggregator.hpp:15-32 | for every history the table holds each count and first message, and the counts sum to the reports |
| ErrorAggregator.OnlyOneTable | source/error_aggregator.hpp:15-32 | and no other table does |
| ErrorAggregator.CountsSumToReports | source/error_aggregator.hpp:15-32 | the counts sum to the reports since the last clear |
| ErrorAggregator.TrimMessage | source/error_aggregator.hpp:41-56 | strips white space at both ends, nothing else |
| Text.TrimMeans | source/error_aggregator.hpp:41-56 | trimming takes away white space at both ends, all of it, and nothing else |
| ErrorAggregator.CountedTogether | source/error_aggregator.hpp:58-93 | two reports are counted together exactly when their rewritten texts have the same runs; outer white space and case make no difference |
| ErrorLines.TryExtractLuaErrorMessage | source/basic_server.hpp:1709-1746 | the first hit among the whole message and the lines the scan visits |
| ErrorLines.FirstErrorIsFirst | source/basic_server.hpp:1709-1746 | if any candidate is an error, the first such one is returned |
| ErrorLines.NoErrorNoLine | source/basic_server.hpp:1709-1746 | otherwise there is no result |
| ErrorLines.VisitedAreTheLines | source/basic_server.hpp:1722-1743 | the scan visits each non-empty line once, in order |
| ErrorLines.ScansAgree | source/basic_server.hpp:1709-1746 | it agrees with splitting at each CR or LF separately, for every test that rejects blank lines |
| NumberFormat.FormatNumber | source/entity_query.hpp:860-876 | the stripped six-decimal text |
| NumberFormat.ParseUndoesFormat | source/entity_query.hpp:860-876 | a decimal parser undoes it |
| NumberFormat.FormatIsInjective | source/entity_query.hpp:860-876 | distinct millionths have distinct texts |
| NumberFormat.TextIsCanonical | source/entity_query.hpp:860-876 | no trailing fractional zero, no bare dot, integer zeros stay, a minus for negative numbers only, no leading zero |
| Paging.SliceGrows | source/entity_snapshot.hpp:26-86 | the page test of the loops adds an item to the page exactly when it falls into the slice |
| Paging.PagesCover | source/entity_snapshot.hpp:26-86 | consecutive pages concatenate to the whole list |
| Paging.ContainsIgnoresCase | source/entity_snapshot.hpp:147-158 | the containment test ignores case in both arguments |
| Paging.MatchesClassMeans | source/entity_snapshot.hpp:147-174 | a class is accepted exactly when the lower-cased filter stands somewhere in the lower-cased class name |
| EntitySnapshot.Query.ListEntities | source/entity_snapshot.hpp:26-86 | page and total are the slice from offset of length min(limit, 200) and the length of the filtered list; every listed edict is valid with a class that holds the filter, and the total counts exactly those |
| EntitySnapshot.FilteredMeans | source/entity_snapshot.hpp:26-86 | the list holds the summary of every listed edict of the range once, by rising index, and nothing else |
| EntitySnapshot.FastListMeans | source/entity_snapshot.hpp:26-86 | the same for the one edict of the fast path |
| EntitySnapshot.FastPathIsRestriction | source/entity_snapshot.hpp:26-86 | the one-id list is the filtered list restricted to that id |
| EntitySnapshot.FastPathAgrees | source/entity_snapshot.hpp:26-86 | hence the fast path gives what a full scan restricted to that id gives, for ids within the scan |
| EntitySnapshot.FastPathCondition | source/entity_snapshot.hpp:26-86 | for an id of at least 1: the fast path is the restricted scan for every engine and filter if and only if the id is within the scan |

## Left out

- LogPipeline.StepKeepsInv: the threads and both pipelines are values and steps, not a class with methods, because their point is the interleaving; the flags are sequentially consistent, although the source reads some without a lock.
- SpewPipeline.NoneLeft: one adapter instance, as the source demands; the original spew function is assumed to return.
- SpewCalls.CallIsPushedAndHandedOn: whether there is an original function to call, and which, is not modelled.
- SpewPipeline.StopIsBounded: endless runs are considered for the logging adapter only.
- LogLiveness.EveryCallReturns: fairness is assumed: a thread that can take its next step again and again takes it at last, which for a thread at a lock means a mutex that starves nobody. Callbacks and other adapters' handlers return.
- LogPipeline.EveryCallCompletes: std::thread construction is assumed not to fail; the 64-bit Windows build without a hook is not modelled.
- LuaStack.Lua.Next: a table is not changed during a walk over it; calls made by a summary cannot change the result of ents.GetAll, which is fresh.
- EntityOperations.Query.ListEntities: assumes that the accessor chunks compile, as do the other public operations; what happens otherwise is stated by TryGetEntityValue and PushRegistryChunk.
- EntityQuery.TryGetEntityValue: one member for the five functions of the source, which differ in the accepted type only; vectors and angles are not narrowed to float.
- NumberFormat.FormatNumber: numbers are whole millionths or not finite, so IEEE rounding in the sixth decimal and negative zero are not modelled.
- ErrorAggregator.Aggregator.AddError: the rewriting of paths and line numbers is an arbitrary fixed function between the two trims, the last-seen clock is left out, and counts do not overflow.
- ErrorLines.TryExtractLuaErrorMessage: the line test is an arbitrary function that rejects blank lines; its regular expressions are not modelled.
- Session.Server.ExecuteRequest: the parameter checks and results of the individual handlers, apart from what they do to the session; a handler is assumed to send its response last.
- Session.Server.WaitForConnection: clock readings are whole milliseconds of an abstract clock that moves at least 1 ms per sleep; with no timeout the wait is endless, and the end of the script stands for the shutdown of the server. Lua that runs when a countdown line is printed is assumed not to tick the debugger; a tick from there would start a second wait inside the first.
- Session.Server.DoPause: when the scripted events end, the peer disconnects.
- Session.Server.Activate: reset(nullptr) with its reconnect of the stream is left out, and so is a reset from inside a blocking wait; the module makes neither call.
- Session.Server.HandleConsoleOutput: is one step here; StopOnError has its interleaving with the Lua thread.
- StopOnError.PausesConsumeReports: the three flags the dispatcher tests are read in separate, sequentially consistent steps, although two of them are plain variables in the source.
- JSON text, colours, human-readable error strings, module pinning, symbol lookup and reading the command line from the operating system.
- read_entity_properties and push_table_get_keys, which nothing calls.
- The engine, ASIO and lrdb::debugger: only the stream's openness and send results, the debugger's paused state and whether it is the entry stop, and the answers of Lua calls are modelled.
