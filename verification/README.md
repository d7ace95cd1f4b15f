# Verified models of the runtime's algorithms

Dafny models of the self-contained algorithms and state machines in the
repository, one component per group of modules. Each component has a model
on values, a proof about it, and, where the source changes things step by
step, classes or loops that are proved to be that model. `dafny verify
dfyconfig.toml` checks everything.

- **Plugin ordering** (`DependencyOrder`, `StarterPreset`): the stable
  topological sort with its cycle search, and the starter preset that feeds it.
- **Job queue** (`QueueModel`, `QueueProofs`, `QueueHistory`, `QueueDrain`,
  `InMemoryQueue`): the queue as a state machine over its methods, timers,
  aborts and promise continuations, for every clock; then the class that
  refines it.
- **Event numbering** (`EventIds`, `EventSequence`, `EventStore`,
  `EventSequencer`): the promise-chain lock, the numbers taken under it and what
  is stored under them, for any interleaving.
- **Fallback YAML parser** (`YamlText`, `YamlParser`, `YamlBlankEnding`,
  `YamlTopKeys`, `YamlShape`, `YamlRoundTrip`): the block parser, when it stops,
  what it accepts, and its round trip.
- **LSP framing** (`LspFraming`, `LspWaits`): reading messages from a chunked
  byte stream.
- **Tar reader** (`TarArchive`, `TarEndless`, `TarLoops`, `TarRoundTrip`): ustar,
  long-name and pax entries, as the Interchange Format sections of the pax
  utility in IEEE Std 1003.1 describe them; when the walk ends, and what it
  extracts.
- **Record stores** (`StorageModel`, `StorageAgreement`, `StorageHistory`,
  `StorageClasses`): the nested maps and the SQL table in simulation, and what
  they hold, told from the history of each key.
- **Config transaction** (`ConfigTransaction`, `ConfigOutcomes`,
  `ConfigTransactionRun`): planning, writing and rollback under a schedule of
  file system faults, and when it succeeds.
- **Pending questions** (`Interaction`, `InteractionAnswers`), **stream merge**
  (`MergeStreams`), **retention sweep** (`RetentionSweep`, `RunHistory`).

`Options`, `Objects` and `Strings` hold what they share: absent values, plain
objects as dictionaries, trimming, numerals and bytes.

The clock, the file system, JSON, UTF-8 decoding, schema checks and path
resolution are parameters, and the theorems hold for all of them (UTF-8
decoding is assumed to treat ASCII bytes as themselves). A recursion that the
source may not leave counts down a `fuel`; results are about every fuel, or
about any that is large enough.

What the proofs turned up in the code, each stated as a lemma below:

- The fallback YAML parser rejects every document, other than JSON, that ends
  with a newline and has content: `nextContentLine` returns -1 and the
  enclosing block starts over. With nothing but `__proto__` keys at the top, each
  with a value that leaves the inherited setter in reach, and a nested block at
  the end, and only then, it never returns.
- The tar reader accepts a sign in the size field, so a header may lead back to
  itself or to an earlier one. It runs for ever exactly when it comes to a place
  twice with the same path set aside.
- `drain()` on a closed queue whose job is still running never returns; a caller
  that came before the close is released by it at the latest.
- Bytes that arrive in the same chunk as the answer to an LSP request, behind
  it, are lost to the next request.
- The SQL store cannot restore, or begin a transaction, inside a transaction;
  the memory store can. Restoring in memory does not trim namespace names.
- A failed backup read in the config transaction counts as absence, so a later
  rollback removes that file.
- A pin is lost exactly when a result is written of a run that was read before
  the pin was set.
- Plugins with equal ids make `resolvePluginOrder` fail, also where there is no
  cycle to report.

## Model

| member | source | states |
|---|---|---|
| `DependencyOrder.ValidatePluginDependencies` | packages/core/src/plugin-host/dependency-order.ts:71-97 | an issue for exactly the dependencies no plugin is registered for, with all registered ids, in registration order; none if and only if everything is registered |
| `DependencyOrder.MissingIssuesExact` | packages/core/src/plugin-host/dependency-order.ts:79-93 | an issue is reported for a dependency exactly when no registered plugin has that id, and it lists all registered ids |
| `DependencyOrder.CycleSearch.Visit` | packages/core/src/plugin-host/dependency-order.ts:26-57 | one visit keeps the search state: the stack is a path of dependency edges and what is left behind is finished in post order; a result is a cycle |
| `DependencyOrder.ClosedStackIsCycle` | packages/core/src/plugin-host/dependency-order.ts:27-34 | meeting a plugin that is being visited closes a cycle of dependency edges with distinct inner ids; every such plugin is on the stack, so the `[pluginId, pluginId]` fallback is dead code |
| `DependencyOrder.FindCycle` | packages/core/src/plugin-host/dependency-order.ts:18-69 | either a cycle (first id equals last, inner ids distinct, consecutive ids are edges between the given plugins), or a post order of all of them as a witness that there is none |
| `DependencyOrder.StuckHasNoPostOrder` | packages/core/src/plugin-host/dependency-order.ts:107-126 | completeness of the search: plugins none of which is ready, with registered dependencies, have no post order |
| `DependencyOrder.StuckOutcome` | packages/core/src/plugin-host/dependency-order.ts:126-140 | a stuck sort always reports a real cycle; the empty cycle ("could not be reconstructed") happens only when two plugins share an id |
| `DependencyOrder.FirstReady` | packages/core/src/plugin-host/dependency-order.ts:111-124 | the candidate chosen is the ready one with the smallest registration index, and none is chosen exactly when the sort is stuck |
| `DependencyOrder.ValidOrderHasNoCycle` | packages/core/src/plugin-host/dependency-order.ts:99-147 | an order with dependencies first excludes cycles |
| `DependencyOrder.GreedyIsLeast` | packages/core/src/plugin-host/dependency-order.ts:111-143 | the greedy choice gives the lexicographically least order by registration index among all orders that put dependencies first |
| `DependencyOrder.LeastOrderUnique` | packages/core/src/plugin-host/dependency-order.ts:99-147 | there is only one such order |
| `DependencyOrder.ResolvePluginOrder` | packages/core/src/plugin-host/dependency-order.ts:99-147 | succeeds if and only if ids are unique, dependencies registered and the graph acyclic, and then returns the least valid order; otherwise the missing dependencies, or a cycle that really exists |
| `DependencyOrder.DependencyOrderIsKept` | packages/core/src/plugin-host/dependency-order.ts:107-146 | a list that already has every dependency earlier is returned unchanged |
| `StarterPreset.DefaultTableIsOrdered` | packages/preset-starter-hono/src/index.ts:159-295 | in the default slot table every slot comes after the slots it depends on |
| `StarterPreset.ResolveSlotBindings` | packages/preset-starter-hono/src/index.ts:522-574 | accepts exactly the overrides none of which repeats a slot, names an unknown slot, disables a required one, disables with a plugin id or empties the id; the first refused one decides the error; each slot ends as its override says |
| `StarterPreset.OutcomeDetermines` | packages/preset-starter-hono/src/index.ts:522-574 | those per-slot outcomes leave no freedom in the resolved bindings |
| `StarterPreset.ResolveAddonsBySlot` | packages/preset-starter-hono/src/index.ts:576-617 | addons land before or after their slot, in the order given; the first bad addon decides the error |
| `StarterPreset.CreateResolvedStarterPreset` | packages/preset-starter-hono/src/index.ts:619-668 | the preset exists exactly when sandbox, overrides and addons are accepted, and its plugins are the layout of slots with their addons |
| `StarterPreset.SandboxTerminal` | packages/preset-starter-hono/src/index.ts:619-668 | with Docker and no terminal plugin of the caller's own every accepted preset has the sandbox terminal plugin and the overrides decide every other slot; in all other cases the overrides alone decide |
| `StarterPreset.AddonsAreAsDescribed` | packages/preset-starter-hono/src/index.ts:576-617 | the addons at a place are those put there, in the order given, required only if the caller says so |
| `StarterPreset.SlotPluginsAreAsResolved` | packages/preset-starter-hono/src/index.ts:619-668 | every slot plugin of a preset is the binding its slot was resolved to, with its id, source and need |
| `StarterPreset.ResolveBootstrapPluginSpecs` | packages/preset-starter-hono/src/index.ts:701-739 | one spec per plugin, in order, its dependencies those of its slot or anchor slot that are present |
| `StarterPreset.LayoutDependsBackwards` | packages/preset-starter-hono/src/index.ts:279-295 | in any table whose slots depend backwards, every emitted dependency occurs earlier in the layout, whatever addons surround it |
| `StarterPreset.SpecsInDependencyOrder` | packages/preset-starter-hono/src/index.ts:701-739 | every accepted preset is emitted with each dependency strictly earlier |
| `StarterPreset.StartupOrder` | packages/preset-starter-hono/src/index.ts:486-739 | composition with the resolver: it returns the emitted list unchanged when plugin ids are distinct, and refuses it otherwise |
| `InMemoryQueue.InMemoryQueue.Enqueue` | packages/plugin-queue-memory/src/index.ts:270-338 | the new state is the model's for every argument and flag, with refusal when closing, closed or full, a type error for NaN or infinite numbers (which uses up a sequence number), and a job that settles at once for an aborted signal |
| `InMemoryQueue.InMemoryQueue.InsertPending` | packages/plugin-queue-memory/src/index.ts:431-444 | push and sort give the sorted list with the job inserted |
| `InMemoryQueue.InMemoryQueue.RemovePending` | packages/plugin-queue-memory/src/index.ts:446-456 | removes the job and its listener, or says that it is not pending |
| `InMemoryQueue.InMemoryQueue.Pause` | packages/plugin-queue-memory/src/index.ts:340-348 | pauses and disarms, or does nothing |
| `InMemoryQueue.InMemoryQueue.Resume` | packages/plugin-queue-memory/src/index.ts:350-358 | resumes and arms, or does nothing |
| `InMemoryQueue.InMemoryQueue.Drain` | packages/plugin-queue-memory/src/index.ts:360-369 | returns at once when idle, else adds a waiter |
| `InMemoryQueue.InMemoryQueue.Close` | packages/plugin-queue-memory/src/index.ts:371-408 | immediate and draining close, and a second close while one waits |
| `InMemoryQueue.InMemoryQueue.Clear` | packages/plugin-queue-memory/src/index.ts:410-425 | rejects every pending job once and returns their number |
| `InMemoryQueue.InMemoryQueue.ArmWork` | packages/plugin-queue-memory/src/index.ts:506-542 | arms the timer for a head that is not due and the immediate for one that is, or flushes the waiters |
| `InMemoryQueue.InMemoryQueue.PumpWork` | packages/plugin-queue-memory/src/index.ts:544-574 | starts due jobs while slots are free; the loop equals the model's recursion, so re-arming after the loop is dead code |
| `InMemoryQueue.InMemoryQueue.AbortFires` | packages/plugin-queue-memory/src/index.ts:311-320 | an abort removes and rejects a pending job, and does nothing to a started one |
| `InMemoryQueue.InMemoryQueue.HandlerEnds` | packages/plugin-queue-memory/src/index.ts:597-607 | the handler's end settles the job before its slot is given back |
| `InMemoryQueue.InMemoryQueue.SlotFreed` | packages/plugin-queue-memory/src/index.ts:608-616 | gives the slot back; the counter is never negative, so the clamp is dead code |
| `InMemoryQueue.InMemoryQueue.FinishClose` | packages/plugin-queue-memory/src/index.ts:395-407 | a draining close becomes closed after its drain |
| `QueueModel.InsertSorts` | packages/plugin-queue-memory/src/index.ts:431-444 | insertion keeps the list strictly sorted by due time, priority downwards and sequence |
| `QueueModel.SortedUnique` | packages/plugin-queue-memory/src/index.ts:431-444 | any sort of the same jobs gives the same list |
| `QueueProofs.StepKeeps` | packages/plugin-queue-memory/src/index.ts:270-616 | every public method and every callback keeps the queue's invariant |
| `QueueProofs.JobsAreNeverLostOrDoubled` | packages/plugin-queue-memory/src/index.ts:270-616 | after any run each accepted job is in exactly one of pending, executing and settled, its promise is settled once if at all, and both limits hold |
| `QueueProofs.NoLostWakeup` | packages/plugin-queue-memory/src/index.ts:506-574 | exactly one of timer and immediate is armed when the queue is open, not paused, has a pending job and a free slot; neither otherwise |
| `QueueProofs.FirstInFirstOut` | packages/plugin-queue-memory/src/index.ts:431-444 | no job starts while one enqueued earlier with the same due time and priority is pending, and such jobs start in order |
| `QueueProofs.PumpStops` | packages/plugin-queue-memory/src/index.ts:544-574 | when a pump ends all slots are taken, or nothing is pending, or no pending job was due at its last sample |
| `QueueProofs.OutcomesAreFinal` | packages/plugin-queue-memory/src/index.ts:576-616 | a settled promise never changes |
| `QueueProofs.StartedJobsAreSettledByTheirHandler` | packages/plugin-queue-memory/src/index.ts:576-616 | a job is settled by its handler if and only if it was started; abort, clear and close only reach jobs that never start |
| `QueueProofs.ClosingAcceptsNothing` | packages/plugin-queue-memory/src/index.ts:270-273 | once closing begins nothing more is accepted, whatever interleaves |
| `QueueProofs.DrainingCloseWaitsForIdle` | packages/plugin-queue-memory/src/index.ts:371-408 | the queue becomes closed only when idle, except by an immediate close that no draining close preceded |
| `QueueHistory.JobsCarryWhatWasAsked` | packages/plugin-queue-memory/src/index.ts:137-163 | over every run each pending or started job carries the time and the priority that the call which got its number asked for, 0 where it gave none, and its signal |
| `QueueHistory.StartsAreDueAndFirst` | packages/plugin-queue-memory/src/index.ts:431-444 | over every run a job starts at a sample of the clock not before the time asked for, and before every job then left pending: due earlier, or of higher priority, or enqueued earlier |
| `QueueHistory.StepSettlesExactly` | packages/plugin-queue-memory/src/index.ts:270-616 | every event settles exactly the promises it should: a handler's end as it ended, an abort its own pending job, clear() and an immediate close all pending ones; a call is accepted exactly when the queue is open, has room and the numbers are finite |
| `QueueHistory.WakeupStartsAllItCan` | packages/plugin-queue-memory/src/index.ts:544-574 | a wakeup that comes starts jobs until every slot is taken, nothing is pending, or nothing pending was due |
| `QueueHistory.ArmedByDueTime` | packages/plugin-queue-memory/src/index.ts:506-542 | whenever the immediate is armed the first job was due when it was armed, and whenever the timer is it was not |
| `QueueHistory.PausedStartsNothing` | packages/plugin-queue-memory/src/index.ts:340-358 | a paused queue starts nothing until it is resumed or closed |
| `QueueHistory.PauseAndResumeWork` | packages/plugin-queue-memory/src/index.ts:340-358 | on an open queue pausing and resuming take effect at once |
| `QueueDrain.WaitersLeaveOnlyWhenIdle` | packages/plugin-queue-memory/src/index.ts:479-504 | no drain() caller is released too early: only when the queue is idle, or by an immediate close that no draining close preceded |
| `QueueDrain.OpenQueueReleasesWaiters` | packages/plugin-queue-memory/src/index.ts:360-369 | a caller of drain() on an open queue has been released in every later state in which the queue is closed, or idle and not paused |
| `QueueDrain.StrandedExactly` | packages/plugin-queue-memory/src/index.ts:360-369 | a caller of drain() on a busy queue can be left waiting by an idle queue that is not merely paused if and only if the queue was already closed; then it is never released, whatever happens |
| `QueueDrain.ClosedQueueKeepsWaiters` | packages/plugin-queue-memory/src/index.ts:506-510 | arming a closed queue releases nobody: a waiter of a closed queue stays over every run |
| `QueueDrain.LateDrainHangs` | packages/plugin-queue-memory/src/index.ts:360-369 | a concrete run: a job is running, close({drain: false}), then drain(): the waiter stays for ever |
| `EventIds.EventIdsAreUnique` | packages/plugin-web-ui/src/server.ts:268-269 | different thread and number give different ids, though thread ids may contain colons and numbers exceed six digits |
| `EventSequence.StepKeepsLock` | packages/plugin-web-ui/src/server.ts:224-245 | every step, arrival, entry, progress or leaving, keeps the chain of promises and the lock entry in agreement |
| `EventSequence.AtMostOneInside` | packages/plugin-web-ui/src/server.ts:224-245 | at most one caller of a thread is inside the lock and callers enter in arrival order, deleting the entry included |
| `EventSequence.FirstActiveCanProceed` | packages/plugin-web-ui/src/server.ts:228-244 | the lock is never lost: the first caller that has not left is inside or may enter, also after failures |
| `EventStore.FailuresReleaseTheLock` | packages/plugin-web-ui/src/server.ts:228-284 | whatever ends a caller's turn, a failed list or store included, it leaves with the number it took and the next caller of its thread may enter |
| `EventStore.NumbersAreAboveStored` | packages/plugin-web-ui/src/server.ts:247-258 | over every run, with any failures and any other threads, each number a thread takes is above every event that was stored for it at the start |
| `EventStore.NothingIsOverwritten` | packages/plugin-web-ui/src/server.ts:260-284 | from any state of any run on, every stored event stays as it is, new ones included, when the stored ids fit the stored numbers |
| `EventStore.RestartOverwritesNothing` | packages/plugin-web-ui/src/server.ts:247-284 | a run leaves a store whose ids fit, so a server started again on it overwrites nothing either |
| `EventStore.OverwrittenExactly` | packages/plugin-web-ui/src/server.ts:247-284 | some run overwrites an event stored at the start if and only if the store holds an id of a thread with a number above every sequence that listing the thread gives |
| `EventSequence.NumbersAreConsecutive` | packages/plugin-web-ui/src/server.ts:247-258 | the numbers of a thread are consecutive in arrival order from there on |
| `EventSequence.LaterTakesLarger` | packages/plugin-web-ui/src/server.ts:247-266 | later arrivals take larger numbers, so numbers are distinct |
| `EventSequence.StoredNumbersAreConsecutive` | packages/plugin-web-ui/src/server.ts:260-284 | when no store fails, every number taken is stored: the stored sequence has no gap |
| `EventSequencer.EventSequencer.Arrive` | packages/plugin-web-ui/src/server.ts:224-236 | chaining a caller is the model's arrival |
| `EventSequencer.EventSequencer.Enter` | packages/plugin-web-ui/src/server.ts:237-252 | entering takes a cached number or starts a listing |
| `EventSequencer.EventSequencer.ListReturned` | packages/plugin-web-ui/src/server.ts:254-257 | the maximum of the listed sequences, plus one, is taken and cached |
| `EventSequencer.EventSequencer.ReleaseLock` | packages/plugin-web-ui/src/server.ts:240-245 | releasing deletes the entry only when it is the caller's own |
| `YamlText.ScanFor` | packages/plugin-config-yaml/src/resolution.ts:626-651 | finds the first place of a character outside quotes |
| `YamlText.StripInlineComment` | packages/plugin-config-yaml/src/resolution.ts:699-723 | cuts at the first `#` outside quotes |
| `YamlText.PreprocessYamlLines` | packages/plugin-config-yaml/src/resolution.ts:399-433 | the lines of the document, or the first line with a tab or an odd indentation |
| `YamlText.LinesAreConverted` | packages/plugin-config-yaml/src/resolution.ts:399-433 | every line is the conversion of its source line, trimmed, with an indentation only when it has content |
| `YamlParser.NextContentLine` | packages/plugin-config-yaml/src/resolution.ts:601-609 | the next line with content from an index on, which may be -1, or -1 |
| `YamlParser.SplitAtDelimiter` | packages/plugin-config-yaml/src/resolution.ts:611-624 | a key without open quote or delimiter is split off exactly |
| `YamlParser.ItemTextIsNotEmpty` | packages/plugin-config-yaml/src/resolution.ts:484-507 | the branch for a sequence item without text cannot be taken |
| `YamlParser.ParseYamlSequence` | packages/plugin-config-yaml/src/resolution.ts:452-524 | the loop equals the recursive parser of sequences |
| `YamlParser.ParseYamlMapping` | packages/plugin-config-yaml/src/resolution.ts:526-599 | the loop, with nested blocks, duplicate keys and restarts at -1, equals the recursive parser, on every input on which it stops |
| `YamlParser.ParseSimpleYaml` | packages/plugin-config-yaml/src/resolution.ts:357-397 | the whole parser, including JSON first and the check for trailing content |
| `YamlShape.ParsedIsIndentedRight` | packages/plugin-config-yaml/src/resolution.ts:452-594 | a document that is parsed has nothing deeper below a list item or a key with a value, and whatever stands below a bare key stands two deeper |
| `YamlShape.LinesAreGoodExactly` | packages/plugin-config-yaml/src/resolution.ts:399-433 | the lines of a text are accepted if and only if none has a tab and each with content stands at an even depth; the first that does not decides the error |
| `YamlShape.WordsAndJson` | packages/plugin-config-yaml/src/resolution.ts:653-697 | words are read in either case; quoted strings and inline collections are what JSON reads, and its errors are errors |
| `YamlBlankEnding.ContentEndingStops` | packages/plugin-config-yaml/src/resolution.ts:357-609 | the parser stops on every list of lines whose last line has content |
| `YamlBlankEnding.BlankEnding` | packages/plugin-config-yaml/src/resolution.ts:461-464 | what lines followed by blank ones give, told from the lines alone: the same error, trailing content, a duplicate key, or no end |
| `YamlBlankEnding.BlankEndingNeverParses` | packages/plugin-config-yaml/src/resolution.ts:535-538 | a blank last line never parses, and the parser runs for ever exactly when the lines without it parse to an object with no own key and its prototype setter in reach, and end deeper than they begin |
| `YamlTopKeys.TopKeysAreThoseOfLines` | packages/plugin-config-yaml/src/resolution.ts:526-599 | the keys of a parsed document, `__proto__` aside, are those of its lines at the top indentation |
| `YamlTopKeys.EndlessExactly` | packages/plugin-config-yaml/src/resolution.ts:535-594 | lines with a blank ending keep the parser running for ever if and only if they parse without it, end deeper than they begin, and at the top only give `__proto__` values that leave its setter in reach (no null, no object that has its own `__proto__` or has lost the setter itself) |
| `YamlBlankEnding.EndlessExample` | packages/plugin-config-yaml/src/resolution.ts:552-594 | such an input: `__proto__:` over an indented entry, and a final newline (assigning `__proto__` adds no own key) |
| `YamlTopKeys.LostSetterStops` | packages/plugin-config-yaml/src/resolution.ts:535-594 | and one that only looks like it: `__proto__:` over an indented `__proto__: ~` ends with a duplicate key, in the third pass |
| `YamlBlankEnding.NewlineEndedText` | packages/plugin-config-yaml/src/resolution.ts:357-397 | a text that ends with a newline and is not taken as JSON parses if and only if it has no content at all |
| `YamlRoundTrip.QuotedScalar` | packages/plugin-config-yaml/src/resolution.ts:682-684 | single quotes round-trip every string without tab and newline |
| `YamlRoundTrip.ScalarTextParses` | packages/plugin-config-yaml/src/resolution.ts:653-697 | every printed scalar is read as its value and shows no comment or delimiter |
| `YamlRoundTrip.EntryIsFound` | packages/plugin-config-yaml/src/resolution.ts:545-594 | the value of a printed mapping holds every entry under its key |
| `YamlRoundTrip.OnlyEntriesAreFound` | packages/plugin-config-yaml/src/resolution.ts:545-594 | and no other key |
| `YamlRoundTrip.PrintedLinesParse` | packages/plugin-config-yaml/src/resolution.ts:435-599 | the lines of a printed tree, with blank lines between, parse to the tree's value |
| `YamlRoundTrip.PrintedTextParses` | packages/plugin-config-yaml/src/resolution.ts:357-433 | a text that carries a printed tree among blank and comment lines parses exactly when its last line is not one of those, and then to the tree's value |
| `YamlRoundTrip.RoundTrip` | packages/plugin-config-yaml/src/resolution.ts:357-599 | print, then parse: the tree's value |
| `YamlRoundTrip.NewlineBreaksRoundTrip` | packages/plugin-config-yaml/src/resolution.ts:380-397 | the same text with a newline after it never parses |
| `YamlRoundTrip.ItemAmongKeys` | packages/plugin-config-yaml/src/resolution.ts:560-566 | a list item at the level of a mapping's keys, after any of them, is reported as such |
| `LspFraming.ResponseWait.OnData` | packages/plugin-lsp/src/index.ts:161-181 | the loop leaves the wait in the state the model gives for the old state and the chunk |
| `LspFraming.ResponseWait.OnEvent` | packages/plugin-lsp/src/index.ts:140-205 | so do timeout, process error and exit; only the first settlement counts |
| `LspFraming.TryReadAppend` | packages/plugin-lsp/src/index.ts:105-131 | what was read from a buffer is read the same when more bytes follow |
| `LspFraming.ChunksDoNotMatter` | packages/plugin-lsp/src/index.ts:161-181 | for every byte stream, well-formed or not, every split into chunks ends in the state of the whole |
| `LspFraming.WaitOutcome` | packages/plugin-lsp/src/index.ts:140-205 | a whole wait: the outcome of the data alone, or a rejection if it was still pending |
| `LspFraming.SettledStays` | packages/plugin-lsp/src/index.ts:148-154 | a settled wait never changes |
| `LspFraming.FramesAreDecoded` | packages/plugin-lsp/src/index.ts:161-181 | for every list of framed messages, undecoded tail and split: decoded in order, the first answer resolves, and without one exactly the tail is kept |
| `LspFraming.PartIsIncomplete` | packages/plugin-lsp/src/index.ts:105-122 | any proper beginning of a framed message is waited on |
| `LspFraming.NoLengthRejects` | packages/plugin-lsp/src/index.ts:113-117 | a message whose headers name no length rejects the wait, whatever follows and however it is split |
| `LspWaits.BeginningWaits` | packages/plugin-lsp/src/index.ts:161-181 | short of the end of the first deciding message a wait goes on, wherever the bytes end |
| `LspWaits.NextWaitSees` | packages/plugin-lsp/src/index.ts:140-181 | two waits on one stream: the first takes the fewest chunks that reach the end of its deciding message; the next one gets the bytes behind it less those in the same chunk, so all of them if and only if some chunk ends at that message |
| `LspWaits.SecondAnswerIsLost` | packages/plugin-lsp/src/index.ts:171-174 | two framed answers: in one chunk the second is lost to the next wait, in two chunks the next wait gets it |
| `LspFraming.FrameDescribesBody` | packages/plugin-lsp/src/index.ts:100-103 | the header that is written names the length of the body |
| `LspFraming.FrameRoundTrip` | packages/plugin-lsp/src/index.ts:100-131 | a framed request reads back, with what follows it untouched |
| `TarArchive.ParsePaxAttributes` | packages/plugin-tools-terminal-sandbox/src/index.ts:967-991 | the loop equals the recursive reader of pax records |
| `TarArchive.ExtractTarArchiveToDirectory` | packages/plugin-tools-terminal-sandbox/src/index.ts:1065-1129 | the loop equals the walk of the model, with every error, on every input on which it stops |
| `TarEndless.EndlessExactly` | packages/plugin-tools-terminal-sandbox/src/index.ts:1073-1126 | on every byte string and from every point the reader runs for ever if and only if it comes to the same offset with the same path set aside twice |
| `TarEndless.BoundDecides` | packages/plugin-tools-terminal-sandbox/src/index.ts:1073-1126 | a number of rounds told from the archive alone decides it: if the reader has not stopped by then it never stops |
| `TarEndless.ForwardWalkStops` | packages/plugin-tools-terminal-sandbox/src/index.ts:1073-1126 | it stops whenever no header that it reaches has a size of -512 or less |
| `TarLoops.OneHeaderLoops` | packages/plugin-tools-terminal-sandbox/src/index.ts:955-965 | a concrete archive: one header of size `-1000` (the size field accepts a sign) leads to itself |
| `TarLoops.TwoHeadersLoop` | packages/plugin-tools-terminal-sandbox/src/index.ts:955-965 | another: a header of size `-2000` leads back to the one before it |
| `TarRoundTrip.SizeFieldIsRead` | packages/plugin-tools-terminal-sandbox/src/index.ts:955-965 | every octal size field, ended by NUL or space, is read as its size |
| `TarRoundTrip.HeaderIsRead` | packages/plugin-tools-terminal-sandbox/src/index.ts:1074-1087 | every ustar header block is read as its name, prefix, size and type, whatever the other fields are |
| `TarRoundTrip.SelfCount` | packages/plugin-tools-terminal-sandbox/src/index.ts:967-991 | every pax record has a length that counts itself |
| `TarRoundTrip.RecordsAreRead` | packages/plugin-tools-terminal-sandbox/src/index.ts:967-991 | every list of well-formed pax records is read as the attributes it states, less white space at the end of a value |
| `TarRoundTrip.ArchiveIsExtracted` | packages/plugin-tools-terminal-sandbox/src/index.ts:1065-1126 | for every list of entries, named by ustar name and prefix, by a long-name entry or by a pax path, exactly those are entered, in order and with their contents, up to the first that is refused |
| `TarRoundTrip.FailsAtFirstRefused` | packages/plugin-tools-terminal-sandbox/src/index.ts:1104-1122 | extraction fails at the first entry whose path is unsafe, with that path, or that is a link with a place, as a refused link, after exactly what the entries before it ask for: a directory or a file with its data at its place, and nothing for other types or the destination itself |
| `TarRoundTrip.NoneRefused` | packages/plugin-tools-terminal-sandbox/src/index.ts:1104-1122 | with no entry refused it succeeds and has done what all of them ask for |
| `TarRoundTrip.NothingIsMadeElsewhere` | packages/plugin-tools-terminal-sandbox/src/index.ts:1102-1122 | for every byte string, whatever is made has a place that some name resolves to, below the destination |
| `TarRoundTrip.OpenArchiveFails` | packages/plugin-tools-terminal-sandbox/src/index.ts:1128-1128 | without the closing block the same entries are made and then it fails |
| `TarRoundTrip.CutArchiveFails` | packages/plugin-tools-terminal-sandbox/src/index.ts:1084-1086 | cut inside an entry's data it fails after the entries before |
| `TarRoundTrip.BadSizeFails` | packages/plugin-tools-terminal-sandbox/src/index.ts:955-965 | a header whose size field is no octal number ends the extraction, after exactly what the entries before it ask for |
| `TarRoundTrip.EveryEntryIsMade` | packages/plugin-tools-terminal-sandbox/src/index.ts:1108-1122 | files and directories that resolve are all made |
| `StorageAgreement.StoresAgree` | packages/plugin-storage-memory/src/index.ts:107-363 | any sequence of operations within the stated conditions, with transactions that commit or not, gives the same answers and the same records, version and times included, as the table; namespace flags may be set in memory alone |
| `StorageAgreement.RunsAgree` | packages/plugin-storage-sqlite/src/index.ts:94-345 | the same from any two states with equal records, inside or outside a transaction |
| `StorageAgreement.NamespaceFlags` | packages/plugin-storage-sqlite/src/index.ts:139-153 | the table knows a namespace exactly when the maps hold a record in it |
| `StorageAgreement.DeleteAgrees` | packages/plugin-storage-memory/src/index.ts:349-363 | removing a record answers alike if and only if the key is not blank or memory has the namespace |
| `StorageAgreement.RestoreNamespaceAgrees` | packages/plugin-storage-sqlite/src/index.ts:481-503 | restoring a namespace has the same outcome if and only if no two keys are equal when trimmed, or one is blank |
| `StorageAgreement.RestoreAllAgrees` | packages/plugin-storage-sqlite/src/index.ts:182-210 | restoring a snapshot agrees if and only if every section is tidy (trimmed name where it has records, no shared keys), or some key is blank; memory does not trim namespace names here |
| `StorageAgreement.NestingDiffers` | packages/plugin-storage-sqlite/src/index.ts:321-345 | inside a transaction the table refuses restores and transactions, memory does not |
| `StorageHistory.MemoryHoldsHistory` | packages/plugin-storage-memory/src/index.ts:107-363 | after any operations, with transactions that commit or not, the record of every key is what the history of that key makes it: the last value written, the number of writes since it came to be, the time of the first and of the last |
| `StorageHistory.TableHoldsHistory` | packages/plugin-storage-sqlite/src/index.ts:94-345 | the same for the table, inside or outside a transaction |
| `StorageHistory.MemoryAnswersHistory` | packages/plugin-storage-memory/src/index.ts:107-363 | every read, check, write and removal of a key answers from that history |
| `StorageHistory.TableAnswersHistory` | packages/plugin-storage-sqlite/src/index.ts:94-304 | and so it does in the table |
| `StorageHistory.WrittenIsFound` | packages/plugin-storage-memory/src/index.ts:320-347 | in both stores the value last written to a key, or the updater's answer to the value before, is found under it, whatever was asked of other keys in between |
| `StorageHistory.TransactionsSayHowTheyEnded` | packages/plugin-storage-sqlite/src/index.ts:321-345 | a transaction runs its body and says whether it was committed as its callback ended; only the table refuses one inside another |
| `StorageHistory.NamespacesAreTold` | packages/plugin-storage-sqlite/src/index.ts:139-153 | the table knows a namespace, and reports its removal, exactly when a key of it has a record; memory does at least then |
| `StorageClasses.MemoryStorage.WriteRecord` | packages/plugin-storage-memory/src/index.ts:320-347 | creates or rewrites a record, version and times as the model says |
| `StorageClasses.MemoryStorage.RemoveRecord` | packages/plugin-storage-memory/src/index.ts:349-363 | removes a record; a missing namespace answers before the key is looked at |
| `StorageClasses.MemoryStorage.Restore` | packages/plugin-storage-memory/src/index.ts:156-173 | replaces all namespaces or none |
| `StorageClasses.MemoryStorage.Transact` | packages/plugin-storage-memory/src/index.ts:175-190 | works on a draft object and swaps its maps in on commit |
| `StorageClasses.MemoryStorage.Apply` | packages/plugin-storage-memory/src/index.ts:107-272 | each request changes the maps as the model says |
| `StorageClasses.SqliteStorage.Restore` | packages/plugin-storage-sqlite/src/index.ts:182-210 | replaces the table or leaves it |
| `StorageClasses.SqliteStorage.Transact` | packages/plugin-storage-sqlite/src/index.ts:321-345 | commits or rolls back the body's changes |
| `StorageClasses.SqliteStorage.Apply` | packages/plugin-storage-sqlite/src/index.ts:94-304 | each request changes the table as the model says |
| `ConfigTransaction.PathsTellEditsApart` | packages/plugin-config-yaml/src/transactions.ts:530-543 | different concerns and keys name different files |
| `ConfigTransaction.PlanCarriesEdits` | packages/plugin-config-yaml/src/transactions.ts:200-257 | a plan without failures carries out every edit, in order, each one valid and checked against the digest of its file |
| `ConfigTransaction.RollbackEffect` | packages/plugin-config-yaml/src/transactions.ts:620-633 | a completed rollback sets every backed-up path to its last backup and touches no other |
| `ConfigTransaction.FailureRestores` | packages/plugin-config-yaml/src/transactions.ts:275-328 | a failing transaction leaves a file as it was if and only if its backup did not fail to read; a file whose backup was missed is removed |
| `ConfigTransaction.MissedBackupRemovesFile` | packages/plugin-config-yaml/src/transactions.ts:576-633 | a concrete run: the backup of the only file fails to read, its write fails, and the rollback removes the file |
| `ConfigTransaction.AllOrNothing` | packages/plugin-config-yaml/src/transactions.ts:275-328 | with all backups read, failure of any delete, write, rename or of verification changes no file, edits that repeat a path included |
| `ConfigTransaction.SuccessHoldsLastEdits` | packages/plugin-config-yaml/src/transactions.ts:599-618 | on success each file holds the effect of the last edit to it, and the others are untouched |
| `ConfigTransaction.NoFaultNoThrow` | packages/plugin-config-yaml/src/transactions.ts:275-328 | without faults the rollback never fails |
| `ConfigTransaction.TransactionIsAllOrNothing` | packages/plugin-config-yaml/src/transactions.ts:173-328 | the same for the whole call from its edits on; a failing preview changes nothing |
| `ConfigOutcomes.OutcomesSayWhatHappened` | packages/plugin-config-yaml/src/transactions.ts:275-328 | an applied transaction left files that the verifier accepts; a failed verification means that it refused written files with the last edits; a failed write that a call failed, or that the verifier threw on such files |
| `ConfigOutcomes.AppliedExactly` | packages/plugin-config-yaml/src/transactions.ts:173-328 | without faults a transaction is applied if and only if there are edits, the revision is the one expected, each edit is valid, meets the digest it expects and can be serialized, and the verifier accepts the files with the last edits; and these are then the files left |
| `ConfigOutcomes.PlanEditExactly` | packages/plugin-config-yaml/src/transactions.ts:330-420 | without faults an edit is planned exactly when it is valid, matches its file and can be serialized; only a mismatch is reported as a conflict |
| `ConfigOutcomes.NoFileIsTorn` | packages/plugin-config-yaml/src/transactions.ts:599-618 | wherever the writes stop, every file holds what it held before or the whole of what one of the edits gives it |
| `ConfigTransactionRun.FileSystem.PreviewEdits` | packages/plugin-config-yaml/src/transactions.ts:173-273 | the loop over the edits gives the model's failures and plan |
| `ConfigTransactionRun.FileSystem.CreateBackups` | packages/plugin-config-yaml/src/transactions.ts:576-597 | the backups are what reads give before any write; a failed read counts as absence |
| `ConfigTransactionRun.FileSystem.WriteFiles` | packages/plugin-config-yaml/src/transactions.ts:599-618 | each plan is carried out through a temporary file, up to the first call that fails |
| `ConfigTransactionRun.FileSystem.RestoreBackups` | packages/plugin-config-yaml/src/transactions.ts:620-633 | the backups are put back one by one, up to the first call that fails |
| `ConfigTransactionRun.FileSystem.Apply` | packages/plugin-config-yaml/src/transactions.ts:275-328 | the whole transaction, including a rollback that throws inside the try block and is repeated |
| `Interaction.FrozenChoicesAreDistinct` | packages/plugin-interaction/src/index.ts:329-371 | accepted choices keep their number and have distinct ids |
| `Interaction.AcceptedAnswers` | packages/plugin-interaction/src/index.ts:411-502 | an accepted response is text that is not blank, or names offered choices, none twice, one for a single choice, each with the label of that choice |
| `Interaction.AnswersAreOffered` | packages/plugin-interaction/src/index.ts:748-829 | over every run, each published answer fits the question it was given to, whose choices have distinct ids |
| `InteractionAnswers.AnswerSettles` | packages/plugin-interaction/src/index.ts:438-502 | a pending question is settled by an answer if and only if its text is not blank, or the number of ids fits its kind and each is offered and named once; and then with that text less white space at its ends, or those ids trimmed and in order, each with its label; any other answer changes nothing |
| `InteractionAnswers.CancelSettles` | packages/plugin-interaction/src/index.ts:830-832 | cancelling settles the pending question as cancelled, and does nothing without one |
| `InteractionAnswers.AskRegisters` | packages/plugin-interaction/src/index.ts:373-408 | asking registers a good question with its choices trimmed, a timer if it has a timeout and a handler if it has a signal, and changes nothing otherwise |
| `Interaction.NextKeeps` | packages/plugin-interaction/src/index.ts:688-831 | asking, answering, cancelling, timers, aborts and abort handlers keep the registry and the log consistent |
| `Interaction.EventsAlternate` | packages/plugin-interaction/src/index.ts:705-831 | after any run the events of one question id alternate between requested and one terminal event, and the id is pending exactly when the last is a request |
| `Interaction.ClosesItsOwn` | packages/plugin-interaction/src/index.ts:779-801 | a timer or abort handler closes the question that installed it and no other, also when the id is in use again |
| `Interaction.SettledStays` | packages/plugin-interaction/src/index.ts:688-732 | a promise settles at most once |
| `Interaction.EventsMatchOutcomes` | packages/plugin-interaction/src/index.ts:705-829 | every published event agrees with how that question's promise was settled |
| `Interaction.InteractionPlugin.AskUser` | packages/plugin-interaction/src/index.ts:373-408 | registers the question exactly when its kind, id, text, timeout (a positive number that ends at a date) and choices are good, its signal has not aborted and its id is not pending |
| `Interaction.InteractionPlugin.AnswerQuestion` | packages/plugin-interaction/src/index.ts:812-829 | an invalid answer changes nothing, a valid one settles the question |
| `Interaction.InteractionPlugin.ClosePendingQuestion` | packages/plugin-interaction/src/index.ts:705-732 | closes the question with the id, if there is one |
| `Interaction.InteractionPlugin.TimerCallback` | packages/plugin-interaction/src/index.ts:779-787 | the timer's callback is the model's step |
| `Interaction.InteractionPlugin.AbortHandler` | packages/plugin-interaction/src/index.ts:789-801 | the abort handler is the model's step |
| `MergeStreams.StarterAsyncQueue.Push` | examples/starter-hono/src/index.ts:321-333 | the value goes to the first waiting read, or is kept; the queue never holds values and waiters together |
| `MergeStreams.StarterAsyncQueue.Close` | examples/starter-hono/src/index.ts:334-343 | every waiting read ends |
| `MergeStreams.StarterAsyncQueue.Next` | examples/starter-hono/src/index.ts:344-357 | the k-th read gets the k-th accepted value, or the end after the last one once closed, or waits |
| `MergeStreams.NextKeeps` | examples/starter-hono/src/index.ts:432-489 | every step of the merge, whichever read wins the race, keeps the parts of the output equal to what was taken from each source |
| `MergeStreams.MergeIsComplete` | examples/starter-hono/src/index.ts:432-489 | a merge that ends has handed on the whole bootstrap sequence and every value pushed before the close, each in order; before that, a prefix of each |
| `MergeStreams.LeavingClosesQueue` | examples/starter-hono/src/index.ts:486-489 | whether it ends or its consumer leaves, the merge closes the runtime queue, and later pushes are dropped |
| `MergeStreams.PartsAreAll` | examples/starter-hono/src/index.ts:432-489 | the two parts make up the whole output |
| `MergeStreams.MergeProceeds` | examples/starter-hono/src/index.ts:447-485 | the merge is never stuck while a source has answered |
| `MergeStreams.ClosedMergeEnds` | examples/starter-hono/src/index.ts:447-485 | once the runtime queue is closed, every run has at most as many loop steps left as values to hand on, sources to end and one; a merge that ends takes exactly these |
| `MergeStreams.StarterMerge.TakeBootstrap` | examples/starter-hono/src/index.ts:457-475 | taking the bootstrap read is the model's step; its end closes the runtime queue |
| `MergeStreams.StarterMerge.TakeRuntime` | examples/starter-hono/src/index.ts:477-484 | taking the runtime read is the model's step |
| `RetentionSweep.DeletionsAreJustified` | packages/observability/src/repository.ts:353-376 | reclaimed bytes are the sum of the deleted sizes; every deleted run was neither pinned nor active, and too old or met while the total was over the limit |
| `RetentionSweep.TotalIsWhatIsLeft` | packages/observability/src/repository.ts:348-374 | the total that the sweep keeps counting down is the size of what it leaves of the workspace |
| `RetentionSweep.StillOverMeansProtected` | packages/observability/src/repository.ts:341-386 | after any history, if a workspace is over its limit even after a sweep, every run it still has is pinned or active |
| `RetentionSweep.OldestGoFirst` | packages/observability/src/repository.ts:343-376 | once an unprotected run is spared no younger one is deleted |
| `RetentionSweep.WithinLimitsNothingGoes` | packages/observability/src/repository.ts:353-358 | within the limits nothing is deleted or listed |
| `RetentionSweep.CandidatesAre` | packages/observability/src/repository.ts:343-345 | the candidates are the workspace's runs, oldest first |
| `RetentionSweep.NextKeeps` | packages/observability/src/repository.ts:112-178 | every step of the repository keeps active equivalent to a status that is not terminal, and one run per key |
| `RetentionSweep.SweepTakesOnlyFinished` | packages/observability/src/repository.ts:341-386 | after any history a sweep removes exactly the runs it reports, all of its workspace, ended and unpinned; a dry run removes nothing |
| `RunHistory.StatusIsTheLastGiven` | packages/observability/src/repository.ts:916-933 | after any history a run has the status that the last event or result gave it and is active exactly when that status is not an ended one; no sweep takes it before |
| `RunHistory.SizeIsWhatWasRecorded` | packages/observability/src/repository.ts:206-238 | without a sweep the size of a run is the sum of what was recorded for it, each event counted once |
| `RunHistory.CallsTouchTheirRun` | packages/observability/src/repository.ts:300-412 | pinning, exporting and recording change what they should of their run, and its time, and no other run |
| `RunHistory.SweepInNumbers` | packages/observability/src/repository.ts:353-376 | after any history a sweep takes an unprotected run only if it was updated before the cutoff or met while more than the limit was left, and leaves one only if neither holds |
| `RunHistory.SweepLists` | packages/observability/src/repository.ts:353-376 | of the runs a sweep has a reason to take it lists those with a pin as pinned, the active ones without as active, and all others as deleted |
| `RetentionSweep.DryRunForetells` | packages/observability/src/repository.ts:341-386 | a dry run reports what the same sweep would report and remove |
| `RetentionSweep.PinStandsExactly` | packages/observability/src/repository.ts:147-179 | from any state in which a run is pinned, however calls and ingests interleave and sweeps run, it stays stored and pinned until it is unpinned if and only if no result is written of that run that had been read unpinned before |
| `RetentionSweep.PinIsSafeExactly` | packages/observability/src/repository.ts:147-310 | after any history, a pin just set stands in everything that can follow if and only if no ingest that read the run unpinned has its write still to come |
| `RetentionSweep.PinIsLost` | packages/observability/src/repository.ts:147-179 | the shortest such run: read, pinned, written back, swept |
| `RetentionSweep.MemoryRepository.SweepRuns` | packages/observability/src/repository.ts:341-386 | the loop over the candidates gives the model's report and removes what it lists |
| `RetentionSweep.MemoryRepository.AddEvent` | packages/observability/src/repository.ts:220-238 | an event counts once; a new one updates status, size, time and activity |
| `RetentionSweep.MemoryRepository.Pin` | packages/observability/src/repository.ts:300-310 | pinning needs the run to exist |
| `RetentionSweep.MemoryRepository.WriteBack` | packages/observability/src/repository.ts:388-394 | the run that was read is written over the stored one; only the events stay those of the store |

## Left out

- Message texts, column numbers and error classes: errors are kinds, with a line where the source gives one.
- Docker, child processes, sockets, HTTP routes, sessions, templates and user interface code: plumbing.
- URL, IP and redaction policies: security filters over library behaviour.
- `path.posix.normalize` and the destination check of `resolveTarEntryPath`: a parameter that may refuse a path, lead to the root or give a place.
- The line-per-record JSON archive and the base64 wrapper of the tar reader: a loop over a library parser.
- Listeners that throw or re-enter the queue, and its `enqueued`, `started` and other events: not part of the queue's own state.
- Job names, payloads, metadata and the handler's result: carried through unchanged.
- `InMemoryQueue.InMemoryQueue.InsertPending`: `sort` is modelled by insertion at the place the comparison gives; `QueueModel.SortedUnique` says that no other result is possible.
- `EventSequence.StoredNumbersAreConsecutive`: speaks of the case in which no store fails; a failed store uses up its number.
- Order of keys in parsed YAML mappings: values are maps. A numeral keeps its text; the conversion to a double is not modelled.
- `YamlParser.ParseYamlMapping`: inputs on which the source runs for ever are excluded by the fuel; `YamlBlankEnding.BlankEndingNeverParses` says exactly which those are.
- `LspWaits.NextWaitSees`: the next wait is taken to be listening before the next chunk arrives; chunks that come while nobody listens are not modelled.
- Content lengths and sizes beyond the range of exact doubles: integers are unbounded.
- `structuredClone`, `serialize` and values they refuse: values are abstract and always storable.
- `snapshot()` of the stores, listing order and namespaces that are only listed: restores take snapshots as given lists of entries.
- `StorageAgreement.StoresAgree`: updaters are pure functions; one that calls the store again is not modelled. Times are whole numbers: the integer columns of the table refuse a fractional clock, which the maps accept.
- Namespace handles: a request carries its namespace's name, which is normalized as `namespace(name)` does.
- The store outside a draft while a memory transaction runs: requests inside a transaction go to the draft.
- `ConfigTransaction.AllOrNothing`: speaks of paths that do not end in `.tmp`; a failed rename or write may leave its temporary file.
- Schema validation and serialization of config values (`serializeEdit`, `stripInjectedIdentity`, `withInjectedIdentity`), discovery of the config root: parameters of the config transaction.
- Task lists, transports and replay to new transports in the interaction plugin, and a clock that stops giving dates: not part of the question lifecycle.
- `MergeStreams.MergeIsComplete`: the bootstrap source is a finite sequence and does not reject.
- `AsyncEventQueue` of the web UI server: the same queue as the one of the stream merge.
- `RetentionSweep.PinStandsExactly`: the calls of an ingest other than its read and its write are steps that anyone may take.
- Metrics, artifacts, projections and policy decisions of observability runs: they do not decide what a sweep deletes. Times are compared as numbers, and run keys as pairs.
- Terminal-bench import, metrics catalogue, provenance bundles, logging, repo map, memory and message search: record shaping and filters.
