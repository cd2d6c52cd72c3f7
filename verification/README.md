# Verified protocols of a TypeScript monorepo

This project models, in Dafny, the parts of the repository whose correctness is hardest to see
by reading one function: the Kafka producer's circuit breaker and reconnect timers, message
retries with a dead-letter topic, the task-closure protocol over files, the generator of provider
adapters, cycle detection between packages, template interpolation, batch publishing and slugs.
`dafny verify dfyconfig.toml` checks everything.

What the source does by changing things step by step is a class or a method here, proved against a
function on values; what it promises is proved about those functions, for every input and every run.

| Files | What they model |
|---|---|
| `KafkaClient` | `KafkaClientManager`: breaker, half-open timer, reconnect timer, attempts in flight. `Next` is one synchronous piece of code between two awaits; a run is any interleaving that a `Discipline` allows. |
| `MessageRetry`, `HeaderNumbers` | `eachMessage`: handle, republish with an incremented header, dead-letter, or rethrow, over a log with a position and a committed offset. |
| `Retry` | The loops of `withRetry` and `retryOperation`. |
| `TaskRuns`, `TaskClosure`, `TaskCreation` | Evidence and its checks; closers that interleave and crash around an exclusive link; creating a task from its risk areas. |
| `FileTree`, `AdapterOps`, `AdapterRuns`, `AdapterPlan`, `AdapterSync`, `AdapterWorkspace` | A file tree, the generator's file operations, runs of them, the plan for a registry, synchronizing and checking, and the loops that carry it out. |
| `AdapterRegistry`, `AdapterOutcome`, `AdapterResult`, `AdapterReady` | The same synchronization without its plan: which registries are valid, what is generated, what the whole tree is afterwards, and when it succeeds. |
| `PackageCycles` | The depth-first search with its visited set and recursion stack. |
| `StringReplace`, `Translations` | `GetSubstitution` and `replaceAll` (sections 22.1.3.19.1 and 22.1.3.20 of ECMA-262, 2024 edition), interpolation, and the translation store. |
| `EventBus` | Event-type validation, topic names, grouping and sending of a batch. |
| `OrganizationSlug` | The chain of replacements of the slug. |
| `Text`, `Wrappers` | Digits and trimming, and `Option`. |

## Where the code differs from what one would expect

- An open circuit can lose the timer that half-opens it, and then blocks until a close completes
  (`KafkaClient.StuckUntilClosed`). `UnarmsExactly` names the steps that separate a circuit from its
  timer, whatever overlaps: a connect that succeeds while the circuit is open, a close that begins on a
  connected producer while it is open, and a close that ends while it is open. `ArmedExactly` lifts this
  to runs, in both directions; `OverlapGetsStuck` and `FailedCloseGetsStuck` are runs that end stuck.
- "One timer, a set timer means OPEN" holds up to a point of a run exactly when no close before it has
  ended with a half-open timer set (`KafkaClient.SafeExactly`). `OverlappingCloseLeavesTimer` is a run in
  which one does. "Closed means fewer failures than the threshold" holds in every run whatsoever
  (`ClosedBelowAlways`), but needs a positive threshold (`ThresholdDecidesSafety`).
- The catch block of `eachMessage` parses the value again, so a value that is not JSON is never passed,
  counted or dead-lettered (`MessageRetry.UnreadableNeverPassed`). Without a dead-letter topic a message
  is given up silently, exactly when `MessageRetry.DropsExactlyWithoutDeadLetterTopic` says; the log line
  "sent to DLQ" appears there too.
- Handling an entry of the log again adds handler calls, whatever the configuration
  (`MessageRetry.RedeliveryAddsCalls`). The bound grows with each such repeat and with nothing else
  (`HandlerCallsBounded`): failing sends do not break it (`CallsWithoutRepeats`).
- `withRetry` also sleeps after the last failure, before it gives up; `retryOperation` does not.
- Publisher and handlers agree on a topic exactly for event types that lower-casing leaves alone, because
  only the publisher lower-cases (`EventBus.PublisherMeetsHandler`); the validation pattern implies it.
- Slug sanitizing is idempotent on exactly those values whose joined words are not cut right after a
  hyphen (`OrganizationSlug.SanitizingAgain`); `CutAtHyphen` gives a family on which it is not.
- Interpolation goes wrong when a literal or a value that has been put in makes up a placeholder whose
  turn is still to come. `Translations.Clean` says this by counting placeholders before each replacement;
  `InterpolationExact` proves that replacing in turn agrees with simultaneous substitution after every
  parameter if and only if it holds. It holds for one parameter whatever the braces (`OneParameter`), and
  for any number when literals and all values but the last have no opening brace (`PlainIsClean`), which
  is sufficient, not necessary. `BracesInValuesDependOnOrder` shows a case where it fails.

## Model

| member | source | states |
|---|---|---|
| KafkaClient.ClosedBelowAlways | packages/events/src/client.ts:143-178 | with a positive threshold, in every run, whatever overlaps, CLOSED means fewer failures than the threshold |
| KafkaClient.TimerStep | packages/events/src/client.ts:123-178 | from a safe state a step leads to a safe one if and only if it is not a close ending with a half-open timer set; HALF_OPEN is entered from OPEN only |
| KafkaClient.SafeExactly | packages/events/src/client.ts:123-178 | a run of any overlap is safe up to a point if and only if no close before it has ended with a half-open timer set |
| KafkaClient.SafeBeforeLateClose | packages/events/src/client.ts:123-191 | up to such a close, whatever overlaps: CLOSED is below the threshold, at most one half-open timer is set in the runtime, a set timer means OPEN, HALF_OPEN comes from OPEN |
| KafkaClient.AtomicNeverLate | packages/events/src/client.ts:516-533 | when a close is one step, no close ends with a half-open timer set |
| KafkaClient.BreakerSafety | packages/events/src/client.ts:123-191 | so in every run whose closes are one step these four facts hold throughout |
| KafkaClient.ThresholdDecidesSafety | packages/events/src/client.ts:151-154 | the invariant holds at the start if and only if the threshold is at least 1 |
| KafkaClient.FailureCountExactly | packages/events/src/client.ts:123-178 | the failure count goes up by one with each failed attempt of an enabled breaker, back to 0 with a successful connect and a completed close, and stays otherwise |
| KafkaClient.OpensExactly | packages/events/src/client.ts:143-178 | a step leads from not open to open if and only if a failure is counted in HALF_OPEN, or in CLOSED with the threshold reached |
| KafkaClient.HalfOpensExactly | packages/events/src/client.ts:161-174 | the circuit becomes half-open exactly when its timer fires |
| KafkaClient.ClosesExactly | packages/events/src/client.ts:123-138 | the circuit becomes closed exactly by a successful connect in HALF_OPEN or a completed close |
| KafkaClient.ProducerExactly | packages/events/src/client.ts:258-308 | when a producer is there and when it counts as connected after a step |
| KafkaClient.ClosingExactly | packages/events/src/client.ts:258-533 | the closing flag is set by a close that begins, cleared when `getProducer` is entered, and kept otherwise |
| KafkaClient.LoopExactly | packages/events/src/client.ts:258-394 | which timers, attempts, listeners and closes each step adds to the runtime or takes from it |
| KafkaClient.AttemptGoesOn | packages/events/src/client.ts:227-253 | how an attempt in flight goes on: connected, sleeping while tries are left, exhausted after the last |
| KafkaClient.TriesBounded | packages/events/src/client.ts:227-253 | in every run no attempt calls `connect()` more than `maxRetries` times |
| KafkaClient.SerialInvStep | packages/events/src/client.ts:258-333 | without overlapping attempts or closes every step keeps the stronger invariant, and no step calls `connect()` while the circuit is open |
| KafkaClient.SerialLiveness | packages/events/src/client.ts:123-191 | without overlap, the circuit is OPEN exactly while its half-open timer is set, and always the same timer while it stays OPEN, so it cannot stay open forever; nothing connects while it is OPEN |
| KafkaClient.UnarmsExactly | packages/events/src/client.ts:126-138 | from a safe state with OPEN exactly while a timer is set, a step breaks that if and only if, with the circuit open, it is a successful connect, a close beginning on a connected producer, or a close ending |
| KafkaClient.ArmedExactly | packages/events/src/client.ts:123-533 | a run of any overlap keeps OPEN exactly while a timer is set up to a point if and only if no such step came before |
| KafkaClient.StuckUntilClosed | packages/events/src/client.ts:183-191 | an open circuit without a timer lets no attempt start, and leaves that state exactly when `closeProducer` completes |
| KafkaClient.OverlapGetsStuck | packages/events/src/client.ts:126-138 | a run of two overlapping calls that reaches an open circuit without a timer |
| KafkaClient.FailedCloseGetsStuck | packages/events/src/client.ts:524-528 | a run in which a close clears the timer of an open circuit and then fails, with no connect succeeding while it is open |
| KafkaClient.OverlappingCloseLeavesTimer | packages/events/src/client.ts:516-533 | a run in which a failure during `disconnect()` leaves a half-open timer with the circuit closed |
| KafkaClient.ReconnectStep | packages/events/src/client.ts:359-394 | the reconnect field and the set timers agree, attempts stay within 10, and the counter goes up exactly when a timer is set |
| KafkaClient.SchedulesExactly | packages/events/src/client.ts:359-394 | a step sets a reconnect timer if and only if it is a disconnect or a failed reconnect while not closing, with a producer, no reconnect timer set and fewer than 10 attempts |
| KafkaClient.AttemptsExactly | packages/events/src/client.ts:303-394 | the counter is 0 after a successful connect, one higher when a timer is set, and the same otherwise |
| KafkaClient.AttemptBegins | packages/events/src/client.ts:381-393 | a reconnect timer that fires with a producer, not closing and past the checks, begins an attempt |
| KafkaClient.AttemptsCountSchedules | packages/events/src/client.ts:359-394 | between two successful connects the counter is the number of reconnects scheduled |
| KafkaClient.ReconnectsBounded | packages/events/src/client.ts:359-394 | under any overlap at most one reconnect timer is set, and at most 10 reconnects are scheduled between two successful connects, whatever the number of disconnect listeners |
| KafkaClient.CloseStopsReconnects | packages/events/src/client.ts:516-533 | after `closeProducer` starts no reconnect is scheduled or fires until `getProducer` is called, even with one in flight |
| KafkaClient.KafkaClientManager.HandleCircuitBreakerSuccess | packages/events/src/client.ts:123-138 | the new fields are the breaker-success function of the old ones |
| KafkaClient.KafkaClientManager.HandleCircuitBreakerFailure | packages/events/src/client.ts:143-178 | the new fields are the breaker-failure function of the old ones: opening at the threshold from CLOSED and at once from HALF_OPEN |
| KafkaClient.KafkaClientManager.StartGetProducer | packages/events/src/client.ts:258-308 | `getProducer` up to its first await, with its early rejections and early return |
| KafkaClient.KafkaClientManager.DoScheduleReconnect | packages/events/src/client.ts:359-394 | the fields change as the scheduling function whose timers `SchedulesExactly` pins: one reconnect, within the limit, unless closing |
| KafkaClient.KafkaClientManager.CloseProducerBegin | packages/events/src/client.ts:516-533 | clears both timers before it disconnects, or finishes at once when there is nothing to disconnect |
| KafkaClient.KafkaClientManager.Handle | packages/events/src/client.ts:123-533 | the class moves exactly as the transition function that the run theorems are about |
| Retry.RetryOperation | packages/events/src/client.ts:227-253 | returns the first success within `maxRetries` calls, gives up only when all failed, and sleeps only between calls |
| Retry.WithRetry | packages/events/src/handler.ts:322-383 | at most `maxRetries` calls, first success returned, a failure that is not retryable or late is thrown at once; total sleep within the sum of capped backoffs, and within timeout + 10000 on a monotone clock |
| Retry.TotalDelayMonotone | packages/events/src/handler.ts:375-376 | more failures never mean less total sleep |
| Retry.RetryableExactly | packages/events/src/handler.ts:343-348 | a failure is retried if and only if its message contains one of the five phrases |
| Retry.DelayDoubles | packages/events/src/handler.ts:375-376 | the sleeps start with the configured delay and double up to 10000 |
| HeaderNumbers.PrintParses | packages/events/src/handler.ts:469-505 | the printed decimal retry count parses back to the same number |
| MessageRetry.RetryCountExactly | packages/events/src/handler.ts:469-476 | the count read is 0 for a missing, empty or unreadable header, and n for a printed n |
| MessageRetry.SuccessExactly | packages/events/src/handler.ts:147-188 | a handler that succeeds: the value is handled with one call, nothing is sent, and the position moves unless the consumer crashes |
| MessageRetry.FailureRepublishes | packages/events/src/handler.ts:212-221 | a handler that fails with retries left and an acknowledged republish: the message is appended with the count one higher, no dead letter is sent, and the delivery resolves |
| MessageRetry.FailedRepublish | packages/events/src/handler.ts:212-231 | when that republish fails the message goes to the dead-letter topic if there is one, and otherwise the failure is rethrown |
| MessageRetry.FailureGivesUp | packages/events/src/handler.ts:232-252 | with the retries used up: one dead letter with its three headers, or a silent end without a dead-letter topic |
| MessageRetry.UnhandledExactly | packages/events/src/handler.ts:147-210 | a message without value is passed, one that JSON cannot read is not, and neither reaches the handler |
| MessageRetry.FreshMessageRepublished | packages/events/src/handler.ts:189-252 | a message without count whose handler fails is appended with the header "x-retry-count" equal to "1", and not dead-lettered |
| MessageRetry.FreshMessageCalls | packages/events/src/handler.ts:189-252 | in runs where only the handler fails, such a message is dead-lettered after exactly max(0, maxRetries) + 1 handler calls |
| MessageRetry.InvStep | packages/events/src/handler.ts:147-258 | every step keeps: what lies before the position is finished or stored again further on, and both topics hold only unchanged copies of published messages |
| MessageRetry.Accounted | packages/events/src/handler.ts:147-258 | for every configuration, under any failures, redeliveries and crashes, every published message with a value has been handled, was given up, is stored at or beyond the committed offset, or is in the dead-letter topic, unchanged |
| MessageRetry.Conservation | packages/events/src/handler.ts:147-258 | with a dead-letter topic, under any failures, redeliveries and crashes, every published message with a value has been handled, is stored at or beyond the committed offset, or is in the dead-letter topic, key and value unchanged |
| MessageRetry.DropsExactlyWithoutDeadLetterTopic | packages/events/src/handler.ts:232-252 | a delivery gives a message up for good if and only if there is no dead-letter topic, its retries are used up, and its handler failed or it is empty |
| MessageRetry.PassedExactly | packages/events/src/handler.ts:203-210 | some behaviour of handler and sends gets past a message if and only if JSON can read its value |
| MessageRetry.UnreadableNeverPassed | packages/events/src/handler.ts:203-210 | the consumer never gets past a value that is not JSON |
| MessageRetry.CountsBounded | packages/events/src/handler.ts:469-575 | under any failures no copy in either topic has a retry count below its first or beyond the larger of its first and maxRetries |
| MessageRetry.HandlerCallsBounded | packages/events/src/handler.ts:189-252 | in every run, whatever fails: a message starting at count r0 reaches the handler at most max(0, maxRetries - r0) + 1 times, and as often again for each time an entry of it is handed out again; copies still ahead number at most one and those repeats |
| MessageRetry.CallsWithoutRepeats | packages/events/src/handler.ts:189-252 | whatever the sends do, when no entry is handed out twice the bound itself holds |
| MessageRetry.DeadLetteredAfterCalls | packages/events/src/handler.ts:212-252 | a well-formed message whose republishing sends return is dead-lettered only after at least that many calls, and after exactly that many when no entry is handed out twice |
| MessageRetry.ReliableCalls | packages/events/src/handler.ts:189-252 | both, when only the handler fails |
| MessageRetry.RedeliveryAddsCalls | packages/events/src/handler.ts:189-252 | for every configuration and message, a run with crashes alone in which the calls exceed the bound without repeats |
| MessageRetry.MessageHandler.RepublishWithIncrementedRetry | packages/events/src/handler.ts:489-515 | appends the same message with the count one higher, unless the send is refused |
| MessageRetry.MessageHandler.SendToDeadLetterTopic | packages/events/src/handler.ts:525-575 | appends the message with the three dead-letter headers, unless the send is refused |
| MessageRetry.MessageHandler.HandleError | packages/events/src/handler.ts:189-252 | the catch block: which of republish, dead-letter, rethrow and give up happens |
| MessageRetry.MessageHandler.HandleMessage | packages/events/src/handler.ts:147-258 | one delivery has the effect, and resolves, as the function that the run theorems are about |
| MessageRetry.MessageHandler.Deliver | packages/events/src/handler.ts:147-258 | the position moves exactly when `eachMessage` resolves and the consumer does not crash |
| TaskRuns.Dedupe | scripts/agentic/task-runtime.ts:252-254 | the same elements, each once |
| TaskRuns.DedupeKeepsOrder | scripts/agentic/task-runtime.ts:252-254 | in the order of their first appearance |
| TaskRuns.NormalizeTwice | scripts/agentic/task-runtime.ts:265-276 | filling in the request context a second time changes nothing |
| TaskRuns.ContextFilledIn | scripts/agentic/task-runtime.ts:265-276 | what is given stays; the title stands in for a request, the request for its normal form, and the defaults for the rest |
| TaskRuns.SatisfiesExactly | scripts/agentic/task-runtime.ts:290-304 | no answer is: nothing, null, an empty array or object, or white space |
| TaskRuns.ArraysJoin | scripts/agentic/task-runtime.ts:331-331 | String() of an array puts commas between its elements, as a status in an array is read |
| TaskRuns.ValidIdExactly | scripts/agentic/task-runtime.ts:442-454 | an id is valid if and only if it is a list of alphanumeric words joined by hyphens |
| TaskRuns.EvidenceMatchesExactly | scripts/agentic/task-runtime.ts:341-422 | on evidence with the intended types: it matches if and only if the required checks, reviews, lessons and skills are answered as its status needs |
| TaskRuns.AcceptableExactly | scripts/agentic/task-runtime.ts:867-907 | and it is accepted if and only if moreover the contract fields hold something and all lessons captured exist |
| TaskClosure.SourceChecksCoherent | scripts/agentic/task-runtime.ts:341-422 | the checks of the source meet what the protocol theorems need of them, for any allow-lists, contract and lessons |
| TaskClosure.AdvanceKeeps | scripts/agentic/task-runtime.ts:822-953 | one step of one closer keeps its own invariant and never takes away what the others rely on |
| TaskClosure.InvStep | scripts/agentic/task-runtime.ts:822-953 | any step of any closer, a crash or an edit of evidence keeps the invariant |
| TaskClosure.SnapshotsImmutable | scripts/agentic/task-runtime.ts:534-547 | in every run a snapshot never changes once it exists |
| TaskClosure.WritesSnapshotStatus | scripts/agentic/task-runtime.ts:278-284 | whenever a closer writes a task file, the status is that of the task's one snapshot |
| TaskClosure.StatusOrigin | scripts/agentic/task-runtime.ts:930-946 | a task's status is the one it started with or that of its snapshot |
| TaskClosure.ClosersAgree | scripts/agentic/task-runtime.ts:930-952 | any two closers of a task that finish, at whatever time, report the same status |
| TaskClosure.DependenciesDone | scripts/agentic/task-runtime.ts:838-865 | whenever a task is closed, everything it depends on, however indirectly, is done with a passed snapshot |
| TaskClosure.CyclesNeverClose | scripts/agentic/task-runtime.ts:838-865 | no task on a dependency cycle is ever closed or done |
| TaskClosure.CloseWithSnapshot | scripts/agentic/task-runtime.ts:909-937 | closing a task that has a snapshot succeeds exactly when the evidence now in its file is acceptable, and then changes only that file's status, to the snapshot's |
| TaskClosure.CloseWithoutSnapshot | scripts/agentic/task-runtime.ts:822-953 | closing a task without snapshot: it finishes if and only if the task is there and valid, every dependency is done and its evidence is accepted; it then links the evidence, writes the task with filled-in context and its status, and reports it; otherwise nothing changes |
| TaskClosure.ClosesExactly | scripts/agentic/task-runtime.ts:822-953 | over any files at all: it finishes if and only if every check passes, each dependency done with its own matching snapshot that passed and the task's own snapshot, if any, its own and matching; what it writes is stated exactly |
| TaskClosure.RepairsAfterCrash | scripts/agentic/task-runtime.ts:909-937 | after a crash between snapshot and status, closing again repairs the status if and only if the task file's evidence is acceptable, as it is unless edited, and touches nothing else |
| TaskClosure.ClosingAgainChangesNothing | scripts/agentic/task-runtime.ts:909-946 | a closure that succeeded, repeated, leaves all files as they are with the same answer |
| TaskClosure.TaskRepository.CloseTaskRun | scripts/agentic/task-runtime.ts:822-953 | returns a status exactly for a closable first closure or a repeated one with accepted evidence, with the files as `CloseWithoutSnapshot` and `CloseWithSnapshot` say, and otherwise leaves them |
| TaskClosure.TaskRepository.RunCloser | scripts/agentic/task-runtime.ts:822-953 | the body of the call, undisturbed, ends as the stepwise closer run to its end |
| TaskCreation.CreateTaskRun | scripts/agentic/task-runtime.ts:694-820 | adds exactly the built task, if and only if memory is there, the id is free and the task is valid |
| TaskCreation.BuiltAsAsked | scripts/agentic/task-runtime.ts:741-806 | the new task has the given id, title, areas and choices, the defaults for what is not given, and starts as todo |
| TaskCreation.NewTaskValidExactly | scripts/agentic/task-runtime.ts:439-507 | what makes a new task valid, in terms of the input and the allow-lists |
| TaskCreation.RequiredExactly | scripts/agentic/task-runtime.ts:713-740 | a check, review, lesson or skill is required if and only if the template, a matching pattern or a matching skill asks for it |
| TaskCreation.BuiltIsNormalized | scripts/agentic/task-runtime.ts:772-789 | a new task's request context needs no filling in |
| TaskCreation.CollectExact | scripts/agentic/task-runtime.ts:713-740 | something is collected if and only if a matching item gives it |
| TaskCreation.RequirementsCover | scripts/agentic/task-runtime.ts:713-806 | everything a matching risk pattern or skill asks for is required |
| TaskCreation.MoreAreasMoreRequirements | scripts/agentic/task-runtime.ts:713-740 | naming more risk areas never removes a required check, review, lesson, skill or end-to-end run |
| TaskCreation.DoneWasAccepted | scripts/agentic/task-runtime.ts:892-946 | a done task has a snapshot that was accepted for the requirements it started with |
| TaskCreation.DoneTaskShowsRequirements | scripts/agentic/task-runtime.ts:341-422 | a task created for its risk areas and later done has a snapshot in which every check and review those areas call for passed and every lesson and skill is recorded |
| AdapterOps.MirrorLookup | scripts/agentic/sync-provider-adapters.ts:276-297 | when copying a skill directory throws, and what every path holds afterwards |
| AdapterOps.StepEffect | scripts/agentic/sync-provider-adapters.ts:162-165 | each file operation succeeds exactly under its stated condition, and then has its stated effect on every path |
| AdapterRuns.RunKeepsAgents | scripts/agentic/sync-provider-adapters.ts:400-513 | a run that writes outside `.agents` leaves everything under it alone |
| AdapterRuns.RunLookup | scripts/agentic/sync-provider-adapters.ts:400-513 | what a run leaves at a path is decided by the last step that touches it and by `.agents` |
| AdapterRuns.RepeatChangesNothing | scripts/agentic/sync-provider-adapters.ts:400-513 | a run that succeeds a second time changes nothing |
| AdapterRuns.RunsAgain | scripts/agentic/sync-provider-adapters.ts:400-513 | a tidy run that succeeds on a tree succeeds on every tree with the same `.agents` and otherwise part of its result |
| AdapterPlan.CleanDirsKnown | scripts/agentic/sync-provider-adapters.ts:335-352 | a valid registry has only the four allowed directories emptied, with all its agent directories among them |
| AdapterRegistry.ValidExactly | scripts/agentic/sync-provider-adapters.ts:299-398 | the registry passes every check made before the first deletion if and only if nothing in it offends: names, unknown references, tools and targets, each spelled out |
| AdapterRegistry.NormalDrops | scripts/agentic/sync-provider-adapters.ts:82-99 | empty parts, single dots, and a name followed by two dots can be left out anywhere in a configured path |
| AdapterRegistry.NormalStays | scripts/agentic/sync-provider-adapters.ts:82-99 | and what remains, steps upward followed by names, is kept |
| AdapterPlan.ResolvePlain | scripts/agentic/sync-provider-adapters.ts:459-466 | a plain alias resolves to a file of that name directly in the agent directory |
| AdapterPlan.PlanPlaces | scripts/agentic/sync-provider-adapters.ts:82-99 | every write of a valid registry's plan goes to an allowed place outside `.agents`, and every source lies inside |
| AdapterPlan.PlanTidy | scripts/agentic/sync-provider-adapters.ts:400-513 | the plan deletes first and later only inside what it emptied; stale root adapters lie on no other step's way |
| AdapterOutcome.SyncGenerates | scripts/agentic/sync-provider-adapters.ts:423-513 | a synchronization that succeeds leaves every root adapter with its import, every agent file with its text, every mirror with what is below its source (and GitHub's second skill file), every custom agent with its trimmed prompt; an agent file is gone exactly when a later provider empties the same directory |
| AdapterResult.SyncElsewhere | scripts/agentic/sync-provider-adapters.ts:400-513 | where nothing is generated: the directories on the way are made, the emptied directories and the root adapters hold nothing else, and everything else is as before; with `SyncGenerates` this determines the whole tree |
| AdapterResult.RootAdapterClaimed | scripts/agentic/sync-provider-adapters.ts:410-440 | a root adapter is there afterwards if and only if a provider claims it |
| AdapterReady.SyncSucceedsExactly | scripts/agentic/sync-provider-adapters.ts:299-516 | a synchronization succeeds if and only if the registry is valid and the tree is ready: all sources there, and nothing in the way of a directory or a file |
| AdapterReady.FirstSync | scripts/agentic/sync-provider-adapters.ts:423-473 | a registry of two providers and one agent on a tree that holds only `.agents`: the synchronization succeeds and leaves both imports and the agent file |
| AdapterSync.SyncLeavesAgentsAlone | scripts/agentic/sync-provider-adapters.ts:299-516 | synchronizing touches nothing under `.agents` |
| AdapterSync.SyncIdempotent | scripts/agentic/sync-provider-adapters.ts:299-516 | a second synchronization succeeds and changes nothing |
| AdapterSync.CheckAfterSync | scripts/agentic/sync-provider-adapters.ts:535-578 | the check succeeds right after a synchronization |
| AdapterSync.CheckMeansCurrent | scripts/agentic/sync-provider-adapters.ts:545-574 | when the check succeeds, synchronizing changes no file of a surface that is there |
| AdapterSync.CheckExactly | scripts/agentic/sync-provider-adapters.ts:535-578 | where synchronizing succeeds, the check does if and only if synchronizing the staging directory succeeds and every surface that is there has the files it would get |
| AdapterReady.CheckFilesExactly | scripts/agentic/sync-provider-adapters.ts:535-578 | where synchronizing succeeds, the check does if and only if each of the seven surfaces that is there has the files it would get; the staging directory never makes a difference |
| AdapterWorkspace.Workspace.EnsureCleanDirectory | scripts/agentic/sync-provider-adapters.ts:162-165 | empties the directory, or throws having spared `.agents` |
| AdapterWorkspace.Workspace.CopySkillDirectory | scripts/agentic/sync-provider-adapters.ts:276-297 | replaces the mirror by a copy with GitHub's second skill file, or throws having spared `.agents` |
| AdapterWorkspace.Workspace.CleanDirectories | scripts/agentic/sync-provider-adapters.ts:400-408 | the emptying loop does the plan's first steps |
| AdapterWorkspace.Workspace.RemoveStaleAdapters | scripts/agentic/sync-provider-adapters.ts:410-421 | the loop over allowed root adapters removes those that no provider claims |
| AdapterWorkspace.Workspace.WriteRootAdapters | scripts/agentic/sync-provider-adapters.ts:423-440 | the loop over providers writes one root adapter each, gemini aside |
| AdapterWorkspace.Workspace.WriteAgents | scripts/agentic/sync-provider-adapters.ts:442-473 | the nested loops empty and fill the agent directories |
| AdapterWorkspace.Workspace.CopySkills | scripts/agentic/sync-provider-adapters.ts:475-488 | the nested loops copy every skill to every mirror that is not its source |
| AdapterWorkspace.Workspace.WriteCustomAgents | scripts/agentic/sync-provider-adapters.ts:490-513 | prompts are read once and written to every mirror, as the plan's steps that read them each time |
| AdapterWorkspace.Workspace.SyncProviderAdapters | scripts/agentic/sync-provider-adapters.ts:299-516 | an invalid registry leaves the tree as it was; otherwise the result is that of the function that `SyncSucceedsExactly`, `SyncGenerates` and `SyncElsewhere` are about, or the call throws exactly when it does; `.agents` is spared either way |
| AdapterWorkspace.Workspace.CheckProviderAdapters | scripts/agentic/sync-provider-adapters.ts:535-578 | answers the check while the repository's tree is only read |
| PackageCycles.DescendingIsAcyclic | scripts/docs/generate-package-deps.ts:138-174 | a numbering that every edge decreases rules out cycles |
| PackageCycles.BackEdgeOnCycle | scripts/docs/generate-package-deps.ts:159-161 | an edge back into the current path lies on a cycle |
| PackageCycles.NodeMap | scripts/docs/generate-package-deps.ts:143-147 | the lookup map has every name, with its last listing |
| PackageCycles.OneGraph | scripts/docs/generate-package-deps.ts:138-174 | when no name stands for two packages, the walk's graph is the list's graph |
| PackageCycles.Walk.Dfs | scripts/docs/generate-package-deps.ts:149-165 | terminates, keeps the walk's invariant, and finishes the package with the path as before |
| PackageCycles.DetectCircularDependencies | scripts/docs/generate-package-deps.ts:138-174 | for any list: without the returned edges the graph is acyclic, each returned edge is on a cycle, and none is returned exactly when the graph is acyclic; an edge is returned as often as its package lists the dependency; with a name listed twice, the graph takes one of its listings, the first or the last |
| StringReplace.EscapedExpandsToItself | packages/i18n/src/index.ts:140-148 | expanding an escaped value gives the value, for any match, position and surrounding text |
| StringReplace.UnescapedLeaks | packages/i18n/src/index.ts:141-146 | without the escaping, `$&` and the back-tick token leak the match and what precedes it |
| StringReplace.TokenExpands | packages/i18n/src/index.ts:141-146 | what each of the four replacement tokens stands for |
| StringReplace.OthersStay | packages/i18n/src/index.ts:141-146 | everything else in a replacement stands for itself |
| StringReplace.EscapedReplaceInserts | packages/i18n/src/index.ts:147-147 | `replaceAll` with an escaped value inserts that value at each match, left to right |
| Translations.TokensOfTemplate | packages/i18n/src/index.ts:140-148 | every string is the template of its tokens |
| Translations.StepExact | packages/i18n/src/index.ts:147-147 | one `replaceAll` fills a parameter's placeholders and nothing else if and only if the template has as many matches as placeholders, or the value is the placeholder itself |
| Translations.InterpolationExact | packages/i18n/src/index.ts:140-148 | for any literals and values: one `replaceAll` per parameter agrees with simultaneous substitution after every parameter if and only if no literal or value makes up a placeholder still to come |
| Translations.InterpolationIsSubstitution | packages/i18n/src/index.ts:140-148 | under that condition the result is the simultaneous substitution; placeholders without a parameter stay |
| Translations.PlainIsClean | packages/i18n/src/index.ts:140-148 | the condition holds when literals and all values but the last have no opening brace |
| Translations.OneParameter | packages/i18n/src/index.ts:140-148 | one parameter is always put in where it is meant, whatever template and value |
| Translations.PlaceholderBecomesValue | packages/i18n/src/index.ts:140-148 | a template that is one placeholder becomes the value, or nothing for a missing value |
| Translations.OrderIrrelevant | packages/i18n/src/index.ts:140-148 | the order of the parameters does not matter where both orders meet the condition |
| Translations.BracesInValuesDependOnOrder | packages/i18n/src/index.ts:140-148 | with a placeholder inside a value, it does |
| Translations.Store.ClearTranslations | packages/i18n/src/index.ts:67-72 | deleting key by key leaves the store empty |
| Translations.Store.LoadTranslations | packages/i18n/src/index.ts:100-105 | later keys win, other keys of the locale and other locales keep theirs |
| Translations.Store.TemplateFor | packages/i18n/src/index.ts:126-134 | the locale's text if there is one, else the English, else the key |
| Translations.Store.TranslationSubstitutes | packages/i18n/src/index.ts:126-149 | what `t` returns is the found template, any string, with all placeholders substituted at once, under the condition of `InterpolationExact` |
| EventBus.TopicInverse | packages/events/src/event-bus.ts:645-647 | for any event type, replacing `-` by `.` inverts the topic mapping if and only if the type has no hyphen and lower-casing leaves its characters alone |
| EventBus.PublisherMeetsHandler | packages/events/src/events.module.ts:307-307 | publisher and handlers use the same topic if and only if lower-casing leaves every character of the event type alone |
| EventBus.ValidTopics | packages/events/src/event-bus.ts:191-202 | on accepted event types the mapping is injective with that inverse, and publisher and handlers meet |
| EventBus.ValidEventTypeExactly | packages/events/src/event-bus.ts:191-202 | an event type is accepted if and only if it is two or more parts joined by dots, each a lower-case letter followed by lower-case letters and digits |
| EventBus.UnvalidatedTopicsCollide | packages/events/src/event-bus.ts:645-647 | any event type shares its topic with its hyphenated and, in ASCII, its lower-case form |
| EventBus.EventIdHeader | packages/events/src/event-bus.ts:378-442 | the id header is the event's id unless the caller passes an empty one |
| EventBus.TopicsExact | packages/events/src/event-bus.ts:428-430 | the topics sent to are those of the events, each once |
| EventBus.BatchesPermute | packages/events/src/event-bus.ts:370-447 | the batches together are a permutation of the input's messages |
| EventBus.BatchesDeliver | packages/events/src/event-bus.ts:370-447 | every event has its own message in the batch of its topic: the given key, else a non-empty "event-id" header, else the fresh id; its JSON and partition; the caller's headers and the defaults where none is given; in the order of the events |
| EventBus.TopicsKeepOrder | packages/events/src/event-bus.ts:428-447 | the batches stand in the order in which their topics first appear |
| EventBus.ByteLengthAdds | packages/events/src/event-bus.ts:410-411 | the size of a text is the sum over its characters of one to four bytes |
| EventBus.Group | packages/events/src/event-bus.ts:370-447 | succeeds exactly when the total size is within the limit, and then holds each topic's messages in input order; otherwise it names the first event that goes over, on its own or with those before |
| EventBus.SendBatches | packages/events/src/event-bus.ts:449-452 | sends the batches in order until one send throws |
| EventBus.Bus.PublishBatch | packages/events/src/event-bus.ts:347-490 | nothing is sent when disabled or when any check fails, and the first invalid type is named; otherwise exactly one batch per topic, in order, delivering every event as `BatchesDeliver` says, up to the first send that throws |
| OrganizationSlug.SanitizedIsJoinedWords | apps/api/scripts/seed-system-user.helpers.ts:33-42 | the result is the alphanumeric words of the trimmed, lower-cased value joined by hyphens, cut at 50 |
| OrganizationSlug.SanitizedShape | apps/api/scripts/seed-system-user.helpers.ts:33-42 | at most 50 characters of [a-z0-9-], no leading and no double hyphen, a trailing one only at length 50 |
| OrganizationSlug.FixedPoints | apps/api/scripts/seed-system-user.helpers.ts:33-42 | fixed points are exactly the hyphen-separated words within 50 characters, and the empty string |
| OrganizationSlug.SanitizingAgain | apps/api/scripts/seed-system-user.helpers.ts:33-42 | a second pass changes nothing if and only if the value's joined words are not cut right after a hyphen; a third never does |
| OrganizationSlug.CutAtHyphen | apps/api/scripts/seed-system-user.helpers.ts:40-41 | a family of values on which sanitizing twice differs from once |

## Left out

- KafkaClient.SerialLiveness: stuck-freedom is not claimed under overlapping attempts, where it is false; the exact condition for any run is `ArmedExactly`.
- KafkaClient.BreakerSafety: takes `closeProducer` as one step; with a close in progress the timer facts can fail, exactly when `SafeExactly` says.
- KafkaClient: time is not modelled; a timer that is set may fire at any later step. Configuration is fixed during a run. Consumers, health checks, internal topics and graceful shutdown are not part of this model.
- MessageRetry.Conservation: one partition of one topic, with redelivery from any offset not before the committed one; the message spans, logging and the subscription map are left out. An empty dead-letter topic name counts as none.
- MessageRetry.DeadLetteredAfterCalls: supposes that republishing sends return; one that fails dead-letters at once.
- HeaderNumbers.PrintParses: retry counts are exact integers; JavaScript numbers beyond 2^53 are not modelled.
- Retry.WithRetry: what the operation does and the clock at each failure are given as a list, long enough for all calls.
- TaskClosure.CyclesNeverClose: only closers write statuses and snapshots; agents edit nothing but evidence, task directories keep their names, and dependency lists are fixed.
- TaskClosure: the lookup of a task by path, symbolic links, temporary files, the description, preflight and repeat-mistake texts, and timestamps are left out; YAML is an identity round trip. A failing file-system call is a crash of its closer.
- TaskCreation.CreateTaskRun: concurrent creation of the same id, unreadable catalogs, and the empty directory that a refused task leaves behind are left out.
- TaskRuns: the allow-lists, the completion contract and the lessons are parameters, so everything holds for any of them.
- AdapterWorkspace.Workspace.SyncProviderAdapters: nothing is said for a prompt outside `.agents`, which the source reads once and the plan at each write, or for an alias that is not a plain file name; the list of written files it returns is not modelled.
- AdapterWorkspace.Workspace.CheckProviderAdapters: nothing is said for such registries either.
- AdapterPlan.Resolve: a path that leaves the repository and comes back by its directory's name is refused here; the source accepts it, though not from the staging directory of the check.
- AdapterSync.SyncIdempotent: supposes prompts under `.agents` and plain alias names (`AdapterPlan.Ordinary`), as do the other adapter theorems.
- AdapterOutcome.SyncGenerates: supposes that no two jobs write at, above or below the same place (`AdapterOutcome.JobsApart`), as do the theorems of `AdapterResult` and `AdapterReady`; where two do, the later one wins, which `AdapterRuns.RunLookup` says and these do not.
- AdapterSync: symbolic links, permissions and partial writes of single system calls are left out; the directories emptied in parallel are emptied one after the other; the texts of agents are parameters.
- AdapterPlan: names in provider aliases and mirrors are listed in the order of the registry object; registry files are already parsed.
- Translations.Store.TemplateFor: keys named like properties of Object.prototype, which the source would find on a locale's table, are left out.
- Translations.Store.LoadTranslations: freezing of the merged table is not modelled.
- Translations.InterpolationExact: parameter names have no braces. It says when replacing agrees after every parameter; a run that goes wrong and ends right by coincidence is not told apart.
- EventBus.Bus.PublishBatch: JSON text and the drawn UUID of each event are given; routing to other destinations after the sends, spans and logging are left out.
- EventBus.TopicInverse: lower-casing is a parameter; what is used of it is `EventBus.LowerCases`.
- OrganizationSlug.FixedPoints: lower-casing is a parameter that leaves strings of [a-z0-9-] alone; nothing else is supposed of it.
- The lazy database pools, metrics, policies, proxies, NestJS wiring and the documentation generators other than cycle detection would only add easy members.
