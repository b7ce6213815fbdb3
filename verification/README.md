# Frond: verified models of the runtime's protocols and bounded structures

Frond is a runtime graph: nodes are identified by canonical keys, driven by one actor per cell, observed
through event and signal buses, and reported to a developer hub. This project models the parts of it whose
correctness rests on an argument rather than on a glance, and proves the argument.

Two styles are used. A protocol that runs on several fibers or promises is a transition system: a step is what
runs between two suspension points, any enabled step may come next, and theorems speak of every run. A component
that changes its own state in place is a class whose methods are tied to a function of a ghost log (everything
published, pushed, recorded or invoked); what the source promises is then proved about that function.

| module | subject |
|---|---|
| `CanonicalKey` | printing of keys and args, and a parser that inverts it |
| `CellActor` | one permit, one reply latch, close, awaiter interruption, shutdown |
| `CellPhases` | phases of a cell, transition helpers, stale completions, live leases |
| `FullWalk` | budgeted, depth-bounded, cycle-safe description of arbitrary heaps |
| `RuntimeCoordinator` | generations of runtime leases on one promise chain |
| `RoutedLiveStart`, `AsyncLiveStart` | live starts whose caller may be interrupted |
| `Disposers`, `OperationDisposers` | disposers that add disposers, teardown, late additions |
| `EventBus`, `SignalBus` | failure cascade, retained events, per-channel signal buffers |
| `Retention`, `Rate`, `Queries`, `Attachments` | the hub: event ring and paging, rate window, query broker, registry |
| `Projection` | what all requesters of one failure see and how it is grouped |

Where the code and its documentation part ways, the models follow the code, and a lemma shows a concrete case
or the exact condition:

- A submission's reply is never completed if the caller of `close` is itself interrupted between taking the
  latch and completing the reply (`CellActor.CutCloserLosesTheReply`). Of the operations of the repository only
  the acquisition of a live lease, once its body runs, has an interruption handler that suspends there. For any
  operation `NothingCutNothingLost` reads off the run exactly which replies and notices are lost.
- `failReadinessAttemptState` is not told which attempt failed and fails whichever is current. A failure that
  comes after its attempt was over hits the next one (`CellPhases.LateFailureIff`,
  `LateFailureDiscardsTheNextAttempt`). The graph's own callers speak for an attempt only while its operation
  holds the permit, and then every failure is its own (`FailuresUnderPermitAreOwn`). The interruption of a
  readiness operation is the one caller without an attempt: it fails whichever is current.
- The projection walk is documented to reach the failing node however many wrappers sit above it; it stops after
  256 frames (`Projection.FailingFrameFoundIff`, `TooManyWrappersLoseTheNode`).
- The message and fingerprint of a report are documented to depend on the failure alone. The message does. The
  fingerprint holds the kind, and a failure whose own frames name none, such as an eviction, takes it from the
  requester's wrappers: an evicted node and its dependent are grouped apart (`Projection.EvictionReportsDiffer`).
  `RequestersReportAlike` says exactly when a fingerprint is shared.
- What a disposer of the ready registry adds to the release hook's context, after the hook's registry has
  settled, is run by nobody (`Disposers.LateAdditionIsLost`). `HookAdditionsRanIff` tells from the script of the
  disposers, before the teardown, whether anything is lost.

`dafny verify dfyconfig.toml` checks everything.

## Model

| member | source | states |
|---|---|---|
| `CanonicalKey.PrintsAlikeIff` | packages/core/src/keys/key.ts:41-127 | two JSON-shaped inputs get one key text exactly when they denote one document: field order forgotten, holes equal to undefined, -0 equal to 0 |
| `CanonicalKey.ParseInvertsPrint` | packages/core/src/keys/key.ts:48-127 | a recursive-descent parser recovers what any supported input denotes from its text, whatever well-delimited text follows |
| `CanonicalKey.DenotedAlikePrintedAlike` | packages/core/src/keys/key.ts:120-127 | inputs with equal denotation print identically, so sorting makes field order irrelevant |
| `CanonicalKey.QuoteRoundTrip` | packages/core/src/keys/key.ts:57-59 | every string, lone surrogates included, is read back from its literal by the string grammar of section 7 of RFC 8259 |
| `CanonicalKey.QuoteIsWellFormed` | packages/core/src/keys/key.ts:57-59 | a literal never contains a lone surrogate, so it survives UTF-8 |
| `CanonicalKey.QuoteIsShortest` | packages/core/src/keys/key.ts:57-59 | of all well-formed literals that are read as one string the printed one is shortest, and the only one as short with lower-case digits |
| `CanonicalKey.QuoteIsLowerCase` | packages/core/src/keys/key.ts:57-59 | the numeric escapes of a printed literal have lower-case digits |
| `CanonicalKey.ErrorIffUnsupported` | packages/core/src/keys/key.ts:48-107 | an error is reported exactly for inputs that are not JSON-shaped, and its path leads to a value of the offending kind |
| `CanonicalKey.FirstErrorIsFirst` | packages/core/src/keys/key.ts:77-127 | of all offending values of an input the error names the one whose path comes first, by index in arrays and by key in objects |
| `CanonicalKey.UndefinedFieldIsNotMissing` | packages/core/src/keys/key.ts:120-127 | a present field holding undefined prints differently from no field |
| `CanonicalKey.SortedAscends` | packages/core/src/keys/key.ts:121-122 | fields come out in strictly ascending key order |
| `CanonicalKey.BeforeIff` | packages/core/src/keys/key.ts:121-122 | one key is before another exactly when it has the smaller code unit where they first differ, or ends there |
| `CanonicalKey.ObjectPrintedInOrder` | packages/core/src/keys/key.ts:120-127 | an object's text is that of its own fields, the one with the smaller code unit at the first difference of the keys printed first |
| `CanonicalKey.EncodeKeyValue` | packages/core/src/keys/key.ts:48-84 | the single pass yields the text of a supported value and the first error of any other |
| `CanonicalKey.EncodeArray` | packages/core/src/keys/key.ts:109-118 | the index loop, holes read as undefined, yields the array's text or its first error |
| `CanonicalKey.EncodeObject` | packages/core/src/keys/key.ts:120-127 | the sorted fields yield the object's text, printed in ascending order of code units, or the first error in that order |
| `CanonicalKey.CanonicalArgs` | packages/core/src/keys/key.ts:37-43 | args are versioned and never refused for length |
| `CanonicalKey.CanonicalKeyOf` | packages/core/src/keys/key.ts:22-28 | a key succeeds exactly when it is JSON-shaped and its versioned text is within the cap; otherwise the right error |
| `CellActor.InvStep` | packages/core/src/graph/cell/cellActor.ts:65-197 | every step of submit, worker, close, awaiter interruption, exclusive effects and shutdown keeps the invariant of latch, worker and permit |
| `CellActor.RepliedExactlyOnce` | packages/core/src/graph/cell/cellActor.ts:65-165 | in every interleaving at most one reply and one notice, by the same claimant; no worker exits with the latch free; once the claimant is through, the reply was completed exactly once if and only if no claimant was interrupted before completing it, and the notice went out exactly once if and only if none was interrupted |
| `CellActor.LatchNeverChangesHands` | packages/core/src/graph/cell/cellActor.ts:229-248 | whoever took the latch stays its owner in every continuation, so a body ending after an interrupt took it cannot overwrite the reply |
| `CellActor.OwnerIff` | packages/core/src/graph/cell/cellActor.ts:65-165 | over every run, whoever first came to a submission's latch owns its reply: its body's end, the refusal of a closed cell, the finalizer, a close or the awaiter |
| `CellActor.OneHolder` | packages/core/src/graph/cell/cellActor.ts:102-121 | a running body excludes every other body, refusing worker, exclusive effect and cleanup, and started once |
| `CellActor.NoBodyStartsOnceClosed` | packages/core/src/graph/cell/cellActor.ts:106-119 | from a closed cell on, in every continuation, no body starts and none is active that was not already |
| `CellActor.CleanupRunsAlone` | packages/core/src/graph/cell/cellActor.ts:188-195 | while and after a shutdown's cleanup holds the cell no body is ever active |
| `CellActor.NothingCutNothingLost` | packages/core/src/graph/cell/cellActor.ts:65-175 | of a submission whose worker exited and whose claimant is through, the reply is missing exactly if the run interrupts the claimant of that submission before it replied, the notice exactly if it interrupts it at all; other submissions do not matter |
| `CellActor.CutCloserLosesTheReply` | packages/core/src/graph/cell/cellActor.ts:167-175 | a run in which, while a body runs, an interrupted close leaves its reply to nobody |
| `CellActor.CloseReachesAll` | packages/core/src/graph/cell/cellActor.ts:167-175 | a close reaches every submission whose worker has not exited, queued or running: once no visit is left its latch is taken, whatever happens in between, and until then its own visit can be made |
| `CellActor.SignalledIff` | packages/core/src/graph/cell/cellActor.ts:84-119 | a worker is sent an interrupt exactly when a close or an awaiter that took the latch got through after the fiber was known; a body starts exactly when its worker takes the permit of an open cell |
| `CellActor.EverySubmissionIsKept` | packages/core/src/graph/cell/cellActor.ts:65-100 | over every run the submissions are those submitted, in order, each interruptible as submitted |
| `CellActor.EveryMoveIsOpen` | packages/core/src/graph/cell/cellActor.ts:84-165 | in every reachable cell an awaiter can interrupt exactly what was submitted so, a queued worker waits for the permit only, a body can end, an interrupted one can leave |
| `CellActor.EveryTurnIsOpen` | packages/core/src/graph/cell/cellActor.ts:102-197 | and exclusive effects, the cleanup, the end of the scope, the assignment of a fiber, the next move of a claim and the interruption of a claimant are possible exactly when the run so far allows them |
| `CellActor.ExitsByFinalizer` | packages/core/src/graph/cell/cellActor.ts:123-143 | no worker exits but by way of its finalizer |
| `CellActor.NeverStuck` | packages/core/src/graph/cell/cellActor.ts:102-143 | as long as a worker has not exited, some fiber of the cell can go on |
| `CellActor.EverythingSettles` | packages/core/src/graph/cell/cellActor.ts:65-197 | once the calls from outside stop, every run takes boundedly many steps and can only end with every worker exited |
| `CellPhases.CommittedAndEndedOnce` | packages/core/src/graph/cell/cellTransitions.ts:60-148 | over every run of helpers in any order and with any completion ids, no attempt commits twice and no operation ends twice |
| `CellPhases.InvStep` | packages/core/src/graph/cell/cellTransitions.ts:30-220 | each helper keeps the ids fresh, the commits and ends ascending, and the ready data that of the last commit |
| `CellPhases.OperationRoundTrip` | packages/core/src/graph/cell/cellTransitions.ts:105-167 | an operation begun on a ready cell stays current through any steps that do not end it or discard the ready data; ending it gives a ready cell with all that was committed on the way and its own failure or none |
| `CellPhases.AcquireRoundTrip` | packages/core/src/graph/cell/cellTransitions.ts:30-103 | an attempt stays current through any steps that do not end it; completing it makes the cell ready with the node, args, result, validity and registry acquired, the leases last set, no live resource and no failure; failing it keeps the base but for a validity the failure brings |
| `CellPhases.ReadyLasts` | packages/core/src/graph/cell/cellTransitions.ts:105-191 | from there the ready data changes by commits of operations and by updates only |
| `CellPhases.IdsCountBeginnings` | packages/core/src/graph/cell/cellTransitions.ts:30-117 | attempts and operations are numbered one by one as they begin |
| `CellPhases.ReleaseReturnsToIdle` | packages/core/src/graph/cell/cellTransitions.ts:193-220 | after any run, and through invalidity too, a release returns to idle with the last base and the first cleanup failure |
| `CellPhases.LateFailureIff` | packages/core/src/graph/cell/cellTransitions.ts:43-58 | over every run in which attempts begin when none is current, the failure of an attempt that is not current changes the cell exactly while another is, and that is exactly when the failed one was over before the other began |
| `CellPhases.LateFailureDiscardsTheNextAttempt` | packages/core/src/graph/cell/cellTransitions.ts:43-58 | such a run: attempt 1 fails, attempt 2 begins, attempt 1 is failed again, and the acquire of attempt 2 completes as stale |
| `CellPhases.FailuresUnderPermitAreOwn` | packages/core/src/graph/readiness/readinessAttempt.ts:13-57 | over every run in which an attempt is failed and completed only by the operation that holds the permit for it, failing it changes the cell exactly if it is the current attempt |
| `CellPhases.LeasesSurviveRuns` | packages/core/src/graph/cell/cellPhase.ts:306-344 | over every run the cell holds exactly the leases last set, provided attempts begin from the latest leases |
| `CellPhases.LeasesStep` | packages/core/src/graph/cell/cellTransitions.ts:30-220 | each helper leaves the leases as they are, except beginning an attempt, which takes its base's |
| `CellPhases.StaleBaseRevertsLeases` | packages/core/src/graph/cell/cellTransitions.ts:30-41 | an attempt begun from an older base brings older leases back |
| `CellPhases.DisposersGoToTheIncarnation` | packages/core/src/graph/cell/cellTransitions.ts:150-191 | in every reachable cell, disposers are appended to the registry of the last committed acquire, and dropped when the cell is not ready |
| `CellPhases.MappedBase` | packages/core/src/graph/cell/cellPhase.ts:285-344 | mapping the base maps what the lookup finds in every phase; only a ready cell keeps a validity the map removes |
| `FullWalk.TotalWorkIsBounded` | packages/devtools/src/full.ts:16-27 | one top-level call makes at most FULL_MAX_NODES + 24 * 2 * 4096 recursive calls on any heap, cyclic or not |
| `FullWalk.UnpaidCalls` | packages/devtools/src/full.ts:49-232 | once the budget is gone only containers open on the path spawn calls: 2 * 4096 a level at most; an exhausted call costs one |
| `FullWalk.WholeIffWithinBounds` | packages/devtools/src/full.ts:114-232 | a description has no marker exactly when the value is acyclic, within depth, width, text and budget, and then it is the complete unfolding, shared objects repeated |
| `FullWalk.FittingIsComplete` | packages/devtools/src/full.ts:145-231 | the same below any ancestors, with the exact budget used |
| `FullWalk.FullDepicts` | packages/devtools/src/full.ts:49-232 | on every heap, under any budget, the description tells what is there: scalars and texts by their content, a long text by its length and first 65536 units, containers entry by entry in order, at most 4096 of them, with the true count; a mark of cycle, depth or budget stands only where that is the reason |
| `FullWalk.WholeDeterminesValue` | packages/devtools/src/full.ts:49-232 | if two walks give one description without marks, the values walked are alike at every level |
| `FullWalk.MarkedIffCyclic` | packages/devtools/src/full.ts:120-122 | while budget remains a cycle is marked exactly when a chain of at most 24 steps comes back to itself |
| `FullWalk.CycleMarkIsReal` | packages/devtools/src/full.ts:120-122 | under any budget, a cycle marker names a real path back to an ancestor |
| `FullWalk.CycleIsMarked` | packages/devtools/src/full.ts:145-231 | while budget remains every such path ends in a marker |
| `FullWalk.DescribeFull` | packages/devtools/src/full.ts:49-97 | the recursive method computes the description and the remaining budget and leaves the ancestor set as it found it |
| `FullWalk.DescribeFullStructure` | packages/devtools/src/full.ts:114-232 | the same for objects, with the loop over entries and the shared budget |
| `RuntimeCoordinator.GenerationsNeverOverlap` | packages/core/src/runtimeCoordinator.ts:42-90 | in every run at most one lease is live, and none while a replacement boots |
| `RuntimeCoordinator.BootWaitsForEarlier` | packages/core/src/runtimeCoordinator.ts:56-88 | no body begins before every earlier transition, disposals included, has settled |
| `RuntimeCoordinator.NoLeaseLeaks` | packages/core/src/runtimeCoordinator.ts:63-86 | no lease is disposed twice; when the chain is idle every lease is the current one or was disposed exactly once |
| `RuntimeCoordinator.SuccessIffNotSuperseded` | packages/core/src/runtimeCoordinator.ts:64-74 | a start succeeds exactly when no later call had claimed a generation by the time its lease arrived |
| `RuntimeCoordinator.BootIff` | packages/core/src/runtimeCoordinator.ts:56-74 | over every run a start boots a runtime exactly when no lease was live as its body began, and its lease is late exactly when a call came before it |
| `RuntimeCoordinator.OutcomeIff` | packages/core/src/runtimeCoordinator.ts:56-86 | over every run each outcome has its cause: already active, started, superseded, disposed, failed to create and failed to dispose are told by the steps of the run |
| `RuntimeCoordinator.EveryCallIsKept` | packages/core/src/runtimeCoordinator.ts:51-58 | the transitions are the calls, in order |
| `RuntimeCoordinator.EveryEndIsOpen` | packages/core/src/runtimeCoordinator.ts:51-90 | in every reachable chain calls can come, a booting lease can arrive or fail, a disposal can end well or not |
| `RuntimeCoordinator.InvStep` | packages/core/src/runtimeCoordinator.ts:51-90 | every call, continuation and settlement keeps the chain, order, lease and phase invariants |
| `RuntimeCoordinator.NeverStuck` | packages/core/src/runtimeCoordinator.ts:51-90 | as long as a transition has not settled some body can go on |
| `RuntimeCoordinator.EverythingSettles` | packages/core/src/runtimeCoordinator.ts:51-90 | once no more calls come, the chain takes boundedly many steps and can only stop with every start and dispose settled |
| `RuntimeCoordinator.Coordinator.Chain` | packages/core/src/runtimeCoordinator.ts:56-58 | claiming a generation and chaining is the model's call step |
| `RuntimeCoordinator.Coordinator.BeginStart` | packages/core/src/runtimeCoordinator.ts:58-63 | the body of a start up to createLease is the model's begin step; it creates exactly when no lease is live, and settles as already active otherwise |
| `RuntimeCoordinator.Coordinator.ReceiveLease` | packages/core/src/runtimeCoordinator.ts:63-71 | the body after createLease is the model's arrival step; it disposes exactly when a later call has claimed a generation, and makes the lease current otherwise |
| `RuntimeCoordinator.Coordinator.BeginDispose` | packages/core/src/runtimeCoordinator.ts:78-84 | the body of a dispose is the model's begin step and takes the current lease away |
| `RoutedLiveStart.DeliveredExactlyOnce` | packages/core/src/driver/effectDefinition.ts:132-179 | in every interleaving nothing is delivered while the caller waits, and from its end on the produced resource has been delivered exactly once, returned or reported, never both |
| `RoutedLiveStart.EverythingIsDelivered` | packages/core/src/driver/effectDefinition.ts:132-179 | every run takes boundedly many steps, and one that cannot go on has brought what was produced to exactly one of the two |
| `RoutedLiveStart.AbandonmentIsPrompt` | packages/core/src/driver/effectDefinition.ts:162-176 | an interruption always ends the caller at once, a later production is reported, and no interrupt sent to the routing fiber loses what it produced |
| `RoutedLiveStart.JoinIsFaithful` | packages/core/src/driver/effectDefinition.ts:146-163 | a caller that was not abandoned sees just what the driver's start did |
| `RoutedLiveStart.RunTells` | packages/core/src/driver/effectDefinition.ts:132-179 | what was produced and whether the caller abandoned it are told by the steps of the run |
| `RoutedLiveStart.EveryMoveIsOpen` | packages/core/src/driver/effectDefinition.ts:132-179 | a running start can complete or fail, an interrupt can land before and after it has produced, a waiting caller can be interrupted until it joins |
| `AsyncLiveStart.DeliveredExactlyOnce` | packages/core/src/driver/asyncDefinition.ts:141-173 | delivered at most once, and when nothing is left to happen exactly once if and only if the caller got it or a callback was given |
| `AsyncLiveStart.EverythingIsDelivered` | packages/core/src/driver/asyncDefinition.ts:141-173 | every run takes boundedly many steps, and one that cannot go on has delivered the resource, unless the caller was interrupted without a callback |
| `AsyncLiveStart.DroppedWithoutCallback` | packages/core/src/driver/asyncDefinition.ts:161-163 | without a callback an interrupted start drops what its promise resolves to |
| `AsyncLiveStart.QuietOrEnabled` | packages/core/src/driver/asyncDefinition.ts:141-173 | until everything has happened something can happen |
| `AsyncLiveStart.RunTells` | packages/core/src/driver/asyncDefinition.ts:141-173 | what the promise became and whether the caller was interrupted are told by the steps of the run |
| `AsyncLiveStart.EveryMoveIsOpen` | packages/core/src/driver/asyncDefinition.ts:141-173 | an unsettled promise can settle either way, after an interruption too, and a waiting caller resumes once it has |
| `Disposers.DrainIsComplete` | packages/core/src/graph/lifecycle/disposers.ts:69-81 | a drain terminates although disposers add disposers, runs each function at most once and none already invoked, and leaves nothing listed or added on the way unrun |
| `Disposers.DrainIsLeast` | packages/core/src/graph/lifecycle/disposers.ts:69-81 | a drain runs nothing but what is reachable from the list through additions |
| `Disposers.RunsIffReached` | packages/core/src/graph/lifecycle/disposers.ts:69-81 | a drain runs a function exactly if a chain of additions leads to it from the list, through functions not yet invoked |
| `Disposers.RunsInReverse` | packages/core/src/graph/lifecycle/disposers.ts:89-102 | of two functions of a drained list the one registered after all registrations of the other runs before it |
| `Disposers.AccountedDrained` | packages/core/src/graph/lifecycle/disposers.ts:52-82 | a drain keeps both registries accounted for: nothing ran twice, and whatever was ever added is listed or was invoked |
| `Disposers.DisposerRegistry.InvokeDisposerOnce` | packages/core/src/graph/lifecycle/disposers.ts:160-180 | a function already invoked for the incarnation is not called again; otherwise it has run once afterwards, is in the invoked set, and what it adds is listed |
| `Disposers.DisposerRegistry.RunDisposers` | packages/core/src/graph/lifecycle/disposers.ts:89-102 | reverse order of registration, one after the other, all run whatever fails, every failure reported in order |
| `Disposers.DisposerRegistry.Drain` | packages/core/src/graph/lifecycle/disposers.ts:69-81 | the loop of batches runs exactly the specified functions, ends with an empty list and settles |
| `Disposers.TeardownReadyData` | packages/core/src/graph/lifecycle/cleanup.ts:30-60 | over both registries of the incarnation every function ran at most once; all that was ever added to the ready registry, and to the release hook's before it settled, has run |
| `Disposers.HookAdditionsRanIff` | packages/core/src/graph/lifecycle/cleanup.ts:92-144 | told from the inputs: all the release hook's registry ever gets is run exactly when whatever a reached ready disposer adds to it has run already or is reached by either drain |
| `Disposers.LateAdditionIsLost` | packages/core/src/graph/lifecycle/cleanup.ts:107-117 | a teardown after which a disposer added to the release hook's context is listed and has not run |
| `OperationDisposers.LateRunsAreClosed` | packages/core/src/graph/lifecycle/operationDisposers.ts:78-104 | a disposer that comes too late runs at once, once, and so does everything it adds in turn |
| `OperationDisposers.BatchFailuresAreFailures` | packages/core/src/graph/lifecycle/operationDisposers.ts:111-126 | what a drain returns ran and failed; what ran and failed unreturned was added by another that ran |
| `OperationDisposers.OperationDisposers.Add` | packages/core/src/graph/lifecycle/operationDisposers.ts:85-105 | nothing added is ever lost: pending, listed in the registry, taken, or run; which one follows from the bag's and the registry's state |
| `OperationDisposers.OperationDisposers.HandOff` | packages/core/src/graph/lifecycle/operationDisposers.ts:106-110 | the registry takes over exactly what was collected, in order |
| `OperationDisposers.OperationDisposers.Take` | packages/core/src/graph/lifecycle/operationDisposers.ts:127-130 | the caller gets exactly what was collected and nothing runs |
| `OperationDisposers.OperationDisposers.Drain` | packages/core/src/graph/lifecycle/operationDisposers.ts:111-126 | nothing after a hand-off; otherwise everything collected has run, in reverse order, and the failures of the batch are returned |
| `EventBus.CascadeIsBounded` | packages/core/src/runtime/eventBus.ts:76-184 | with O observers and S sinks, however they fail and interleave, one emit ends and records at most 1 + O(1+S(1+O)) + S(1+O(1+S(1+O))) events |
| `EventBus.AllFailingMeetsTheBound` | packages/core/src/runtime/eventBus.ts:132-184 | the bound is met whenever every handler fails |
| `EventBus.EmitStepCosts` | packages/core/src/runtime/eventBus.ts:76-172 | every handler call lowers the remaining cost, by exactly one when it fails |
| `EventBus.NeverStuck` | packages/core/src/runtime/eventBus.ts:174-184 | until an emit is over, either outcome of some handler can come next |
| `EventBus.Bus.Remember` | packages/core/src/runtime/eventBus.ts:45-74 | the retained events stay the last of the log, numbered from one; with no buffer none is ever retained |
| `EventBus.Bus.Events` | packages/core/src/runtime/eventBus.ts:200-208 | a query answers the last of the whole log, up to limit and buffer, and refuses a negative limit |
| `EventBus.EmitOn` | packages/core/src/runtime/eventBus.ts:174-184 | one emit appends its event and one record per failed handler to the bus's log, never more than the bound, and the bus keeps the last of it |
| `SignalBus.MergeIsRetained` | packages/core/src/runtime/signalBus.ts:208-220 | sorting the buffers by sequence, in whatever order of channels, gives the surviving records of the publish log in publish order |
| `SignalBus.ReadableIff` | packages/core/src/runtime/signalBus.ts:30-52 | a record is readable exactly while its channel is retained and fewer than bufferSize later records went to it |
| `SignalBus.OwnPolicyDecides` | packages/core/src/runtime/signalBus.ts:30-52 | a channel's own policy, and the default only without one, decides whether and how long its records can be read |
| `SignalBus.KeptIsRetained` | packages/core/src/runtime/signalBus.ts:30-52 | each buffer is the channel's part of the surviving log |
| `SignalBus.BufferIsBounded` | packages/core/src/runtime/signalBus.ts:30-52 | a buffer holds min(published, bufferSize) records, an unretained channel none |
| `SignalBus.SortFacts` | packages/core/src/runtime/signalBus.ts:217-219 | the sort is an ordered permutation |
| `SignalBus.Bus.Store` | packages/core/src/runtime/signalBus.ts:30-52 | push and trim keep every buffer in agreement with the log |
| `SignalBus.Bus.Publish` | packages/core/src/runtime/signalBus.ts:104-128 | records are numbered from one across channels; the event shows no payload of an unretained channel |
| `SignalBus.Bus.MergeBySequence` | packages/core/src/runtime/signalBus.ts:208-220 | the merge returns the surviving log |
| `SignalBus.Bus.QueryRecords` | packages/core/src/runtime/signalBus.ts:191-206 | a query answers the surviving log, one channel of it or all, the last limit records; a negative limit is an error |
| `Retention.EventRing.Push` | apps/hub/src/retention.ts:80-88 | the ring stays a suffix of everything pushed, within capacity + 512, at least capacity once anything is gone, with trims * 513 at most the evictions |
| `Retention.SurvivorsMovedAreAmortized` | apps/hub/src/retention.ts:80-88 | in every reachable ring the records moved by all trims, times 513, are at most capacity times records pushed |
| `Retention.EventRing.IndexAfter` | apps/hub/src/retention.ts:150-166 | binary search finds the first record after the cursor |
| `Retention.Scan` | apps/hub/src/retention.ts:118-136 | the scan returns the first limit matches and says whether there are more |
| `Retention.EventRing.Read` | apps/hub/src/retention.ts:113-139 | search and scan together answer what filtering the whole ring would |
| `Retention.AnsweredIff` | apps/hub/src/retention.ts:107-199 | a read holds retained records that pass the cursor and every filter given, field by field, and all of them unless the limit cuts it |
| `Retention.HasMoreIff` | apps/hub/src/retention.ts:113-139 | there is more exactly when a retained record that is asked for is not in the answer, and such records come after those that are |
| `Retention.EventRing.ReadPage` | apps/hub/src/mcpReads.ts:281-308 | a page with a clamped limit is the page of everything pushed and not evicted |
| `Retention.ClampLimit` | apps/hub/src/mcpReads.ts:239-247 | the limit is the one from 1 to 200 nearest to what is asked for, 50 by default |
| `Retention.HasMoreProgresses` | apps/hub/src/mcpReads.ts:281-308 | a page that says there is more moves the cursor strictly forward |
| `Retention.CollectedAscends` | apps/hub/src/mcpReads.ts:281-308 | pages read with pushes in between are strictly increasing and without duplicates |
| `Retention.MissedOnlyIfEvicted` | apps/hub/src/mcpReads.ts:281-308 | a matching record the cursor has passed was collected, unless it was evicted before being reached |
| `Retention.GapIsReported` | apps/hub/src/mcpReads.ts:281-308 | a missed record lies between the cursor and the oldest retained sequence the page reports; none is reported exactly when everything is gone |
| `Rate.BucketsAreCounts` | apps/hub/src/rate.ts:37-80 | after any recordings and advances, backward clocks included, each bucket is the sum of counts whose running-maximum second it covers |
| `Rate.WindowSumsLastMinute` | apps/hub/src/rate.ts:37-80 | the buckets sum to the counts of the sixty latest seconds |
| `Rate.AdvanceTwice` | apps/hub/src/rate.ts:52-68 | advancing twice is advancing once to the later time |
| `Rate.AdvancedBucket` | apps/hub/src/rate.ts:52-68 | advancing moves every bucket with its second, drops what leaves the window and never goes back |
| `Rate.RecordedCounts` | apps/hub/src/rate.ts:71-80 | recording keeps the window the counts of its log |
| `Rate.AdvanceRate` | apps/hub/src/rate.ts:52-68 | the window keeps 60 grid-aligned buckets and never moves back |
| `Rate.EmptyRate` | apps/hub/src/rate.ts:37-39 | a fresh window is aligned and covers its start |
| `Queries.QueryBroker.Open` | apps/hub/src/queries.ts:71-73 | a fresh channel for the attachment, nobody's request touched |
| `Queries.QueryBroker.Close` | apps/hub/src/queries.ts:83-100 | every request waiting on the attachment is failed at once, answered ones keep their answer, the channel is gone |
| `Queries.QueryBroker.Settle` | apps/hub/src/queries.ts:111-119 | a reply reaches only a request waiting on the very attachment that replied, and only the first reply counts |
| `Queries.QueryBroker.AskBegin` | apps/hub/src/queries.ts:134-160 | refused when not connected or at 32 outstanding, otherwise listed before it is sent |
| `Queries.QueryBroker.AskEnd` | apps/hub/src/queries.ts:162-192 | however it ends, the entry leaves the channel it was made on and the caller gets the first answer or the reason |
| `Queries.WaitersAreReachable` | apps/hub/src/queries.ts:83-100 | whoever waits unanswered is listed with a channel that was never closed, so no detachment leaves a caller to its timeout |
| `Attachments.AttachmentsNode.Attached` | apps/hub/src/nodes/attachments.ts:159-183 | view, ring and channel appear together, fresh, and no request is touched |
| `Attachments.AttachmentsNode.Detached` | apps/hub/src/nodes/attachments.ts:184-202 | all three go together, and the waiting queries fail |
| `Attachments.AttachmentsNode.Ingested` | apps/hub/src/nodes/attachments.ts:212-252 | ring and view take the batch together; a batch for an id that is not attached changes nothing |
| `Attachments.AttachmentsNode.Replied` | apps/hub/src/nodes/attachments.ts:207-211 | the reply answers the request if it waits unanswered on that attachment, and changes nothing else |
| `Attachments.IngestShows` | apps/hub/src/nodes/attachments.ts:230-250 | updating a view batch by batch keeps it showing the counts, last record, rate and last 100 records of all that arrived |
| `Attachments.ViewMatchesRing` | apps/hub/src/nodes/attachments.ts:212-252 | in every reachable registry eventCount is ring size plus evictions and the tail is the ring's last records |
| `Attachments.OnlyAttachingAttaches` | apps/hub/src/nodes/attachments.ts:222-230 | after its last attachment an id's records are exactly those sent since; after its last detachment it stays gone, whatever batches come |
| `Attachments.AttachedIff` | apps/hub/src/nodes/attachments.ts:159-230 | after any run exactly the ids attached and not detached since have an entry |
| `Projection.RequestersReportAlike` | packages/core/src/diagnostics/report.ts:297-338 | under wrappers that do not join the failing block and within the walk's depth every requester of one failure gets its message, and its fingerprint exactly when the failing node's own frames name a kind or the wrappers name no other |
| `Projection.DependentReportsAlike` | packages/core/src/diagnostics/report.ts:297-338 | whenever a dependent node's error wraps the failed acquire of another node, both share message and fingerprint, whatever the acquire failed of |
| `Projection.EvictionReportsDiffer` | packages/core/src/diagnostics/report.ts:316-338 | whenever a dependent node's error wraps an eviction of another node, both share the message and not the fingerprint |
| `Projection.WrappersKeepTheFailure` | packages/core/src/diagnostics/projection.ts:146-201 | such wrappers keep failing node, failing failure, cause type and message and operation, and the kind exactly under that condition |
| `Projection.WrappersKeepTheFailureIff` | packages/core/src/diagnostics/projection.ts:146-201 | under wrappers that are values of their own all of these are kept exactly when the innermost does not join the failing block and the kind agrees |
| `Projection.BlockKeptIff` | packages/core/src/diagnostics/projection.ts:251-281 | the failing failure stays the same object exactly when the innermost wrapper does not join its block |
| `Projection.WrappersKeepTheKind` | packages/core/src/diagnostics/projection.ts:427-480 | the kind is kept exactly when the failing node's own frames name one or the whole chain names the same |
| `Projection.FailingNodeIff` | packages/core/src/diagnostics/projection.ts:146-190 | the failing node has this id and tag exactly when they are those of the last Frond frame that carries both |
| `Projection.FailingFailureIs` | packages/core/src/diagnostics/projection.ts:251-281 | the failing failure is the object of the outermost of the failing node's own frames, of a chain without a node the outermost object |
| `Projection.OperationIs` | packages/core/src/diagnostics/projection.ts:393-425 | the operation is the action of the block's outermost failed action, else that of the innermost frame carrying one, else what its outermost wrapper stands for |
| `Projection.KindIff` | packages/core/src/diagnostics/projection.ts:436-480 | a reader's error names the kind, otherwise it is the first that applies of runtime, invalid, operation, live and readiness |
| `Projection.KindIs` | packages/core/src/diagnostics/projection.ts:427-434 | the failing node's own frames name the kind, and only when they name none the whole chain does |
| `Projection.CauseTypeIs` | packages/core/src/diagnostics/projection.ts:150-165 | the type is that of the outermost app frame under the failing node, else of Frond's frame at the end, else unclassified |
| `Projection.CauseMessageIs` | packages/core/src/diagnostics/projection.ts:298-353 | the message is that of the innermost frame that says something, under its type unless that is the cause's or the frame a carrier; else Frond's frame at the end speaks |
| `Projection.FailedAcquireReport` | packages/core/src/diagnostics/report.ts:297-338 | a failed acquire caused by an app's own error is reported as [tag acquire] message and grouped by tag, operation and type |
| `Projection.ReportsForgetIds` | packages/core/src/diagnostics/report.ts:312-338 | failures that differ in node ids alone are reported with one message and one fingerprint |
| `Projection.CarriersNeverClassify` | packages/core/src/diagnostics/projection.ts:203-217 | a plain carrier put anywhere below the failing node changes neither node, operation, kind nor type |
| `Projection.SilentCarriersChangeNothing` | packages/core/src/diagnostics/projection.ts:298-310 | one without a message of its own changes nothing that reports are grouped by |
| `Projection.FailingFrameFoundIff` | packages/core/src/diagnostics/serialize.ts:75-111 | the failing frame is found under wrappers exactly when the walk of 256 frames gets as far as it |
| `Projection.TooManyWrappersLoseTheNode` | packages/core/src/diagnostics/serialize.ts:82-111 | under 256 wrappers without a node no failing node is found |
| `Projection.RequesterShapesHeadlineOnly` | packages/core/src/diagnostics/projection.ts:146-201 | the requester's own value cannot change what reports are grouped by |
| `Projection.FindLastNodeFrame` | packages/core/src/diagnostics/projection.ts:571-581 | the loop finds the last node frame |
| `Projection.FailingBlockStart` | packages/core/src/diagnostics/projection.ts:251-281 | the loop finds the outermost frame of the failing block |
| `Projection.WalkFrames` | packages/core/src/diagnostics/serialize.ts:82-111 | the walk visits the cause chain once, stops at a repeated value and at the depth bound |

## Left out

- The Effect runtime, promises and the scheduler themselves: a step of a model is what runs between two suspension points, and the region boundaries around a live start are taken to be atomic with the step that ends in them.
- Number rendering: a finite number is an abstract token of digits, sign, point and exponent; NaN and the infinities are one non-finite value.
- Error paths of key encoding are sequences of steps; their rendering as text is not modelled, nor are prototypes, getters and proxies.
- In the full walk: Error values, throwing getters, and a source field that has the name of a marker field.
- FullWalk.MarkedIffCyclic: says nothing once the budget is exhausted, since then anything below may be cut before its cycle is reached.
- A routed live start without a callback is the driver's start itself, with no routing fiber.
- Observers or sinks that subscribe, unsubscribe or emit while an event is delivered; delivery of signals to subscribers.
- The failure of a release hook itself and of the live stop, which are reported ahead of the disposers' failures; the text in which failures are reported; timeouts, which count as failures.
- Disposers.TeardownReadyData: does not promise that late additions to the release hook's registry run, because the code never runs them.
- Replacement of the channel when an attachment id is opened twice leaves earlier requests to their timeout; ids are fresh per attachment in the hub.
- Projection: `retryable`, requester, path, dependency, summary, stack text and preview fields; masking of identifiers in fingerprints is an arbitrary function; the wording of headlines and the names of operations that wrappers stand for are tables taken over as they are; tag names inherited from Object.prototype; the memo of reports per error.
- Projection.RequestersReportAlike: for wrappers that keep the failing block (`BlockKeptIff` says which) and within the walk's depth of 256 frames only; beyond it `FailingFrameFoundIff` says when the failing frame is still found.
- Projection of a phase for snapshots, live demand merging (`projectLiveDemand`) and result validity expiry.
- Graph planning, readiness, eviction and liveness around the cell: attempts and operations begin from the counters, everything else may come at any time.
- CellPhases.LeasesSurviveRuns: requires attempts to begin from the latest leases, because `StaleBaseRevertsLeases` shows a run where they do not.
- Socket, RPC and MCP wiring, React and Ink views, build and publish scripts: input and output only.
- Non-integer limits and clocks; sequence numbers and counters do not wrap.
- Easy members: option validation, event classification, span attributes.
