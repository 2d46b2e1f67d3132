# Verified models of the Can runtime and language server

This project models five parts of the repository in Dafny and proves what each of them is for.

* **Ownership runtime** (`runtime/owner-core.ts`, `runtime/coordination.ts`). `Ownership` is the
  protocol of one root: nested scopes, resources with counted leases, groups of tasks, guarded
  callbacks, explicit closes, shutdown timers and drains. Each event is one synchronous stretch of
  the runtime, or a part of one, and events interleave freely. `OwnershipLeases`,
  `OwnershipLifecycle`, `OwnershipTasks` and `OwnershipDrain` hold the invariants,
  `OwnershipRuns` proves that every event keeps all of them, and `OwnershipTheorems` draws the
  conclusions for whole runs. `OwnershipClosing` says what each step of a close or a drain means for
  owners and for the other steps, `OwnershipCalls` which calls are granted and what they give, and
  `OwnershipExits` follows initial leases from a registration to the end of a scope's body. `OwnershipRuntime` is the root as it is kept in memory, a class whose
  methods update it in place and are proved to do what the protocol says. `Groups` is one launched
  group, as values and as a class. `Coordination` is selection (all, settled, any, race) over an
  arbitrary settlement order, with the native combinators written out as sections 27.2.4.1,
  27.2.4.2, 27.2.4.3 and 27.2.4.5 of ECMA-262 define them.
* **Language server** (`compiler/lsp_scheduler.go`, `compiler/lsp.go`, `compiler/lsp_snapshot.go`).
  `Documents` and `DocumentServer` are documents, overlay and published diagnostics; `Scheduler`
  is one intake and one worker over a shared revision counter, queue, dirty roots and retries;
  `SchedulerRuns`, `SchedulerBudget` and `SchedulerFindings` prove its invariants over every run;
  `SchedulerSettings` says which settings a job in flight has seen, `SchedulerFate` which answer each
  request gets and why, told from the messages, and `SchedulerHistory` what the messages make of
  documents, settings and roots;
  `SchedulerLoop` is the serving loop, updated in place, which is proved to end and to answer
  everything. `SnapshotCache` is the analysis cache over a disk that changes while it is read.
* **Payload checker** (`runtime/domain-core.ts`). `Payload` is declarative conformance over shared
  and cyclic heaps and the plan checks; `PayloadTypes` says which values are of which type without
  reference to how they are tested; `PayloadWalk` is the traversal with its explicit stack,
  active set and memo table; `PayloadLoop` shows why it needs its assumption.
* **Reference index and rename** (`compiler/lsp_features_base.go`). `Rename` lays out and splices
  replacements; `RenameChecks` finds occurrences and decides stability; `RenameTokens` says what
  stability means on names as the lexer cuts them out; `RenameErrors` relocates diagnostics; `Scopes`, `ScopesAgree` and `ScopeWalkers` are the two resolvers of local names; `ScopeMeaning` is
  what a name means, read off the tree, and `ScopeRetained` what is kept of each construct.
* **Exact amounts** (`runtime/number.ts`). `Amounts` builds Euclidean division and half-even
  rounding on the truncating division of sections 6.1.6.2.5 and 6.1.6.2.6 of ECMA-262.

## Results that are not plain agreement

* A message that carries an id under a notification's name is never answered before shutdown, where
  section 5 of JSON-RPC 2.0 would have it answered. `SchedulerLoop.HandleOwes` says exactly which
  messages are answered.
* Work that is accepted at an unchanged revision saw the live documents, overlay and publications,
  but not always the live settings. `SchedulerSettings.SettingsSince` says what the live settings
  are in every run: the copy's, changed by the initialize messages since its dispatch.
  `SchedulerSettings.SettingsLiveExactly` draws the exact condition from the messages: the inlay
  setting is live if and only if the last initialize that carries one carries the copy's value, and
  the folders are live if and only if no initialize named one. `SchedulerFindings.SettingsCanLag` is
  a run in which the setting differs.
* If the empty root became dirty beside other roots, dispatching would drop it and leave the worker
  idle with work waiting. `SchedulerBudget.IdleAfterDispatch` gives the exact condition; it does not
  arise, because the URI of a workspace folder names an absolute path or nothing
  (`SchedulerBudget.NextRooted`).
* What the cache's two checks let through always agrees with the stored fingerprint in the bytes that
  were loaded (`SnapshotCache.StoredBytesAgree`). Failed reads agree too exactly when every one of
  them was of an input already recorded before the analysis (`SnapshotCache.CoherentExactlyWhen`),
  because failed reads are not looked at again.
* A stable rename renames exactly the identity's occurrences, one to one. On names as the lexer cuts
  them out that needs no further condition (`RenameTokens.StableMeans`). For an index that was not
  read off names it holds if and only if no occurrence is innermost at two renamed starts
  (`RenameChecks.StableExactly`), and `RenameChecks.StableWithoutBijection` is such an index;
  `RenameTokens.OverlappedIsNoReading` shows that it is not read off names.
* The payload traversal equals conformance when nothing the root reaches lets a record or array
  through other than as data; whatever is admitted, an accepted graph has no pair of type and object
  below itself. `PayloadLoop.AcceptsSharedLoop` is a graph that is accepted without conforming: one
  of its arrays meets itself under another type, behind a record that an opaque admission lets
  through. Which such graphs are accepted depends on the order of fields:
  `PayloadLoop.RefusesSwappedLoop` is the same graph with two fields exchanged, and is refused.

## Model

| member | source | states |
|---|---|---|
| Amounts.TruncatedParts | runtime/number.ts:124-126 | Truncating division as ECMA-262 defines it: the quotient's remainder has the numerator's sign and is smaller than the denominator |
| Amounts.TruncatedUnique | runtime/number.ts:116-117 | There is only one such quotient and remainder, so `divmod` determines them |
| Amounts.EuclideanUnique | runtime/number.ts:119-132 | For a nonzero denominator at most one pair has n = q*d + r and 0 <= r < abs(d) |
| Amounts.Divmod | runtime/number.ts:111-118 | A zero denominator is refused; otherwise the truncated quotient and remainder |
| Amounts.EuclideanDivmod | runtime/number.ts:119-132 | The adjusted truncated division is the Euclidean one, for every nonzero denominator of either sign |
| Amounts.RoundRatioHalfEven | runtime/number.ts:133-152 | The value is half-even: value*d + remainder is the sign-normalised numerator, twice the remainder is at most d, and a tie goes to an even value |
| Amounts.HalfEvenIsNearest | runtime/number.ts:143-145 | No integer is nearer to the ratio than the rounded value |
| Amounts.HalfEvenUnique | runtime/number.ts:143-150 | The half-even result is unique |
| Amounts.HalfEvenNegation | runtime/number.ts:139-145 | Negating the numerator of a half-even result negates value and remainder |
| Amounts.NegatedRounding | runtime/number.ts:133-152 | Negating both arguments changes nothing; negating the numerator negates the result |
| Payload.FindLeaf | runtime/domain-core.ts:304-314 | A variant selects an admitting leaf, and none only when no leaf admits the value |
| Payload.BuildTable | runtime/domain-core.ts:158-223 | A plan is taken only with distinct identities and closed, well-formed shapes: arguments, inputs, errors, results, leaves, elements and fields all refer into it; it is refused only when one of these fails |
| Payload.PathToChain | runtime/domain-core.ts:306-345 | Every path between data objects is a chain of data steps, seen through variants |
| Payload.NoReturn | runtime/domain-core.ts:304-325 | When records and arrays pass only as data, a fully checked graph has no data object that meets itself again, under whatever type |
| Payload.NoPairReturns | runtime/domain-core.ts:324-325 | Whatever is admitted, a fully checked graph has no pair of type and object below itself |
| Payload.DisjointIsPlain | runtime/domain-core.ts:304-323 | Admissions that take no record or array let none through anywhere |
| PayloadTypes.PassesIs | runtime/domain-core.ts:290-346 | The local test passes exactly the values of the type: int a bigint, float a number, bool a boolean, str a text and no other primitive anything; a variant what one of its leaves takes; an array or a record exactly a frozen object, neither function nor proxy, with exactly the declared elements or fields as data |
| PayloadTypes.PartIs | runtime/domain-core.ts:304-345 | What is handed on are exactly the elements, the declared fields, or the value under the first leaf that takes it |
| PayloadTypes.ConformsIs | runtime/domain-core.ts:270-351 | Conformance is that every part down from the root is of its type and no traversed object lies below itself |
| Payload.MarksProveConformance | runtime/domain-core.ts:270-351 | What a finished traversal has marked proves that the root conforms |
| PayloadWalk.PushAll | runtime/domain-core.ts:327-345 | Children are stacked so that the first comes off first |
| PayloadWalk.StepGood | runtime/domain-core.ts:275-349 | One turn keeps the stack, active set and memo table consistent: exit marks name exactly the objects on the current path, each once, and the memo holds exactly the finished pairs |
| PayloadWalk.StepDone | runtime/domain-core.ts:275-350 | A verdict before the stack is empty is a refusal, and the root does not conform |
| PayloadWalk.ReadChildren | runtime/domain-core.ts:326-346 | Reading elements or fields one by one gives the typed children, or nothing as soon as a descriptor disqualifies the object |
| PayloadWalk.RunFacts | runtime/domain-core.ts:270-351 | In every run no object is expanded twice under one type, and in every state the exit marks name exactly the active objects, each once |
| PayloadWalk.Turn | runtime/domain-core.ts:275-349 | The loop body, in place, does exactly one turn |
| PayloadWalk.Accepts | runtime/domain-core.ts:270-351 | The loop ends on every heap, shared or cyclic. A refused root is not well typed, and everything below an accepted one is of its type; where nothing below lets a record or array through other than as data, accepted is exactly well typed. Along its whole run no two turns expand the same object under the same type, and the exit marks are exactly the active objects |
| PayloadWalk.OneVerdict | runtime/domain-core.ts:270-351 | The traversal has one verdict |
| PayloadLoop.AcceptsSharedLoop | runtime/domain-core.ts:283-312 | A concrete graph accepted although one of its arrays is its own descendant, and the pair at which an opaque admission takes a record |
| PayloadLoop.RefusesSwappedLoop | runtime/domain-core.ts:341-345 | The same objects are refused when two fields of the root's type change places |
| Groups.LaunchValid | runtime/owner-core.ts:441-449 | A fresh group's accounts are right |
| Groups.SettleValid | runtime/owner-core.ts:487-501 | A settlement keeps `pending` equal to the unsettled tasks and observes at most its own late failure |
| Groups.PublishValid | runtime/owner-core.ts:505-514 | Publication observes exactly the unselected standard failures settled before it |
| Groups.LeftMeansAllObserved | runtime/owner-core.ts:475-486 | When the group has left the root every task has settled and exactly the unselected standard failures were observed, each once |
| Groups.LeavesOnceSettled | runtime/owner-core.ts:475-486 | The root lets go of a group exactly when it is sealed and fully settled |
| Groups.FinalFacts | runtime/owner-core.ts:470-516 | Settled outcomes and the first publication are final whatever follows |
| Groups.OrderIrrelevant | runtime/owner-core.ts:470-516 | Complete histories of the same settlements and selection leave the same group, in any order |
| Groups.OwnedGroup.constructor | runtime/owner-core.ts:441-449 | A launched group starts with every task pending |
| Groups.OwnedGroup.ObserveLaunched | runtime/owner-core.ts:470-474 | Only an unselected standard failure is observed |
| Groups.OwnedGroup.FinishLaunched | runtime/owner-core.ts:475-486 | Nothing before publication; then publication observes every task, a settlement only its own, and an empty group leaves |
| Groups.OwnedGroup.SettleLaunched | runtime/owner-core.ts:487-501 | The in-place settlement is the specified one |
| Groups.OwnedGroup.PublishSelected | runtime/owner-core.ts:502-516 | Published once, with indices in range, or refused without a change |
| OwnershipLeases.GrantLedger | runtime/owner-core.ts:178-188 | Acquiring keeps every count equal to the outstanding releases |
| OwnershipLeases.ReleaseLedger | runtime/owner-core.ts:189-196 | Releasing does too, removes a count of one instead of storing zero, and adds no owner |
| OwnershipLeases.RetainLedger | runtime/owner-core.ts:230-241 | A successful retain adds exactly one lease per capture, all for its participant |
| OwnershipLeases.RetainEachLedger | runtime/owner-core.ts:451-458 | Preparing a launch adds exactly the leases of every participant, in order |
| OwnershipLeases.ReleaseAllLedger | runtime/owner-core.ts:237-240 | A list of releases takes away exactly the leases it names |
| OwnershipLifecycle.NoLeaseAfterClose | runtime/owner-core.ts:178-187 | Once the native close runs no owner can acquire a lease |
| OwnershipLifecycle.CloseCallLife | runtime/owner-core.ts:363-394 | A close call only moves the resource forward, whatever it releases first |
| OwnershipLifecycle.DrainVisitsLife | runtime/owner-core.ts:648-655 | So does a drain's visit |
| OwnershipTasks.RunningIsHeld | runtime/owner-core.ts:456-468 | Work that still runs is in a group or callback set the root still holds |
| OwnershipDrain.QuietSeals | runtime/owner-core.ts:638-644 | A scope without groups and callbacks inside has no open scope below it, so its closing phase finds everything sealed |
| OwnershipDrain.DrainVisitsOk | runtime/owner-core.ts:648-655 | A visit keeps what the drain has established about the resources it has passed |
| OwnershipDrain.DrainResumesOk | runtime/owner-core.ts:651-654 | So does resuming after a close |
| OwnershipRuns.RegisterInv | runtime/owner-core.ts:248-295 | Registration keeps every invariant |
| OwnershipRuns.CloseCallInv | runtime/owner-core.ts:363-394 | An explicit close keeps every invariant |
| OwnershipRuns.CloseProgressInv | runtime/owner-core.ts:336-361 | So do deadlines, the native close and the shutdown timer |
| OwnershipRuns.LaunchInv | runtime/owner-core.ts:431-469 | So does a launch |
| OwnershipRuns.TaskSettlesInv | runtime/owner-core.ts:487-501 | So does a settling participant |
| OwnershipRuns.CallbackStartsInv | runtime/owner-core.ts:760-788 | So does dispatching a guarded callback |
| OwnershipRuns.BodyEndsInv | runtime/owner-core.ts:554-562 | So does the end of a scope's body |
| OwnershipRuns.DrainTurnsInv | runtime/owner-core.ts:618-645 | So does a turn of the drain's waiting loop |
| OwnershipRuns.DrainVisitsInv | runtime/owner-core.ts:648-655 | So does a drain's visit to a resource |
| OwnershipRuns.StepInv | runtime/owner-core.ts:178-664 | Every event keeps every invariant and moves every resource only forward |
| OwnershipTheorems.RunInv | runtime/owner-core.ts:178-664 | The invariants hold in every world of every run |
| OwnershipTheorems.RunMonotone | runtime/owner-core.ts:336-361 | Over any stretch of a run every resource only advances |
| OwnershipTheorems.OnlyForward | runtime/owner-core.ts:178-187 | Open, closing, closed in that order only; once closing, lease-holding owners only become fewer |
| OwnershipTheorems.NativeCloseOnce | runtime/owner-core.ts:336-342 | The native close starts with zero leases, at most once, and from then on nobody ever holds or gets a lease |
| OwnershipTheorems.CloseBegunOnce | runtime/owner-core.ts:336-377 | Explicit closes, drains and the timer's deferred path begin a close at most once together |
| OwnershipTheorems.BegunFromUnstarted | runtime/owner-core.ts:648-652 | A close is only ever begun on an open resource or one the timer left to the drain |
| OwnershipTheorems.CountsAreOutstanding | runtime/owner-core.ts:178-197 | In every reachable world a stored count is the number of releases not yet called, and never zero |
| OwnershipTheorems.SettlingGivesBack | runtime/owner-core.ts:487-501 | A settling task gives back each retained and each remaining initial lease once, and no other lease |
| OwnershipTheorems.DrainedScope | runtime/owner-core.ts:616-658 | After a drain every resource inside is closed or carries a cleanup, and the drain returned the latest-registered cleanup |
| OwnershipTheorems.ClosingStartsQuiet | runtime/owner-core.ts:638-645 | The closing phase starts only once no group or callback inside the scope is left |
| OwnershipTheorems.NothingStartsInClosing | runtime/owner-core.ts:255-255 | From then on no registration, ordinary launch, scope or outside callback succeeds inside the scope |
| OwnershipTheorems.GroupsAccount | runtime/owner-core.ts:475-501 | Every group keeps its accounts in every reachable world |
| OwnershipExits.BodyEndGivesBack | runtime/owner-core.ts:559-561 | When a child scope's body ends, no lease that stood in its exits is outstanding any more and every other one is as it was |
| OwnershipExits.NoEnclosingLease | runtime/owner-core.ts:286-291 | Once a child scope's drain has started, no task of another scope holds an initial lease on a resource registered in it |
| OwnershipExits.RegistrationGives | runtime/owner-core.ts:273-292 | A registration gives its task exactly one lease, on the new resource, listed for the end of the body when the task encloses the scope |
| OwnershipExits.ClosingGivesBack | runtime/owner-core.ts:375-377 | A close takes back the initial lease exactly when the creator closes, and afterwards a close has begun |
| OwnershipCalls.WhoAcquires | runtime/owner-core.ts:178-188 | In an open resource of an open scope everybody inside gets a lease; while either is closing exactly the owners with an outstanding one; then nobody |
| OwnershipCalls.LaunchAdmitted | runtime/owner-core.ts:436-463 | A launch is granted exactly in an open scope, or natively from running work, when each capture could be leased under its key |
| OwnershipCalls.LaunchGives | runtime/owner-core.ts:441-468 | A launch leases every capture to its own participant under one key and starts a live group with all tasks pending |
| OwnershipCalls.CallbackMeans | runtime/owner-core.ts:760-788 | A callback is let in while its scope is open, or closing and called from running work inside; it runs where that work runs, or else in its own scope |
| OwnershipCalls.OpenScopeMeans | runtime/owner-core.ts:571-572 | A child scope opens exactly below an open scope whose work can await it |
| OwnershipCalls.TurnMeans | runtime/owner-core.ts:618-645 | A turn arms a timer exactly where one is due, and starts the closing phase exactly when nothing inside is left |
| OwnershipClosing.BeginMeans | runtime/owner-core.ts:336-341 | Beginning a close keeps every lifecycle fact and shuts out every owner without a lease |
| OwnershipClosing.StartMeans | runtime/owner-core.ts:342-345 | From the native close on nobody gets a lease, and it does not start twice |
| OwnershipClosing.EndMeans | runtime/owner-core.ts:346-358 | After it settles the resource is at rest, and the drains waiting for it can go on |
| OwnershipClosing.DeadlineMeans | runtime/owner-core.ts:378-394 | An expired deadline records a new failure and changes neither who gets in nor how the close goes on |
| OwnershipClosing.TimerMeans | runtime/owner-core.ts:628-637 | A shutdown timer shuts new owners out, begins no close and is not armed again |
| OwnershipClosing.VisitMeans | runtime/owner-core.ts:648-655 | A drain's visit waits for a close of every resource inside, begun there or before, and touches nothing outside |
| OwnershipRuntime.Root.Acquire | runtime/owner-core.ts:170-188 | A lease is granted exactly when the protocol admits the owner; a refusal changes nothing |
| OwnershipRuntime.Root.ReleaseLease | runtime/owner-core.ts:189-196 | The in-place release is the specified one |
| OwnershipRuntime.Root.RetainAll | runtime/owner-core.ts:230-241 | Leases on all captures or none: a failing retain leaves every lease as it was |
| OwnershipRuntime.Root.RetainParticipants | runtime/owner-core.ts:451-458 | Leases for all participants or none, undone in reverse |
| OwnershipRuntime.Root.PrepareLaunch | runtime/owner-core.ts:431-469 | A launch or, when refused, every lease and the set of groups exactly as before |
| OwnershipRuntime.Root.SettleLaunched | runtime/owner-core.ts:487-501 | The participant's leases go back and its group is told |
| OwnershipRuntime.Root.GuardCallback | runtime/owner-core.ts:760-788 | A callback runs in its guard scope, or joins still-running work inside it, and is refused otherwise |
| OwnershipRuntime.Root.SettleCallback | runtime/owner-core.ts:577-585 | A settled callback gives its leases back and leaves the root |
| OwnershipRuntime.Root.RegisterResource | runtime/owner-core.ts:248-295 | Registration with one initial lease on the new resource, listed among the exits exactly when the task encloses the scope, or a refusal |
| OwnershipRuntime.Root.UseResource | runtime/owner-core.ts:314-327 | Direct use holds a lease that can be ended |
| OwnershipRuntime.Root.BeginClose | runtime/owner-core.ts:336-338 | Begun only where no close was: the resource only moves forward, and the owners that can still get a lease are exactly those that could and hold one |
| OwnershipRuntime.Root.CloseResource | runtime/owner-core.ts:363-394 | The creator's initial lease is released first, a running close is joined, and a deadline is armed only on an unsettled one |
| OwnershipRuntime.Root.StartClose | runtime/owner-core.ts:342-345 | The native close starts at an instant without leases, never again, and nobody gets a lease from then on |
| OwnershipRuntime.Root.EndClose | runtime/owner-core.ts:342-358 | A settled close is final: closed or carrying a failure, out of reach of leases, deadlines, timers and a second close, and every drain that waits for it can go on |
| OwnershipRuntime.Root.FireTimer | runtime/owner-core.ts:628-637 | New owners are shut out, no close is begun, the resource is closed or carries a failure, and the timer neither fires nor is armed again |
| OwnershipRuntime.Root.SettleScopeBody | runtime/owner-core.ts:554-562 | Every exit release is called, so that none of its leases is outstanding and no other is touched, and the scope starts closing |
| OwnershipRuntime.Root.DrainTurn | runtime/owner-core.ts:618-645 | Timers are armed on exactly the resources that need one; the closing phase starts exactly when the scope is quiet |
| OwnershipRuntime.Root.DrainVisit | runtime/owner-core.ts:648-655 | Resources only move forward; one outside the scope is passed over, one inside is waited for after exactly one begun close, and an unmanaged one left open counts as a failure |
| OwnershipRuntime.Root.ResumeDrain | runtime/owner-core.ts:651-654 | A drain goes on only past a resource at rest that is closed or failed, and keeps the first failure it met |
| OwnershipRuntime.Root.Perform | runtime/owner-core.ts:178-664 | Registrations, uses, closes, launches, publications, callbacks and scopes are granted or refused by their own checks exactly as the protocol does, other events happen when they can, and every invariant is kept |
| Coordination.CombinatorMeans | runtime/coordination.ts:138-151 | The native combinators, run adapter by adapter, settle on what their mode says for any order |
| Coordination.AllOutcomes | runtime/coordination.ts:109-121 | Once everyone has settled the outcomes are everyone's own, in index order |
| Coordination.SelectFromGroup | runtime/coordination.ts:102-165 | For every participant count, settlement order and resumption delay: the declarative meaning of the mode, and the published set, for `any` the winner after exactly the failures before it |
| Coordination.Resumed | runtime/coordination.ts:132-164 | However late the awaiting code resumes it finds the same selection; and nothing is ever selected when the combinator never settles |
| Coordination.AllFailedHasNoSuccess | runtime/coordination.ts:152-162 | When `any` fails every outcome is a failure, so its guard cannot trip |
| Coordination.LateAfterSelection | runtime/coordination.ts:132-136 | With any publication time, exactly the standard failures that are neither the winner nor (for `any`) before it are observed late, once each, and the group leaves |
| Coordination.Handle | runtime/coordination.ts:174-191 | Arms run in index order and stop at the first failure, which is the answer; otherwise all values in order |
| Coordination.Aggregate | runtime/coordination.ts:196-210 | Every failure in order, and refusal exactly when a member succeeded |
| Documents.OpenedKeeps | compiler/lsp.go:162-173 | Opening keeps the overlay equal to the least open URI's text and version for every path |
| Documents.ChangedKeeps | compiler/lsp.go:176-183 | So does changing |
| Documents.ClosedKeeps | compiler/lsp.go:185-192 | So does closing |
| DocumentServer.LspServer.Clone | compiler/lsp_scheduler.go:113-130 | The worker's copy equals the server and shares nothing mutable with it |
| DocumentServer.LspServer.DocumentUris | compiler/lsp.go:196-205 | Exactly the URIs open on a path, sorted |
| DocumentServer.LspServer.SyncOverlay | compiler/lsp.go:206-216 | The overlay entry of one path follows its least open URI |
| DocumentServer.LspServer.Open | compiler/lsp.go:162-173 | Opens a document and syncs both its old and its new path |
| DocumentServer.LspServer.Change | compiler/lsp.go:176-183 | Only a newer version replaces the text |
| DocumentServer.LspServer.Close | compiler/lsp.go:185-192 | The document and its publication are forgotten and the client is cleared |
| DocumentServer.LspServer.Collect | compiler/lsp.go:286-300 | Findings are grouped by the URIs they belong to, in order |
| DocumentServer.LspServer.DiagnoseRoot | compiler/lsp.go:267-333 | Reported URIs show exactly the run's findings and belong to the root; URIs it owned and no longer reports are cleared; no other URI is touched |
| SchedulerRuns.NextAccounted | compiler/lsp_scheduler.go:240-526 | Every id owed an answer is answered, queued or in flight, exactly once, through every step |
| SchedulerRuns.ShutAnswered | compiler/lsp_scheduler.go:343-352 | Shutdown answers everything in the queue and itself |
| SchedulerRuns.NextFresh | compiler/lsp_scheduler.go:207-232 | At an unchanged revision the worker's copy has the live documents, overlay and publications, and queued requests were made on the live documents |
| SchedulerBudget.NextBudgeted | compiler/lsp_scheduler.go:493-498 | A root is retried at most twice and started at most three times per revision; outdated work leaves no retries |
| SchedulerBudget.NextSettled | compiler/lsp_scheduler.go:340-353 | The queue is bounded; after shutdown nothing is queued or dirty and running work is cancelled |
| SchedulerBudget.DispatchLowers | compiler/lsp_scheduler.go:240-271 | Without input, dispatching changes nothing or makes progress |
| SchedulerBudget.CompleteLowers | compiler/lsp_scheduler.go:473-532 | A job that comes back makes progress, also when it is retried |
| SchedulerBudget.IdleAfterDispatch | compiler/lsp_scheduler.go:240-275 | After dispatching, an idle worker leaves no request queued, and leaves dirty roots exactly when the empty root was dirty beside others |
| SchedulerBudget.NextRooted | compiler/lsp_scheduler.go:214-231 | Workspace folders have absolute paths, so the empty root never becomes dirty |
| SchedulerFindings.DiagnosedOwned | compiler/lsp.go:313-332 | Taking over a run keeps every shown finding owned by its last accepted run |
| SchedulerFindings.NextInv | compiler/lsp_scheduler.go:240-532 | Every step keeps every invariant |
| SchedulerFindings.NothingOrphaned | compiler/lsp_scheduler.go:504-517 | In every run, what the client shows anything for is a key of the published map |
| SchedulerFindings.AcceptedRunShows | compiler/lsp_scheduler.go:521-531 | After an accepted run every URI its root owns shows exactly that run's findings, made on the live documents and overlay |
| SchedulerFindings.ResultsAreCurrent | compiler/lsp_scheduler.go:247-253 | A request's result was computed on the documents it was made on, which are still live; otherwise it gets an error |
| SchedulerFindings.EachAnsweredOnce | compiler/lsp_scheduler.go:240-526 | In every run, when nothing is left to do each id owed an answer has exactly one |
| SchedulerFindings.RunsAreBounded | compiler/lsp_scheduler.go:493-498 | In every run at most two retries and three starts per root and revision |
| SchedulerFindings.OverlayFollowsDocuments | compiler/lsp.go:206-216 | After any run the overlay is what the open documents say |
| SchedulerFindings.SettingsCanLag | compiler/lsp_scheduler.go:316-331 | A concrete run in which accepted work has an inlay setting that is not the live one |
| SchedulerSettings.AskedMeans | compiler/lsp_scheduler.go:316-331 | The setting asked for is that of the last initialize before a shutdown that carries one; folders were asked for exactly if one of them names a folder |
| SchedulerSettings.HeardBy | compiler/lsp_scheduler.go:302-471 | A step that leaves the revision alone changes the settings only as its initialize message says |
| SchedulerSettings.SettingsSince | compiler/lsp_scheduler.go:113-130 | In every run, at an unchanged revision the live settings are the copy's changed by the initialize messages since its dispatch and by nothing else |
| SchedulerSettings.SettingsLiveExactly | compiler/lsp_scheduler.go:316-331 | In every run the copy's inlay setting is the live one if and only if the last initialize since dispatch that carries one carries it, and its folders are if and only if none named a folder |
| SchedulerFate.TicketsKnown | compiler/lsp_scheduler.go:240-526 | In every run a waiting request is marked cancelled exactly if a cancel of its id or a shutdown came in since it arrived, and is out of date exactly if a change did |
| SchedulerFate.Fated | compiler/lsp_scheduler.go:247-255 | Every waiting request is answered as the messages since its arrival and the worker's answer call for |
| SchedulerFate.CancelIsAnswered | compiler/lsp_scheduler.go:354-370 | Whenever a cancel of its id, or a shutdown, comes in while a request waits, its answer is -32800 |
| SchedulerFate.AnsweredForAReason | compiler/lsp_scheduler.go:473-526 | -32800 if and only if it was cancelled or the worker says so; -32801 if and only if it was not and a change came in or the worker found its inputs changed; any other code or a result if and only if none of this happened, and then it is the worker's |
| SchedulerFate.EveryResponse | compiler/lsp_scheduler.go:240-526 | Every response with an id in a run answers a message at once (a result, -32600 after shutdown, -32000 at a full queue), or a waiting request as it is due |
| SchedulerFate.WasAnswered | compiler/lsp_scheduler.go:240-526 | A request that has waited and waits no more was answered in between |
| SchedulerFate.NoneWaits | compiler/lsp_scheduler.go:207-240 | When nothing is left to do no request waits |
| SchedulerHistory.ServerFollowsMessages | compiler/lsp_scheduler.go:316-430 | In every run documents and settings change by messages alone, each as it says: text only with a newer version, folders by removal and addition |
| SchedulerHistory.RequestsFirst | compiler/lsp_scheduler.go:246-271 | A root is diagnosed only when every queued request is cancelled or out of date, and it is the least dirty one |
| SchedulerHistory.TouchedCovered | compiler/lsp_scheduler.go:207-232 | From a change on, every root with findings, manifest or open document waits to be diagnosed or was started since |
| SchedulerHistory.TouchedDiagnosed | compiler/lsp_scheduler.go:207-232 | When nothing is left to do, each of them was started since the last change |
| SchedulerHistory.RootJobFate | compiler/lsp_scheduler.go:473-532 | A root's job comes to nothing when cancelled or its scratch buffer is gone, is taken over when current, is tried again when outdated or interrupted for the first two times, and else the root shows nothing any more |
| SchedulerLoop.HandleOwes | compiler/lsp_scheduler.go:302-471 | Exactly which messages with an id are owed an answer: initialize, shutdown, requests, and after shutdown all but exit |
| SchedulerLoop.MarkRoots | compiler/lsp_scheduler.go:207-232 | A change makes dirty exactly the roots with findings, with a manifest in a workspace, or with an open document, which they then carry |
| SchedulerLoop.ForgetRoot | compiler/lsp_scheduler.go:504-518 | Everything a root published is cleared and forgotten, nothing else |
| SchedulerLoop.Session.DispatchWork | compiler/lsp_scheduler.go:246-271 | Requests before roots, the least root first, outdated and cancelled requests answered on the way |
| SchedulerLoop.Session.ReceiveChange | compiler/lsp_scheduler.go:378-430 | A change edits the server and then outdates all work |
| SchedulerLoop.Session.ReceiveQuietly | compiler/lsp_scheduler.go:306-376 | Every other message has its specified effect on the session, whose answers over a run are those of `SchedulerFate` |
| SchedulerLoop.Session.CancelById | compiler/lsp_scheduler.go:354-370 | A cancel marks exactly the requests of its id, queued or in flight |
| SchedulerLoop.Session.ReceiveInput | compiler/lsp_scheduler.go:276-471 | Every input has its specified effect |
| SchedulerLoop.Session.DiscardJob | compiler/lsp_scheduler.go:479-520 | Outdated or failed work: an error answer, a retry within the budget, or the root given up |
| SchedulerLoop.Session.AcceptJob | compiler/lsp_scheduler.go:521-531 | Current work is written and its publications taken over |
| SchedulerLoop.Session.CompleteJob | compiler/lsp_scheduler.go:473-532 | A job that comes back has its specified effect |
| SchedulerLoop.Serve | compiler/lsp_scheduler.go:138-535 | For every input list, file system, race and worker: the loop ends without ever waiting in vain, and what it did is a run of the scheduler on these inputs, carried to its end; unless the client exits, the ids answered are exactly the ids owed by the inputs, each once; findings are shown only where publications are known |
| SnapshotCache.FingerprintCompatible | compiler/lsp_snapshot.go:103-124 | Exactly that every earlier input is still recorded with the same content |
| SnapshotCache.LoadedInputsMatch | compiler/lsp_snapshot.go:125-148 | Exactly that every loaded input is the buffer's text or still readable with the same bytes, failed reads aside |
| SnapshotCache.StoredBytesAgree | compiler/lsp_snapshot.go:75-92 | If each file changes at most once while the call lasts, the loaded bytes of what passes both checks agree with the stored fingerprint |
| SnapshotCache.StoredIsCoherent | compiler/lsp_snapshot.go:75-92 | With failed reads known before, what passes agrees with the stored fingerprint in failed reads as well |
| SnapshotCache.UnknownFailure | compiler/lsp_snapshot.go:136-139 | A file that appears in between makes a passing entry incoherent when its failed read was not recorded before |
| SnapshotCache.CoherentExactlyWhen | compiler/lsp_snapshot.go:75-92 | Everything that passes is coherent if and only if failed reads were recorded before |
| SnapshotCache.AnalysisCache.SnapshotInput | compiler/lsp_snapshot.go:45-98 | Succeeds exactly without a conflict when the stored entry's fingerprint is the one printed first or both checks pass; fails only after a conflict, a failed reading or a real change. The stored snapshot comes back exactly in the first case, else the new analysis, which is then stored. After any calls loaded bytes agree with their fingerprint, failed reads too unless one was unknown; so a hit is an analysis of what is there now |
| SnapshotCache.FailsForAReason | compiler/lsp_snapshot.go:75-81 | When all readings succeed, nothing recorded is missing later and no file changes meanwhile, both checks pass |
| SnapshotCache.AnalysisCache.StartJob | compiler/lsp_scheduler.go:113-116 | A new job shares the cache and has relied on nothing |
| SnapshotCache.AnalysisCache.Store | compiler/lsp_snapshot.go:82-95 | The entry is added to all others, or to none once there are eight; feature data goes with the snapshots that go |
| SnapshotCache.AnalysisCache.FeatureData | compiler/lsp_features_base.go:292-298 | Feature data asked for the snapshot just returned belongs to a cached one |
| SnapshotCache.AnalysisCache.ValidateInputs | compiler/lsp_snapshot.go:149-161 | Exactly that every root relied on still fingerprints the same; then every input loaded is what the disk and the buffers hold now |
| Rename.TokenRange | compiler/lsp_features_base.go:2736-2745 | The segment after the last `::`, or all of it; empty and out-of-range spans are refused |
| Rename.PlanFile | compiler/lsp_features_base.go:2805-2822 | A plan exactly when every token spells the old name and none overlaps the one before; tokens ascend and each says where the new name will stand |
| Rename.ApplyTargets | compiler/lsp_features_base.go:2828-2843 | The left-to-right pass builds the spliced text |
| Rename.RenamedStands | compiler/lsp_features_base.go:2815-2841 | The new name stands at every precomputed place and the gap before it is copied unchanged |
| Rename.TailStands | compiler/lsp_features_base.go:2839-2841 | The text after the last target is copied to the end |
| Rename.RoundTrip | compiler/lsp_features_base.go:2815-2843 | Splicing the old name back at the renamed places restores the file |
| Rename.MapSpan | compiler/lsp_features_base.go:2878-2890 | A range is refused exactly when it shares a byte with a target, or is empty and lies within or at an end of one; otherwise it is moved |
| Rename.MappedTextSame | compiler/lsp_features_base.go:2878-2890 | A moved range covers byte for byte the same text |
| RenameChecks.FullScan | compiler/lsp_features_base.go:523-537 | A narrowest covering occurrence, the first of them, and none exactly when none covers |
| RenameChecks.OccurrenceAt | compiler/lsp_features_base.go:523-537 | The early exit finds what a full scan finds |
| RenameChecks.RenameStable | compiler/lsp_features_base.go:2944-2976 | True exactly when all renamed tokens spell the new name, share one identity, and are as many as its occurrences |
| RenameChecks.StableExactly | compiler/lsp_features_base.go:2944-2976 | With as many renamed tokens as occurrences, all occurrences were renamed if and only if no occurrence is innermost at two renamed starts |
| RenameChecks.BijectionIsStable | compiler/lsp_features_base.go:2944-2976 | A rename whose tokens are one to one the occurrences of one identity is found stable |
| RenameChecks.CoverOnceApart | compiler/lsp_features_base.go:523-537 | If no occurrence covers two renamed starts, none is innermost at two |
| RenameChecks.EndTogetherApart | compiler/lsp_features_base.go:2815-2819 | If every occurrence found ends where the renamed token ends, none is found twice, because renamed tokens do not overlap |
| RenameChecks.StableWithoutBijection | compiler/lsp_features_base.go:2944-2976 | Of an index that no names give, the count alone would pass a rename that leaves an occurrence out |
| RenameTokens.PlannedToken | compiler/lsp_features_base.go:2736-2745 | What a plan replaces of a recorded name or qualified name is a token that no name runs across |
| RenameTokens.RenamedIsName | compiler/lsp_features_base.go:2815-2841 | Replacing tokens by a name leaves a name of its own at every precomputed place of the new text |
| RenameTokens.InnermostEnds | compiler/lsp_features_base.go:709-723 | At a name's start the innermost occurrence of an index read off names ends with that name |
| RenameTokens.StableMeans | compiler/lsp_features_base.go:2944-2976 | A candidate whose index was read off names is stable if and only if the renamed tokens are, one to one, all the occurrences of one identity |
| RenameTokens.OverlappedIsNoReading | compiler/lsp_features_base.go:709-723 | The index of the counterexample cannot be read off names |
| RenameErrors.MappedDiagnostic | compiler/lsp_features_base.go:2848-2907 | A diagnostic moves with all its related places or not at all |
| RenameErrors.IntroducesNoErrors | compiler/lsp_features_base.go:2915-2938 | True exactly when every live error moves and the candidate's errors, counted, are among the moved ones |
| RenameErrors.AcceptedErrorIsOld | compiler/lsp_features_base.go:2911-2914 | Every error of an accepted candidate is a live error standing on the same text |
| Scopes.CoveringIs | compiler/lsp_features_base.go:1441-1450 | The scopes covering an offset, deepest first |
| Scopes.LookupWins | compiler/lsp_features_base.go:1452-1466 | The lookup takes the deepest covering scope that shows the name, and fails only when none does |
| ScopesAgree.UseAgrees | compiler/lsp_features_base.go:692-706 | At a use, the retained scopes of the finished walk answer what the stack answered |
| ScopesAgree.AllMatch | compiler/lsp_features_base.go:1404-1408 | Through the walk the open retained scopes are the stack, and all others ended before or are yet to come |
| ScopesAgree.WalkAgrees | compiler/lsp_features_base.go:1404-1408 | Every use of a well-placed walk resolves alike during and after it |
| ScopesAgree.MatchPlaced | compiler/lsp_features_base.go:1675-1699 | A match's values are walked before its scope although they lie in its span |
| ScopesAgree.TreePlaced | compiler/lsp_features_base.go:1630-1719 | A tree whose spans nest, with ordered and separated siblings, is walked in place |
| ScopesAgree.ResolversAgree | compiler/lsp_features_base.go:1404-1408 | For every well-formed list of declarations both resolvers give every use the same binder |
| ScopeMeaning.OneMeaning | compiler/lsp_features_base.go:692-706 | The nearest construct around a use that declares the name determines one binder |
| ScopeMeaning.NamesResolved | compiler/lsp_features_base.go:692-723 | In every well-formed file every name is resolved to the last binder of the nearest construct around it that declares it before, and to nothing exactly when none does |
| ScopeMeaning.UsesAreNames | compiler/lsp_features_base.go:692-723 | And every use is a name of the file, no two at one position, with that meaning |
| ScopeMeaning.PartPlaced | compiler/lsp_features_base.go:676-679 | A part stands after everything its construct has declared by then |
| ScopeRetained.FileRetained | compiler/lsp_features_base.go:1404-1432 | The scopes kept are exactly those of blocks, matches, arms and functions, each with exactly one binder per binding step, chain binding, pattern or input of its own |
| ScopeWalkers.RefWalker.FindBinder | compiler/lsp_features_base.go:692-706 | Frames inside out, and within a frame the nearest binder before the use |
| ScopeWalkers.RefWalker.WalkNode | compiler/lsp_features_base.go:752-955 | The stack walk resolves every name of a tree to what the constructs around it declare, inside what was in scope, and leaves the stack as it found it |
| ScopeWalkers.CompWalker.FramesAt | compiler/lsp_features_base.go:1441-1450 | The covering scopes, deepest first |
| ScopeWalkers.CompWalker.Find | compiler/lsp_features_base.go:1452-1466 | The lookup over retained scopes |
| ScopeWalkers.CompWalker.WalkNode | compiler/lsp_features_base.go:1497-1719 | The retaining walk adds exactly the scopes of the tree's constructs, each with the names it declares |
| ScopeWalkers.CompWalker.LocalsAt | compiler/lsp_features_base.go:2107-2127 | One item for each name that resolves at the offset, and it is the binder the lookup gives |
| ScopeWalkers.ResolveBothWays | compiler/lsp_features_base.go:675-706 | Running both walkers over a well-formed file, the second answers every use as the first resolved it, and that is what the name means |

## Left out

- Ownership assumes that child scopes are awaited: a body or task settles only after the scopes it opened have closed. The guards of the events say so; nothing is claimed for a scope that outlives its opener.
- Ownership assumes that a close deadline cannot expire once the close it races has settled, because promise reactions run before the next timer.
- Ownership events are in places finer than one synchronous stretch, which only adds interleavings.
- Reporting to the host, the deduplication of reports, and the wait for outstanding reports at the end of a drain.
- Invalid numeric deadlines, tokens, proxies and captured-value traversal: a launch is given the resources its participants capture.
- Payload.BuildTable: identity digests and the comparison with the catalogue and the error declarations are not part of it; a plan is a list of identities and shapes, and field names are taken not to be array indices.
- Coordination.SelectFromGroup: assertion frames, and completions that are not well-formed outcomes.
- Integers are unbounded: the revision counter's 64 bits and editor versions' width are not modelled.
- SchedulerLoop.Serve: write errors, message framing, JSON decoding and tracing; a message arrives decoded, and an undecodable notification is one of its cases.
- DocumentServer.LspServer.Open: the canonical path of a document is computed by the caller, which has its URI.
- DocumentServer.LspServer.Clone: the analysis cache and feature data it shares are in `SnapshotCache`.
- DocumentServer.LspServer.DiagnoseRoot: the text of the project status message; a failed analysis clears its root in `SchedulerLoop.ForgetRoot`.
- The file system appears in the scheduler only as the enclosing root of a path and the manifest of a workspace folder at one moment; paths are those of a Unix system.
- The request handlers themselves: a request's result is an arbitrary answer of the worker.
- Positions inside published diagnostics: a published diagnostic is its file and message.
- The directory walk and the hashing behind a fingerprint, and scratch documents in the cache; a fingerprint maps inputs to contents, and what an analysis keeps of a path is one reading of it.
- RenameErrors.MappedDiagnostic: files whose text is missing and positions that do not convert are not modelled; rename and scopes work on byte offsets, not on UTF-16 positions and lines.
- RenameTokens.StableMeans: the lexer appears only as what makes a name, and a renamed token standing in a comment inside a qualified name of the candidate is excluded.
- Which identifiers are valid new names, and the conversion of a plan into editor edits.
- Type names, fields, members and imports in the reference walk: only value names are resolved; coordinations and assertions are compounds of their parts, a binding outside every scope, which the parser does not produce, is ignored, and what a name means is stated for trees whose binding steps stand in blocks, as the grammar has it.
- Lexer, parser, checker and the driver's analysis.
