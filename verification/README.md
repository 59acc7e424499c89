# Sparkwing: verified models

Dafny models of the parts of Sparkwing where state, order and concurrency decide correctness, with
proofs about every input, every run or every reachable state. `dafny verify dfyconfig.toml` checks
the project.

## What is modelled

**Step settlement.** `Settlement.dfy` is the state of one job's steps as a value: attempt, active
set, and per step the outcome and its channel. `Work.dfy` is the same as objects (`Work`,
`WorkStep` and the channels they share), each method proved to change the state as the value
functions say, worklist loop included. `StepProtocol.dfy` lets a host send arbitrary run and skip
requests while bodies, deferred calls and waiters interleave, and proves what holds in every state
of every run. `Reachability.dfy` is the graph theory beneath it and beneath step ranges.

**Plans and generated jobs.** `ClosureIds.dfy` is the naming scheme of callbacks and its inverse.
`PlanModel.dfy` is a plan and its rendering, with the exact condition under which merging commutes
with rendering. `ClosureDispatch.dfy` finds jobs and callbacks by id. `Expansion.dfy` models what a
generator's callback can do (any sequence of calls on its own plan), how the result is tagged,
checked and merged; `ExpansionLaws.dfy` proves the merge sound; `CallbackLaws.dfy` says what each call
leaves and which arguments the finished plan shows; `ExpansionRuns.dfy` carries it over
every run with a history of merges; `Lineage.dfy` follows groups and needs through nested
generation, and `GenerationExample.dfy` shows that such nesting happens. `PlanObjects.dfy` is the `Plan` object over an arena of nodes, its loops proved against
those functions. `EvalGate.dfy` lets evaluations run side by side, each writing back what it
computed from the state it read, and proves that the one-slot gate makes this equal to one
evaluation after another; `PlanGate.dfy` draws the consequences for plans.

**Concurrency.** `RollingQueue.dfy` is the rolling local queue: tokens, instances, results.
`HereObserver.dfy` is the select loop over host, follower, canceller, signals and context. Both are
driven by arbitrary schedules of atomic moves, so a statement about all schedules is one about all
interleavings.

**Algorithms and round trips.** `StepRange.dfy` (previews of step ranges), `HookScript.dfy` (Git
hook scripts written and read back) with `HookRuns.dfy` (what they do when sh runs them), `LogTail.dfy` (the windowed, followed log tail),
`SemVer.dfy` and `MigrationRange.dfy` (migration guides between two versions), `OutputLimiter.dfy`
(diagnostic output shared by two streams), `Dollars.dfy` (amounts parsed and printed), over the
string functions in `Text.dfy`.

## Where the code does less than it might seem to

Each of these is proved, as a condition that holds exactly or with a concrete input.

- An attached run can be asked to cancel after its host finished: the host may end, with its result in
  the channel, before a signal is taken, between that and the request's go statement, or before the
  request of a call interrupted earlier (`LateRequestHappens`, `LateRequestExactly`). This can happen
  exactly to calls with a cancellation client (`LateRequestPossibleExactly`). After the result was
  taken it cannot (`NeverRequestsAfterJoin`).
- One queue instance can start after the context was cancelled, when the loop had looked at the context
  before (`StartsAfterCancelHappens`, `StartsAfterCancelExactly`); never two (`StartsAfterCancel`).
- A log tail fails although the window holds all the lines asked for, when it starts a line and holds
  exactly as many (`ExceedsExactly`), and it marks a whole line as cut when the window starts a line
  and holds no other (`MarkIsTrueExactly`).
- Following a log with `--tail 0` loses the bytes of an unfinished last line, without a mark
  (`ZeroTailExactly`).
- A step range can call a step upstream of the start that has nothing to do with it
  (`UnrelatedIsCalledUpstream`).
- A hook reads back exactly when no pipeline name contains a newline (`HookRoundTripExactly`).
- Printed amounts read back exactly from zero to below 10^11 cents (`RoundTripExactly`).
- The truncation marker is missing exactly when the limit is smaller than the marker (`MarkerExactly`).
- Steps reported settled need not have their own needs settled (`SettledNeedNotBeClosed`), so safety
  is a statement about active steps.
- A generator whose callback reuses one of its source's group names can never be accepted
  (`SharedGroupIsRefused`, and `RepeatsExactly` for exactly which names repeat).
- Merging commutes with rendering only while neither plan groups the other's nodes
  (`MergeCommutesExactly`); callbacks that stay on their own nodes always meet that.

## Conventions

Go strings are Dafny strings; where bytes matter (escaping, log lines, output) a character stands for
a byte. Nodes are indices into an arena, as Go references are addresses: a need added through one
reference is seen through every other. Mutex-protected parts are atomic. A look at a
context, a receive, a send and a go statement are moves of their own: a move joins one of them only
with steps on the mover's own variables and with a cancellation it leads to, so that every other
goroutine may come in between. Callbacks, bodies and
predicates are parameters: their results, and for generators the calls they make, are arbitrary. A
schedule names the next move; a move that is not possible changes nothing.

## Model

| member | source | states |
|---|---|---|
| `Reachability.ReachesTransitive` | sparkwing/work_run.go:54-67 | Needing through other steps composes: the closure the worklist walks is a transitive relation over explicit paths. |
| `Reachability.ClosedSetConfines` | sparkwing/work_run.go:54-67 | A set that holds the start and is closed under edges holds everything on any path: what an exhausted worklist proves. |
| `Settlement.MarkDoneKeeps` | sparkwing/work.go:364-377 | The first outcome stays, the channel is closed once, no other step is touched; channels stay closed exactly for resolved steps. |
| `Settlement.MarkAllKeeps` | sparkwing/work_run.go:36-38 | Settling a list resolves exactly the listed steps besides those already resolved, invents no output and replaces no channel. |
| `Settlement.BeginEffect` | sparkwing/work_run.go:24-43 | An accepted begin keeps outputs of its own attempt, forgets those of an earlier one, resolves the settled steps without an output and activates one step. |
| `Settlement.BeginKeepsInv` | sparkwing/work_run.go:10-44 | From a state where every active step has its need closure resolved and no active step needs another, an accepted begin leads to such a state, and the step it starts is unresolved. |
| `Settlement.MarkDoneKeepsInv` | sparkwing/work.go:364-377 | Recording an outcome keeps that invariant and forgets nothing of the attempt. |
| `Settlement.AwaitKeepsInv` | sparkwing/work.go:385-402 | A waiter gets no channel exactly when the step is resolved, else the open channel the resolution will close; nothing else changes. |
| `Settlement.FinishKeepsInv` | sparkwing/work_run.go:70-74 | Finishing a step keeps the invariant. |
| `Settlement.CycleNeverBegins` | sparkwing/work_run.go:54-67 | A step on a need cycle is refused whatever the host reports. |
| `Settlement.UnknownNeedNeverBegins` | sparkwing/work_run.go:54-67 | A step whose needs lead to an undeclared id is refused; no unknown id is ever dereferenced. |
| `Settlement.BeginPossibleExactly` | sparkwing/work_run.go:10-68 | Some report of settled steps lets a step begin if and only if the attempt is allowed, the step is idle and unresolved in it, and everything it needs is declared, idle and not the step itself. |
| `Settlement.BeginDecides` | sparkwing/work_run.go:10-68 | Acceptance and each of the four refusals, each as an equivalence over attempt, active steps, outcomes, the listed ids and the need closure. |
| `Settlement.SettledNeedNotBeClosed` | sparkwing/work_run.go:46-67 | A concrete accepted begin that settles a step while that step's own need stays open: the invariant can only be about active steps. |
| `WorkObjects.ChannelHeap.Close` | sparkwing/work.go:364-377 | Closing needs an open channel, so a second close cannot be written. |
| `WorkObjects.WorkStep.AddNeed` | sparkwing/work.go:298-317 | The empty id is ignored and no need is listed twice. |
| `WorkObjects.WorkStep.MarkDone` | sparkwing/work.go:364-377 | The step object after markDone: first outcome kept, its channel made if absent and closed once. |
| `WorkObjects.WorkStep.AwaitDone` | sparkwing/work.go:385-402 | The step object after the locked half of a wait, and the channel handed out. |
| `WorkObjects.Work.Register` | sparkwing/work.go:85-106 | An empty or duplicate id registers nothing; otherwise exactly one fresh step is added. |
| `WorkObjects.Work.CheckNames` | sparkwing/work_run.go:47-53 | The first loop accepts exactly duplicate-free lists of known, inactive, other steps. |
| `WorkObjects.Work.CheckClosure` | sparkwing/work_run.go:54-67 | The worklist loop ends on every graph, cyclic ones included, and accepts exactly when the whole need closure is listed. |
| `WorkObjects.Work.ValidateSettlement` | sparkwing/work_run.go:46-68 | Which of the two errors, or acceptance, in an if-and-only-if each. |
| `WorkObjects.Work.ResetSteps` | sparkwing/work_run.go:29-33 | Every step forgets outcome and channel and keeps its needs. |
| `WorkObjects.Work.BeginStep` | sparkwing/work_run.go:10-44 | The objects change exactly as the begin function says; a refused begin leaves the state as it was and gives the same reason. |
| `WorkObjects.Work.FinishStep` | sparkwing/work_run.go:70-74 | The active set loses the step. |
| `WorkObjects.Work.AwaitStep` | sparkwing/work.go:385-402 | State and channel of a wait, tied to the abstract step. |
| `WorkObjects.Work.RunAdmitted` | sparkwing/protocol_operations.go:171-208 | Body, recording, the two deferred calls in their order, and the reply, for every way a body can end; an unresolved step is afterwards resolved with what its body returned, or with nothing, inactive, and no other step is different. |
| `WorkObjects.Work.RunStep` | sparkwing/protocol_operations.go:155-209 | One request from lookup to reply; unknown steps and refused begins leave no trace, an accepted one completes its step with what the body returned. |
| `WorkObjects.RequestSettlesItsStep` | sparkwing/protocol_operations.go:171-208 | A request leaves its step resolved and inactive; its output is what the body returned, fit to be sent or not, and none after a panic or an error; the invariant holds. |
| `WorkObjects.MarkAllMarkable` | sparkwing/work_run.go:36-38 | Settling closes no channel twice whatever the order and repetition of the list. |
| `WorkObjects.WorklistVisit` | sparkwing/work_run.go:63-65 | One visit keeps: queued ids are needed, visited ids are settled, and every need of a visited step is visited or queued. |
| `WorkObjects.WorklistDone` | sparkwing/work_run.go:54-67 | When the worklist is empty the settled ids hold the whole need closure. |
| `WorkObjects.RegisterKeepsInv` | sparkwing/work.go:85-106 | Registering a step disturbs no reachability, so the invariant holds for jobs still being declared. |
| `StepProtocol.EveryStateSafe` | sparkwing/work_run.go:10-74 | In every state of every interleaving of requests, bodies, deferred calls and waits: the invariant, one request at most for a step and the active set naming exactly the steps of requests in flight, live channels for waiters, outputs and starts accounted for by the history. |
| `StepProtocol.TerminalStateIsMonotone` | sparkwing/work_run.go:13-35 | The attempt never falls; within one attempt resolved steps, their outputs and all channels stay. |
| `StepProtocol.NoResetWhileActive` | sparkwing/work_run.go:13-15 | While a step stays active nothing is reset under it. |
| `StepProtocol.WaiterWakesExactlyOnResolution` | sparkwing/work.go:385-402 | A blocked reader of an output can wake exactly when its target is resolved; it never holds a dropped channel. |
| `StepProtocol.ActiveStepsFormAnAntichain` | sparkwing/work_run.go:46-68 | In every reachable state whatever an active step needs is resolved and not active. |
| `StepProtocol.BodyStartsAtMostOnce` | sparkwing/work_run.go:16-23 | After a body started in an attempt neither that body nor a skip predicate of that step starts again in it. |
| `StepProtocol.ResolvedStepNeverStartsAgain` | sparkwing/work_run.go:16-23 | A request for a step resolved earlier in the attempt changes nothing. |
| `StepProtocol.OneRequestPerStep` | sparkwing/work_run.go:16-18 | Two requests running in one state, bodies or predicates, are for two steps; nothing in the state keeps them apart but the checks. |
| `StepProtocol.RunningStepIsRefused` | sparkwing/work_run.go:16-18 | A request for a step whose body or skip predicate is still running changes nothing. |
| `StepProtocol.StartsNeverOverlap` | sparkwing/protocol_operations.go:171-208 | In the history of any run, between two starts of one step, bodies or predicates, the first has ended. |
| `StepProtocol.StartedBodyExcludesRequests` | sparkwing/protocol_operations.go:261-267 | Once a body has started in an attempt, every later request for that step and attempt changes nothing: neither that body nor a skip predicate starts after it. |
| `StepProtocol.OutputComesFromThisAttempt` | sparkwing/work_run.go:27-35 | A stored output was returned by a body that started in the current attempt. |
| `StepProtocol.RequestAdmittedExactly` | sparkwing/work_run.go:10-44 | A request changes the state exactly when its begin is accepted; it then runs as body or predicate under a number of its own, with its start recorded. |
| `StepProtocol.BodyEnds` | sparkwing/protocol_operations.go:171-208 | A running body can return any output at any time, which is then its step's; if it does not return, the deferred call resolves the step without one. |
| `StepProtocol.AwaitBlocksExactly` | sparkwing/work.go:385-402 | Reading an output blocks exactly while its step is unresolved, and changes nothing otherwise. |
| `StepProtocol.OutputExactly` | sparkwing/work.go:214-218 | In every state of every run a step shows an output if and only if a body of that step returned that output earlier in the current attempt. |
| `ClosureIds.UnescapeReadsBack` | sparkwing/protocol_plan.go:19-21 | Percent-decoding (section 2.1 of RFC 3986) inverts the escaping of a job id, for every byte string. |
| `ClosureIds.EscapedHasNoSlash` | sparkwing/protocol_plan.go:19-21 | An escaped job id is one path segment. |
| `ClosureIds.EscapesExactly` | sparkwing/protocol_plan.go:19-21 | Letters, digits and -_.~$&+=:@ stay, every other byte becomes a percent sign and two capital hexadecimal digits. |
| `ClosureIds.ClosureIDReadsBack` | sparkwing/protocol_plan.go:19-21 | Splitting at the first and the last slash gives back job, kind and index, whatever slashes job ids and step ids contain. |
| `ClosureIds.ClosureIDInjective` | sparkwing/protocol_plan.go:19-21 | Equal ids have equal job, kind and index. |
| `ClosureIds.CallbackIDInjective` | sparkwing/protocol_plan.go:108-158 | No two callbacks of any jobs, skip predicates of steps included, share an id. |
| `ClosureDispatch.PlanJobFindsExactly` | sparkwing/protocol_plan.go:185-199 | A lookup succeeds exactly for the ids in the document and returns a node of the plan with that id. |
| `ClosureDispatch.DocDeclaresExactly` | sparkwing/protocol_plan.go:108-158 | A document lists an id exactly when its node declares the callback of that id. |
| `ClosureDispatch.ListsNameTheirKind` | sparkwing/protocol_plan.go:108-158 | Each list of a document names the callbacks of its own kind in order, and each step the skip predicates of that step. |
| `ClosureDispatch.ClosureJobFindsExactly` | sparkwing/protocol_operations.go:455-484 | With unique job ids, a closure id leads to a node exactly when that node is in the plan and declared the closure. |
| `ClosureDispatch.FindNumbered` | sparkwing/protocol_operations.go:298-302 | One numbered list: the index found is a match, and none means no match. |
| `ClosureDispatch.ClosureStep` | sparkwing/protocol_operations.go:486-497 | Finds a step's skip predicate exactly when the id is one. |
| `ClosureDispatch.FindCallback` | sparkwing/protocol_operations.go:297-350 | The scan of one job finds a declared callback of this id, and nothing only when there is none. |
| `ClosureDispatch.OneCallbackPerID` | sparkwing/protocol_operations.go:297-350 | There is at most one answer, so the order of the scan does not matter. |
| `PlanModel.ChainIsIncreasing` | sparkwing/plan.go:50-58 | Walking recovery links ends, visiting no node twice, because a link always leads to a later allocated node. |
| `PlanModel.JobGroupsIff` | sparkwing/protocol_plan.go:166-176 | A job shows a group's name exactly when a named group has it as a member. |
| `PlanModel.RootDocsRender` | sparkwing/protocol_plan.go:47-55 | The document holds one job for each node, in order, each the rendering of its node; which job each recovers is said by RootDocsLayout. |
| `PlanModel.RootDocsLayout` | sparkwing/protocol_plan.go:47-55 | The roots stand in order with an empty onFailureOf; every other job stands behind the one whose recovery it is and names it; no recovery is missing. |
| `PlanModel.DocReadsBack` | sparkwing/protocol_plan.go:77-160 | A node can be read back from its document: needs, callbacks, steps, cores, approval and settings are neither lost nor mixed up. |
| `PlanModel.ArgumentsExactly` | sparkwing/protocol_plan.go:79-86 | A job shows an argument if and only if some declaration for its id has that field. |
| `PlanModel.MergeCommutesExactly` | sparkwing/protocol_operations.go:400-416 | The merged plan's document is the old jobs followed by the expansion's, all unchanged, if and only if neither plan groups, or declares arguments for, a node of the other. |
| `Expansion.ApplyKeepsOwn` | sparkwing/plan.go:126-139 | Each call a callback can make keeps links forward, generators numbered, roots indexed, and leaves every node it did not make as it was. |
| `Expansion.RunKeepsOwn` | sparkwing/protocol_operations.go:365-367 | The same for every callback, up to its end or the first call that panics. |
| `CallbackLaws.AddJobExactly` | sparkwing/plan.go:126-139 | When adding a job panics, and otherwise the one node and root it leaves, with every modifier it was given. |
| `CallbackLaws.AddRecoveryExactly` | sparkwing/plan.go:382-386 | When adding a recovery panics, and otherwise the new node, linked from the failing one and no root. |
| `CallbackLaws.AddGeneratorExactly` | sparkwing/sdk_contract.go:168-175 | One generator more on one node, under the id of its next callback of that kind. |
| `CallbackLaws.AddNeedExactly` | sparkwing/plan.go:308-313 | The need is listed afterwards, once, behind the others. |
| `CallbackLaws.AddGroupExactly` | sparkwing/combinator.go:28-35 | One group more, of exactly the nodes named. |
| `CallbackLaws.RunStopsAtPanic` | sparkwing/protocol_operations.go:365-367 | The calls take effect in order up to the first that panics, and none after it. |
| `CallbackLaws.ExpansionShowsArguments` | sparkwing/jobargs.go:16-39 | Every job of an expansion, recoveries included, shows exactly the arguments its own node was given. |
| `CallbackLaws.PlannedShowsArguments` | sparkwing/jobargs.go:16-39 | The same for the plan a pipeline declares. |
| `CallbackLaws.StoredArgumentsShown` | sparkwing/protocol_operations.go:392-401 | What an accepted expansion stores as its arguments is exactly what its jobs show; those of other generators stay. |
| `Expansion.WithNeedsExactly` | sparkwing/protocol_operations.go:369-374 | Each node built needs the source, every other node is unchanged. |
| `ExpansionLaws.GrownHeapSameJobs` | sparkwing/protocol_plan.go:23-57 | New nodes beside a plan change nothing in what it renders. |
| `ExpansionLaws.FinishedDeclsShown` | sparkwing/jobargs.go:16-39 | Every declaration of arguments is about a job the document shows, recoveries included. |
| `ExpansionLaws.TaggedGroupsAre` | sparkwing/protocol_operations.go:375-378 | A generated job's groups are its own, then the generator's, then all of the source's, in that order and nothing more. |
| `ExpansionLaws.AcceptedIsSeparate` | sparkwing/protocol_operations.go:385-391 | Unique ids over both documents and callbacks that stay on their own nodes imply that neither plan touches the other, the condition under which merging commutes with rendering. |
| `ExpansionLaws.AcceptedMerges` | sparkwing/protocol_operations.go:400-416 | An accepted expansion appends its documents and leaves a sound plan: unique ids, an index of exactly the roots, declarations shown. |
| `ExpansionRuns.ExpandIsAtomic` | sparkwing/protocol_operations.go:347-417 | A generator merged before replays its stored jobs and changes nothing. Any other is accepted exactly when its callback ran to its end without a panic or error and validation accepts the tagged jobs beside the live ones, and then appends them, tagged, and stores them. Every other one leaves plan and document as they were and answers no jobs. |
| `ExpansionRuns.AcceptsExactly` | internal/nodeproto/plan_validation.go:158-209 | Validation accepts generated jobs if and only if no two share an id, none takes a live one, none has an empty id or an empty or repeated need or group, and no other rule is broken. |
| `ExpansionRuns.RefusedExactly` | sparkwing/protocol_operations.go:347-417 | A generator not merged yet is refused if and only if its callback panics or fails, or one of those rules is broken. |
| `ExpansionRuns.EvalDecides` | sparkwing/protocol_operations.go:242-295 | The same from the request: the state an evaluation finds and what its callback does decide whether it replays, merges, or changes nothing, and what it answers. |
| `ExpansionRuns.RepeatsExactly` | internal/nodeproto/plan_validation.go:158-171 | No generated job lists a group twice if and only if, for each, the groups the callback gave it and its source's groups are distinct, disjoint, and without the generator's id. |
| `ExpansionRuns.SharedGroupIsRefused` | internal/nodeproto/plan_validation.go:158-171 | So a callback that groups one of its jobs under a name its source is grouped under is always refused. |
| `ExpansionRuns.PlannedIsValid` | sparkwing/protocol_operations.go:143-152 | A plan built by any sequence of calls and accepted by validation satisfies the invariant, with an empty history. |
| `ExpansionRuns.EvalKeepsValid` | sparkwing/protocol_operations.go:242-295 | Every evaluation keeps: the document is the declared jobs followed by the merged expansions in order, each with its source before it, stored under its generator. |
| `ExpansionRuns.RunKeepsValid` | sparkwing/protocol_operations.go:242-295 | The same over every run of evaluations; what is stored for a generator never changes. |
| `GenerationExample.OneLevel` | sparkwing/protocol_operations.go:347-417 | From any sound plan with a job ready to generate, a callback that adds one new job with a generator is accepted: the whole new state, and the new job is ready in turn. |
| `GenerationExample.GenerationNests` | sparkwing/protocol_operations.go:347-417 | For any three different ids a run of two requests ends with a generation path of length two, so the statements about paths are about something. |
| `Lineage.GeneratedIsTagged` | sparkwing/protocol_operations.go:368-378 | A generated job stands behind its source, needs it, and its groups end with the generator and the source's groups. |
| `Lineage.NestedGenerationInherits` | sparkwing/protocol_operations.go:368-378 | Along any path of nested generation jobs need their predecessors, and the last shows every generator on the way and ends with all the groups of the first. |
| `Lineage.EveryPlanInherits` | sparkwing/protocol_operations.go:242-295 | That holds for the plan's own document after any run. |
| `Lineage.ReplayIsCurrent` | sparkwing/protocol_operations.go:351-353 | Each job of a replayed answer is a job of the current document, up to the core request left out for older hosts. |
| `PlanObjects.NodeArena.AddNeed` | sparkwing/plan.go:308-313 | A need is listed once; no other node changes. |
| `PlanObjects.NodeArena.OnFailure` | sparkwing/plan.go:382-386 | A fresh node becomes the recovery, whatever was linked before. |
| `PlanObjects.NodeArena.Generate` | sparkwing/sdk_contract.go:168-175 | The new generator's id is numbered by those the node already has. |
| `PlanObjects.CheckNames` | internal/nodeproto/plan_validation.go:158-171 | Accepts exactly lists without empty and repeated names. |
| `PlanObjects.CheckJobs` | internal/nodeproto/plan_validation.go:189-209 | Accepts exactly when ids are unique over old and new jobs and new jobs have distinct non-empty needs and groups. |
| `PlanObjects.PlanObject.Job` | sparkwing/plan.go:126-139 | Registration of a job or gate; an id in use or empty changes nothing. |
| `PlanObjects.PlanObject.GroupJobs` | sparkwing/combinator.go:28-35 | The group is added behind the others; nothing else changes. |
| `PlanObjects.PlanObject.RunCallback` | sparkwing/protocol_operations.go:365-367 | The callback's calls on the objects give the world that running them on values gives. |
| `PlanObjects.PlanObject.GroupNames` | sparkwing/protocol_plan.go:166-176 | The two nested loops compute the group list. |
| `PlanObjects.PlanObject.Arguments` | sparkwing/protocol_plan.go:75-82 | The loop gathers the arguments declared for the id, in order. |
| `PlanObjects.PlanObject.PlanDocument` | sparkwing/protocol_plan.go:23-57 | The nested loops over roots and chains compute the document. |
| `PlanObjects.PlanObject.FindJob` | sparkwing/protocol_plan.go:185-199 | The index, then the chains: the lookup function's answer. |
| `PlanObjects.PlanObject.FindClosureJob` | sparkwing/protocol_operations.go:455-467 | The search through the rendered document gives the dispatch function's answer. |
| `PlanObjects.PlanObject.NeedSource` | sparkwing/protocol_operations.go:368-374 | Collects every node of the expansion and makes each need the source, in one walk. |
| `PlanObjects.PlanObject.RegisterRecoveryArgs` | sparkwing/jobargs.go:16-22 | Appends what the recovery jobs declare, in order. |
| `PlanObjects.PlanObject.Merge` | sparkwing/protocol_operations.go:400-415 | The plan after the merge, field by field, the index by repeated registration. |
| `PlanObjects.PlanObject.ExpandGenerator` | sparkwing/protocol_operations.go:347-417 | The generator branch on objects ends in exactly the plan, heap and answer of the expansion function. |
| `PlanObjects.PlanObject.EvalClosure` | sparkwing/protocol_operations.go:242-295 | A whole evaluation: reply and new state for unknown ids, bound jobs, plain callbacks and generators. |
| `PlanObjects.UnknownExactly` | sparkwing/protocol_operations.go:257-260 | The closure is unknown if and only if no node of the plan declares it that the request may reach: its bound job if it has one, or any job for a generator. |
| `PlanObjects.RanExactly` | sparkwing/protocol_operations.go:297-345 | A plain callback runs if and only if a node of the plan, the bound one if there is one, declares it under this id. |
| `PlanObjects.JobsExactly` | sparkwing/protocol_operations.go:347-417 | Jobs are answered if and only if the generator was merged before, and then the stored ones, or its expansion is accepted, and then those; every other generator fails. |
| `PlanObjects.AnsweredArguments` | sparkwing/protocol_operations.go:290-294 | The arguments answered with a new expansion are exactly those its jobs show. |
| `EvalGate.InterleavingIsSequential` | sparkwing/protocol_operations.go:247-256 | Under every interleaving of evaluations the state is the one that evaluating the requests one after another gives, in the order they wrote, and each answer is the answer of its turn. |
| `EvalGate.WritesExactly` | sparkwing/protocol_operations.go:247-256 | In every interleaving exactly the evaluations that answered have written, each once. |
| `PlanGate.InterleavedPlanIsValid` | sparkwing/protocol_operations.go:247-295 | So under every interleaving the plan is sound, its document is the declared jobs and the merged expansions, and nothing merged or stored is lost. |
| `PlanGate.AnsweredIsStored` | sparkwing/protocol_operations.go:400-416 | An evaluation that answered jobs finds them stored under its generator, whatever came after it. |
| `PlanGate.MergedAtMostOnce` | sparkwing/protocol_operations.go:351-353 | No generator's expansion is merged twice, in any interleaving. |
| `EvalGate.AtMostOneInside` | sparkwing/protocol_operations.go:247-250 | At most one evaluation is between taking and releasing the gate. |
| `PlanGate.AnswersAgree` | sparkwing/protocol_operations.go:351-353 | Two evaluations of one generator that both answer give the same jobs. |
| `PlanGate.EveryAnswerIsDecided` | sparkwing/protocol_operations.go:242-295 | In every interleaving each answer, and what its evaluation left, is what the plan at its turn decides: replay, merge or nothing. |
| `PlanGate.InterleavedPlanInherits` | sparkwing/protocol_operations.go:368-378 | Needs and groups are inherited along every generation path in the plan that any interleaving leaves. |
| `EvalGate.NeverBlocked` | sparkwing/protocol_operations.go:247-256 | Until every evaluation has answered or gone, one of them can go on. |
| `RollingQueue.LocalQueue.Run` | cmd/sparkwing/local_queue.go:94-133 | The local variables, channels and goroutines under any schedule end in the state the transition function gives. |
| `RollingQueue.LocalQueue.Successor` | cmd/sparkwing/local_queue.go:107-115 | Once per instance, a non-blocking send on the one-slot channel. |
| `RollingQueue.Safe` | cmd/sparkwing/local_queue.go:94-133 | The invariant over counters, channels, instances and errors holds after every schedule. |
| `RollingQueue.TokenIsConserved` | cmd/sparkwing/local_queue.go:94-133 | Instances still claiming, the token in the channel and the token in the loop's hand are one in all until a token is discarded, none afterwards, and discarding implies cancellation. |
| `RollingQueue.AtMostOneClaimer` | cmd/sparkwing/local_queue.go:92-121 | Two instances never claim at once. |
| `RollingQueue.DefaultArmUnreachable` | cmd/sparkwing/local_queue.go:110-113 | While an instance has not started its successor the slot is free, and no token is ever dropped. |
| `RollingQueue.LoopHeadHasWork` | cmd/sparkwing/local_queue.go:102-104 | At each loop head a token is available or an instance is running. |
| `RollingQueue.NeverDeadlocks` | cmd/sparkwing/local_queue.go:102-132 | Until the loop has left, it or one of its goroutines can move. |
| `RollingQueue.ReturnJoinsEverything` | cmd/sparkwing/local_queue.go:122-131 | It returns only when cancelled and with every started instance's result received once; each result is what start returned in that instance, and the error joins exactly their errors in the order received. |
| `RollingQueue.ResultsAreCarried` | cmd/sparkwing/local_queue.go:116-121 | What an instance carries, up to its delivery, is what its start returned among the moves that took effect. |
| `RollingQueue.CancelledExactly` | cmd/sparkwing/local_queue.go:122-128 | The context is cancelled if and only if it was cancelled from outside or an error that start returned was received. |
| `RollingQueue.LeavesExactly` | cmd/sparkwing/local_queue.go:129-131 | At the end of a turn the loop leaves if and only if it is cancelled and no started instance is left to receive from. |
| `RollingQueue.CanStartExactly` | cmd/sparkwing/local_queue.go:88-121 | Another instance can still start if and only if the queue is not cancelled, or the loop has passed its look at the context. |
| `RollingQueue.StartsAfterCancel` | cmd/sparkwing/local_queue.go:104-121 | From a cancelled state on, one more instance has started if the loop had already read the context and has since reached its go statement, and none otherwise. |
| `RollingQueue.StartsAfterCancelExactly` | cmd/sparkwing/local_queue.go:104-121 | From a cancelled state an instance can still start if and only if the loop is between its look at the context and its go statement. |
| `RollingQueue.StartsAfterCancelHappens` | cmd/sparkwing/local_queue.go:104-121 | A concrete schedule that cancels in between. |
| `RollingQueue.CancelledQueueTerminates` | cmd/sparkwing/local_queue.go:102-132 | From a cancelled state only a bounded number of steps can happen. |
| `HereObserver.Attachment.Run` | cmd/sparkwing/here_attach.go:72-128 | The loop's variables under any schedule, and the errors it would join. |
| `HereObserver.Observe` | cmd/sparkwing/here_attach.go:55-128 | The whole call: refused with the context's error or the missing host or reader before anything starts, else the errors of the loop under the schedule. |
| `HereObserver.Safe` | cmd/sparkwing/here_attach.go:55-128 | The invariant holds after every schedule. |
| `HereObserver.ReturnsAfterEveryoneDelivered` | cmd/sparkwing/here_attach.go:89-106 | It returns only after host, follower and every canceller ever launched delivered; the results taken are exactly theirs, each once. |
| `HereObserver.NilErrorExactly` | cmd/sparkwing/here_attach.go:124-127 | The error is nil if and only if host, follower and every canceller succeeded and the context was cancelled at no point of the schedule. |
| `HereObserver.ContextStopsExactly` | cmd/sparkwing/here_attach.go:66-123 | The context is cancelled if and only if one of these took effect: its end from outside, the taking of a host error, a request without a client, a signal taken after a request or after the host's end was taken. |
| `HereObserver.ErrorsExactly` | cmd/sparkwing/here_attach.go:90-127 | The errors joined, in order: those of the results taken, of a request without a client, one for each such signal, one when the loop saw the end of the context, and last the context's own. |
| `HereObserver.RequestComesFirst` | cmd/sparkwing/here_attach.go:76-88 | A request can be launched exactly when the call was interrupted before or a signal asked for one, and none was launched; until then the loop takes nothing. |
| `HereObserver.ResultArmsExactly` | cmd/sparkwing/here_attach.go:89-106 | At its select the loop can take exactly the results that were sent and not taken. |
| `HereObserver.SignalArmsExactly` | cmd/sparkwing/here_attach.go:107-122 | At its select it can take a signal that arrived and was not taken, the closed channel when none is left, and the end of the context once. |
| `HereObserver.LeavesExactly` | cmd/sparkwing/here_attach.go:89-127 | It leaves if and only if the results of host, follower and the canceller, if one was launched, were taken. |
| `HereObserver.RequestsAtMostOnce` | cmd/sparkwing/here_attach.go:76-85 | The history of launched cancellers has at most one entry after every schedule, and one only with a cancellation client. |
| `HereObserver.NeverRequestsAfterJoin` | cmd/sparkwing/here_attach.go:107-117 | No canceller in the history was launched after the loop had taken the host's result. |
| `HereObserver.LateRequestHappens` | cmd/sparkwing/here_attach.go:66-117 | Concrete schedules in which the request is launched after the host finished: before the first loop head of an interrupted call, between a signal and its go statement, and with the host's result waiting when the signal is taken. |
| `HereObserver.LateRequestExactly` | cmd/sparkwing/here_attach.go:66-117 | A schedule launches a canceller after the host's end if and only if the call has a client and, among the moves that took effect, the host's report comes before the go statement of the request. |
| `HereObserver.LateRequestPossibleExactly` | cmd/sparkwing/here_attach.go:66-117 | Some schedule does so if and only if the call has a cancellation client, whether it was interrupted before it began or not. |
| `HereObserver.NeverStuck` | cmd/sparkwing/here_attach.go:89-123 | Until it has left, the loop has an arm to take or a goroutine that will report. |
| `HereObserver.FinitelyManySteps` | cmd/sparkwing/here_attach.go:89-123 | With finitely many signals only finitely many steps happen. |
| `StepRange.ReachesBySearch` | cmd/sparkwing/action_plan.go:387-402 | The stack search ends on any graph and answers true exactly when a path exists. |
| `StepRange.EdgeMaps` | cmd/sparkwing/action_plan.go:358-365 | The two maps hold exactly the needs of the declared steps, forwards and backwards. |
| `StepRange.MapsAreReversed` | cmd/sparkwing/action_plan.go:358-365 | Each map is the other's reverse. |
| `StepRange.RangeSkips` | cmd/sparkwing/action_plan.go:357-385 | With unique ids the steps skipped are exactly those outside the interval from start to stop, with the reason that names the bounds given. |
| `StepRange.KeptIsConvex` | cmd/sparkwing/action_plan.go:379-383 | A step between two kept steps is kept. |
| `StepRange.SomethingIsKept` | cmd/sparkwing/action_plan.go:379-383 | With both bounds declared something is kept if and only if stop depends on start or is it. |
| `StepRange.SingleBoundKeepsItself` | cmd/sparkwing/action_plan.go:379-383 | A single bound is kept itself. |
| `StepRange.UnrelatedIsCalledUpstream` | cmd/sparkwing/action_plan.go:369-377 | A step that has nothing to do with the start is skipped as upstream of it: the reason given can be wrong. |
| `StepRange.PreviewSteps` | cmd/sparkwing/action_plan.go:309-327 | The decision for each step and whether all are skipped. |
| `HookScript.FirstShellWord` | cmd/sparkwing/hooks.go:433-454 | The loop with index, quote flag and builder computes the first word. |
| `HookScript.ScanReadsWord` | cmd/sparkwing/hooks.go:440-452 | It reads any well-formed word of quoted, escaped and plain parts (section 2.2 of POSIX.1-2017 Shell Command Language) as what that word means. |
| `HookScript.PlainWordExactly` | cmd/sparkwing/hooks.go:434-439 | A name without a leading quote goes up to the first space, or to the end. |
| `HookScript.QuoteIsAWord` | cmd/sparkwing/hooks.go:429-431 | Quoting writes a well-formed word that means exactly the name. |
| `HookScript.FirstWordOfQuoted` | cmd/sparkwing/hooks.go:429-454 | The first word of a quoted name, alone or before a space, is the name. |
| `HookScript.DescribeManagedHook` | cmd/sparkwing/hooks.go:294-302 | The loop over lines collects the called pipelines. |
| `HookScript.RenderHookScript` | cmd/sparkwing/hooks.go:399-427 | The builder's writes give the script, line for line. |
| `HookScript.UnbindQuiet` | pkg/gitenv/gitenv.go:66-79 | None of the preamble's lines reads as a pipeline call. |
| `HookScript.HookRoundTripExactly` | cmd/sparkwing/hooks.go:294-302 | Describing a rendered hook gives its pipelines back if and only if no name holds a newline, for every hook and system. |
| `HookRuns.BlockingHookRuns` | cmd/sparkwing/hooks.go:399-427 | Run by sh, every hook but post-commit calls its pipelines in order up to the first that fails, without the variables that bind git, and fails if and only if one does. |
| `HookRuns.PostCommitHookRuns` | cmd/sparkwing/hooks.go:399-427 | A post-commit hook calls all its pipelines without those variables and succeeds whatever they do. |
| `LogTail.PendingLine.AppendFragment` | cmd/sparkwing/dashboard_logs.go:108-116 | The line in place after one fragment. |
| `LogTail.AppendTwice` | cmd/sparkwing/dashboard_logs.go:108-116 | A line does not depend on how its bytes were cut. |
| `LogTail.CappedIsAppend` | cmd/sparkwing/dashboard_logs.go:108-116 | A line is its first 16 KiB, truncated exactly when bytes were dropped. |
| `LogTail.AppendExactly` | cmd/sparkwing/dashboard_logs.go:108-116 | A line grows to 16 KiB and no further, and is truncated exactly when bytes found no room. |
| `LogTail.FileRejoins` | cmd/sparkwing/dashboard_logs.go:131-131 | The lines of a file hold no line break and give the file back. |
| `LogTail.WindowHoldsLastLines` | cmd/sparkwing/dashboard_logs.go:123-143 | The whole lines of the last MiB are the last lines of the file. |
| `LogTail.SelectParts` | cmd/sparkwing/dashboard_logs.go:131-143 | Which parts are shown, when the first is cut, and exactly when the history exceeds the window. |
| `LogTail.RenderParts` | cmd/sparkwing/dashboard_logs.go:144-161 | How parts become capped, marked and pending lines, and when cancellation ends it. |
| `LogTail.DashboardLogTail` | cmd/sparkwing/dashboard_logs.go:118-162 | Without an omitted prefix, lines and pending line are the last lines of the whole file, capped; with one, the single line marked. It fails for the window exactly when the file exceeds it and its parts are at least two and no more than the lines asked for, and for the context exactly when that ends before the last line shown. |
| `LogTail.ExceedsExactly` | cmd/sparkwing/dashboard_logs.go:131-139 | For a window with a line break the history error is given if and only if the lines asked for do not lie in the window, or the window starts a line and holds exactly that many: then they are all there, and it fails all the same. |
| `LogTail.MarkIsTrueExactly` | cmd/sparkwing/dashboard_logs.go:131-151 | A line marked as cut lacks its beginning if and only if the byte before the window is no line break. |
| `LogTail.MarkedExactly` | cmd/sparkwing/dashboard_logs.go:148-153 | A marked line begins with the mark, counts as truncated and keeps the cap. |
| `LogTail.FollowFragments` | cmd/sparkwing/dashboard_logs.go:75-100 | However bytes arrive, each line is emitted once when complete and the unfinished one is kept. |
| `LogTail.TailAndFollow` | cmd/sparkwing/dashboard_logs.go:56-100 | For every file and limit: printed is a run of consecutive complete lines of the growing file up to its newest, none lost, repeated or cut in two; for a file whose window holds the end of one line, that line marked and then every later one; with a limit of zero, what the appended bytes alone make up. |
| `LogTail.ZeroTailExactly` | cmd/sparkwing/dashboard_logs.go:118-122 | What following prints with a limit of zero is right for all later bytes if and only if the file is empty or ends a line. |
| `SemVer.CompareFlips` | cmd/sparkwing/docs_migrations.go:165-170 | Precedence (section 11 of SemVer 2.0.0) is total: swapping the arguments flips the sign. |
| `SemVer.CompareChains` | cmd/sparkwing/docs_migrations.go:165-170 | Precedence is transitive, strictly when one step is strict. |
| `SemVer.CompareExactly` | cmd/sparkwing/docs_migrations.go:165-170 | The comparison is precedence as section 11 words it: numbers, then prerelease before release, then the first differing identifier; zero exactly for versions that differ in the build at most. |
| `MigrationRange.NewestVersion` | cmd/sparkwing/docs_migrations.go:148-156 | The bound chosen is a greatest listed version, and blank only for lists without one. |
| `MigrationRange.InsertionSort` | cmd/sparkwing/docs_migrations.go:169-173 | The in-place sort gives the stable ascending order. |
| `MigrationRange.FilterAndOrderBetween` | cmd/sparkwing/docs_migrations.go:144-175 | For valid bounds the result is the stable order of exactly the valid entries in the half-open range, all above the lower bound when none is given; with an invalid bound it is empty. |
| `MigrationRange.StableOrderIsPermutation` | cmd/sparkwing/docs_migrations.go:160-174 | Every entry occurs as often as among those selected. |
| `MigrationRange.StableOrderIsUnique` | cmd/sparkwing/docs_migrations.go:169-173 | There is only one stable order, so the result is determined. |
| `MigrationRange.PickedExactly` | cmd/sparkwing/docs_migrations.go:144-168 | Every entry above the first version, or above 0.0.0, and up to the second if there is one, is picked as often as it is listed, and nothing else. |
| `MigrationRange.PickedAscends` | cmd/sparkwing/docs_migrations.go:169-173 | No picked entry precedes one before it. |
| `MigrationRange.SplitLaw` | cmd/sparkwing/docs_migrations.go:161-168 | For a version between the bounds, the guides of the whole range are those of the first part followed by those of the second. |
| `MigrationRange.OpenSplitLaw` | cmd/sparkwing/docs_migrations.go:148-156 | The same when no upper bound is given. |
| `OutputLimiter.DiagnosticOutputLimiter.Capture` | sparkwing/exec.go:599-619 | Bytes returned and the limiter after one call. |
| `OutputLimiter.DiagnosticOutputLimiter.CaptureAll` | sparkwing/exec.go:561-576 | Both builders after any interleaving of two readers. |
| `OutputLimiter.NeverExceedsLimit` | sparkwing/exec.go:599-619 | After expiry both streams together return at most the limit. |
| `OutputLimiter.SilentAfterMark` | sparkwing/exec.go:605-615 | Once something was dropped nothing more is returned after expiry, on either stream. |
| `OutputLimiter.MarkerExactly` | sparkwing/exec.go:608-618 | The marker appears at most once, and when something is dropped exactly if the limit has room for it. |
| `OutputLimiter.OutcomeExactly` | sparkwing/exec.go:599-619 | From the bytes offered after expiry alone: a chunk is passed exactly while all of them and the marker fit, the first that does not fit becomes the marker if there was room, every other is dropped. |
| `OutputLimiter.BufferIsPrefix` | sparkwing/exec.go:555-580 | A builder holds a beginning of what its stream wrote and possibly the marker; all of it when nothing was dropped. |
| `Dollars.ParseExactly` | cmd/sparkwing/billing.go:143-156 | The parser accepts exactly the written-out language of amounts, with exactly their value. |
| `Dollars.DenotesExactly` | cmd/sparkwing/billing.go:141-143 | The language without its helper: digits, with a point only before one or two more, with or without a dollar sign. |
| `Dollars.CentsMean` | cmd/sparkwing/billing.go:152-155 | The cents are the digits read as one number and shifted by the point. |
| `Dollars.CommasDoNotMatter` | cmd/sparkwing/billing.go:144-144 | A comma anywhere makes no difference. |
| `Dollars.ParsedIsBounded` | cmd/sparkwing/billing.go:143-156 | Every accepted amount is at least zero and below 10^11 cents, so 64-bit arithmetic cannot overflow. |
| `Dollars.NegativeIsRefused` | cmd/sparkwing/billing.go:158-163 | A printed minus sign, before or behind the point, is never parsed. |
| `Dollars.RoundTripExactly` | cmd/sparkwing/billing.go:143-163 | Parsing what was printed gives the amount back if and only if it is from zero to below 10^11 cents; any other amount is refused. |
| `Dollars.FormatExactly` | cmd/sparkwing/billing.go:158-163 | How an amount that is not negative is printed: whole dollars without leading zeros, and a point with exactly two digits when there are cents. |
| `Dollars.NegativeFormat` | cmd/sparkwing/billing.go:158-163 | Where a negative amount keeps its sign. |

## Left out

- WorkObjects.Work.RunStep: dry-run bodies and the arguments, environment and secrets around a body are not modelled; a failure there ends as a failing body does, with the same effect on the steps. A body's result is an optional value with a flag for its encoding and size limit.
- WorkObjects.Work.AwaitStep: covers the locked part of a wait; being blocked and woken is an action of the step protocol, and a wait ended by its context has no effect on the steps.
- StepProtocol.WaiterWakesExactlyOnResolution: covers goroutines that end with the request they belong to; one that outlives its request leaves the model with it, and its wait is not followed further.
- StepProtocol.EveryStateSafe: a host's requests are atomic admissions; that the SDK process reads them one frame at a time is not modelled.
- PlanObjects.CheckJobs: models the identifier rules of plan validation (unique job ids, distinct non-empty needs and groups); its remaining rules (capabilities, path segments, durations, the dependency graph, secrets, closure ids, the fan-out limit) are one arbitrary answer.
- PlanObjects.PlanObject.EvalClosure: names the callback whose turn it is; running a plain callback, and the step state a step's skip predicate needs, belong to the step protocol. Marshalling of answers is not modelled.
- PlanObjects.PlanObject.Job: materialising a job's work and reflecting over its type are not modelled; a panic there is a call that ends the callback. Modifiers that only set fields are part of the node a call makes.
- PlanObjects.PlanObject.PlanDocument: priority, claim wait, admission class, checkout source and concurrency of the plan are not rendered; of a job's plain settings a selection is carried along unchanged. Step groups and step flags are not rendered.
- PlanObjects.NodeArena.AddNeed: nodes live in an arena instead of being Dafny objects; sharing is kept, garbage collection is not modelled.
- Expansion.ApplyKeepsOwn: a callback that reaches nodes of the live plan, and so changes or groups them, is not among the calls; the exact effect of such grouping on the merge is `MergeCommutesExactly`.
- Expansion.RunKeepsOwn: the same restriction, for whole callbacks.
- HookRuns.BlockingHookRuns: sh is modelled for the commands the script is made of; the lines that set the index variable and the log format are taken to succeed, and their effect on the environment is left out.
- HookScript.ScanReadsWord: words with double quotes or expansions, which the renderer never writes, are not among those it covers.
- EvalGate.InterleavingIsSequential: step requests running beside evaluations do not write the plan and are left out of the interleaving.
- RollingQueue.LocalQueue.Run: what an instance does while it claims is its freedom to call its successor any number of times and to return any error; timers, draining and the watch around `runLocalQueue` are left out.
- HereObserver.Observe: the run's completion record and the wrapping of errors in a handoff message are left out.
- LogTail.DashboardLogTail: read errors and a file that shrinks are not modelled; the context may end before any chosen line.
- LogTail.TailAndFollow: the context does not end during the tail; bytes that arrive are fragments in which a newline can only be last, as a buffered reader hands them out; writing to the output does not fail.
- StepRange.PreviewSteps: approval gates, risks and the check for unknown bounds with its suggestions are left out.
- StepRange.RangeSkips: assumes unique step ids, which plan validation enforces.
- MigrationRange.FilterAndOrderBetween: version strings are already read as blank, invalid or a version; parsing them and fetching the guides is left out.
- OutputLimiter.BufferIsPrefix: takes expiry as monotone on each reader; a limiter is only made for a positive limit.
- Dollars.ParseExactly: the regular expression is stated as a recursive reading of the text, trimmed as Go trims white space.
- Process execution, signals, process groups, files, network, Git, credentials, the controller, stores, command-line rendering, schemas and argument binding are not modelled.
