# Verified model of the orchestration engine

The system is an event-sourced orchestrator. A TypeScript engine and a Go Transaction Coordinator
append to one log per run, under locks on the run's transaction scopes; a console and a tool
gateway read and publish beside them. This project models the parts where those pieces have to
agree with each other and proves that they do, for every log, every run and every input.

Beside the modules that fold, decide and encode as the code does there are modules whose names end
in `Meaning`. They say what the folds, decisions and texts are, mostly by the positions of the events
in the log and without the functions that compute them, and prove that the two agree.

The modules follow the system:

- **The log and its readers.** `EventLog`, `CausalGraph` (the two walks over causal edges),
  `ScopePhases` (the ladder's fold), `RunOracles` (the separately written oracles). `Sorting` is the
  one insertion sort that the readers, the trace checker and the encoders share; `FiniteSets` holds
  two facts about sizes. `LogPositions` speaks of the last, the first and the number of events of a
  kind; `LogReaders`, `PhaseMeaning` and `HistoryMeaning` say in these terms what the readers read.
- **The recovery ladder.** `RecoveryLadder` is the decision; `LadderFacts` what each decision
  guarantees about the log it was taken on; `LadderMeaning` which decision it is; `OutstandingWork`
  what is left to decide, and in which order.
- **Runs.** `RunProtocol` lets the Engine and the Coordinator take turns, one committed
  transaction a step. `RunInvariant`, `RecoverySafety` and `RunSafety` carry the simulation between
  the ladder's fold, the oracles' fold and the database rows through every step; `RequestSafety`
  says what holds of every request; `AnswerSafety` what holds of every answer; `RecoveryBounds`
  bounds what the ladder may do; `RecoveryProgress` says what a waiting ladder waits for;
  `ScopeAdmission` compares its check with the freeze's; `RecoveryWitnesses` holds the runs that
  break a promise; `DeterministicBranches` reads the oracle about routers' branches over whole runs.
- **The Coordinator.** `Coordinator` is the service as any number of workers over the database,
  each store call with its own guard, each worker free to stop between two calls.
  `CoordinatorSafety` shows that it refines `RunProtocol`; `BracketSafety` holds its bracket table
  against the log; `TraceCheck` is its trace checker; `CoordinatorPaths` walks a scope out both ways;
  `CoordinatorWitnesses` holds executions of the two services that break a promise.
- **Admission.** `Proposals` states the rules, `CheckRules` the checker that computes them,
  `RuleMeaning` the rules once more, of vertices, tools and declarations alone,
  `Normalize` the rewriting that interposes routers, `Submission` the stages in turn, `Compile` the
  drafts, `Idempotency` the keys.
- **Projections, streaming and the gateway.** `ForkSlice` with `ForkMeaning` and
  `SurfaceMeaning`, `ConsoleFold` with `ConsoleScopes` (its scope records) and `ConsoleMeaning`,
  `ConsoleSurface` (the console against the planner's surface), `ConsoleScopeRows` (the console
  against the database rows), `StreamResume`, `ToolRegistry` with `RegistryMeaning`, `CanonicalText`
  with `CanonicalMeaning`.

Seven promises turn out not to hold of the code as it stands. Each has an input that breaks it and
the condition under which it holds:

- **One answer per failure.** A planner that succeeded and later failed can be its own replan
  boundary, and is then answered again. No other vertex ever is
  (`RecoveryBounds.AnsweredAgainIsPlanner`); the promise holds in every run in which no planner fails
  after succeeding (`RecoveryBounds.OneAnswerWithoutRelapse`), and in every run of a policy exactly
  when that policy forbids replanning, by its limits or its budget
  (`RecoveryWitnesses.OneAnswerExactly`).
- **Request discipline.** A scope whose pivot started and was proven absent is asked to cancel, which
  the request oracle rejects. It passes exactly on runs where no requested scope had a pivot disproved
  (`RequestSafety.RequestsAreSound`).
- **A router's branch never calls a model.** The oracle finds a branch by ancestry, the ladder by who
  proposed the failed vertex. A planner inside a branch is resumed when its own work fails, which the
  oracle rejects (`DeterministicBranches.BranchPlannerIsResumed`). Work a rule authored is never
  replanned in any run, and the oracle passes exactly when, after the first failure in a branch, other
  failures are only escalated and no planner starts (`DeterministicBranches.DeterministicExactly`).
- **A waiting ladder waits for somebody.** When the lease of a scoped tool passes from one worker to
  another, the first may record a failure, which fences the scope, and the second a success, which
  takes that failure back. Nobody then asks for the scope, and a failure elsewhere waits for it for
  ever (`CoordinatorWitnesses.LadderWaitsForNobody`). In every run, each scope a waiting ladder awaits
  is on its way unless the failure that fenced it lapsed in this way, or its vertex had been discarded
  or escalated before it failed (`RecoveryProgress.NeverWaitsInVain`).
- **A recorded replan is admitted.** A scope that committed with a saga try still sealed, because there
  was nothing to confirm, blocks every freeze once the try's deadline passes, although the comment on
  the block's type says terminal scopes never do and the ladder does not wait for them
  (`CoordinatorWitnesses.RecordedReplanRefused`). A recorded replan is admitted exactly when no closed
  scope shows an expired try (`ScopeAdmission.RecordedReplanIsAdmitted`). The model follows the code.
- **The console shows what the prompt shows.** A router that matched and later failed, or later
  succeeded without a word about its condition, is still in the planner's prompt and no longer in the
  console's (`ConsoleSurface.PromptDisagrees`). They agree exactly where no router does this
  (`ConsoleSurface.PromptAgreesExactly`), so whenever routers end once.
- **Published contracts are immutable.** An undecodable registration under a published key withdraws
  the contract from the next view (`ToolRegistry.PublishedToolLeaves`). A tool stays admitted and in
  every view as long as nothing undecodable claims its own key (`ToolRegistry.AdmittedStays`).

## Model

| member | source | states |
|---|---|---|
| `CausalGraph.CausalDescendants` | engine/src/log/store.ts:37-54 | the worklist returns exactly the created vertices some causal path of one or more edges reaches |
| `CausalGraph.AncestorPlannersExact` | engine/src/recovery.ts:315-337 | the breadth-first search lists exactly the succeeded planners above a vertex, each at its shortest distance, nearest first and later planners first among equals |
| `CausalGraph.FindAncestorPlanners` | engine/src/recovery.ts:315-337 | the frontier loop with its seen set computes that list |
| `CausalGraph.WalksAgree` | engine/src/recovery.ts:315-337 | the upward search finds a planner from a vertex exactly when the downward worklist from the planner reaches the vertex |
| `ScopePhases.ScopeCancellations` | engine/src/recovery.ts:180-254 | one pass over the log gives every mentioned scope its entry in the per-scope fold, and mentions no other |
| `ScopePhases.MemberIffCreated` | engine/src/recovery.ts:180-254 | a vertex is a member of a scope exactly when some creation event puts it there |
| `PhaseMeaning.PhaseExactly` | engine/src/recovery.ts:180-254 | on every log a scope is in the one phase its events put it in: that of the last event that settles it outright, a pivot counting as out until disproved; else, since it was opened, asked for, fenced by a failure, or open |
| `LogReaders.RuleAuthoredIs` | engine/src/recovery.ts:297-306 | a rule authored a vertex exactly when the freeze before its first creation answered a proposal the log has from a router |
| `LogReaders.EpisodeIs` | engine/src/recovery.ts:352-377 | an episode counts the boundaries after the last freeze all of whose created vertices have succeeded |
| `RunOracles.ScopeHistory` | engine/src/harness/oracles.ts:162-184 | the oracle's own pass gives every scope its first dates and its members |
| `RunOracles.HistoryExtends` | engine/src/harness/oracles.ts:162-184 | later events only add later dates to a scope's history; what it said of the past stays |
| `HistoryMeaning.HistoryExactly` | engine/src/harness/oracles.ts:162-184 | each date of a scope's history is that of the first event that gives it, and its members are those created in it |
| `RunOracles.CheckCancelBeforeReplan` | engine/src/harness/oracles.ts:200-231 | the loop passes exactly the logs whose every boundary discards only from closed scopes, cites only completed cancellations and leaves no own scope releasable |
| `RunOracles.CheckRequestDiscipline` | engine/src/harness/oracles.ts:240-262 | the loop passes exactly the logs that ask once per scope, only while it could still cancel, and answer no failure before its requests resolved; of a finished run, exactly those whose every request also resolved |
| `RunOracles.CheckOneAnswer` | engine/src/harness/oracles.ts:271-284 | the counting loop passes exactly the logs in which between two boundaries for one vertex it failed again |
| `DeterministicBranches.CheckNoDeterministicReplan` | engine/src/harness/oracles.ts:130-151 | the passes over routers, starts and creations accept exactly the logs where, after the first failure below a started router, no boundary selects a planner and no planner starts |
| `DeterministicBranches.DeterministicExactly` | engine/src/recovery.ts:281-306 | in every run no replan answers work a rule authored, so the oracle passes exactly when no branch failed or, from the first such failure on, every answer about other work escalates and no planner starts |
| `DeterministicBranches.BranchPlannerIsResumed` | engine/src/harness/oracles.ts:130-151 | a run the oracle rejects, under every policy that may replan and can pay: a rule's branch holds a planner, what it proposed fails, and the ladder resumes it |
| `RecoveryLadder.ComputeCandidates` | engine/src/recovery.ts:500-518 | the candidate loop with its running best equals the list of verdicts and its first cheapest entry, with what that choice discards |
| `RecoveryLadder.CheapestIsLeast` | engine/src/recovery.ts:504-518 | no legal boundary is cheaper than the one kept, none nearer is as cheap, and none is kept only when all were rejected |
| `RecoveryLadder.Decide` | engine/src/recovery.ts:444-595 | the decision procedure computes the decision function on every log, policy, price and set of locked rows |
| `LadderMeaning.VerdictExactly` | engine/src/recovery.ts:634-651 | a planner is refused for the first of these that holds and priced if none does: a pivot passed after it succeeded; a scope it disturbs is suspended, in flight or passed; a disturbed scope that can be released, or was since the failure, had been spoken of before it succeeded; it was resumed as often as allowed; it costs more than the budget |
| `LadderMeaning.DecisionIsTheOne` | engine/src/recovery.ts:444-620 | exactly one decision is right for a log, a failure, a policy and the locked rows, said by who passed, named, asked for, released and reported what and when, with its level, candidates, requests, waits, discards and citations; the decision function returns that one |
| `OutstandingWork.OutstandingExactly` | engine/src/recovery.ts:935-998 | a vertex is outstanding exactly if the last thing that happened to it is a failure nothing discarded and nobody escalated, or it answered unreadably, no freeze gave it a child since, and no boundary ever answered it |
| `OutstandingWork.OutstandingInOrder` | engine/src/recovery.ts:935-998 | failures come first where they failed, then stalls where they first stalled, each group in the log's order and none left out |
| `RecoveryLadder.RecoverOne` | engine/src/recovery.ts:886-924 | one pass acts on the first outstanding failure whose decision is not to wait, and on none exactly when all wait |
| `LadderFacts.DecisionFacts` | engine/src/recovery.ts:444-620 | requests name only scopes still open or fenced; a recorded escalation is final; a recorded selection is a legal ancestor within every limit whose discarded scopes are closed |
| `LadderFacts.SelectionWithinBudget` | engine/src/recovery.ts:504-514 | no replan costs more than the policy's budget |
| `AnswerSafety.AnswersAlwaysRight` | engine/src/recovery.ts:771-837 | in every run each boundary and each request in the log is the one the log before it called for, and a selection is followed by exactly what it discards |
| `AnswerSafety.SavepointsAlwaysKept` | engine/src/recovery.ts:640-648 | in every run no boundary discards from a scope released for its failure that any event had named before the planner it goes back to last succeeded |
| `RunInvariant.StepKeepsCoherent` | engine/src/recovery.ts:256-279 | after every step of every service the ladder's phase, the oracle's history and the database row of every scope still tell one story, up to a disproved pivot not yet reported |
| `RunSafety.StepInv` | engine/src/recovery.ts:771-837 | the run-wide invariant, including the soundness of every boundary and request already in the log, is kept by every step |
| `RunSafety.CancelBeforeReplanAlways` | engine/src/harness/oracles.ts:200-231 | in every state of every run, whatever the interleaving, the log satisfies the cancel-before-replan oracle |
| `RunSafety.RequestDisciplineExactly` | engine/src/harness/oracles.ts:240-262 | in every run each scope is asked once and no failure is answered early; the request oracle passes exactly when no request names a scope whose pivot had started |
| `RequestSafety.RequestsAreSound` | engine/src/harness/oracles.ts:240-262 | every request of every run names an opened scope that had not begun to cancel, closed, been suspended or passed its pivot, and the oracle passes exactly when none of the scopes asked for had a pivot disproved before |
| `RequestSafety.ResolvedExactly` | engine/src/harness/oracles.ts:258 | a finished run meets the oracle's last demand exactly when no scope asked for is still waiting to cancel or cancelling |
| `RunSafety.RequestNeverRefused` | db/migrations/017_engine_requested_cancellation.sql:105-127 | every scope a decision asks for has an open row with no earlier request, so the database's guard never fires |
| `RunSafety.DiscardNeverRefused` | db/migrations/017_engine_requested_cancellation.sql:235-286 | no vertex a decision discards belongs to a row that is not committed or cancelled |
| `RecoverySafety.SoundIsCancelBeforeReplan` | engine/src/harness/oracles.ts:200-231 | a log each of whose boundaries was sound when written satisfies the oracle's reading of the finished log |
| `RecoverySafety.SoundDiscipline` | engine/src/harness/oracles.ts:240-262 | on sound logs the request oracle is equivalent to no pivot having started before a request |
| `RecoveryBounds.SelectionDiscards` | engine/src/recovery.ts:758-768 | a boundary above a failure always discards that failure |
| `RecoveryBounds.OneAnswerUnlessSelfAnswered` | engine/src/harness/oracles.ts:271-284 | in every run a vertex answered again had resumed itself the first time, and the oracle passes unless a failed planner was answered by resuming itself |
| `RecoveryBounds.AnsweredAgainIsPlanner` | engine/src/recovery.ts:315-337 | in every run a vertex named by two boundaries is a planner that had succeeded before the first, so every other vertex is answered at most once |
| `RecoveryBounds.OneAnswerWithoutRelapse` | engine/src/harness/oracles.ts:271-284 | every run in which no planner fails after it succeeded keeps one answer per failure |
| `RecoveryBounds.AnswerLeavesOutstanding` | engine/src/recovery.ts:974-998 | an answer leaves its failure outstanding exactly when it resumes the failed vertex, which nothing then discards |
| `RecoveryBounds.LastResolvedGrows` | engine/src/recovery.ts:352-366 | an episode that ended stays ended: the last fully succeeded freeze never moves back as the log grows |
| `RecoveryBounds.RecoveryIsBounded` | engine/src/recovery.ts:352-377 | in every run no planner exceeds its limit, the replans since the last resolved freeze fit an episode, none crosses a passed pivot, and the ladder acts at most limit times planners plus vertices plus scopes |
| `RecoveryProgress.OpenScopeIsRequested` | engine/src/recovery.ts:534-560 | a failure whose own scope is open or fenced is always answered by requesting that scope, on every branch |
| `RecoveryProgress.DecisionAwaits` | engine/src/recovery.ts:534-620 | on every branch a decision waits exactly when it awaits a scope, and each awaited scope is being cancelled, has its pivot out, or blocks the whole run |
| `RecoveryProgress.FencerStandsExactly` | engine/src/recovery.ts:197-241 | the failure that fenced a scope is still an unrecovered member of it exactly unless its vertex was answered before it failed or took the failure back with a later success or retry |
| `RecoveryProgress.NeverWaitsInVain` | engine/src/recovery.ts:886-924 | in every run, when every outstanding failure waits, every scope any of them awaits is being cancelled, has its pivot out or awaiting commit, or holds an expired try, except a scope whose fence nobody answers for, which is none of these but perhaps expired |
| `RecoveryProgress.OrderlyWaits` | engine/src/recovery.ts:886-924 | where executors take no scoped failure back and nothing answered fails in a scope in use, a waiting ladder awaits some scope and only scopes on their way |
| `ScopeAdmission.CheckScopeAdmission` | engine/src/admission/check-rules.ts:122-129 | one violation, with the reason its row gives, for each scope that refuses, and acceptance exactly when none does |
| `ScopeAdmission.WhoRefuses` | engine/src/log/store.ts:522-529 | where rows and log agree, the refusing scopes are those the ladder waits for, the suspended ones, and closed ones still showing an expired try |
| `ScopeAdmission.RecordedReplanIsAdmitted` | engine/src/recovery.ts:564-595 | a recorded replan is admitted by the freeze exactly when no committed or cancelled scope still shows an expired sealed try |
| `RecoveryWitnesses.OneAnswerExactly` | engine/src/harness/oracles.ts:271-284 | whatever replans cost, every run keeps one answer per failure exactly when the policy's limits or its budget forbid replanning |
| `RecoveryWitnesses.OneAnswerByPriceList` | engine/src/recovery.ts:504-514 | where a planner costs the same on every log, every run keeps it exactly when the limits forbid replanning or no planner is within budget |
| `RecoveryWitnesses.AnsweredTwice` | engine/src/recovery.ts:315-337 | a run in which a planner that succeeded and then failed is answered twice, for every policy that may replan and can pay for it |
| `RecoveryWitnesses.DisprovedPivotIsAsked` | engine/src/harness/oracles.ts:240-262 | a run the request oracle rejects: a scope whose started pivot was proven absent is asked to cancel, under any policy |
| `CoordinatorWitnesses.LadderWaitsForNobody` | coordinator/internal/coordinator/service.go:106-180 | an execution with two workers on one tool after which every outstanding failure waits, no scope is on its way, no try is sealed and no worker is busy |
| `CoordinatorWitnesses.RecordedReplanRefused` | engine/src/log/store.ts:522-529 | an execution whose scope commits with a saga try still sealed, after whose deadline the ladder records a replan that the freeze refuses |
| `TraceCheck.OrderedAscends` | coordinator/internal/trace/validate.go:29-30 | the events are read in ascending run sequence |
| `TraceCheck.OrderedIsPermutation` | coordinator/internal/trace/validate.go:29-30 | ordering loses and invents nothing |
| `TraceCheck.Validate` | coordinator/internal/trace/validate.go:28-70 | the pass accepts exactly the traces with one pivot per scope, no cancel after it, no confirm after completed cancellation, no inherited bracket mutated, and only readable events |
| `Coordinator.ExecuteWithRetry` | coordinator/internal/coordinator/service.go:452-509 | the call ends at its first answer that is not retryable or at its last attempt, announcing each retry, and invents an answer only when no attempt was allowed |
| `CoordinatorSafety.MoveRefinesStep` | coordinator/internal/coordinator/service.go:73-420 | every store transaction of every worker is one step of the run protocol or leaves the run unchanged, although several appends check no scope state |
| `CoordinatorSafety.MoveKeepsSafe` | coordinator/internal/coordinator/service.go:212-420 | what each worker relies on between two transactions, what the log tells of each scope, and the bracket and member tables stay consistent |
| `CoordinatorSafety.ExecutionIsRun` | coordinator/internal/coordinator/service.go:73-420 | every execution, for any number of workers that may stop anywhere, shows a run of the protocol |
| `CoordinatorSafety.ExecutionCancelsBeforeReplan` | engine/src/harness/oracles.ts:200-231 | every log the two services write together satisfies the cancel-before-replan oracle and asks for each scope once |
| `CoordinatorSafety.ExecutionIsClean` | coordinator/internal/trace/validate.go:28-70 | every log an execution can write passes the trace checker |
| `CoordinatorSafety.CommittedIsConfirmed` | coordinator/internal/coordinator/service.go:366-393 | between a scope's pivot and its commit every confirmable try sealed before the pivot was confirmed |
| `CoordinatorSafety.CancelledIsUndone` | coordinator/internal/coordinator/service.go:395-420 | a completed cancellation follows the success of the inverse of every invertible try sealed before it was requested |
| `BracketSafety.BracketsAlwaysTold` | db/migrations/017_engine_requested_cancellation.sql:143-220 | in every execution there is one bracket for each key tried, of the vertex and scope of its only try, confirmed if its key was confirmed since, else released if its scope's cancellation completed since, else sealed |
| `BracketSafety.SuspensionsAlwaysFit` | coordinator/internal/coordinator/service.go:366-393 | in every execution a scope whose first word after its pivot passed is a suspension still had a confirmable try without a confirm |
| `BracketSafety.CancelsWithCause` | db/migrations/017_engine_requested_cancellation.sql:178-189 | in every execution a cancellation begins only for a scope some request had named, or with a try neither confirmed nor released |
| `CoordinatorPaths.ScopeCommits` | coordinator/internal/coordinator/service.go:366-393 | an execution in which a sealed try is confirmed after the pivot and its scope commits |
| `CoordinatorPaths.ScopeIsReleased` | coordinator/internal/coordinator/service.go:395-420 | an execution in which the pivot is disproved, the sealed try's inverse succeeds and its scope is cancelled |
| `CoordinatorPaths.LostPivotSuspends` | coordinator/internal/coordinator/service.go:212-290 | an execution whose pivot's outcome nothing establishes ends with the scope suspended |
| `CoordinatorPaths.FailedConfirmSuspends` | coordinator/internal/coordinator/service.go:366-393 | so does one whose confirm fails |
| `CoordinatorPaths.UnresolvedSuspends` | coordinator/internal/coordinator/service.go:320-340 | so does one whose open scope has an attempt nobody can resolve |
| `CoordinatorPaths.FailedInverseSuspends` | coordinator/internal/coordinator/service.go:395-420 | so does one in which a worker stops while undoing, another pass resumes and the inverse fails |
| `CoordinatorPaths.ReleasedIsSwept` | coordinator/internal/coordinator/service.go:395-420 | a released scope may be swept again |
| `CheckRules.VisitAncestors` | engine/src/admission/check-rules.ts:225-239 | the memoised visit finishes a vertex with exactly its ancestors, and fails only on a cycle or an unknown parent |
| `CheckRules.BuildContext` | engine/src/admission/check-rules.ts:210-245 | it succeeds exactly on known parents and no cycle, and then both maps are the transitive closure and its converse |
| `CheckRules.Invert` | engine/src/admission/check-rules.ts:241-242 | the descendants map is the converse of the ancestors map |
| `CheckRules.Add` | engine/src/admission/check-rules.ts:257-259 | a reported violation never disappears and the list is never empty after one is reported |
| `CheckRules.CheckEffects` | engine/src/admission/check-rules.ts:274-277 | it reports nothing new exactly when every side effect has a scope (R10) |
| `CheckRules.CheckScopes` | engine/src/admission/check-rules.ts:279-302 | it reports nothing new exactly when every scope satisfies R1, R2, R3 and R11 |
| `CheckRules.CheckPlacement` | engine/src/admission/check-rules.ts:307-323 | it reports nothing new exactly when, in a proposal with a router, every scope is placed well among those held (R12, R3) |
| `CheckRules.CheckParallelPivots` | engine/src/admission/check-rules.ts:325-334 | it reports nothing new exactly when any two parallel pivots wait for one barrier (R5) |
| `CheckRules.CheckEdges` | engine/src/admission/check-rules.ts:336-358 | it reports nothing new exactly when every edge satisfies R7 and R14 |
| `CheckRules.CheckDeciders` | engine/src/admission/check-rules.ts:362-368 | it reports nothing new exactly when no planner or router is in a scope (R12) |
| `CheckRules.CheckReads` | engine/src/admission/check-rules.ts:370-379 | it reports nothing new exactly when no read after a pivot in its scope has dependants (R8) |
| `CheckRules.CheckWriters` | engine/src/admission/check-rules.ts:381-403 | it reports nothing new exactly when parallel writers before a pivot are separated by a barrier (R9) |
| `CheckRules.CheckSubDag` | engine/src/admission/check-rules.ts:268-406 | a proposal is judged exactly when it is well formed and accepted exactly when the registry has no defect and every rule holds |
| `RuleMeaning.RulesExactly` | engine/src/admission/check-rules.ts:268-406 | for every proposal, registry and list of held scopes the rules the checker decides are R1 to R3, R5, R7 to R12 and R14 as said of the tools vertices call, the last declaration of each scope, the first snapshot held of it, barriers and reachability |
| `Normalize.NormalizeWorkflow` | engine/src/admission/workflow.ts:146-174 | the pass refuses exactly unknown parents, then taken router names, and otherwise yields the rewritten list and the routers added |
| `Normalize.PassIsNormalGraph` | engine/src/admission/workflow.ts:146-174 | on distinct ids the rewritten list is the submitted graph with one router before every planner that needs it |
| `Normalize.SameReach` | engine/src/admission/workflow.ts:146-174 | reachability among submitted vertices is unchanged |
| `Normalize.SameAcyclic` | engine/src/admission/workflow.ts:146-174 | the rewritten graph has a cycle exactly when the submitted one has |
| `Normalize.NormalIsRouted` | engine/src/admission/check-rules.ts:349-358 | the rewritten graph always satisfies R14 |
| `Normalize.NormalizationKeepsVerdict` | engine/src/admission/workflow.ts:146-174 | the rewritten proposal satisfies every rule exactly when the submitted one satisfies all but R14 and, where a router was added, its scopes are placed well among those held |
| `Normalize.PassIsIdempotent` | engine/src/admission/workflow.ts:135-145 | a second pass changes nothing and adds no router |
| `Normalize.NormalizationPreservesMeaning` | engine/src/admission/workflow.ts:146-196 | on a submission the pass accepts and a run without scopes: reachability, acyclicity, being well formed and the verdict but for R14 are all preserved |
| `Normalize.SameWellFormed` | engine/src/admission/workflow.ts:146-174 | the rewritten proposal is well formed exactly when the submitted one is |
| `Submission.JudgeSubmission` | engine/src/admission/submission.ts:57-101 | the stages in order: refused exactly on an unknown parent or a taken router name; else exactly when a tool is missing from the view (R13); else exactly when a locked scope refuses new work; else judged exactly when the submission was well formed, and accepted exactly when the registry has no defect and the submission satisfies every rule but R14 and places its scopes where routers now stand |
| `Compile.TopologicalOrder` | engine/src/admission/workflow.ts:199-217 | it fails exactly on a cycle, and otherwise lists every vertex once with every parent before its children |
| `Compile.CompileVertexDrafts` | engine/src/admission/workflow.ts:227-264 | it fails exactly on a cycle or, without one, on an undeclared scope, and otherwise drafts a copy of the submission, one event per vertex in that order |
| `Compile.IdsAreInjective` | engine/src/admission/workflow.ts:234-235 | vertices and scopes get distinct ids, and no vertex shares one with a scope |
| `Compile.DraftsAreFreshWork` | engine/src/admission/workflow.ts:217-226 | under unused ids the batch is one a freeze may append |
| `Compile.CopyIsIsomorphic` | engine/src/admission/workflow.ts:238-262 | after the freeze the log's causal edges into the new vertices are the submitted ones and no others, roots hang from exactly the attach point, a vertex has in the log the role of its submitted kind and no other, and two vertices share a scope exactly when they were submitted in one |
| `Idempotency.PrintParses` | engine/src/admission/workflow.ts:450-455 | the number read back from a printed generation is that generation |
| `Idempotency.ParsePrints` | engine/src/admission/workflow.ts:450-455 | every accepted suffix is the print of its own positive number |
| `Idempotency.GenerationRoundTrip` | engine/src/admission/workflow.ts:450-455 | the generation of a generated key is the generation it was made for |
| `Idempotency.GenerationsApart` | engine/src/admission/workflow.ts:450-455 | business keys without the separator never claim one another's generations |
| `Idempotency.NextKeyIsProper` | engine/src/admission/workflow.ts:473-486 | the chosen key is never a cancelled one, and every generation before it is recorded and cancelled |
| `Idempotency.GenerationsKept` | engine/src/admission/workflow.ts:473-486 | over any interleaving of freezes, seals, confirms and cancels at most one generation of a business key is live, recorded generations are contiguous, and a key is new exactly when none is live |
| `Idempotency.EveryGeneration` | engine/src/admission/workflow.ts:473-486 | every generation of every business key is reached by freezing, sealing and cancelling the ones before it |
| `Idempotency.EveryGenerationConfirms` | engine/src/admission/workflow.ts:473-486 | and can then be confirmed |
| `ForkSlice.Partition` | engine/src/log/store.ts:75-88 | the loop puts each event of the window where the rules say: invalidated, seed or independent |
| `ForkSlice.ComputeForkSlice` | engine/src/log/store.ts:64-93 | it returns the slice exactly when the window creates the divergence vertex and the substitutions are unrepeated, pinned there and survive, and otherwise the first objection in the order the code raises them |
| `ForkSlice.SliceIsPartition` | engine/src/log/store.ts:80-88 | seed, independent and invalidated hold every event once, in order, with the seed before the independent part |
| `ForkSlice.InheritedIsClosed` | engine/src/log/store.ts:75-81 | a fork that inherits a vertex inherits every ancestor of it the window created |
| `ForkMeaning.SliceExactly` | engine/src/log/store.ts:64-93 | of the events up to the limit a substitution leaves behind exactly those about a vertex below the divergence vertex or running that vertex; the seed is what else came no later than its first creation, the rest is independent |
| `ForkMeaning.RefusalExactly` | engine/src/log/store.ts:64-93 | each refusal by position, only where none before it applies: not created by the limit, a number repeated, a number that is no pinned event of the vertex there, or one of an event left behind |
| `ForkSlice.Surface` | engine/src/log/projection.ts:67-105 | the fold computes exactly the created, undiscarded vertices with their last status and the condition they are known by |
| `SurfaceMeaning.SurfaceExactly` | engine/src/log/projection.ts:67-105 | exactly the created vertices nothing discarded are shown, each with what its last creation said, the status of the last execution event since and the condition of the last success since that spoke of one |
| `ForkSlice.ForkSurface` | engine/src/harness/oracles.ts:22-27 | without substitutions the inherited events show the source's surface; with one they show it without the divergence vertex's descendants, and that vertex as not run |
| `ConsoleFold.FoldState.constructor` | console/server/src/projection/projection.ts:106-119 | a working set starts from everything the previous model carries, scopes included |
| `ConsoleFold.FoldState.Apply` | console/server/src/projection/projection.ts:121-198 | one event edits the vertices with their brackets, the announcements, proposals, replans and scopes it concerns as the fold says |
| `ConsoleFold.FoldState.EditScopes` | console/server/src/projection/projection.ts:434-503 | an event opens the records of the scopes it names, once each, and changes state, members and dates of no other |
| `ConsoleFold.FoldState.EditBrackets` | console/server/src/projection/projection.ts:464-503 | a try seals its vertex's bracket, a confirm confirms it, a passed pivot marks its vertex, and a completed cancellation releases the sealed brackets of exactly the scope's members |
| `ConsoleFold.FoldState.Freeze` | console/server/src/projection/projection.ts:243-262 | a freeze answers the first proposal at its position, or else the last one, and announces its vertices |
| `ConsoleFold.FoldState.Shadow` | console/server/src/projection/projection.ts:379-396 | a discard flags exactly the named vertices, each the first time only |
| `ConsoleFold.FoldState.Finish` | console/server/src/projection/projection.ts:200-226 | the model lists every vertex in creation order, then by identifier, and every scope in opening order, at the later watermark, and carries the rest unchanged |
| `ConsoleFold.AdvanceConsoleDag` | console/server/src/projection/projection.ts:75-79 | one batch reaches the listing of the folded board |
| `ConsoleFold.LoadListing` | console/server/src/projection/projection.ts:106-119 | nothing is lost between batches: loading a listing gives back what was listed |
| `ConsoleFold.AnySplit` | console/server/src/projection/projection.ts:61-79 | however a log is cut into batches the reader ends with the model of the whole log: vertices in order with their brackets, announcements, proposals, replans and scopes in order |
| `ConsoleMeaning.CardExactly` | console/server/src/projection/projection.ts:266-400 | every created vertex has a card, which shows the status, discard and prompt of its own events since its last creation, its bracket by its last try, the confirms and completed cancellations since, its depth as the longest chain of parents then known, the freeze that announced it, and a rule as its author exactly if the latest proposal then was a rule's and answered |
| `ConsoleMeaning.ProposalsPlaced` | console/server/src/projection/projection.ts:243-253 | one record per proposal in order, frozen exactly if some later freeze names it, or names none there is while it is the latest |
| `ConsoleMeaning.ReplansPlaced` | console/server/src/projection/projection.ts:379-430 | one record per replan, where it was first heard of, holding everything its discards name |
| `ConsoleMeaning.ScopesDated` | console/server/src/projection/projection.ts:434-503 | a scope's record is dated by the first event about it, the last that closed it and the last that passed its pivot |
| `ConsoleScopes.AfterAlike` | console/server/src/projection/projection.ts:200-226 | scope lists that would be listed alike still are after any event, so listing them between two batches shows nowhere |
| `ConsoleScopeRows.ScopeCardIs` | console/server/src/projection/projection.ts:434-492 | on every log a scope's record shows what was last declared of it and exactly the members the ladder's fold gives it |
| `ConsoleScopeRows.ConsoleShowsRows` | console/server/src/projection/projection.ts:434-492 | in every run every record shows its scope's row state, or open while there is no row, and exactly the ladder's members, and every row has a record |
| `ConsoleSurface.SurfaceAgreesExactly` | console/server/src/projection/projection.ts:379-400 | the undiscarded vertices are the planner surface's, field by field, exactly where no vertex was created after it was last discarded |
| `ConsoleSurface.SurfaceAgreesInRuns` | console/server/src/projection/projection.ts:394-396 | in every run the cards the console shows as live are the planner's surface |
| `ConsoleSurface.PromptAgreesExactly` | engine/src/log/projection.ts:121-133 | the console and the planner's prompt show the same vertices exactly where no router whose last word was a match has since ended without a word about its condition |
| `ConsoleSurface.PromptAgreesWhenRoutersEndOnce` | console/server/src/projection/projection.ts:361-364 | routers that end once after each creation are shown alike by both |
| `ConsoleSurface.PromptDisagrees` | console/server/src/projection/projection.ts:361-364 | a run after which a router that matched and then failed is in the prompt and not in the console's |
| `StreamResume.EmittedAscends` | console/server/src/projection/projection.ts:228-239 | deltas fenced at advancing watermarks and renumbered in send order have strictly ascending cursors |
| `StreamResume.DeltaBuffer.constructor` | console/server/src/stream/stream.ts:92-96 | a new buffer holds nothing and has evicted nothing |
| `StreamResume.DeltaBuffer.Push` | console/server/src/stream/stream.ts:98-105 | the buffer holds the last deltas emitted, up to its capacity, and its flag says exactly whether any are missing |
| `StreamResume.ReplayIsGapless` | console/server/src/stream/stream.ts:61-76 | for any cursor and any capacity a replay is exactly every delta emitted after that cursor |
| `StreamResume.ReplayedExactly` | console/server/src/stream/stream.ts:61-76 | a client at an emitted delta is replayed to exactly when it is not ahead of the watermark and its delta is held, or was evicted last and shares a batch with the first one held |
| `StreamResume.RefusedExactly` | console/server/src/stream/stream.ts:61-76 | any cursor not ahead is refused exactly when something was evicted and nothing is held or a delta fits between it and the first one held |
| `StreamResume.ResumeIsExactlyOnce` | console/client/src/stream/applyEvent.ts:60-63 | a client at an emitted delta that is replayed to, with any earlier deltas redelivered, has applied every later delta once and in order |
| `CanonicalText.StringReads` | gatewayd/internal/toolview/canonical.go:121-152 | a written string literal reads back as the string, whatever follows |
| `CanonicalText.WriteString` | gatewayd/internal/toolview/canonical.go:121-152 | the loop appends exactly the quoted, minimally escaped string |
| `CanonicalText.WriteCanonical` | gatewayd/internal/toolview/canonical.go:62-114 | the recursive writer appends exactly the canonical text; the source's numbers also admit `-0`, written as it is, which a mathematical integer cannot show |
| `CanonicalText.RoundTrip` | gatewayd/internal/toolview/canonical.go:62-152 | decoding the text of any value gives that value with its keys in order |
| `CanonicalText.SameTextSameValue` | engine/src/gateway/tool-view.ts:79-97 | two values have the same text exactly when they are the same value up to key order |
| `CanonicalText.InsertionOrderIsIrrelevant` | engine/src/gateway/tool-view.ts:91-95 | objects with the same entries have the same text, whatever order they were inserted in |
| `CanonicalMeaning.BeforeExactly` | gatewayd/internal/toolview/canonical.go:95 | one key comes before another exactly when it is a proper prefix of it or has the smaller character where they first differ |
| `CanonicalMeaning.TextAscends` | gatewayd/internal/toolview/canonical.go:90-109 | what is read from the text of any value with distinct keys has the keys of every object, at every depth, in that order |
| `CanonicalMeaning.ShortestLiteral` | gatewayd/internal/toolview/canonical.go:116-152 | no literal that reads as a string is shorter than the one written |
| `CanonicalMeaning.NumberHasOneText` | gatewayd/internal/toolview/canonical.go:74-78 | a number has one text: whatever reads as it was written as it |
| `CanonicalMeaning.ExampleText` | gatewayd/internal/toolview/canonical_test.go:10-27 | the text of one document with nested keys inserted out of order, character by character |
| `ToolRegistry.ResolvePending` | gatewayd/internal/registry/registry.go:260-286 | the loop always ends, whatever order the map gives, with each pending contract admitted exactly if it was admissible at the start |
| `ToolRegistry.SameCompanions` | gatewayd/internal/registry/registry.go:290-337 | admitting a contract changes no companion check, since pending companions already count |
| `ToolRegistry.BuildIsOrderFree` | gatewayd/internal/toolview/document.go:213-234 | the document depends on the set of tools, not on their order |
| `ToolRegistry.Registry.constructor` | gatewayd/internal/registry/registry.go:92-101 | a new registry is empty and has no view |
| `ToolRegistry.Registry.Register` | gatewayd/internal/registry/registry.go:113-178 | a batch changes the records as the per-contract rule says, resolves them, and publishes or leaves the view, telling exactly whether the view is up to date |
| `ToolRegistry.Registry.Resolve` | gatewayd/internal/registry/registry.go:184-188 | a health change resolves the records and publishes or leaves the view, telling exactly whether the view is up to date |
| `ToolRegistry.Registry.ResolveAndPublish` | gatewayd/internal/registry/registry.go:222-253 | the current view's document is always in the store, the view changes only to the document of the admitted set, and success is reported exactly when the view is that document's |
| `ToolRegistry.BatchKeepsExactly` | gatewayd/internal/registry/registry.go:117-152 | registering a batch leaves an admitted contract as it was, and unadmits it exactly when the batch holds an undecodable contract under its key |
| `ToolRegistry.AdmittedStays` | gatewayd/internal/registry/registry.go:113-253 | over any life of registrations, health changes and failed publications an admitted tool keeps its body, stays admitted and stays in every later view as long as no undecodable contract claims its key |
| `RegistryMeaning.RecordsExactly` | gatewayd/internal/registry/registry.go:113-178 | over any life a key holds, unrejected, exactly the first decoded contract since anything undecodable claimed it |
| `RegistryMeaning.AdmittedExactly` | gatewayd/internal/registry/registry.go:260-337 | over any life exactly those tools are admitted for which some call found them standing, their route up, and of each companion some version standing and every one meeting what is asked, and whose key nothing spoiled since |
| `RegistryMeaning.ViewsAreListed` | gatewayd/internal/toolview/document.go:213-234 | every view ever shown lists its tools by identifier and then by version |
| `ToolRegistry.ViewsOnlyGrow` | gatewayd/internal/registry/registry.go:113-253 | where no key is ever spoiled every later view holds what an earlier one held |
| `ToolRegistry.ViewsStayStored` | gatewayd/internal/registry/registry.go:243-253 | the current view's document is always in the store, and under an injective digest so is every document ever published |
| `ToolRegistry.PublishedToolLeaves` | gatewayd/internal/registry/registry.go:117-127 | a life in which a published tool leaves the view because of an undecodable registration under its key |

## Left out

What the model assumes of its surroundings:

- Run sequence numbers ascend and vertex ids are created once, inside a freeze batch, because the run row lock and fresh identifiers give both.
- A scope is never declared cancelled by a `txn/scope` event; only a completed `txn/cancel` closes it that way.
- An executor reports a vertex under the scope it was created in.
- RecoveryProgress.NeverWaitsInVain: planners hold no scope, which the checker demands of every proposal (R12).
- Deadlines, leases and clocks are nondeterministic: any sealed try may be expired, any worker may stop, and any lease may pass to another.

What is not modelled:

- RecoveryLadder.Decide: the price of a candidate is a function the caller supplies; token estimates, provider usage and the exception a price can raise are left out, as are the reasons, sorted lists, request positions and costs written beside a decision.
- RunSafety.DiscardNeverRefused: the database's second guard on a discard, that no discarded vertex is leased, is left out, because leases are not in the run's state.
- ScopePhases.ScopeCancellations: the count of open tries kept beside each phase is left out, because no decision reads it.
- CoordinatorSafety.MoveRefinesStep: the pivot's required tries and the unresolved attempts that suspend a scope are left to choice, so more executions are covered than the database admits.
- CoordinatorSafety.CancelledIsUndone: a try sealed after the cancellation was requested is not covered; the append that seals it looks at no scope, and the members are fixed at the request.
- CoordinatorSafety.CommittedIsConfirmed: a try sealed after the pivot passed is confirmed only if it was there when the brackets were read, so nothing is stated of it.
- CheckRules.CheckSubDag: the registry's own defects (R4, R6) enter as a list, and messages are left out.
- Submission.JudgeSubmission: the last stage, freeze-time admission of the branches a router may emit, is left out, because rule templates are.
- Compile.CompileVertexDrafts: payloads, slot identities, pins and the idempotency key of each call are left out of the drafts.
- Idempotency.GenerationsKept: numbers are unbounded, where the source's lose precision beyond 2^53, and business keys containing the separator are outside the claim.
- ForkSlice.ComputeForkSlice: pin values and the renumbering of copied events are left out.
- ForkSlice.Surface: tools, inputs, results and discards by sequence number are left out.
- ConsoleFold.FoldState.Apply: labels, timing, stalls, a scope's derived pivot vertex and the mismatch with a declared one, a bracket's key and deadline, cancellation requests, counterfactuals, spend, rejected proposals, discards by sequence number and the deltas themselves are left out.
- RecoveryLadder.Drafts: the boundary position a replan's two events carry for the console is left out of the ladder's drafts, and so is the list of vertices a freeze announces.
- StreamResume.ResumeIsExactlyOnce: what a delta carries, snapshots, and resuming from a snapshot's own cursor are left out.
- CanonicalText.WriteCanonical: values are already decoded, so malformed numbers and invalid UTF-8 do not occur; integers are mathematical, so the two texts `0` and `-0`, both of which the source's number pattern admits and writes as they are, are one here.
- CanonicalText.SameTextSameValue: the TypeScript encoder's key order differs from this one outside the basic plane, and its limit on integers is left out.
- ToolRegistry.Registry.Register: the status returned for each contract and a role catalogue that fails half way through a batch are left out; structure, roles, companion obligations and the digest are functions the caller supplies.
- The gateway's call path, RBAC, MCP, HTTP and server-sent events, authentication, blob storage and the React console are left out.
- Rule templates and router evaluation, planner prompts and budgets are left out.
