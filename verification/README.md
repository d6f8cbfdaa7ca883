# Platform context graph: a verified model of its concurrent and rewriting core

The platform context graph collects repositories, parses them, and projects the result into a
graph. This project models the parts of it whose correctness is hardest to see by reading, and
proves what they promise.

- **Bootstrap pipeline** (`BootstrapPipeline*.dfy`). A collector goroutine commits work items
  while N projector workers claim, project and ack them, and a main goroutine waits for both
  before it backfills, materializes and reopens. The goroutines are one step relation; every
  interleaving, failure and cancellation is a run. The invariant says which worker is still
  bound to make a claim that began after the collector's last commit, so a stale empty claim
  counted late does no harm. The drain is safe on all runs exactly when at least two empty
  polls are required, and it always ends once the collector has finished. The clean outcome, for
  any number of items, and each way of failing are shown to be reachable
  (`BootstrapPipelineOutcomes.dfy`).
- **Snapshot scheduler** (`SnapshotScheduler*.dfy`, `GitSourceSessions.dfy`). Discovery routes
  repositories into a small and a large lane, workers prefer small ones and hold a semaphore
  token for large ones, and `Next` hands out what the workers stream. Which snapshots returned an
  error is recorded as it happens, and what is sent and reported is compared with it. Select choices are
  nondeterminism; channels are bounded sequences with a closed flag.
- **CloudFormation conditions** (`CloudFormationConditions.dfy`, `CloudFormationLaws.dfy`). The evaluator with its memo
  table and visiting set, as a class that updates both, against a memo-free reference bounded
  only by how many names it follows. Its final table is the same for every order in which the
  conditions are visited. The laws say, on documents and the table alone, what each kind of
  expression resolves to.
- **Phase-group executors** (`PhaseGroups.dfy`, `PhaseGroupLimits.dfy`, `GraphStores.dfy`, `GroupingProgress.dfy`,
  `BootstrapExecutor.dfy`, `IngesterExecutor.dfy`, `EntityPhase*.dfy`). Both NornicDB executors
  group statements as they arrive, in a reused buffer. Each is proved against a plan that knows
  no buffer, the two plans are compared, and the size of every group is read off the configured
  limits and the statements' own parameters; the per-label statistics of an entity phase are
  proved against the statements that were sent.
- **Supporting cores.** Repository discovery on folder trees (`RepositoryDiscovery.dfy`), the
  pruned and cached copy of a repository (`Gitignore.dfy`, `RepositoryCopy.dfy`), parallel
  against sequential parsing (`ParallelParse.dfy`), batched against single entity merges over
  small graphs (`EntityMerge.dfy`, `EntityBatches.dfy`, `EntityWrites.dfy`,
  `EntityAgreement.dfy`, `EntityRowValues.dfy`), infrastructure reachability (`IacReachability.dfy`,
  `IacReferences.dfy`, `IacAnalysis.dfy`),
  and the `.env` reader and writer (`EnvConfig.dfy`, `StringSort.dfy`).

## Where the code falls short of a promise

- `nornicdb_wiring.go:44` says that the bootstrap executor mirrors the ingester's. On a batch of
  one phase and one label with nothing execute-only it does
  (`PhaseGroups.UniformBatchesMirror`), and that is what the writer of canonical nodes sends
  outside the entity phases: it puts neither label nor mode on those statements. In general,
  `PhaseGroups.BootstrapMirrorsIngesterIff` gives the exact condition, and
  `PhaseGroups.MirrorFailsOnMixedFiles` a batch of two file statements with labels that shows the
  difference; it would need another caller.
- A label's complete summary is written once, and when a label comes back after another one it
  has been written too early. `EntityPhaseClosing.SummariesExactIff` says exactly when it carries
  the label's final totals, and `EntityPhaseClosing.TogetherIsExact` that it always does when the
  statements of a label come together. The writer of canonical nodes sends one block a label, in
  order of the labels, so its batches are of that kind
  (`EntityPhaseClosing.SortedBlocksAreTogether`); the batch of
  `EntityPhaseClosing.SummaryMissesSecondGroup`, where one comes back, would need another caller.
  The key "unknown" also stands for no label, so a label of that name can be reopened without
  coming back (`EntityPhaseClosing.UnknownReopened`).
- Setting a configuration value writes whatever it is given. `EnvConfig.SetConfigValue` reads
  back the change exactly when the new entry fits on one line of the file: key and value
  trimmed, without newlines, the key without `=` and not starting with `#`, and no line longer than
  the scanner's buffer, because the scanner's error is ignored.
- A batch of entities shares one list of properties and sets those that a row lacks to null, and
  a property called `uid` can move a row to another node. `EntityAgreement.BatchesAgreeIff` says
  exactly when batches leave every graph as single statements do: when, with any two files
  present, both write every property of every node last with the same value.
  `EntityAgreement.MissingPropertiesIff` reads that off the rows: where no row is moved and no row
  nulls a property before a row of the same entity that lacks it, it holds exactly when every row
  that lacks a property of the batch is followed by a row of the same entity that has it.
  `EntityBatches.UidPropertyMovesRow`, `EntityBatches.BatchTakesAway` and
  `EntityBatches.SinglesKeep` show the differences; `EntityAgreement.SwappedUidsAgree` shows that a
  moved row need not be one. Single statements refuse an empty file path and batches do not.
- With fewer than two empty polls the drain would lose work (`BootstrapPipelineLimits.StaleClaimsLoseWork`);
  the code requires five.

## Model

| member | source | states |
|---|---|---|
| BootstrapPipelineRuns.CleanDrainLosesNothing | go/cmd/bootstrap-index/main.go:353-384 | When the drain returns nil with its context live, every item the collector committed was claimed exactly once and acked exactly once, and none is queued, on every reachable state for any number of workers |
| BootstrapPipelineRuns.WorkersOutlastQueue | go/cmd/bootstrap-index/main.go:590-629 | The workers never all return while an item is queued, unless one failed or the context was cancelled, even though claims taken before the collector finished may be counted afterwards |
| BootstrapPipelineLimits.DrainSafeIff | go/cmd/bootstrap-index/main.go:340-384 | The drain loses nothing on any run if and only if at least two empty polls are required |
| BootstrapPipelineLimits.StaleClaimsLoseWork | go/cmd/bootstrap-index/main.go:353-384 | With fewer polls there is a run, for any number of workers, that drains cleanly with an item still queued |
| BootstrapPipeline.QuietMeansAcked | go/cmd/bootstrap-index/main.go:590-629 | In any state that satisfies the invariant, if all workers have returned without error and the context is live, everything committed is acked |
| BootstrapPipelineRuns.NextPreserves | go/cmd/bootstrap-index/main.go:204-310 | Every step of the collector, of a worker, of the projector, of the main goroutine and of the parent keeps the invariant |
| BootstrapPipelineRuns.FirstNilIsCollectors | go/cmd/bootstrap-index/main.go:222-248 | While the parent context is live, a nil first receive from errc is always the collector's outcome |
| BootstrapPipelineRuns.FollowUpOrder | go/cmd/bootstrap-index/main.go:250-295 | Backfill, materialize and reopen run at most once each, in that order and each only after the one before succeeded; backfill only after a clean collection, materialize only once every committed item was acked |
| BootstrapPipelineRuns.SuccessMeansComplete | go/cmd/bootstrap-index/main.go:204-310 | runPipelined returns nil exactly when all three follow-ups ran and succeeded, and then, with the parent context live, nothing committed was lost |
| BootstrapPipelineOutcomes.CleanOutcome | go/cmd/bootstrap-index/main.go:204-310 | For any number of items and workers there is a run on which every item is committed and acked once, all three follow-ups succeed and runPipelined returns nil |
| BootstrapPipelineOutcomes.CollectorFailure | go/cmd/bootstrap-index/main.go:243-248 | For any number of workers and commits a failed collection can end the run in an error with no follow-up |
| BootstrapPipelineOutcomes.BackfillFailure | go/cmd/bootstrap-index/main.go:250-260 | A failed backfill can end the run in an error with nothing after it, though every item was committed |
| BootstrapPipelineOutcomes.MaterializeFailure | go/cmd/bootstrap-index/main.go:270-278 | A failed materialization ends the run in an error with no reopening |
| BootstrapPipelineOutcomes.ReopenFailure | go/cmd/bootstrap-index/main.go:287-295 | A failed reopening ends the run in an error |
| BootstrapPipelineOutcomes.ProjectionFailure | go/cmd/bootstrap-index/main.go:630-720 | Any item can be the one whose projection fails: it is claimed, never acked and no longer queued, and the error is recorded and cancels the workers |
| BootstrapPipelineProgress.NeverStuck | go/cmd/bootstrap-index/main.go:204-310 | Short of the return of runPipelined some goroutine can always take a step that is not a cancellation from outside |
| BootstrapPipelineProgress.StepGetsCloser | go/cmd/bootstrap-index/main.go:353-384 | Once the collector has finished, every step of every goroutine lowers a lexicographic rank |
| BootstrapPipelineProgress.DrainReturns | go/cmd/bootstrap-index/main.go:353-384 | From then on every schedule reaches the return of runPipelined |
| SnapshotScheduler.NextPreserves | go/internal/collector/git_source.go:309-548 | Every step keeps the invariant: each repository is in exactly one place, tokens equal holders, the error has a cause |
| SnapshotSchedulerRuns.ExhaustedDelivers | go/internal/collector/git_source.go:179-191 | When the stream is closed and used up: what was received is what was sent, the error is the first failure, no repository was snapshotted or received twice, and the failed one was not received |
| SnapshotSchedulerRuns.CleanRunDeliversAll | go/internal/collector/git_source.go:391-490 | On an uncancelled run on which no snapshot returned an error, under every select choice, each repository was snapshotted exactly once and received exactly once before the stream is exhausted |
| SnapshotSchedulerRuns.SemaphoreBounds | go/internal/collector/git_source.go:429-485 | The tokens in the semaphore equal the workers holding one, large snapshots in progress never exceed the limit, and none is held once the stream is closed |
| SnapshotSchedulerRuns.TokenWaitIsLast | go/internal/collector/git_source.go:361-389 | A worker waits for the semaphore alone only when the small lane is closed and empty |
| SnapshotSchedulerRuns.NothingSentAfterClose | go/internal/collector/git_source.go:495-548 | After close(stream) no step sends, snapshots or records anything |
| SnapshotSchedulerRuns.StreamErrorIsFirstFailure | go/internal/collector/git_source.go:649-667 | The closed stream has an error exactly when some snapshot returned one; it is the first one recorded, that repository's snapshot did return it, and it was never sent |
| SnapshotSchedulerRuns.ErrorsAreNotGenerations | go/internal/collector/git_source.go:649-667 | On every reachable state a reported repository is one whose snapshot returned an error, and one that is sent or received had its snapshot taken once without an error |
| SnapshotSchedulerProgress.NeverStuck | go/internal/collector/git_source.go:303-489 | No state short of an exhausted stream is stuck while the consumer keeps receiving |
| SnapshotSchedulerProgress.StepShrinks | go/internal/collector/git_source.go:303-489 | Every step of every goroutine and every receive lowers a measure, whatever the select choices |
| SnapshotSchedulerProgress.RunsAreBounded | go/internal/collector/git_source.go:303-548 | So every run has at most 14 steps a repository, 6 a worker and 9 more |
| SnapshotSchedulerProgress.MaximalRunsDeliver | go/internal/collector/git_source.go:303-548 | A run that cannot go on has closed the stream and delivered what the run allows |
| SnapshotSchedulerProgress.CleanRunExists | go/internal/collector/git_source.go:303-548 | For any repositories and workers some run receives each repository once and ends without an error |
| SnapshotSchedulerProgress.FailingRunExists | go/internal/collector/git_source.go:649-659 | Any repository can be the one whose snapshot fails; the stream then ends with its error and it is never received |
| GitSourceSessions.SessionsDeliver | go/internal/collector/git_source.go:168-195 | Over any number of discovery cycles, Next returned each finished cycle's generations and then exactly one end, with that cycle's first error if it had one, and started afresh |
| GitSourceSessions.StepKeepsSession | go/internal/collector/git_source.go:168-195 | Every call of Next and every background step keeps that account |
| GitSourceSessions.CycleEnds | go/internal/collector/git_source.go:179-191 | A finished cycle returns its generations and then the end of the stream exactly if no snapshot returned an error, and else the error of a repository whose snapshot did |
| CloudFormationConditions.EvaluateConditions | go/internal/parser/cloudformation_condition_eval.go:13-32 | For every order in which the conditions are visited, the table is that of the memo-free reference, and nil exactly when there are no conditions |
| CloudFormationConditions.Template.EnoughIsExact | go/internal/parser/cloudformation_condition_eval.go:53-84 | The reference resolves a name to v for some bound on names followed exactly when it does for as many names as there are conditions, so the table misses nothing |
| CloudFormationConditions.Template.EnoughFuel | go/internal/parser/cloudformation_condition_eval.go:53-159 | Following more names than there are conditions resolves nothing new: cycles never resolve |
| CloudFormationConditions.ParameterDefaults | go/internal/parser/cloudformation_condition_eval.go:34-51 | The defaults are those of the parameters that declare one, in any visiting order |
| CloudFormationLaws.TruthLaw | go/internal/parser/cloudformation_condition_eval.go:93-95 | A condition declared as a truth value has that value in the table |
| CloudFormationLaws.TextLaw | go/internal/parser/cloudformation_condition_eval.go:96-104 | A text resolves to the truth value that it spells, in any case and with spaces around it, and to nothing otherwise |
| CloudFormationLaws.ReferenceLaw | go/internal/parser/cloudformation_condition_eval.go:105-110 | A condition that refers to another has that one's value, or none if it has none |
| CloudFormationLaws.NotLaw | go/internal/parser/cloudformation_condition_eval.go:148-156 | Fn::Not is resolved exactly if its argument is, and to the opposite |
| CloudFormationLaws.AndLaw | go/internal/parser/cloudformation_condition_eval.go:119-132 | Fn::And is true exactly if all its arguments are, and false exactly if one is and those before it are true |
| CloudFormationLaws.OrLaw | go/internal/parser/cloudformation_condition_eval.go:133-147 | Fn::Or is false exactly if all its arguments are, and true exactly if one is and those before it are false |
| CloudFormationLaws.EqualsLaw | go/internal/parser/cloudformation_condition_eval.go:111-118 | Fn::Equals is resolved exactly if both operands denote something (a literal itself, a Ref the declared default, a condition its value), and true exactly if those render alike |
| CloudFormationLaws.PrecedenceLaw | go/internal/parser/cloudformation_condition_eval.go:105-156 | Of several keys with well-formed arguments the first of Condition, Fn::Equals, Fn::And, Fn::Or, Fn::Not decides as if it were alone |
| CloudFormationLaws.UnusableLaw | go/internal/parser/cloudformation_condition_eval.go:86-159 | Any other object, and any value that is no object, text or truth value, resolves to nothing |
| PhaseGroups.GroupsKeepStatements | go/cmd/bootstrap-index/nornicdb_wiring.go:160-211 | Concatenating the calls of the grouping gives the batch in order, nothing lost or repeated |
| PhaseGroups.GroupsWellShaped | go/cmd/bootstrap-index/nornicdb_wiring.go:160-259 | Every group has one label and at most its first statement's limit, execute-only statements go alone, and a group stops short of its limit only where it has to |
| PhaseGroupLimits.GroupsAreFull | go/cmd/bootstrap-index/nornicdb_wiring.go:160-259 | A group has at most as many statements as are configured for its first one's label, else for entities (25 if not positive), for files (5) or for the rest (500); it is shorter only where the next statement has another label or must go alone |
| PhaseGroupLimits.PlannedGroupsAreFull | go/cmd/bootstrap-index/nornicdb_wiring.go:124-141 | So has every call in both plans of an entity batch and in the bootstrap plan of any batch |
| PhaseGroupLimits.IngesterChunkSizes | go/cmd/ingester/wiring_nornicdb_phase_group.go:165-213 | In any other batch of the ingester every group but the last has exactly the size configured for the batch's first statement |
| PhaseGroupLimits.OneLabelPlan | go/cmd/bootstrap-index/nornicdb_wiring.go:249-254 | With a positive limit for its label, a longer batch of one label starts with a group of that many in both plans |
| PhaseGroupLimits.SixFunctions | go/cmd/bootstrap-index/nornicdb_wiring.go:249-254 | With the limit of five, six functions go out as five and one |
| PhaseGroupLimits.SanitizedKeeps | go/cmd/bootstrap-index/nornicdb_wiring.go:301-323 | A sanitized statement keeps its operation, its text and exactly the parameters whose first character is not an underscore |
| PhaseGroups.GroupsAreChunksIff | go/cmd/ingester/wiring_nornicdb_phase_group.go:165-213 | Grouping and plain chunking give the same calls exactly when every chunk is uniform and maximal |
| PhaseGroups.UniformGroupsAreChunks | go/cmd/ingester/wiring_nornicdb_phase_group.go:99-149 | For a batch of one phase and one label without execute-only statements, flushing at the limit equals plain chunking |
| PhaseGroups.BootstrapMirrorsIngesterIff | go/cmd/bootstrap-index/nornicdb_wiring.go:44-46 | The two executors plan the same calls exactly for empty, ungrouped, all-retract and entity-phase batches and for those that align with plain chunks |
| PhaseGroups.UniformBatchesMirror | go/internal/storage/cypher/canonical_node_writer_phases.go:112-125 | On a batch of one phase and one label, "" included, with nothing execute-only, both executors plan the same calls |
| PhaseGroups.MirrorFailsOnMixedFiles | go/cmd/ingester/wiring_nornicdb_phase_group.go:38 | Two file statements of different labels are one group for the ingester and two for the bootstrap executor |
| PhaseGroups.PlansKeepStatements | go/cmd/bootstrap-index/nornicdb_wiring.go:288-323 | Whatever the batch, both executors pass on every statement, sanitized, once and in order |
| GraphStores.RanIsPrefix | go/cmd/bootstrap-index/nornicdb_wiring.go:213-243 | What a run leaves in the store is a prefix of its sanitized plan: all of it on success, else up to the only rejected call |
| GraphStores.RanOnlyOneWay | go/cmd/bootstrap-index/nornicdb_wiring.go:124-141 | The plan and the store's answers fix what the store has seen and whether the run succeeded, so executors with equal plans behave alike |
| GraphStores.SanitizeParameters | go/cmd/bootstrap-index/nornicdb_wiring.go:301-323 | Exactly the parameters whose names do not start with an underscore remain, unchanged |
| GraphStores.SanitizeChunk | go/cmd/bootstrap-index/nornicdb_wiring.go:288-294 | A chunk's copy holds each statement sanitized, in order |
| BootstrapExecutor.AllUseRetract | go/cmd/bootstrap-index/nornicdb_wiring.go:279-286 | True exactly for non-empty batches of retract statements |
| BootstrapExecutor.ExecutePhaseGroup | go/cmd/bootstrap-index/nornicdb_wiring.go:124-141 | The store sees the bootstrap plan, sanitized, up to the first call that fails |
| BootstrapExecutor.ExecuteSequentially | go/cmd/bootstrap-index/nornicdb_wiring.go:143-158 | One call per statement, up to the first that fails |
| BootstrapExecutor.ExecuteGroupedChunks | go/cmd/bootstrap-index/nornicdb_wiring.go:213-243 | Consecutive chunks of at most the given size, up to the first that fails |
| BootstrapExecutor.ExecuteGroupedByLabel | go/cmd/bootstrap-index/nornicdb_wiring.go:160-211 | Online grouping in the reused buffer sends exactly the groups that the buffer-free description begins with, and all of them on success |
| GroupingProgress.AppendToBuffer | go/cmd/bootstrap-index/nornicdb_wiring.go:200-203 | Appending in place keeps what the buffer holds: consecutive statements that can share a group, under the first one's label |
| IngesterExecutor.ExecutePhaseGroup | go/cmd/ingester/wiring_nornicdb_phase_group.go:27-46 | The store sees the ingester plan, sanitized, up to the first call that fails |
| IngesterExecutor.ExecuteSequentially | go/cmd/ingester/wiring_nornicdb_phase_group.go:48-67 | One call per statement, up to the first that fails |
| IngesterExecutor.PhaseGroupStatementLimit | go/cmd/ingester/wiring_nornicdb_phase_group_stats.go:199-225 | The limit of a batch is the same function of its first statement as the bootstrap executor's |
| IngesterExecutor.ExecuteGroupedChunksObserved | go/cmd/ingester/wiring_nornicdb_phase_group.go:165-213 | Consecutive chunks up to the first that fails; the observer sees each chunk that succeeded, in order |
| IngesterExecutor.ExecuteEntityPhaseGroup | go/cmd/ingester/wiring_nornicdb_phase_group.go:69-154 | The store sees the grouping, and after success the recorder has seen every call of it and has written exactly one complete summary for each label |
| EntityPhaseStats.PhaseTotals | go/cmd/ingester/wiring_nornicdb_phase_group_stats.go:66-112 | After an entity phase a label's rows, statements and largest statement are those of its statements in the batch, executions are chunks plus singletons, and largest statement <= largest execution <= rows |
| EntityPhaseStats.TotalsCountCalls | go/cmd/ingester/wiring_nornicdb_phase_group_stats.go:66-112 | A label's executions, chunks and singletons are the numbers of its calls, and its largest execution is the largest of them |
| EntityPhaseStats.EvenPhaseRows | go/cmd/ingester/wiring_nornicdb_phase_group_stats.go:186-197 | When every statement of a phase has a list of n rows, or each an entity_id (n = 1) or neither (n = 0), a label's rows are n for each of its statements |
| EntityPhaseRecorder.EntityPhaseLabelStats.RecordChunk | go/cmd/ingester/wiring_nornicdb_phase_group_stats.go:66-90 | A chunk adds its rows, statements and maxima, and one grouped execution; an empty chunk adds nothing |
| EntityPhaseRecorder.EntityPhaseLabelStats.RecordSingleton | go/cmd/ingester/wiring_nornicdb_phase_group_stats.go:92-112 | A singleton adds its rows, itself, and one single execution |
| EntityPhaseRecorder.Recorder.Observe | go/cmd/ingester/wiring_nornicdb_phase_group.go:87-92 | One more execution is recorded under its label, in the one object of that label, and no label is completed by it |
| EntityPhaseRecorder.Recorder.Ensure | go/cmd/ingester/wiring_nornicdb_phase_group_stats.go:30-52 | The object of a label is found, or created empty; "unknown" stands for no label |
| EntityPhaseRecorder.Recorder.LogSummary | go/cmd/ingester/wiring_nornicdb_phase_group_stats.go:142-184 | A summary with the present totals is written, unless it is a complete one that was written before |
| EntityPhaseRecorder.Recorder.LogRunningSummaryIfDue | go/cmd/ingester/wiring_nornicdb_phase_group_stats.go:114-122 | A running summary is written exactly when ten executions have been recorded since the last one |
| EntityPhaseRecorder.Recorder.Complete | go/cmd/ingester/wiring_nornicdb_phase_group.go:131-137 | A known label gets its complete summary if it has none |
| EntityPhaseRecorder.Recorder.CompleteAll | go/cmd/ingester/wiring_nornicdb_phase_group_stats.go:124-140 | Every label without a complete summary gets one with its present totals, in order of the labels; the others keep theirs |
| EntityPhaseRecorder.TableAppend | go/cmd/ingester/wiring_nornicdb_phase_group_stats.go:30-52 | One more call changes the totals of its own label only |
| EntityPhaseClosing.SummariesExactIff | go/cmd/ingester/wiring_nornicdb_phase_group.go:131-153 | There is a complete summary for exactly the labels sent, and it carries the label's final totals exactly when no call of the label follows one that closed it |
| EntityPhaseClosing.TogetherIsExact | go/cmd/ingester/wiring_nornicdb_phase_group.go:131-153 | If the statements of each label come together, and none labelled "unknown" is before an unlabelled one, every complete summary carries its label's final totals |
| EntityPhaseClosing.SortedBlocksAreTogether | go/internal/storage/cypher/canonical_node_writer_entities.go:101-117 | One block of statements a label, in order of distinct labels, is such a batch |
| EntityPhaseClosing.UnknownReopened | go/cmd/ingester/wiring_nornicdb_phase_group_stats.go:40-43 | A label named "unknown" followed by a statement without a label is reopened though its statements come together |
| EntityPhaseClosing.SummaryMissesSecondGroup | go/cmd/ingester/wiring_nornicdb_phase_group.go:131-153 | For a batch with labels A, B, A the complete summary of A is not its final totals |
| RepositoryDiscovery.DiscoverRepoRoots | go/internal/collector/git_selection_discovery.go:135-167 | The recursive search with its loops gives the specified outcome |
| RepositoryDiscovery.RepositoryRootLike | go/internal/collector/git_selection_discovery.go:181-194 | A folder looks like a root exactly if it has a visible file or no folders |
| RepositoryDiscovery.RootsExactly | go/internal/collector/git_selection_discovery.go:135-167 | The roots returned are exactly the topmost repositories: marked, or root-like with no marked folder below |
| RepositoryDiscovery.DiscoveryIsRight | go/internal/collector/git_selection_discovery.go:135-167 | No root is returned twice or lies in another, every marked folder not under a hidden or marked one is returned, and the flag tells whether a marked one was |
| RepositoryDiscovery.NoHiddenParts | go/internal/collector/git_selection_discovery.go:147-152 | No part of a relative root starts with a dot |
| RepositoryDiscovery.LooksLikeRoot | go/internal/collector/git_selection_discovery.go:181-194 | With no marked folder below, a visible file or having no folders makes a folder a root; dot files beside a folder do not |
| RepositoryDiscovery.FailsIff | go/internal/collector/git_selection_discovery.go:139-142 | The search fails exactly when it meets a folder it cannot list |
| RepositoryDiscovery.RepositoryIDs | go/internal/collector/git_selection_discovery.go:88-124 | The identifiers are exactly the relative paths of the topmost repositories, as many as there are roots and in order; passing over the filesystem root passes over nothing |
| Gitignore.PatternMatches | go/internal/collector/git_selection_filesystem.go:427-459 | The loops decide whether a pattern matches a path as a folder prefix, as a whole or suffix, or by one segment |
| Gitignore.FolderPattern | go/internal/collector/git_selection_filesystem.go:427-434 | A folder pattern matches that folder and everything below it, seen from its .gitignore file, and nothing else |
| Gitignore.NamePattern | go/internal/collector/git_selection_filesystem.go:449-458 | A plain name matches exactly the paths that have it as a segment, anchored or not |
| Gitignore.PathPattern | go/internal/collector/git_selection_filesystem.go:435-448 | A plain path matches only itself if it is anchored, and otherwise every path that ends with it |
| Gitignore.MatchesDeeper | go/internal/collector/git_selection_filesystem.go:427-459 | Wildcards or not, a pattern that is not anchored or has no slash matches at every depth what it matches at one |
| Gitignore.OnlyPatternDecides | go/internal/collector/git_selection_filesystem.go:321-347 | A repository's only pattern ignores exactly what it matches below the folder of its .gitignore file, and nothing if it is negated |
| Gitignore.NearestDecides | go/internal/collector/git_selection_filesystem.go:321-347 | If the last pattern of the .gitignore file next to an entry matches it, that pattern decides, whatever the files above say |
| Gitignore.NoPattern | go/internal/collector/git_selection_filesystem.go:397-400 | Blank lines and comments give no pattern, with spaces before the comment or without |
| Gitignore.ParseSpec | go/internal/collector/git_selection_filesystem.go:394-425 | The patterns are those of the lines that have one, in order, and nil if there are none |
| Gitignore.ParseWritten | go/internal/collector/git_selection_filesystem.go:394-420 | A line that puts a plain pattern between the marks for negation, anchor and folder is read as that pattern with those marks |
| Gitignore.AncestorDirs | go/internal/collector/git_selection_filesystem.go:358-377 | After the reversal in place, the folders on the way to a path come root first |
| Gitignore.OneMoreRule | go/internal/collector/git_selection_filesystem.go:340-344 | Overwriting the verdict with each match is "the last matching rule decides" |
| Gitignore.SpecCache.Load | go/internal/collector/git_selection_filesystem.go:379-392 | A cached spec is what reading the file again would give |
| Gitignore.SpecCache.IsIgnored | go/internal/collector/git_selection_filesystem.go:321-347 | The verdict is that of the last matching pattern in root-to-leaf order, cached or not |
| RepositoryCopy.ShouldSkip | go/internal/collector/git_selection_filesystem.go:273-297 | An entry is skipped by name, by being hidden, or by the verdict on it or on a probe inside it |
| RepositoryCopy.CopyTree | go/internal/collector/git_selection_filesystem.go:196-238 | The pruned, cached walk copies exactly the readable regular files that the uncached verdict keeps on themselves and on every folder above them below the root |
| RepositoryCopy.CopyEntry | go/internal/collector/git_selection_filesystem.go:197-238 | The same for one entry and what lies below it |
| RepositoryCopy.KeptIff | go/internal/collector/git_selection_filesystem.go:273-309 | A path is kept exactly if no segment is .DS_Store, none starts with a dot but .github at the top and names below .github/workflows, and no pattern ignores it, a folder above it or the probe in one |
| ParallelParse.ParseSequentially | go/internal/collector/git_snapshot_scip.go:101-170 | The loop returns the parsed files in order, or the context's error if the context was found cancelled |
| ParallelParse.NextPreserves | go/internal/collector/git_snapshot_scip.go:196-298 | Every step of the pool keeps each job in exactly one place, and every result its own file's unless the context was cancelled |
| ParallelParse.ParallelIsSequential | go/internal/collector/git_snapshot_scip.go:183-321 | For any number of workers and any order of their results, a run whose context stayed live gives the file lists of the sequential parse |
| ParallelParse.SortedByIndexIsInPlace | go/internal/collector/git_snapshot_scip.go:305-308 | Whatever order the results arrive in, sorting puts each at its own index |
| ParallelParse.Extract | go/internal/collector/git_snapshot_scip.go:310-320 | The lists hold the results that were not skipped, in order |
| ParallelParse.KeptAre | go/internal/collector/git_snapshot_scip.go:310-320 | The lists hold the shape and payload of every parsed file and of no other, in the order of the files |
| ParallelParse.CleanRunExists | go/internal/collector/git_snapshot_scip.go:183-321 | For any files and workers some run collects a result for every file without a cancellation |
| ParallelParse.NeverStuck | go/internal/collector/git_snapshot_scip.go:205-298 | With results collected only after all jobs are sent, and channels that hold one entry a file, some step other than a cancellation can be taken in every state short of the end |
| ParallelParse.RoomInChannels | go/internal/collector/git_snapshot_scip.go:205-206 | Jobs waiting, held, reported and collected are together the jobs sent, so neither channel overflows |
| ParallelParse.StepShrinks | go/internal/collector/git_snapshot_scip.go:205-298 | Every step lowers the work left, so every run is finite |
| EntityMerge.UnwindIsRowByRow | go/internal/graph/batch.go:117-121 | UNWIND, clause by clause over all rows, leaves the graph of merging the rows one by one |
| EntityBatches.BuildEntityMergeStatement | go/internal/graph/entity.go:60-108 | A single statement's keys are the sorted extra keys and its parameters those of the row; bad labels, empty paths and bad keys are refused in that order |
| EntityBatches.MergeEntity | go/internal/graph/entity.go:113-128 | One statement is executed for the row, or the refusal of the statement is returned and nothing is executed |
| EntityRowValues.SafeNames | go/internal/graph/entity.go:12 | A name with a backtick, space, dash, colon or brace, an empty one and one that starts with a digit are not safe; safe names can be put together |
| EntityBatches.CollectExtraKeys | go/internal/graph/batch.go:306-314 | The keys are the sorted union of the rows' extra keys |
| EntityBatches.EntityRowToMap | go/internal/graph/batch.go:317-332 | A row's map has every key of the batch, with null where the row has none |
| EntityBatches.ExecuteBatched | go/internal/graph/batch.go:279-303 | The rows go out in consecutive chunks, up to the first that fails |
| EntityBatches.BatchMergeEntities | go/internal/graph/batch.go:75-142 | Refusals in order; otherwise the uid rows' batches and then the name rows' batches are executed, up to the first that fails |
| EntityRowValues.PlanHoldsRows | go/internal/graph/batch.go:96-142 | Every row is in the plan once: those with a uid in statements by uid, in order, and then those without in statements by name, in order; no statement has more rows than the batch size |
| EntityRowValues.SingleShows | go/internal/graph/entity.go:60-108 | After the single statement for a row whose file is there, and whose extra keys are not uid, file_path, name, path or line_number, the node of its label and uid has its name, path, line and each extra property, a null one being absent, and an edge from its file |
| EntityRowValues.SingleKeepsRest | go/internal/graph/entity.go:83-102 | The node's other properties stay as they were |
| EntityRowValues.BatchShows | go/internal/graph/batch.go:75-142 | After a batch of any size with only such extra keys, the same holds for the last row of every node |
| EntityRowValues.BatchShowsNoMore | go/internal/graph/batch.go:324-330 | A property of the batch that this row does not have is then not on its node |
| EntityRowValues.ExecutedBatchShows | go/internal/graph/batch.go:117-125 | After the store has run the plan without a failure, the graph shows the last row of every node |
| EntityAgreement.BatchesAgreeIff | go/internal/graph/batch.go:75-142 | For rows with uids and paths, batches of any size leave every graph as one statement per row does if and only if, for any two files, the last write to every property of every node is the same |
| EntityWrites.SameOnAllGraphsIff | go/internal/graph/entity.go:99-102 | Two runs of merge statements leave the same graph from every graph if and only if their last writes agree for any two files |
| EntityWrites.NodeAfter | go/internal/graph/entity.go:90-102 | After some statements a node has what was written to it last, null being absence, and otherwise what it had |
| EntityAgreement.MissingPropertiesIff | go/internal/graph/batch.go:317-332 | Where the batch moves no row and nothing nulls a property before a row of the entity lacks it, they agree if and only if every row that lacks a property of the batch is followed by a row of the same entity that has it |
| EntityAgreement.DistinctRowsIff | go/internal/graph/batch.go:317-332 | Rows about different nodes agree if and only if all have the same extra properties |
| EntityAgreement.BatchesAreSingles | go/internal/graph/batch.go:75-142 | In particular rows with one shared set of extra keys without "uid" agree |
| EntityAgreement.ExecutedBatchLeaves | go/internal/graph/batch.go:117-125 | What was executed by a batch that succeeded leaves the graph that the statements built one by one leave |
| EntityAgreement.MovedRowIsSeen | go/internal/graph/batch.go:317-332 | A batch that sends a row where no single statement goes leaves another graph somewhere |
| EntityAgreement.SwappedUidsAgree | go/internal/graph/batch.go:317-332 | Two rows that name each other by an extra "uid" agree on every graph, though each is moved |
| EntityBatches.UidPropertyMovesRow | go/internal/graph/batch.go:317-332 | An extra property "uid" makes a batch merge another node than the single statement |
| EntityBatches.BatchTakesAway | go/internal/graph/batch.go:324-330 | A batch removes a property that only an earlier row of the entity has |
| EntityBatches.SinglesKeep | go/internal/graph/entity.go:90-97 | Single statements keep it |
| StringSort.SortInPlace | go/internal/graph/batch.go:386-390 | Insertion sort by neighbour swaps leaves the same elements in order |
| StringSort.SortSet | go/internal/graph/batch.go:378-392 | A set's elements in order, whatever order they are taken from it |
| StringSort.SortBy | go/internal/iacreachability/analyzer.go:96-98 | The same elements in order of their keys |
| StringSort.AscendingOnlyOneWay | go/internal/graph/entity.go:131-146 | The sorted order of given contents is unique, so the output does not depend on map order |
| IacReachability.ReferenceIndex.AddReference | go/internal/iacreachability/analyzer.go:241-248 | A name, without quotes, adds evidence under its key; an empty one adds nothing |
| IacReachability.ReferenceIndex.RecordTerraformReferences | go/internal/iacreachability/analyzer.go:300-314 | Adds exactly the references of the file's sources; a dynamic one makes every word of the file ambiguous |
| IacReachability.ReferenceIndex.RecordHelmReferences | go/internal/iacreachability/analyzer.go:316-332 | Adds exactly the chart references of the file's words |
| IacReachability.ReferenceIndex.RecordAnsibleReferences | go/internal/iacreachability/analyzer.go:347-365 | Adds roles only if some file runs this playbook |
| IacReachability.ReferenceIndex.RecordKustomizeReferences | go/internal/iacreachability/analyzer.go:367-395 | Adds exactly the path references of the file's lines |
| IacReachability.ReferenceIndex.RecordComposeReferences | go/internal/iacreachability/compose.go:55-72 | Adds exactly the services named on the file's compose command lines |
| IacAnalysis.CollectReachedAnsiblePlaybooks | go/internal/iacreachability/analyzer.go:334-345 | The playbooks that some file runs, in any order of the repositories |
| IacAnalysis.BuildReferenceIndex | go/internal/iacreachability/analyzer.go:196-212 | The index holds exactly the references of all files, whatever the order |
| IacAnalysis.DiscoverArtifacts | go/internal/iacreachability/analyzer.go:148-194 | One artifact for each identifier that occurs in an enabled family, of the repository its file is listed for |
| IacAnalysis.Analyze | go/internal/iacreachability/analyzer.go:78-100 | A row per artifact in order of the identifiers, used before ambiguous before unused; ambiguous ones only if asked for |
| IacAnalysis.RowsAreRight | go/internal/iacreachability/analyzer.go:82-95 | Every row is of an artifact that some file defines, and is used, ambiguous or unused exactly as the references of all files say |
| IacReferences.UsedIff | go/internal/iacreachability/analyzer.go:300-395 | An artifact is used exactly if some file with content says so: a static module source, chart field, kustomize path or compose service, or a role in a playbook without templates that some file runs |
| IacReferences.AmbiguousIff | go/internal/iacreachability/analyzer.go:300-395 | It is ambiguous exactly if no file uses it and some file has a dynamic reference of its family and a word that names it |
| IacAnalysis.FilterKeeps | go/internal/iacreachability/analyzer.go:233-235 | An empty family filter keeps every artifact that a file defines, any other exactly those of the families it sets |
| IacAnalysis.CleanupRows | go/internal/iacreachability/analyzer.go:104-120 | In order, never a used artifact, every unused one, ambiguous ones exactly if asked for |
| IacAnalysis.AddingFilesNeverLowers | go/internal/iacreachability/analyzer.go:196-212 | More files, in any repository, never make an artifact look less used, through the playbook pass as well |
| IacAnalysis.RowsNeverLower | go/internal/iacreachability/analyzer.go:78-100 | In an analysis of more files every identifier still has a row, and no row of the same artifact is lower |
| EnvConfig.LoadEnvConfig | go/cmd/pcg/config.go:36-59 | The loop over the scanned lines gives the map that the lines assign |
| EnvConfig.OneLineFile | go/cmd/pcg/config.go:36-59 | A line of up to 65535 bytes reads as its entry, with spaces, tabs and carriage returns around key and value |
| EnvConfig.CarriageReturnIsSpace | go/cmd/pcg/config.go:47-57 | "A = b" with a carriage return reads as A, b |
| EnvConfig.LongLineEnds | go/cmd/pcg/config.go:46-58 | A longer line is not read, and neither is anything after it |
| EnvConfig.WriteEnvConfig | go/cmd/pcg/config.go:93-105 | The text is the sorted entry lines, joined, with a final newline |
| EnvConfig.WrittenOnlyOneWay | go/cmd/pcg/config.go:94-103 | The map's iteration order leaves no trace in the text |
| EnvConfig.LoadIsStorable | go/cmd/pcg/config.go:36-59 | Every map that can be read, from any file, can be stored |
| EnvConfig.RoundTripIff | go/cmd/pcg/config.go:93-105 | Writing and reading gives the same map exactly when every entry can be stored |
| EnvConfig.SetConfigValue | go/cmd/pcg/config.go:81-90 | The file then reads as the old map with that one key changed exactly when the new entry can be stored |

## Left out

- Telemetry, spans, logging and error texts: no step depends on them. Of an entity phase's summaries the totals are kept and durations, scope and generation identifiers are not.
- The stores behind the interfaces (Postgres queue, graph databases, git, the file system): a claim is an atomic pop, a graph store is a log whose answers may depend on everything it has seen, and a file tree is fixed while it is walked.
- BootstrapPipeline: the goroutines are one step relation on values instead of objects, so the atomic counter's 32-bit width is not modelled; heartbeats appear only as a projection that may fail, and nothing is claimed about a heartbeat that failed before a successful one.
- BootstrapPipeline: commits that skip an unchanged scope enqueue nothing and change nothing the model has, so they are not steps; the worker wait between polls has no length.
- SnapshotScheduler: goroutines and channels are one step relation on values; how a repository is classified as large, and what a snapshot contains, are inputs of a run.
- GitSourceSessions: calls of Next that fail before a stream is started, or that return the caller's own cancellation, change nothing the model has and are not steps.
- CloudFormationConditions: fmt.Sprint is a parameter, and strings.ToLower is exact only for comparing with ASCII words, which is all that the evaluator does with it.
- PhaseGroups: reading the limits from the environment and the default label tables (`nornicdb_wiring.go:341-453`) compute no more than a map of limits, which is an input here.
- IngesterExecutor.ExecuteGroupedChunks: a missing observer is modelled as a recorder that nobody reads.
- RepositoryDiscovery: "." is the empty path, and reading a folder only in part is not modelled.
- RepositoryCopy.CopyTree: says which files are copied, not their contents or modes, nor the empty folders that are created. A device, pipe or socket is a Regular entry, as the code opens whatever is neither folder nor link.
- Gitignore: glob matching by path.Match is a parameter; a path is the list of its segments.
- ParallelParse: workers are told apart only by the job they hold, and sort.Slice is any sorting of the results by index. SCIP-based snapshots (`git_snapshot_scip.go:323` on) are not part of this model.
- EntityMerge: a merge on a null uid, which a database refuses, makes a node of its own here. Graphs hold file nodes by path and entity nodes by label and uid, one of each; merges by name, path and line, the label "File" (whose merges would change what MATCH finds) and concurrent writers are not part of it. BatchMergeFiles and BatchMergeRelationships would add only the chunk loop again.
- EntityAgreement.MissingPropertiesIff: leaves out rows that the batch moves and properties nulled on purpose, for which EntityAgreement.BatchesAgreeIff has the exact condition in terms of last writes.
- IacReachability: what the regular expressions, the path functions, the path patterns that make a file an artifact (`analyzer.go:250-293`) and the YAML reader find in a file is a parameter; evidence is kept only so far as a key has some.
- IacAnalysis: two artifacts may share an identifier if names contain colons, and then either may be the one kept; RowsNeverLower allows for that.
- EnvConfig: strings are sequences of code points, so invalid UTF-8 is not modelled; opening and writing the file always succeed.
- Environment parsing, batch-size caps, command-line parsing, routing tables and validation matrices: branch by branch copies with nothing across functions to prove.
- claimed_service.go and coordinator/service.go: their guarantees live in a store whose code is not in the repository.
