# Model of an autonomous engineering worker

The repository runs a worker that polls GitHub for issues, queues them, has an engineering pipeline patch the code, hands
the result to Git and records what happened. This project models the parts of it that keep state or take decisions, and
proves what they promise over whole runs:

- **Configuration parser.** The one-pass indentation parser of the configuration file, once as a loop over a stack of
  aliased mutable dicts and once as a specification on immutable frames; the two agree, printing and parsing is the
  identity, comments and line ends mean nothing, and three of its six error messages can never occur.
- **Issue lifecycle.** The persistent queue, the processed history, the watcher, the daemon's tick and dispatch and the
  scheduler loop, as classes and as one step function. Conservation of keys, bounded executions, order and no starvation
  are proved for every run, whatever polls return and however executions end.
- **Controller and Git handoff.** The inner retry loop, how it multiplies with the daemon's, the two copies of the Git
  handoff, and which statuses mean what.
- **Orchestrator.** The step-bounded workflow loop with its session, for arbitrary agents.
- **Patch pipeline.** Validation, backup and rollback, and the two nested repair loops running both on a workspace, for
  an arbitrary provider and an arbitrary `git apply`.
- **Search, context, events, cron, confidence.** The ranking, the byte budget, the subscription index under reentrant
  handlers, the next-fire arithmetic and the weighted score.

A class method is proved equal to a specification function (`Apply`, `Step`, `Complete`, `Loop`, `Fill`, ...), and the
theorems are lemmas about that function. Agents, providers, controllers' surroundings, `git` failures and what polls
return are arbitrary parameters.

## What the proofs found

- A mapping line under a key that already holds a list is accepted and lost. The rest of the text goes on as if it were
  not there, unless a list item comes before the next mapping line: then a text that was fine without the lost line is
  refused, or the item is lost with it (`YamlLost.LostLineEffect`, `YamlLost.LostLineExample`). Which lines are lost can
  be read off the text (`YamlLines.LineLostExactly`).
- A subscriber that raises on the very first publication of a run leaves its session open for ever, and its exception,
  of whatever type, leaves the call (`Sessions.EngineeringOrchestrator.Run`, `Sessions.RunWithRaisingSubscriber`); an
  exception that is no workflow exception can leave it from three publications (`Sessions.ExceptionLeaves`).
- A dispatch failure before any retry was counted ends the run at Retry, with nothing more dispatched
  (`Orchestrator.ReturnsAtTerminal`).
- When the orchestrator's loop raises, the context it had recorded in the session is replaced by the initial one
  (`Sessions.RecordKept`).
- After a failed application, repair prompts for later patches that do not validate still report the old application's
  failures (`InferPipeline.StaleReports`, `InferPipeline.StaleReportOccurs`).
- The validator and the applier read different file names from a diff exactly when a line that names a file holds a line
  break other than a line feed, or a name stands directly after one. A name after a line separator is backed up and put
  back unchecked, and with CRLF line ends no document is recognised (`DiffNames.SameFilesNamed`, `DiffNames.DifferingDiffs`,
  `Patches.CarriageReturnHidesDocument`).
- Rollback restores every file exactly when no modified file is another one's backup, however the names are spelled
  (`Applying.RollbackRestoresIff`, `Applying.SpellingsCollide`). A failed apply leaves its backups in the workspace, and
  a successful one deletes files that merely have a backup's name (`Applying.BackupsLeft`,
  `Applying.BackupNamesDeleted`).
- An execution that raises with no retry left drops its key from queue, progress and history alike, so a later poll
  may detect it again and spend a full budget anew (`Conservation.StepConserves`, `Bounds.DropBudgetReached`).
- The status `pull_request_created` is also returned when no pull request was opened (`Controller.PullRequestStatus`,
  `Controller.StatusWithoutPullRequest`). The pipeline names the files of its last patch even when that patch was never applied (`InferPipeline.RunInferPipeline`),
  and the controller asks for nothing more than named files. So the backups of a patch that failed to apply can be all
  that is committed, pushed and opened as a pull request (`PublishedBackups.PublishBackup`).
- The validator's warning about repeated file sections is unreachable (`Patches.NoRepeatedSections`).
- A negative per-file byte limit makes the context budget ineffective (`ContextBudget.BudgetHeldIff`).
- A repository has every file scored as a test file exactly when the path of its checkout contains "test" or "spec"
  (`Scoring.TestDirectoryMarksAll`).
- With the default thresholds the confidence bands `very_high` and `critical` are never chosen; other
  thresholds can lead to them exactly when `auto_pr` is at most 88, or every threshold is at least 47
  (`Confidence.ScoreRange`, `Confidence.EndBandsReachable`).
- The four cron fields after the minute play no part. A negative step polls every second, until minute 0, where it raises
  and ends the run; an expression without a usable minute ends it after the first tick (`Cron.WakesAtMatch`,
  `Cron.NegativeStep`, `Daemon.RunRefused`).

## Model

| member | source | states |
|---|---|---|
| YamlRoundTrip.ParsePrint | runtime/configuration/provider.py:137-205 | For every configuration tree with distinct well-formed keys, nested mappings, non-empty scalar lists and scalars without "#" or line breaks, parsing its indented printing returns exactly that tree |
| YamlRoundTrip.RunEntries | runtime/configuration/provider.py:142-188 | At any depth, the lines of a block add exactly its entries, in order, to the mapping that receives it |
| YamlRoundTrip.RunItems | runtime/configuration/provider.py:149-162 | List items under an opened key collect in order and replace its placeholder mapping |
| YamlRoundTrip.RunNested | runtime/configuration/provider.py:164-186 | A nested mapping's lines, at any depth, leave the key holding exactly that mapping and the outer frames as they were |
| YamlRoundTrip.ReadPrintedEntries | runtime/configuration/provider.py:142-174 | Every printed line reads back, through comment stripping, blank skipping and splitting at the colon, as the line it stands for |
| YamlSyntax.PrintedScalar | runtime/configuration/provider.py:191-205 | A printed boolean, null, integer or quoted string parses back to the same scalar |
| YamlSyntax.ReadKeyLine | runtime/configuration/provider.py:142-179 | A printed key line is read as that key, without a value, at its indent |
| YamlSyntax.ReadPairLine | runtime/configuration/provider.py:142-185 | A printed key and scalar are read as that pair at its indent |
| YamlSyntax.ReadItemLine | runtime/configuration/provider.py:142-161 | A printed list item is read as that item, never as a mapping |
| YamlText.CommentIgnored | runtime/configuration/provider.py:143 | A line means what it means up to its first number sign, whatever follows |
| YamlText.CommentAppended | runtime/configuration/provider.py:142-145 | In any text, a comment at the end of a line changes neither result nor error |
| YamlText.CommentInserted | runtime/configuration/provider.py:142-145 | In any text, a further line of blanks, or of blanks and a comment, changes neither result nor error, wherever it is put |
| YamlText.LineEndsIgnored | runtime/configuration/provider.py:142 | A text with CRLF line ends, LF ends or both, and with or without a last one, has the result or the error it has with LF ends |
| YamlText.ReadSpreadPair | runtime/configuration/provider.py:143-185 | A key, a colon and a value are read as that pair with any blanks between and after them, and only the first colon separates; with blanks alone after the colon the key opens a mapping |
| YamlText.ReadSpreadItem | runtime/configuration/provider.py:143-161 | A dash, blanks and anything more, colons included, is a list item |
| YamlText.ParseWord | runtime/configuration/provider.py:191-197 | The words for truth values and for nothing are read in any capitals |
| YamlText.ParseBare | runtime/configuration/provider.py:191-205 | A bare text that starts with a letter and is no such word is itself |
| YamlText.ParseSingleQuoted | runtime/configuration/provider.py:200-201 | Single quotes delimit a text whatever stands between them |
| Text.SplitLinesOfUnlines | runtime/configuration/provider.py:142 | Lines joined by line feeds split again into the same lines |
| Text.ParseIntOfIntToString | runtime/configuration/provider.py:202-205 | int() undoes str() for every integer within CPython's digit limit, negative ones included |
| YamlTree.StepValid | runtime/configuration/provider.py:149-186 | For every state reachable and every line: indents on the stack increase strictly from the root's -1 and every open mapping stands in its parent; a line is refused only for a list item without a key, a misplaced list item or a line without a colon, and exactly then |
| YamlTree.Run | runtime/configuration/provider.py:138-188 | For every text the stack invariant holds to the end, and "Invalid YAML indentation", "Cannot assign mapping under list" and "Mixed mapping/list" are never raised |
| YamlTree.RunConcat | runtime/configuration/provider.py:142-188 | Parsing is one pass: parsing a text in two pieces is parsing it whole, errors included |
| YamlParser.ParseSimpleYaml | runtime/configuration/provider.py:137-188 | The loop over stack, pending key and aliased dicts returns exactly the tree the specification denotes, or exactly its error |
| YamlParser.PopStack | runtime/configuration/provider.py:164-167 | Popping the stack closes exactly the frames whose indent the line reaches; the root stays |
| YamlParser.AppendItem | runtime/configuration/provider.py:155-161 | Replacing the placeholder through its parent, or appending to the list already there, is adding the item to the tree |
| YamlParser.PutScalar | runtime/configuration/provider.py:184-186 | Assigning through the top dict is putting the scalar into the tree's innermost open mapping |
| YamlParser.OpenChild | runtime/configuration/provider.py:179-183 | Assigning a new dict and pushing the same object is opening a child in the tree |
| YamlStore.CloseRel | runtime/configuration/provider.py:164-165 | A closed dict is reachable from its parent with what it collected, though nothing is copied when it is popped |
| YamlStore.PushRel | runtime/configuration/provider.py:179-183 | A pushed dict is shared between the stack and its parent's entry, and every other entry reads as before |
| YamlStore.AttachRel | runtime/configuration/provider.py:155-158 | Overwriting the parent's entry by a list detaches the open dict and nothing else |
| YamlStore.PutScalarRel | runtime/configuration/provider.py:185 | Writing one dict changes exactly the mapping it stands for, in every place it is read from |
| YamlLoss.MappingLineKept | runtime/configuration/provider.py:155-186 | A mapping line is always accepted; were the text to end with it, its value would be found at its path if and only if no open mapping above it was replaced by a list |
| YamlLoss.LostLineHasNoEffect | runtime/configuration/provider.py:155-186 | Were the text to end with it, a mapping line below a replaced mapping would leave the whole result as it was |
| YamlLost.LostLineEffect | runtime/configuration/provider.py:149-188 | The exact effect of such a line on any text after it: none, error or result, when no list item comes before the next mapping line; otherwise with a value the item is an error, and without one the item is refused or swallowed by its indent |
| YamlLines.LineLostExactly | runtime/configuration/provider.py:149-186 | In any text accepted up to a mapping line, said of its lines alone: the line is lost if and only if some earlier key line, under which every mapping line since and this one are indented, was followed by a list item before any other mapping line |
| YamlLines.TextKeepsLine | runtime/configuration/provider.py:149-186 | Under exactly that condition the line is not found at its path in the result as it stands after it |
| YamlLines.TextWithoutLostLine | runtime/configuration/provider.py:149-188 | Removing a lost line from a whole text changes neither result nor error, unless a list item comes before the next mapping line; after a line with a value that item is an error |
| YamlLines.OpenersOpen | runtime/configuration/provider.py:164-183 | In an accepted text the open frames are exactly the key lines under which every later mapping line is indented |
| YamlLines.LineRefusedExactly | runtime/configuration/provider.py:149-170 | In any text accepted up to a line, said of its lines alone, exactly when that line is refused and with which error: no colon; a list item after a mapping line that is no key without a value; a list item not indented more than such a key |
| YamlLost.SyncedOutcome | runtime/configuration/provider.py:149-188 | States that differ only below a replaced mapping, and agree on what is pending, are told apart by no continuation |
| YamlLost.LostLineExample | runtime/configuration/provider.py:137-188 | Of three concrete texts, one loses its key b, the next is refused because of b, and the last, without b, is accepted |
| PyDict.GetPut | runtime/configuration/provider.py:181-185 | Assigning a dict key is read back, and every other key keeps its value |
| PyDict.PutFresh | runtime/configuration/provider.py:181-185 | A new dict key goes to the end of the insertion order |
| PyDict.DedupeAbsorbs | engineering/repository_search/searcher.py:92-97 | Removing repetitions after each merge or once at the end gives the same list |
| Issues.IssueRoundTrip | worker/queue/persistent.py:111-134 | Decoding an encoded issue gives the same issue, whatever the time of reading |
| Issues.IssueDocument | worker/queue/persistent.py:124-134 | What a document in the queue file says, whoever wrote it: which field means what, the defaults of those that are missing, and the error without repository or number |
| Issues.QueueRoundTrip | worker/queue/persistent.py:98-108 | A written queue file loads as the same items in the same order |
| QueueSpec.ApplyAllKeepsDistinct | worker/queue/persistent.py:23-77 | No sequence of queue operations ever holds one key twice |
| QueueSpec.MoveToFrontKeepsOrder | worker/queue/persistent.py:68-77 | The named item comes first, nothing is lost, and the other items keep their relative order |
| QueueSpec.RetryKeepsKey | worker/queue/persistent.py:31-41 | The item put back for a retry has the key of the original |
| QueueSpec.IndexOf | worker/queue/persistent.py:51-77 | The position found is the first with the key, and none is found exactly when the key is absent |
| Queue.PersistentIssueQueue.Open | worker/queue/persistent.py:17-21 | Opening succeeds exactly when the file loads, and holds what it holds |
| Queue.PersistentIssueQueue.Enqueue | worker/queue/persistent.py:23-29 | Appends an unseen key and reports it; a present key changes nothing; memory and file keep agreeing |
| Queue.PersistentIssueQueue.RetryEnqueue | worker/queue/persistent.py:31-41 | Appends the issue with one more attempt and a new time, unless its key is queued |
| Queue.PersistentIssueQueue.Dequeue | worker/queue/persistent.py:43-49 | Removes and returns the first item, and saves |
| Queue.PersistentIssueQueue.DequeueIssue | worker/queue/persistent.py:51-59 | Removes and returns the item with the key, if any, and saves |
| Queue.PersistentIssueQueue.Clear | worker/queue/persistent.py:61-66 | Returns everything that was queued and leaves an empty queue and file |
| Queue.PersistentIssueQueue.MoveToFront | worker/queue/persistent.py:68-77 | Moves the named item to the front, if present, and saves |
| Queue.PersistentIssueQueue.Save | worker/queue/persistent.py:105-108 | Afterwards a queue opened on the file, at any time, holds the same items |
| Queue.OperateAndReopen | worker/queue/persistent.py:17-108 | After any sequence of operations a second queue built from the same file holds the same items in the same order |
| Watcher.HistoryRoundTrip | worker/watcher/github.py:57-66 | A saved history loads as the same history |
| Watcher.ProcessedIssueStore.MarkProcessed | worker/watcher/github.py:26-29 | Records the status under the key, leaves other keys alone, and saves |
| Watcher.ProcessedIssueStore.Remove | worker/watcher/github.py:35-41 | Removes exactly the key and reports whether it was there |
| Watcher.GitHubIssueWatcher.ShouldSkip | worker/watcher/github.py:107-108 | Skips exactly the keys that are processed, in progress or queued |
| Watcher.GitHubIssueWatcher.Poll | worker/watcher/github.py:87-105 | Queues and returns exactly the open, unseen issues in listing order, each key once; a listing that raises keeps what was queued before it |
| Watcher.GitHubIssueWatcher.TakeUnseen | worker/watcher/github.py:90-104 | One repository's listing: closed issues, pull requests and seen keys are skipped, a key listed twice is taken once |
| Daemon.WorkerDaemon.ExecuteQueuedIssue | worker/daemon/daemon.py:219-286 | On every path the key leaves the in-progress set; success and final failure are recorded, retries go to the tail with one more attempt; the processed count grows on success only |
| Daemon.WorkerDaemon.Tick | worker/daemon/daemon.py:148-217 | A tick is one step of the lifecycle: pause, poll, and execute at most the first item; queue and history files keep agreeing with memory |
| Daemon.WorkerDaemon.DispatchIssueNow | worker/daemon/daemon.py:203-210 | Executes the named item out of order, or raises when it is not queued |
| Daemon.RunScheduler | worker/scheduler/scheduler.py:20-39 | One tick in single-shot modes, else ticks until cancellation, the first tick that raises or the first delay whose computation does; no key is executed more often than its budget at the start |
| Daemon.RunRefused | worker/scheduler/scheduler.py:20-65 | With a cron expression that makes no sense at any time, the run takes one tick and raises |
| Outcomes.OutcomeDecides | worker/daemon/daemon.py:219-286 | How an execution ends, by its outcome alone: a success is processed with its status; a failure that returns is queued again, last and with one more attempt, exactly when attempts are left and the status is neither retry_or_escalate nor escalated, and is processed with its status otherwise; an exception is never processed; the rest of the queue keeps its order |
| Outcomes.SuccessIsFinal | worker/daemon/daemon.py:219-291 | Over every run after a success, with whatever polls, dispatches and exceptions: the issue is never polled or executed again and its record is the status it succeeded with |
| Outcomes.ProcessedForGood | worker/daemon/daemon.py:148-291 | Over every run a processed key is never polled or executed and keeps its record |
| Outcomes.ExecutesExactly | worker/daemon/daemon.py:148-217 | What an event executes: a tick the first waiting item unless it is paused, its poll raises or nothing waits; a dispatch the item it names, or none and then it raises |
| Detection.PollQueuesWorkable | worker/watcher/github.py:87-105 | A key is queued if and only if it was unknown and a listing that was reached names an issue of it that is open, in any capitals, and no pull request; every item says what such an issue says, field by field |
| Detection.RunFrom | worker/daemon/daemon.py:148-291 | In every run, whatever is executed or left in the queue was there first or detected, and differs from it in attempts and time alone |
| Detection.ExecutesListedIssues | worker/daemon/daemon.py:148-291 | From an empty queue, every execution of every run is of an issue that some listing gave, open and no pull request, and hands on its title, address, labels, body, comments and author unchanged |
| Conservation.StepConserves | worker/daemon/daemon.py:148-291 | After any tick or dispatch every known key is in exactly one of queue, progress and history; what a poll detects was unknown; only an execution that raises with no retry left loses its key |
| Conservation.RunConserves | worker/daemon/daemon.py:148-291 | Over every run in which nothing raises, the known keys are exactly those known at first and those detected, each in one place |
| Conservation.PollSeparate | worker/watcher/github.py:87-105 | A poll queues only unknown keys, each once, and forgets none |
| Conservation.ExecuteSeparate | worker/daemon/daemon.py:219-286 | An execution moves its key to exactly one place, or drops it when it raises with no retry left, and touches no other key |
| Bounds.RunBudget | worker/daemon/daemon.py:219-291 | In every run of ticks and dispatches, raising or not, a key's executions never exceed its budget at the start plus one full budget per execution that dropped it |
| Bounds.SchedulerRunBudget | worker/scheduler/scheduler.py:20-26 | In one scheduler run, a raising last tick included, a key's executions stay within its budget |
| Bounds.FreshRunBudget | worker/daemon/daemon.py:148-291 | From an empty queue and history no issue is executed more than max_retries + 1 times |
| Bounds.BudgetReached | worker/daemon/daemon.py:219-291 | An issue that keeps failing is executed exactly as often as its budget says |
| Bounds.DropBudgetReached | worker/daemon/daemon.py:219-291 | Dropped on its last attempt, detected anew and failing from then on, an issue is executed exactly as often as its budget and one full budget allow |
| Bounds.ExecuteBudget | worker/daemon/daemon.py:219-291 | Every execution is paid from its own key's budget and changes no other key's |
| Bounds.BudgetOfPoll | worker/watcher/github.py:87-105 | Polling changes no key's budget |
| Ordering.NoStarvation | worker/daemon/daemon.py:148-217 | Over ticks that neither pause nor raise, the item at index i is executed by exactly the tick number i + 1, whatever is polled and put back meanwhile |
| Ordering.FirstExecutionsFollowDetection | worker/daemon/daemon.py:148-217 | First attempts are executed in the order in which they were queued and detected |
| Ordering.TickAppends | worker/daemon/daemon.py:148-217 | Read as one tape of executed and queued items, a tick appends and reads one item, nothing else |
| Controller.RunsExact | worker/controller.py:91-139 | The number of pipeline runs is pinned down: at most max_retries + 1, all but the last without changes, the last one raising, changing files or using up the retries |
| Controller.RunAttempts | worker/controller.py:91-140 | The loop makes that many runs, writes one retry audit fewer, and hands on the last run's files; none when a run raised or none was made |
| Controller.LastRunDecides | worker/controller.py:91-188 | The last pipeline run decides: its exception fails the execution, no files escalate it, and files hand the repository it left to Git |
| Controller.Execute | worker/controller.py:63-217 | Every path through setup, runs, escalation, handoff and the exception handler ends with the stated status, repository, run and audit counts; a failed execution's timeline has a failed stage |
| Controller.PullRequestStatus | worker/controller.py:154-188 | Success statuses come exactly from a finished handoff; pull_request_created comes with a pull request exactly when committing and opening are on and the run left changes, and the repository gained exactly that pull request; a dry run changed no remote ref |
| Controller.StatusDecided | worker/controller.py:154-217 | A finished handoff is dry_run_pr_created in a dry run and pull_request_created otherwise; escalated exactly when the last run names no file and the checkout can be refreshed; failed in every other case; a dry run with cleanup ends on the default branch without the branch it worked on |
| Controller.StatusWithoutPullRequest | worker/controller.py:170-188 | With every switch on and nothing failing, a run that names a file and leaves no change ends as pull_request_created with no commit and no pull request |
| RetryBounds.PipelineRunsBudget | worker/controller.py:91-139 | In a scheduler run the pipeline runs for a key at most max_retries + 1 times per execution in the key's budget |
| RetryBounds.PipelineRunsSquared | worker/daemon/daemon.py:227-291 | From an empty queue and history one issue causes at most (max_retries + 1) squared pipeline runs |
| RetryBounds.SquareReached | worker/controller.py:91-217 | That square is reached by an issue whose runs change nothing and whose last run raises |
| RetryBounds.NoChangesRunOnce | worker/controller.py:154-168 | An issue whose runs never change anything is executed once, with max_retries + 1 runs, and recorded as escalated |
| Git.CompleteSafe | worker/git_workflow.py:46-97 | Whatever the settings, the repository and the failures, the default branch never moves, locally or remotely, and a dry run changes no remote branch and opens no pull request |
| Git.CommitsStaged | github/repositories/operations.py:58-70 | Staging and committing commits exactly the changed files that were named, or all when none is, and those already staged; the others stay changed |
| Git.CommitsChanges | github/commits/service.py:24-36 | Staging the files the status reports and committing commits exactly those, in the order reported, and leaves nothing changed |
| Git.CompleteResult | worker/git_workflow.py:46-97 | A commit is made exactly when committing is on and there are changes, and holds exactly those; a push implies a commit; a pull request implies a commit or a dry run |
| Git.CompleteTells | worker/git_workflow.py:46-97 | The result tells the truth: the repository gained exactly the pull request it names, its head is the commit, and the remote branch is that commit when it says pushed |
| Git.CompleteLeaves | worker/git_workflow.py:46-97 | A finished completion worked on the branch checked out, or the issue's branch instead of the default one, and leaves it checked out, except that a dry run's cleanup returns to the default branch and deletes it; no other branch is made, moved or deleted |
| Git.PushNeedsRemote | github/repositories/operations.py:72-80 | No completion that pushes ends well without a remote, a dry run included |
| GitWorkflow.CompleteIssue | worker/git_workflow.py:46-97 | The workflow service ends with the repository and the result of the common specification, failures included |
| GitWorkflow.CompleteGitWorkflow | worker/controller.py:404-471 | The controller's copy ends with the same repository and result, and adds only passing stages but for the last one when a command fails |
| GitWorkflow.RepositoryOperations.CreateCommit | github/commits/service.py:24-36 | Stages the given files, commits what is staged and returns the new head, or fails at the first failing command and keeps what was done before |
| GitWorkflow.RepositoryOperations.PushBranch | github/repositories/operations.py:72-80 | Pushes the branch, or in a dry run only checks the remote and the branch |
| GitWorkflow.RepositoryOperations.CurrentBranch | github/repositories/operations.py:35-38 | Reads the branch without changing the repository |
| GitWorkflow.RepositoryOperations.ChangedFiles | github/repositories/operations.py:40-44 | Reads the changed files without changing the repository |
| GitWorkflow.StageTimeline.EnsureFailure | worker/controller.py:473-489 | Afterwards the last stage is a failure; one is added only when the last stage was not one |
| Orchestrator.HeadsAgree | runtime/orchestrator/engineering.py:119-223 | At every loop head the state is the one that belongs to the stage, if and only if the run starts at a stage whose state is Running |
| Orchestrator.NewContextsAgree | runtime/context/execution_context.py:105-138 | On a context as the builder makes it, state and stage agree at every loop head and in the context returned |
| Orchestrator.DispatchBound | runtime/orchestrator/engineering.py:119-153 | The loop dispatches at most max_steps times |
| Orchestrator.SmoothRun | runtime/orchestrator/engineering.py:119-223 | When agents always succeed and name no stage, the dispatched stages are exactly the rest of the default order, cut at the steps left, and the run completes if and only if those cover it; otherwise it ends with the step limit's exception |
| Orchestrator.Accumulates | runtime/orchestrator/engineering.py:188-240 | A run that returns has the initial artifacts followed by those of the successful results in order, a timeline that only grew at its end, and a retry count that left 0 exactly when a failure was handled |
| Orchestrator.EscalatedStops | runtime/orchestrator/engineering.py:119-153 | After an escalation nothing more is dispatched, and the context is returned as it is |
| Orchestrator.ReturnsAtTerminal | runtime/orchestrator/engineering.py:124-151 | A run returns at a terminal stage if and only if its last step was not a dispatch failure before any retry was counted; then it returns at Retry |
| Orchestrator.NamedStageFollows | runtime/orchestrator/engineering.py:198-203 | A success that names a stage, in any capitals, with underscores or blanks and blanks around it, continues exactly there |
| Orchestrator.SpellingNames | runtime/orchestrator/engineering.py:305-311 | Every such spelling names its stage and no other of the nineteen |
| Orchestrator.CancelledExactly | runtime/orchestrator/engineering.py:119-153 | A run ends in the cancellation when the token was cancelled at a head or a dispatch threw it, and otherwise only when a subscriber raised it |
| Orchestrator.ExceptionsStop | runtime/orchestrator/engineering.py:124-151 | What stops the loop at a head: which publications raise at which stages, before or after the dispatch, a missing agent, and the dispatch itself |
| Orchestrator.RunRecorded | runtime/orchestrator/engineering.py:119-266 | A run that returns has recorded one timeline entry and one visited state for its start, for every dispatch and for its completion |
| Orchestrator.RetryNeedsNamedStage | runtime/orchestrator/engineering.py:198-210 | After a failure was routed to Retry, a success that names no stage ends the run with "Unknown workflow stage" |
| Orchestrator.AppliedSuccess | runtime/orchestrator/engineering.py:188-196 | What a success does to every field of the context: stage, state, agent, visited states, timeline and artifacts |
| Orchestrator.AppliedFailure | runtime/orchestrator/engineering.py:225-240 | The first failure goes to Retry and counts, every later one to Escalate; what either does to every field of the context |
| Workflow.AddArtifactsAppends | runtime/context/execution_context.py:85-88 | Adding artifacts one by one appends them in order and changes nothing else |
| Workflow.FindStage | runtime/orchestrator/engineering.py:305-311 | A stage is found exactly when its value matches, ignoring case |
| Sessions.SessionManager.CreateSession | runtime/sessions/manager.py:38-42 | Adds an open session and leaves the others alone |
| Sessions.SessionManager.UpdateContext | runtime/sessions/manager.py:51-58 | Replaces the context of an open session; an unknown or closed session is an error and nothing changes |
| Sessions.SessionManager.Close | runtime/sessions/manager.py:60-66 | Closes the session and keeps its context |
| Sessions.EngineeringOrchestrator.RunLoop | runtime/orchestrator/engineering.py:119-153 | The loop ends, dispatches and stores as specified, whatever its publications raise, and every update finds the session open |
| Sessions.EngineeringOrchestrator.Run | runtime/orchestrator/engineering.py:88-117 | The session ends closed with the final context if and only if the first publication does not raise, and otherwise stays open with the initial one; that context is the one the loop returned, or the initial one moved to Cancelled after the cancellation and to Failed after any other exception; the caller gets the first exception on the way, or the final context |
| Sessions.EngineeringOrchestrator.Conclude | runtime/orchestrator/engineering.py:96-117 | After the loop the session is updated when it raised, and closed in every case, before anything leaves the call |
| Sessions.ExceptionLeaves | runtime/orchestrator/engineering.py:88-117 | An exception leaves the call exactly when the first publication raises, the loop ends in a workflow exception, the publication of its failure raises, or that of the summary does; only workflow exceptions can leave exactly when no subscriber there raises anything else |
| Sessions.SessionEndsAt | runtime/orchestrator/engineering.py:94-114 | Where a run leaves its session, by what happened in it: at the stage its loop returned; at Cancelled when its token was cancelled at a head or a dispatch threw the cancellation; at Failed after any other exception, the workflow's own included |
| Sessions.FirstExceptionLeaves | runtime/orchestrator/engineering.py:88-117 | The exception that leaves the call is the first one raised on the way |
| Sessions.RunWithRaisingSubscriber | runtime/orchestrator/engineering.py:91-92 | A concrete subscriber to every event that raises leaves the session open, and its exception leaves the call |
| Sessions.RecordKept | runtime/orchestrator/engineering.py:88-117 | A returning run keeps everything recorded; a raising one keeps none of it, only the initial record and the final state |
| Patches.ValidatePatch | engineering/patch/validator.py:19-61 | Exactly these errors, warnings, files and rejected files, in order; valid exactly when there is no error, and exactly when format, file count, every file, evidence and line count are acceptable; warnings exactly for doubtful files |
| Patches.ValidExactly | engineering/patch/validator.py:19-61 | The same of the answer as a function, for every diff, limit and repository |
| Patches.CheckFile | engineering/patch/validator.py:30-43 | The messages about a file, in order; an error exactly when it escapes, is generated or is an unrelated document, and a warning exactly when it is missing or was not investigated |
| Patches.RefusedDiffs | engineering/patch/validator.py:22-48 | Each of these alone makes a diff invalid: too many changed lines or files, a file below a generated directory at any depth, one outside the repository, an unrelated document, too little evidence, a missing mark, nothing but blanks |
| Patches.WarnedDiffs | engineering/patch/validator.py:36-43 | A diff is warned about exactly when it names a file that is missing, or one outside what was investigated that is not refused as a document |
| Patches.FilesNamed | engineering/patch/validator.py:27 | The files are exactly what follows "+++ b/" on the lines cut at line feeds, each once |
| Patches.CountLinesExact | engineering/patch/validator.py:46-47 | The lines counted are exactly those that start with the mark and not with three of it |
| Patches.DocumentsRefused | engineering/patch/validator.py:63-67 | An issue that is not about documentation may touch no markdown file and no readme, in any capitals and in any directory; one about documentation may touch all |
| Patches.NoRepeatedSections | engineering/patch/validator.py:27-52 | The names searched for repetitions are already unique, so that warning never appears |
| DiffNames.SameFilesNamed | engineering/patch/applier.py:73-74 | For every diff, the applier backs up exactly the names the validator checks, in order and empty names aside, if and only if every line cut at line feeds either names a file and has no other line break, or has no name directly after one |
| DiffNames.UncheckedName | engineering/patch/applier.py:73-74 | A name directly after any other line break is read by the applier and by no check |
| DiffNames.CarriageReturnKept | engineering/patch/validator.py:27 | With a CRLF line end the checked name ends in a carriage return and the applier's does not |
| DiffNames.DifferingDiffs | engineering/patch/validator.py:27 | Two concrete diffs on which the readers differ |
| Patches.CarriageReturnHidesDocument | engineering/patch/validator.py:63-67 | No name that ends in a carriage return counts as an unrelated document, wherever the document lies |
| PyDict.Dedupe | engineering/patch/validator.py:27 | The same names, each once |
| Applying.Workspace.ApplyPatch | engineering/patch/applier.py:18-62 | Applied exactly when there is no error; a dry run and a refused patch change nothing; otherwise backups, git's effect and rollback or cleanup, in that order |
| Applying.Workspace.MakeBackups | engineering/patch/applier.py:47-52 | Copies every existing file named, in order, to its backup; spellings of one path are one file |
| Applying.Workspace.Rollback | engineering/patch/applier.py:64-70 | Copies back every backup still present, in order |
| Applying.FailureRestores | engineering/patch/applier.py:47-70 | When apply fails after the checks and left the backups alone, every modified file that existed has its old contents, whatever git did to it, provided no modified path is another one's backup |
| Applying.RollbackRestoresIff | engineering/patch/applier.py:47-70 | A failed apply that git left without effect restores every workspace if and only if no modified path is a modified path's backup |
| Applying.SpellingsCollide | engineering/patch/applier.py:48-50 | d//a.gew.bak is the backup of d/a: names are compared as paths |
| Applying.BackupsLeft | engineering/patch/applier.py:54-57 | After a failed apply and its rollback the names in the workspace are exactly the old ones and those of every backup made |
| Applying.ContentsAfterFailure | engineering/patch/applier.py:47-70 | Every backup then holds its file's old contents, whatever was there before, and every other old file is unchanged, when no modified path is another one's backup |
| Applying.BackupNamesDeleted | engineering/patch/applier.py:58-60 | After a successful apply no file has the name of a modified file's backup, even one that was there before |
| Applying.SuccessKeepsEffect | engineering/patch/applier.py:47-60 | A successful apply leaves exactly what git made of the workspace it was given, but for the backups just made, which are gone; git was given the old files unchanged and those backups |
| Applying.CollisionLosesContents | engineering/patch/applier.py:47-70 | For every list of modified files with such a pair, repeated names included, two different contents are not both restored |
| InferPipeline.RunInferPipeline | engineering/pipeline.py:168-260 | With the validator and the applier on a workspace: raises exactly when a provider call up to the last one raises, and then has applied nothing; otherwise ends without errors exactly when its last patch is valid and was applied, with that patch pinned down, at most 2 * attempts + 1 calls, every valid patch tried, the last patch's files named, and the workspace that its applications leave |
| InferPipeline.RepairValidation | engineering/pipeline.py:197-212 | Stops at the first valid patch within the attempts, quoting each rejected patch with its own errors and warnings |
| InferPipeline.RepairApplication | engineering/pipeline.py:217-234 | Stops at the first later patch within the attempts that validates and applies |
| InferPipeline.AppliesOnlyValidAndOnce | engineering/pipeline.py:197-234 | No run applies an invalid patch, and it applies successfully at most once, as its last act |
| InferPipeline.ReportsQuotedPatch | engineering/pipeline.py:218-228 | A repair prompt reports the failures of the patch it quotes if and only if that patch was applied or nothing had been applied yet |
| InferPipeline.StaleReports | engineering/pipeline.py:218-228 | In the log of a run a repair prompt reports the failures of the patch it quotes if and only if nothing had been applied yet or that patch is valid |
| InferPipeline.StaleReportOccurs | engineering/pipeline.py:218-230 | In every run whose first patch is valid and does not apply and whose second is not valid, the third prompt quotes the second and reports what kept the first from applying |
| RepairPrompts.ReportsValidation | engineering/pipeline.py:201-211 | While nothing has been applied, a repair prompt reports exactly the errors and then the warnings of the patch it quotes, and there is an error |
| RepairPrompts.ReportsApplication | engineering/pipeline.py:218-228 | Afterwards it reports exactly the errors of the most recent application that are not empty, in order; that application failed |
| RepairPrompts.PromptQuotes | engineering/pipeline.py:194-224 | The first prompt is the issue's and every later one quotes the patch before it, by its raw text when it has one |
| RepairPrompts.ReturnedErrors | engineering/pipeline.py:213-234 | A finished run returns the errors of the application of its last patch when that is valid, and of its validation when it is not |
| RepairPrompts.AttemptsUsed | engineering/pipeline.py:199-234 | A run ends at its first patch that validates and applies within the attempts, and otherwise uses up exactly the configured number |
| PublishedBackups.RunWithStaleReport | engineering/pipeline.py:218-230 | Such a run, on a concrete diff that the validator accepts |
| InferPipeline.Judge | engineering/patch/validator.py:19-61 | The verdict the loops see has no errors exactly for an acceptable diff |
| InferPipeline.TryPatch | engineering/patch/applier.py:18-62 | The result the loops see is applied exactly without errors, and the workspace changes as specified for the names in the diff |
| PatchEffects.RunBacked | engineering/pipeline.py:168-260 | The whole effect of a run: every diff it applies, successfully or not, meets every limit; without errors the workspace is what git made of the last patch in a workspace kept until then, so that contents git writes for it are exactly what has changed; with errors or cut short every file keeps its contents and only backups are new; a dry run changes nothing |
| PatchEffects.FailuresKeep | engineering/pipeline.py:214-236 | Any number of failed applications by a git that fails without effect keep the workspace but for backups |
| PublishedBackups.PublishBackup | worker/controller.py:170-188 | From a valid patch that does not apply to a published pull request: the run ends with errors, names its file, leaves the backup as the only change, and that backup is committed, pushed and opened as a pull request with status pull_request_created |
| PublishedBackups.ChangesPublished | worker/controller.py:170-188 | Whatever changes such a run leaves, they are committed, pushed and opened as a pull request |
| Scoring.ScoreCandidate | engineering/repository_search/searcher.py:103-152 | The score is the sum of the named contributions, a candidate exists exactly when it is positive, and its reasons name exactly the contributions |
| Scoring.TestByEitherPart | engineering/repository_search/searcher.py:209-211 | A file counts as a test exactly when "test" or "spec" stands in the path of the checkout or in its own |
| Scoring.TestDirectoryMarksAll | engineering/repository_search/searcher.py:209-211 | Every file of a repository counts as a test if and only if the path of its checkout contains "test" or "spec" |
| Scoring.TestDirectoryCandidates | engineering/repository_search/searcher.py:136-144 | Below such a directory every file is a candidate of every pass unless penalized |
| Relevance.CandidateExactly | engineering/repository_search/searcher.py:103-152 | Leaving the penalized files aside, a pass finds exactly the files that mention one of its terms in path, text or symbols, in any capitals, those with a hint in their path, tests and manifests |
| Relevance.PointsOf | engineering/repository_search/searcher.py:119-144 | The points of a file in a pass, in closed form from its four counts and its marks |
| Relevance.HitsCounted | engineering/repository_search/searcher.py:119-120 | The hits in path and text are the terms of the plan that occur there, in any capitals |
| Relevance.PenalizedNeedsMore | engineering/repository_search/searcher.py:138-146 | A readme or license, when the issue is not about documentation, is not found by up to two terms in its path and text |
| Search.Search | engineering/repository_search/searcher.py:75-101 | Filling the table in nested loops and merging entries returns the ranked prefix of the files' combined candidates |
| Search.AddPasses | engineering/repository_search/searcher.py:84-99 | The passes over one file leave one entry for it, none when no pass scores it, and touch no other |
| Search.MergeIsCombined | engineering/repository_search/searcher.py:88-99 | Merging pass by pass gives what all positive passes give at once: the sum of their scores and their lists without repetitions |
| Search.CombinedAddsUp | engineering/repository_search/searcher.py:88-99 | Points add up over the passes, and a reason, symbol, hint or pass name is listed exactly when one pass lists it |
| Search.TableValues | engineering/repository_search/searcher.py:79-99 | The candidates are exactly the combined passes of the files that some pass scores, one per path |
| Search.WalkOrderIrrelevant | engineering/repository_search/searcher.py:75-101 | The result depends on the set of files alone, not on the order of the walk |
| Search.FoundIsTop | engineering/repository_search/searcher.py:100-101 | The result is the top of the ranking: as many as configured or all there are, and everything left out ranks after everything returned |
| Ranking.BeforeTotal | engineering/repository_search/searcher.py:100 | Score descending, depth, path orders any two candidates of different paths one way |
| Ranking.BeforeTransitive | engineering/repository_search/searcher.py:100 | That order is transitive |
| Ranking.RankedInOrder | engineering/repository_search/searcher.py:100 | In a ranking scores never rise, among equal scores depths never fall, and among equal depths paths are in order |
| Ranking.LessExactly | engineering/repository_search/searcher.py:100 | Paths are ordered by their first difference, a prefix before what continues it |
| Relevance.DepthCounts | engineering/repository_search/searcher.py:100 | A path is as deep as it has pieces between slashes |
| Ranking.SortedRanked | engineering/repository_search/searcher.py:100 | Sorting candidates of distinct paths gives a strict ranking |
| Ranking.RankedUnique | engineering/repository_search/searcher.py:100 | The ranking of a set of candidates is unique |
| PySeq.Slice | engineering/repository_search/searcher.py:101 | A prefix of the given length, counted from the end when negative |
| ContextBudget.Build | engineering/context_builder/builder.py:28-53 | The reading loop produces exactly the specified snippets and warnings |
| ContextBudget.SnippetOf | engineering/context_builder/builder.py:42-53 | The snippet is a prefix of the file as long as allowed, and is marked truncated exactly when something is missing |
| ContextBudget.EndLine | engineering/context_builder/builder.py:44-52 | The last line of a snippet is one more than the line feeds in it, and 0 when it is empty |
| ContextBudget.WithinBudget | engineering/context_builder/builder.py:33-53 | For every list of files: at most C characters, at most C + 3 * min(max_file_bytes, C) bytes of UTF-8, and at most C bytes for ASCII files |
| ContextBudget.BudgetOvershoot | engineering/context_builder/builder.py:42-43 | The byte bound is reached by one long file of four-byte characters |
| ContextBudget.OvershootReached | engineering/context_builder/builder.py:33-43 | The byte bound is reached for every budget and every per-file limit |
| ContextBudget.BudgetHeldIff | engineering/context_builder/builder.py:42-43 | The character budget holds for every list of files if and only if the per-file limit is not negative or there is no budget |
| ContextBudget.FillConcat | engineering/context_builder/builder.py:33-53 | Files are taken in order: once some files leave budget, the next are read with exactly what they leave |
| ContextBudget.Bytes | engineering/context_builder/builder.py:43 | A text takes between one and four bytes a character |
| EventBus.InMemoryEventBus.Subscribe | runtime/events/bus.py:30-37 | Adds one subscription under an identifier not in use, keeps the index equal to the live subscriptions of every type; an empty type is an error |
| EventBus.InMemoryEventBus.Unsubscribe | runtime/events/bus.py:39-46 | Removes exactly that subscription from both structures and reports whether it was live |
| EventBus.InMemoryEventBus.HandlersFor | runtime/events/bus.py:53-57 | Exactly the live subscriptions of the type and the wildcard ones, each once |
| EventBus.InMemoryEventBus.Publish | runtime/events/bus.py:48-51 | Each handler live at the start is called exactly once and no other is, whatever handlers subscribe and unsubscribe meanwhile; only a raising handler cuts the round short, and the call raises exactly when a receiver does |
| EventBus.LiveExactly | runtime/events/bus.py:30-46 | After any sequence of operations exactly the subscriptions made and not since removed are live |
| EventBus.ReceivesExactly | runtime/events/bus.py:30-57 | After any sequence of operations an event is received by exactly the subscriptions made to its very type or to "*" and not since removed |
| Cron.StepDelayEarliest | worker/scheduler/scheduler.py:50-58 | For every step of at least one the delay leads to the earliest minute the step selects, strictly after now and within an hour |
| Cron.MinuteDelayEarliest | worker/scheduler/scheduler.py:61-65 | A fixed minute leads to the next time the clock shows it, for every minute of a clock, and is an error otherwise |
| Cron.StarDelayNextMinute | worker/scheduler/scheduler.py:59-60 | A star leads to the next minute boundary, overshot by the fraction of a second that had passed |
| Cron.NegativeStep | worker/scheduler/scheduler.py:50-58 | A negative step is an error at minute 0 and otherwise gives a time in the past |
| Cron.WakesAtMatch | worker/scheduler/scheduler.py:36-65 | The scheduler wakes at or less than a second after the earliest matching time; without a usable minute field it raises or waits one second |
| Cron.WakesInTurn | worker/scheduler/scheduler.py:28-65 | After a tick the next wake comes at the first match from its end on, so exactly the matches during the tick are skipped, and none when it ends within the minute |
| Cron.RefusedAlways | worker/scheduler/scheduler.py:42-65 | Exactly which expressions raise at every time |
| Cron.FieldsInOrder | worker/scheduler/scheduler.py:45 | The fields of an expression are its words in the order of the text, whatever blanks stand around them |
| Cron.FirstWordDecides | worker/scheduler/scheduler.py:45-65 | Five words mean what the first one says: every n minutes, every minute, or at one minute; any other number is refused at every time |
| Confidence.ScoreRange | confidence/engine.py:18-99 | For all non-negative counters the clamp never acts, the score lies in [46.86, 88.67], and the default top and bottom bands are never chosen |
| Confidence.EndBandsReachable | confidence/models.py:21-41 | For any thresholds, some evidence is very_high if and only if that threshold is at most 88, and some is critical if and only if every threshold is at least 47 |
| Confidence.ScoreRangeReached | confidence/engine.py:18-99 | Both ends of that range are reached |
| Confidence.ScoreMonotone | confidence/engine.py:56-99 | More retries or failures never raise the score, more artifacts or timeline entries never lower it |
| Confidence.EachCounts | confidence/engine.py:56-99 | What one more retry, failure, artifact or timeline entry is worth in the weighted total, and from where on nothing |
| Confidence.MarksCount | confidence/engine.py:44-99 | What title, link, resolved repository, status and final stage are worth in it |
| Confidence.RoundNearest | confidence/engine.py:35 | Rounding gives the nearest hundredth, the even one of two equally near |
| Confidence.BandMatchesRecommendation | confidence/models.py:21-41 | For any thresholds band and recommendation determine each other |
| Confidence.ConfidenceEngine.Calculate | confidence/engine.py:18-42 | The loop's sums are the rounded weighted mean of the eleven stages, and the history keeps every stage ever scored |
| Confidence.StageWeights | confidence/engine.py:18-99 | The weights sum to 11.3 and the weighted total has its closed form |
| Confidence.ScoreIsOverall | confidence/engine.py:33-35 | The score the range and monotonicity theorems speak of is the one the assessment reports |
| Confidence.FailureNeedsContext | worker/controller.py:189-206 | An execution that ends in an exception is recommended for more context, on every attempt |
| Confidence.CompletedProceeds | worker/controller.py:224-266 | A result without errors that changes a file is recommended to proceed, on every attempt |
| Confidence.ErrorsNeverProceed | worker/controller.py:224-266 | A result with errors is never recommended to proceed |

## Left out

- JSON text: documents are modelled as values; a labels or metadata field of another shape than the program writes, and
  titles that are not strings, are errors of the model rather than converted.
- File system failures: reading, writing and creating directories succeed; an audit log or status file that cannot be
  written would raise out of places where the model continues.
- Clocks: the current time is a parameter, datetimes stand for their ISO text, and cron times have no offset changes.
- Text beyond ASCII in lower-casing and in the digits int() accepts.
- Several processes on one queue file: one live queue object at a time, plus reopening.
- The scheduler request file, `enqueue_issue` from outside a tick and the pause file's format; pausing is an input of a tick.
- Threads: the event bus, the sessions and the daemon are used by one thread.
- Notifications and payloads: providers' exceptions are swallowed by the service, so a notification is a passing stage.
- Audit entries other than the number of retry audits; reports and prompts.
- HTTP, Discord, OpenClaw subprocesses, the browser and agent mode: what they return is arbitrary where it matters.
- Environment substitution in configuration values, and the conversion of the parsed tree to typed configuration.
- Issue understanding, category hints, search terms and the reading of symbols: inputs of the search.
- The order in which the context builder prioritizes candidates, and the repository analysis beside the snippets.
- Branch names and commit messages: inputs of the Git handoff.
- Git beyond branches, head, remote branches, changed and staged files and pull requests: merges, hooks, tags and ignored files; a
  command fails for the modelled reasons or for an arbitrary outside one, and then changes nothing.
- File identity beyond the parts of a name: "..", absolute names, symbolic links and directories; a name in a status report
  that stands for a renaming, or that the report quotes because of blanks or other characters, so that staging it fails.
- File names with a NUL, for which resolving the path raises instead of giving a verdict.
- Events published by the orchestrator, but for what their publication raises; subscribers that close the session or
  cancel the run from within a publication.
- Handlers that publish from within a handler, which may not end.
- Controller.Execute: the workspace manager's stages before branch creation and the refresh after an escalation are
  inputs, each passing or raising, with an arbitrary repository as their result.
- Confidence.ConfidenceEngine.Calculate: arithmetic is exact; floating-point rounding before the final rounding to two
  places is not modelled.
- Scoring.ScoreCandidate: scores are whole half points; every sum of the program's weights is exact in floating point.
- YamlLoss.MappingLineKept: looks at the result as it stands after the line; a later line with the same key may still
  replace what it wrote.
- Applying.FailureRestores: one direction only for arbitrary effects of git; when git has no effect the condition is exact.
- Sessions.SessionManager.CreateSession: a new identifier is assumed unused, as uuid4 makes it.
- Search.Search: the walk is assumed not to yield one path twice.
