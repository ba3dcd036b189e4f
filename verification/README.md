# Verified model of Semaphore's task engine and Bolt store

A Dafny model of the back end of Ansible Semaphore: the task scheduler, the protocol between the
server and its remote runners, build version numbering, and the parts of the Bolt store and the SQL
layer that other code relies on. `dafny verify dfyconfig.toml` checks everything.

The code that changes state is modelled twice: as classes and methods with the loops of the source,
and as functions on values that those methods are proved equal to. The main results are lemmas about
the functions, over every run, every interleaving or every input.

| file | what it models |
|---|---|
| `TaskStatus`, `TaskRunners`, `StopRequests` | status vocabulary, `SetStatus`, one whole `run`, and stop requests wherever the task is |
| `Scheduler`, `SchedulerSafety`, `LockerPanic`, `TaskPool` | queue, indexes, limits, locker goroutine with its mailbox |
| `RunnerProtocol`, `AtMostOnce`, `BarredRunner`, `SecondStart`, `LogOrder`, `LogLoss`, `RunnerHistory`, `ServerStatus`, `JobPool` | runner and server as one step system; execution and log guarantees; the life of a job and of its status; the objects themselves |
| `RunnerAllocation` | the choice of a runner for a task |
| `Decimal`, `Bolt` | decimal keys, creation under sequence ids, limited listing |
| `BuildVersions`, `BuildNumbering`, `ExplicitIds`, `BuildDeletions` | the version splitter and counter, `AddTask` over the store, ids chosen by its callers, and deleted tasks |
| `IncomingVersions` | the walk over build tasks, and the autorun loop that creates them |
| `References` | in-use checks, deletions, the cascade of a template |
| `Migrations` | the migration driver with transforms that can stop between two writes |
| `Base64`, `Rekey` | access key secrets and the change of the encryption key |
| `QueryRewrite` | the rewriting of queries for Postgres |
| `Hub` | the websocket hub |
| `Collections`, `Options` | facts about sets and maps, and the optional value |

## What the results assume

- A select case, a locker message, one handler call, and the processing of one PUT or one answer are
  atomic steps. Data races between goroutines on shared maps are outside the model.
- The channel to the locker has no buffer: the first message of the mailbox is being handled, the
  others wait to be sent, and the pool's loop neither ticks nor registers while its own lock waits.
- While its goroutine runs, a job may set any status that is neither finished nor "starting", also
  over a status from the server. When the goroutine ends it sets a finished status, unless there is
  one already, and nothing after that. Output can be logged later still, since the job's pipes are
  read by goroutines of their own.
- A PUT may name any task: the handler does not check that the task is its sender's.
- The server's `Begin` step of a task (the start of its `run`) happens once per task, and a job never
  reports the status "starting"; a task's loaded template is the one it names.
- JSON, the authenticated cipher and the nonce source are parameters. `Rekey.Lawful` says what is
  assumed of them: what is written is read back, and JSON of a struct is not empty.
- In `Migrations` a version is its three numbers, and the order in which a Go map yields its entries
  is a parameter of each attempt.
- In `References` a column tag is the list of its words, so `vault_key_id` is `[Vault, Key, Id]`, and
  the reflection over struct fields is a table of columns in field order.

## Where a promised property does not hold

Each of these is proved as an exact condition, with a case in which the property fails.

- A lost PUT can make a runner start a job twice: exactly when it forgets a job that the server still
  offers, and the runner is not a one-off runner that exits next or is stuck with an ended job
  (`SecondStart.SecondStartIffHarmful`).
- A lost PUT can put the records the server accepts out of step: exactly when its runner does not exit
  next, and it carries records of a job still in the running jobs or leads to a second start
  (`LogLoss.OutOfStepIffRecordsDropped`).
- An answer can overwrite the status of a job that has ended with an unfinished one. If the server
  has released the task, a one-off runner stuck with such a job takes no job ever again
  (`BarredRunners.BarredTakesNothing`).
- The locker panics exactly if some tick started a task that does not fit once the messages before it
  are handled (`LockerPanic.PanicIffCareless`, `LockerPanic.SlowLockerPanics`).
- A forced stop holds exactly if it finds the task in the queue or the running list, or the task is
  stopped already, or it was rejected or dropped, or its run is over. It is lost before the task is
  registered, while the lock message travels, and between the release and the last save of the run
  (`StopRequests.ForcedStopHoldsIff`, `StopRequests.StopInTransitIsLost`). A missed one survives
  exactly until the task is next saved in another status (`StopRequests.MissedStopSurvivesIff`). A
  forced stop of a queued task does not keep its job from being executed
  (`StopRequests.QueuedStopAndJob`).
- Tasks that choose a runner before others are assigned can overload it: exactly if it is overbooked
  (`RunnerAllocation.OverloadIffOverbooked`, `RunnerAllocation.ConcurrentChoicesOverload`).
- An id chosen by the caller of `AddTask` spoils the build numbers exactly if it does not fit between
  the sequence and the template's tasks (`ExplicitIds.NumberingLastsIff`,
  `ExplicitIds.IdOneRepeatsVersion`).
- Deleting a task spoils the build numbers exactly if it is a build of the template other than the
  newest (`BuildDeletions.DeletionKeepsNumbersIff`). If it is the newest, its version is given again
  to the next build (`BuildDeletions.DeletedVersionIsGivenAgain`).
- A start version whose prefix and suffix overlap in the current version makes the slice panic
  (`BuildVersions.SlicePanicsIffOverlap`, `BuildVersions.SlicePanicExample`).
- The walk over build tasks, which callers name freely, never ends exactly if it runs into a circle
  (`IncomingVersions.WalkNeverEndsIff`, `IncomingVersions.CycleNeverEnds`).
- An inventory's become key can be deleted under it (`References.BecomeKeysStayLiveIff`,
  `References.BecomeKeyIsNotProtected`).
- A transform that stops part-way is not safe to run again (`Migrations.RetryIsHarmlessIff`,
  `Migrations.RetryLosesBranch`).
- A rewritten query is read as intended exactly if no mark or dollar sign stands before a digit
  (`QueryRewrite.PreparedMeaningKeptIff`).
- The hub can panic exactly if a registered connection has a closed channel (`Hub.CanPanicIff`). Only a
  connection registered a second time gets there (`Hub.Delivery`, `Hub.ReRegistrationPanics`), which
  `api/sockets/handler.go` never does.

## Model

| member | source | states |
|---|---|---|
| AtMostOnce.AtMostOnceExecution | services/runners/JobPool.go:199-305 | over every interleaving of ticks, PUTs, answers, status changes and job reports in which each lost PUT is harmless, no runner starts a job twice and no two runners start the same job |
| AtMostOnce.QueueIsDisjoint | services/runners/JobPool.go:451-491 | in those runs the ids queued at a runner are distinct, none is running and none was ever started |
| AtMostOnce.ForgottenIsNotOffered | api/runners/runners.go:50-98 | in those runs no later answer offers as new a job that the runner started and forgot |
| AtMostOnce.ApplyBodySettles | api/runners/runners.go:121-134 | after a PUT is applied no reported task is offered as new again, and no task goes back to that |
| AtMostOnce.NoLossIsHarmless | services/runners/JobPool.go:293-305 | a run in which every PUT is delivered meets the condition of the theorems above |
| SecondStart.RestartForgotten | services/runners/JobPool.go:199-305 | a job that a runner has forgotten and the server still offers is started again by some continuation without loss, with nothing logged or accepted for it in between, unless the runner is a one-off runner that exits next or is stuck with an ended job |
| SecondStart.HarmfulLossRestarts | services/runners/JobPool.go:245-305 | after a harmful loss some continuation without further loss starts the job a second time, under the same condition |
| SecondStart.SecondStartIffHarmful | services/runners/JobPool.go:245-305 | in every state reached without a harmful loss, losing the PUT in flight can lead to a second start if and only if it forgets a job the server still offers and, for a one-off runner, neither are all its jobs finished with none queued, nor has one of them ended with its status overwritten and its task released |
| BarredRunners.BarredStartsOnce | services/runners/JobPool.go:245-260 | whatever a one-off runner has lost, once it has exited, must exit next, or is stuck with an ended job, no job is started twice by it or any other runner in any later run without loss |
| BarredRunners.BarredTakesNothing | services/runners/JobPool.go:431-493 | such a runner takes no further job: over any later run without loss, what it has started and what it has queued stay together the same |
| LogOrder.StoredIsPrefixOfLogged | services/tasks/TaskPool.go:126-136 | in every run whose lost PUTs neither drop records of a job that reports again nor forget one that is still offered, the records stored for a job from a runner are at every point, in order and without duplicates, a prefix of what the job logged there |
| LogOrder.NothingLostWhileRunning | services/runners/JobPool.go:277-291 | while a job is in the running jobs, the records sent and the records pending make up exactly what it logged |
| LogOrder.ApplyBodyRecords | api/runners/runners.go:121-134 | a PUT appends the records of each task that is found, in order, and nothing for any other task or origin |
| LogLoss.DroppedRecordsBreakOrder | services/runners/JobPool.go:279-305 | after losing a PUT with records of a job that is still in the running jobs, one more record and one delivery put the stored records out of step, unless the runner exits next |
| LogLoss.HarmfulLossBreaksOrder | services/runners/JobPool.go:279-305 | a harmful loss after which the job can be started again can also put the accepted records out of step: what the job logs between its two starts never arrives |
| LogLoss.OutOfStepIffRecordsDropped | services/runners/JobPool.go:245-305 | in every state reached in order, losing the PUT in flight can put accepted records out of step if and only if its runner does not exit next, and it carries records of a job still in the running jobs and not released, or leads to a second start; a job counts while it is in the running jobs, also one that has ended, because its output may still be read and logged |
| RunnerHistories.ForgottenWasReported | services/runners/JobPool.go:277-291 | over every run, with any losses, a job that was started and is no longer among the running jobs was carried by an earlier PUT of its runner with a finished status |
| RunnerHistories.ReportKeepsUnfinished | services/runners/JobPool.go:277-291 | a PUT takes exactly the finished jobs off the running jobs and leaves the others their status, with nothing pending |
| RunnerHistories.ReportIsExact | services/runners/JobPool.go:277-285 | a PUT has one entry for each running job, with its status and all its pending records, and no other |
| RunnerHistories.AnswerSetsStatus | services/runners/JobPool.go:431-444 | a running job takes over the last status that an answer has for it, and keeps all else |
| RunnerHistories.AnswerAppends | services/runners/JobPool.go:446-491 | exactly the new jobs of an answer that are neither running nor queued join the end of the queue, once and in the order of the answer, and none for a one-off runner that has any job |
| RunnerHistories.TickTakesHead | services/runners/JobPool.go:199-242 | a tick takes the head of the queue, drops it if it has failed and otherwise starts it with no status and nothing pending; no other job changes |
| RunnerHistories.ExitsIff | services/runners/JobPool.go:256-258 | a runner exits exactly if it is a one-off runner, has jobs, and all are finished |
| ServerStatuses.StoppedStays | services/tasks/TaskRunner.go:60-82 | over every run of the protocol a task that is stopped at the server stays stopped, whatever runners report |
| ServerStatuses.BodyStatus | api/runners/runners.go:121-134 | a PUT gives each queued or listed task the statuses it reports for it, one after the other by the transition rule, and leaves every other task as it was |
| ServerStatuses.AnswerIsExact | api/runners/runners.go:48-99 | an answer offers exactly the runner's listed starting tasks and names exactly its other listed tasks with their statuses |
| JobPools.JobPool.ExistsInQueue | services/runners/JobPool.go:123-131 | true exactly if some queued job has the id |
| JobPools.JobPool.HasRunningJobs | services/runners/JobPool.go:133-141 | true exactly if some running job is not finished |
| JobPools.JobPool.LogRecord | services/runners/JobPool.go:119-121 | the record is appended to that job's pending records, and no other job changes |
| JobPools.JobPool.QueueTick | services/runners/JobPool.go:199-242 | the dequeue operation of the protocol model: a failed head is dropped, any other head starts as a blank running job |
| JobPools.JobPool.SendProgress | services/runners/JobPool.go:277-291 | the body reports every running job once with its status and pending records; finished jobs are forgotten, the others have nothing pending |
| JobPools.JobPool.CheckNewJobs | services/runners/JobPool.go:431-493 | statuses of known jobs are overwritten, and new jobs are queued once unless running, queued, or the one-off rule applies |
| RunnerApi.TaskBoard.UpdateRunner | api/runners/runners.go:121-134 | the effect of a PUT on tasks and logger channel in the protocol model |
| RunnerApi.TaskBoard.GetRunner | api/runners/runners.go:48-99 | the new jobs are exactly the runner's listed starting tasks, the current jobs exactly its other listed tasks with their statuses |
| SchedulerSafety.LimitsHoldInEveryRun | services/tasks/TaskPool.go:94-175 | in every state of every run the global cap, each project's cap and one task per template hold, and the running tasks are the disjoint union of the non-empty project buckets |
| SchedulerSafety.TasksAreConserved | services/tasks/TaskPool.go:94-176 | every registered task, and no other, is in exactly one of queue, transit, running, dropped, released |
| SchedulerSafety.BoundedWait | services/tasks/TaskPool.go:149-175 | a task at position k is examined by the (k+1)-th following tick and by none before it, whatever happens meanwhile, and is dropped, rotated or started by it as its status and the limits say |
| SchedulerSafety.InsertKeepsLimits | services/tasks/TaskPool.go:98-109 | a lock that passes the re-check keeps both caps and one task per template |
| SchedulerSafety.BlocksIff | services/tasks/TaskPool.go:180-204 | in a safe pool a task is blocked exactly if the caps or the template exclusion would not hold with it |
| SchedulerSafety.AdmissionIsExact | services/tasks/TaskPool.go:149-175 | in every run a tick drops the head of the queue if it has failed, sends its lock message if it fits, and otherwise moves it to the end, and does nothing else |
| SchedulerSafety.RemoveKeepsIndexes | services/tasks/TaskPool.go:113-120 | an unlock keeps the two indexes in agreement, with no empty bucket left |
| LockerPanic.BlocksMonotone | services/tasks/TaskPool.go:180-204 | what blocks a task under fewer running tasks blocks it under more |
| LockerPanic.PromptLockerNeverPanics | services/tasks/TaskPool.go:98-101 | if every lock message is handled before the next tick, the re-check never panics, whichever tasks finish in between |
| LockerPanic.StepOutlook | services/tasks/TaskPool.go:94-176 | each step keeps the locker out of trouble exactly if it is careful, and no step gets it out of trouble again |
| LockerPanic.CarefulNeverPanics | services/tasks/TaskPool.go:98-170 | the locker never panics if every tick starts only a task that fits once the messages before it, unlocks included, are handled |
| LockerPanic.PanicIffCareless | services/tasks/TaskPool.go:98-170 | for every run, with any messages on their way: the locker has panicked or will, working alone from there, if and only if some tick of the run started a task that did not fit |
| LockerPanic.SlowLockerPanics | services/tasks/TaskPool.go:98-170 | two tasks of one template and two ticks before the locker works: it panics |
| TaskPools.TaskPool.BlocksTask | services/tasks/TaskPool.go:180-204 | true exactly if the global cap, a running task of the same project and template, or the project's cap blocks the task |
| TaskPools.TaskPool.GetTask | services/tasks/TaskPool.go:63-82 | finds a queued or running task with the id, queued first, and fails only if there is none |
| TaskPools.TaskPool.QueueTick | services/tasks/TaskPool.go:149-175 | the tick of the scheduler model |
| TaskPools.TaskPool.LockTask | services/tasks/TaskPool.go:98-110 | panics exactly if the task is blocked, and otherwise enters it into both indexes |
| TaskPools.TaskPool.UnlockTask | services/tasks/TaskPool.go:113-120 | removes the task from both indexes and deletes an emptied bucket |
| TaskRunners.StoppedForEver | services/tasks/TaskRunner.go:60-82 | a stopped task is stopped after every later sequence of reports |
| TaskRunners.OnlyStoppedAbsorbs | services/tasks/TaskRunner.go:65-82 | a status can be left by no report exactly if it is stopped; success and error can be left |
| TaskRunners.StartMeansRunning | services/tasks/TaskRunner.go:84-89 | the start time is set exactly if it was before or the task entered running at some point since |
| TaskRunners.RowFollowsTask | services/tasks/TaskRunner.go:102-123 | while every save succeeds the stored row equals the task in memory |
| TaskRunners.UnsavedKeepsRow | services/tasks/TaskRunner.go:102-123 | updates the store does not take leave the row as it was |
| TaskRunners.EndMeansEnded | services/tasks/TaskRunner.go:152-161 | the end time is set exactly if it was before or the run has ended since |
| StopRequests.ForcedStopHoldsIff | services/tasks/TaskPool.go:218-240 | after every run, a forced stop is in force in every later interleaving, in memory while there is a task runner and in the row, if and only if the pool finds the task, or it is stopped already, or it was rejected or dropped or its run is over; otherwise some continuation leaves the row for good without the stop |
| StopRequests.RowIsLastSaved | services/tasks/TaskRunner.go:84-123 | between stop requests the stored row is the task as it was when it was last saved, by its registration, a status change or the end of its run |
| StopRequests.MissedStopSurvivesIff | services/tasks/TaskPool.go:220-229 | a request that does not find the task marks only the row; the mark survives exactly until the task is next saved in another status |
| StopRequests.StopInTransitIsLost | services/tasks/TaskPool.go:149-175 | a waiting task that is force-stopped between queue and running list starts as if nothing had been asked |
| StopRequests.QueuedStopAndJob | services/tasks/TaskRunner.go:163-206 | a stopped queued task is still dispatched and ends stopped, and its job is executed exactly if the stop was forced or the task was stopped before |
| StopRequests.RunInPool | services/tasks/TaskRunner.go:163-216 | the events of a run in the pool lead to the final status of the run model, for every list of reports |
| StopRequests.NoRunMeansFailed | services/tasks/TaskPool.go:156-161 | a task leaves the pool without a run only if it has failed, and its end time is set exactly once its run is over |
| TaskRunners.RunEnds | services/tasks/TaskRunner.go:163-216 | a run ends stopped exactly if the task was stopping or stopped at its start or was stopped during it, and failed exactly if no stop came and the job returned an error or reported one last |
| TaskRunners.RunEndsUnfinished | services/tasks/TaskRunner.go:163-216 | for every list of reports, split before the waiting and running ones at its end: a run ends unfinished exactly if no stop came, the job returned without an error, and the report before the split is stopping, or no running follows it and the last report of all is not finished |
| TaskRunners.SoftStopCanStick | services/tasks/TaskRunner.go:206-216 | a soft stop answered by a job that returns without an error leaves the task stopping |
| TaskRunners.TaskRunner.SetStatus | services/tasks/TaskRunner.go:60-91 | status, start time and row after a report, as the status rule of the model says |
| TaskRunners.TaskRunner.Run | services/tasks/TaskRunner.go:146-216 | the final status for every list of reports and outcome of the job, whether the job was executed, the end time set, and the row in step |
| RunnerAllocation.SerialRunsStayWithinCapacity | services/tasks/RemoteJob.go:102-121 | when choosing and assigning is one step no runner ever has more tasks than it allows |
| RunnerAllocation.AssignmentFitsIff | services/tasks/RemoteJob.go:102-121 | an assignment keeps every runner within its capacity exactly if the chosen one still has room when it is made |
| RunnerAllocation.OverloadIffOverbooked | services/tasks/RemoteJob.go:102-121 | from a state within capacity, carrying out pending assignments can overload a runner if and only if the tasks of some runner and those that have chosen it exceed its limit together |
| RunnerAllocation.ConcurrentChoicesOverload | services/tasks/RemoteJob.go:102-121 | from nothing, two tasks that choose before either is assigned overload a runner that allows one |
| RunnerAllocation.NumberOfRunningTasks | services/tasks/TaskPool.go:47-54 | the number of running tasks assigned to the runner |
| RunnerAllocation.ChooseRunner | services/tasks/RemoteJob.go:102-113 | the first runner in list order with spare capacity, and none exactly if no runner has any |
| BoltKeys.KeyOrder | db/bolt/BoltDb.go:50-52 | for ids from zero up to ten digits, byte order of keys is the order of ids and keys are unique |
| BoltKeys.KeyReads | db/bolt/BoltDb.go:50-52 | a key of up to ten digits is ten digits that read as the id, and a negative id's sign takes one of the places |
| Bolt.InvertedListsNewestFirst | db/bolt/BoltDb.go:498-509 | objects created under an inverted sequence list in reverse order of creation |
| Bolt.OrdinaryListsOldestFirst | db/bolt/BoltDb.go:498-509 | objects created under an ordinary sequence list in order of creation |
| Bolt.NewestFirstAfterDeletes | db/bolt/BoltDb.go:382-509 | over any sequence of creations and deletions an inverted bucket holds exactly the creations whose key was not deleted since, and lists them newest first |
| Bolt.SortedAfterDeletes | db/bolt/BoltDb.go:382-509 | such a bucket is always in key order |
| Bolt.PutSorted | db/bolt/BoltDb.go:463-549 | putting a value keeps the bucket in key order |
| Bolt.GetPut | db/bolt/BoltDb.go:408-455 | after a put the key has the new value and every other key what it had |
| Bolt.GetDelete | db/bolt/BoltDb.go:382-406 | after a delete the key is gone and every other key has what it had |
| Bolt.Limit | db/bolt/BoltDb.go:342-344 | the limited listing is the prefix of length min(count+1, total) |
| Bolt.UnmarshalObjects | db/bolt/BoltDb.go:307-345 | the loop returns the limited prefix of all matching objects after the offset, and fails exactly if it meets an entry it cannot decode before it stops |
| BuildVersions.SplitIsGreedy | services/tasks/TaskPool.go:249-250 | the split is a match of the pattern with the longest prefix of all, and exists whenever one does |
| BuildVersions.SplitCutsLastRun | services/tasks/TaskPool.go:249-260 | without newlines the split is the unique cut around the last maximal run of digits, and exists exactly if there is a digit |
| BuildVersions.Resplit | services/tasks/TaskPool.go:249-260 | a version with another number between the same prefix and suffix splits there again |
| BuildVersions.StepTakesMaximum | services/tasks/TaskPool.go:277-299 | from a version that carries a number in the start version's frame, the next one carries the larger of the start number and that number plus one, and it is read back from the printed version |
| BuildVersions.FramedVersion | services/tasks/TaskPool.go:277-299 | what follows a version in the frame in every case: text that is no number restarts, a start number beyond 64 bits panics, and the largest number is followed by the smallest |
| BuildVersions.NoNumberToCount | services/tasks/TaskPool.go:249-254 | a start version without a number is the version of every build |
| BuildVersions.OtherVersionsRestart | services/tasks/TaskPool.go:277-285 | any other current version gives the start version again, unless the slice panics |
| BuildVersions.SlicePanicsIffOverlap | services/tasks/TaskPool.go:277-282 | the slice panics exactly if prefix and suffix both match and overlap in the current version |
| BuildVersions.SlicePanicExample | services/tasks/TaskPool.go:277-282 | start version a1a and current version a |
| Decimal.ItoaIsShortest | services/tasks/TaskPool.go:299 | a printed number has no zero in front |
| BuildVersions.AtoiPrint | services/tasks/TaskPool.go:282-299 | a printed number in range, negative ones included, is read back |
| BuildVersions.AtoiReads | services/tasks/TaskPool.go:282-289 | digits after at most one sign are read as their number within 64 bits |
| BuildVersions.AtoiReadsNothingElse | services/tasks/TaskPool.go:282-285 | nothing but digits after at most one sign is read |
| BuildNumbering.BuildsAreNumbered | services/tasks/TaskPool.go:302-335 | over any sequence of calls for any templates in which no caller chooses an id and no task is deleted, build k of a template has the start version for k = 0 and the start number plus k in its frame after that, so all its versions differ |
| BuildDeletions.DeletionKeepsNumbersIff | db/bolt/task.go:113-137 | from every state with numbered builds, deleting a task leaves the listed builds numbered through all later calls if and only if it is not one of the template's builds, or the newest of them |
| BuildDeletions.ChangesKeepNumbers | db/bolt/task.go:113-137 | over any interleaving of calls whose chosen ids fit and deletions of that kind the builds that are left stay numbered |
| BuildDeletions.DeletedVersionIsGivenAgain | api/projects/tasks.go:150-180 | after the newest build is deleted the next build of the template gets its version |
| ExplicitIds.NumberingLastsIff | db/bolt/BoltDb.go:489-509 | from every state with numbered builds, a task with a chosen id leaves them numbered through all later calls if and only if the id fits: its key lies between the sequence's next key and the template's tasks, or, for another template's task, is not that of one of them but the newest |
| ExplicitIds.FittingCallsKeep | services/tasks/TaskPool.go:302-335 | whatever ids the callers choose, the builds stay numbered while every chosen id fits |
| ExplicitIds.VersionRepeats | services/tasks/TaskPool.go:318-330 | while the sequence's keys come after that of the listed newest build, every further build gets one and the same version |
| ExplicitIds.IdOneRepeatsVersion | db/bolt/BoltDb.go:489-509 | a first build given id 1: all later builds share one version |
| BuildNumbering.HistoryIsNumbered | services/tasks/TaskPool.go:318-332 | the numbering over the tasks created so far without chosen ids, which the store holds under inverted ids |
| BuildNumbering.NewestBuildIsFirst | db/bolt/task.go:31-46 | the first task listed for a template is the one created last |
| BuildNumbering.NextNumber | services/tasks/TaskPool.go:248-300 | version k is followed by version k + 1 |
| BuildNumbering.NewTaskCases | services/tasks/TaskPool.go:308-330 | nothing is created without the template, no version for a template that is not a build, and the start version for a build that follows none |
| ExplicitIds.OnlyBuildsHaveVersions | services/tasks/TaskPool.go:302-335 | over any calls with any ids every task created is of an existing template and has a version only if that is a build |
| BuildNumbering.TaskService.GetTemplateTasks | db/bolt/task.go:31-46 | the limited listing of a template's tasks |
| BuildNumbering.TaskService.Add | services/tasks/TaskPool.go:302-335 | creates the task with the version of the model, under the caller's id if there is one, or nothing exactly if the template is missing or computing the version panics |
| IncomingVersions.IncomingVersionIsNearestBuild | db/Task.go:49-70 | the answer is the version of the nearest ancestor whose template is a build, and nil if the chain ends or breaks before one |
| IncomingVersions.WalkEnds | db/Task.go:49-70 | if build tasks are earlier tasks, a task at position i needs at most i + 1 calls |
| IncomingVersions.EndedWalkIsNearestBuild | db/Task.go:49-70 | in every store, however the recursion ends, the answer is the version of the nearest ancestor whose template is a build, and nil if there is none |
| IncomingVersions.WalkNeverEndsIff | db/Task.go:49-70 | the recursion never ends if and only if the task lies in a set of tasks each of which goes on to another of the set, which is so exactly if it has not ended after as many calls as there are tasks |
| IncomingVersions.CycleNeverEnds | db/Task.go:49-70 | two tasks that name each other: no number of calls ends the walk |
| IncomingVersions.AddAutorunTasks | services/tasks/TaskRunner.go:227-237 | the tasks the loop creates, with those skipped that cannot be added |
| IncomingVersions.AutorunLoopKeepsBuildsEarlier | services/tasks/TaskRunner.go:227-237 | the loop keeps every walk finite and each task it creates names the finished one |
| IncomingVersions.AutorunCreates | services/tasks/TaskRunner.go:227-237 | exactly the templates whose task can be added get one, in order, in the finished task's project, with that task as build task and no version |
| IncomingVersions.FindIsExact | db/bolt/task.go:90-103 | under distinct ids a task is found exactly by its id within its project |
| References.TemplateObjectColumns | db/bolt/BoltDb.go:175-192 | the column read for inventories and repositories in a template: the first with the suffix |
| References.TemplateEnvironmentColumn | db/bolt/BoltDb.go:175-192 | the column read for environments in a template |
| References.TemplateKeyColumn | db/bolt/BoltDb.go:175-192 | the column read for access keys in a template: the vault key |
| References.TemplateTemplateColumn | db/bolt/BoltDb.go:175-192 | the column read for templates in a template: the build template |
| References.OwnerKeyColumns | db/bolt/BoltDb.go:175-192 | the column read for access keys in inventories and repositories: the ssh key, so never an inventory's become key |
| References.KeyInUse | db/bolt/BoltDb.go:637-701 | an access key counts as in use exactly if a template's vault key, an inventory's ssh key or a repository's ssh key names it |
| References.TemplateInUse | db/bolt/template.go:77-86 | a template counts as in use exactly if another template builds on it |
| References.InventoryInUse | db/bolt/BoltDb.go:637-701 | an inventory counts as in use exactly if a template names it |
| References.RepositoryInUse | db/bolt/BoltDb.go:637-701 | a repository counts as in use exactly if a template names it |
| References.EnvironmentInUse | db/bolt/BoltDb.go:637-701 | an environment counts as in use exactly if a template names it |
| References.DeletionsKeepReferences | db/bolt/BoltDb.go:382-406 | every sequence of deletions keeps the protected references live |
| References.BecomeKeysStayLiveIff | db/bolt/BoltDb.go:637-684 | a successful deletion keeps become keys live exactly if it is not of an access key some inventory becomes another user with |
| References.BecomeKeyIsNotProtected | db/bolt/BoltDb.go:637-684 | a store in which a deletion leaves a dangling become key |
| References.TemplateDeletionIsExact | db/bolt/template.go:77-111 | fails exactly if another template builds on it or the project has no templates; otherwise removes that template, its tasks with their outputs and its schedules, and leaves all else |
| References.InventoryDeletionIsExact | db/bolt/inventory.go:27-29 | fails exactly if a template names it or the project has no inventories; otherwise removes that inventory and leaves all else |
| References.RepositoryDeletionIsExact | db/bolt/BoltDb.go:382-406 | the same for repositories |
| References.EnvironmentDeletionIsExact | db/bolt/environment.go:40-42 | the same for environments |
| References.AccessKeyDeletionIsExact | db/bolt/BoltDb.go:382-406 | the same for access keys, with the vault keys of templates and the ssh keys of inventories and repositories |
| References.BoltStore.IsInUse | db/bolt/BoltDb.go:687-701 | true exactly if some object of the project refers to the given one |
| References.BoltStore.AnyRow | db/bolt/BoltDb.go:687-701 | true exactly if some object of one bucket refers to the given one |
| References.BoltStore.Remove | db/bolt/BoltDb.go:382-406 | refusal, missing bucket or removal as the model says, and no change on failure |
| References.BoltStore.WithoutTasks | db/bolt/template.go:88-97 | the loop deletes all tasks of the template with their outputs |
| References.BoltStore.WithoutSchedules | db/bolt/template.go:99-108 | the loop deletes all schedules of the template |
| References.BoltStore.RemoveTemplate | db/bolt/template.go:77-117 | the cascade in one transaction, which changes nothing on failure |
| Migrations.RecordedIsAlwaysPrefix | db/Migration.go:67-93 | however calls end and however often they are made, the recorded versions are a prefix of the list |
| Migrations.SuccessIsFinal | db/Migration.go:67-93 | after a call that succeeded no later call changes anything, and it succeeds exactly if the record can be read |
| Migrations.EachTransformRunsOnce | db/Migration.go:67-93 | if no transform stops part-way, every object is converted at most once over any number of calls, and exactly once when a call has succeeded |
| Migrations.FinishedRewrite | db/bolt/migration_2_8_28.go:28-43 | a transform that finishes converts every object of its kind once and no other, in whatever order |
| Migrations.RecordedMeansConverted | db/bolt/migration.go:36-65 | however calls end and however often they are made, every object that a recorded version is about is in the converted form |
| Migrations.ApplyRecords | db/bolt/migration.go:36-65 | an attempt succeeds exactly if all its objects can be converted, all writes succeed and so does the record, and exactly then records its version |
| Migrations.KindsOfVersions | db/bolt/migration.go:36-44 | which three versions rewrite objects, and which objects |
| Migrations.ConvertedRepository | db/bolt/migration_2_8_28.go:28-43 | the URL is cut at its first '#', and what follows up to the next one is the branch, or "master" |
| Migrations.ConvertedTemplateAndUser | db/bolt/migration_2_8_91.go:24-35 | a template's alias becomes its name, an admin an owner and any other user a manager; the old field is gone and no other changes |
| Migrations.ConvertTwice | db/bolt/migration_2_8_28.go:30-37 | converting an object twice equals converting it once exactly if its branch, name or role would survive |
| Migrations.RetryIsHarmlessIff | db/bolt/migration.go:36-65 | running a stopped transform again gives the intended data exactly if every object written before the stop would survive |
| Migrations.RetryLosesBranch | db/bolt/migration_2_8_28.go:28-43 | a repository whose URL carries a branch, written before the stop |
| Migrations.Split | db/bolt/migration_2_8_28.go:32-35 | at least one piece, more than one exactly if there is a '#', and no '#' in any piece |
| Migrations.MigrationsAscend | db/Migration.go:20-65 | the list ascends, so no version is listed twice, and contains each of the three transforms |
| Migrations.RewriteAll | db/bolt/migration_2_8_28.go:28-43 | the loop over the objects, up to a failing write or a panic |
| Migrations.Database.ApplyMigration | db/bolt/migration.go:36-65 | transform, then record; a failure in between leaves what was written |
| Migrations.Database.Migrate | db/Migration.go:67-93 | the whole driver for every way its attempts can end |
| Base64.DecodeEncode | db/AccessKey.go:223-259 | section 4 of RFC 4648: every byte string is read back from its encoding |
| Base64.EncodeHasNoBreak | db/AccessKey.go:292-293 | an encoding contains no line break, and is empty only for no bytes |
| Base64.EncodesThreeBytes | db/AccessKey.go:223-259 | section 4 of RFC 4648: three bytes are a number of 24 bits whose groups of six bits are the letters |
| Base64.EncodesRest | db/AccessKey.go:223-259 | one or two bytes at the end are filled up with zero bits and '=' |
| Base64.LettersInOrder | db/AccessKey.go:223-259 | table 1 of RFC 4648: the alphabet in its order, and nothing else is read as a letter |
| Base64.DecodesIff | db/AccessKey.go:309-313 | exactly whole groups of four letters, the last of which may be padded, are read, whatever line breaks stand between |
| Base64.BreaksAreSkipped | db/AccessKey.go:309-313 | line breaks and nothing else are skipped, wherever they stand |
| Base64.PaddedGroupRead | db/AccessKey.go:309-313 | the bits that fill up a padded group are ignored |
| Rekey.DeserializeSerialized | db/AccessKey.go:206-261 | a secret that was serialized is read back as it was, under the same encryption key |
| Rekey.SerializedIsNotLegacy | db/AccessKey.go:292-301 | a serialized secret never ends in a newline, so it is never taken for an unencrypted key |
| Rekey.UnencryptedMeaning | db/AccessKey.go:285-303 | a secret that ends in a newline is that SSH private key and nothing else, and an error for any other kind; no secret stands for nothing |
| Rekey.PlainMeaning | db/AccessKey.go:309-321 | without an encryption key the base64 of a secret is its JSON |
| Rekey.SealedMeaning | db/AccessKey.go:323-347 | with one it is the twelve bytes of the nonce and the sealed JSON; an unusable key, short data or a failing cipher is an error |
| Rekey.StoredForm | db/AccessKey.go:206-261 | what is stored for each kind, and exactly when a key cannot be stored |
| Rekey.RekeyPreservesMeaning | db/bolt/access_key.go:64-102 | after a successful change every key of every project decodes under the new key to what it decoded to under the old one, unencrypted private keys included, and keeps id and name |
| Rekey.RekeyKeepsWellformed | db/bolt/access_key.go:93-96 | keys stay in their project's bucket under their own ids |
| Rekey.AccessKey.SerializeSecret | db/AccessKey.go:206-261 | the new secret, or an error with the key unchanged, for every type and every failing step |
| Rekey.AccessKey.UnmarshalAppropriateField | db/AccessKey.go:263-279 | the field of the key's type is set if the bytes can be read |
| Rekey.AccessKey.DeserializeSecret | db/AccessKey.go:285-347 | the decoded field, the legacy branch, or an error with the key unchanged |
| Rekey.UpdateObject | db/bolt/BoltDb.go:408-455 | replaces the object with the same id, and fails exactly if there is none |
| Rekey.RekeyBucket | db/bolt/access_key.go:83-97 | all keys of one project changed, or failure exactly if one of them cannot be |
| Rekey.BoltStore.RekeyAccessKeys | db/bolt/access_key.go:64-102 | all keys of all listed projects change in one transaction, or nothing does exactly if one of them cannot be |
| QueryRewrite.PrepareQuery | db/sql/SqlDb.go:74-97 | the loop computes the rewritten query; other dialects keep the query |
| QueryRewrite.EachCharacter | db/sql/SqlDb.go:80-90 | the i-th mark becomes $i, a backquote a double quote, and every other character stays in its place |
| QueryRewrite.PreparingTwice | db/sql/SqlDb.go:133-135 | applying it twice equals applying it once; it changes nothing exactly if there is no mark and no backquote |
| QueryRewrite.RecoverableIff | db/sql/SqlDb.go:74-93 | a reader that turns numbered parameters and double quotes back gives the query again exactly if it had no dollar sign and no double quote |
| QueryRewrite.DistinctQueriesStayDistinct | db/sql/SqlDb.go:74-93 | two such queries with the same rewriting are equal |
| QueryRewrite.CollidingQueries | db/sql/SqlDb.go:74-93 | without the condition two queries can collide |
| QueryRewrite.PreparedMeaningKeptIff | db/sql/SqlDb.go:80-90 | a reader that takes a dollar sign with all following digits as a parameter reads the intended arguments exactly if no mark or dollar sign stands right before a digit |
| Hub.Delivery | api/sockets/pool.go:32-57 | with each connection registered once, what it has taken plus what is buffered is, in order, every message addressed to it since registration, up to its unregistration or the first message that found its channel full; the hub never panics |
| Hub.Registration | api/sockets/pool.go:35-41 | in those runs exactly the registered connections have open channels, so none is closed twice or written after closing |
| Hub.OnlyRecipients | api/sockets/pool.go:42-54 | in those runs everything a connection has got was a broadcast for its user or for everyone |
| Hub.NoneIsMissed | api/sockets/pool.go:42-54 | in those runs every broadcast for its user or for everyone that comes while a connection is open and has room is got there, after all it had got before |
| Hub.GetsMore | api/sockets/pool.go:35-54 | what one event adds to what a connection has got, and exactly which events close it |
| Hub.CanPanicIff | api/sockets/pool.go:35-52 | after any run the hub can panic without a further registration if and only if some registered connection has a closed channel |
| Hub.ReRegistrationPanics | api/sockets/pool.go:35-52 | a connection registered again after its unregistration makes the next message for it panic |
| Hub.HubLoop.OnRegister | api/sockets/pool.go:35-36 | the connection is registered, with an empty open channel if it is new |
| Hub.HubLoop.OnUnregister | api/sockets/pool.go:37-41 | a registered connection is removed and its channel closed; closing a closed one panics |
| Hub.HubLoop.OnBroadcast | api/sockets/pool.go:42-54 | every connection the message is for gets it, or is closed and removed if its channel is full |

## Left out

- HTTP, routing, cookies and JSON plumbing: a PUT or an answer is a message of the model.
- The access keys and other job data in the answer to a runner: they do not decide which jobs start.
- Kill signals and local job execution: a job is opaque, as far as the assumptions above leave it open.
- A restart of the server, which empties its queue and its lists of running tasks while the rows stay as they are.
- A stop request that fails because the details of a missed task cannot be loaded: it changes nothing.
- The bound of the server's logger channel and failing `CreateTaskOutput` calls: every record taken from the channel is stored.
- Runner webhooks and the wait loop of `RemoteJob.Run`: the webhook is the gap between choosing and assigning, and the wait ends with a finished status.
- Runner restart and re-registration: a runner that ends is not started again under its id.
- A PUT that the server processes after the client has given it up, while the runner already goes on: a lost PUT is never processed.
- TaskRunners.TaskRunner.SetStatus: a save that fails ends the process in the source; the model lets the task go on with a row that is out of step.
- The version a caller sends for a task of a template that is not a build: such tasks have no version in the model.
- Wall-clock times: start and end are set or not set; records carry a number as time.
- `sortObjects`: with inverted order its comparator is not a strict order, so nothing is claimed about sorted listings.
- String keys, invalid UTF-8 in queries and secrets, and the migration that panics on a missing URL beyond its being a panic.
- Encryption, random numbers and JSON themselves: parameters with round-trip assumptions.
- Other SQL code, alerts, events, websocket pumps, git clients, the web front end, the command line and deployment scripts.
- Migrations.EachTransformRunsOnce: the transforms of `db/bolt` only; the SQL scripts of the same versions are not modelled.
- Bolt.GetPut: buckets are ordered lists of entries; pages, cursors under modification and file locking are not modelled.
- TaskRunners.TaskRunner.Run: the job's reports are a given list, and creation of events and mail is not modelled; the autorun loop is `IncomingVersions.AddAutorunTasks`.
- References.BoltStore.Remove: objects that cannot be decoded and views, schedules of other projects and runners are not modelled.
