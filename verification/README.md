# Arco: models and proofs

Arco is a desktop front end for the borg backup program. This project models the parts of it whose
behaviour is decided by intricate code, and proves what that code promises, or exactly when it keeps
the promise.

- **Operation queues and their scheduler** (`RepositoryQueue.dfy`, `QueueManager.dfy`,
  `QueueManagerClass.dfy`). Each repository has a queue of backups, prunes, deletions and so on; a
  scheduler starts at most one operation per repository and a limited number of heavy ones over all, and
  keeps a state machine for what each repository shows. The queue and the scheduler are classes with maps
  and lists as fields, every method proved equal to a function on values.
- **What whole runs of the scheduler keep** (`RunningOperations.dfy`, `SchedulerRules.dfy`, `WakeUp.dfy`,
  `Scenarios.dfy`). The operations whose goroutines run are part of the state, apart from the active slots: which of them are
  running, and when these are exactly the active ones. The rules by kind of operation and by state: what
  starts, waits, is refused or thrown away, and what a repository shows. Then the wake-up of waiting work:
  exactly when a call leaves an operation waiting that could start, in terms of the state before the call.
  Each failure is reached by a run from the initial state.
- **Lock sections in every interleaving** (`StartRace.dfy`, `SoloRuns.dfy`, `SectionClaims.dfy`,
  `SerialStarts.dfy`, `RunningLimit.dfy`, `RaceRuns.dfy`, `LimitWitnesses.dfy`, `RaceWitnesses.dfy`).
  Additions, starts, removals, cancellations and completions of several goroutines, section by section:
  what each call comes to when nothing comes between its sections, bounds and invariants over every
  interleaving, and the runs in which something is lost.
- **Eager loading** (`EagerLoading.dfy`, `EdgeQueries.dfy`). One batched query is scattered back onto
  many parent objects, through maps, for the many-to-many, one-to-many, one-to-one and many-to-one
  edges; this agrees with looking up each parent's neighbours alone.
- **Rows and columns** (`RowCodec.dfy`, `ArchiveCodec.dfy`). Writing an entity and reading it back, for
  any selection of columns.
- **Bulk creation** (`BulkCreate.dfy`). A chain of mutators, each inside an onion of hooks, with a single
  write in the middle; the objects (builders, mutations, tables of nodes and specs) are on the heap.
- **Queries and their copies** (`QueryAnswers.dfy`, `QueryClone.dfy`). The rows a query returns, what each
  builder method does to them, and a query with the tree of queries for its edges, as objects.
- **Replacing the application bundle on macOS** (`Paths.dfy`, `Extraction.dfy`, `Disk.dfy`,
  `BundleUpdate.dfy`). Which archives can be extracted and to what; file-system steps any of which can
  fail or be the last one before the process stops, over any number of starts; and what a steady disk
  ends with.
- **borg's output** (`BorgOutput.dfy`, `BorgStatus.dfy`). The parser for prune messages, the two select
  loops over stderr, and the meaning of exit codes.
- **The generator of union types** (`AdtGenerator.dfy`). What it emits is syntax with a meaning.

`Prelude.dfy` has a few facts about sequences that several modules use.

## Where the code does not do what one would expect

Each of these is proved, with the condition under which it happens.

- Ending an operation in the error state while more work is queued throws away the next operation and
  wakes up no other repository (`ErrorCompletionStalls`). Cancelling the waiting head of a queue, or
  clearing an error, does not look at the queue again (`CancelledHeadStalls`, `ClearedErrorStalls`).
- A heavy operation that ends well wakes the other repositories only as far as the first one that refuses
  its next operation, such as one in the error state with work queued: that operation is thrown away, the
  completion reports failure, and the repositories after it are left waiting (`RefusalAbortsSweep`;
  `CompletionOutcome` and `CleanInEveryOrder` say exactly when).
- Cancelling a mount ends it at once although its `borg mount` goes on. The repository then shows itself
  as mounted with nothing active, or its next operation runs beside the mount (`CancelledMountRunsOn`).
  When calls do not overlap this is the only way in which something runs that is not active
  (`RunningIsActive`).
- `processQueue`, `StartOperation` and `CompleteOperation` give up their locks between looking and acting.
  - The entries by which heavy operations are counted can exceed the limit by as many goroutines as share
    the window between check and entry (`HeavyIsBounded`), and for every limit they can reach that bound
    (`LimitIsOverrun`).
  - What runs is not bounded by the limit at all, even with one goroutine at a time in the window
    (`RunningIsUnbounded`): the entry of a running operation can be deleted. Exactly which sections leave an
    operation without an entry is proved (`SurplusGrows`), and that no more run than there are entries and
    such steps (`RunningIsBounded`).
  - The loser of two repositories that compete for the last place has its operation removed, although it
    had only to wait (`LoserIsDropped`).
  - Of two goroutines on one repository one can remove the operation the other has launched
    (`RunningOperationIsLost`). The repository then shows itself as working although nothing runs, refuses
    every start, and stays so until an addition finds the limit reached (`StuckUntilShown`, `StuckIsShown`).
  - A request that is processed while a completion stands between emptying the active slot and setting the
    state is started, refused and removed, even if it alone is inside `processQueue` (`RequestIsLost`).
  - As long as each repository has one goroutine at work, completions and cancellations included, what
    runs is always what is active (`SerialRunsAreSafe`), nothing that runs loses its entry, so that what
    runs is bounded like the entries (`SerialLosesNoEntry`, `SerialRunningIsBounded`), a start fails only
    when another repository has taken the last place meanwhile or the repository is in an error state
    (`SerialStartFails`), and operations are let go only by their completion, a cancellation or such a
    failed start (`SerialLosesNothingElse`).
- Starting an operation over an active one loses the active one; its table entry stays
  (`ActivatedOverActive`).
- `expireOldOperations` in queue_manager.go has no caller, so queued operations never expire in practice;
  `RepositoryQueue.ExpireOldOperations` is modelled and proved all the same.
- Eager loading leaves its predicate in the query object it was given, so using one object for two loads
  loses rows (`ReusedQuery`).
- In a bulk save the check looks at the mutation the builder holds, not at the one its hooks hand on, and
  an incomplete row can be written (`WrittenIsComplete`, `BlankIsWritten`); single saves have no such gap
  (`SingleWriteIsComplete`). A hook that fails after its successor cannot undo the write
  (`SpoiledButWritten`).
- If the second rename of a bundle update fails or is never reached, the application is gone: its only
  copy is the backup (`ExtractAppBundle`). On a steady disk that happens exactly when an archive without a
  bundle is let pass because the look for the bundle failed for another reason than its absence; in a run
  the application is never absent before a release with a bundle, or with such a failure, was found
  (`BundleUpdate.Run`). That a start needs an application, so that nothing puts the
  backup back, is an assumption of the model (`BundleUpdate.Launched`), not a result.
- `parsePruneReason` panics on messages with their parentheses in the wrong order (`PanicsExactly`), and
  a heading longer than 44 characters hides the archive's name (`NameIsLost`).
- Lines still waiting when the command is done may be lost (`WaitingLinesAreLost`).
- `WarningBackup` can never be reported, because another warning has its exit code
  (`BackupWarningIsNeverReported`).

## Model

| member | source | states |
|---|---|---|
| RepositoryQueues.DuplicateIsHeld | backend/app/repository/repository_queue.go:574-621 | deduplication is exact: a request is turned away with an identifier if and only if the held operation with that identifier is the same request |
| RepositoryQueues.AddedIsConsistent | backend/app/repository/repository_queue.go:60-84 | adding keeps identifiers unique, requests unduplicated and the three tables in step with what is held, and gains exactly the new operation |
| RepositoryQueues.RemovedIsConsistent | backend/app/repository/repository_queue.go:151-186 | removal succeeds exactly for held identifiers, removes that operation and no other, and keeps the tables in step |
| RepositoryQueues.ActivatedIsConsistent | backend/app/repository/repository_queue.go:188-222 | starting an operation on an idle queue moves it and loses nothing |
| RepositoryQueues.ActivatedOverActive | backend/app/repository/repository_queue.go:188-222 | starting over an active operation keeps the queue consistent if and only if the one that is lost had no deduplication key |
| RepositoryQueues.ExpireFromIsFilter | backend/app/repository/repository_queue.go:455-490 | the backward walk of expiry keeps exactly the waiting operations without a time limit or whose limit is not before now, in order, and the active one |
| RepositoryQueues.ExpiredIdsAreThose | backend/app/repository/repository_queue.go:455-490 | the identifiers returned are those of the operations whose limit is before now, last one first |
| RepositoryQueues.RepositoryQueue.AddOperation | backend/app/repository/repository_queue.go:60-84 | the object ends in the specified queue; a duplicate changes nothing and returns the identifier held |
| RepositoryQueues.RepositoryQueue.CanAdd | backend/app/repository/repository_queue.go:574-621 | the table lookups and the list search find the duplicate the specification names |
| RepositoryQueues.RepositoryQueue.RemoveOperation | backend/app/repository/repository_queue.go:151-186 | the object ends in the specified queue, active or waiting operation removed, tables updated |
| RepositoryQueues.RepositoryQueue.MoveToActive | backend/app/repository/repository_queue.go:188-222 | the operation becomes the active one with status running, positions renumbered, the rest as specified |
| RepositoryQueues.RepositoryQueue.CompleteActive | backend/app/repository/repository_queue.go:225-252 | the active operation leaves queue and tables |
| RepositoryQueues.RepositoryQueue.UpdatePositions | backend/app/repository/repository_queue.go:492-505 | every waiting operation that shows a position shows its own |
| RepositoryQueues.RepositoryQueue.ExpireOldOperations | backend/app/repository/repository_queue.go:455-490 | exactly the expired identifiers are returned, last first, and exactly those operations are gone |
| QueueManagers.ProcessDoes | backend/app/repository/queue_manager.go:724-763 | processing a queue does nothing, or starts the head, or throws away a head the state machine refuses and reports it |
| QueueManagers.AddKeeps | backend/app/repository/queue_manager.go:148-205 | adding keeps the scheduler's invariant |
| QueueManagers.CompletionIsAllowed | backend/app/repository/queue_manager.go:465-557 | ending the active operation is never refused by the transition table, whatever ran and whatever waits |
| QueueManagers.CompleteKeeps | backend/app/repository/queue_manager.go:465-557 | ending an operation, in success or error, keeps the invariant, for every order of visiting the other queues |
| QueueManagers.CancelKeeps | backend/app/repository/queue_manager.go:560-598 | cancelling keeps the invariant |
| QueueManagers.RunKeeps | backend/app/repository/queue_manager.go:148-598 | the invariant holds after every run of additions, completions, cancellations, cleared errors and restored mounts |
| RunningOperations.EveryRunIsSafe | backend/app/repository/queue_manager.go:284-598 | in every reachable state no more backups, prunes, repository deletions and checks run than the limit allows, and as many are entered; every active operation runs and its repository shows its kind; what runs without being active is a mount; and a repository is idle, queued, mounted or in error exactly when nothing is active |
| RunningOperations.RunningIsActive | backend/app/repository/queue_manager.go:560-598 | throughout a run the running operations are exactly the active ones if and only if no cancellation meets an active mount |
| RunningOperations.CancelledMountRunsOn | backend/app/repository/queue_manager.go:560-598 | a cancelled mount is no longer active and goes on running; with nothing waiting the repository shows Mounted, otherwise the next operation, where there is room, runs beside it |
| RunningOperations.MountRunsBesideReached | backend/app/repository/queue_manager.go:560-598 | a run from the initial state after which two operations run on one repository |
| RunningOperations.MountRunsRestingReached | backend/app/repository/queue_manager.go:560-598 | a run from the initial state after which a mount runs on a repository with nothing active |
| SchedulerRules.TableByTarget | backend/app/statemachine/repository_state_machine.go:136-193 | the transition table, read by its targets: from where a repository is mounted, fails, is queued, becomes idle or begins to work |
| SchedulerRules.StartIsChecked | backend/app/repository/queue_manager.go:308-322 | a start changes nothing while the repository is working or, for backups, prunes, repository deletions and checks, while the limit is reached |
| SchedulerRules.AdditionToResting | backend/app/repository/queue_manager.go:148-205 | an addition to a repository that is not working, by the kind of the operation and of the first in line: refused when it has to start at once and must wait for others or the limit; otherwise the first in line waits for the limit, starts where the state allows its kind, or is thrown away with an error |
| SchedulerRules.AdditionToBusy | backend/app/repository/queue_manager.go:148-205 | an addition to a working repository is refused if it has to start at once and otherwise only lengthens the line |
| SchedulerRules.OthersStartAtOnce | backend/app/statemachine/operation_states.go:112-117 | after every run an operation of any other kind than backup, prune, repository deletion and check is accepted and running when added to an idle repository with nothing in line, whatever the limit |
| SchedulerRules.RequestsJoin | backend/app/repository/repository_queue.go:574-621 | an operation joins the end of the line unless the same backup, archive deletion or repository deletion is held, and then the identifier of that one is reported; other kinds are never turned away |
| SchedulerRules.CompletionShows | backend/app/repository/queue_manager.go:465-557 | the end of an operation starts the first in line if it needs no place, one has just been freed or there is room; after an error it throws it away instead; otherwise it stays queued; with nothing in line the repository is idle, mounted or in error by kind and outcome |
| SchedulerRules.CancellationByKind | backend/app/repository/queue_manager.go:560-598 | a waiting operation leaves the line, the others keep their order; an active mount is completed; any other active operation goes on |
| WakeUps.SweepOutcome | backend/app/repository/queue_manager.go:545-554 | the loop over the other queues fails, and leaves startable work waiting, exactly as a look at the state before it tells, repository by repository with the room there is at its turn |
| WakeUps.CompletionOutcome | backend/app/repository/queue_manager.go:465-557 | a completion succeeds if and only if its own next operation is not refused and, when others are visited, none refuses its head at its turn; and it leaves startable work waiting if and only if the state before has a repository that will not be reached or will be left behind and has room |
| WakeUps.CleanInEveryOrder | backend/app/repository/queue_manager.go:545-554 | a completion succeeds for every order of visiting the queues if and only if its own next operation and, when others are visited, no head of another repository is refused |
| WakeUps.CompleteWakes | backend/app/repository/queue_manager.go:465-557 | where nothing that there is room for is refused, a completion succeeds and leaves no startable work waiting in any repository, in every order |
| WakeUps.AddOutcome | backend/app/repository/queue_manager.go:148-205 | an addition is turned away, fails or leaves startable work waiting exactly under conditions on the state before it |
| WakeUps.AddWakes | backend/app/repository/queue_manager.go:148-205 | an addition that does not throw away the head of its queue keeps startable work from waiting |
| WakeUps.ErrorCompletionStalls | backend/app/repository/queue_manager.go:465-557 | an operation of any weight that ends in error with work behind it that there is room for drops the next operation and fails, and leaves startable work waiting if and only if another repository has some once the place is free |
| WakeUps.RefusalAbortsSweep | backend/app/repository/queue_manager.go:545-554 | where the first repository visited refuses its head, a completion fails, and leaves startable work waiting if and only if the operation behind that head or a repository visited later could start |
| WakeUps.CancelledHeadStalls | backend/app/repository/queue_manager.go:560-598 | cancelling a waiting operation leaves startable work waiting if and only if it was the head and its successor can start |
| WakeUps.ClearedErrorStalls | backend/app/repository/service.go:1694-1702 | clearing an error leaves startable work waiting if and only if the head of the queue can start |
| WakeUps.ErrorCompletionStallsReached | backend/app/repository/queue_manager.go:465-557 | a run from the initial state to a quiet state in which an operation ending in error leaves another repository waiting |
| WakeUps.AbortedSweepReached | backend/app/repository/queue_manager.go:545-554 | a run from the initial state to a quiet state in which a successful operation leaves another repository waiting |
| WakeUps.CancelledHeadStallsReached | backend/app/repository/queue_manager.go:560-598 | a run from the initial state to a quiet state in which cancelling a head leaves its successor waiting |
| WakeUps.ClearedErrorStallsReached | backend/app/repository/service.go:1694-1702 | a run from the initial state to a quiet state in which clearing the error leaves work waiting |
| QueueManagerObjects.QueueManager.StartOperation | backend/app/repository/queue_manager.go:308-462 | the maps of the object change as the specified start says, including what remains when the state machine refuses |
| QueueManagerObjects.QueueManager.RemoveOperation | backend/app/repository/queue_manager.go:208-281 | the object's new state is the specified one |
| QueueManagerObjects.QueueManager.ProcessQueue | backend/app/repository/queue_manager.go:724-763 | the object's new state is the specified one, with the operation removed when its start fails |
| QueueManagerObjects.QueueManager.AddOperation | backend/app/repository/queue_manager.go:148-205 | accepted, refused and failed additions leave the object in the specified state |
| QueueManagerObjects.QueueManager.CompleteOperation | backend/app/repository/queue_manager.go:465-557 | the object's new state is the specified one for any order in which the map of queues is walked |
| QueueManagerObjects.QueueManager.CancelOperation | backend/app/repository/queue_manager.go:560-598 | running, waiting and unknown operations are cancelled as specified |
| QueueManagerObjects.QueueManager.FinishOperation | backend/app/repository/queue_manager.go:358-458 | the goroutine of an operation ends as the specified step says, also when the operation is no longer the active one |
| StartRace.HeavyIsBounded | backend/app/repository/queue_manager.go:284-355 | in every interleaving of the sections of additions, starts, removals, completions with their sweeps, and cancellations, the entries of heavy operations exceed the limit by no more than the goroutines that share the window between check and entry |
| SoloRuns.AdditionAlone | backend/app/repository/queue_manager.go:148-205 | the sections of an addition that nothing comes between: the operation joins the line; the first in line is running, or gone when the state refuses it, or waits; and unless the call fails the repository is shown as queued if it rests with work in line |
| SoloRuns.CompletionAlone | backend/app/repository/queue_manager.go:465-557 | the sections of a completion that nothing comes between: the operation and its entry are gone, the state is the one that outcome and line ask for, then the repository's own queue and the others are processed in turn up to the first failure; nothing happens if the operation is no longer active |
| SoloRuns.CancellationAlone | backend/app/repository/queue_manager.go:560-598 | the sections of a cancellation that nothing comes between: the active operation goes on while the repository shows it is working and is completed otherwise; a waiting one leaves the line, and a queued repository without others becomes idle |
| RunningLimit.SurplusGrows | backend/app/repository/queue_manager.go:208-557 | a step leaves one more running operation without an entry if and only if it deletes the entry of a repository on which something runs, in a removal or a completion, or launches an operation whose entry is gone or already stands for another one; no step leaves more than one |
| RunningLimit.RunningIsBounded | backend/app/repository/queue_manager.go:208-557 | in every interleaving no more operations run than there are entries and such steps so far, hence no more than the limit, the width of the window and the number of such steps |
| RunningLimit.SerialLosesNoEntry | backend/app/repository/queue_manager.go:208-557 | as long as no two goroutines are at work on one repository there is no such step |
| RunningLimit.SerialRunningIsBounded | backend/app/repository/queue_manager.go:208-557 | then what runs exceeds the limit by no more than the goroutines that share the window |
| LimitWitnesses.RunningIsUnbounded | backend/app/repository/queue_manager.go:208-355 | for every limit of at least one and every number, an interleaving with never more than one goroutine in the window after which that many operations run and nothing is entered |
| LimitWitnesses.LimitIsOverrun | backend/app/repository/queue_manager.go:284-355 | for every limit of at least one and every width, an interleaving with no more than width + 1 goroutines in the window runs limit + width heavy operations |
| SerialStarts.SerialRunsAreSafe | backend/app/repository/queue_manager.go:208-557 | as long as no two goroutines are at work on one repository, every running operation is the active, entered and shown one of its repository, and no repository is stuck as working |
| SerialStarts.SerialStartFails | backend/app/repository/queue_manager.go:308-355 | then a start is given up if and only if the limit is reached at its second check or its repository is in the error state |
| SerialStarts.SerialLosesNothingElse | backend/app/repository/queue_manager.go:208-557 | then the only steps after which an operation is neither waiting nor active are the one that completes it as the active one and the one that removes it after a failed start or a cancellation, taken by a goroutine of its repository |
| RaceWitnesses.LoserIsDropped | backend/app/repository/queue_manager.go:319-322 | an interleaving with one goroutine on each repository in which a request is removed because another took the last place between the two checks |
| RaceWitnesses.RequestIsLost | backend/app/repository/queue_manager.go:499-536 | an interleaving in which a request processed between emptying the active slot and setting the state is removed, with never two goroutines inside processQueue on one repository |
| RaceWitnesses.RunningOperationIsLost | backend/app/repository/queue_manager.go:724-763 | an interleaving of two goroutines after which a repository shows itself as working with nothing running and nobody about to change that |
| RaceWitnesses.StuckUntilShown | backend/app/repository/queue_manager.go:148-598 | no step of any goroutine ends that, except the last look at the state by an addition that was not started |
| RaceWitnesses.StuckIsShown | backend/app/repository/queue_manager.go:183-199 | from every such state with no free place an addition leads to one that shows the repository as queued |
| EagerLoading.LoadManyToMany | backend/ent/backupprofile_query.go:585-645 | for any rows in any order, one object per neighbour in first-row order, and every parent ends with exactly the objects its rows link it to |
| EagerLoading.CollectRows | backend/ent/backupprofile_query.go:607-630 | the de-duplicating row closure keeps each neighbour's first row and all parents that ask for it |
| EagerLoading.LoadIsLookup | backend/ent/backupprofile_query.go:585-645 | each parent's list is the linked neighbours the child query lets through, each exactly once, as a separate lookup would give |
| EagerLoading.AnswersExist | backend/ent/backupprofile_query.go:595-606 | for every join table, set of parents and child predicate there are rows that answer the joined query |
| EagerLoading.LoadKeepsOrder | backend/ent/backupprofile_query.go:631-645 | when the child query orders its rows, every parent's list is in that order |
| EagerLoading.LoadsAreInverse | backend/ent/repository_query.go:550-610 | after loading both sides of the join table, r is in p's list if and only if p is in r's |
| EagerLoading.NeighborsAreShared | backend/ent/backupprofile_query.go:631-645 | within one load two parents' neighbours have the same id if and only if they are the same object |
| EagerLoading.JoinedRowIsAligned | backend/ent/repository_query.go:577-592 | for any selected fields the first value of a scanned row is the parent, the second the profile's id, and the rest decodes, if its JSON does, to a profile with that id that shows the row |
| EagerLoading.LoadBackupProfiles | backend/ent/repository_query.go:550-610 | the whole load from the rows of the join: it fails exactly when a cell cannot be scanned or the first row of a profile cannot be decoded; otherwise every repository holds the profiles linked to it, each showing the selected fields of its first row |
| EdgeQueries.LoadOneToMany | backend/ent/backupprofile_query.go:646-676 | the key errors cannot happen, each parent ends with the in-order part of the rows that has its id, and the query keeps the added predicate |
| EdgeQueries.LoadOneToOne | backend/ent/backupprofile_query.go:677-732 | each parent ends with the last row that refers to it, or keeps what it had |
| EdgeQueries.Scatter | backend/ent/backupprofile_query.go:664-675 | for any neighbours, it fails if and only if one of them has no key or an unknown one |
| EdgeQueries.ScatterIsPartition | backend/ent/backupprofile_query.go:646-676 | for distinct parents the lists together have as many rows as the query returned |
| EdgeQueries.FreshQueryGivesOwnRows | backend/ent/repository_query.go:611-641 | with a query not used before, each parent is given its own rows that pass the caller's filters |
| EdgeQueries.ReusedQuery | backend/ent/backupprofile_query.go:656-659 | a query object used before serves a parent correctly if and only if that parent was among the first ones or has no rows |
| EdgeQueries.LoadTwice | backend/ent/backupprofile_query.go:365-385 | a clone taken before the first load is not affected by it, the query itself is |
| EdgeQueries.GroupByKey | backend/ent/archive_query.go:461-474 | the queried ids are distinct and exactly the keys the archives have, and the groups are the archives by key |
| EdgeQueries.LoadManyToOne | backend/ent/archive_query.go:460-523 | every archive ends with the row its key names if one is returned, archives with one key share it, archives without a key and the other edge are untouched |
| EdgeQueries.QueryArchives | backend/ent/archive_query.go:408-458 | for every combination of requested edges the accessors report not loaded, not found, or the matching row, and each exactly when that is so |
| RowCodec.IdComesFirst | backend/ent/backupprofile_query.go:777-792 | every selection reads the id, first and once, and beside it exactly the selected fields; without a selection every field is read |
| RowCodec.ScanValues | backend/ent/backupprofile.go:122-142 | what is allocated for a column is of the one kind of which decoding that column rejects no value, and all values of the other kinds |
| RowCodec.ScansExactly | backend/ent/backupprofile.go:122-142 | what is allocated for a column takes null and cells of the column's own type, and of an unknown column anything |
| RowCodec.ReadRow | backend/ent/backupprofile_query.go:516-533 | reading a row fails in the driver exactly when a cell has another type than its column, otherwise exactly when a JSON cell cannot be decoded, and otherwise the entity shows the row and keeps its other fields |
| RowCodec.QueryColumns | backend/ent/backupprofile_query.go:777-792 | the appending loop builds the specified column list |
| RowCodec.BackupProfile.AssignValues | backend/ent/backupprofile.go:145-250 | the loop assigns as the decoding function says, and fails exactly when it does |
| RowCodec.DecodingIsTyped | backend/ent/backupprofile.go:122-250 | decoding what was allocated for the columns never meets an unexpected type, for repeated and unknown columns too |
| RowCodec.DecodingReads | backend/ent/backupprofile.go:145-250 | decoding succeeds exactly when the JSON cells read can be decoded; then every column read ends as its cell says, however often it is read, and fields not read keep their value |
| RowCodec.RoundTrip | backend/ent/backupprofile_create.go:418-490 | a row written and read with any selection gives back the returned entity's values in the selected fields, nil and set optionals and JSON lists included, and zero elsewhere |
| RowCodec.UnselectiveRead | backend/ent/backupprofile.go:145-250 | a row read without a selection gives back, field by field, everything the caller had set, under the database's id |
| RowCodec.BackupProfileCreate.CreateSpec | backend/ent/backupprofile_create.go:418-490 | every column is written with what the caller has set for it, and only then, and the returned entity shows the same values field by field |
| RowCodec.DefaultsFillGaps | backend/ent/backupprofile_create.go:293-330 | defaults set exactly the fields that have one and were not set |
| RowCodec.OthersAreKept | backend/ent/backupprofile.go:240-242 | a column the entity has no field for is kept under its name, with the last value read |
| ArchiveCodec.Archive.CreateSpec | backend/ent/archive_create.go:234-306 | every column and foreign key is written with what the draft has set for it, and only then, and the returned node shows the same values field by field |
| ArchiveCodec.Archive.AssignValues | backend/ent/archive.go:105-178 | the loop decodes as the function says and fails exactly when it does |
| ArchiveCodec.DecodingReads | backend/ent/archive.go:78-178 | whatever columns are read, how often and in what order, decoding succeeds and gives the stored value of the columns read and zero for the others |
| ArchiveCodec.RoundTrip | backend/ent/archive_create.go:234-306 | an archive comes back as it was returned by the write, with both foreign keys when they are read and with nil keys when they are not |
| ArchiveCodec.WholeRoundTrip | backend/ent/archive_create.go:234-306 | the whole archive comes back, field by field as it was set, under the database's id, with its two keys exactly when they are read |
| ArchiveCodec.OthersAreKept | backend/ent/archive.go:174-176 | a column without a field is kept under its name, with the last value read |
| BulkCreate.AllOrNothing | backend/ent/archive_create.go:316-372 | with hooks that call their successor once, a failing check anywhere means no write, nothing done and the error of the first failing builder; otherwise the batch holds the builders' drafts in order and all mutations are done, or none |
| BulkCreate.EventsAreNested | backend/ent/archive_create.go:323-371 | the events are one exact word: hooks in order and check, builder by builder, the batch, and all exits mirrored |
| BulkCreate.SpoiledButWritten | backend/ent/archive_create.go:336-360 | when nothing refuses, the rows are written in any case, and the save fails if and only if some hook fails after its successor, with the error of the innermost one |
| BulkCreate.RefusalsStop | backend/ent/archive_create.go:323-366 | when no hook fails after its successor, the save reports the first refusal or objection on the way down, and writes and marks as done everything or nothing |
| BulkCreate.EditsAreWritten | backend/ent/archive_create.go:323-366 | through hooks that pass the mutation on or change it, each row is the draft with the changes made to it in order, and the save succeeds if and only if all of them are complete and the database accepts |
| BulkCreate.CheckedFields | backend/ent/archive_create.go:189-212 | with the defaults filled in, the check misses a field if and only if name, duration, borg id or repository was not set, and names the first of them |
| BulkCreate.WrittenIsComplete | backend/ent/archive_create.go:327-336 | what a builder puts into the batch is complete if and only if its hooks handed on its own mutation or a complete one |
| BulkCreate.BlankIsWritten | backend/ent/archive_create.go:327-336 | a hook that hands on a blank mutation gets a row without required fields written |
| BulkCreate.ArchiveCreateBulk.Mutate | backend/ent/archive_create.go:323-366 | calling mutator i with its hooks changes builders, mutations, nodes and specs as the value-level run says, and nothing of the builders before it |
| BulkCreate.ArchiveCreateBulk.Save | backend/ent/archive_create.go:316-372 | events, rows, done flags, links to nodes and ids after a save; with well-behaved hooks, success if and only if no builder objects and the write is accepted; with hooks that only pass, success if and only if every caller has set the required fields and the write is accepted, and then row and node k have everything the caller set, the defaults for the rest, and the caller's or the generated id |
| BulkCreate.Builder.Defaults | backend/ent/archive_create.go:169-186 | every field that was set keeps its value; unset, the two times become the present one, the flag is off and the comment empty, and the other six fields stay unset |
| BulkCreate.WithHooks | backend/ent/ent.go:510-541 | a nil hook anywhere means nothing runs; otherwise the hooks are around the save from first to last |
| BulkCreate.SingleWriteIsComplete | backend/ent/archive_create.go:214-232 | whatever hooks hand on, a single save writes at most one row, and only a complete one |
| BulkCreate.SingleEventsAreNested | backend/ent/ent.go:510-541 | a single save goes in through the hooks in order and out in the opposite order, and in the middle checks and writes exactly what the hooks let reach it, or rejects another type |
| BulkCreate.SingleEditsAreWritten | backend/ent/ent.go:510-541 | through hooks that pass the mutation on or change it, the row is the draft with the changes in order, written if and only if that is complete and the database accepts |
| QueryAnswers.OneMorePredicate | backend/ent/backupprofile_query.go:794-800 | one more predicate keeps exactly the rows that satisfy it, in their order, under any ordering |
| QueryAnswers.OneMoreOrder | backend/ent/backupprofile_query.go:807-813 | one more order option keeps the rows and decides only between those the former options leave tied |
| QueryClone.Query.Where | backend/ent/backupprofile_query.go:43-46 | of the rows so far those that satisfy the predicate, in their order; limit and offset stay |
| QueryClone.Query.OrderBy | backend/ent/backupprofile_query.go:68-71 | the same rows, with the new option deciding where the former ones do not |
| QueryClone.Query.Limit | backend/ent/backupprofile_query.go:49-52 | the first n of the rows behind the offset |
| QueryClone.Query.Offset | backend/ent/backupprofile_query.go:55-58 | the rows without the first n, up to the limit there is |
| QueryClone.Query.Bind | backend/ent/backupprofile_query.go:656-659 | loading an edge keeps the rows that satisfy what the caller asked of them and belong to the loaded parents, and sets the flag for foreign keys exactly when they are needed |
| QueryClone.FiltersAddUp | backend/ent/backupprofile_query.go:43-86 | after any calls in any order a row is found if and only if it satisfies the predicates there were and every one added |
| QueryClone.AskForEdge | backend/ent/backupprofile_query.go:387-396 | an edge asked for with options and then loaded is asked for exactly the rows that belong to the loaded ones and satisfy every filter among the options |
| QueryClone.Query.Clone | backend/ent/repository_query.go:342-361 | the copy consists of new objects only and has the same tree of queries, but for the flags |
| QueryClone.Query.Apply | backend/ent/backupprofile_query.go:43-86 | each builder method, eager-load request and run changes the query's own tree as specified and nothing else |
| QueryClone.CloneIsIndependent | backend/ent/archive_query.go:293-310 | after cloning, any interleaving of operations on the two leaves each as if the other had not been touched |
| QueryClone.CloneAsksTheSame | backend/ent/archive_query.go:408-425 | whatever has been done to a query, its clone asks for the same rows and columns over the whole tree |
| QueryClone.FlagMakesTheDifference | backend/ent/archive_query.go:408-425 | a query run for an edge and then used alone asks for what its clone asks for if and only if its flag is off or an edge needs the keys |
| Paths.TextIsInjective | backend/app/app.go:464-564 | paths are told apart by their text |
| Paths.JoinWalks | backend/app/app.go:498 | joining a zip entry's name to a directory, as text, is walking from the directory along the name's components |
| Paths.PrefixIsBelow | backend/app/app.go:501-503 | the textual prefix test with the separator accepts exactly the paths strictly below the directory |
| Paths.DirIsParent | backend/app/app.go:471 | the textual parent is the path without its last name |
| Paths.SuffixIsOfLastName | backend/app/app.go:468 | the textual suffix test looks at the last name only |
| Paths.ResolveAppBundlePath | backend/app/app.go:464-476 | the result is the innermost bundle on the way to the binary, or the binary's own path if there is none |
| Disks.Disk.ExtractEntry | backend/app/app.go:496-535 | a name that does not lead strictly below the temporary directory is refused before anything is created; nothing outside the directory ever changes; on a steady disk the entry is extracted if and only if it leads below and fits |
| Disks.Disk.ExtractAll | backend/app/app.go:494-535 | success means that the archive can be extracted and the directory holds exactly its tree, and on a steady disk is reached if it can; at no moment is anything outside touched |
| Disks.Disk.MkdirAll | backend/app/app.go:505-514 | success adds exactly the missing ancestors, and on a steady disk means that no file was in the way; nothing outside the given root changes |
| Extraction.StraightDown | backend/app/app.go:498 | without ".." a name leads straight down through its proper components |
| Extraction.ThereAndBack | backend/app/app.go:498-503 | a name may leave the temporary directory and return, and is accepted then |
| Extraction.ExtractableExactly | backend/app/app.go:494-535 | an archive can be extracted, in whatever order its entries come, if and only if all lead below the directory and no file is where another entry needs a directory |
| Extraction.ExtractedIsFaithful | backend/app/app.go:494-535 | path by path: nothing is there that no entry asks for, a directory on the way to every entry and at every directory entry, and in every file the content of the last entry for it |
| Extraction.HasBundle | backend/app/app.go:537-541 | an archive holds a bundle if and only if it can be extracted and an entry leads to "arco.app" or below |
| Extraction.BundleIsFaithful | backend/app/app.go:494-541 | the bundle has, path by path, what the entries below "arco.app" ask for |
| Disks.Disk.RemoveAll | backend/app/app.go:456-459 | only what is below the path goes, leaf by leaf in any order and past what cannot be removed; success means nothing is left, and is certain on a steady disk |
| BundleUpdate.SoundStep | backend/app/app.go:486-552 | whatever happens below the temporary directory, or in the backup before the application is moved, leaves the update at the stage it is in, at every moment |
| BundleUpdate.ExtractAppBundle | backend/app/app.go:480-564 | at every moment the application is the former bundle, or absent with the former bundle in the backup, or the archive's bundle with the former one in the backup; nothing else is touched, and nothing outside the temporary directory at any moment unless the archive can be extracted and has a bundle or the look for it fails; on a steady disk the update succeeds if and only if the archive has a bundle, the stage it reaches follows from the archive, and the temporary directory is gone |
| BundleUpdate.BackupText | backend/app/app.go:547 | the backup's textual path is the sibling with the longer name |
| BundleUpdate.CleanupOldAppBundles | backend/app/app.go:440-460 | only the backup is ever touched, and only if it is found; on a steady disk it is gone then |
| BundleUpdate.Launched | backend/app/app.go:284-345 | one start, whatever it updates and wherever it stops, keeps every moment safe, and adds at most the release it was given; without a release that has a bundle, or one whose bundle could not be looked for, the application stays as it is at every moment; on a steady disk a release with a bundle is in place in the end with the former application in the backup, and nothing else differs |
| BundleUpdate.Run | backend/app/app.go:284-345 | over any number of starts, whatever fails and wherever the process stops, at every moment the application is a complete bundle, or absent with a complete bundle in the backup; it is absent only if a start found a release that has a bundle or whose bundle could not be looked for; undisturbed starts on a steady disk end with the latest release that has a bundle |
| BundleUpdate.UndisturbedWhen | backend/app/app.go:480-541 | starts are undisturbed when no directory to extract to is taken and no look for a bundle fails |
| BorgOutput.KeptRoundTrip | backend/borg/prune.go:122-155 | a printed line about a kept archive gives back its name and rule |
| BorgOutput.PrunedRoundTrip | backend/borg/prune.go:122-142 | a printed line with one of the two prune headings gives back the archive's name |
| BorgOutput.NameIsLost | backend/borg/prune.go:137-142 | with a longer heading the result does not depend on the name at all |
| BorgOutput.PanicsExactly | backend/borg/prune.go:144-155 | the parser panics if and only if a message about a kept archive has its first ")" before the end of its first "(rule: " |
| BorgOutput.PanicExample | backend/borg/prune.go:144-155 | an input on which the parser panics |
| BorgOutput.DecodePruneOutput | backend/borg/prune.go:79-120 | under every schedule one result is sent and then the channel closed, with the in-order reading of the consumed prefix; a line that breaks the parser ends it without a result |
| BorgOutput.DecodePrinted | backend/borg/prune.go:79-155 | from what borg prints to the result: when the lines read are printed lines about kept and pruned archives mixed with others, the one result lists the kept names with their rules and the pruned names, in order |
| BorgOutput.EachLineOnce | backend/borg/prune.go:79-120 | no line is in both lists and every line about an archive in one |
| BorgOutput.WaitingLinesAreLost | backend/borg/prune.go:112-118 | the result is complete if and only if no line left behind is about an archive |
| BorgOutput.LogsArePrefix | backend/borg/check.go:36-64 | in every interleaving collected and in-hand messages are the errors of a prefix of stderr in order, all of them at the end, and at most one before the command exits |
| BorgOutput.ErrorsAreThose | backend/borg/check.go:100-114 | one message for every log line of level ERROR, in order |
| BorgOutput.CheckRun.Run | backend/borg/check.go:84-117 | the decoder and collector end where the interleaving says, with every error read accounted for |
| BorgOutput.CheckRun.Verdict | backend/borg/check.go:40-81 | a check is clean if and only if nothing failed to run and the code was 0, or 1 with at least one collected error |
| BorgStatus.OneMeaning | backend/borg/borg.go:191-230 | every exit code has exactly one meaning for any tables; 0 and 143 win, warnings go before errors, and what is reported carries its code |
| BorgStatus.ToBorgResult | backend/borg/borg.go:191-230 | the two searches find what the tables mean |
| BorgStatus.WarningIsReported | backend/borg/borg.go:201-205 | a warning is ever reported if and only if it is the first with its code and the code is neither 0 nor 143 |
| BorgStatus.ErrorIsReported | backend/borg/borg.go:207-221 | an error of the table is ever reported if and only if it is the first with its code, no warning has that code and the code is neither 0 nor 143; the two errors with hints apart |
| BorgStatus.ErrorSays | backend/borg/borg.go:207-229 | codes 81 and 87 bring the output in place of the message, other codes of the table its entry, and unknown codes the unknown category |
| BorgStatus.NotRun | backend/borg/borg.go:232-261 | a command that could not be run is an error of its own with what it printed, and a failure to run counts only when there is no exit code |
| BorgStatus.BackupWarningIsNeverReported | backend/borg/types/status.go:242-245 | the second warning for code 1 can never be reported |
| BorgStatus.CheckStatus | backend/borg/check.go:66-79 | the verdict of a check, with found problems counted as success of the command |
| AdtGenerator.CollectMarkers | scripts/generate_adts.go:322-391 | the structs of each sum type are found, in order, and no others |
| AdtGenerator.ReceiversAreThose | scripts/generate_adts.go:322-391 | one struct for every marker method with that result type, in order |
| AdtGenerator.Describe | scripts/generate_adts.go:393-424 | the in-place second pass fills in variant and key of every struct; the variants are the same names, each a beginning of the next ones or smaller at the first difference |
| AdtGenerator.GenerateTypeFunction | scripts/generate_adts.go:521-542 | the loop emits one case for every struct with a variant, in order, and the default of the first sorted variant |
| AdtGenerator.GenerateFromConversion | scripts/generate_adts.go:479-518 | the loop emits one case for every struct with a variant, setting the field of that name |
| AdtGenerator.GenerateUnionType | scripts/generate_adts.go:463-476 | the loop declares one field for every struct with a variant |
| AdtGenerator.SortForgetsOrder | scripts/generate_adts.go:411-419 | the list of variants does not depend on the order in which the structs are found |
| AdtGenerator.SwitchesAgree | scripts/generate_adts.go:479-542 | for every value, of a declared variant or not, the two emitted functions give the same discriminator, and exactly the field of that name is set |
| AdtGenerator.DefaultComesFirst | scripts/generate_adts.go:411-419 | a value of no variant is taken for the variant that is the beginning of every other or has the smaller character where they first differ |
| AdtGenerator.OrderDoesNotMatter | scripts/generate_adts.go:391-418 | the emitted code means the same for every order of the structs |
| AdtGenerator.FieldsMatch | scripts/generate_adts.go:463-476 | the field that is set exists and points to the struct its wrapper type is around |

## Left out

- Running borg itself, progress reports, notifications, logging and everything shown on screen: input and output.
- QueueManagers.Step: contexts for cancelling are modelled only by whether the state has one; an operation that is asked to stop ends by a later event, and borg may return from any operation at any time.
- QueueManagers.Enabled: a new operation is assumed to have an identifier that is not in use, because the code draws a random UUID.
- QueueManagers.ProcessAll: the order in which Go ranges over the map of queues is a parameter, and every order is covered.
- QueueManagerObjects.QueueManager.CompleteOperation: lock sections follow each other without interruption in this class; StartRace has the interleavings.
- QueueManagerObjects.QueueManager.LaunchGoroutine: the goroutine itself is no object; that it runs is recorded in the specified state only.
- StartRace.Advance: all operations are heavy there and none is immediate; the states are idle, queued, working and error; there is no deduplication and no expiry. One step takes the lock sections of looking up the queue and adding to it together, and the setting of the state with the launch after it; notifications are left out.
- StartRace.FinishOp: the other queues a completion visits, and their order, are a parameter, whichever queues exist.
- BundleUpdate.Launched: that the program can be started only while there is an application is the method's own guard.
- Status fields of operations other than the position in the queue, and the lookups by type, backup and archive of repository_queue.go:86-131 and 255-304: easy members.
- EagerLoading.LoadManyToMany: child queries with limits or offsets are not modelled; the property does not hold for them.
- EdgeQueries.QueryArchives: the rows a child query lets through are a parameter; the SQL selector, the driver and their errors are library code.
- RowCodec.RoundTrip: the JSON codec and the column types of the driver are parameters assumed to round-trip; so is the conversion between database integers and int.
- BulkCreate.Sim: a hook that calls its successor twice, or again later, is not modelled; a nil hook in a bulk save makes the original panic and is not modelled either.
- BulkCreate.ArchiveCreateBulk.BatchCreate: the write is one step that accepts or refuses; the ids the database generates are given beforehand. Nodes and specs are values in the tables, and a mutation points at its node by index. An explicit id of 0 makes the original panic after the write; here the node keeps it.
- BulkCreate.Draft: validators of single fields and the other entities' builders have the same shape and are left out.
- QueryClone.Query.Apply: predicates, orders and modifiers are known by number, and traversal paths are left out, as the copied path still belongs to the original query.
- QueryAnswers.Rows: modifiers and the removal of duplicates are not part of the rows; rows that are tied stay in table order, where a database is free; limits and offsets that are not positive are the SQL library's affair.
- withInterceptors and scanWithInterceptors in ent.go: the same rebinding loop as withHooks.
- Update and delete builders, setters, clients and String methods of the entity layer: repetitive.
- Paths.Clean: only rooted slash-separated paths; relative paths do not occur where the modelled code uses it.
- Disks.Disk.RemoveAll: symbolic links, permissions and modes are not modelled.
- Disks.Disk.WriteFile: an error on closing a file is ignored by the original and cannot happen here.
- Disks.Disk.MkdirTemp: a name counts as taken when anything exists at or below it, which on a file system that keeps parents of entries is the same as the name existing.
- Disks.Disk.Trouble: on a disk that is not steady any operation may fail or be the last one; why is not modelled. Whether os.Stat fails for another reason than absence is a parameter.
- BundleUpdate.Run: the release check, the download and the version comparison decide only whether there is an archive, which is a parameter; extractBinary, the path for other systems, replaces the file in place and has no such invariant.
- BorgOutput.Parse: texts are sequences of single-byte characters; borg pads by characters, so headings with others are not covered by the round trips.
- BorgOutput.CheckRun.Step: stderr is an unbounded queue; whether a blocked sender can make the command wait is not modelled, only safety is.
- BorgOutput.Data: JSON decoding is reduced to whether and as what a line decodes.
- BorgStatus.Classified: the 66 entries of the error table are a parameter, since everything is proved for any table.
- AdtGenerator.Emit: the emitted text is modelled as syntax; formatting, comments, package discovery and writing the file are left out.
- AdtGenerator.JsonField: unicode.ToLower is a parameter.
- The configuration, authentication and cloud services, and the frontend: no code with properties of this kind.
