# A verified model of the swarm coordination engine

The repository coordinates coding agents over one durable store: members take
attempts at tasks, submit, review each other, and an owner is told whatever
needs a decision. JavaScript runs each synchronous stretch uninterrupted and
anything may commit at an `await`. The model keeps that shape: a class holds the
mutable rows of each component, its methods are the stretches between awaits,
and whatever commits in between is a parameter. What the methods do is stated
by functions over values, and the lemmas are about every run of those. What
those functions leave is then told again without naming them, by the fields, the
history or an independent rule: `AttemptOutcomes`, `StoreCommits`, `NoticeTexts`,
`DispatchRules`, `WaitRules`, `ShellQuoting`.

| part | files |
|---|---|
| rows, readiness, who may own what | `Tasks`, `Assignment`, `Board`, `DispatchRules` |
| attempt lifecycle and stop barrier | `Fencing`, `TaskRows`, `AttemptRuns`, `AttemptSafety`, `AttemptProgress`, `AttemptOutcomes`, `ReviewRuns`, `Attempts` |
| graph and plan algorithms | `Digraph`, `TaskGraph`, `Unschedulable`, `Plans`, `ReviewPairing` |
| store, change log, waiter, restore | `StoreModel`, `StoreSafety`, `StoreCommits`, `Store`, `Watch`, `Restore` |
| owner notices, outbox, no silent state | `NoticeLedger`, `NoticeTexts`, `Notices`, `OutboxPump`, `Coverage`, `Waiting`, `WaitRules`, `Judgement` |
| delivery | `DeliveryMerge`, `DeliveryDisk`, `DeliveryRollback`, `DeliveryApply`, `DeliveryRuns`, `DeliveryPlan`, `DeliveryLimits` |
| sweep rotation, usage, shell words | `SweepRotation`, `UsageMeters`, `Gates`, `ShellWords`, `ShellQuoting` |

`dafny verify dfyconfig.toml` checks everything. Ghost fields and the fields
`ended`, `owed`, `owners`, `history`, `dead`, `marks`, `past` are history that no operation reads.
A delivery's `history` holds every look it took and every file it renamed aside,
so its results can say what became of each of them whatever an editor did.

## Where the code and its promises differ

Each of these is a lemma with the exact condition, and the code is modelled as
it is.

- An owed stop's reason is documented to move only to `invalidated`
  (src/attempts.ts:280-285). That holds of fences; an owner's resume moves it
  back to `handoff` (src/runtime.ts:3421-3423): `AttemptSafety.OwedStopIsKept`
  and `AttemptSafety.ResumeLiftsInvalidation`.
- `putTask` stamps the caller's object before its transaction commits. An object
  kept after a rollback can later match another writer's revision and overwrite
  it: `StoreSafety.NoLostUpdate` gives the condition,
  `StoreSafety.RolledBackCopyLosesAnUpdate` a run from the empty store.
- The cursor is described as covering every committed mutation
  (src/store.ts:450). A row written outside `transaction` does not advance it:
  `StoreSafety.OutsideWriteIsUnseen`.
- A task behind an ambiguous replacement lineage waits on a blocked copy that may
  stand for no unfinished row: `Waiting.AmbiguousLineageWaitsOnNothing`.
- A withdrawal leaves dependents pending and relies on the board's classifiers to
  name those nothing will ever advance (src/runtime.ts:2358-2361). A pending review
  of a reviewable source counts as waiting whatever its own dependencies, so one
  behind a cancelled dependency is not named while other work runs:
  `Waiting.View.WaitsAreAnchoredOrFollow` gives the condition,
  `Waiting.StrandedReviewWaits` a board.
- Ready work counts as waiting only while the stops that keep its member from it
  are inside their bound (src/board.ts:952-958). A review is never asked that: when
  everybody allowed to take it owes an overdue stop, it and its source still count
  as waiting. The overdue stop of a cancelled task is no stall root either
  (src/board.ts:847-856), so then nobody is told while other work runs:
  `Waiting.View.WaitsAreAnchoredOrFollow` gives the condition,
  `Waiting.UnattendedReviewWaits` a board.
- A review may depend on work that needs its source accepted: no edge of the
  admitted graph closes a cycle, but the source waits for the review. All three
  count as waiting and nobody is told while other work runs:
  `Waiting.KnottedReviewIsSilent` is such a board; `Waiting.View.WaitsTurnIff` says
  that waits come back to themselves exactly when a review waits on its own source.
- Rollback means to keep every edit made after publication (src/delivery.ts:251).
  One made through an open descriptor between the last look at the published file
  and its removal goes with it: `DeliveryLimits.EditLostIff` and
  `DeliveryLimits.EditGoesWithPublished`.
- A stopped delivery names the copies it kept. A file that rollback took off its
  path is kept without being named when the look at it fails:
  `DeliveryLimits.UnnamedIff` and `DeliveryLimits.UnseenFileIsUnnamed`.
- An undisturbed delivery is to be applied unless something aborts it. One that
  changes two hard links of the same file stops, since moving the first aside
  changes the file's time at the second: `DeliveryPlan.Deliver` gives the
  condition, `DeliveryPlan.SharedFilesAreHardLinks` in terms of the tree, and
  `DeliveryLimits.HardLinkedDeliveryStops` an input.
- A usage snapshot without a session, taken while a session is current, is
  counted beside it: `UsageMeters.UnsourcedCountsTwice`.
- An empty quoted word is dropped by the splitter, which then leaves its offset
  to the next word: `ShellQuoting.WordsRoundTrip` and
  `ShellQuoting.EmptyWordLeavesItsOffset`.

## Model

| member | source | states |
|---|---|---|
| `TaskRows.Row.DropAttempt` | src/attempts.ts:51-55 | taking the attempt off a row remembers its owner among the prior owners and changes nothing else |
| `TaskRows.Row.EndAttempt` | src/attempts.ts:66-69 | ending an attempt raises the epoch by one and drops the attempt |
| `TaskRows.Row.FenceForStop` | src/attempts.ts:290-306 | the in-place fence is exactly `Fenced`: an open attempt's owner owes a stop at the new epoch, one that was owed before stands with its epoch and owner, only `invalidated` replaces its reason, and every other field stays |
| `TaskRows.Row.Expire` | src/attempts.ts:595-608 | lease expiry spends a recovery credit unless a pause or a park caused it, keeps only a live planned owner, and fences |
| `TaskRows.Row.CloseOut` | src/attempts.ts:483-508 | a captured close-out checkpoints, counts a recovery and prefers the same member before it fences; a failed capture fences as invalidated |
| `TaskRows.Row.Release` | src/attempts.ts:153-163 | the release takes the marker off and lands the row on pending or blocked by `StopBlocks`, terminal rows as they are |
| `TaskRows.Row.Assign` | src/runtime.ts:1225-1234 | an assignment opens a fresh attempt at the next epoch; a borrowed task records its borrower as planned |
| `AttemptOutcomes.CloseOutLeaves` | src/attempts.ts:477-509 | a close-out that writes leaves a stop of the owner at the next epoch, invalidated if and only if its capture failed; a captured one adds the checkpoint, one recovery spent and its member as assignee, a failed one nothing |
| `AttemptOutcomes.FailedCloseOutNeverRepends` | src/attempts.ts:488-488 | after a failed capture, on every run in which the owner does not resume the row, no release of the stop re-pends the task over the work that was not checkpointed |
| `AttemptOutcomes.CapturedCloseOutRepends` | src/attempts.ts:483-508 | captured work goes on: released without a blocking cause the row is pending, with its checkpoint and for its member |
| `AttemptOutcomes.ExpiryLeaves` | src/attempts.ts:591-610 | an expiry that writes spends a recovery if and only if neither a pause nor a park caused it, and keeps the planned owner if and only if that is live |
| `AttemptOutcomes.ExpiredLeaseRepends` | src/attempts.ts:595-611 | the released row of an expired lease is pending exactly when no cause blocks it, a spent recovery limit included |
| `AttemptOutcomes.RecoveryBegins` | src/attempts.ts:553-556 | recovery takes up an attempt exactly when its lease ran out, and writes nothing before its await |
| `AttemptOutcomes.ReleaseLands` | src/attempts.ts:153-163 | through queueing, confirmation and release, every field of the landing row: only the marker, the status and a departed worker's preference change |
| `AttemptOutcomes.FenceLands` | src/attempts.ts:290-306 | every field a fence leaves, for rows that owe a stop and rows that do not |
| `AttemptOutcomes.AssignmentLands` | src/runtime.ts:1225-1234 | every field an assignment leaves; whoever takes another member's task becomes its planned owner |
| `AttemptOutcomes.NudgeLands` | src/attempts.ts:462-476 | an idle holder is nudged until the bound, and nothing else of its row changes |
| `AttemptOutcomes.CloseOutBegins` | src/attempts.ts:462-480 | a close-out begins, for the attempt it read, exactly at the bound |
| `AttemptOutcomes.StopsAreQueued` | src/attempts.ts:83-131 | an owed stop is queued unless it failed for good |
| `AttemptOutcomes.ReopenLands` | src/runtime.ts:2158-2168 | an owner's rework re-pends the row at the next epoch without its old artifact, and keeps its past owners |
| `AttemptOutcomes.RestartLands` | src/runtime.ts:384-398 | a cold start re-pends running work at the next epoch, and leaves every other row and every owed stop |
| `AttemptOutcomes.OutcomeLands` | src/runtime.ts:1336-1350 | a worker's outcome lands only under the attempt that still holds the row, and a submission leaves an artifact |
| `AttemptOutcomes.RenewalLands` | src/attempts.ts:398-412 | a renewal moves the lease of the attempt it names and nothing else, while that holds the row |
| `AttemptOutcomes.AmendLands` | src/runtime.ts:3440-3447 | an amendment changes whom the work is for; a structural one, a fence of running work instead, voids every choice made before unless a stop is owed; re-pending is for blocked work that owes none |
| `AttemptOutcomes.RetireLands` | src/runtime.ts:2224-2230 | what an accepted replacement retires is cancelled unless it runs, awaits its verdict or owes a stop |
| `DispatchRules.BorrowableIff` | src/assignment.ts:44-51 | a task may be borrowed exactly when it is pending, only preferred, has no attempt, stop or checkpoint and never had a holder |
| `DispatchRules.StrandsIff` | src/assignment.ts:76-79 | taking a task strands a review exactly when a live one of it is bound to the member and not itself free to take |
| `DispatchRules.ReadyIff` | src/board.ts:345-392 | readiness, which asks itself for the preferred member, equals a rule without recursion: due and prepared, and the member's own, nobody's, or preferred for one who could not start it now |
| `DispatchRules.AssignmentTakesIff` | src/board.ts:324-336 | an assignment takes effect if and only if a slot is free and, on the rows of the commit, the choice stands, the task is ready and the member neither works nor owes a stop |
| `DispatchRules.PreparationBeginsIff` | src/scheduling.ts:345-368 | a preparation begins exactly for ready work of a member that owes no stop |
| `Attempts.Attempts.ExpireLease` | src/attempts.ts:595-611 | after the capture's await the expiry writes exactly when the row still holds the attempt read before it, and is then a step of the run |
| `Attempts.Attempts.FinishCloseOut` | src/attempts.ts:477-509 | the close-out's outcome is written exactly when the row still holds the attempt read before the capture |
| `Attempts.Attempts.ReleaseBarrier` | src/attempts.ts:144-180 | the release writes exactly when the row still owes the stop of the epoch and member that were stopped |
| `Attempts.Attempts.Dispatch` | src/board.ts:333-336 | the dispatch commit re-asserts choice, readiness, stop debt and lease on the current rows, and writes exactly when all of them hold |
| `Attempts.Attempts.RecoverLease` | src/attempts.ts:556-611 | whatever commits while the capture is awaited, recovery is a run; it ends the attempt that is still held then, with the capture, the credit and the assignee the expiry leaves, and queues its stop; if the attempt ended meanwhile it writes no row at all |
| `Attempts.Attempts.RecoverTask` | src/attempts.ts:535-612 | one task's turn of the sweep, with interference, is a run of atomic events: an owed stop is queued, a lease renewed past now is all that changes, and one that ran out is recovered |
| `Attempts.Attempts.RecoverExpired` | src/attempts.ts:530-614 | the whole sweep over any tasks, with anything committing at each await, takes each task's turn on the rows the turns before left, is one run and keeps the invariant |
| `AttemptRuns.StepKeepsInv` | src/attempts.ts:76-306 | every atomic stretch, the retirement of what an accepted task replaced included (src/runtime.ts:2224-2230), keeps the invariant: attempts unshared, one open attempt per member, every minted attempt on a row or ended, every obligation on its row with its member idle, every owner remembered |
| `AttemptSafety.RunKeepsInv` | src/attempts.ts:76-614 | the invariant holds over every interleaving of leases, close-outs, fences, stops, dispatches, owner edits and restarts |
| `AttemptSafety.StopBarrier` | src/refusals.ts:101-141 | in every run no two rows are held by one member, a member owing an unconfirmed stop holds no open attempt, and whoever acquires one owes no stop, held none, and gets an attempt id never used before |
| `AttemptSafety.ObligationEnds` | src/attempts.ts:148-163 | an obligation ends only in the release of its own confirmed stop, on a row that still owed it |
| `AttemptSafety.NoWorkBeforeConfirmedStop` | src/attempts.ts:130-163 | on every run without this obligation's stop confirmation, it stays owed and its member never holds an open attempt |
| `AttemptSafety.FenceLeavesOneStop` | src/attempts.ts:290-306 | the fence of an open attempt ends it and leaves exactly one obligation, of its owner at the new epoch, with no stop job queued for it yet; no other commit leaves any |
| `AttemptSafety.ReleaseIsGuarded` | src/attempts.ts:153-163 | a release changes one row or none: only the row whose marker has the stopped epoch and member, which then re-pends exactly when it is not cancelled, not invalidated and no deciding cause holds |
| `AttemptSafety.OutcomeOfCauses` | src/attempts.ts:39-42 | a confirmed stop blocks exactly when it was an invalidation or some cause holds that is not a recovery limit its reason is exempt from |
| `AttemptSafety.NamedWritesAreFenced` | src/attempts.ts:398-404 | an expiry, close-out, checkpoint, renewal or worker outcome writes only while some row holds the attempt it names |
| `AttemptSafety.EndedAttemptNeverReturns` | src/attempts.ts:591-610 | once ended, an attempt is on no row of any later state and every later write that names it changes nothing |
| `AttemptSafety.AttemptsEndOnce` | src/attempts.ts:44-69 | an attempt enters the ended set at exactly the commit that takes it off its row |
| `AttemptSafety.EpochsNeverFall` | src/attempts.ts:66-69 | over every run no row's epoch decreases and no row disappears |
| `AttemptSafety.OwedStopIsKept` | src/attempts.ts:276-303 | an owed stop keeps its epoch, its time and its owner until its own release; fences move its reason only to `invalidated`, and only an owner's resume of that row moves it away |
| `AttemptSafety.InvalidatedNeverRepends` | src/attempts.ts:280-285 | whatever else commits, an invalidated stop the owner does not resume stays invalidated, and no release of it re-pends the task |
| `AttemptSafety.ResumeLiftsInvalidation` | src/runtime.ts:3418-3423 | the owner's resume is the exception: the invalidated stop's release can re-pend exactly when the row is blocked without a submitted artifact |
| `AttemptProgress.ReadyWorkIsTaken` | src/scheduling.ts:345-368 | undisturbed, a preparation and its assignment give a free member the ready task, so the barrier is not kept by standing still |
| `AttemptProgress.ConfirmedStopIsReleased` | src/attempts.ts:130-163 | an owed stop without a deterministic failure is released once queued and confirmed, and its obligation ends with it |
| `AttemptProgress.FirstAttempt` | src/runtime.ts:1225-1234 | from an empty mission a run reaches an acquisition: the premises of the run theorems can be met |
| `ReviewRuns.OwnersAreAuthors` | src/assignment.ts:27-32 | whoever ever acquired a task is one of its authors in every later state |
| `ReviewRuns.NoSelfReview` | src/assignment.ts:39-41 | a member that acquired a source never later acquires a task that reviews it, through any fences, borrows, reworks and re-pends |
| `ReviewRuns.NoReviewIsStranded` | src/assignment.ts:62-79 | whoever acquires a task it was not assigned may borrow it or found it unassigned, and is bound to no live review of it |
| `ReviewRuns.BorrowedWorkIsUntouched` | src/assignment.ts:44-51 | a task somebody once held is never borrowable again |
| `Unschedulable.Unschedulable` | src/board.ts:402-426 | the in-place loop terminates and lists exactly the least set closed under the stuck rule, in board order, whatever that order is |
| `Unschedulable.KeptInOrder` | src/board.ts:425-425 | the tasks listed stand in board order |
| `Unschedulable.LeastIsUnique` | src/board.ts:410-424 | that set does not depend on the order the loop visits the rows in |
| `Unschedulable.LeastIsSupported` | src/board.ts:412-424 | each of its tasks is dead-blocked or stuck for a reason inside the set |
| `Unschedulable.UnschedulableIsNeverReady` | src/board.ts:345-392 | no unschedulable task is ready for any live member |
| `Unschedulable.SchedulableIsStartable` | src/board.ts:402-426 | and nothing else is called dead: pending work outside the set whose prerequisites are met has a live member who may take it |
| `Unschedulable.PendingIsDeadIff` | src/board.ts:412-424 | pending work is in the set exactly for an unknown id, a dependency cancelled or dead, a source done or dead, or no live member who may take it off its source |
| `Unschedulable.BlockedIsDead` | src/board.ts:405-411 | other work is in the set exactly when it is blocked and not merely stopping |
| `Unschedulable.DependentsOf` | src/board.ts:869-881 | the tasks found are exactly those with a path of unfinished dependency, replacement or review edges to the root, each once |
| `TaskGraph.TaskGraphDefects` | src/admission.ts:83-127 | a cycle is reported exactly when the graph has one through at least two nodes, each reported edge closes one, and an empty report means exactly unique ids, known targets and no cycle; the recursion terminates on any input |
| `TaskGraph.Cycles` | src/admission.ts:105-125 | the depth-first search alone: its closing edges, and a ranking of the graph when there are none |
| `TaskGraph.Search.Visit` | src/admission.ts:110-124 | one visit keeps the search's invariant, adds its node to the finished ones and restores the open stack |
| `TaskGraph.LinksIff` | src/admission.ts:107-120 | with unique ids the links searched are exactly the dependency and review edges between different nodes of the graph |
| `TaskGraph.BadEdgesIff` | src/admission.ts:94-104 | which edges are reported: each to its own node or to an id nobody knows, under the node it leaves and the id it leads to, and nothing besides |
| `TaskGraph.DuplicatesIff` | src/admission.ts:86-93 | one duplicate for each node whose id came before, under that id |
| `TaskGraph.DuplicatesAreReported` | src/admission.ts:86-93 | no duplicate is reported exactly when all ids differ |
| `TaskGraph.BadEdgesAreReported` | src/admission.ts:94-104 | no edge defect is reported exactly when every edge leads to another, known node |
| `Plans.OrderedTasks` | src/plans.ts:354-367 | it fails with a cycle only on a cyclic plan and with an unknown key only on one that names none, and never on an orderable plan; otherwise every key's row is placed once, behind all it has an edge to |
| `Plans.LinksIff` | src/plans.ts:356-362 | with unique keys a row has to come after exactly what it depends on and what it reviews |
| `Plans.Orderer.Visit` | src/plans.ts:356-364 | one visit of the recursive order, over the mutable visiting, done and result |
| `Plans.OrderIsPermutation` | src/plans.ts:365-366 | with unique keys the order is a permutation of the rows |
| `ReviewPairing.CandidatesDiffer` | src/plans.ts:299-301 | two numbered candidates of one source are the same key only for the same number, whatever the key limit cut off |
| `ReviewPairing.CandidateKeepsSource` | src/plans.ts:299-301 | a candidate keeps all of the source's key, or as much as fills the limit |
| `ReviewPairing.ReviewKey` | src/plans.ts:298-304 | the search ends within one more try than there are taken keys, with the first candidate not taken |
| `ReviewPairing.ReviewsFollowTheirSources` | src/plans.ts:326-343 | each row keeps its place, and an unreviewed deliverable's review stands right after it |
| `ReviewPairing.AddedReview` | src/plans.ts:328-342 | the added review names nothing but its source, carries its fields or what the source prescribes, and gets at least one step and no more than the mission allows or the default |
| `ReviewPairing.EachDeliverableReviewedOnce` | src/plans.ts:306-320 | each unreviewed deliverable gets exactly one review; every other task keeps exactly its own |
| `ReviewPairing.PairedNeedsNothing` | src/plans.ts:306-320 | a paired plan has no unreviewed deliverable left |
| `ReviewPairing.PairedIsOrderable` | src/plans.ts:349-349 | the added rows keep the plan acyclic and every edge known |
| `ReviewPairing.ExpandedKeysAreUnique` | src/plans.ts:322-331 | the paired plan's keys are unique |
| `ReviewPairing.AddReviews` | src/plans.ts:324-344 | the loop over a growing list and a growing set of taken keys computes the expansion with fresh keys |
| `ReviewPairing.PairReviews` | src/plans.ts:321-351 | a fully paired plan is returned unchanged, one over the task budget is refused with the count it needs, and otherwise the result is a validated plan with every deliverable reviewed |
| `ReviewPairing.PairTwice` | src/plans.ts:315-319 | pairing is idempotent |
| `Store.Store.PutTask` | src/store.ts:625-651 | compare-and-swap of one row: a stale copy changes no row and owes one refusal; an accepted one is stamped one revision above the row |
| `Store.Store.Transaction` | src/store.ts:415-449 | the whole transaction is one step of the store's rules: committed with its refusals and one log entry, or rolled back with its refusals recorded on their own |
| `StoreCommits.CommitIsLogged` | src/store.ts:425-437 | a commit that left a row of a new version or a note advances the revision by one and logs one change, whose scopes are exactly the missions its statements wrote or noted and those of its refusals; any other commit leaves cursor and log alone |
| `StoreCommits.RollbackIsLogged` | src/store.ts:438-449 | a rolled-back transaction is in the log only by the refusals recorded after it, under their missions |
| `StoreCommits.ShownIsLogged` | src/store.ts:639-639 | whatever a transaction leaves, committed or not, each row of a new version and each note has its mission in the one change logged |
| `StoreCommits.PutIsAcceptedIff` | src/store.ts:625-630 | a write is accepted exactly when its row is not there yet or stands at the revision the caller presents |
| `StoreCommits.StalePutAborts` | src/store.ts:625-634 | a stale write owes one refusal, with the revision presented and the row's, and aborts the body unless its caller catches it |
| `StoreCommits.PutLands` | src/store.ts:625-642 | an accepted write puts the caller's body and mission in its row, one revision up, stamps the caller's object so, and touches no other row |
| `Store.Store.ReadChanges` | src/store.ts:456-464 | reading the log row by row yields `ChangesSince` |
| `StoreSafety.RunKeepsInv` | src/store.ts:415-449 | versions and log stay consistent over every run of transactions and single writes, committed or rolled back |
| `StoreSafety.NoLostUpdate` | src/store.ts:625-634 | in every reachable transaction an accepted write of an existing row stands one revision above the row it replaces, and derives from exactly that row if and only if the caller's object was read from the store and not stamped by a rolled-back transaction |
| `StoreSafety.RolledBackCopyLosesAnUpdate` | src/store.ts:631-632 | a run from the empty store in which the excluded case happens: an object stamped by a rolled-back transaction is accepted over another writer's row, whose body is gone |
| `StoreSafety.RefusedWriteChangesNothing` | src/store.ts:630-630 | a refused write changes no row, no event, no scope and no object, and owes exactly one refusal |
| `StoreSafety.RefusalsAreRecordedOnce` | src/store.ts:657-672 | each refused write leaves exactly one record when its transaction commits or the records' own does, and nothing else writes one |
| `StoreSafety.RollbackKeepsRows` | src/store.ts:438-445 | a rolled-back transaction leaves every row as it was |
| `StoreSafety.CursorIsComplete` | src/store.ts:456-464 | in every reachable state a replay is exactly the contiguous commits after the cursor, each once; it is refused only for a cursor outside the kept log |
| `StoreSafety.LogGrowsWithRevision` | src/store.ts:429-435 | each transaction adds at most one change, at the next revision |
| `StoreSafety.OutsideWriteIsUnseen` | src/store.ts:635-642 | a row written outside a transaction advances no revision and is in no replay |
| `Watch.Waiter.Inspect` | src/watch.ts:23-31 | one inspection finishes exactly on an unreplayable cursor or a visible change, and otherwise moves the cursor to the revision |
| `Watch.InspectionIsExact` | src/watch.ts:25-29 | an inspection sees nothing exactly when every committed change past the cursor is hidden from it |
| `Watch.WaitForStateChange` | src/watch.ts:4-42 | a waiter still waiting has slept past no change visible when it was published, and no transaction has left a row or a note of a mission it could see; a wake, a timeout or an abort finishes it, and with only commits happening it has finished only for a visible change or an unreplayable cursor |
| `Watch.ShownIsSeen` | src/store.ts:639-639 | a transaction that leaves a row or a note of a visible mission is a visible change when it is published |
| `Watch.EarlierIsSeen` | src/watch.ts:23-31 | and one that happened before the wait, after the cursor, is seen by the waiter's first look |
| `Watch.MissedGrows` | src/watch.ts:23-29 | one more commit is missed exactly when it was hidden as it was published |
| `Restore.Disk.FinishRestore` | src/store.ts:287-310 | it blocks exactly on a marker nothing matches, changing nothing; dying at any step leaves the restore finishable, and finishing leaves the untouched database or exactly the snapshot without old sidecars |
| `Restore.Disk.Open` | src/store.ts:286-310 | an open that finishes leaves no restore owed, so finishing again changes nothing |
| `Restore.Disk.RestoreSnapshot` | src/store.ts:895-928 | success leaves exactly the snapshot; any failure or death leaves the database found, or one whose next open yields exactly the snapshot; a process that lives long enough succeeds exactly on a valid, completely copied snapshot and leaves no file of its own |
| `Restore.Live` | src/store.ts:888-928 | over any lives of a process, each dying anywhere, every database ever opened is the first one, one a host left, or exactly a snapshot, and each life that lasts long enough opens one |
| `NoticeLedger.RunKeepsRows` | src/notices.ts:808-936 | over any run, tellings whose transaction rolls back included, no row is dropped, no identity leaves its row, summaries only grow, and a handed-off delivery never changes again |
| `NoticeLedger.TellingKeepsOneRow` | src/notices.ts:856-889 | a telling keeps one row for each fact if and only if no other row than the receiving one carries what it tells or batches |
| `NoticeLedger.UnbatchedNotifyTellsOnce` | src/notices.ts:808-813 | a notify that batches no other fact always meets that condition |
| `NoticeLedger.WarnBudgetTellsOnce` | src/gates.ts:245-278 | the one telling that batches does too: the budget pass drops every crossing the ledger holds, in the same stretch in which it tells the rest |
| `NoticeLedger.EscalateTellsOnce` | src/runtime.ts:1771-1781 | so does an escalation, which never asks the ledger: its id is fresh |
| `NoticeLedger.StepKeepsOneRow` | src/notices.ts:808-936 | whatever the host tells, no fact gets a second row |
| `NoticeLedger.EveryCrossingIsTold` | src/gates.ts:245-251 | after a budget pass each allocation past a threshold is on the ledger at the highest threshold it reached, or above it |
| `NoticeLedger.ToldFactsStayOnOneRow` | src/notices.ts:849-936 | over every run of notifies, budget passes, escalations, rolled-back tellings, handoffs and restarts, a fact told at any step is on exactly one row at the end |
| `NoticeLedger.SummariesPartitionTheirFacts` | src/notices.ts:914-936 | in every reachable ledger each fact of a summary lies in exactly one constituent's range, whose identity the row carries |
| `NoticeTexts.DegradedFactKeepsItsText` | src/notices.ts:856-936 | past the budget the receiving summary gets one constituent more, the telling's, over exactly its facts or, without any, over one text that names its trigger and ends in its content; the summary shows all it has, and no other row changes |
| `NoticeTexts.OwnFactKeepsItsText` | src/notices.ts:870-889 | otherwise the fact has a row of its own that shows its content, or past the limit keeps it whole on record; one that wakes spends one wake of the open window or of a new one |
| `NoticeTexts.ConstituentTextsStay` | src/notices.ts:914-936 | over every run the texts in a constituent's range never change |
| `NoticeTexts.DegradedTextStays` | src/notices.ts:905-936 | a fact told past the budget at any step of any run is in its summary, in its own words, at the end |
| `NoticeTexts.RolledBackStaysSpent` | src/notices.ts:856-936 | a rolled-back telling leaves no row, but its wake stays spent, and the window stays on its summary unless the transaction was to open it |
| `NoticeTexts.HandOffFixesText` | src/notices.ts:1351-1362 | the first handoff fixes the text it was given, later ones keep it, and either takes the row out of its window |
| `NoticeTexts.HandedOffSummaryIsClosed` | src/notices.ts:1357-1362 | nothing told after a summary's handoff changes its row |
| `NoticeTexts.UntoldCrossingIsWorded` | src/gates.ts:245-278 | the one telling of a budget pass words every crossing nobody was told of and ends in its instructions |
| `NoticeTexts.ReachedIsTheLast` | src/gates.ts:245-251 | of the shares an allocation has reached the last one listed is warned of |
| `Notices.Notices.LedgerHolds` | src/arena.ts:100-111 | the scan finds a fact exactly when some row carries it, as its own or among its aggregated identities |
| `Notices.Notices.Notify` | src/notices.ts:808-813 | the method is the ledger's step, and records exactly when the ledger does not hold the fact |
| `Notices.Notices.WarnBudget` | src/gates.ts:245-278 | the loop over allocations and thresholds keeps exactly the crossings nobody was told of, and tells them in one notice |
| `Notices.Notices.Escalate` | src/runtime.ts:1771-1781 | an escalation is recorded under a fresh id |
| `Notices.Notices.RolledBack` | src/notices.ts:856-936 | a telling whose transaction rolls back leaves no row, but the window keeps the slot it spent, its rollover and its open summary unless that went too |
| `Notices.Notices.EnqueueOwnerNotice` | src/notices.ts:856-889 | over budget the fact joins the window's summary, otherwise it gets a row and spends a slot; a covered fact does neither |
| `Notices.Notices.WakeWindowFor` | src/notices.ts:896-903 | the window rolls over on its interval |
| `Notices.Notices.AppendToWakeSummary` | src/notices.ts:914-936 | the fact, its identities and its range join the open summary, or open a fresh one |
| `Notices.Notices.HandOff` | src/notices.ts:1351-1362 | the first handoff fixes the text, and any handoff detaches the row from its window |
| `OutboxPump.Outbox.PumpOutbox` | src/notices.ts:1448-1450 | a request before shutdown is held by the pending start |
| `OutboxPump.Outbox.RunStart` | src/notices.ts:1451-1458 | the start joins a sweep inside its bound, leaving the request with that pump, or supersedes it with a pump whose sweep answers every request |
| `OutboxPump.Outbox.Resume` | src/notices.ts:1459-1469 | while a pump is current, before shutdown, whatever is left of its list forces the flush of its head and leaves exactly the rest; it begins another sweep only with its list through and a request waiting, and ends only with neither; a replaced one begins no further flush |
| `OutboxPump.Outbox.Attempt` | src/notices.ts:1350-1356 | a delivery is claimed exactly when no attempt of it is in flight |
| `OutboxPump.Outbox.Settle` | src/notices.ts:1399-1399 | a settled or abandoned attempt gives up exactly its own claim |
| `OutboxPump.Outbox.Drive` | src/notices.ts:1417-1470 | over every interleaving, each flush was begun by the pump that was newest then, no delivery ever had two attempts at once, and a current pump ended or began another sweep only after flushing every mission its sweep had listed, once and in order; so each request is still held, or a sweep no older than its answer flushed its whole list, is under way, or was cut short by the shutdown |
| `OutboxPump.SweepIsFollowedThrough` | src/notices.ts:1428-1446 | a sweep that was superseded is followed by one that flushes its whole list, is under way, or was cut short by the shutdown |
| `Coverage.ReplacedLineage` | src/task-graph.ts:77-87 | the walk over `replaces` returns the task and everything it reaches, each once |
| `Coverage.ReplacementCoverage` | src/board.ts:811-815 | the covered ids are exactly those some unfinished task carries through replacements |
| `Waiting.View.WaitsAreAnchoredOrFollow` | src/board.ts:905-966 | a legitimate wait ends by itself or follows another unfinished task if and only if it is not that of a live review whose own prerequisites are neither accepted nor in progress, nor of one that could begin while everybody allowed to take it owes a stop past its bound; a review follows its source until that is submitted, and a submitted source its live reviews |
| `Waiting.View.WaitsExactly` | src/board.ts:905-966 | which work that nothing unfinished carries counts as waiting: exactly what ends by itself, awaits a live review, has its repair or an unfinished dependency to follow, or reviews an unfinished source with a live review |
| `Waiting.View.StallIsNoProgress` | src/board.ts:461-465 | the board is stalled exactly when nothing runs, is stopping, or is pending and ready for somebody live; so nothing is dispatchable then |
| `Waiting.View.StalledIff` | src/board.ts:467-475 | the owner is told of a stall exactly when there is work, none progresses, and no submission without a live review awaits its admission |
| `WaitRules.WaitsByStatus` | src/board.ts:905-966 | what waiting comes to, status by status, for work nothing unfinished carries |
| `WaitRules.RootIff` | src/board.ts:847-856 | a root is blocked work, no review, carried by nothing unfinished and not stopping within its bound |
| `WaitRules.LiveReviewIff` | src/board.ts:437-453 | a review is live exactly when it is open or only stopping and somebody live, without a hand in its source, may take it |
| `WaitRules.ReadyWaitsIff` | src/board.ts:944-963 | ready work waits exactly for its retry and one tick more, then for the stops that hold it back, all within their bound, then for its member's lease |
| `WaitRules.ReadyWaitsRunOut` | src/board.ts:944-963 | once every retry, stop bound and lease is over, no ready work counts as waiting |
| `WaitRules.DispatchableIff` | src/board.ts:338-342 | work is dispatchable exactly when it is pending and ready for an available member that is not at work, or of any in a wedged pass |
| `Waiting.View.AttendedReviewBegins` | src/board.ts:295-300 | a review that ends its wait by itself can be dispatched now, or waits for its back-off, for stops inside their bound, or for the attempt an allowed member holds |
| `Waiting.View.UnattendedIsNotDispatchable` | src/board.ts:267-267 | while everybody allowed to take a review owes an overdue stop, dispatch cannot start it |
| `Waiting.View.EveryWaitEnds` | src/board.ts:883-904 | every wait leads through unfinished tasks to a root, a dispatchable or named task, a wait that ends by itself, a stranded or unattended review, or back to a task it has been at |
| `Waiting.View.WaitsTurnIff` | src/runtime.ts:774-803 | on an admitted board some wait comes back to a task it has been at if and only if a review waits, in the end, on its own submitted source |
| `Waiting.View.AdmissionDescends` | src/runtime.ts:782-803 | the ranking of an admitted graph descends along every wait of an open row on a dependency or a review source; if it does along repairs too, the board is admitted in that sense |
| `Waiting.KnottedReviewIsSilent` | src/board.ts:919-942 | a board on which it does: three tasks wait on one another, all counted as waiting legitimately |
| `Waiting.StrandedReviewWaits` | src/board.ts:938-941 | a board with a stranded review: its dependency was cancelled, and it and its source count as waiting |
| `Waiting.UnattendedReviewWaits` | src/board.ts:938-941 | a board with an unattended review: the stop of a cancelled task is overdue, no row is a root, and the review and its source count as waiting |
| `Waiting.AmbiguousLineageWaitsOnNothing` | src/task-graph.ts:139-143 | with an ambiguous lineage a task waits on another unfinished task if and only if the lineage's blocked copy stands for an unfinished row |
| `Waiting.Interpret` | src/board.ts:1097-1107 | every classifier of one judgement reads the same computed coverage |
| `Judgement.EnsureWitness` | src/notices.ts:686-754 | after judging an active, nonempty board the ledger holds every root's notice, the stall of a stalled board, and the fallthrough of every unrecognised task; while a member could start work, fewer dispatchable tasks are left nobody was asked about, or none; and every fact the ledger gained is one the board owes, told in the words given for it, and without a wake exactly when a decision covers its root |
| `Judgement.HealthyIsNotNamed` | src/notices.ts:734-754 | the fallthrough names no task that is a root, dispatchable, waiting or finished |
| `Judgement.NoticeSubjects` | src/notices.ts:467-476 | which tasks, at which epochs, a stall, a coverage and a fallthrough notice name |
| `Judgement.FirstToAsk` | src/notices.ts:432-451 | what is asked about is the first task in board order that dispatch could start, holds no attempt, and was not asked about at its epoch |
| `Judgement.NoSilentTask` | src/notices.ts:734-754 | on a board with live work each unfinished task is a told root, dispatchable, waiting, or named by the fallthrough |
| `Judgement.NoSilentStall` | src/notices.ts:467-476 | without live work the stall is on the ledger with the work it names, a submission awaits the review admission, or completion is allowed |
| `Judgement.NothingIsSilent` | src/notices.ts:686-754 | both together: each unfinished task leads to one the owner was told of, one dispatch can start, a wait that ends by itself, a stranded or unattended review, or back to a task it has been at |
| `DeliveryMerge.FilesMergeByPart` | src/delivery.ts:170-184 | three regular files merge mode and bytes independently, each by the three-way rule; texts changed on both sides go to the text merge |
| `DeliveryMerge.OtherEntriesMergeWhole` | src/delivery.ts:170-173 | anything else merges only as a whole, to the side that changed |
| `DeliveryMerge.MergeIsSymmetric` | src/delivery.ts:170-184 | swapping the local entry and the result changes nothing when the text merge is swapped too |
| `DeliveryDisk.Disk.Await` | src/delivery.ts:351-386 | whatever the editor does before a call, private names stay on their inodes, and every file holds what its scribbles made of it |
| `DeliveryDisk.Disk.UnlinkPrivate` | src/delivery.ts:244-249 | the one call that can make a file unreachable puts on record what the name held; until the receipt it takes a backup only when its file was put back where it came from |
| `DeliveryRollback.RestoreExclusive` | src/delivery.ts:244-249 | a file renamed aside is put back without replacing another, or stays under its private name |
| `DeliveryRollback.PutOther` | src/delivery.ts:265-267 | a file that is not the published one is put back, or its displaced name goes to the caller |
| `DeliveryRollback.RemovePublished` | src/delivery.ts:259-269 | what is taken off the path is removed only as the published file, holding what was published but for writes since the last look; anything else is put back or stays at the displaced name, which is returned exactly when the look found another file |
| `DeliveryRollback.RollbackItem` | src/delivery.ts:254-276 | the published file is taken off its path only after it was seen there; the original is put back only at a path seen free or cleared that way, and is otherwise in its backup, which is returned; undisturbed, the item is undone exactly |
| `DeliveryRollback.Rollback` | src/delivery.ts:252-278 | whatever the editor does, every original is back or named, everything taken off a path was seen there as published and has one of those fates, and nothing else is named; undisturbed, every item is undone and nothing else changed |
| `DeliveryApply.Displace` | src/delivery.ts:362-371 | a file is renamed aside only after a look that found what the plan saw, it is on record in the item whether or not the change goes on, and it goes on only if the inode and entry moved are the original's |
| `DeliveryApply.Publish` | src/delivery.ts:372-385 | the output is linked at a free target only, and what counts as published was seen there holding the output, before and after its staged name goes |
| `DeliveryApply.Install` | src/delivery.ts:362-386 | undisturbed, one change stands with its original in its backup and nothing else moved; it fails before it moves anything exactly when its path is not as planned |
| `DeliveryApply.ApplyChange` | src/delivery.ts:351-386 | the item handed back records everything the change renamed aside; what an aborted change leaves staged is handed back too |
| `DeliveryRuns.ApplyAll` | src/delivery.ts:351-386 | everything renamed aside is the backup of one of the items, which are those of the first changes, each after a look that found the original; undisturbed the run gets through exactly when nothing aborts it and no two changes displace one file |
| `DeliveryRuns.VerifyAll` | src/delivery.ts:388-393 | it passes only after every path was seen as published and every backup holding its original; undisturbed it passes |
| `DeliveryRuns.DropBackups` | src/delivery.ts:403-403 | after the receipt the backups go and no project path changes |
| `DeliveryRuns.AllStandIsDelivered` | src/delivery.ts:387-404 | when every change stands, every changed path holds its output and every other what it held |
| `DeliveryRuns.AllUndoneIsRestored` | src/delivery.ts:405-415 | when every item is undone and the staged name dropped, every path holds what it held and no private name is left |
| `DeliveryRuns.StoppedLosesNothing` | src/delivery.ts:405-409 | each file a stopped delivery renamed aside is an original that is back at its path or at a backup named to the caller, or an output rollback took off its path with a known fate |
| `DeliveryRuns.ApplyDelivery` | src/delivery.ts:351-410 | whatever the editor does, the receipt follows a look that found every change applied and every backup whole, and a stop loses nothing; undisturbed it is applied if and only if nothing aborts it and no two changes are of one file, and any stop restores the tree |
| `DeliveryPlan.PlanDelivery` | src/delivery.ts:325-348 | the plan holds exactly the candidates whose merge differs from what stands, and the conflicts exactly those that do not merge; planning only looks |
| `DeliveryPlan.CheckPlan` | src/delivery.ts:350-350 | it passes only after every path was seen once more as it was planned |
| `DeliveryPlan.SharedFilesAreHardLinks` | src/delivery.ts:362-362 | two changes of the plan share a file exactly when two paths the delivery would change are hard links |
| `DeliveryPlan.Deliver` | src/delivery.ts:281-410 | a conflict ends it before any write, and undisturbed exactly when some path conflicts; nothing is made or renamed before every path was seen as planned twice, when it was planned and once all were; otherwise every delivered path ends up with its three-way merge and every other with what it held, no private name left, exactly when nothing aborts it and no two changed paths are one file, and else the tree is as it was; disturbed, a stop loses nothing |
| `DeliveryLimits.EditLostIff` | src/delivery.ts:262-269 | over any stopped delivery a file removed without being put back is one it published, and held anything else exactly when a descriptor wrote other bytes to it between the last look and the removal |
| `DeliveryLimits.EditGoesWithPublished` | src/delivery.ts:262-269 | an input on which that happens |
| `DeliveryLimits.UnnamedIff` | src/delivery.ts:262-275 | over any stopped delivery a file left at a private name is not named exactly when the look at it failed or found it as published |
| `DeliveryLimits.UnseenFileIsUnnamed` | src/delivery.ts:262-275 | an input on which an edited file is left so |
| `DeliveryLimits.HardLinkedDeliveryStops` | src/delivery.ts:350-371 | an undisturbed, unaborted delivery to two hard links that stops |
| `SweepRotation.Dispatch` | src/scheduling.ts:281-401 | a body sweeps a prefix of its order; stopping early it records the first member not swept and where its chain started; it stops exactly before the first member whose predecessor's step took the bound or longer |
| `SweepRotation.OrderIsTheRotation` | src/scheduling.ts:286-294 | the order of any body is the roster turned to where its predecessor stopped and cut off before the start of its chain |
| `SweepRotation.ChainedOrder` | src/scheduling.ts:291-294 | the order of a chained body runs from where its predecessor stopped to the end of the roster |
| `SweepRotation.RunBody` | src/scheduling.ts:316-323 | a body that starts where the chain stands sweeps a nonempty run of the members left, and the next one starts right after it unless none is left |
| `SweepRotation.RunChain` | src/scheduling.ts:264-279 | for any early stops the chain sweeps every member exactly once, in roster order, in at most as many bodies as members, and its last body runs to its end |
| `UsageMeters.LifetimeIsTheSum` | src/gates.ts:168-186 | for every sequence of sourced snapshots the lifetime total is the base plus the sum over generations of the highest value each reported while current |
| `UsageMeters.ReplayAddsNothing` | src/gates.ts:170-178 | a retired generation, or a value at or below its generation's highest, adds nothing |
| `UsageMeters.ReorderingAddsNothing` | src/gates.ts:172-186 | swapping two snapshots of one session changes nothing, whatever comes before and after |
| `UsageMeters.UnsourcedCountsTwice` | src/gates.ts:174-182 | a snapshot that names no session counts beside the session's next one exactly when it exceeds the lifetime total |
| `Gates.AddUsage` | src/gates.ts:30-34 | each bucket grows by its own delta |
| `Gates.UsageDelta` | src/gates.ts:37-41 | each bucket's delta is its growth, none when it shrank |
| `Gates.Accounts.UsageSnapshot` | src/gates.ts:160-190 | the member's tokens and each raw bucket take one meter step, and the mission's grow by exactly the member's deltas |
| `ShellWords.ShellTokens` | src/admission.ts:597-653 | the loop over mutable text, offset and index computes the word splitter's tokens on every command |
| `ShellWords.DoubleQuoted` | src/admission.ts:617-629 | the inner loop reads exactly the double-quoted body and its closing quote, if there is one |
| `ShellQuoting.StyleScans` | src/admission.ts:604-650 | a stretch of a word reads as its text however it is written: plain, in single or double quotes or backticks, behind backslashes, with bare backslashes between double quotes, or as a line continuation |
| `ShellQuoting.WordsRoundTrip` | src/admission.ts:587-653 | words of any mix of plain and quoted stretches, and operators, with any blanks around them, come back as exactly those at strictly increasing offsets if and only if no word is empty (section 2.2 of the POSIX.1-2017 Shell Command Language) |
| `ShellQuoting.ExactlyWhereWritten` | src/admission.ts:602-650 | each of those offsets is where its word or operator is written in the line |
| `ShellQuoting.UnclosedTakesTheRest` | src/admission.ts:610-637 | a quote or backtick that is never closed takes the rest of the command as one word |
| `ShellQuoting.LastBackslashStands` | src/admission.ts:604-608 | a backslash with nothing after it stands for itself |
| `ShellQuoting.EmptyWordLeavesItsOffset` | src/admission.ts:602-602 | an empty quoted word leaves no token and gives its offset to the next word |

## Left out

- DeliveryDisk.Disk.WriteReceipt: parent directories, the recorded fingerprints, the re-check of an earlier receipt, symlink containment and directory entries are not modelled.
- Judgement.EnsureWitness: completion policy and the review blockers on record are parameters, and a notice is recorded without its event.
- Notices.Notices.WarnBudget: what each allocation has used is a parameter, and a batch's key is its crossings themselves instead of their hash.
- Waiting.View.EveryWaitEnds: replacement lineages are an abstract map; that its unfinished entries are rows of the board is assumed.
- Waiting.View.WaitsTurnIff: that the ranking descends along repairs and the dependencies of blocked rows is assumed: admission's graph has no edge for them.
- Waiting.View.AdmissionDescends: admission checks what a new row reaches; the lemma is about the graph of the whole board.
- Waiting.View.WaitsAreAnchoredOrFollow: only verification tasks name a review source, so a live review is not asked for its kind again.
- Attempts.Attempts.RecoverExpired: retry timing of stops (`stopRetries`), the silent-operation bound and the renewal window are choices of the run, not computed.
- AttemptRuns.StepKeepsInv: the legacy scan that stops every candidate handle of an unknown owner is a stop job of no named handle; concurrency slots and budgets are one admitted-or-not answer.
- SweepRotation.RunChain: a roster that changes during the chain, and bodies abandoned at shutdown.
- Restore.Disk.RestoreSnapshot: power loss that reorders unsynced writes, and the snapshot's integrity and schema check, which is a parameter.
- Watch.WaitForStateChange: a signal aborted before the wait starts, and a store that throws while it is inspected, end the wait at once and are not among the happenings.
- OutboxPump.Outbox.Resume: how long a transport takes and the durable starvation record.
- Locks between processes (`acquire` in src/delivery.ts, `acquireRuntimeLock` in src/store.ts): one live owner is assumed.
- SQLite, Git and the file system themselves: rows, the log, inodes and `git merge-file` are modelled by their contracts; a file stands for its own hash.
- Budget stop and resume (`blockBudget`, `beginBudgetStop`, `resumeBudgetTasks`), the pass watchdog and the isolation invariant.
- Plan validation beyond what pairing needs, and the prose of notices and diagnostics.
- `normalizeAbsolutePath`, check classification and the other text heuristics of src/admission.ts.
- Safe-integer limits: counters and times are unbounded.
- The harness adapter, model routing, planner, roles, telemetry and the client.
