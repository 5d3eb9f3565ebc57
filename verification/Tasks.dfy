/**
 * The task row and the questions every seam asks of it.
 *
 * Identities are opaque, so they are numbered. A row is a detached record: the
 * store hands out copies, and a transition writes a changed copy back.
 */
module Tasks {
  import opened Wrappers

  type TaskId = nat
  type MemberId = nat
  type AttemptId = nat

  datatype Status = Pending | Running | Submitted | Accepted | Blocked | Cancelled

  datatype Mode = Preferred | Pinned

  datatype StopReason = Handoff | LeaseExpired | WorkerCloseout | Resource | Invalidated

  /** `nudges` and `turnEnded` are the idle close-out's record on the attempt. */
  datatype Attempt = Attempt(id: AttemptId, owner: MemberId, leaseUntil: int, nudges: nat, turnEnded: bool)

  datatype StopFailure = StopFailure(message: string, deterministic: bool)

  /** A stop a fenced handle still owes. `member` is absent only on legacy rows. */
  datatype StopMarker = StopMarker(
    epoch: nat, member: Option<MemberId>, reason: StopReason, at: Option<int>, failure: Option<StopFailure>)

  datatype PreparationFailure = PreparationFailure(attempts: nat, retryAt: Option<int>)

  datatype Task = Task(
    id: TaskId,
    status: Status,
    epoch: nat,
    attempt: Option<Attempt>,
    stop: Option<StopMarker>,
    priorOwners: Option<set<MemberId>>,
    assignee: Option<MemberId>,
    planned: Option<MemberId>,
    mode: Option<Mode>,
    dependencies: seq<TaskId>,
    reviewOf: Option<TaskId>,
    replacing: seq<TaskId>,
    checkpoint: Option<nat>,
    recoveryCount: nat,
    preparation: Option<PreparationFailure>,
    artifact: bool)

  /** Done with, one way or the other: no transition leaves these. */
  predicate Terminal(status: Status) {
    status.Accepted? || status.Cancelled?
  }

  /** A fence the row still owes: a marker at the row's own epoch. */
  predicate StopPending(task: Task) {
    task.stop.Some? && task.stop.value.epoch == task.epoch
  }

  /** Blocked only until the old handle acknowledges its stop. */
  predicate QuiescencePending(task: Task) {
    task.status.Blocked? && StopPending(task)
  }

  predicate HoldsOpenAttempt(task: Task) {
    task.status.Running? && task.attempt.Some?
  }

  /** The row is running and carries exactly this attempt. */
  predicate HoldsAttempt(task: Task, attempt: AttemptId) {
    HoldsOpenAttempt(task) && task.attempt.value.id == attempt
  }

  /** The member holding the row's open attempt. */
  function OpenOwner(task: Task): Option<MemberId> {
    if HoldsOpenAttempt(task) then Some(task.attempt.value.owner) else None
  }

  /** Some row's open attempt is `member`'s. */
  predicate HasOpenAttempt(tasks: map<TaskId, Task>, member: MemberId) {
    exists t <- tasks.Keys :: OpenOwner(tasks[t]) == Some(member)
  }

  /** A marker without a member reserves every member. */
  predicate OwesStop(task: Task, member: MemberId) {
    StopPending(task) && (task.stop.value.member.None? || task.stop.value.member == Some(member))
  }

  /** Some row is still owed a stop by this member. */
  predicate PendingStopOwner(tasks: map<TaskId, Task>, member: MemberId) {
    exists t <- tasks.Keys :: OwesStop(tasks[t], member)
  }

  /** Every id the task refers to as something it waits for. */
  function TaskEdges(task: Task): seq<TaskId> {
    task.dependencies + (if task.reviewOf.Some? then [task.reviewOf.value] else [])
  }
}
