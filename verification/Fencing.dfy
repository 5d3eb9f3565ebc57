/**
 * What ending an attempt does to its row: the fence, the stop it leaves owed,
 * the barrier's release and the assignment that opens the next attempt.
 */
module Fencing {
  import opened Wrappers
  import opened Tasks
  import opened Assignment

  /** The row without its attempt, whose holder joins the past ones. */
  function DropAttempt(task: Task): Task {
    match task.attempt
    case None => task
    case Some(a) => task.(priorOwners := Some(task.priorOwners.GetOr({}) + {a.owner}), attempt := None)
  }

  /** An ending without a stop to wait for: the lease of the old epoch is worth nothing at the new one. */
  function EndAttempt(task: Task): Task {
    DropAttempt(task.(epoch := task.epoch + 1))
  }

  /**
   * Every fence is this write. The holder of an open attempt owes a stop from
   * here on; where one was owed before, its epoch and owner stand, and its
   * reason yields to `Invalidated` alone.
   */
  function Fenced(task: Task, status: Status, reason: StopReason, now: int): Task {
    var marked := task.(status := status);
    if StopPending(task) then
      var dropped := DropAttempt(marked);
      if reason.Invalidated? then dropped.(stop := Some(task.stop.value.(reason := Invalidated))) else dropped
    else
      var ended := EndAttempt(marked);
      match OpenOwner(task)
      case None => ended
      case Some(owner) => ended.(stop := Some(StopMarker(ended.epoch, Some(owner), reason, Some(now), None)))
  }

  datatype BlockCause = TaskCeiling | PreparationFailed | ReviewDeferred | NeedsReplacement | Refuted | RecoveryExhausted

  /** Reasons that are no fault of the worker: its recovery limit does not count them. */
  predicate RecoveryLimitExempt(reason: StopReason) {
    reason.Resource? || reason.Handoff? || reason.Invalidated?
  }

  /** Whether a confirmed stop lands on blocked. */
  predicate StopBlocks(causes: set<BlockCause>, reason: StopReason) {
    || reason.Invalidated?
    || (RecoveryExhausted in causes && !RecoveryLimitExempt(reason))
    || causes - {RecoveryExhausted} != {}
  }

  /** The row the barrier's release writes. */
  function Released(task: Task, causes: set<BlockCause>, ownerGone: bool): Task
    requires task.stop.Some?
  {
    var marker := task.stop.value;
    task.(
      stop := None,
      assignee := if marker.reason.WorkerCloseout? && marker.member.Some? && ownerGone then None else task.assignee,
      status := if Terminal(task.status) then task.status else if StopBlocks(causes, marker.reason) then Blocked else Pending)
  }

  /** Open an attempt of the row for `member`. */
  function Assigned(task: Task, member: MemberId, attempt: AttemptId, leaseUntil: int): Task {
    task.(
      planned := if CanBorrowTask(task) then Some(member) else task.planned,
      epoch := task.epoch + 1,
      attempt := Some(Attempt(attempt, member, leaseUntil, 0, false)),
      status := Running,
      assignee := Some(member))
  }

  /** A preparation that failed: retried after its backoff, or blocked for the owner. */
  function PreparationRetry(task: Task, retryAt: Option<int>): Task {
    var attempts := if task.preparation.Some? then task.preparation.value.attempts + 1 else 1;
    task.(epoch := task.epoch + 1, status := if retryAt.Some? then Pending else Blocked,
          preparation := Some(PreparationFailure(attempts, retryAt)))
  }

  /** Lease expiry: a pause or a park spends no recovery credit, and only a live planned owner is kept. */
  function Expired(task: Task, induced: bool, plannedLive: bool, now: int): Task {
    Fenced(ExpiryKeeps(task, induced, plannedLive), Blocked, LeaseExpired, now)
  }

  function ExpiryKeeps(task: Task, induced: bool, plannedLive: bool): Task {
    task.(recoveryCount := if induced then task.recoveryCount else task.recoveryCount + 1,
          assignee := if plannedLive then task.planned else None)
  }

  /**
   * Idle close-out: with its work captured the task goes back to pending,
   * for the member that had it if possible; without, it stays blocked.
   */
  function ClosedOut(task: Task, member: MemberId, captured: Option<nat>, now: int): Task {
    match captured
    case None => Fenced(task, Blocked, Invalidated, now)
    case Some(commit) => Fenced(CloseOutKeeps(task, member, commit), Blocked, WorkerCloseout, now)
  }

  function CloseOutKeeps(task: Task, member: MemberId, commit: nat): Task {
    task.(checkpoint := Some(commit), recoveryCount := task.recoveryCount + 1, assignee := Some(member),
          planned := if task.planned.Some? then task.planned else Some(member))
  }
}
