/**
 * The in-place changes the engine makes to a detached task row, field by
 * field, each proved to be the row transition the run theorems are about.
 */
module TaskRows {
  import opened Wrappers
  import opened Tasks
  import opened Assignment
  import opened Fencing

  class Row {
    var id: TaskId
    var status: Status
    var epoch: nat
    var attempt: Option<Attempt>
    var stop: Option<StopMarker>
    var priorOwners: Option<set<MemberId>>
    var assignee: Option<MemberId>
    var planned: Option<MemberId>
    var mode: Option<Mode>
    var dependencies: seq<TaskId>
    var reviewOf: Option<TaskId>
    var replacing: seq<TaskId>
    var checkpoint: Option<nat>
    var recoveryCount: nat
    var preparation: Option<PreparationFailure>
    var artifact: bool

    /** The record this row now holds, as the store would write it. */
    function Record(): Task
      reads this
    {
      Task(id, status, epoch, attempt, stop, priorOwners, assignee, planned, mode, dependencies, reviewOf, replacing,
           checkpoint, recoveryCount, preparation, artifact)
    }

    /** A detached copy of a stored row. */
    constructor (task: Task)
      ensures Record() == task
    {
      id, status, epoch, attempt, stop := task.id, task.status, task.epoch, task.attempt, task.stop;
      priorOwners, assignee, planned, mode := task.priorOwners, task.assignee, task.planned, task.mode;
      dependencies, reviewOf, replacing := task.dependencies, task.reviewOf, task.replacing;
      checkpoint, recoveryCount, preparation, artifact := task.checkpoint, task.recoveryCount, task.preparation, task.artifact;
    }

    method DropAttempt()
      modifies this`priorOwners, this`attempt
      ensures Record() == Fencing.DropAttempt(old(Record()))
    {
      if attempt.Some? {
        priorOwners := Some(priorOwners.GetOr({}) + {attempt.value.owner});
      }
      attempt := None;
    }

    method EndAttempt()
      modifies this`epoch, this`priorOwners, this`attempt
      ensures Record() == Fencing.EndAttempt(old(Record()))
    {
      epoch := epoch + 1;
      DropAttempt();
    }

    /** Fence the row in place. */
    method FenceForStop(outcome: Status, reason: StopReason, now: int)
      modifies this`status, this`epoch, this`priorOwners, this`attempt, this`stop
      ensures Record() == Fenced(old(Record()), outcome, reason, now)
    {
      var owner := OpenOwner(Record());
      var priorStop := if StopPending(Record()) then stop else None;
      status := outcome;
      if priorStop.None? {
        EndAttempt();
        if owner.Some? {
          stop := Some(StopMarker(epoch, owner, reason, Some(now), None));
        }
      } else {
        DropAttempt();
        if reason.Invalidated? && !priorStop.value.reason.Invalidated? {
          stop := Some(priorStop.value.(reason := reason));
        }
      }
    }

    method Expire(induced: bool, plannedLive: bool, now: int)
      modifies this
      ensures Record() == Expired(old(Record()), induced, plannedLive, now)
    {
      if !induced {
        recoveryCount := recoveryCount + 1;
      }
      if planned.Some? && plannedLive {
        assignee := planned;
      } else {
        assignee := None;
      }
      assert Record() == ExpiryKeeps(old(Record()), induced, plannedLive);
      FenceForStop(Blocked, LeaseExpired, now);
    }

    method CloseOut(member: MemberId, captured: Option<nat>, now: int)
      modifies this
      ensures Record() == ClosedOut(old(Record()), member, captured, now)
    {
      if captured.None? {
        FenceForStop(Blocked, Invalidated, now);
        return;
      }
      checkpoint := captured;
      recoveryCount := recoveryCount + 1;
      assignee := Some(member);
      if planned.None? {
        planned := Some(member);
      }
      assert Record() == CloseOutKeeps(old(Record()), member, captured.value);
      FenceForStop(Blocked, WorkerCloseout, now);
    }

    /** The barrier's release; the caller has checked that the row still owes this stop. */
    method Release(causes: set<BlockCause>, ownerGone: bool)
      requires stop.Some?
      modifies this`assignee, this`status, this`stop
      ensures Record() == Released(old(Record()), causes, ownerGone)
    {
      var reason := stop.value.reason;
      if reason.WorkerCloseout? && stop.value.member.Some? && ownerGone {
        assignee := None;
      }
      if !Terminal(status) {
        status := if StopBlocks(causes, reason) then Blocked else Pending;
      }
      stop := None;
    }

    method Assign(member: MemberId, minted: AttemptId, leaseUntil: int)
      modifies this`planned, this`epoch, this`attempt, this`status, this`assignee
      ensures Record() == Assigned(old(Record()), member, minted, leaseUntil)
    {
      if CanBorrowTask(Record()) {
        planned := Some(member);
      }
      epoch := epoch + 1;
      attempt := Some(Attempt(minted, member, leaseUntil, 0, false));
      status := Running;
      assignee := Some(member);
    }
  }
}
