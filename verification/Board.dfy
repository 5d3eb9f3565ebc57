/**
 * The board every dispatch decision reads: the rows of a mission, read together,
 * the members, the adapter's answers and the resolved replacement lineage.
 */
module Board {
  import opened Wrappers
  import opened Tasks
  import opened Assignment

  datatype Phase = Active | Parked | Stopped

  datatype Member = Member(id: MemberId, phase: Phase)

  /**
   * `effective` resolves a referenced id to the row that now carries its
   * obligation, which may be a copy marked blocked when the lineage is
   * ambiguous. `startable` are the handles the adapter answers idle.
   */
  datatype Board = Board(
    tasks: map<TaskId, Task>,
    members: map<MemberId, Member>,
    effective: map<TaskId, Task>,
    startable: set<MemberId>,
    clock: int)
  {
    predicate Dangling(task: Task) {
      exists e <- TaskEdges(task) :: e !in tasks
    }

    /** The row a review names, when it names one. */
    function ReviewSource(task: Task): Option<Task> {
      if task.reviewOf.Some? && task.reviewOf.value in tasks then Some(tasks[task.reviewOf.value]) else None
    }

    /** Not stopped, and owing no stop. */
    predicate TakesWork(member: Member) {
      !member.phase.Stopped? && !PendingStopOwner(tasks, member.id)
    }

    /** The adapter is never asked about a parked member's handle. */
    predicate StartBlocked(member: Member) {
      !member.phase.Parked? && member.id !in startable
    }

    /** Every prerequisite is accepted, and a review's source is submitted by someone else. */
    predicate Capable(task: Task, member: MemberId) {
      && !Dangling(task)
      && (forall d <- task.dependencies :: d in effective ==> effective[d].status.Accepted?)
      && var source := ReviewSource(task);
         source.None? || (source.value.status.Submitted? && CanOwnReview(source, member))
    }

    /** A preference reserves an untouched task only while its member could take it now. */
    predicate PreferenceReserves(task: Task, preferred: MemberId)
      requires task.assignee == Some(preferred)
      decreases 1, 0
    {
      && preferred in members
      && members[preferred].id == preferred
      && Eligible(task, members[preferred])
      && !HasOpenAttempt(tasks, preferred)
      && !StartBlocked(members[preferred])
    }

    predicate Ready(task: Task, member: Member)
      decreases if task.assignee == Some(member.id) then 0 else 2, 0
    {
      && task.status.Pending?
      && (task.preparation.Some? && task.preparation.value.retryAt.Some? ==> task.preparation.value.retryAt.value <= clock)
      && (task.assignee == Some(member.id)
          || (&& AssignmentAllows(tasks, task, member.id)
              && (task.assignee.Some? ==> !PreferenceReserves(task, task.assignee.value))))
      && Capable(task, member.id)
    }

    /** The dispatcher's eligibility. */
    predicate Eligible(task: Task, member: Member)
      decreases if task.assignee == Some(member.id) then 0 else 2, 1
    {
      TakesWork(member) && Ready(task, member)
    }
  }
}
