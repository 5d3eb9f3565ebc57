/**
 * When dispatch may start a task, told by the rows alone and without recursion:
 * what a borrower may take, what keeps a reviewer independent, and when a
 * preference reserves the work.
 */
module DispatchRules {
  import opened Wrappers
  import opened Tasks
  import opened Assignment
  import opened Board
  import opened AttemptRuns

  /** Nobody ever held it; a legacy row without a record of that counts by its epoch. */
  predicate NeverHeld(task: Task) {
    match task.priorOwners
    case Some(holders) => |holders| == 0
    case None => task.epoch == 0
  }

  /** Pending work nobody started, whose assignee is no more than a preference. */
  predicate Untouched(task: Task) {
    NeverHeld(task) && task.attempt.None? && task.stop.None? && task.checkpoint.None?
  }

  lemma BorrowableIff(task: Task)
    ensures CanBorrowTask(task) <==> task.status.Pending? && task.mode == Some(Preferred) && Untouched(task)
  {
    if task.priorOwners.Some? {
      assert task.priorOwners.value == {} <==> |task.priorOwners.value| == 0;
    }
  }

  /** The member holds the task, is to hold it, or once did. */
  predicate HadAHand(task: Task, m: MemberId) {
    || (task.attempt.Some? && task.attempt.value.owner == m)
    || task.assignee == Some(m)
    || (task.priorOwners.Some? && m in task.priorOwners.value)
  }

  lemma IndependentIff(source: Option<Task>, m: MemberId)
    ensures CanOwnReview(source, m) <==> (source.Some? ==> !HadAHand(source.value, m))
  {
  }

  /** Some review of the task, pending, running or submitted, is this member's and nobody else's to take. */
  predicate ReviewerOf(tasks: map<TaskId, Task>, t: TaskId, m: MemberId) {
    exists r <- tasks.Keys ::
      && tasks[r].reviewOf == Some(t) && tasks[r].assignee == Some(m)
      && !tasks[r].status.Accepted? && !tasks[r].status.Blocked? && !tasks[r].status.Cancelled?
      && (tasks[r].status.Pending? ==> tasks[r].mode != Some(Preferred) || !Untouched(tasks[r]))
  }

  lemma StrandsIff(tasks: map<TaskId, Task>, t: TaskId, m: MemberId)
    ensures StrandsReview(tasks, t, m) <==> ReviewerOf(tasks, t, m)
  {
    forall r | r in tasks ensures CanBorrowTask(tasks[r]) <==> tasks[r].status.Pending? && tasks[r].mode == Some(Preferred) && Untouched(tasks[r]) {
      BorrowableIff(tasks[r]);
    }
    if StrandsReview(tasks, t, m) {
      var r :| r in tasks && BoundReview(tasks[r], t, m);
      assert ReviewerOf(tasks, t, m);
    }
    if ReviewerOf(tasks, t, m) {
      var r :| r in tasks && tasks[r].reviewOf == Some(t) && tasks[r].assignee == Some(m)
        && !tasks[r].status.Accepted? && !tasks[r].status.Blocked? && !tasks[r].status.Cancelled?
        && (tasks[r].status.Pending? ==> tasks[r].mode != Some(Preferred) || !Untouched(tasks[r]));
      assert BoundReview(tasks[r], t, m);
    }
  }

  /** The member's own, or free to take and not what the member is to review. */
  lemma AllowsIff(tasks: map<TaskId, Task>, task: Task, m: MemberId)
    ensures AssignmentAllows(tasks, task, m) <==>
      || task.assignee == Some(m)
      || ((task.assignee.None? || (task.status.Pending? && task.mode == Some(Preferred) && Untouched(task))) && !ReviewerOf(tasks, task.id, m))
  {
    BorrowableIff(task);
    StrandsIff(tasks, task.id, m);
  }

  /** Pending, and no longer backing off. */
  predicate Due(task: Task, clock: int) {
    task.status.Pending? &&
    match task.preparation
    case None => true
    case Some(failure) => failure.retryAt.None? || failure.retryAt.value <= clock
  }

  /** Everything it names is on the board, its dependencies are accepted, and what it reviews is submitted work of others. */
  predicate Prepared(b: Board, task: Task, m: MemberId) {
    && (forall d <- task.dependencies :: d in b.tasks && (d in b.effective ==> b.effective[d].status.Accepted?))
    && match task.reviewOf
       case None => true
       case Some(s) => s in b.tasks && b.tasks[s].status.Submitted? && !HadAHand(b.tasks[s], m)
  }

  /** The member owes no stop and has not stopped. */
  predicate Available(b: Board, member: Member) {
    !member.phase.Stopped? && forall t <- b.tasks.Keys :: !OwesStop(b.tasks[t], member.id)
  }

  /** The preferred member could start the task now: available, not at work, answered idle or parked. */
  predicate Reserved(b: Board, task: Task, p: MemberId) {
    && p in b.members && b.members[p].id == p && Available(b, b.members[p])
    && (forall t <- b.tasks.Keys :: OpenOwner(b.tasks[t]) != Some(p))
    && (b.members[p].phase.Parked? || p in b.startable)
    && Due(task, b.clock) && Prepared(b, task, p)
  }

  lemma CapableIff(b: Board, task: Task, m: MemberId)
    ensures b.Capable(task, m) <==> Prepared(b, task, m)
  {
    forall d | d in task.dependencies ensures d in TaskEdges(task) {}
    if task.reviewOf.Some? { assert task.reviewOf.value in TaskEdges(task); }
    forall e | e in TaskEdges(task) ensures e in task.dependencies || task.reviewOf == Some(e) {}
  }

  lemma ReservedIff(b: Board, task: Task, p: MemberId)
    requires task.assignee == Some(p)
    ensures b.PreferenceReserves(task, p) <==> Reserved(b, task, p)
  {
    CapableIff(b, task, p);
    if p in b.members && b.members[p].id == p {
      assert b.Ready(task, b.members[p]) <==> Due(task, b.clock) && Prepared(b, task, p);
    }
  }

  /**
   * Readiness without its recursion: due and prepared, and the member's own; or
   * nobody's, or only preferred and not reserved by whom it prefers, and then
   * not the source of a review bound to the member.
   */
  lemma ReadyIff(b: Board, task: Task, member: Member)
    ensures b.Ready(task, member) <==>
      && Due(task, b.clock) && Prepared(b, task, member.id)
      && match task.assignee
         case None => !ReviewerOf(b.tasks, task.id, member.id)
         case Some(p) =>
           p == member.id
           || (task.mode == Some(Preferred) && Untouched(task) && !Reserved(b, task, p) && !ReviewerOf(b.tasks, task.id, member.id))
  {
    CapableIff(b, task, member.id);
    AllowsIff(b.tasks, task, member.id);
    if task.assignee.Some? { ReservedIff(b, task, task.assignee.value); }
  }

  lemma EligibleIff(b: Board, task: Task, member: Member)
    ensures b.Eligible(task, member) <==> Available(b, member) && b.Ready(task, member)
  {
  }

  /** The row is still the one the preparation was for. */
  predicate Unchanged(current: Task, chosen: Task) {
    (current.epoch, current.assignee, current.planned, current.mode) == (chosen.epoch, chosen.assignee, chosen.planned, chosen.mode)
  }

  /** An assignment takes effect exactly when a slot is free and, on the rows of now, the choice stands, the task is ready and the member is free. */
  lemma AssignmentTakesIff(w: World, job: Job, env: Env, slots: bool, leaseUntil: int)
    ensures Step(w, Assign(job, env, slots, leaseUntil)).rows != w.rows <==>
      && slots && job in w.jobs && job.Preparing? && job.chosen.id in w.rows
      && job.member in env.members && env.members[job.member].id == job.member
      && Unchanged(w.rows[job.chosen.id], job.chosen)
      && BoardOf(w, env).Ready(w.rows[job.chosen.id], env.members[job.member])
      && (forall t <- w.rows.Keys :: !OwesStop(w.rows[t], job.member) && OpenOwner(w.rows[t]) != Some(job.member))
  {
    var e := Assign(job, env, slots, leaseUntil);
    if slots && MayAssign(w, job, env) {
      assert Step(w, e).rows[job.chosen.id].status.Running? && w.rows[job.chosen.id].status.Pending?;
    } else {
      assert Step(w, e).rows == w.rows;
    }
  }

  /** A preparation begins exactly for ready work of a member that owes no stop. */
  lemma PreparationBeginsIff(w: World, t: TaskId, m: MemberId, env: Env)
    requires t in w.rows && Preparing(w.rows[t], m) !in w.jobs
    ensures Preparing(w.rows[t], m) in Step(w, Prepare(t, m, env)).jobs <==>
      && m in env.members && env.members[m].id == m && BoardOf(w, env).Ready(w.rows[t], env.members[m])
      && forall u <- w.rows.Keys :: !OwesStop(w.rows[u], m)
  {
  }
}
