/** The judgement's questions about one task, told by the rows, the members and the clock alone. */
module WaitRules {
  import opened Wrappers
  import opened Tasks
  import opened Assignment
  import opened Board
  import opened Coverage
  import opened Waiting
  import opened DispatchRules

  /** The row owes a stop, and still within its bound. */
  predicate Stopping(v: View, task: Task) {
    task.stop.Some? && task.stop.value.epoch == task.epoch && task.stop.value.at.Some? && v.board.clock <= task.stop.value.at.value + v.stopBound
  }

  /** A root is blocked work the owner repairs: no review, carried by nothing unfinished, and not stopping within its bound. */
  lemma RootIff(v: View, t: TaskId)
    requires v.Consistent()
    ensures v.Root(t) <==>
      && t in v.board.tasks && v.board.tasks[t].status.Blocked? && v.board.tasks[t].reviewOf.None?
      && !Covered(v.board.tasks, t) && !Stopping(v, v.board.tasks[t])
  {
  }

  predicate MayTake(v: View, review: Task, source: Task, m: MemberId) {
    && m in v.board.members && !v.board.members[m].phase.Stopped? && !HadAHand(source, m)
    && (|| review.assignee == Some(m)
        || ((review.assignee.None? || (review.status.Pending? && review.mode == Some(Preferred) && Untouched(review)))
            && !ReviewerOf(v.board.tasks, review.id, m)))
  }

  /** A live review has begun or may, or is only stopping, and somebody who had no hand in its source may take it. */
  lemma LiveReviewIff(v: View, review: Task, source: Task)
    ensures v.LiveReview(review, source) <==>
      && review.reviewOf == Some(source.id)
      && (review.status.Pending? || review.status.Running? || (review.status.Blocked? && review.stop.Some? && review.stop.value.epoch == review.epoch))
      && exists m <- v.board.members.Keys :: MayTake(v, review, source, m)
  {
    forall m | m in v.board.members
      ensures MayTake(v, review, source, m) <==> v.Live(m) && CanOwnReview(Some(source), m) && AssignmentAllows(v.board.tasks, review, m)
    {
      IndependentIff(Some(source), m);
      AllowsIff(v.board.tasks, review, m);
    }
  }

  /** Whom the work is for: its assignee, or failing that its planned owner. */
  function Intended(task: Task): Option<MemberId> {
    match task.assignee
    case Some(m) => Some(m)
    case None => task.planned
  }

  /** `c` owes a stop the start of `task` waits for: its own, its member's, or one nobody is named for. */
  predicate HoldsBack(c: Task, task: Task) {
    && c.stop.Some? && c.stop.value.epoch == c.epoch
    && match c.stop.value.member
       case None => true
       case Some(m) => c.id == task.id || Intended(task) == Some(m)
  }

  predicate HeldBack(v: View, task: Task) {
    exists c <- v.board.tasks.Keys :: HoldsBack(v.board.tasks[c], task)
  }

  /** The member works on something, and its lease has not run out. */
  predicate AtWork(v: View, m: MemberId) {
    exists c <- v.board.tasks.Keys ::
      var row := v.board.tasks[c];
      row.status.Running? && row.attempt.Some? && row.attempt.value.owner == m && v.board.clock <= row.attempt.value.leaseUntil
  }

  /** Ready work waits for its retry and a tick more; then for stops, all within their bound; then for its member's lease. */
  lemma ReadyWaitsIff(v: View, task: Task)
    ensures v.ReadyWaits(task) <==>
      match task.preparation
      case Some(failure) =>
        failure.retryAt.Some? && (v.board.clock <= failure.retryAt.value + v.tick || WaitsForMember(v, task))
      case None => WaitsForMember(v, task)
  {
    forall c | c in v.board.tasks ensures v.FencesStart(v.board.tasks[c], task) <==> HoldsBack(v.board.tasks[c], task) {}
    var m := if task.assignee.Some? then task.assignee else task.planned;
    assert m == Intended(task);
    if AtWorkFor(v, task) {
      var c :| c in v.board.tasks && v.board.tasks[c].status.Running? && v.board.tasks[c].attempt.Some?
        && v.board.tasks[c].attempt.value.owner == m.value && v.board.clock <= v.board.tasks[c].attempt.value.leaseUntil;
      assert OpenOwner(v.board.tasks[c]) == m;
    }
  }

  predicate AtWorkFor(v: View, task: Task) {
    Intended(task).Some? && AtWork(v, Intended(task).value)
  }

  predicate WaitsForMember(v: View, task: Task) {
    if HeldBack(v, task) then forall c <- v.board.tasks.Keys | HoldsBack(v.board.tasks[c], task) :: Stopping(v, v.board.tasks[c])
    else AtWorkFor(v, task)
  }

  /** Something it depends on is still being worked on. */
  predicate BehindDependency(v: View, task: Task) {
    exists d <- task.dependencies ::
      d in v.board.effective && v.board.effective[d].status != Accepted && v.board.effective[d].status != Cancelled
  }

  /**
   * What waiting comes to by status, for work nothing unfinished carries: an
   * attempt; a review; a repair elsewhere, a stop within its bound or a
   * dependency; and, pending with its edges known, the source's live review, a
   * dependency, or what ready work waits for.
   */
  lemma WaitsByStatus(v: View, t: TaskId)
    requires t in v.board.tasks && t !in v.covered
    ensures var task := v.board.tasks[t];
      v.Waits(t) <==>
      match task.status
      case Running => task.attempt.Some?
      case Submitted => t in v.awaiting || v.Reviewable(task)
      case Blocked =>
        || (task.reviewOf.Some? && (task.reviewOf.value in v.covered || v.Root(task.reviewOf.value)))
        || Stopping(v, task)
        || (!StopPending(task) && BehindDependency(v, task))
      case Pending =>
        && (forall d <- task.dependencies :: d in v.board.tasks)
        && (match task.reviewOf
            case Some(s) => s in v.board.tasks && v.board.tasks[s].status != Accepted && v.board.tasks[s].status != Cancelled && v.Reviewable(v.board.tasks[s])
            case None =>
              || BehindDependency(v, task)
              || (v.ReadyWaits(task) && forall d <- task.dependencies :: d in v.board.effective && v.board.effective[d].status == Accepted))
      case _ => false
  {
    var task := v.board.tasks[t];
    if task.reviewOf.Some? { assert task.reviewOf.value in TaskEdges(task); }
    forall d | d in task.dependencies ensures d in TaskEdges(task) {}
    if v.HasUnfinishedDependency(task) {
      var d :| d in task.dependencies && v.UnfinishedDependency(task, d);
      assert BehindDependency(v, task);
    }
  }

  /** Every deadline a ready task can wait for is over at `clock`. */
  predicate AllOver(v: View, task: Task, clock: int) {
    && (task.preparation.Some? && task.preparation.value.retryAt.Some? ==> task.preparation.value.retryAt.value + v.tick < clock)
    && forall c <- v.board.tasks.Keys ::
         var row := v.board.tasks[c];
         && (row.stop.Some? && row.stop.value.at.Some? ==> row.stop.value.at.value + v.stopBound < clock)
         && (row.attempt.Some? ==> row.attempt.value.leaseUntil < clock)
  }

  /** No ready task waits for ever: on unchanged rows the wait is over once every deadline is. */
  lemma ReadyWaitsRunOut(v: View, task: Task, clock: int)
    requires AllOver(v, task, clock)
    ensures !v.(board := v.board.(clock := clock)).ReadyWaits(task)
  {
    var later := v.(board := v.board.(clock := clock));
    ReadyWaitsIff(later, task);
    if HeldBack(later, task) {
      var c :| c in v.board.tasks && HoldsBack(v.board.tasks[c], task);
      assert !Stopping(later, v.board.tasks[c]);
    }
  }

  /** Dispatchable: pending, and ready for an available member, not at work unless parked; a wedged pass asks of busy ones too. */
  lemma DispatchableIff(v: View, t: TaskId)
    ensures v.Dispatchable(t) <==>
      && t in v.board.tasks && v.board.tasks[t].status.Pending?
      && exists m <- v.board.members.Keys ::
           && Available(v.board, v.board.members[m]) && v.board.Ready(v.board.tasks[t], v.board.members[m])
           && (v.wedged || v.board.members[m].phase.Parked? || forall u <- v.board.tasks.Keys :: OpenOwner(v.board.tasks[u]) != Some(m))
  {
    if t in v.board.tasks {
      forall m | m in v.board.members
        ensures (v.wedged || v.Runnable(m)) && v.board.Eligible(v.board.tasks[t], v.board.members[m]) <==>
          && Available(v.board, v.board.members[m]) && v.board.Ready(v.board.tasks[t], v.board.members[m])
          && (v.wedged || v.board.members[m].phase.Parked? || forall u <- v.board.tasks.Keys :: OpenOwner(v.board.tasks[u]) != Some(m))
      {
        EligibleIff(v.board, v.board.tasks[t], v.board.members[m]);
      }
    }
  }
}
